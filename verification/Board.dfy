/** The browser's own state and what it does to it: the in-memory record
    list (`fretes`) with the optimistic delete and its rollback, the
    delivered checkbox that asks the server to toggle a record, and the
    observation list of the record being edited. */
module Board {
  import opened Freight
  import opened Text
  import opened Sequences
  import opened Server

  /** The first record with the given id (`fretes.find`). */
  function FindById(s: seq<Frete>, id: int): (r: Option<Frete>)
    ensures r.None? <==> forall i :: 0 <= i < |s| ==> s[i].id != id
    ensures r.Some? ==> r.value in s && r.value.id == id
    ensures r.Some? ==> r.value == s[IndexOfId(s, id)]
  {
    if s == [] then None
    else if s[0].id == id then Some(s[0])
    else FindById(s[1..], id)
  }

  /** The position of the first record with the given id, -1 when there
      is none (`fretes.findIndex`). */
  function IndexOfId(s: seq<Frete>, id: int): (i: int)
    ensures -1 <= i < |s|
    ensures i == -1 <==> forall k :: 0 <= k < |s| ==> s[k].id != id
    ensures 0 <= i ==> s[i].id == id && forall k :: 0 <= k < i ==> s[k].id != id
  {
    if s == [] then -1
    else if s[0].id == id then 0
    else
      var i := IndexOfId(s[1..], id);
      if i == -1 then -1 else i + 1
  }

  /** `fretes.filter(f => String(f.id) !== idStr)`. */
  function RemoveById(s: seq<Frete>, id: int): seq<Frete> {
    Filter(s, (f: Frete) => f.id != id)
  }

  /** No two records share an id, as the store's primary key promises. */
  predicate UniqueIds(s: seq<Frete>) {
    forall i, j :: 0 <= i < j < |s| ==> s[i].id != s[j].id
  }

  /** Deleting by id removes every record with that id and keeps every
      other record, each as many times as before. */
  lemma RemoveByIdSpec(s: seq<Frete>, id: int)
    ensures forall f :: f in RemoveById(s, id) <==> f in s && f.id != id
    ensures forall f: Frete :: f.id != id ==> multiset(RemoveById(s, id))[f] == multiset(s)[f]
    ensures |RemoveById(s, id)| < |s| <==> exists i :: 0 <= i < |s| && s[i].id == id
  {
    forall f ensures multiset(RemoveById(s, id))[f] == if f.id != id then multiset(s)[f] else 0 {
      FilterMultiset(s, (f: Frete) => f.id != id, f);
    }
    FilterPartition(s, (f: Frete) => f.id != id, (f: Frete) => !(f.id != id));
    if exists i :: 0 <= i < |s| && s[i].id == id {
      var i :| 0 <= i < |s| && s[i].id == id;
      assert s[i] in Filter(s, (f: Frete) => !(f.id != id));
    } else {
      FilterAll(s, (f: Frete) => f.id != id);
    }
  }

  /** A record held once is counted once. */
  lemma {:induction false} UniqueCountsOnce(s: seq<Frete>, f: Frete)
    requires UniqueIds(s) && f in s
    ensures multiset(s)[f] == 1
  {
    if s[0] == f {
      assert f !in s[1..];
      assert s == [s[0]] + s[1..];
    } else {
      assert s == [s[0]] + s[1..];
      UniqueCountsOnce(s[1..], f);
    }
  }

  /** The rollback undoes the optimistic delete up to order: putting the
      deleted record back at the end gives the collection that was there
      before, as a multiset. */
  lemma DeleteThenRestore(s: seq<Frete>, id: int)
    requires UniqueIds(s) && FindById(s, id).Some?
    ensures multiset(RemoveById(s, id) + [FindById(s, id).value]) == multiset(s)
  {
    var f := FindById(s, id).value;
    RemoveByIdSpec(s, id);
    UniqueCountsOnce(s, f);
    forall x ensures multiset(RemoveById(s, id) + [f])[x] == multiset(s)[x] {
      FilterMultiset(s, (f: Frete) => f.id != id, x);
    }
  }

  /** What the checkbox asks the server (`updateData`), or nothing for a
      type that bears no status: the opposite status; a delivery date of
      today when delivering a record without one; no delivery date when
      taking the delivery back. */
  function ToggleRequest(f: Frete, today: Date): Option<PatchBody> {
    if !IsStatusBearing(TipoOrDefault(f.tipoNf)) then None
    else if f.status == Some(Entregue) then Some(PatchBody(Some(EmTransito), Present(None)))
    else if f.dataEntrega.None? then Some(PatchBody(Some(Entregue), Present(Some(today))))
    else Some(PatchBody(Some(Entregue), Absent))
  }

  /** The toggle is offered exactly for the status-bearing types and flips
      delivered and in transit (a record without status becomes
      delivered). Once the server applies it, delivering keeps an
      existing delivery date or records today, taking back clears the
      date, the status agrees with the date, and nothing else changes. */
  lemma ToggleSpec(f: Frete, today: Date)
    ensures ToggleRequest(f, today).Some? <==> IsStatusBearing(TipoOrDefault(f.tipoNf))
    ensures ToggleRequest(f, today).Some? ==>
      var g := Patch(f, ToggleRequest(f, today).value);
      && StatusConsistent(g)
      && (g.status == Some(Entregue) <==> f.status != Some(Entregue))
      && (f.dataEntrega.Some? && f.status != Some(Entregue) ==> g.dataEntrega == f.dataEntrega)
      && (f.dataEntrega.None? && f.status != Some(Entregue) ==> g.dataEntrega == Some(today))
      && (f.status == Some(Entregue) ==> g.dataEntrega == None)
      && g.(status := f.status, dataEntrega := f.dataEntrega) == f
  {
  }

  /** Ticking and unticking a record in transit gives it back unchanged,
      whatever day each click happens on. */
  lemma ToggleTwice(f: Frete, today: Date, later: Date)
    requires StatusConsistent(f) && IsStatusBearing(TipoOrDefault(f.tipoNf)) && f.status == Some(EmTransito)
    ensures ToggleRequest(f, today).Some?
    ensures ToggleRequest(Patch(f, ToggleRequest(f, today).value), later).Some?
    ensures Patch(Patch(f, ToggleRequest(f, today).value),
                  ToggleRequest(Patch(f, ToggleRequest(f, today).value), later).value) == f
  {
    var g := Patch(f, ToggleRequest(f, today).value);
    assert g.status == Some(Entregue) && g.tipoNf == f.tipoNf;
  }

  /** The record list as the page holds it. */
  class FreightBoard {
    var fretes: seq<Frete>

    constructor (loaded: seq<Frete>)
      ensures fretes == loaded
    {
      fretes := loaded;
    }

    /** `handleDeleteClick`: nothing happens when the id is unknown or
        the user does not confirm; otherwise every record with the id is
        dropped at once and the deleted record is returned, to be sent
        to the server's DELETE. */
    method HandleDeleteClick(id: int, confirmed: bool) returns (deleted: Option<Frete>)
      modifies this
      ensures deleted == (if confirmed then FindById(old(fretes), id) else None)
      ensures fretes == if deleted.Some? then RemoveById(old(fretes), id) else old(fretes)
    {
      var found := FindById(fretes, id);
      if found.None? || !confirmed {
        deleted := None;
        return;
      }
      fretes := RemoveById(fretes, id);
      deleted := found;
    }

    /** The `catch` of the DELETE: the record goes back at the end. */
    method RestoreDeleted(f: Frete)
      modifies this
      ensures fretes == old(fretes) + [f]
    {
      fretes := fretes + [f];
    }

    /** `handleCheckboxChange` up to the request: the PATCH body for the
        record with the id, or nothing for an unknown id, a type without
        status, or a page that is neither online nor in development
        mode. */
    method HandleCheckboxChange(id: int, today: Date, online: bool) returns (request: Option<PatchBody>)
      ensures request.Some? <==>
        online && FindById(fretes, id).Some? && IsStatusBearing(TipoOrDefault(FindById(fretes, id).value.tipoNf))
      ensures request.Some? ==> request == ToggleRequest(FindById(fretes, id).value, today)
    {
      var frete := FindById(fretes, id);
      if frete.None? || !online {
        request := None;
        return;
      }
      request := ToggleRequest(frete.value, today);
    }

    /** The successful PATCH: the first record with the id is replaced by
        the row the server sent back. */
    method ApplyPatchResponse(id: int, saved: Frete)
      modifies this
      ensures |fretes| == |old(fretes)|
      ensures var i := IndexOfId(old(fretes), id);
        fretes == if i == -1 then old(fretes) else old(fretes)[i := saved]
    {
      var index := IndexOfId(fretes, id);
      if index != -1 {
        fretes := fretes[index := saved];
      }
    }
  }

  /** A toggle that the server applies to the page's own copy of the
      record leaves that copy consistent and the rest of the list as it
      was. */
  lemma ToggleRoundTrip(s: seq<Frete>, id: int, today: Date)
    requires IndexOfId(s, id) != -1
    requires ToggleRequest(s[IndexOfId(s, id)], today).Some?
    ensures var i := IndexOfId(s, id);
      var t := s[i := Patch(s[i], ToggleRequest(s[i], today).value)];
      && StatusConsistent(t[i])
      && forall k :: 0 <= k < |s| && k != i ==> t[k] == s[k]
  {
    var i := IndexOfId(s, id);
    ToggleSpec(s[i], today);
  }

  /** One entry of the observation list. */
  datatype Observacao = Observacao(texto: string, timestamp: string, username: string)

  /** The name an observation is signed with when the session stores no
      user name. */
  const ANONYMOUS: string := "Usuário"

  /** `splice(index, 1)`: a negative index counts from the end, an index
      out of range removes nothing. */
  function Splice1<T>(s: seq<T>, index: int): (r: seq<T>)
    ensures |r| == if s != [] && index < |s| then |s| - 1 else |s|
  {
    var start := if index < 0 then (if |s| + index < 0 then 0 else |s| + index)
                 else (if index > |s| then |s| else index);
    if start < |s| then s[..start] + s[start + 1..] else s
  }

  /** Removing at an index in range drops exactly that element, keeping
      the others in order; an index out of range changes nothing. */
  lemma SpliceRemovesOne<T>(s: seq<T>, index: int)
    ensures 0 <= index < |s| ==>
      multiset(Splice1(s, index)) + multiset{s[index]} == multiset(s)
      && (forall k :: 0 <= k < index ==> Splice1(s, index)[k] == s[k])
      && (forall k :: index <= k < |s| - 1 ==> Splice1(s, index)[k] == s[k + 1])
    ensures -|s| <= index < 0 ==> Splice1(s, index) == Splice1(s, |s| + index)
    ensures (index < -|s| && s != []) ==> Splice1(s, index) == s[1..]
    ensures index >= |s| ==> Splice1(s, index) == s
  {
    if 0 <= index < |s| {
      assert s == s[..index] + [s[index]] + s[index + 1..];
    }
  }

  /** Removing the observation just added gives the list back. */
  lemma RemoveLastAdded(s: seq<Observacao>, o: Observacao)
    ensures Splice1(s + [o], |s|) == s
    ensures Splice1(s + [o], -1) == s
  {
    assert (s + [o])[..|s|] == s;
  }

  /** The observation panel of the form: the list of entries and the
      text area (`novaObservacao`). */
  class ObservationPanel {
    var entries: seq<Observacao>
    var draft: string

    constructor (stored: seq<Observacao>)
      ensures entries == stored && draft == ""
    {
      entries := stored;
      draft := "";
    }

    /** `adicionarObservacao`: a blank text is refused and nothing
        changes; otherwise the trimmed text is appended with the time and
        the signature, and the text area is cleared. */
    method Add(timestamp: string, storedUser: string) returns (added: bool)
      modifies this
      ensures added <==> Trim(old(draft)) != ""
      ensures !added ==> entries == old(entries) && draft == old(draft)
      ensures added ==> entries == old(entries) + [Observacao(Trim(old(draft)), timestamp, OrDefault(storedUser, ANONYMOUS))]
                        && draft == ""
    {
      var texto := Trim(draft);
      if texto == "" {
        added := false;
        return;
      }
      entries := entries + [Observacao(texto, timestamp, OrDefault(storedUser, ANONYMOUS))];
      draft := "";
      added := true;
    }

    /** `removerObservacao`. */
    method Remove(index: int)
      modifies this
      ensures entries == Splice1(old(entries), index)
      ensures draft == old(draft)
    {
      entries := Splice1(entries, index);
    }
  }

  /** An added observation is never blank and is signed. */
  lemma AddedEntryWellFormed(draft: string, timestamp: string, storedUser: string)
    requires Trim(draft) != ""
    ensures var o := Observacao(Trim(draft), timestamp, OrDefault(storedUser, ANONYMOUS));
      o.texto != "" && !IsSpace(o.texto[0]) && !IsSpace(o.texto[|o.texto| - 1]) && o.username != ""
  {
    TrimEdges(draft);
  }
}
