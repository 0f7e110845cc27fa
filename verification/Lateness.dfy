/** "Fora do prazo" (late delivery) as the browser decides it. The rule
    appears in several places with two different type conditions:
    the dashboard counter and the alert list accept every status-bearing
    type, while the FORA_DO_PRAZO filter and the option that offers it
    accept only ENVIO (or no type), and the per-row badge shows late for
    every type it does not paint as a special type. */
module Lateness {
  import opened Freight
  import opened Sequences

  /** The dashboard counter and the alert list: a status-bearing type
      (absent counts as ENVIO), not delivered, with an expected date
      strictly before today. */
  predicate IsLate(f: Frete, today: Date) {
    && IsStatusBearing(TipoOrDefault(f.tipoNf))
    && f.status != Some(Entregue)
    && f.previsaoEntrega.Some?
    && Before(f.previsaoEntrega.value, today)
  }

  /** The FORA_DO_PRAZO filter and the option detection: the same test,
      but only for ENVIO or an absent type. */
  predicate IsLateEnvio(f: Frete, today: Date) {
    && IsEnvioOrAbsent(f.tipoNf)
    && f.status != Some(Entregue)
    && f.previsaoEntrega.Some?
    && Before(f.previsaoEntrega.value, today)
  }

  /** The filter's form is the alert's form restricted to ENVIO; the two
      differ exactly on late SIMPLES_REMESSA and REMESSA_AMOSTRA records. */
  lemma LateEnvioIsLate(f: Frete, today: Date)
    ensures IsLateEnvio(f, today) ==> IsLate(f, today)
    ensures IsLate(f, today) && !IsLateEnvio(f, today)
            <==> IsLate(f, today) && (f.tipoNf == SIMPLES_REMESSA || f.tipoNf == REMESSA_AMOSTRA)
  {
    EnvioIsStatusBearing(f.tipoNf);
  }

  /** A record stays late from the first day it is late until it is
      delivered: lateness only grows as `today` advances. */
  lemma LateStaysLate(f: Frete, today: Date, later: Date)
    requires IsLate(f, today) && !Before(later, today)
    ensures IsLate(f, later)
  {
  }

  /** On a record whose status is consistent with its delivery date, late
      means "in transit and no delivery date". */
  lemma LateMeansUndelivered(f: Frete, today: Date)
    requires StatusConsistent(f) && IsLate(f, today)
    ensures f.status == Some(EmTransito) && f.dataEntrega.None?
  {
  }

  /** The badge a row shows in the status column. */
  datatype Badge =
    | Especial(caption: string)  // the type's label in capitals, grey
    | ForaDoPrazo              // "FORA DO PRAZO"
    | EmTransitoBadge          // "Em Trânsito"
    | EntregueBadge            // "Entregue"
    | NoStatusBadge            // in-transit styling around a null status

  /** `getTipoNfLabel(tipo).toUpperCase()` for the four special types. */
  function SpecialLabel(tipo: string): string {
    if tipo == SIMPLES_REMESSA then "SIMPLES REMESSA"
    else if tipo == REMESSA_AMOSTRA then "REMESSA DE AMOSTRA"
    else if tipo == CANCELADA then "CANCELADA"
    else "DEVOLUÇÃO"
  }

  predicate IsSpecialType(tipo: string) {
    tipo == SIMPLES_REMESSA || tipo == REMESSA_AMOSTRA || tipo == CANCELADA || tipo == DEVOLUCAO
  }

  /** Not delivered and past the expected date, whatever the type. */
  predicate PastDue(f: Frete, today: Date) {
    f.status != Some(Entregue) && f.previsaoEntrega.Some? && Before(f.previsaoEntrega.value, today)
  }

  /** `getStatusBadgeForRender`: special types by label; otherwise late
      when not delivered and past the expected date; otherwise the
      status itself. The type is not defaulted here. */
  function StatusBadge(f: Frete, today: Date): (b: Badge)
    ensures b.Especial? <==> IsSpecialType(f.tipoNf)
    ensures b.Especial? ==> b.caption == SpecialLabel(f.tipoNf)
    ensures b == ForaDoPrazo <==> !IsSpecialType(f.tipoNf) && PastDue(f, today)
    ensures b == EntregueBadge <==> !IsSpecialType(f.tipoNf) && f.status == Some(Entregue)
    ensures b == EmTransitoBadge <==>
      !IsSpecialType(f.tipoNf) && !PastDue(f, today) && f.status == Some(EmTransito)
    ensures b == NoStatusBadge <==> !IsSpecialType(f.tipoNf) && !PastDue(f, today) && f.status == None
  {
    if IsSpecialType(f.tipoNf) then Especial(SpecialLabel(f.tipoNf))
    else if PastDue(f, today) then ForaDoPrazo
    else match f.status
      case Some(EmTransito) => EmTransitoBadge
      case Some(Entregue) => EntregueBadge
      case None => NoStatusBadge
  }

  /** For ENVIO or an absent type, the badge says late exactly when the
      alert list lists the record; for the two other status-bearing types
      the badge never says late, whatever the alert list says. */
  lemma BadgeAgreesForEnvio(f: Frete, today: Date)
    ensures IsEnvioOrAbsent(f.tipoNf) ==> (StatusBadge(f, today) == ForaDoPrazo <==> IsLate(f, today))
    ensures IsEnvioOrAbsent(f.tipoNf) ==> (StatusBadge(f, today) == ForaDoPrazo <==> IsLateEnvio(f, today))
    ensures f.tipoNf == SIMPLES_REMESSA || f.tipoNf == REMESSA_AMOSTRA
            ==> StatusBadge(f, today) != ForaDoPrazo
  {
    EnvioIsStatusBearing(f.tipoNf);
  }

  /** The sort key of the alert list: the expected delivery date. */
  function PrevisaoKey(f: Frete): int {
    match f.previsaoEntrega
    case Some(d) => Ordinal(d)
    case None => 0
  }

  /** The list built by `verificarNotasAtrasadas` and `showAlertModal`:
      the late records, earliest expected date first. */
  function LateAlertList(fretes: seq<Frete>, today: Date): seq<Frete> {
    SortByKey(Filter(fretes, f => IsLate(f, today)), PrevisaoKey)
  }

  /** The alert list holds every late record and nothing else, as many
      times as the collection holds it. */
  lemma LateAlertListMembers(fretes: seq<Frete>, today: Date)
    ensures forall f :: f in LateAlertList(fretes, today) <==> f in fretes && IsLate(f, today)
    ensures forall f :: multiset(LateAlertList(fretes, today))[f]
                        == if IsLate(f, today) then multiset(fretes)[f] else 0
  {
    var r := LateAlertList(fretes, today);
    forall f ensures multiset(r)[f] == if IsLate(f, today) then multiset(fretes)[f] else 0 {
      FilterMultiset(fretes, f => IsLate(f, today), f);
    }
    forall f ensures f in r <==> f in fretes && IsLate(f, today) {
      assert f in r <==> f in multiset(r);
    }
  }

  /** `a` is expected no later than `b`. */
  predicate ExpectedNoLater(a: Frete, b: Frete) {
    a.previsaoEntrega.Some? && b.previsaoEntrega.Some?
    && !Before(b.previsaoEntrega.value, a.previsaoEntrega.value)
  }

  predicate ValidPrevisao(f: Frete) {
    f.previsaoEntrega.Some? ==> ValidDate(f.previsaoEntrega.value)
  }

  /** The alert list runs from the earliest expected date to the latest. */
  lemma LateAlertListOrdered(fretes: seq<Frete>, today: Date)
    requires forall i :: 0 <= i < |fretes| ==> ValidPrevisao(fretes[i])
    ensures forall i, j :: 0 <= i < j < |LateAlertList(fretes, today)|
              ==> ExpectedNoLater(LateAlertList(fretes, today)[i], LateAlertList(fretes, today)[j])
  {
    var late := Filter(fretes, f => IsLate(f, today));
    var r := LateAlertList(fretes, today);
    forall i, j | 0 <= i < j < |r| ensures ExpectedNoLater(r[i], r[j]) {
      assert r[i] in multiset(late) && r[j] in multiset(late);
      assert r[i] in late && r[j] in late;
      assert r[i] in fretes && r[j] in fretes;
      assert PrevisaoKey(r[i]) <= PrevisaoKey(r[j]);
      OrdinalOrdersDates(r[j].previsaoEntrega.value, r[i].previsaoEntrega.value);
    }
  }

  /** Ties keep the collection's order: the records expected on any one
      day appear in the alert list in the order the collection has them. */
  lemma LateAlertListStable(fretes: seq<Frete>, today: Date, day: Date)
    ensures Filter(LateAlertList(fretes, today), f => PrevisaoKey(f) == Ordinal(day))
         == Filter(Filter(fretes, f => IsLate(f, today)), f => PrevisaoKey(f) == Ordinal(day))
  {
    SortByKeyStable(Filter(fretes, f => IsLate(f, today)), PrevisaoKey,
                    f => PrevisaoKey(f) == Ordinal(day), Ordinal(day));
  }
}
