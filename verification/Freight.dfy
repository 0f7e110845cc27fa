/** The freight record ("frete") shared by the server and the browser:
    its fields, its calendar dates, its delivery status and the types
    of invoice ("tipo_nf") for which a status is tracked. */
module Freight {

  datatype Option<+T> = None | Some(value: T) {
    function GetOr(default: T): T {
      match this
      case Some(v) => v
      case None => default
    }
  }

  /** A calendar date as the application stores it ("YYYY-MM-DD"), with
      the time of day already stripped. */
  datatype Date = Date(year: int, month: int, day: int)

  predicate ValidDate(d: Date) {
    1 <= d.month <= 12 && 1 <= d.day <= 31
  }

  /** `a` is an earlier calendar day than `b`. */
  predicate Before(a: Date, b: Date) {
    a.year < b.year
    || (a.year == b.year && a.month < b.month)
    || (a.year == b.year && a.month == b.month && a.day < b.day)
  }

  /** An integer key that orders valid dates by calendar day. */
  function Ordinal(d: Date): int {
    d.year * 416 + d.month * 32 + d.day
  }

  lemma OrdinalOrdersDates(a: Date, b: Date)
    requires ValidDate(a) && ValidDate(b)
    ensures Ordinal(a) < Ordinal(b) <==> Before(a, b)
    ensures Ordinal(a) == Ordinal(b) <==> a == b
  {
    if a.year < b.year {
      assert Ordinal(a) <= a.year * 416 + 415 < (a.year + 1) * 416 <= Ordinal(b);
    } else if a.year > b.year {
      assert Ordinal(b) <= b.year * 416 + 415 < (b.year + 1) * 416 <= Ordinal(a);
    } else if a.month < b.month {
      assert Ordinal(a) <= a.year * 416 + a.month * 32 + 31 < a.year * 416 + (a.month + 1) * 32 <= Ordinal(b);
    } else if a.month > b.month {
      assert Ordinal(b) <= b.year * 416 + b.month * 32 + 31 < b.year * 416 + (b.month + 1) * 32 <= Ordinal(a);
    }
  }

  /** Delivery status; the store column is null for records whose type
      does not track a status (`Option.None`). */
  datatype Status = EmTransito | Entregue

  /** The text stored for a status. */
  function StatusText(s: Status): string {
    match s
    case EmTransito => "EM_TRANSITO"
    case Entregue => "ENTREGUE"
  }

  // The invoice types the application knows. `tipo_nf` is stored as free
  // text; the empty string stands for an absent or null value.
  const ENVIO: string := "ENVIO"
  const CANCELADA: string := "CANCELADA"
  const REMESSA_AMOSTRA: string := "REMESSA_AMOSTRA"
  const SIMPLES_REMESSA: string := "SIMPLES_REMESSA"
  const DEVOLUCAO: string := "DEVOLUCAO"

  /** Placeholder written into blank descriptive fields. */
  const NAO_INFORMADO: string := "NÃO INFORMADO"

  /** `x || d` on a text field: a blank value is replaced by the default
      `d`, any other value is kept. */
  function OrDefault(x: string, d: string): (r: string)
    requires d != ""
    ensures r != ""
    ensures x == "" ==> r == d
    ensures x != "" ==> r == x
  {
    if x == "" then d else x
  }

  /** `tipo_nf || 'ENVIO'`: an absent type counts as ENVIO. */
  function TipoOrDefault(tipo: string): (t: string)
    ensures t != ""
    ensures tipo == "" ==> t == ENVIO
    ensures tipo != "" ==> t == tipo
  {
    OrDefault(tipo, ENVIO)
  }

  /** The types listed in `tiposComStatus`: ENVIO, SIMPLES_REMESSA and
      REMESSA_AMOSTRA. Any other text, known or not, bears no status. */
  predicate IsStatusBearing(tipo: string) {
    tipo == ENVIO || tipo == SIMPLES_REMESSA || tipo == REMESSA_AMOSTRA
  }

  /** `!f.tipo_nf || f.tipo_nf === 'ENVIO'`. */
  predicate IsEnvioOrAbsent(tipo: string) {
    tipo == "" || tipo == ENVIO
  }

  lemma EnvioIsStatusBearing(tipo: string)
    ensures IsEnvioOrAbsent(tipo) ==> IsStatusBearing(TipoOrDefault(tipo))
    ensures IsStatusBearing(TipoOrDefault(tipo)) && !IsEnvioOrAbsent(tipo)
            <==> tipo == SIMPLES_REMESSA || tipo == REMESSA_AMOSTRA
  {
  }

  /** A stored freight record. Text fields hold "" for null, amounts are
      in cents with `None` for null. `observacoes` is the serialised
      observation list, opaque to the server. */
  datatype Frete = Frete(
    id: int,
    numeroNf: string,
    dataEmissao: Option<Date>,
    documento: string,
    valorNf: Option<int>,
    tipoNf: string,
    nomeOrgao: string,
    contatoOrgao: string,
    vendedor: string,
    transportadora: string,
    valorFrete: Option<int>,
    dataColeta: Option<Date>,
    cidadeDestino: string,
    previsaoEntrega: Option<Date>,
    dataEntrega: Option<Date>,
    status: Option<Status>,
    observacoes: string)

  /** The record invariant the status rules aim at: no status for types
      that do not bear one; otherwise ENTREGUE exactly when a delivery
      date is recorded and EM_TRANSITO exactly when it is not. */
  predicate StatusConsistent(f: Frete) {
    if IsStatusBearing(TipoOrDefault(f.tipoNf)) then
      f.status == (if f.dataEntrega.Some? then Some(Entregue) else Some(EmTransito))
    else
      f.status == None
  }
}
