/** The REST handlers of server.js that decide what is written to the
    `controle_frete` table: validation and defaults on create, status
    derivation on create and on update, field selection on the status
    toggle, and the session gate in front of every API route. The table
    itself, the portal and the HTTP plumbing are outside the model. */
module Server {
  import opened Freight

  /** A JSON request body for POST or PUT. Text holds "" when the key is
      missing, null or empty; dates and amounts hold `None` then. */
  datatype Body = Body(
    numeroNf: string,
    dataEmissao: Option<Date>,
    documento: string,
    valorNf: Option<int>,
    tipoNf: string,
    nomeOrgao: string,
    contatoOrgao: string,
    vendedor: string,
    transportadora: string,
    valorFrete: Option<int>,
    dataColeta: Option<Date>,
    cidadeDestino: string,
    previsaoEntrega: Option<Date>,
    dataEntrega: Option<Date>,
    observacoes: string)

  datatype CreateResult =
    | BadRequest          // 400: a required field is missing; nothing is inserted
    | Inserted(row: Frete) // 201: the row written to the table

  /** `valor || 0`. */
  function AmountOrZero(v: Option<int>): (r: Option<int>)
    ensures r.Some?
    ensures v.None? ==> r == Some(0)
    ensures v.Some? ==> r == v
  {
    Some(v.GetOr(0))
  }

  predicate MissingRequired(b: Body) {
    b.numeroNf == "" || b.nomeOrgao == "" || b.dataColeta.None?
  }

  /** Status on create: chosen from the type alone. */
  function StatusOnCreate(tipo: string): (s: Option<Status>)
    ensures s == None <==> !IsStatusBearing(TipoOrDefault(tipo))
    ensures s != None ==> s == Some(EmTransito)
  {
    if IsStatusBearing(TipoOrDefault(tipo)) then Some(EmTransito) else None
  }

  /** Status on update: from the type and the delivery date. */
  function StatusOnUpdate(tipo: string, dataEntrega: Option<Date>): (s: Option<Status>)
    ensures s == None <==> !IsStatusBearing(TipoOrDefault(tipo))
    ensures s == Some(Entregue) <==> IsStatusBearing(TipoOrDefault(tipo)) && dataEntrega.Some?
    ensures s == Some(EmTransito) <==> IsStatusBearing(TipoOrDefault(tipo)) && dataEntrega.None?
  {
    if !IsStatusBearing(TipoOrDefault(tipo)) then None
    else if dataEntrega.Some? then Some(Entregue)
    else Some(EmTransito)
  }

  /** POST /api/fretes, as written: `newId` is the id the table assigns
      and `today` the server's calendar date. */
  function Create(b: Body, today: Date, newId: int): (r: CreateResult)
    ensures r.BadRequest? <==> MissingRequired(b)
    ensures r.Inserted? ==> r.row.id == newId && r.row.tipoNf == TipoOrDefault(b.tipoNf)
    ensures r.Inserted? ==> (r.row.status == None <==> !IsStatusBearing(r.row.tipoNf))
    ensures r.Inserted? && r.row.status != None ==> r.row.status == Some(EmTransito)
  {
    if MissingRequired(b) then BadRequest
    else Inserted(Frete(
      id := newId,
      numeroNf := b.numeroNf,
      dataEmissao := if b.dataEmissao.Some? then b.dataEmissao else Some(today),
      documento := OrDefault(b.documento, NAO_INFORMADO),
      valorNf := AmountOrZero(b.valorNf),
      tipoNf := TipoOrDefault(b.tipoNf),
      nomeOrgao := b.nomeOrgao,
      contatoOrgao := OrDefault(b.contatoOrgao, NAO_INFORMADO),
      vendedor := OrDefault(b.vendedor, NAO_INFORMADO),
      transportadora := OrDefault(b.transportadora, NAO_INFORMADO),
      valorFrete := AmountOrZero(b.valorFrete),
      dataColeta := b.dataColeta,
      cidadeDestino := OrDefault(b.cidadeDestino, NAO_INFORMADO),
      previsaoEntrega := b.previsaoEntrega,
      dataEntrega := b.dataEntrega,
      status := StatusOnCreate(b.tipoNf),
      observacoes := OrDefault(b.observacoes, "[]")))
  }

  /** Every field a successful create writes: required fields as sent,
      blank descriptive fields as the placeholder, missing amounts as 0,
      a missing issue date as today, a missing observation list as "[]". */
  lemma CreateDefaults(b: Body, today: Date, newId: int)
    requires !MissingRequired(b)
    ensures Create(b, today, newId).Inserted?
    ensures var row := Create(b, today, newId).row;
      && row.numeroNf == b.numeroNf && row.nomeOrgao == b.nomeOrgao && row.dataColeta == b.dataColeta
      && row.dataEmissao == (if b.dataEmissao.None? then Some(today) else b.dataEmissao)
      && row.documento == (if b.documento == "" then NAO_INFORMADO else b.documento)
      && row.contatoOrgao == (if b.contatoOrgao == "" then NAO_INFORMADO else b.contatoOrgao)
      && row.vendedor == (if b.vendedor == "" then NAO_INFORMADO else b.vendedor)
      && row.transportadora == (if b.transportadora == "" then NAO_INFORMADO else b.transportadora)
      && row.cidadeDestino == (if b.cidadeDestino == "" then NAO_INFORMADO else b.cidadeDestino)
      && row.valorNf == Some(b.valorNf.GetOr(0)) && row.valorFrete == Some(b.valorFrete.GetOr(0))
      && row.previsaoEntrega == b.previsaoEntrega && row.dataEntrega == b.dataEntrega
      && row.observacoes == (if b.observacoes == "" then "[]" else b.observacoes)
      && row.documento != "" && row.contatoOrgao != "" && row.vendedor != ""
      && row.transportadora != "" && row.cidadeDestino != "" && row.dataEmissao.Some?
  {
  }

  /** The create path ignores a delivery date sent with the record: a
      delivered ENVIO is stored as in transit, so the stored row breaks
      `StatusConsistent`. */
  lemma CreateDeliveredAsInTransit(b: Body, today: Date, newId: int)
    requires !MissingRequired(b) && IsStatusBearing(TipoOrDefault(b.tipoNf))
    requires b.dataEntrega.Some?
    ensures Create(b, today, newId).row.status == Some(EmTransito)
    ensures Create(b, today, newId).row.dataEntrega.Some?
    ensures !StatusConsistent(Create(b, today, newId).row)
  {
  }

  /** Create as the update path and the browser's form expect it: the
      status is derived from the type and the delivery date. */
  function CreateCorrected(b: Body, today: Date, newId: int): (r: CreateResult)
    ensures r.BadRequest? <==> MissingRequired(b)
    ensures r.Inserted? ==> StatusConsistent(r.row)
    ensures r.Inserted? ==> r.row == Create(b, today, newId).row.(status := r.row.status)
  {
    match Create(b, today, newId)
    case BadRequest => BadRequest
    case Inserted(row) => Inserted(row.(status := StatusOnUpdate(b.tipoNf, b.dataEntrega)))
  }

  /** The two create paths agree whenever no delivery date is sent, which
      is how records are normally created. */
  lemma CreateCorrectedAgrees(b: Body, today: Date, newId: int)
    requires b.dataEntrega.None?
    ensures CreateCorrected(b, today, newId) == Create(b, today, newId)
  {
    match Create(b, today, newId)
    case BadRequest =>
    case Inserted(row) =>
      assert StatusOnUpdate(b.tipoNf, b.dataEntrega) == row.status;
  }

  /** PUT /api/fretes/:id applied to the stored row `stored`: every field is
      taken from the body, the type defaults to ENVIO, a missing delivery
      date is stored as null and the status is re-derived. */
  function Update(stored: Frete, b: Body): (r: Frete)
    ensures r.id == stored.id
    ensures r.tipoNf == TipoOrDefault(b.tipoNf) && r.dataEntrega == b.dataEntrega
    ensures StatusConsistent(r)
    ensures r.numeroNf == b.numeroNf && r.nomeOrgao == b.nomeOrgao && r.dataColeta == b.dataColeta
    ensures r.previsaoEntrega == b.previsaoEntrega && r.valorNf == b.valorNf
    ensures r.observacoes == OrDefault(b.observacoes, "[]")
    // Unlike create, PUT writes the descriptive fields, the amounts and the
    // issue date exactly as sent, with no placeholder and no default.
    ensures r.dataEmissao == b.dataEmissao && r.valorFrete == b.valorFrete
    ensures r.documento == b.documento && r.contatoOrgao == b.contatoOrgao
    ensures r.vendedor == b.vendedor && r.transportadora == b.transportadora
    ensures r.cidadeDestino == b.cidadeDestino
  {
    Frete(
      id := stored.id,
      numeroNf := b.numeroNf,
      dataEmissao := b.dataEmissao,
      documento := b.documento,
      valorNf := b.valorNf,
      tipoNf := TipoOrDefault(b.tipoNf),
      nomeOrgao := b.nomeOrgao,
      contatoOrgao := b.contatoOrgao,
      vendedor := b.vendedor,
      transportadora := b.transportadora,
      valorFrete := b.valorFrete,
      dataColeta := b.dataColeta,
      cidadeDestino := b.cidadeDestino,
      previsaoEntrega := b.previsaoEntrega,
      dataEntrega := b.dataEntrega,
      status := StatusOnUpdate(b.tipoNf, b.dataEntrega),
      observacoes := OrDefault(b.observacoes, "[]"))
  }

  /** A record whose type bears no status keeps a null status through
      create and any sequence of updates. */
  lemma {:induction false} NoStatusThroughUpdates(row: Frete, bodies: seq<Body>)
    requires row.status == None
    requires forall i :: 0 <= i < |bodies| ==> !IsStatusBearing(TipoOrDefault(bodies[i].tipoNf))
    ensures UpdateAll(row, bodies).status == None
    decreases |bodies|
  {
    if |bodies| > 0 {
      NoStatusThroughUpdates(Update(row, bodies[0]), bodies[1..]);
    }
  }

  /** The row after a series of PUT requests. */
  function UpdateAll(row: Frete, bodies: seq<Body>): (r: Frete)
    ensures r.id == row.id
    ensures |bodies| > 0 ==> StatusConsistent(r)
    decreases |bodies|
  {
    if |bodies| == 0 then row else UpdateAll(Update(row, bodies[0]), bodies[1..])
  }

  /** Neither create (even as written) nor update leaves a status-bearing
      row without a status. */
  lemma WrittenRowsCarryStatus(b: Body, today: Date, newId: int, stored: Frete)
    ensures Create(b, today, newId).Inserted? && IsStatusBearing(TipoOrDefault(Create(b, today, newId).row.tipoNf))
            ==> Create(b, today, newId).row.status.Some?
    ensures IsStatusBearing(TipoOrDefault(Update(stored, b).tipoNf)) ==> Update(stored, b).status.Some?
  {
  }

  /** A JSON key that may be missing from a request body. */
  datatype Field<T> = Absent | Present(value: T)

  /** The body of PATCH /api/fretes/:id. */
  datatype PatchBody = PatchBody(status: Option<Status>, dataEntrega: Field<Option<Date>>)

  /** PATCH /api/fretes/:id applied to the stored row: `status` is always
      written, `data_entrega` only when its key is present, nothing else. */
  function Patch(stored: Frete, p: PatchBody): (r: Frete)
    ensures r.status == p.status
    ensures r.dataEntrega == (if p.dataEntrega.Present? then p.dataEntrega.value else stored.dataEntrega)
    ensures r.(status := stored.status, dataEntrega := stored.dataEntrega) == stored
  {
    var withStatus := stored.(status := p.status);
    if p.dataEntrega.Present? then withStatus.(dataEntrega := p.dataEntrega.value) else withStatus
  }

  /** What the portal's verify-session endpoint answered. */
  datatype PortalReply =
    | NotOk                  // a non-2xx response
    | Replied(valid: bool)   // a 2xx response and its `valid` flag
    | Unreachable            // the call threw

  datatype GateOutcome =
    | Proceed               // the route handler runs
    | Unauthorized          // 401
    | InternalError         // 500

  /** Paths that skip authentication. The gate is mounted under `/api`,
      so a path here is the part of the request path below `/api`: "/"
      and "/health" stand for `/api/` and `/api/health`. */
  predicate IsPublicPath(path: string) {
    path == "/" || path == "/health"
  }

  /** `verificarAutenticacao` for a request below `/api`: `path` is the
      request path with `/api` removed, `token` the `x-session-token`
      header ("" when missing) and `reply` what the portal answers for it. */
  function Authenticate(path: string, token: string, reply: PortalReply): (g: GateOutcome)
    ensures IsPublicPath(path) ==> g == Proceed
    ensures !IsPublicPath(path) && token == "" ==> g == Unauthorized
    ensures g == Proceed <==> IsPublicPath(path) || (token != "" && reply == Replied(true))
    ensures g == InternalError <==> !IsPublicPath(path) && token != "" && reply == Unreachable
  {
    if IsPublicPath(path) then Proceed
    else if token == "" then Unauthorized
    else match reply
      case NotOk => Unauthorized
      case Replied(valid) => if valid then Proceed else Unauthorized
      case Unreachable => InternalError
  }
}
