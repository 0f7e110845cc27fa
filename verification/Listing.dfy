/** What the browser derives from the record collection for display:
    the filtered and sorted table of the current month (`filterFretes`),
    the options of the carrier, seller and status filters, the dashboard
    counters, and the colours of the yearly per-month cards. */
module Listing {
  import opened Freight
  import opened Text
  import opened Sequences
  import opened Lateness

  /** The month on screen (`currentMonth`). */
  datatype Month = Month(year: int, month: int)

  /** The issue date falls in the month; a record without one never does. */
  predicate InMonth(f: Frete, m: Month) {
    f.dataEmissao.Some? && f.dataEmissao.value.year == m.year && f.dataEmissao.value.month == m.month
  }

  /** The value of the status select: empty, the synthetic FORA_DO_PRAZO,
      or one status. */
  datatype StatusFilter = AnyStatus | ForaDoPrazoOnly | OnlyStatus(status: Status)

  /** The four filter inputs; "" means the input is empty. */
  datatype Criteria = Criteria(search: string, transportadora: string, vendedor: string, status: StatusFilter)

  /** The fields the search box looks into. */
  function SearchFields(f: Frete): seq<string> {
    [f.numeroNf, f.transportadora, f.nomeOrgao, f.cidadeDestino, f.vendedor, f.documento, f.contatoOrgao]
  }

  /** Some non-empty search field contains the (lower-cased) term,
      ignoring case. */
  predicate MatchesSearch(f: Frete, term: string) {
    exists i | 0 <= i < |SearchFields(f)| :: SearchFields(f)[i] != "" && Contains(Lower(SearchFields(f)[i]), term)
  }

  predicate MatchesStatus(f: Frete, sf: StatusFilter, today: Date) {
    match sf
    case AnyStatus => true
    case ForaDoPrazoOnly => IsLateEnvio(f, today)
    case OnlyStatus(s) => f.status == Some(s)
  }

  /** The sort key of the table: `parseInt(numero_nf) || 0`. */
  function NfKey(f: Frete): int {
    ParseIntOrZero(f.numeroNf)
  }

  /** Everything a record must satisfy to be shown. */
  predicate Selected(f: Frete, m: Month, c: Criteria, today: Date) {
    && InMonth(f, m)
    && (c.transportadora == "" || f.transportadora == c.transportadora)
    && (c.vendedor == "" || f.vendedor == c.vendedor)
    && MatchesStatus(f, c.status, today)
    && (Lower(c.search) == "" || MatchesSearch(f, Lower(c.search)))
  }

  /** The filter chain of `filterFretes`: the month filter, then each
      filter whose input is not empty, in the order the code applies
      them. It keeps exactly the selected records, each as many times as
      the collection holds it. */
  function Candidates(fretes: seq<Frete>, m: Month, c: Criteria, today: Date): (r: seq<Frete>)
    ensures forall f :: multiset(r)[f] == if Selected(f, m, c, today) then multiset(fretes)[f] else 0
  {
    var term := Lower(c.search);
    var inMonth := Narrow(fretes, true, (f: Frete) => InMonth(f, m));
    var byCarrier := Narrow(inMonth, c.transportadora != "", (f: Frete) => f.transportadora == c.transportadora);
    var bySeller := Narrow(byCarrier, c.vendedor != "", (f: Frete) => f.vendedor == c.vendedor);
    var byStatus := Narrow(bySeller, c.status != AnyStatus, (f: Frete) => MatchesStatus(f, c.status, today));
    Narrow(byStatus, term != "", (f: Frete) => MatchesSearch(f, term))
  }

  /** `filterFretes`: the selected records sorted by invoice number. */
  function FilterFretes(fretes: seq<Frete>, m: Month, c: Criteria, today: Date): seq<Frete> {
    SortByKey(Candidates(fretes, m, c, today), NfKey)
  }

  /** The table shows exactly the selected records of the collection, each
      as many times as the collection holds it, in ascending invoice
      number. */
  lemma FilterFretesSpec(fretes: seq<Frete>, m: Month, c: Criteria, today: Date)
    ensures forall f :: multiset(FilterFretes(fretes, m, c, today))[f]
                        == if Selected(f, m, c, today) then multiset(fretes)[f] else 0
    ensures forall f :: f in FilterFretes(fretes, m, c, today) <==> f in fretes && Selected(f, m, c, today)
    ensures forall i, j :: 0 <= i < j < |FilterFretes(fretes, m, c, today)|
              ==> NfKey(FilterFretes(fretes, m, c, today)[i]) <= NfKey(FilterFretes(fretes, m, c, today)[j])
  {
    var r := FilterFretes(fretes, m, c, today);
    assert multiset(r) == multiset(Candidates(fretes, m, c, today));
    forall f ensures f in r <==> f in fretes && Selected(f, m, c, today) {
      assert f in r <==> f in multiset(r);
      assert f in fretes <==> f in multiset(fretes);
    }
  }

  /** With the FORA_DO_PRAZO filter on, the table shows only late records
      of type ENVIO (or no type). */
  lemma ForaDoPrazoFilterShowsLateEnvio(fretes: seq<Frete>, m: Month, c: Criteria, today: Date)
    requires c.status == ForaDoPrazoOnly
    ensures forall f :: f in FilterFretes(fretes, m, c, today)
              ==> IsEnvioOrAbsent(f.tipoNf) && IsLate(f, today) && InMonth(f, m)
  {
    FilterFretesSpec(fretes, m, c, today);
    forall f | f in FilterFretes(fretes, m, c, today)
      ensures IsEnvioOrAbsent(f.tipoNf) && IsLate(f, today)
    {
      LateEnvioIsLate(f, today);
    }
  }

  /** `v` is the trimmed, non-blank value of the field in one of the
      first `i` records. */
  ghost predicate Offered(fretes: seq<Frete>, field: Frete -> string, i: int, v: string)
    requires 0 <= i <= |fretes|
  {
    exists k :: 0 <= k < i && Trim(field(fretes[k])) == v && v != ""
  }

  /** The values the set holds after the first `i` records, in the order
      they were first met. */
  function Collected(fretes: seq<Frete>, field: Frete -> string, i: nat): seq<string>
    requires i <= |fretes|
  {
    if i == 0 then []
    else
      var before := Collected(fretes, field, i - 1);
      var t := Trim(field(fretes[i - 1]));
      if t != "" && t !in before then before + [t] else before
  }

  /** The set holds each offered value once and nothing else. */
  lemma {:induction false} CollectedSpec(fretes: seq<Frete>, field: Frete -> string, i: nat)
    requires i <= |fretes|
    ensures forall a, b :: 0 <= a < b < |Collected(fretes, field, i)|
              ==> Collected(fretes, field, i)[a] != Collected(fretes, field, i)[b]
    ensures forall v :: v in Collected(fretes, field, i) <==> Offered(fretes, field, i, v)
  {
    if i > 0 {
      CollectedSpec(fretes, field, i - 1);
      var t := Trim(field(fretes[i - 1]));
      forall v ensures Offered(fretes, field, i, v) <==> Offered(fretes, field, i - 1, v) || (v == t && v != "") {
        if Offered(fretes, field, i, v) && !(v == t && v != "") {
          var k :| 0 <= k < i && Trim(field(fretes[k])) == v && v != "";
          assert k < i - 1;
        }
      }
    }
  }

  /** The loop shared by `updateTransportadoraFilter` and
      `updateVendedorFilter`: collect the distinct trimmed non-blank values
      in a set, then sort them. */
  method FilterOptions(fretes: seq<Frete>, field: Frete -> string) returns (options: seq<string>)
    ensures StrictlySorted(options)
    ensures forall v :: v in options <==> Offered(fretes, field, |fretes|, v)
  {
    var seen: seq<string> := [];
    var i := 0;
    while i < |fretes|
      invariant 0 <= i <= |fretes|
      invariant seen == Collected(fretes, field, i)
    {
      var t := Trim(field(fretes[i]));
      if t != "" && t !in seen {
        seen := seen + [t];
      }
      i := i + 1;
    }
    CollectedSpec(fretes, field, i);
    SortStringsSorted(seen);
    options := SortStrings(seen);
    forall v ensures v in options <==> v in seen {
      assert v in options <==> v in multiset(options);
    }
  }

  /** `updateTransportadoraFilter`: the carriers to choose from. */
  method UpdateTransportadoraFilter(fretes: seq<Frete>) returns (options: seq<string>)
    ensures StrictlySorted(options)
    ensures forall v :: v in options <==>
      exists k :: 0 <= k < |fretes| && Trim(fretes[k].transportadora) == v && v != ""
  {
    options := FilterOptions(fretes, (f: Frete) => f.transportadora);
  }

  /** `updateVendedorFilter`: the sellers to choose from. */
  method UpdateVendedorFilter(fretes: seq<Frete>) returns (options: seq<string>)
    ensures StrictlySorted(options)
    ensures forall v :: v in options <==>
      exists k :: 0 <= k < |fretes| && Trim(fretes[k].vendedor) == v && v != ""
  {
    options := FilterOptions(fretes, (f: Frete) => f.vendedor);
  }

  /** `updateStatusFilter`: whether to offer FORA_DO_PRAZO (some record is
      late by the ENVIO-only rule) and the statuses present, in the
      order of their stored text. */
  method UpdateStatusFilter(fretes: seq<Frete>, today: Date) returns (foraDoPrazo: bool, statuses: seq<Status>)
    ensures foraDoPrazo <==> exists k :: 0 <= k < |fretes| && IsLateEnvio(fretes[k], today)
    ensures forall s :: s in statuses <==> exists k :: 0 <= k < |fretes| && fretes[k].status == Some(s)
    ensures forall a, b :: 0 <= a < b < |statuses| ==> StrLess(StatusText(statuses[a]), StatusText(statuses[b]))
  {
    var emTransito, entregue := false, false;
    foraDoPrazo := false;
    var i := 0;
    while i < |fretes|
      invariant 0 <= i <= |fretes|
      invariant foraDoPrazo <==> exists k :: 0 <= k < i && IsLateEnvio(fretes[k], today)
      invariant emTransito <==> exists k :: 0 <= k < i && fretes[k].status == Some(EmTransito)
      invariant entregue <==> exists k :: 0 <= k < i && fretes[k].status == Some(Entregue)
    {
      var f := fretes[i];
      if f.status == Some(EmTransito) {
        emTransito := true;
      } else if f.status == Some(Entregue) {
        entregue := true;
      }
      if IsEnvioOrAbsent(f.tipoNf) && f.status != Some(Entregue) && f.previsaoEntrega.Some? {
        if Before(f.previsaoEntrega.value, today) {
          foraDoPrazo := true;
        }
      }
      i := i + 1;
    }
    // `Array.from(statusSet).sort()`
    if emTransito && entregue {
      StatusTextOrder();
      statuses := [EmTransito, Entregue];
    } else if emTransito {
      statuses := [EmTransito];
    } else if entregue {
      statuses := [Entregue];
    } else {
      statuses := [];
    }
    forall s ensures s in statuses <==> exists k :: 0 <= k < |fretes| && fretes[k].status == Some(s) {
      match s
      case EmTransito => assert s in statuses <==> emTransito;
      case Entregue => assert s in statuses <==> entregue;
    }
  }

  /** "EM_TRANSITO" sorts before "ENTREGUE". */
  lemma StatusTextOrder()
    ensures StrLess(StatusText(EmTransito), StatusText(Entregue))
  {
    assert StatusText(EmTransito)[1..] == "M_TRANSITO";
    assert StatusText(Entregue)[1..] == "NTREGUE";
  }

  /** The dashboard cards. */
  datatype Dashboard = Dashboard(entregues: nat, foraPrazo: nat, transito: nat, valorTotal: int, freteTotal: int)

  /** The sum of an amount over records, a missing amount counting 0
      (`reduce((sum, f) => sum + parseFloat(x || 0), 0)`). */
  function Total(s: seq<Frete>, amount: Frete -> Option<int>): int {
    if s == [] then 0 else amount(s[0]).GetOr(0) + Total(s[1..], amount)
  }

  function ValorNfOf(f: Frete): Option<int> {
    f.valorNf
  }

  function ValorFreteOf(f: Frete): Option<int> {
    f.valorFrete
  }

  /** The total of a filtered sequence, one element at a time. */
  lemma TotalFilterStep(s: seq<Frete>, p: Frete -> bool, amount: Frete -> Option<int>)
    requires s != []
    ensures Total(Filter(s, p), amount)
            == (if p(s[0]) then amount(s[0]).GetOr(0) else 0) + Total(Filter(s[1..], p), amount)
  {
    var rest := Filter(s[1..], p);
    if p(s[0]) {
      assert ([s[0]] + rest)[1..] == rest;
    }
  }

  predicate BearsStatus(f: Frete) {
    IsStatusBearing(TipoOrDefault(f.tipoNf))
  }

  /** `updateDashboard`: delivered and in-transit counts over the month's
      status-bearing records, the late count over all status-bearing
      records of every month, and the month's ENVIO totals. */
  function UpdateDashboard(fretes: seq<Frete>, m: Month, today: Date): Dashboard {
    var mes := Filter(fretes, (f: Frete) => InMonth(f, m));
    var comStatusMes := Filter(mes, BearsStatus);
    var comStatusTodos := Filter(fretes, BearsStatus);
    var envio := Filter(mes, (f: Frete) => IsEnvioOrAbsent(f.tipoNf));
    Dashboard(
      entregues := |Filter(comStatusMes, (f: Frete) => f.status == Some(Entregue))|,
      foraPrazo := |Filter(comStatusTodos, (f: Frete) => f.status != Some(Entregue) && f.previsaoEntrega.Some?
                                                && Before(f.previsaoEntrega.value, today))|,
      transito := |Filter(comStatusMes, (f: Frete) => f.status == Some(EmTransito))|,
      valorTotal := Total(envio, ValorNfOf),
      freteTotal := Total(envio, ValorFreteOf))
  }

  /** The late counter on the dashboard counts exactly the records the
      alert list shows, whatever the month on screen. */
  lemma DashboardLateMatchesAlertList(fretes: seq<Frete>, m: Month, today: Date)
    ensures UpdateDashboard(fretes, m, today).foraPrazo == |LateAlertList(fretes, today)|
  {
    FilterTwice(fretes, BearsStatus,
                (f: Frete) => f.status != Some(Entregue) && f.previsaoEntrega.Some? && Before(f.previsaoEntrega.value, today),
                (f: Frete) => IsLate(f, today));
  }

  /** When every status-bearing record has a status, as every row created
      or updated through the server does, each status-bearing record of the month is
      counted either as delivered or as in transit, never both and never
      neither. */
  lemma DashboardCountsPartition(fretes: seq<Frete>, m: Month, today: Date)
    requires forall i :: 0 <= i < |fretes| ==> BearsStatus(fretes[i]) ==> fretes[i].status.Some?
    ensures UpdateDashboard(fretes, m, today).entregues + UpdateDashboard(fretes, m, today).transito
            == |Filter(Filter(fretes, (f: Frete) => InMonth(f, m)), BearsStatus)|
  {
    var comStatusMes := Filter(Filter(fretes, (f: Frete) => InMonth(f, m)), BearsStatus);
    forall f | f in comStatusMes ensures f.status == Some(Entregue) || f.status == Some(EmTransito) {
      assert f in fretes && BearsStatus(f);
      match f.status.value
      case Entregue =>
      case EmTransito =>
    }
    var delivered := (f: Frete) => f.status == Some(Entregue);
    var consistentlyInTransit := (f: Frete) => !(f.status == Some(Entregue));
    FilterPartition(comStatusMes, delivered, consistentlyInTransit);
    FilterExt(comStatusMes, consistentlyInTransit, (f: Frete) => f.status == Some(EmTransito));
  }

  /** Two filters whose conditions agree on the elements give the same
      result. */
  lemma {:induction false} FilterExt(s: seq<Frete>, p: Frete -> bool, q: Frete -> bool)
    requires forall i :: 0 <= i < |s| ==> p(s[i]) == q(s[i])
    ensures Filter(s, p) == Filter(s, q)
  {
    if s != [] {
      FilterExt(s[1..], p, q);
    }
  }

  /** `renderizarGrafico`: the ENVIO records of the year in month `i`
      (0 for January, as `getMonth` counts). */
  predicate EnvioInMonth(f: Frete, year: int, i: int) {
    IsEnvioOrAbsent(f.tipoNf) && InMonth(f, Month(year, i + 1))
  }

  function EnvioMonth(year: int, i: int): Frete -> bool {
    (f: Frete) => EnvioInMonth(f, year, i)
  }

  /** The invoice total of one month of the chart. */
  function MonthValue(fretes: seq<Frete>, year: int, i: int): int {
    Total(Filter(fretes, EnvioMonth(year, i)), ValorNfOf)
  }

  /** `dadosMensais[..].valor`: the twelve monthly invoice totals. */
  function MonthlyValues(fretes: seq<Frete>, year: int): (v: seq<int>)
    ensures |v| == 12
  {
    seq(12, i => MonthValue(fretes, year, i))
  }

  /** The dashboard's invoice total for a month and that month's bar of
      the chart count the same records. */
  lemma DashboardMatchesChart(fretes: seq<Frete>, year: int, month: int, today: Date)
    ensures UpdateDashboard(fretes, Month(year, month), today).valorTotal == MonthValue(fretes, year, month - 1)
  {
    FilterTwice(fretes, (f: Frete) => InMonth(f, Month(year, month)), (f: Frete) => IsEnvioOrAbsent(f.tipoNf),
                EnvioMonth(year, month - 1));
  }

  /** The first `n` entries of `v` added up; the chart's yearly total card
      is `SumTo(v, 12)`. */
  function SumTo(v: seq<int>, n: nat): int
    requires n <= |v|
  {
    if n == 0 then 0 else SumTo(v, n - 1) + v[n - 1]
  }

  /** An ENVIO record issued in `year` on a valid month. */
  predicate EnvioInYear(f: Frete, year: int) {
    IsEnvioOrAbsent(f.tipoNf) && f.dataEmissao.Some? && f.dataEmissao.value.year == year
    && 1 <= f.dataEmissao.value.month <= 12
  }

  /** The year's invoice total summed record by record: the reference the
      chart's yearly total is checked against. */
  function YearValue(fretes: seq<Frete>, year: int): int {
    if fretes == [] then 0
    else (if EnvioInYear(fretes[0], year) then fretes[0].valorNf.GetOr(0) else 0) + YearValue(fretes[1..], year)
  }

  /** What one record adds to the first `n` months of the chart. */
  function RecordShare(f: Frete, year: int, n: nat): int {
    if n == 0 then 0 else RecordShare(f, year, n - 1) + (if EnvioInMonth(f, year, n - 1) then f.valorNf.GetOr(0) else 0)
  }

  /** A record lands in exactly one month of its year, and in none of
      another year. */
  lemma {:induction false} RecordShareValue(f: Frete, year: int, n: nat)
    requires n <= 12
    ensures RecordShare(f, year, n)
            == if EnvioInYear(f, year) && f.dataEmissao.value.month <= n then f.valorNf.GetOr(0) else 0
  {
    if n > 0 {
      RecordShareValue(f, year, n - 1);
    }
  }

  lemma {:induction false} ChartOfNothing(year: int, n: nat)
    requires n <= 12
    ensures SumTo(MonthlyValues([], year), n) == 0
  {
    if n > 0 {
      ChartOfNothing(year, n - 1);
    }
  }

  lemma {:induction false} ChartStep(s: seq<Frete>, year: int, n: nat)
    requires s != [] && n <= 12
    ensures SumTo(MonthlyValues(s, year), n) == RecordShare(s[0], year, n) + SumTo(MonthlyValues(s[1..], year), n)
  {
    if n > 0 {
      ChartStep(s, year, n - 1);
      TotalFilterStep(s, EnvioMonth(year, n - 1), ValorNfOf);
    }
  }

  /** The chart's yearly total is the year's ENVIO invoice total: each
      record is counted once, in the month it was issued. */
  lemma {:induction false} YearTotal(fretes: seq<Frete>, year: int)
    ensures SumTo(MonthlyValues(fretes, year), 12) == YearValue(fretes, year)
  {
    if fretes == [] {
      ChartOfNothing(year, 12);
    } else {
      ChartStep(fretes, year, 12);
      RecordShareValue(fretes[0], year, 12);
      YearTotal(fretes[1..], year);
    }
  }

  /** The colour of a month's card. */
  datatype Push = PushGray | PushGreen | PushRed

  /** `gerarDashboard`: January and empty months are grey; otherwise the
      month is compared with the one before. */
  function PushClass(valores: seq<int>, index: nat): (p: Push)
    requires index < |valores|
  {
    if index == 0 then PushGray
    else if valores[index] == 0 then PushGray
    else if valores[index] > valores[index - 1] then PushGreen
    else if valores[index] < valores[index - 1] then PushRed
    else PushGray
  }

  /** `renderizarDashboards`: the first semester with indices 0..5 and the
      second with indices 6..11 (`idx + 6`). */
  function RenderPushes(valores: seq<int>): (r: seq<Push>)
    requires |valores| == 12
    ensures |r| == 12
    ensures forall i :: 0 <= i < 12 ==>
      (r[i] == PushGreen <==> i > 0 && valores[i] != 0 && valores[i] > valores[i - 1])
    ensures forall i :: 0 <= i < 12 ==>
      (r[i] == PushRed <==> i > 0 && valores[i] != 0 && valores[i] < valores[i - 1])
  {
    seq(6, idx requires 0 <= idx < 6 => PushClass(valores, idx))
      + seq(6, idx requires 0 <= idx < 6 => PushClass(valores, idx + 6))
  }

  /** Month `i` holds a positive total above the month before. */
  predicate Rises(valores: seq<int>, i: int)
    requires 0 < i < |valores|
  {
    0 < valores[i - 1] < valores[i]
  }

  /** Month `i` holds a positive total below the month before. */
  predicate Falls(valores: seq<int>, i: int)
    requires 0 < i < |valores|
  {
    0 < valores[i] < valores[i - 1]
  }

  /** Over a year whose non-empty months all rise, every month from
      February on is green; over one whose months all fall, red. */
  lemma PushesFollowTrend(valores: seq<int>)
    requires |valores| == 12
    ensures (forall i :: 0 < i < 12 ==> Rises(valores, i))
            ==> forall i :: 0 < i < 12 ==> RenderPushes(valores)[i] == PushGreen
    ensures (forall i :: 0 < i < 12 ==> Falls(valores, i))
            ==> forall i :: 0 < i < 12 ==> RenderPushes(valores)[i] == PushRed
  {
    forall i | 0 < i < 12 && Rises(valores, i) ensures RenderPushes(valores)[i] == PushGreen {
    }
    forall i | 0 < i < 12 && Falls(valores, i) ensures RenderPushes(valores)[i] == PushRed {
    }
  }
}
