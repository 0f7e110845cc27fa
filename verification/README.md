# Freight control ("controle de frete"): a Dafny model

The application tracks freight records ("fretes"): one row per invoice
(NF) that was shipped, with its carrier, seller, expected and actual
delivery dates, a delivery status and a list of observations. A Node/Express
server (`server.js`) keeps the rows in a `controle_frete` table behind a
session gate that asks a company portal whether a session token is valid.
The browser code (`public/script.js`) keeps its own copy of the rows and
derives from it everything on the page.

The model covers the logic both sides hold, module by module:

- `Freight`: the record, its calendar dates, the two statuses and the
  invoice types. `StatusConsistent` states the invariant the status rules
  aim at. A status-bearing type (ENVIO, SIMPLES_REMESSA, REMESSA_AMOSTRA;
  an absent type counts as ENVIO) is ENTREGUE exactly when a delivery
  date is recorded. Every other type has no status.
- `Server`: what POST, PUT and PATCH on `/api/fretes` write to the table,
  and the authentication gate `verificarAutenticacao`.
- `Text` and `Sequences`: the JavaScript operations the browser code
  leans on. These are `trim`, `toLowerCase`, `includes`, `parseInt(x) || 0`,
  the `<` order on strings, `filter`, and the stable `sort`.
- `Lateness`: the "fora do prazo" (late delivery) rules. The alert list
  and the dashboard counter accept every status-bearing type. The status
  filter accepts only ENVIO. The row badge accepts everything that is not
  a special type.
- `Listing`: the filtered and sorted table (`filterFretes`) and the
  options of the three filter selects. Also the dashboard counters
  (`updateDashboard`), the monthly chart totals (`renderizarGrafico`) and
  the card colours (`renderizarDashboards`).
- `Board`: the browser's mutable state. `FreightBoard` holds the record
  list, with the optimistic delete, its rollback and the delivered
  checkbox. `ObservationPanel` holds the observation list being edited.

Dates are calendar days `Date(year, month, day)`. Amounts are integer
cents, with `None` for null. A text field holds "" for a missing, null or
empty value. "Today", the id the table assigns, the portal's answer, the
user's confirmation and the online flag are all parameters.

## Model

| member | source | states |
|---|---|---|
| Freight.TipoOrDefault | server.js:200 | An absent type becomes "ENVIO"; a present one is kept; the result is never blank |
| Freight.EnvioIsStatusBearing | public/script.js:573 | ENVIO or an absent type is status-bearing; the status-bearing types that are not ENVIO are exactly SIMPLES_REMESSA and REMESSA_AMOSTRA |
| Freight.OrDefault | server.js:215-228 | `x \|\| d` on a text field: a blank value becomes the default (the placeholder "NÃO INFORMADO", "[]" for observations, "Usuário" for the signature), any other value is kept; the result is never blank |
| Freight.OrdinalOrdersDates | public/script.js:1539-1543 | The integer sort key of a valid date orders dates exactly as the calendar does, and is injective |
| Server.AmountOrZero | server.js:216 | A missing amount becomes 0; a present one is kept |
| Server.StatusOnCreate | server.js:197-208 | Create gives null exactly for the types without status, and EM_TRANSITO otherwise |
| Server.StatusOnUpdate | server.js:271-294 | Update gives null exactly for the types without status, ENTREGUE exactly when there is a delivery date, and EM_TRANSITO exactly when there is none |
| Server.Create | server.js:168-244 | 400 exactly when numero_nf, nome_orgao or data_coleta is missing; the inserted row carries the new id and the defaulted type; its status is null exactly for types without status, and is otherwise EM_TRANSITO |
| Server.CreateDefaults | server.js:210-229 | Every field of an inserted row: required fields as sent, placeholders, zero amounts, today as issue date, "[]" observations; no descriptive field is blank |
| Server.CreateDeliveredAsInTransit | server.js:197-208 | As written: a status-bearing record sent with a delivery date is stored EM_TRANSITO with that date, which breaks `StatusConsistent` |
| Server.CreateCorrected | public/script.js:1110-1114 | Create with the status derived as on update: same 400 cases, every inserted row is `StatusConsistent`, and it differs from `Create` at most in the status |
| Server.CreateCorrectedAgrees | server.js:197-229 | Without a delivery date the corrected and the as-written create give the same result |
| Server.Update | server.js:247-316 | PUT keeps the id, defaults the type, stores a missing delivery date as null and a missing observation list as "[]", writes every other field exactly as sent (no placeholder and no zero, unlike create), and always leaves the row `StatusConsistent` |
| Server.UpdateAll | server.js:281-294 | After any non-empty series of PUTs the row is `StatusConsistent` and keeps its id |
| Server.NoStatusThroughUpdates | server.js:283-285 | A row without status keeps a null status through any series of PUTs whose types bear no status |
| Server.WrittenRowsCarryStatus | server.js:197-294 | Neither the create nor the update path leaves a status-bearing row without a status |
| Server.Patch | server.js:343-359 | PATCH always writes the status, writes data_entrega only when the key is present, and changes no other field |
| Server.Authenticate | server.js:42-90 | "/" and "/health" always proceed; a missing token is 401; otherwise the request proceeds exactly when the portal answers ok with `valid`, and a thrown portal call is 500 |
| Text.Trim | public/script.js:986 | `String.prototype.trim` (also at 1194-1195); no ensures of its own: `TrimSpec`, `TrimEdges` and `TrimEmptyIffBlank` state its contract |
| Text.TrimSpec | public/script.js:986 | `trim` returns a contiguous piece of its input with only white space cut off before and after it |
| Text.TrimEdges | public/script.js:986 | The trimmed text neither starts nor ends with white space |
| Text.TrimEmptyIffBlank | public/script.js:988 | A text trims to "" exactly when it is all white space |
| Text.TrimStartSpec | public/script.js:986 | Leading trim cuts a white-space prefix and stops at the first other character |
| Text.TrimEndSpec | public/script.js:986 | Trailing trim cuts a white-space suffix and stops at the last other character |
| Text.LowerChar | public/script.js:1288 | `toLowerCase` maps each capital of A-Z and of Latin-1 À-Þ (except ×) to its own small letter, 32 code points up, leaves every other character unchanged, and never yields a capital |
| Text.Lower | public/script.js:1340 | Lower-casing keeps the length and maps each character |
| Text.Contains | public/script.js:1340 | `includes`: some position holds the needle; a predicate whose definition is the statement, used by `Listing.Selected` and stated by `Candidates` |
| Text.LowerIdempotent | public/script.js:1340 | Lower-casing an already lower-cased text changes nothing |
| Text.ParseIntOrZero | public/script.js:1346-1347 | `parseInt(x) \|\| 0`; no ensures of its own: `ParseDecimalRoundTrip`, `ParsePlainDigits` and `ParseDigitsThenText` state what it reads, `ParseNoDigitsZero` the `\|\| 0` fallback, with `DigitPrefix` for the digits it reads |
| Text.DigitPrefix | public/script.js:1346-1347 | `parseInt` reads the longest run of digits of its radix at the front |
| Text.ParseDecimalRoundTrip | public/script.js:1346-1347 | `parseInt(n) \|\| 0` of a number written in decimal gives the number back |
| Text.ParsePlainDigits | public/script.js:1346-1347 | A digit string, leading zeros included, parses to its decimal value |
| Text.ParseDigitsThenText | public/script.js:1346-1347 | Text after the digits is ignored: digits followed by a non-digit parse to the digits' decimal value (unless a lone "0" is followed by "x", which starts hex) |
| Text.DigitPrefixThenText | public/script.js:1346-1347 | The decimal digits at the front of `s + rest` are exactly `s` when `rest` does not start with a digit |
| Text.ParseNoDigitsZero | public/script.js:1346-1347 | With no digit after the leading blanks and optional sign, `parseInt` gives NaN and the value is 0 |
| Text.StrLess | public/script.js:1203 | JavaScript `<` on strings, used by `sort()` (also at 1225 and 1274); no ensures of its own: `StrLessIrreflexive`, `StrLessTotal` and `StrLessTransitive` state that it is a strict total order |
| Text.StrLessIrreflexive | public/script.js:1203 | No string sorts before itself |
| Text.StrLessTotal | public/script.js:1203 | Of two different strings, one sorts before the other |
| Text.StrLessTransitive | public/script.js:1203 | The string order is transitive |
| Sequences.Filter | public/script.js:114 | `filter` keeps exactly the elements satisfying the condition and never grows |
| Sequences.FilterMultiset | public/script.js:114 | `filter` keeps every copy of what it keeps and no copy of the rest |
| Sequences.Narrow | public/script.js:1300-1343 | A filter applied only when its input is set keeps the right copies of each element |
| Sequences.FilterConcat | public/script.js:114 | `filter` keeps relative order: it distributes over concatenation |
| Sequences.FilterTwice | public/script.js:581-587 | Two filters in a row are one filter by the conjunction |
| Sequences.FilterPartition | public/script.js:578-579 | A filter and its opposite share out the whole sequence |
| Sequences.FilterAll | public/script.js:114 | A filter that keeps everything changes nothing |
| Sequences.InsertByKey | public/script.js:1345-1349 | Insertion adds exactly the new element |
| Sequences.InsertByKeySorted | public/script.js:1345-1349 | Insertion into a key-sorted sequence keeps it sorted |
| Sequences.SortByKey | public/script.js:1345-1349 | Sorting by a numeric comparator yields a permutation, ascending by key |
| Sequences.InsertByKeyStable | public/script.js:1345-1349 | Insertion never reorders elements with equal keys |
| Sequences.SortByKeyStable | public/script.js:1345-1349 | The sort is stable: for each key the elements keep their input order |
| Sequences.InsertString | public/script.js:1203 | Insertion adds exactly the new string |
| Sequences.SortStrings | public/script.js:1203 | The default sort yields a permutation |
| Sequences.InsertStringSorted | public/script.js:1203 | Inserting a new string into a strictly sorted list keeps it strictly sorted |
| Sequences.SortStringsSorted | public/script.js:1203 | The default sort of distinct strings is strictly ascending |
| Lateness.IsLate | public/script.js:1524-1536 | The late test of the alert list and the dashboard counter (also at 581-587); no ensures of its own: `LateEnvioIsLate`, `LateStaysLate` and `LateMeansUndelivered` state its contract |
| Lateness.IsLateEnvio | public/script.js:1312-1321 | The late test of the FORA_DO_PRAZO filter and option (also at 1247-1254); no ensures of its own: `LateEnvioIsLate` and `BadgeAgreesForEnvio` state its contract |
| Lateness.LateEnvioIsLate | public/script.js:1312-1321 | The filter's late rule implies the alert's; they differ exactly on late SIMPLES_REMESSA and REMESSA_AMOSTRA records |
| Lateness.LateStaysLate | public/script.js:1519-1537 | A late record stays late as days go by |
| Lateness.LateMeansUndelivered | public/script.js:1519-1537 | A consistent late record is in transit with no delivery date |
| Lateness.StatusBadge | public/script.js:1449-1475 | The type's capitalised label exactly for the four special types (undefaulted); otherwise FORA DO PRAZO exactly when undelivered and past the expected date, "Entregue" exactly when delivered, "Em Trânsito" exactly when in transit and not late, and the bare status styling exactly when there is no status and it is not late |
| Lateness.BadgeAgreesForEnvio | public/script.js:1449-1475 | For ENVIO the badge says late exactly when the alert list and the filter do; for SIMPLES_REMESSA and REMESSA_AMOSTRA it never does |
| Lateness.LateAlertList | public/script.js:1524-1544 | The list of `verificarNotasAtrasadas` and `showAlertModal` (1555-1570); no ensures of its own: `LateAlertListMembers`, `LateAlertListOrdered` and `LateAlertListStable` state its contract |
| Lateness.LateAlertListMembers | public/script.js:1519-1537 | The alert list holds every late record, status-bearing types only, as often as the collection does, and nothing else |
| Lateness.LateAlertListOrdered | public/script.js:1550-1570 | The alert list runs from the earliest expected date to the latest |
| Lateness.LateAlertListStable | public/script.js:1539-1543 | Records expected on the same day keep the collection's order |
| Listing.Candidates | public/script.js:1295-1343 | The filter chain keeps exactly the records of the month that match carrier, seller, status and search, each as often as the collection holds it |
| Listing.FilterFretes | public/script.js:1287-1352 | `filterFretes`; no ensures of its own: `FilterFretesSpec` and `ForaDoPrazoFilterShowsLateEnvio` state its contract |
| Listing.FilterFretesSpec | public/script.js:1287-1352 | The table shows exactly the selected records, each as often as the collection holds it, in ascending `parseInt(numero_nf) \|\| 0` |
| Listing.ForaDoPrazoFilterShowsLateEnvio | public/script.js:1309-1321 | With FORA_DO_PRAZO chosen, every row shown is a late ENVIO record of the month |
| Listing.CollectedSpec | public/script.js:1192-1197 | The value set after any prefix holds each trimmed non-blank value met once, and nothing else |
| Listing.FilterOptions | public/script.js:1191-1211 | The options are strictly ascending and are exactly the trimmed non-blank values of the field |
| Listing.UpdateTransportadoraFilter | public/script.js:1191-1211 | The carrier options: strictly ascending, exactly the trimmed non-blank carriers |
| Listing.UpdateVendedorFilter | public/script.js:1213-1233 | The seller options: strictly ascending, exactly the trimmed non-blank sellers |
| Listing.UpdateStatusFilter | public/script.js:1235-1282 | FORA_DO_PRAZO is offered exactly when some ENVIO record is late; the statuses offered are exactly those present, in the order of their stored text |
| Listing.StatusTextOrder | public/script.js:1274 | "EM_TRANSITO" sorts before "ENTREGUE" |
| Listing.TotalFilterStep | public/script.js:589-590 | The total of a filtered list, one record at a time |
| Listing.UpdateDashboard | public/script.js:557-590 | `updateDashboard`; no ensures of its own: `DashboardLateMatchesAlertList`, `DashboardCountsPartition` and `DashboardMatchesChart` state its contract |
| Listing.DashboardLateMatchesAlertList | public/script.js:581-587 | The dashboard's late counter equals the length of the alert list, whatever month is on screen |
| Listing.DashboardCountsPartition | public/script.js:578-579 | When every status-bearing record has a status, delivered plus in transit is the number of the month's status-bearing records |
| Listing.FilterExt | public/script.js:579 | Filters whose conditions agree on the elements give the same result |
| Listing.MonthlyValues | public/script.js:659-677 | The chart has twelve monthly values |
| Listing.DashboardMatchesChart | public/script.js:589 | The dashboard's invoice total for a month equals that month's bar of the chart |
| Listing.RecordShareValue | public/script.js:660-666 | A record lands in exactly the month of its year it was issued in, and in no month of another year |
| Listing.ChartOfNothing | public/script.js:680 | The chart of no records sums to zero |
| Listing.ChartStep | public/script.js:659-680 | The chart total splits into the first record's share and the rest's |
| Listing.YearTotal | public/script.js:680 | The chart's yearly total equals the year's ENVIO invoice total summed record by record |
| Listing.PushClass | public/script.js:697-718 | `gerarDashboard`'s colour; no ensures of its own: `RenderPushes` and `PushesFollowTrend` state its contract |
| Listing.RenderPushes | public/script.js:690-746 | Over both semesters, month `i` is green exactly when it is not January, not zero and above month `i-1`, and red exactly when it is below it |
| Listing.PushesFollowTrend | public/script.js:697-718 | A year of rising months is green from February on; a year of falling months is red |
| Board.FindById | public/script.js:94 | `find` gives nothing exactly when no record has the id, otherwise the first record with that id |
| Board.IndexOfId | public/script.js:195 | `findIndex` gives -1 exactly when no record has the id, otherwise the first such position |
| Board.RemoveById | public/script.js:114 | The optimistic delete's `filter`; no ensures of its own: `RemoveByIdSpec` and `DeleteThenRestore` state its contract |
| Board.RemoveByIdSpec | public/script.js:114 | The delete drops every record with the id, keeps every other copy, and shrinks the list exactly when the id is present |
| Board.UniqueCountsOnce | public/script.js:114 | With unique ids, a record of the list occurs once |
| Board.DeleteThenRestore | public/script.js:114-145 | When ids are unique, as the table's primary key makes them, the rollback restores the collection up to order |
| Board.ToggleRequest | public/script.js:156-177 | The checkbox's PATCH body; no ensures of its own: `ToggleSpec`, `ToggleTwice` and `ToggleRoundTrip` state its contract |
| Board.ToggleSpec | public/script.js:148-177 | The checkbox is offered exactly for status-bearing types; once the server applies it the status flips, delivering keeps an existing delivery date or records today, taking back clears the date, the record is consistent, and nothing else changes |
| Board.ToggleTwice | public/script.js:161-177 | Ticking and unticking a record in transit gives it back unchanged |
| Board.FreightBoard.HandleDeleteClick | public/script.js:90-118 | Nothing changes for an unknown id or no confirmation; otherwise the record is returned and every record with its id is dropped |
| Board.FreightBoard.RestoreDeleted | public/script.js:134-143 | The failed DELETE pushes the record back at the end |
| Board.FreightBoard.HandleCheckboxChange | public/script.js:148-179 | A PATCH body is produced exactly when online, the id is known and its type bears a status; it is the toggle request |
| Board.FreightBoard.ApplyPatchResponse | public/script.js:193-197 | The server's row replaces the first record with the id; the length is kept |
| Board.ToggleRoundTrip | public/script.js:193-197 | After the server's answer to a toggle is applied, that record is consistent and every other record is unchanged |
| Board.Splice1 | public/script.js:1015 | `splice(index, 1)` removes one element exactly when the list is non-empty and the index is below its length |
| Board.SpliceRemovesOne | public/script.js:1015 | An index in range drops exactly that element, keeping order; a negative index counts from the end; an index past the end changes nothing |
| Board.RemoveLastAdded | public/script.js:1011-1019 | Removing the observation just added gives the list back |
| Board.ObservationPanel.Add | public/script.js:984-1009 | A blank text changes nothing; otherwise the trimmed text is appended with the timestamp and the stored user name (or "Usuário"), and the text area is cleared |
| Board.ObservationPanel.Remove | public/script.js:1011-1019 | The list becomes its `splice(index, 1)`; the text area is unchanged |
| Board.AddedEntryWellFormed | public/script.js:984-1003 | An added observation is non-blank, starts and ends with a non-space character, and is signed |

## Left out

- Rendering is left out: the HTML of the table, the modals, the toasts and the chart drawing. Only the values these display are modelled.
- Network I/O is left out: `fetch`, polling, the heartbeat and the portal call. The portal's answer, the online flag and the user's `confirm` are parameters.
- The table store (Supabase) is left out. The DELETE, the GET routes and the 404 and 500 paths of the handlers after a store error are not modelled. The row that PATCH writes is modelled; the record the server sends back is a parameter of `ApplyPatchResponse`.
- `handleSubmit` and `loadFretes` are not modelled. The first builds the PUT/POST body; the second fetches the list. The server's handling of the body is modelled instead.
- `sessionStorage`, the JSON encoding of the observation list and `Date.toISOString` are left out. The stored user name and the timestamp are parameters.
- Money is integer cents. The source sums `parseFloat` values in floating point, so rounding is not modelled.
- Dates are calendar days. Local-time versus UTC parsing of `YYYY-MM-DD` and the time of day are not modelled. "Today" is a parameter.
- `toLowerCase` is modelled on ASCII and Latin-1 letters only. Other scripts' case mappings are not.
- `parseInt` is modelled on unbounded integers. Precision loss above 2^53 is not modelled.
- Record ids are compared as integers. The source compares `String(id)`, which is the same for integer ids.
- `verificarNotasAtrasadas` sorts its list and then discards it. The model keeps only the list (`LateAlertList`), shared with `showAlertModal`.
- PUT writes `undefined` for keys missing from its body, and so does PATCH for a missing `status` key. The store then leaves those columns alone. The model assumes a PUT body carries every field and a PATCH body carries `status`, as the browser always sends them.
- The chart's freight totals (`valor_frete`) are computed the same way as its invoice totals. Only the invoice totals (`MonthlyValues`) are modelled.
- `Freight.Status` has only EM_TRANSITO and ENTREGUE (or null). PATCH stores any `status` text it is sent without checking it, and the status select and the badge would show such a text as it is. The model does not capture records with another status text.
- `Text.StrLess` compares Unicode code points. JavaScript's `<` and the default `sort()` compare UTF-16 code units, which order differently only when characters above U+FFFF meet characters in U+E000-U+FFFF.
- The price-list page and the static file serving are not part of this model.

## Findings

| source | as written | input that shows it | evidently intended | confidence | as-written member | corrected member |
|---|---|---|---|---|---|---|
| server.js:197-208 | POST derives the status from `tipo_nf` alone and stores EM_TRANSITO even when `data_entrega` is sent | a POST with `tipo_nf` "ENVIO" and a `data_entrega` stores `status` EM_TRANSITO next to that delivery date | ENTREGUE when a delivery date is sent, as PUT does (server.js:286-289) and as the form's comment expects (public/script.js:1110-1114) | medium, not executed | Server.CreateDeliveredAsInTransit | Server.CreateCorrected |
