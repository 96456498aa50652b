# Transparência parlamentar: a verified model

The system keeps a local copy of the open data of the Brazilian Câmara dos
Deputados and shows it in a web client. It has three layers:

- a Go backend that stores deputies and their expenses in SQLite;
- a synchronisation service that pages through the Câmara API and saves
  what it receives;
- HTTP handlers that validate query parameters and answer JSON, used by
  three React pages: the deputies list with a filter, the expenses search
  and the proposals search.

This project models that core in Dafny and proves what each part promises.

- **Store** (`database.dfy`, module `Database`). The two tables are `seq`
  fields of the class `Store`. Its methods are the queries of `db.go`, and
  each method is proved against a specification function:
  - the upsert of a deputy;
  - the insert-or-ignore of an expense under its four-column unique key.
    Ids come from the AUTOINCREMENT counter `sequence`. Every insert that
    reaches the engine draws the next value, even when the unique key then
    makes it ignored, so ids strictly increase and may leave gaps;
  - the filtered expense query sorted by document date;
  - the ranking: grouped sums, `HAVING total > 0`, a descending order that
    leaves ties open, `LIMIT`, then positions 1..n;
  - the counts.

  `BuscarDeputados` orders its listing by `nome` (`backend/database/db.go:124`).
  Orders are SQLite's BINARY collation (`sorting.dfy`).
- **Ingestion** (`camara.dfy`, modules `Camara` and `CamaraSync`).
  - Each HTTP request with its decoding is one entry of a `Feed`, a finite
    sequence of page results; pages past its end are empty.
  - The three page loops of `camara.go` are methods. Each is proved equal
    to a function that reads pages up to the first empty or short page, or
    stops at the first failing page.
  - The conversions from decoded JSON are functions; lemmas show that they
    recover a well-formed record.
  - The two sync operations are proved to keep what the tables held and to
    save what was fetched.
- **Handlers** (`handlers.dfy`, `strconv.dfy`).
  - Go's `strconv.Atoi` and `strconv.Itoa` are modelled digit by digit,
    with the int64 range check, and proved to round-trip.
  - Each handler's status code and error text follow from its parameters
    and from the store's faults.
  - The sync handler's steps run in order and stop at the first failure.
    The expenses table after them is the function `SyncAnos`, which runs
    the yearly syncs in turn up to the first year that fails.
  - Go writes a slice that was never appended to as JSON `null`; this is
    `EncodeSlice`.
- **Web client** (`webclient.dfy`, `deputados_page.dfy`, `gastos_page.dfy`,
  `propostas_page.dfy`).
  - JavaScript's ASCII `toLowerCase`, `includes`, `parseInt`, axios' view
    of a handler response and `Array.prototype.find`.
  - Each page is a class whose fields are the React state. Its methods are
    the state updates and its predicates are the render conditions.

External effects are parameters:

- A failing SQLite `Query` or `Scan` is a `fault: bool` argument of each
  store call.
- A failing step of a list query's rows is a `stepFault: Option<nat>`
  argument of `BuscarDeputados`, `BuscarGastos` and `BuscarRanking`: the
  step `k` at which the engine fails. Their `for rows.Next()` loops never
  read `rows.Err()`, so such a failure ends the loop quietly, and the
  query returns the rows read before it as a success (`Database.Stepped`).
  The handlers then answer 200 with those rows, or with `null` when the
  first step fails, and the expense sync visits only those deputies.
- The failure of a save inside a sync loop is a function of the record
  saved.
- The Câmara API is a `Feed`, or a function from deputy id (and year) to a
  `Feed`.
- The frontend's HTTP results are `WebClient.Fetch` values.

## Model

| member | source | states |
|---|---|---|
| Database.UpsertSpec | backend/database/db.go:92-107 | after saving d the id column stays unique; d is in the table and is the only row with d's id; nothing but d is added; the rows with other ids are the same rows in the same order; the table grows by one exactly when d's id was new |
| Database.UpsertMembers | backend/database/db.go:92-107 | the upsert adds d and no row other than d |
| Database.UpsertUnique | backend/database/db.go:94-104 | the primary key survives the upsert, and the one row with d's id is d |
| Database.UpsertOthers | backend/database/db.go:96-104 | rows with other ids are unchanged and in the same order |
| Database.UpsertLength | backend/database/db.go:94-96 | the table grows by one row exactly when d's id was absent |
| Database.UpsertIdempotent | backend/database/db.go:96-104 | saving the same deputy twice gives the table that saving once gives |
| Database.UpsertAt | backend/database/db.go:94-104 | the upsert replaces the first row with d's id in place, or appends d when there is none |
| Database.InsertOrIgnoreSpec | backend/database/db.go:51-64 | key uniqueness is kept, and ids stay strictly increasing and at most the counter after it is advanced; afterwards d's key is present; a taken key leaves the table unchanged; a free key appends d under the id sequence + 1, above every id present |
| Database.IgnoredInsertUsesId | backend/database/db.go:51-64 | saving A, then A again, then a B with another key stores B under id 3: the ignored insert used up id 2 |
| Database.SelectSpec | backend/database/db.go:146-152 | a row is selected exactly when it is in the table with that deputado_id and ano |
| Database.SumValorAppend | backend/database/db.go:179-180 | the sum over a concatenation is the sum of the sums |
| Database.SumValorPermutation | backend/database/db.go:179-180 | the sum of valor_documento does not depend on row order |
| Database.SalvarDespesaTotals | backend/database/db.go:176-182 | saving an expense raises its own deputy's total of its own year by its amount exactly when it is inserted, and changes no other total |
| Database.SalvarDespesaCounts | backend/database/db.go:219-223 | saving an expense raises its year's count by one exactly when it is inserted, and changes no other year's count |
| Database.CountAnoSpec | backend/database/db.go:219-223 | a year's count is at most the table size; it equals the size exactly when every row is of that year, and is 0 exactly when none is |
| Database.CountAnoDisjoint | backend/database/db.go:219-223 | the counts of two different years together never exceed the table size |
| Database.NomeAscPreorder | backend/database/db.go:124 | ORDER BY nome under BINARY collation is a total preorder |
| Database.DataDescPreorder | backend/database/db.go:151 | ORDER BY data_documento DESC is a total preorder |
| Database.TotalDescPreorder | backend/database/db.go:185 | ORDER BY total_gasto DESC is a total preorder |
| Database.CandidatesSpec | backend/database/db.go:176-184 | each group that survives HAVING belongs to a listed deputy, carries that deputy's sum and count, and is positive; every deputy with a positive sum survives |
| Database.RankingRows | backend/database/db.go:175-209 | every ranking row is a listed deputy with a positive total equal to the sum of that deputy's valor_documento in the year, and a count equal to the number of those expenses; totals are non-increasing; with limite ≥ 0 there are at most limite rows |
| Database.RankingComplete | backend/database/db.go:184-186 | a deputy with a positive total is left out only when the limit was reached, and then every listed total is at least that deputy's |
| Database.Store.constructor | backend/database/db.go:31-68 | the store starts with two empty tables, which satisfy the keys, and the AUTOINCREMENT counter at 0 |
| Database.Store.SalvarDeputado | backend/database/db.go:92-107 | on success the deputies table becomes the upsert of d; on an engine error nothing changes; the expenses table and its counter never change; the keys are kept |
| Database.Store.SalvarDespesa | backend/database/db.go:110-120 | on success the expenses table becomes the insert-or-ignore of d under the next counter value, and the counter advances by one whether or not d was inserted; on an engine error nothing changes; the keys and numbering are kept |
| Database.SteppedSpec | backend/database/db.go:132-141 | a list query whose step k fails returns the first k rows of its whole result (all of it when the result ends first, or when no step fails); these keep the whole result's order and hold no row more often than it does |
| Database.Store.BuscarDeputados | backend/database/db.go:123-142 | an error exactly when Query or Scan fails; the whole result is every deputy row, each as often as stored, ordered by nome; on success the rows before a failing step of the loop, which is all of them when no step fails |
| Database.Store.BuscarGastos | backend/database/db.go:145-172 | an error exactly when Query or Scan fails; the whole result is exactly the rows of that deputy and year (as a multiset and by membership), newest data_documento first; on success the rows before a failing step of the loop, which is all of them when no step fails |
| Database.Store.RankingGroups | backend/database/db.go:176-187 | the groups that pass HAVING, reordered with the largest totals first |
| Database.Store.BuscarRanking | backend/database/db.go:175-209 | an error exactly when Query or Scan fails; the whole result is the groups in some descending order of total, cut at limite (a negative limite means no cut), with posicao = 1, 2, … in result order; on success the rows before a failing step of the loop, which is all of them when no step fails |
| Database.Store.ContarDeputados | backend/database/db.go:212-216 | the number of deputy rows, or an error exactly on an engine fault (`Row.Scan` reports a failing step) |
| Database.Store.ContarDespesas | backend/database/db.go:219-223 | the number of expense rows of that year, over all deputies, or an error exactly on an engine fault (`Row.Scan` reports a failing step) |
| Sorting.Insert | backend/database/db.go:124 | inserting into an ordered result adds exactly one occurrence of the element |
| Sorting.InsertSorted | backend/database/db.go:124 | inserting into a sorted sequence under a total preorder keeps it sorted |
| Sorting.SubsequenceCons | frontend/src/pages/Deputados.jsx:28 | prefixing an element keeps a subsequence a subsequence, with or without the element |
| Sorting.SubsequenceTransitive | frontend/src/pages/Deputados.jsx:28 | a subsequence of a subsequence is a subsequence |
| Collation.LexLeTotal | backend/database/db.go:124 | BINARY collation compares every two texts |
| Collation.LexLeTransitive | backend/database/db.go:124 | BINARY collation is transitive |
| Collation.LexLeAntisymmetric | backend/database/db.go:124 | texts that collate both ways are equal |
| Camara.GetStr | backend/services/camara.go:235-242 | a field that holds a string reads as that string; a missing field, a null and a value of any other type read as "" (a null element of "dados" is an empty object, so all its fields read so) |
| Camara.GetFloat | backend/services/camara.go:244-251 | a field that holds a number reads as that number; a missing field, a null and a value of any other type read as 0 (likewise for every field of a null element) |
| Camara.ToDeputadoFallbacks | backend/services/camara.go:51-59 | a deputy converts exactly when "id" is a number, and then each text field that is missing, null or not a string is "" |
| Camara.ToDespesaFallbacks | backend/services/camara.go:147-158 | each expense field that is missing, null or of the wrong type is "" or 0, the month being int(0) = 0 |
| Camara.ToProjetoFallbacks | backend/services/camara.go:210-218 | each bill field that is missing, null or of the wrong type is "", and each numeric one int(0) = 0 |
| Camara.NullElement | backend/services/camara.go:17 | a null element of "dados" decodes as an empty object: an expense or bill with every field at its fallback, and a panic for a deputy |
| Camara.Trunc | backend/services/camara.go:52 | int(f) truncates toward zero: the result is within one of f, on f's side of zero |
| Camara.TruncInt | backend/services/camara.go:52 | a float that holds an integer converts back to that integer |
| Camara.ToDeputadoRecord | backend/services/camara.go:51-59 | a well-formed deputy record converts to the deputy it describes |
| Camara.ToDespesaRecord | backend/services/camara.go:147-158 | a well-formed expense record converts to the expense it describes, under the requested deputy and year, with no id yet |
| Camara.ToProjetoRecord | backend/services/camara.go:210-218 | a well-formed bill record converts to the bill it describes |
| Camara.ToDeputadoPanics | backend/services/camara.go:52 | converting a deputy record fails (the unchecked type assertion) exactly when "id" is missing or is not a number |
| Camara.FetchedAll | backend/services/camara.go:120-171 | when pages pagina .. k-1 are full and page k is empty or short, the listing is exactly the in-order concatenation of pages pagina .. k |
| Camara.FetchedFails | backend/services/camara.go:128-139 | when pages pagina .. k-1 are full and page k fails, the listing fails with page k's number and error, and none of the records read before it is returned |
| Camara.ToDespesas | backend/services/camara.go:146-159 | one expense per item, in item order, each converted under the requested deputy and year |
| Camara.ToProjetos | backend/services/camara.go:209-219 | one bill per item, in item order |
| Camara.BuscarGastosPaginados | backend/services/camara.go:120-171 | the loop's result is the converted listing of the pages, or the first failing page's error with no partial list; every expense carries the requested deputadoID and ano |
| Camara.BuscarProjetosPorDeputado | backend/services/camara.go:174-232 | the loop's result is the converted listing of the pages, or the first failing page's error with no partial list |
| CamaraSync.SincronizarDeputados | backend/services/camara.go:22-81 | the deputies table and the outcome are those of the page-by-page save loop: a fetch or decode error stops it, a record without a numeric id panics, an empty or short page ends it; the expenses table and its counter are untouched |
| CamaraSync.UpsertKeepsIds | backend/database/db.go:92-107 | an upsert never removes an id, and d's id is present afterwards |
| CamaraSync.FirstWithId | backend/database/db.go:96 | the position of the first row with the id, or the length when there is none |
| CamaraSync.SaveItemsSpec | backend/services/camara.go:50-66 | one page's save loop never removes a deputy; without a panic, every record converts and each deputy whose save did not fail has a row |
| CamaraSync.SyncFromSpec | backend/services/camara.go:22-81 | a deputy sync never removes a deputy; a fetch failure reports the page and error at which the whole listing fails; a completed sync read the whole listing, and every deputy in it whose save did not fail has a row |
| CamaraSync.SalvarGastos | backend/services/camara.go:100-106 | the inner save loop leaves the expenses table and its counter equal to saving each fetched expense in turn, skipping failed saves |
| CamaraSync.SincronizarGastos | backend/services/camara.go:84-117 | an error exactly when the listing's Query or Scan fails, and then no change; otherwise the rows are appended by visiting the deputies the listing hands over: all of them in nome order, or only those before a failing step of it, which still counts as success; a deputy whose fetch fails is skipped; existing rows are kept; the deputies table is untouched |
| CamaraSync.SaveDespesasSpec | backend/services/camara.go:100-106 | saves only append and the counter only grows; keys stay unique and ids strictly increasing up to the counter; every expense whose save did not fail has its key in the table; every appended row has the key of a fetched expense |
| CamaraSync.PrefixHasKey | backend/services/camara.go:93-106 | a key present before appending is present after |
| CamaraSync.SyncGastosSpec | backend/services/camara.go:84-117 | an expense sync of a year keeps the existing rows as they were, keeps the keys and the numbering, and never lowers the counter; each appended row belongs to that year and to a listed deputy; for every listed deputy whose fetch succeeded, every expense whose save did not fail is stored |
| Handlers.EncodeSlice | backend/handlers/handlers.go:21 | a result slice becomes JSON null exactly when it is empty; otherwise it is sent as it is |
| Handlers.ListarDeputados | backend/handlers/handlers.go:13-22 | 500 on a failing Query or Scan; otherwise 200 with the rows the listing read: the whole listing ordered by nome, or its rows before a failing step; null exactly when the table is empty or the first step fails |
| Handlers.DefaultAno | backend/handlers/handlers.go:27 | a missing ano parameter reads as 2024 |
| Handlers.BuscarGastosDeputado | backend/handlers/handlers.go:25-51 | a non-integer id gives 400 "ID inválido" before the year is looked at; then a non-integer ano gives 400 "Ano inválido"; then a failing Query or Scan gives 500; valid id and ano without one always give 200, and it carries the rows read of that deputy's expenses of that year, newest first: all of them, or those before a failing step |
| Handlers.RankingDefaults | backend/handlers/handlers.go:55-56 | with no parameters the ranking is asked for ano 2024 and limite 20 |
| Handlers.BuscarRanking | backend/handlers/handlers.go:54-69 | never 400: malformed parameters count as what Atoi returns with its error; 500 exactly on a failing Query or Scan; otherwise 200 with the rows read of the ranking: all of it, or its rows before a failing step; a limite that is not a number reads as 0 and gives an empty ranking, sent as null |
| Handlers.GastosErrorText | backend/handlers/handlers.go:84-86 | the error text names the year that failed |
| Handlers.Reached | backend/handlers/handlers.go:81-88 | the years reached are a prefix of the years, none of them failing, and they stop just before the first failing year |
| Handlers.SyncAnosSnoc | backend/handlers/handlers.go:81-88 | after years that all ran, one more year adds its expense sync when its listing works and nothing when it fails |
| Handlers.SyncAnosStops | backend/handlers/handlers.go:82-86 | once a year fails, the years after it do not change the expenses table, whatever they would fetch |
| Handlers.SyncAnosSpec | backend/handlers/handlers.go:81-88 | the loop over the years keeps the existing expense rows, the keys and the numbering; every appended row is of a year that was reached; when the first year does not occur again, its rows come before all others; for every reached year, each fetched and saved expense of a listed deputy is stored |
| Handlers.SyncAnosFailed | backend/handlers/handlers.go:82-86 | when a year is the first to fail, the expenses table is what the years before it left, and exactly those years are reached |
| Handlers.SyncDadosYears | backend/handlers/handlers.go:81-88 | over 2024 then 2025: the existing rows are kept; a failing 2024 stores no expense; a failing 2025 stores only 2024 expenses; every appended row is of 2024, or of 2025 when 2024 ran; the 2024 rows come before the 2025 rows |
| Handlers.SincronizarAnos | backend/handlers/handlers.go:81-88 | the years are synced in order; the loop reports the first year whose sync failed, which is the year just after those reached, or none exactly when no year failed; each reached year visits the deputies its listing handed over: all of them in nome order, or those before a failing step of that listing; the expenses table and its counter end as SyncAnos gives |
| Handlers.SincronizarAno | backend/handlers/handlers.go:82-87 | one year of the loop, after the years before it ran: an error exactly when its listing fails, and then the loop ends with the years before it reached and the table as they left it; otherwise its sync is appended to the years before it, with the listing and the deputies it visited |
| Handlers.SincronizarDados | backend/handlers/handlers.go:72-93 | deputies are synced first; a deputy-sync error gives 500 with its page and message and touches no expense; a panic crashes the server; then 2024 and then 2025, and the first failing year gives 500 naming it; the expenses table ends as SyncAnos over [2024, 2025] gives, so a failing 2024 stores no expense, a failing 2025 stores only 2024 expenses, and the 2024 rows come before the 2025 rows; each year that ran visited the deputies of its nome-ordered listing that were read before a failing step (all of them when none fails); the success message exactly when every step succeeded |
| Handlers.Estatisticas | backend/handlers/handlers.go:96-107 | always 200 with "Agora"; each count is the store's count, or 0 when that count failed; the two yearly counts together are at most the number of expense rows |
| Handlers.BuscarProjetosDeputado | backend/handlers/handlers.go:110-132 | a non-integer id gives 400 "ID inválido"; a failed bill listing gives 500; 200 exactly when both succeed, carrying the listing |
| Strconv.ScanDigitsSpec | backend/handlers/handlers.go:29-41 | the digit scan succeeds exactly on digit strings whose value fits 64 bits, with that value; a syntax error carries 0, a range error 2^64 − 1 |
| Strconv.AtoiSpec | backend/handlers/handlers.go:29-41 | Atoi succeeds exactly on an optional sign followed by at least one digit, with a value inside int64, and returns that value; a syntax error carries 0; a range error carries the int64 bound on the side of the sign |
| Strconv.DigitsValue | backend/handlers/handlers.go:27 | Itoa's digits are a non-empty digit string denoting the number |
| Strconv.AtoiItoa | backend/handlers/handlers.go:27-36 | Atoi reads back every int64 that Itoa writes |
| Strconv.QueryOr | backend/handlers/handlers.go:55-56 | a query parameter that is absent or empty takes its default value |
| WebClient.LowerStr | frontend/src/pages/Deputados.jsx:29-31 | lower-casing keeps the length and lower-cases each character |
| WebClient.EmptyContained | frontend/src/pages/Deputados.jsx:29-31 | every text contains the empty text |
| WebClient.ContainsTransitive | frontend/src/pages/Deputados.jsx:29-31 | a text containing b contains everything that b contains |
| WebClient.LowerContains | frontend/src/pages/Deputados.jsx:29-31 | lower-casing keeps an occurrence |
| WebClient.LowerIdempotent | frontend/src/pages/Deputados.jsx:29-31 | lower-casing twice is lower-casing once |
| WebClient.TrimStart | frontend/src/pages/Gastos.jsx:31 | parseInt's leading white space is a prefix, and what follows it does not start with white space; white space is ECMAScript's WhiteSpace and LineTerminator, with every Zs character |
| WebClient.TrimStartSpace | frontend/src/pages/Gastos.jsx:31 | any run of white space before a text is skipped whole |
| WebClient.ParseIntSpacedId | frontend/src/pages/Gastos.jsx:31 | an id text the backend accepts is read as the same number after any run of white space, the ideographic space included |
| WebClient.DigitPrefix | frontend/src/pages/Gastos.jsx:31 | the longest run of decimal digits at the start |
| WebClient.HexPrefix | frontend/src/pages/Gastos.jsx:31 | the longest run of hexadecimal digits at the start |
| WebClient.DigitPrefixAll | frontend/src/pages/Gastos.jsx:31 | a digit string is its own digit prefix |
| WebClient.ParseIntAgreesWithAtoi | frontend/src/pages/Gastos.jsx:31 | every id text the backend's Atoi accepts is read by parseInt as the same number |
| WebClient.ParseIntNoDigits | frontend/src/pages/Gastos.jsx:31 | a text without digits is NaN |
| WebClient.Received | frontend/src/services/api.js:8-16 | a request resolves exactly when the handler answered 200, with its body; an error status or a crash rejects |
| WebClient.FindById | frontend/src/pages/Gastos.jsx:31 | the first deputy whose id equals the parsed id; undefined exactly when the id is NaN or no deputy has it |
| DeputadosView.FiltrarSubsequence | frontend/src/pages/Deputados.jsx:28-32 | the filtered list is an order-preserving subsequence of the deputies |
| DeputadosView.FiltrarMembers | frontend/src/pages/Deputados.jsx:28-32 | an entry is listed exactly when its lower-cased nome, siglaPartido or siglaUf contains the lower-cased filter |
| DeputadosView.FiltrarEmpty | frontend/src/pages/Deputados.jsx:28-32 | an empty filter keeps every entry, in order |
| DeputadosView.FiltrarCaseInsensitive | frontend/src/pages/Deputados.jsx:28-32 | filters that agree after ASCII lower-casing select the same entries |
| DeputadosView.FiltrarNarrows | frontend/src/pages/Deputados.jsx:28-32 | when f1 occurs in f2, the list for f2 is a subsequence of the list for f1 |
| DeputadosView.FiltrarCount | frontend/src/pages/Deputados.jsx:28-65 | the count shown is at most the number of deputies, and equals it exactly when every deputy matches |
| DeputadosView.DeputadosPage.constructor | frontend/src/pages/Deputados.jsx:7-9 | the page starts with no deputies, loading, and an empty filter |
| DeputadosView.DeputadosPage.LoadDeputados | frontend/src/pages/Deputados.jsx:16-26 | loading ends false; a response replaces the list (null read as []); a rejected request keeps the list |
| DeputadosView.DeputadosPage.SetFiltro | frontend/src/pages/Deputados.jsx:61 | typing changes the filter and nothing else |
| DeputadosAsWritten.FiltradosAsWritten | frontend/src/pages/Deputados.jsx:20-32 | the page as written filters the stored body, and fails exactly when that body is null |
| DeputadosAsWritten.EmptyTableBreaksPage | frontend/src/pages/Deputados.jsx:20-32 | an empty table reaches the page as null, and the page as written fails to render whatever the filter; the corrected page shows an empty list |
| GastosView.TotalMatchesRanking | frontend/src/pages/Gastos.jsx:53-54 | a year's total on the page is the ranking's total for that deputy and year, and the count under it is the ranking's count |
| GastosView.TotalAnoAppend | frontend/src/pages/Gastos.jsx:53-54 | totals add up over concatenation; an empty list totals 0 |
| GastosView.GastosPage.constructor | frontend/src/pages/Gastos.jsx:7-12 | the page starts empty, not loading, not searched |
| GastosView.GastosPage.SetIdDeputado | frontend/src/pages/Gastos.jsx:87 | typing changes the id and nothing else |
| GastosView.GastosPage.BuscarGastos | frontend/src/pages/Gastos.jsx:15-44 | an empty id changes nothing; otherwise searched ends true and loading false; if any of the three requests fails, or the deputies list is null, the deputy is null and both years are empty; otherwise the deputy is the first with id parseInt(input) and each year is its response (null read as []) |
| GastosView.AfterSearch | frontend/src/pages/Gastos.jsx:114-263 | after a search the card and the not-found message never show together and one of them always shows; a failed search shows only the message |
| GastosAsWritten.RenderAsWritten | frontend/src/pages/Gastos.jsx:114-220 | the page as written fails to render exactly when loading is over and a stored year is null; otherwise the columns show when either year has an expense |
| GastosAsWritten.NullYearBreaksPage | frontend/src/pages/Gastos.jsx:34-35 | a deputy with expenses in 2024 and none in 2025 gets null for 2025, and the page as written fails to render, where the corrected page has a 2024 column to show |
| GastosAsWritten.NullYearExample | frontend/src/pages/Gastos.jsx:34-35 | one concrete table with a single 2024 expense makes the page as written fail |
| PropostasView.StoredProjetos | frontend/src/pages/Propostas.jsx:37 | the bills kept are the response's list, or [] when it is null |
| PropostasView.PropostasPage.constructor | frontend/src/pages/Propostas.jsx:7-11 | the page starts empty, not loading, not searched |
| PropostasView.PropostasPage.SetIdDeputado | frontend/src/pages/Propostas.jsx:78 | typing changes the id and nothing else |
| PropostasView.PropostasPage.BuscarPropostas | frontend/src/pages/Propostas.jsx:14-45 | an empty id changes nothing; otherwise searched ends true and loading false; if either request fails, or the deputies list is null, the deputy is null and there are no bills; otherwise the deputy is the first with id parseInt(input) and the bills are the response (null read as []) |
| PropostasView.Messages | frontend/src/pages/Propostas.jsx:193-202 | "not found" and "no proposals" never show together, nor the list and "no proposals"; after a search, "not found" shows exactly when the card does not; with the card, either the list or "no proposals" shows |
| PropostasView.TotalIsBackendCount | frontend/src/pages/Propostas.jsx:132 | the total shown is the number of bills the backend listed, also when it listed none and sent null |

## Left out

- HTTP, body reading and JSON decoding (`http.Get`, `io.ReadAll`, `json.Unmarshal`, axios). They are the `Feed` and `Fetch` inputs. A decoded page is the "dados" array. A `null` element decodes as an empty map. An element that is not an object makes `json.Unmarshal` fail, which is a `DecodeError` entry of the `Feed`.
- An API that never returns a short or empty page: a `Feed` is finite, and pages past its end are empty.
- Repeated requests for the same page or deputy are answered the same way, because `feeds` and `gastos` are functions.
- Save failures inside the sync loops are functions of the record saved, so two saves of the same record fail alike.
- The progress counters `totalDeputados` and `totalGastos` in `camara.go`, since only the log uses them. The log calls and the rate-limiting sleeps are left out too.
- The SQLite engine: connection setup, DDL and indexes, the `updated_at`/`created_at`/`CURRENT_TIMESTAMP` columns, and the `ranking_cache` table (`backend/database/db.go:70-77`), which no core code reads or writes. When and why the engine fails is not modelled: a failing Query or Scan is a `fault` argument and a failing step of a list query a `stepFault` argument.
- Float arithmetic: money is `real`, summed exactly, with no rounding. Go's conversion of an out-of-range float to int is not modelled.
- `Database.Store.BuscarRanking` is specified up to the order among equal totals, which SQL leaves open.
- Unicode case folding: `toLowerCase` is modelled for ASCII letters only.
- JavaScript number precision: `parseInt` is modelled on unbounded integers, so digits past 2^53 are not rounded.
- Atoi's fast path for short inputs behaves as the general path and is not modelled separately.
- The `|| 0` fallback for `valorDocumento` in `Gastos.jsx`. The backend always writes the number, so every `Despesa` has one.
- `frontend/src/services/api.js` is not part of this model beyond what `WebClient.Received` states: it returns the response body or re-raises. The search pages call the backend directly with axios, or through that wrapper, and both are read as `Fetch`.
- The alerts, `console.log` calls, animation, formatting (`Intl.NumberFormat`, `toLocaleDateString`) and navigation of the pages.
- `Promise.all` is modelled only as all-or-nothing, not as concurrency.
- The pages `Ranking.jsx`, `Estatisticas.jsx`, `Home.jsx`, `SplashScreen.jsx` and `App.jsx` are not part of this model. They hold only display and routing.
- `backend/main.go` is not part of this model: it holds only route, CORS and middleware wiring.

## Findings

| source | as written | input that shows it | evidently intended | confidence | as-written member | corrected member |
|---|---|---|---|---|---|---|
| frontend/src/pages/Deputados.jsx:20, 28 | `setDeputados(data)` stores the body as it comes, and `deputados.filter` runs on it while rendering. For an empty table `BuscarDeputados` returns a slice never appended to, which `c.JSON` sends as `null` (backend/handlers/handlers.go:21). | The deputies page opened before the first sync: the body is `null`, and `null.filter` throws. | Fall back to an empty list when the body is null, as Propostas.jsx:37 does for its list. | not executed | DeputadosAsWritten.EmptyTableBreaksPage | DeputadosView.DeputadosPage.LoadDeputados |
| frontend/src/pages/Gastos.jsx:34-35, 145, 164, 220 | `setGastos2024(gastos24)` and `setGastos2025(gastos25)` store the bodies as they come, and rendering reads their `.length`. A year without expenses is sent as `null` (backend/handlers/handlers.go:50). The empty-list fallback on lines 53-54 covers only the totals. | Deputy 1 with one 2024 expense and none in 2025: the 2025 body is `null`, and `gastos2025.length` throws. | Fall back to an empty list for a null year, and show the 2024 column. | not executed | GastosAsWritten.NullYearBreaksPage | GastosView.GastosPage.BuscarGastos |
