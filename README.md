# Datum-Safra: the ingestion-and-join pipeline

Datum-Safra collects yearly crop statistics for the state of Mato Grosso (MT). It also collects
daily weather observations for the same years and serves both, joined by year, to a dashboard.
This project models the pipeline's core and proves properties about it:

- **Crop reload.** The Conab historical series is transformed. Columns are renamed, area and
  production are scaled from thousands to units, the season's start year becomes `ano`, and only
  MT rows are kept. The crop table (`SafraAnual`) is then emptied and reloaded by upserting on
  its natural key `(ano, uf, produto)`, counting the keys created. There are two variants, and
  the model has both:
  - the management command strips `produto` and loads inside one transaction;
  - the Celery task does neither.
- **Ground-station import (INMET).** The station catalog is filtered to MT and upserted by
  `codigo`. Each registered MT station is then queried for every crop year it was already
  operating in. The command uses two half-year windows per year; the Celery task uses one
  whole-year window. Failed or empty windows are skipped. Each record's four measures are stored
  as present or NULL.
- **Satellite-locality import (NASA POWER).** Five fixed localities are seeded by name. Every
  stored locality is then queried for every crop year. A day is stored only when its maximum,
  its minimum and its precipitation all differ from the `-999` sentinel. Each locality-year is
  written in its own transaction.
- **Chart join (`get_chart_data`).** Production is summed by year over the rows whose product
  contains the filter, ignoring case. Precipitation is summed by calendar year over all
  observations. These feed a year axis and two data lists aligned with it. The axis is the
  ascending list of the years present in both sums.

How the model is built:

- The database is a `Database` class with one `map` per table, keyed by natural key.
  `update_or_create` is a map update and `delete()` empties the map. A transaction is a snapshot
  that is restored on failure.
- What an observation import does to the observation table is stated as the sequence of writes
  it makes (`Store.Write`), applied in order.
- The loops of the commands and the task are methods with loop invariants. Each one is proved
  against these functions.
- Every fetch is an input:
  - the Conab download and the station catalog are `Result` values;
  - the daily series come from a given function from request to `Result`.
- Python's `float` and `strptime` are given functions (`Parsing.Parsers`); each is `None` where
  the library would raise.

Files: `wrappers.dfy`, `text.dfy` (strip, `int`/`str`, ASCII case, substring), `calendar.dfy`,
`ordering.dfy`, `sequences.dfy`, `models.dfy`, `store.dfy`, `http.dfy`, `parsing.dfy`,
`processa_conab.dfy`, `importar_safras.dfy`, `importar_inmet.dfy`, `importar_nasa.dfy`,
`tasks.dfy`, `views.dfy`.

## Model

| member | source | states |
|---|---|---|
| Models.Record | core/models.py:3-33 | A record carries the key and the three independently nullable measures it is built from. |
| Models.UniqueNaturalKey | core/models.py:37 | A stored table holds at most one record per `(ano, uf, produto)`; any two stored records with the same key are equal, and each is the one stored under its key. This holds by construction, since the table is a map keyed by the natural key. |
| Models.StrShowsRecord | core/models.py:39-40 | The string form starts with `"<produto> em <uf>"` and ends with the decimal year, which reads back as `ano`. |
| Text.StripSpec | core/management/commands/importar_safras.py:49 | `strip()` returns the middle of the text once the whitespace runs at both ends are cut; the result has no whitespace at either end. |
| Text.StripIdempotent | core/management/commands/importar_safras.py:49 | Stripping an already stripped name changes nothing. |
| Text.StripTrailingSpace | core/management/commands/importar_safras.py:49 | A trailing blank after a trimmed non-empty name is removed by `strip()`. |
| Text.BeforeFirst | core/management/commands/importar_dados_inmet.py:39 | `split(sep)[0]` is the longest prefix without `sep`; it is followed by `sep` unless it is the whole text. |
| Text.ParseInt | scripts/processa_conab.py:33 | `int(s)` succeeds exactly when the stripped text is an optionally signed run of digits. |
| Text.IntToStringRoundTrip | core/models.py:40 | Parsing the printed year gives the year back. |
| Text.Capitalize | core/views.py:44 | `capitalize()` keeps the length, upper-cases the first character and lower-cases the rest. |
| Text.Contains | core/views.py:27 | Substring search is true exactly when the needle occurs at some position. |
| Text.IContainsEmpty | core/views.py:26-27 | The empty text is contained in every product name. |
| Text.IContainsSubstring | core/views.py:27 | `icontains` matches every case variant of every substring of the product name. |
| Text.IContainsPrefix | core/views.py:27 | A name that contains `f + g`, case-insensitively, contains `f`. |
| Calendar.Semestres | core/management/commands/importar_dados_inmet.py:65-68 | A year has two windows: the first starts on 1 January and the second ends on 31 December. |
| Calendar.SemestresPartitionYear | core/management/commands/importar_dados_inmet.py:65-68 | Every real date of the year lies in exactly one of the two half-year windows, and no date of another year lies in either. |
| Calendar.AnoInteiroCovers | core/management/commands/importar_dados_nasa.py:47 | A real date lies in the whole-year window exactly when it is a date of that year. |
| Ordering.Sorted | core/views.py:41 | `sorted(set)` is strictly increasing and holds exactly the set's elements. |
| Ordering.SortedUnique | core/views.py:41 | Two strictly increasing lists with the same elements are equal, so the ascending listing is unique. |
| Ordering.SortedList | core/management/commands/importar_dados_inmet.py:49 | The `distinct().order_by('ano')` listing is the ascending listing of the distinct crop years. |
| Sequences.Kept | scripts/processa_conab.py:37 | The positions kept by a boolean mask are ascending and are exactly the positions whose row passes. |
| Sequences.Filter | core/management/commands/importar_dados_inmet.py:29 | A filtering comprehension keeps, in order, exactly the elements at the kept positions, and every one passes. |
| Sequences.FilterMembers | core/management/commands/importar_dados_inmet.py:29 | An element is in the filtered list exactly when it is in the list and passes the test. |
| Sequences.FirstFailing | core/management/commands/importar_dados_inmet.py:89-102 | A loop that stops at its first failing element stops at a position where every earlier element passes and that is the end or a failing element. |
| Sequences.FirstFailingAll | core/management/commands/importar_dados_inmet.py:89-102 | Such a loop runs to the end exactly when every element passes. |
| Store.Written | core/management/commands/importar_dados_nasa.py:64-69 | The ground-station upsert sets all four measures. The satellite upsert sets the two temperatures and the precipitation and keeps the humidity of an existing row, or NULL for a new one. |
| Store.ApplyWrite | core/management/commands/importar_dados_inmet.py:91-100 | `update_or_create` on `(owner, data)` adds that key and changes no other row. |
| Store.OrderIrrelevant | core/management/commands/importar_dados_inmet.py:61-62 | When each owner's writes touch only its own rows, handling the same owners in any order, each once, leaves the same observation table. |
| Store.Database.DeleteAllSafras | core/management/commands/importar_safras.py:42 | `delete()` empties the crop table. |
| Store.Database.UpsertSafra | core/management/commands/importar_safras.py:46-57 | The upsert is refused exactly when the key overflows the column lengths (2 for `uf`, 255 for `produto`). Otherwise the key holds the new measures, and `created` is true exactly when the key was new. |
| Store.Database.RollbackSafras | core/management/commands/importar_safras.py:41 | A rolled-back transaction restores the crop table to its snapshot. |
| Store.Database.UpsertEstacao | core/management/commands/importar_dados_inmet.py:32-42 | The station table changes at `codigo` only. |
| Store.Database.UpsertLocalidade | core/management/commands/importar_dados_nasa.py:28-31 | The locality table changes at `nome` only. |
| Store.Database.SaveDado | core/management/commands/importar_dados_inmet.py:91-100 | Saving an observation is applying its write. |
| Store.Database.RollbackDados | core/management/commands/importar_dados_nasa.py:57 | A rolled-back transaction restores the observation table to its snapshot. |
| ProcessaConab.ColunasConsistentes | scripts/processa_conab.py:15-49 | The rename sends no two columns to the same name. Every final column is a renamed column or the derived `ano`, and the six final columns are distinct. |
| ProcessaConab.RenameBijective | scripts/processa_conab.py:15-24 | Renaming changes only names: it can be undone in both directions. |
| ProcessaConab.Escala | scripts/processa_conab.py:28-29 | Scaling keeps an empty cell empty and a filled cell filled, and a non-negative amount non-negative. |
| ProcessaConab.EscalaInjective | scripts/processa_conab.py:28-29 | A scaled value divided by 1000 is the raw value, so no two raw values scale to the same one. |
| ProcessaConab.AnoDaSafra | scripts/processa_conab.py:33 | The season's year is defined exactly when the text before the first `/` is an integer literal whose value fits 64 bits, and it is then that value. |
| ProcessaConab.AnoDaSafraOf | scripts/processa_conab.py:33 | A season written as a year, `/` and anything yields that year when it fits 64 bits, and makes the cast raise otherwise. |
| ProcessaConab.AnoDaSafraExemplo | scripts/processa_conab.py:33 | `"2020/2021"` yields 2020. |
| ProcessaConab.AnoDaSafraInvalida | scripts/processa_conab.py:33 | A season with no leading integer, such as `"/2021"` or an empty cell, makes the conversion raise, and so does the year 2^63. |
| ProcessaConab.Anos | scripts/processa_conab.py:33 | The `ano` column succeeds exactly when every row's season converts, and then it holds each row's start year. Otherwise it names the first row that does not convert, and every earlier row converts. |
| ProcessaConab.Transform | scripts/processa_conab.py:15-49 | The transform fails exactly when some season does not convert (naming the first one). Otherwise it lists, in file order, one row per MT input row: the year from the season, `uf` MT, `produto` copied, area and production ×1000, productivity copied. |
| ProcessaConab.Projetados | scripts/processa_conab.py:37-49 | Renaming, scaling, the MT mask and the projection give exactly one correctly derived row per MT input row, in order. |
| ProcessaConab.TransformKeepsExactlyMT | scripts/processa_conab.py:37 | Every output row is an MT row, and every MT input row appears in the output correctly derived. |
| ProcessaConab.TransformNaoNegativo | scripts/processa_conab.py:28-41 | When no MT input row has a negative area, production or productivity, no output row has one either. |
| ImportarSafras.CarregadaChaves | core/management/commands/importar_safras.py:42-55 | After emptying and upserting the rows, the table's keys are exactly the distinct `(ano, uf, produto)` keys of the rows. |
| ImportarSafras.CarregadaTamanho | core/management/commands/importar_safras.py:42-57 | The reloaded table has as many rows as there are distinct keys, which is how many upserts created a row. |
| ImportarSafras.CarregadaUltimaVence | core/management/commands/importar_safras.py:44-55 | Each key holds the measures of the last row with that key. |
| ImportarSafras.StripIrrelevante | core/management/commands/importar_safras.py:49 | When no product name has surrounding whitespace, the stripped and the unstripped loads give the same table. |
| ImportarSafras.StripUnificaChaves | core/tasks.py:53-54 | A name and the same name with a trailing blank are one key when stripped and two keys when not. |
| ImportarSafras.PrimeiraRecusada | core/management/commands/importar_safras.py:44-55 | The load stops at the first row whose key the database refuses; every earlier key fits. |
| ImportarSafras.Carrega | core/management/commands/importar_safras.py:42-57 | The load loop succeeds exactly when no key is refused. The table then holds the rows upserted before the stop, and on success the count of created rows is the number of distinct keys. |
| ImportarSafras.Handle | core/management/commands/importar_safras.py:11-60 | A failed download or a raising transform leaves the table untouched. A finished load leaves exactly the reloaded table and reports the distinct-key count. A refused row rolls the whole transaction back. |
| Tasks.ConabTask | core/tasks.py:9-70 | A failed download or transform returns its error with the table untouched. Otherwise the table is emptied and reloaded with unstripped names. A refused row returns the error and leaves the rows upserted before it, with no rollback. |
| Tasks.TarefaComoComando | core/tasks.py:52-62 | With already trimmed product names, the task refuses the same row as the command and loads the same table. |
| Tasks.TarefaVersusComando | core/tasks.py:49-70 | On the same rows with trimmed names, the task and the command stop at the same refused row. The command then rolls back to the table it started from. The task keeps the partial reload, which differs from any starting table lacking the first row's key, the empty one included. |
| Tasks.CargaParcialVisivel | core/tasks.py:49-70 | A task load stopped at row `k > 0` leaves a partial table different from the full reload that still holds the first row. |
| Tasks.RetornoIdentifica | core/tasks.py:101-149 | The strings the INMET task returns tell its outcomes apart, down to the catalog error's message. |
| Tasks.InmetTask | core/tasks.py:74-149 | A failed catalog fetch returns before any daily fetch. A raising catalog entry makes the task raise, with earlier entries saved. No crop year returns before any daily fetch. Otherwise each MT station is handled once with one whole-year request per eligible year, and the observation table is the result of those writes. |
| ImportarInmet.EstacaoDe | core/management/commands/importar_dados_inmet.py:31-42 | An MT entry is saved exactly when its three coordinates and the date before `T` convert. The saved station has those values, its name and `uf` MT. |
| ImportarInmet.Cadastradas | core/management/commands/importar_dados_inmet.py:31-42 | Upserting the MT entries adds exactly their codes, writes only MT stations and leaves the other stations as they were. |
| ImportarInmet.CadastradasUltima | core/management/commands/importar_dados_inmet.py:31-42 | A code repeated in the catalog keeps the station built from its last entry. |
| ImportarInmet.PrimeiraInvalida | core/management/commands/importar_dados_inmet.py:31-42 | The catalog step stops at the first MT entry whose conversion raises; all earlier entries convert. |
| ImportarInmet.CadastrarEstacoes | core/management/commands/importar_dados_inmet.py:22-45 | A failed catalog fetch changes nothing. Otherwise the MT entries are upserted by `codigo` up to the first that raises, and the outcome names that entry or the count. |
| ImportarInmet.Cadastrar | core/management/commands/importar_dados_inmet.py:31-42 | The upsert loop leaves the station table with the entries before the first failing one and reports where it stopped. |
| ImportarInmet.Campo | core/management/commands/importar_dados_inmet.py:95-98 | An absent or empty field is stored as NULL, and only then. A non-empty field is the value `float` gives, or the save raises; it is never zero by default. |
| ImportarInmet.Gravacao | core/management/commands/importar_dados_inmet.py:91-99 | A convertible record is upserted under `(station, date)` with its four fields as mapped. |
| ImportarInmet.Parada | core/management/commands/importar_dados_inmet.py:89-102 | The save loop of a window stops at the first record that does not convert; all earlier records convert. |
| ImportarInmet.GravacoesJanela | core/management/commands/importar_dados_inmet.py:89-102 | A window writes the upserts of its records before the first failing one, in order, all owned by the station. |
| ImportarInmet.GravacoesResposta | core/management/commands/importar_dados_inmet.py:80-86 | A failed fetch or an empty series writes nothing. |
| ImportarInmet.Elegiveis | core/management/commands/importar_dados_inmet.py:63 | A station is queried for exactly the crop years from its start-of-operation year on. |
| ImportarInmet.PedidosAno | core/management/commands/importar_dados_inmet.py:72-76 | Each window of a station-year is requested once, in order, for that station. |
| ImportarInmet.SemestreSpec | core/management/commands/importar_dados_inmet.py:63-72 | Each eligible year issues exactly two requests, in order: `ano-01-01..ano-06-30`, then `ano-07-01..ano-12-31`. |
| ImportarInmet.AnualSpec | core/tasks.py:118-121 | In the task, each eligible year issues exactly one request, `ano-01-01..ano-12-31`. |
| ImportarInmet.JanelaIgnorada | core/management/commands/importar_dados_inmet.py:80-86 | A failed or empty window leaves the writes of the other windows exactly as if it had not been requested. |
| ImportarInmet.GravacoesEstacaoOwner | core/management/commands/importar_dados_inmet.py:91-93 | All writes for a station are observations of that station. |
| ImportarInmet.SalvarJanela | core/management/commands/importar_dados_inmet.py:89-102 | Saving a window applies its writes up to the first failing record; the saved rows are not rolled back. |
| ImportarInmet.ImportarAno | core/management/commands/importar_dados_inmet.py:72-102 | A station-year requests its windows in order and applies, for each, the writes of its response. |
| ImportarInmet.ImportarEstacao | core/management/commands/importar_dados_inmet.py:62-102 | A station requests the windows of its eligible years, year after year, and applies their writes. |
| ImportarInmet.ImportarDadosDiarios | core/management/commands/importar_dados_inmet.py:47-102 | With no crop year nothing is requested or changed. Otherwise each MT station is handled once, in some order, with its requests and writes. |
| ImportarInmet.ImportarEstacoes | core/management/commands/importar_dados_inmet.py:61-102 | Each given MT station is handled once, in some order. The requests are station after station, and the table is the result of those stations' writes. |
| ImportarInmet.DiariosIndependemDaOrdem | core/management/commands/importar_dados_inmet.py:50-61 | The unordered station query does not matter: any order of the same stations gives the same observation table. |
| ImportarInmet.Handle | core/management/commands/importar_dados_inmet.py:11-20 | A catalog fetch failure leaves the station table as it was and the daily import runs anyway with half-year windows. On a fetched catalog, the station table becomes the old one with the MT entries registered up to the first raising entry; the command is interrupted at that entry if there is one and completed otherwise. An interrupted command makes no daily fetch. |
| ImportarNasa.LocalidadesDistintas | core/management/commands/importar_dados_nasa.py:10-14 | The seed has five localities with distinct names. |
| ImportarNasa.SemeadasChaves | core/management/commands/importar_dados_nasa.py:27-31 | Seeding adds exactly the seeded names to the locality table. |
| ImportarNasa.SemeadasValores | core/management/commands/importar_dados_nasa.py:27-31 | With distinct names, each seeded name holds its coordinates and every other locality keeps its record. |
| ImportarNasa.CadastrarLocalidades | core/management/commands/importar_dados_nasa.py:24-32 | Seeding upserts the five localities by name, in order. |
| ImportarNasa.EscritasSpec | core/management/commands/importar_dados_nasa.py:58-69 | The writes of a locality-year are exactly the upserts of the complete days among the `T2M_MAX` dates. |
| ImportarNasa.RegraDaTripla | core/management/commands/importar_dados_nasa.py:60-63 | A `T2M_MAX` day is written exactly when its maximum, its minimum and its precipitation all differ from `-999`; a missing minimum or precipitation counts as `-999`. |
| ImportarNasa.EscritasOwner | core/management/commands/importar_dados_nasa.py:64-65 | All writes of a locality-year are observations of that locality. |
| ImportarNasa.PedidosLocalidade | core/management/commands/importar_dados_nasa.py:44-48 | Each locality is requested once per crop year, for the whole year, with no start-date filter. |
| ImportarNasa.AnoDescartado | core/management/commands/importar_dados_nasa.py:49-72 | A year whose fetch fails, whose body lacks a series, or that has a date `strptime` rejects contributes nothing. The other years are written as if it had not been requested. |
| ImportarNasa.GravacoesLocalidadeOwner | core/management/commands/importar_dados_nasa.py:64-65 | All writes for a locality are observations of that locality. |
| ImportarNasa.SalvarAno | core/management/commands/importar_dados_nasa.py:57-69 | The transaction of a locality-year applies the writes of its complete days, or nothing if any date fails to parse. |
| ImportarNasa.ImportarLocalidade | core/management/commands/importar_dados_nasa.py:44-72 | A locality requests each crop year in order and applies each year's writes. |
| ImportarNasa.ImportarDadosDiarios | core/management/commands/importar_dados_nasa.py:34-72 | With no crop year nothing is requested or changed. Otherwise every stored locality, seeded or not, is handled once, in some order. |
| ImportarNasa.ImportarLocalidades | core/management/commands/importar_dados_nasa.py:43-72 | Each stored locality is handled once, in some order. The requests are locality after locality, and the table is the result of their writes. |
| ImportarNasa.DiariosIndependemDaOrdem | core/management/commands/importar_dados_nasa.py:36-43 | The unordered locality query does not matter: any order of the same localities gives the same observation table. |
| ImportarNasa.Handle | core/management/commands/importar_dados_nasa.py:18-22 | The command seeds the five localities, then imports the daily series of every stored locality. |
| Views.Mais | core/views.py:30-32 | Adding under SQL `SUM` is NULL exactly when both operands are NULL, is the sum when both are present, and is the other operand when one is NULL. |
| Views.SomaSem | core/views.py:30-32 | A sum does not depend on the order of its rows: any row can be added last. |
| Views.SomaNula | core/views.py:30-32 | A sum is NULL exactly when every summed value is NULL. |
| Views.SomaUniao | core/views.py:30-32 | The sum over two disjoint sets of rows is the sum of their sums. |
| Views.Alinhado | core/views.py:51 | The list built over `labels` has the axis's length, and entry `i` is the total for `labels[i]`. |
| Views.GetChartData | core/views.py:15-67 | The axis is strictly increasing and holds exactly the years that have both selected crop rows and observations. Both lists have the axis's length, and entry `i` is that year's production or precipitation total. The label is `"Produção de <capitalized filter> (Toneladas)"`. |
| Views.LabelsCanonicos | core/views.py:41 | The axis is the only strictly increasing list of the common years. |
| Views.RotuloPadrao | core/views.py:20 | Without the parameter the filter is `soja`, and the label is `"Produção de Soja (Toneladas)"`. |
| Views.FiltroPadrao | core/views.py:20-27 | By default the rows selected are those whose product contains "soja" in any case. |
| Views.FiltroVazio | core/views.py:26-27 | An empty filter selects every row: the production years are all crop years, with the total of all of a year's rows. |
| Views.ProducaoNula | core/views.py:30-32 | A year's production is NULL exactly when none of its selected rows has a production. |
| Views.ProducaoParticiona | core/views.py:26-32 | Lengthening the filter from `f` to `f + g` never selects a new row. The year's production under `f` is the production under `f + g` plus that of the rows only `f` selects. |

## Left out

- HTTP and files: `requests.get`, `raise_for_status`, JSON decoding, the local file write and the latin-1 CSV read are not modelled. Each fetch is a `Result` input, or a given function from request to `Result`. The CSV is a given sequence of rows. Every row carries every expected column, so the `KeyError` a missing column raises at scripts/processa_conab.py:28-33 is not represented. In the command it would propagate, and in the task it would be returned as the processing error. A transform failure (`ErroTransformacao`) therefore comes only from a bad season.
- Text.ParseInt: reads an optional sign and ASCII digits after stripping. It does not accept the underscores between digits or the non-ASCII digits that Python's `int` also takes. The 64-bit range of `astype(int)` is applied on top of it by `ProcessaConab.AnoDaSafra`; a year outside that range takes the same error path as a season that is not an integer.
- `float` and `strptime` are given functions, not implementations. A date is `(year, month, day)`.
- Floating point: measures are `real`, so the ×1000 scaling and the sums are exact.
- Logging: every `print` and `stdout` message is left out.
- The strings the Conab task and the command print are represented by the `Resultado` outcome rather than by text. The INMET task's own returned strings are modelled (`Tasks.Retorno`).
- Case folding: `capitalize` and `icontains` fold ASCII letters only. Accented capitals such as `"Á"` are not folded.
- Database errors: the only crop-table upsert the model's database refuses is a key longer than the `uf` or `produto` column. Observation, station and locality upserts never fail in the model.
- Database backend: the repository's settings, which choose the database, are not part of this model. The model makes two assumptions about it, and no single common backend satisfies both:
  - an empty measure cell, NaN after `pd.read_csv`, is stored as SQL NULL, as SQLite stores it. `Views.SomaNula` and `Views.ProducaoNula` then treat it as NULL under `Sum`. PostgreSQL would store `'NaN'`, and that year's `Sum` would be NaN;
  - a key longer than the `max_length` of `uf` or `produto` (core/models.py:8,13) is refused, as PostgreSQL and strict MySQL refuse it. SQLite would store the row. `Store.Database.UpsertSafra`'s refusal stands in for any database error on that upsert.
- Negative amounts: neither the transform nor the `SafraAnual` fields (core/models.py:19-33 declare no validators) reject a negative area, production or productivity. A negative cell is stored as it comes, scaled. `ProcessaConab.TransformNaoNegativo` only shows the transform introduces no negative value.
- In the Conab load, an empty `produto` cell (NaN, on which `.strip()` would raise) is not represented: `produto` is always text.
- Iteration order: `filter(uf='MT')` and `objects.all()` have no `order_by`. The model lets the station and locality loops take the owners in any order, returned as ghost `ordem`, and proves the resulting table does not depend on that order.
- In `get_chart_data`, the constant precipitation label, colours, border widths and axis ids of the two datasets are not modelled, and neither is the `JsonResponse` wrapper.
- ImportarNasa.CadastrarLocalidades: nothing in the seeding loop fails in the model, so its `transaction.atomic` never rolls back and is not represented.
- ImportarSafras.Handle: a transform that raises propagates out of the command's `handle`. The model reports it as `ErroTransformacao`, with the table untouched.
- Tasks.InmetTask: the task has no empty-series check before its save loop. An empty series saves nothing either way, so the model shares the command's window handling.
- ImportarInmet.Handle: like the source, an entry whose conversion raises ends the command. The model does not describe how that exception then surfaces.
- INMET JSON fields: `CatalogEntry` and `DailyRecord` hold plain text for the fields the source reads by key: `CD_ESTACAO`, `DC_NOME`, the three `VL_*` fields and `DT_INICIO_OPERACAO` (core/management/commands/importar_dados_inmet.py:33-39), and `DT_MEDICAO` (:93). A missing key (`KeyError`) or a JSON null passed to `float` (`TypeError`) cannot occur in the model. In the source, either would be another way for a catalog entry to interrupt the command, and another way for a window's save loop to stop. Only the fields the source reads with `.get` are optional in the model: `SG_ESTADO` and the four daily measures.
- The station, locality and observation records (`EstacaoMeteorologica`, `Localidade`, `DadoMeteorologicoDiario`) are imported by core/tasks.py:6, core/views.py:3, core/management/commands/importar_dados_inmet.py:4 and core/management/commands/importar_dados_nasa.py:4. However, core/models.py:1-43 defines only `SafraAnual`, so as given those imports fail at import time and none of these modules loads. The model assumes the three classes exist. Their fields and keys follow how the commands use them:
  - a station is keyed by `codigo`;
  - a locality by `nome`;
  - an observation by its station or locality plus its date.
- Celery and Django wiring (`datum_safra/celery.py`, `core/urls.py`, `dashboard_view`) and the exploratory scripts (`scripts/explorador_inmet.py`, `scripts/explorador_nasa.py`, `scripts/extrair_conab.py`) are not part of this model.
