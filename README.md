# Asset inventory — a Dafny model of its rules

This project models the rules of a browser asset-inventory application for a university. The application keeps:
- a list of assets, each with name, type, unit price, quantity, status, responsible person, location and purchase date;
- a list of user accounts.

It produces CSV, PDF and XML audit reports. The model covers:

- **The shared records** (`AssetModel`):
  - the asset, its `YYYY-MM-DD` date, the eleven asset types and four statuses;
  - the annual depreciation-rate table;
  - the audit alert vocabulary and the criticality levels.
- **Three depreciation rules, each kept as written:**
  - the floor-of-years, rate-table rule shared by the asset, CSV and PDF services (`RateDepreciation`);
  - the straight-line rule by useful life (`MonthDepreciation`). The TypeScript audit service drives it with calendar months (`XmlAuditoria`). The JavaScript audit module drives it with 30-day months (`XmlAuditoriaJs`).
  - Around those rules sit criticality, physical state, alerts, the inventory summary, the period start and the patrimonial code.
- **The asset store** (`AssetService.AssetStore`):
  - adding with id max+1, updating by id with a field merge, deleting by id;
  - the status, type and search queries, and the statistics;
  - the multi-criteria report filter;
  - the distinct sorted years and locations;
  - the per-asset depreciation.
- **The report helpers:**
  - CSV field quoting and its inverse (`CsvReport`);
  - the per-status and per-type grouping pass shared by the CSV and PDF reports (`Grouping`);
  - the PDF table with its footer (`PdfReport`);
  - the CSV text assembly.
- **Accounts** (`AuthService.AuthState`): seeding the administrator, registration checks in their order, login, logout and the signed-in user.
- **The pages:**
  - the assets page (`ActivosComponent.ActivosPage`): list filter, add/edit dialog, form validity, submit and delete, percent rate table;
  - the thousands-separator currency formatter (`Currency`);
  - the users page (`UsuariosComponent.UsuariosPage`): account normalisation, search and CSV export.

The original is an Angular application written in TypeScript, plus one plain JavaScript audit module (`js/xmlAuditoria.js`). Its numbers and its environment are modelled as follows:
- **Money** is `real`.
- **IEEE division** by zero (`Infinity`, `NaN`) is the `Numbers.Num` datatype, where comparisons with `NaN` are false.
- **Clock reads** become parameters: a number of whole elapsed days, or today's date.
- **A JavaScript `Map`** is a sequence of entries in insertion order.
- **Browser storage** becomes fields of the classes.

The model follows the code as written, including these behaviours:
- Negative month counts are not clamped.
- `porcentaje` in the asset service is the rate ×100, not the depreciated share.
- `activosAsignados` counts the status `'Asignado'`, which no asset can have, so it is always 0 (`XmlAuditoria.AsignadosSiempreCero`, `XmlAuditoriaJs.ResumenSinAsignados`).
- The useful-life keys `'Vehículos'` and `'Edificios'` never match an asset type (`MonthDepreciation.VidaUtilAssetTypes`).
- Registration does not trim the password but login does (`AuthService.BlankPasswordRegistersButCannotLogIn`).
- The users export does not quote its cells (`UsuariosComponent.ExportShiftsColumns`).

## Model

| member | source | states |
|---|---|---|
| AssetModel.Iso | src/app/core/models/asset.model.ts:14 | the stored date text is ten characters: four year digits, a dash, two month digits, a dash, two day digits |
| AssetModel.IsoOrder | src/app/core/models/asset.model.ts:14 | for well-formed dates, string order of the `YYYY-MM-DD` texts is calendar order, and equal texts are equal dates |
| AssetModel.RatesCoverAssetTypes | src/app/core/models/asset.model.ts:17-28 | there are eleven distinct asset types and the rate table has exactly one entry for each |
| AssetModel.RatesAreFractions | src/app/core/models/asset.model.ts:62-74 | every annual rate lies strictly between 0 and 1 |
| AssetModel.StatusUnion | src/app/core/models/asset.model.ts:30 | the status union has exactly four distinct values |
| AssetModel.FindIndex | src/app/core/services/asset.service.ts:75 | `findIndex` by id: -1 exactly when no record has the id, otherwise the first record with it |
| AssetModel.FindById | src/app/core/services/asset.service.ts:55-57 | `getAssetById`: none exactly when no record has the id, otherwise the first record with that id |
| AssetService.WithId | src/app/core/services/asset.service.ts:65 | `{ ...asset, id }` keeps every field of the draft and sets the id |
| AssetService.Merge | src/app/core/services/asset.service.ts:81 | `{ ...asset, ...updates }`: every key present in the patch takes the patch's value, every absent key keeps the record's; the empty patch returns the record |
| AssetService.MergeLaws | src/app/core/services/asset.service.ts:81 | the spread merge: an empty patch changes nothing, a patch applied twice acts once, two patches in a row act as their combination |
| AssetService.MaxId | src/app/core/services/asset.service.ts:64 | `Math.max` of the ids: at least every id and equal to one of them |
| AssetService.NextId | src/app/core/services/asset.service.ts:64 | the new id is 1 for an empty list, otherwise one more than an existing id, and it exceeds every id, so it is fresh |
| AssetService.FilterKeepsUniqueIds | src/app/core/services/asset.service.ts:91 | filtering a list with unique ids keeps them unique |
| AssetService.AssetStore.constructor | src/app/core/services/asset.service.ts:20-31 | the stored list, or empty when nothing is stored |
| AssetService.AssetStore.AddAsset | src/app/core/services/asset.service.ts:62-68 | appends exactly one record with the fresh id and the draft's fields; earlier records unchanged; total value grows by its value; unique ids preserved |
| AssetService.AssetStore.UpdateAsset | src/app/core/services/asset.service.ts:73-84 | true exactly when the id exists; false leaves the list unchanged; true replaces only the first record with the id by its merge with the patch; total value adjusts by the difference |
| AssetService.AssetStore.DeleteAsset | src/app/core/services/asset.service.ts:89-99 | the list becomes the records with another id, in order; true exactly when some record had the id; false leaves the list unchanged; unique ids preserved |
| AssetService.AssetsByStatus | src/app/core/services/asset.service.ts:104-106 | an order-preserving subsequence holding exactly the records with that status |
| AssetService.AssetsByType | src/app/core/services/asset.service.ts:111-113 | an order-preserving subsequence holding exactly the records of that type |
| AssetService.TotalValueNonNegative | src/app/core/services/asset.service.ts:118-122 | with non-negative prices and quantities the inventory total is non-negative |
| AssetModel.TotalValue | src/app/core/services/asset.service.ts:118-122 | the sum of price × quantity: 0 for no assets, the one asset's value for a single asset |
| AssetModel.TotalValueConcat | src/app/core/services/asset.service.ts:118-122 | the value of two lists together is the sum of their values |
| AssetService.StatusCountsPartition | src/app/core/services/asset.service.ts:127-136 | the three counted statuses plus the others account for every record exactly once |
| AssetService.GetStatistics | src/app/core/services/asset.service.ts:127-136 | total is the length, each count is the size of the status query, the value is the inventory total, and the counts plus the uncounted records make the total |
| AssetService.StatisticsOfValidStatuses | src/app/core/services/asset.service.ts:127-136 | when every status is a union member, the three counts plus the retired records make the total |
| AssetService.SearchAssets | src/app/core/services/asset.service.ts:141-148 | an order-preserving subsequence holding exactly the records whose name, responsible or location contains the lower-cased term |
| AssetService.SearchEmptyTerm | src/app/core/services/asset.service.ts:141-148 | the empty term finds every record, in order |
| AssetService.SearchFindsByName | src/app/core/services/asset.service.ts:141-148 | searching for a record's own name finds that record |
| AssetService.StageFilter | src/app/core/services/asset.service.ts:211-248 | one optional filter stage after a filter is a single filter by the conjunction |
| AssetService.ConditionIsSatisfies | src/app/core/services/asset.service.ts:211-248 | the chained stage condition is the same as meeting every supplied criterion |
| AssetService.FilterAssets | src/app/core/services/asset.service.ts:202-249 | an order-preserving subsequence holding exactly the records that meet every supplied criterion |
| AssetService.FilterAssetsChain | src/app/core/services/asset.service.ts:213-246 | the seven optional stages applied in the source's order give the filter by all criteria |
| AssetService.FilterAssetsNoCriteria | src/app/core/services/asset.service.ts:211-248 | with no criterion set the whole list is returned |
| AssetService.FilterAssetsDateRange | src/app/core/services/asset.service.ts:240-246 | the string bounds on the date keep exactly the records dated between the two bounds, inclusive, in calendar order |
| AssetService.StringOrderIsStrictTotal | src/app/core/services/asset.service.ts:264 | the default string sort order is a strict total order |
| AssetService.UniqueYears | src/app/core/services/asset.service.ts:254-257 | strictly descending (so without duplicates) and holding exactly the purchase years present |
| AssetService.UniqueLocations | src/app/core/services/asset.service.ts:262-265 | strictly ascending in string order (so without duplicates) and holding exactly the locations present |
| AssetService.ServiceRatesMatchModel | src/app/core/services/asset.service.ts:154-166 | the service's own rate literal equals the model's rate table |
| AssetService.CalculateDepreciation | src/app/core/services/asset.service.ts:153-187 | percent is the rate ×100; years of use is the floor of elapsed years; monthly ×12 is annual; annual is value × rate; accumulated and current value are those of the floor-of-years rule (the capped product and the clipped remainder), so for non-negative days and value they lie within the value and add up to it |
| AssetService.CalculateDepreciationPercentIsRate | src/app/core/services/asset.service.ts:184 | in the first year a computer has nothing accumulated yet reports a percent of 33 |
| AssetService.AssetsWithDepreciation | src/app/core/services/asset.service.ts:192-197 | one entry per asset, in order, holding the asset and exactly the store's depreciation of that asset |
| RateDepreciation.YearsOfUse | src/app/features/activos/pages/activos.component.ts:191-196 | the floor of the elapsed days over 365.25 |
| RateDepreciation.RateFor | src/app/core/services/pdf-report.service.ts:377 | the lookup with fallback: the table rate when present and non-zero, otherwise 0.10; a proper fraction whenever every table rate is |
| RateDepreciation.YearsOfUseMonotone | src/app/core/services/csv-report.service.ts:250-253 | more elapsed days never give fewer years of use |
| RateDepreciation.FirstYearCompletesOnDay366 | src/app/core/services/pdf-report.service.ts:372-375 | day 365 still counts as year 0 and day 366 as year 1 |
| RateDepreciation.RateForModelTable | src/app/core/services/pdf-report.service.ts:377 | a known type gets its table rate, any other type 0.10, and the rate is a proper fraction |
| RateDepreciation.FloorDepreciation | src/app/core/services/csv-report.service.ts:243-268 | the rate is the table rate or 0.10; accumulated is the least of annual × years and the value; current value is value minus accumulated, or 0 when that is negative (the PDF service, pdf-report.service.ts:365-390, repeats the same rule) |
| RateDepreciation.TableDepreciation | src/app/core/services/pdf-report.service.ts:365-390 | the floor-of-years rule over the model's table; with non-negative days and value, accumulated lies within the value and current value completes it |
| RateDepreciation.FloorDepreciationBounds | src/app/core/services/pdf-report.service.ts:380-381 | for non-negative days and value, both accumulated and current value lie in 0..value and add up to the value |
| RateDepreciation.FloorDepreciationMonotone | src/app/core/services/csv-report.service.ts:258 | accumulated depreciation never decreases as time passes |
| RateDepreciation.FloorDepreciationExhausted | src/app/core/services/csv-report.service.ts:258-259 | once rate × years reaches 1 the asset is fully depreciated and worth 0 |
| RateDepreciation.AccumulatedPercent | src/app/core/services/pdf-report.service.ts:192 | accumulated over value ×100, not finite when the value is 0 |
| RateDepreciation.AccumulatedPercentBounds | src/app/core/services/csv-report.service.ts:203 | for a positive value the depreciated percent is finite and between 0 and 100 |
| RateDepreciation.Monthly | src/app/core/services/pdf-report.service.ts:262 | the monthly figure times 12 is the annual figure |
| CsvReport.CsvRatesMatchModel | src/app/core/services/csv-report.service.ts:10-22 | the CSV service's rate table equals the model's |
| CsvReport.UnitCurrentValue | src/app/core/services/csv-report.service.ts:233 | the per-unit current value times the quantity is the current value; not finite for quantity 0 |
| CsvReport.EscapeCsvValue | src/app/core/services/csv-report.service.ts:282-287 | unchanged exactly when the value has no comma, quote or line feed; otherwise wrapped in quotes |
| CsvReport.EscapeRoundTrip | src/app/core/services/csv-report.service.ts:282-287 | stripping the outer quotes and collapsing doubled quotes gives back the original value |
| CsvReport.EscapedQuotesEven | src/app/core/services/csv-report.service.ts:284 | a quoted value holds an even number of quote characters |
| CsvReport.ReportRows | src/app/core/services/csv-report.service.ts:98-103 | one row per group in group order: escaped key, count, value and share of the total |
| CsvReport.GroupReportRows | src/app/core/services/csv-report.service.ts:82-103 | the total is the inventory value; each row's name unescapes to its key, and its count and value are those of exactly the assets with that key |
| CsvReport.RowLines | src/app/core/services/csv-report.service.ts:295 | each row becomes its cells joined by commas |
| CsvReport.CsvFile | src/app/core/services/csv-report.service.ts:293-299 | the file is a byte-order mark followed by the header line and the row lines joined by line feeds |
| CsvReport.CsvLines | src/app/core/services/csv-report.service.ts:293-296 | with single-line cells the content splits back into the header line and one line per row, rows+1 lines |
| Grouping.IndexOfKey | src/app/core/services/csv-report.service.ts:89 | `map.has`: -1 exactly when no entry has the key, otherwise an entry with it |
| Grouping.Tally | src/app/core/services/csv-report.service.ts:89-95 | an existing key's entry gets one more count and the asset's value added, and every other entry stays; a new key is appended at the end with count 1 |
| Grouping.TallySums | src/app/core/services/csv-report.service.ts:89-95 | one tally adds 1 to the summed counts and the asset's value to the summed values |
| Grouping.GroupedSums | src/app/core/services/pdf-report.service.ts:86-100 | the group counts sum to the number of assets and the group values to the inventory value |
| Grouping.GroupedKeys | src/app/core/services/csv-report.service.ts:119-133 | keys are distinct and every asset's key has an entry |
| Grouping.GroupedKeysFromAssets | src/app/core/services/csv-report.service.ts:119-133 | every entry's key is the key of some asset |
| Grouping.FirstWithKey | src/app/core/services/csv-report.service.ts:85-96 | the first asset position with the key, or -1 exactly when none has it |
| Grouping.GroupedFirstSeen | src/app/core/services/pdf-report.service.ts:133-147 | entries appear in the order their keys are first met in the asset list |
| Grouping.GroupedExact | src/app/core/services/csv-report.service.ts:82-96 | every entry's count and value are those of exactly the assets with its key |
| Grouping.GroupAssets | src/app/core/services/csv-report.service.ts:82-96 | the loop builds the grouped entries and the running total: distinct keys, exact counts and values, sums equal to the number of assets and the total |
| Grouping.SharesSumTo100 | src/app/core/services/pdf-report.service.ts:107 | for a non-zero total the groups' percentages add up to 100 |
| PdfReport.PdfRatesMatchModel | src/app/core/services/pdf-report.service.ts:12-24 | the PDF service's rate table equals the model's |
| PdfReport.TableRows | src/app/core/services/pdf-report.service.ts:103-108 | one table row per entry, in entry order, with key, count, value and share of the total |
| PdfReport.TableRowSums | src/app/core/services/pdf-report.service.ts:150-155 | the table rows' counts and values sum like the entries' |
| PdfReport.GroupTable | src/app/core/services/pdf-report.service.ts:86-118 | the footer shows the number of assets and the total; the rows sum to the footer, have distinct keys and hold each key's exact count, value and share |
| MonthDepreciation.Criticidad | src/app/core/services/xml-auditoria.service.ts:211-215 | Alta exactly above 500, Media exactly above 100 up to 500, Baja otherwise (the JavaScript module, js/xmlAuditoria.js:188-192, has the same thresholds and uses this function too) |
| MonthDepreciation.CriticidadMonotone | src/app/core/services/xml-auditoria.service.ts:211-215 | a higher price never gives a lower criticality |
| MonthDepreciation.VidaUtil | src/app/core/services/xml-auditoria.service.ts:220-228 | 10 exactly for installations, 7 exactly for 'Vehículos', 20 exactly for 'Edificios', otherwise 5 (js/xmlAuditoria.js:194-202 has the same table and default) |
| MonthDepreciation.VidaUtilAssetTypes | src/app/core/services/xml-auditoria.service.ts:221-227 | over the real asset types only installations get 10 years; every other type gets 5 |
| MonthDepreciation.DepreciacionPorMeses | src/app/core/services/xml-auditoria.service.ts:241-253 | annual × life is the value; monthly ×12 is annual; accumulated is the least of monthly × months and the value; current value is that remainder or 0; percent is accumulated over value |
| MonthDepreciation.DepreciacionBounds | src/app/core/services/xml-auditoria.service.ts:243-245 | for non-negative months and value, accumulated and current value lie in 0..value and add up to it; the percent is 0..100 |
| MonthDepreciation.DepreciacionMonotone | src/app/core/services/xml-auditoria.service.ts:241-243 | accumulated depreciation never decreases with the months elapsed |
| MonthDepreciation.DepreciacionProporcional | src/app/core/services/xml-auditoria.service.ts:241-243 | within the useful life, accumulated is value × months / (12 × life) |
| MonthDepreciation.DepreciacionCompleta | src/app/core/services/xml-auditoria.service.ts:243-245 | from 12 × life months on, accumulated is the whole value, current value 0 and the percent 100 |
| MonthDepreciation.DepreciacionSinRecorte | src/app/core/services/xml-auditoria.service.ts:243-244 | negative months are not clamped: accumulated goes negative and current value exceeds the value |
| XmlAuditoria.MesesEntreFechas | src/app/core/services/xml-auditoria.service.ts:259-263 | the month count is the difference of the two dates' absolute month numbers (year × 12 + month), so the day of the month plays no part |
| XmlAuditoria.MesesAditivos | src/app/core/services/xml-auditoria.service.ts:259-263 | month counts add up along three dates and a date is 0 months from itself |
| XmlAuditoria.MesesNoNegativos | src/app/core/services/xml-auditoria.service.ts:259-263 | a later date never gives a negative month count (the CSV service's month count, csv-report.service.ts:273-277, is the same function) |
| XmlAuditoria.MesCompletoEnUnDia | src/app/core/services/xml-auditoria.service.ts:259-263 | the day of month is ignored: January 31 to February 1 is one month, January 1 to January 31 none |
| XmlAuditoria.CalcularDepreciacion | src/app/core/services/xml-auditoria.service.ts:233-254 | the straight-line-by-months rule applied to the asset's value, its useful life and the calendar months from its date to today; monthly × 12 × life is the value; for a date not after today and a non-negative value, accumulated lies within the value and current value completes it |
| XmlAuditoria.GenerarAlertas | src/app/core/services/xml-auditoria.service.ts:268-294 | a depreciation alert first exactly when the percent exceeds 50 (Alta exactly above 80), then a Valor/Media alert exactly when price exceeds 1000 and the status is 'Disponible'; both carry the asset id |
| XmlAuditoria.DeterminarEstadoFisico | src/app/core/services/xml-auditoria.service.ts:325-329 | Regular exactly above 80, Bueno exactly above 50 up to 80, Excelente otherwise |
| XmlAuditoria.EstadoFisicoYAlerta | src/app/core/services/xml-auditoria.service.ts:274-277 | the state is Regular exactly when a high-priority depreciation alert is raised and Excelente exactly when none is |
| XmlAuditoria.EstadoFisicoAlFinDeVida | src/app/core/services/xml-auditoria.service.ts:325-329 | past its useful life a positive-value asset is in Regular state |
| XmlAuditoria.CalcularResumenGeneral | src/app/core/services/xml-auditoria.service.ts:299-320 | count, summed value, 'Asignado' and 'Disponible' counts, and the running sum of accumulated depreciation |
| XmlAuditoria.AsignadosSiempreCero | src/app/core/services/xml-auditoria.service.ts:302 | with union statuses no asset is counted as assigned |
| XmlAuditoria.DepreciacionEstimadaAcotada | src/app/core/services/xml-auditoria.service.ts:306-311 | the estimated depreciation lies between 0 and the inventory value |
| XmlAuditoria.FechaMasAntigua | src/app/core/services/xml-auditoria.service.ts:353-355 | a date of some asset that no asset date precedes |
| XmlAuditoria.PeriodoInicio | src/app/core/services/xml-auditoria.service.ts:348-357 | January 1 of the current year for an empty list, otherwise the earliest asset date |
| XmlAuditoria.PeriodoInicioEsMinimo | src/app/core/services/xml-auditoria.service.ts:348-357 | the period start is some asset's date text and no asset's date text sorts before it |
| XmlAuditoria.CodigoPatrimonial | src/app/core/services/xml-auditoria.service.ts:62 | `PAT-`, the four year digits, a dash and the 1-based position padded to three digits |
| XmlAuditoria.PosicionLegible | src/app/core/services/xml-auditoria.service.ts:62 | the padded position reads back as the position |
| XmlAuditoria.CodigoPatrimonialInyectivo | src/app/core/services/xml-auditoria.service.ts:62 | assets at different positions never share a code |
| XmlAuditoria.CodigoPatrimonialEjemplo | src/app/core/services/xml-auditoria.service.ts:62 | the first asset bought in 2024 gets `PAT-2024-001` |
| XmlAuditoriaJs.MesesTreintaDias | js/xmlAuditoria.js:207 | the floor of the elapsed days over 30 |
| XmlAuditoriaJs.MesesTreintaDiasPaso | js/xmlAuditoria.js:207 | every 30 days add one month, and the count never decreases |
| XmlAuditoriaJs.MesesTreintaDiasEjemplos | js/xmlAuditoria.js:207 | a 365-day year counts as 12 months; 29 days count as none |
| XmlAuditoriaJs.CalcularDepreciacion | js/xmlAuditoria.js:204-222 | the straight-line-by-months rule applied to the asset's value, its useful life and the whole 30-day periods elapsed; monthly × 12 × life is the value; for non-negative days and value, accumulated lies within the value and current value completes it |
| XmlAuditoriaJs.CalcularDepreciacionMonotone | js/xmlAuditoria.js:207-211 | accumulated depreciation never decreases with the elapsed days |
| XmlAuditoriaJs.GenerarAlertas | js/xmlAuditoria.js:224-238 | at most one alert, a depreciation alert exactly when the percent exceeds 50, Alta exactly above 80; no value alert and no asset id |
| XmlAuditoriaJs.Resumen | js/xmlAuditoria.js:28-32 | count, summed value, 'Asignado' and 'Disponible' counts, and an estimate of a flat tenth of the value |
| XmlAuditoriaJs.ResumenSinAsignados | js/xmlAuditoria.js:28-32 | with union statuses no asset is counted as 'Asignado' |
| XmlAuditoriaJs.ResumenCuentasCaben | js/xmlAuditoria.js:28-32 | the assigned and available counts together never exceed the number of assets |
| XmlAuditoriaJs.ResumenDepreciacionAcotada | js/xmlAuditoria.js:28-32 | with no negative asset value, the estimated depreciation lies between 0 and the inventory value |
| XmlAuditoriaJs.ResumenVacio | js/xmlAuditoria.js:28-32 | an empty list gives all zeros |
| XmlAuditoriaJs.CertificadoActivo | js/xmlAuditoria.js:99-103 | nothing when `parseInt` of the id text gives NaN (decimal digits, or hexadecimal digits after a `0x` prefix); otherwise the first asset with the parsed id, if any |
| XmlAuditoriaJs.CertificadoPorTexto | js/xmlAuditoria.js:99-103 | looking up by a number's decimal text is looking up by the number; null exactly when no asset has it |
| XmlAuditoriaJs.CertificadoHexadecimal | js/xmlAuditoria.js:99-103 | an id text `0x` followed by hexadecimal digits looks up the asset with that base-16 number |
| XmlAuditoriaJs.HexadecimalEjemplo | js/xmlAuditoria.js:99-103 | the digits of `"0x10"` denote 16, so that text finds the asset with id 16 |
| AuthService.FindUser | src/app/core/services/auth.service.ts:76 | `users.find`: none exactly when no user qualifies, otherwise the first stored user that qualifies |
| AuthService.LoginOutcome | src/app/core/services/auth.service.ts:70-85 | blank fields are refused with their message; success exactly when not blank and some account matches name and password as typed |
| AuthService.RegisterOutcome | src/app/core/services/auth.service.ts:90-117 | short name, then short password, then taken name, each with its message; success exactly when both lengths are enough and the name is free |
| AuthService.RegisterThenLogin | src/app/core/services/auth.service.ts:70-117 | an account just registered with non-blank fields can log in |
| AuthService.BlankPasswordRegistersButCannotLogIn | src/app/core/services/auth.service.ts:71-95 | a six-space password is accepted at registration and can never log in |
| AuthService.AuthState.constructor | src/app/core/services/auth.service.ts:18-50 | the admin/admin account is seeded only when no account is stored; a non-empty session name becomes the signed-in user |
| AuthService.AuthState.Login | src/app/core/services/auth.service.ts:70-85 | the answer is the login outcome; on success the session and signed-in user become the name; otherwise nothing changes |
| AuthService.AuthState.Register | src/app/core/services/auth.service.ts:90-117 | the answer is the registration outcome; success appends exactly one account; refusal leaves the list unchanged; unique names preserved |
| AuthService.AuthState.Logout | src/app/core/services/auth.service.ts:122-132 | session and signed-in user are cleared, so the user is no longer authenticated |
| AuthService.AdminCanLogIn | src/app/core/services/auth.service.ts:26-40 | the seeded administrator can log in |
| ActivosComponent.FormOf | src/app/features/activos/pages/activos.component.ts:117 | the edit form holds every field, so merging it into any record gives the asset |
| ActivosComponent.EmptyForm | src/app/features/activos/pages/activos.component.ts:166-177 | no id, an empty name, responsible and location, type 'Equipos de cómputo y software', price 0, quantity 1, status 'Disponible', dated today; so the empty form is never valid |
| ActivosComponent.IsFormValid | src/app/features/activos/pages/activos.component.ts:153-164 | a valid form has every field present; a price of 0, a quantity of 0 or an empty name, responsible or location makes it invalid |
| ActivosComponent.EditFormValid | src/app/features/activos/pages/activos.component.ts:153-164 | an asset's form is valid exactly when its text fields are non-empty and price and quantity are non-zero |
| ActivosComponent.DraftFromForm | src/app/features/activos/pages/activos.component.ts:139 | a valid form read as a draft: merging the form into any record built from it gives back that record, with the form's id if it has one |
| ActivosComponent.ListIsSearch | src/app/features/activos/pages/activos.component.ts:82-89 | without a type the page lists what the store's search returns for the same term |
| ActivosComponent.GetDepreciationRate | src/app/features/activos/pages/activos.component.ts:50-189 | the page's percent table value, or 10 for an unknown type; that is 100 × the model's rate for the type, fallback included |
| ActivosComponent.ActivosPage.constructor | src/app/features/activos/pages/activos.component.ts:16-29 | empty lists, closed add dialog, no search or type, the empty form |
| ActivosComponent.ActivosPage.ApplyFilters | src/app/features/activos/pages/activos.component.ts:78-97 | the shown list is the records meeting the search term and the type, each only when set, in order; with neither set it is every record |
| ActivosComponent.ActivosPage.LoadAssets | src/app/features/activos/pages/activos.component.ts:73-76 | takes the store's list and re-filters it |
| ActivosComponent.ActivosPage.OnSearchChange | src/app/features/activos/pages/activos.component.ts:99-101 | a new term re-filters the list; the records, the type and the dialog fields are unchanged |
| ActivosComponent.ActivosPage.OnTypeFilterChange | src/app/features/activos/pages/activos.component.ts:103-105 | a new type re-filters the list; the records, the term and the dialog fields are unchanged |
| ActivosComponent.ActivosPage.OpenAddModal | src/app/features/activos/pages/activos.component.ts:107-112 | no record is edited, the add title and the empty form are set, the dialog opens |
| ActivosComponent.ActivosPage.OpenEditModal | src/app/features/activos/pages/activos.component.ts:114-119 | the asset is edited, the edit title is set, the form copies it, the dialog opens |
| ActivosComponent.ActivosPage.CloseModal | src/app/features/activos/pages/activos.component.ts:121-125 | the dialog closes, no record is edited, the form is empty |
| ActivosComponent.ActivosPage.OnSubmit | src/app/features/activos/pages/activos.component.ts:127-144 | an invalid form changes nothing; otherwise the edited record is merged with the form (or the form is added with a fresh id), the dialog closes and the list is reloaded; the title, search and type are kept |
| ActivosComponent.ActivosPage.DeleteAsset | src/app/features/activos/pages/activos.component.ts:146-151 | without confirmation nothing changes; with it the store drops the id and the reloaded list no longer shows it; the search, type and dialog fields are never touched |
| Currency.FormatCurrency | src/app/features/activos/pages/activos.component.ts:203-205 | the text starts with `$` |
| Currency.CommafyStrip | src/app/features/activos/pages/activos.component.ts:204 | removing the inserted commas gives back the two-decimal text |
| Currency.CommaInInteger | src/app/features/activos/pages/activos.component.ts:204 | a comma goes exactly before integer digits other than the first whose remaining run is a multiple of three |
| Currency.NoCommaInFraction | src/app/features/activos/pages/activos.component.ts:204 | no comma is inserted at or after the decimal point |
| Currency.FormatFixed | src/app/features/activos/pages/activos.component.ts:203-205 | the result is `$`, the sign, the integer digits grouped in threes from the right, the point and the fraction |
| Currency.Group3Strip | src/app/features/activos/pages/activos.component.ts:204 | removing the separators from the grouped digits gives back the digits |
| Currency.Group3Groups | src/app/features/activos/pages/activos.component.ts:204 | every group between separators has one to three digits, and all groups after the first exactly three |
| Currency.FormatCents | src/app/features/activos/pages/activos.component.ts:203-205 | a whole number of cents is shown as `$`, the sign, the grouped units, the point and two cent digits |
| Currency.FormatExample | src/app/features/activos/pages/activos.component.ts:203-205 | -1234.50 is shown as `$-1,234.50` |
| UsuariosComponent.DateOrDefault | src/app/features/usuarios/pages/usuarios.component.ts:38 | a present non-empty date is kept, otherwise 'No disponible'; never empty |
| UsuariosComponent.RowsOf | src/app/features/usuarios/pages/usuarios.component.ts:35-46 | one row per stored account, in order, from the array or the object form, with the date defaulted |
| UsuariosComponent.ExportCells | src/app/features/usuarios/pages/usuarios.component.ts:60-63 | one two-cell row per listed account: name and date |
| UsuariosComponent.ExportReadsBack | src/app/features/usuarios/pages/usuarios.component.ts:59-68 | with plain cells the export has the header and one line per account, each splitting into name and date |
| UsuariosComponent.ExportShiftsColumns | src/app/features/usuarios/pages/usuarios.component.ts:60-67 | cells are not quoted, so a date holding a comma splits its line into three fields |
| UsuariosComponent.UsuariosPage.constructor | src/app/features/usuarios/pages/usuarios.component.ts:20-22 | empty lists and an empty search |
| UsuariosComponent.UsuariosPage.LoadUsers | src/app/features/usuarios/pages/usuarios.component.ts:30-49 | with nothing stored both lists stay; otherwise both become the normalised accounts |
| UsuariosComponent.UsuariosPage.OnSearchChange | src/app/features/usuarios/pages/usuarios.component.ts:51-56 | the listed accounts are those whose lower-cased name contains the lower-cased term, in order; the empty term lists all; the accounts are unchanged |
| UsuariosComponent.UsuariosPage.ExportFile | src/app/features/usuarios/pages/usuarios.component.ts:70 | a byte-order mark followed by the CSV text of the listed accounts |

## Left out

- Browser storage, JSON parsing, file downloads, `alert`/`confirm` and the observable change notifications are not modelled. Stored data and the user's confirmation are parameters, and the assets page reloads its list after each change.
- Clock reads are not modelled. The floor-of-years and 30-day rules take a whole number of elapsed days. The calendar-month rule takes today's date. Registration dates and the add form's date are parameters.
- Time zones are not modelled. A date is read as written. The shift that `new Date('YYYY-MM-DD')` with local getters causes west of UTC is left out, and so is sub-day elapsed time.
- `toFixed` rounding, `toLocaleDateString` and floating-point error are not modelled; money is exact `real`.
- Currency.FormatCurrency: takes the already-formatted two-decimal text. `Fixed2` produces that text only for whole cents.
- Full XML, PDF and certificate document text is not modelled, because it is template text around the modelled figures, written by a library that is not part of this model. Also left out: the signature block, audit numbers and `Date.now()` certificate numbers.
- Text is a sequence of code points, not UTF-16 units. Lower-casing covers ASCII and Latin-1 letters only.
- AssetService.AssetStore.UpdateAsset: a patch key that is explicitly `undefined` erases the field in JavaScript. The model treats it as absent.
- Non-numeric ids (`NaN` from `Math.max`) are left out, because ids are integers here.
- ActivosComponent.IsFormValid: the form's date is a structured date, so the empty-date case is only the missing date.
- AuthService.AuthState.IsAuthenticated and `getCurrentUser` are the signed-in user field and its presence. They are read directly, with no method of their own.
- The dashboard, login/register components, routing, guards, `js/main.js` handlers and the constant and configuration files are not part of this model.
