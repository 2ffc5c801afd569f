# Simulador.Api — a verified model of the loan simulator core

Simulador.Api is an HTTP service that simulates loans. Given a desired amount
and a term in months it:

1. picks the catalog product whose term and amount bounds admit the request;
2. builds two repayment schedules at that product's monthly rate: SAC
   (constant amortisation) and PRICE (level payment);
3. wraps both schedules in an envelope identified by the local time to the second;
4. stores the envelope in a local SQLite file;
5. publishes it to an Event Hub.

Every request, and every timed inner operation (a "span"), is aggregated into a
per-route telemetry table. The table is reported back with means, extremes and
success ratios. The stored simulations can be listed page by page and
summarised per product and day.

The project models that core in Dafny and proves its properties:

- `tabelas.dfy`: the PRICE and SAC loops, as methods proved equal to
  specification functions over unrounded rows.
- `tabelas_lemmas.dfy`: what those schedules guarantee.
- `rounding.dfy`: round-half-to-even to 2, 4 and 6 places.
- `produtos.dfy`: the product selection rule, and the repository that queries
  it inside a span.
- `telemetria.dfy`: the telemetry upsert, the invariant it keeps, and the
  report rows with their collation order.
- `storage.dfy`: the store as a class. It holds the telemetry table as a `map`
  and the simulations as a `seq` in rowid order, with the listing, report and
  volume operations as loops.
- `instrumentacao.dfy`: the request middleware (correlation id, status,
  one record per request, logging) and `SpanScope`.
- `simulador.dfy`: the simulation id, the envelope, the publisher and the
  endpoint procedure.
- `models.dfy` and `common.dfy`: the DTO shapes, and the Option/Result/Fault types.

Models of C# and SQLite behaviour:

- **Numbers.** `decimal` is an exact `real`. `Math.Pow` in the PRICE factor is
  a parameter `pow`.
- **Exceptions.** They are `Result` failures: decimal division by zero, a list
  created with a negative capacity, an unavailable store, a duplicate primary
  key, an unreachable product database, a publishing failure, and an exception
  from a later pipeline stage.
- **Logger and HTTP context.** The logger is an event trace. The parts of the
  HTTP context the core touches are a class.
- **Outside inputs.** The next pipeline stage, the stopwatch readings, the
  clock and `Guid.NewGuid` are parameters.

## Model

| member | source | states |
|---|---|---|
| Rounding.NearestEven | Simulacao/Calculo/Tabelas.cs:10 | the result is within 1/2 of q and, on an exact half, even |
| Rounding.NearestEvenUnique | Simulacao/Calculo/Tabelas.cs:10 | those two properties determine the rounded integer |
| Rounding.NearestEvenMonotone | Simulacao/Calculo/Tabelas.cs:10 | rounding preserves order |
| Rounding.Round2 | Simulacao/Calculo/Tabelas.cs:10 | R2: a whole number of cents within half a cent of x, ties to the even cent |
| Rounding.Round2Unique | Simulacao/Calculo/Tabelas.cs:10 | any value with Round2's three properties is Round2(x) |
| Rounding.Round2Fixes | Simulacao/Calculo/Tabelas.cs:10 | a value already in cents is unchanged (R2 is idempotent) |
| Rounding.Round2Monotone | Simulacao/Calculo/Tabelas.cs:10 | R2 preserves order |
| Rounding.Round2SumWithinCent | Simulacao/Calculo/Tabelas.cs:55-61 | the rounded payment differs from the sum of the rounded parts by at most one cent |
| Rounding.Round2TiesToEven | Simulacao/Calculo/Tabelas.cs:9-10 | 2.345 → 2.34, 2.355 → 2.36, -2.345 → -2.34, 0.125 → 0.12 (not away from zero) |
| Rounding.Round4 | Simulacao/Data/StorageService.cs:330 | four fractional digits, within 0.00005, ties to even |
| Rounding.Round4UnitInterval | Simulacao/Data/StorageService.cs:322-330 | a ratio in [0, 1] stays in [0, 1] after rounding |
| Rounding.Round6 | Simulacao/Endpoints/SimuladorEndpoints.cs:93 | six fractional digits, within 0.0000005, ties to even |
| Rounding.Round6Fixes | Simulacao/Endpoints/SimuladorEndpoints.cs:93 | a rate already with six digits is unchanged |
| Tabelas.TabelaPrice | Simulacao/Calculo/Tabelas.cs:16-65 | the loop returns exactly Price(v, n, t, pow): the level-payment fault, then the list-capacity fault, else the emitted rows of the PRICE schedule |
| Tabelas.TabelaSac | Simulacao/Calculo/Tabelas.cs:71-102 | the loop returns exactly Sac(v, n, t): DivideByZero for n = 0, ArgumentOutOfRange for n < 0, else the emitted rows of the SAC schedule |
| Tabelas.EmitirTodas | Simulacao/Calculo/Tabelas.cs:55-61 | one emitted installment per row |
| Tabelas.EmitirTodasIndex | Simulacao/Calculo/Tabelas.cs:55-61 | installment k is row k with only its amortisation, interest and payment rounded by R2; the balance is never rounded |
| TabelasLemmas.CronogramaIndex | Simulacao/Calculo/Tabelas.cs:37-62 | in a schedule, row k is numbered i + k, charges balance × rate as interest, pays amortisation + interest, starts from the previous balance minus its amortisation, and the last row amortises its whole balance |
| TabelasLemmas.CronogramaQuita | Simulacao/Calculo/Tabelas.cs:43-53 | the unrounded amortisations sum to the principal, so the final full-precision balance is 0 |
| TabelasLemmas.PriceCronograma | Simulacao/Calculo/Tabelas.cs:37-62 | PRICE rows i..n have n - i + 1 rows and form a schedule |
| TabelasLemmas.PriceNivelada | Simulacao/Calculo/Tabelas.cs:42-51 | every PRICE row but the last pays exactly the level payment |
| TabelasLemmas.PriceUltima | Simulacao/Calculo/Tabelas.cs:43-47 | the last PRICE row pays its balance plus its interest |
| TabelasLemmas.PassoFechado | Simulacao/Calculo/Tabelas.cs:39-53 | one level-payment period multiplies saldo·t − p by 1 + t |
| TabelasLemmas.SaldoNiveladoFechado | Simulacao/Calculo/Tabelas.cs:29-53 | closed form: after k level periods saldo·t − p = (v·t − p)(1 + t)^k |
| TabelasLemmas.PassoNivelado | Simulacao/Calculo/Tabelas.cs:39-53 | a period paying p from the balance after k − 1 leaves the balance after k |
| TabelasLemmas.EncadeadaNivelada | Simulacao/Calculo/Tabelas.cs:37-62 | along a chain of level periods the balance before period k is the k-step balance |
| TabelasLemmas.CronogramaEncadeada | Simulacao/Calculo/Tabelas.cs:37-62 | a schedule whose rows but the last pay p is such a chain |
| TabelasLemmas.PriceSaldo | Simulacao/Calculo/Tabelas.cs:34-53 | the balance before PRICE row k is the k-step level-payment balance |
| TabelasLemmas.PrestacaoComJuros | Simulacao/Calculo/Tabelas.cs:27-31 | at a nonzero rate the level payment is v·t / (1 − pow) |
| TabelasLemmas.QuitaFechado | Simulacao/Calculo/Tabelas.cs:29-31 | with pow the exact (1 + t)^−n, the closed form leaves no balance |
| TabelasLemmas.PrestacaoQuita | Simulacao/Calculo/Tabelas.cs:29-31 | the formula's payment leaves exactly 0 after n level periods when Math.Pow is exact |
| TabelasLemmas.PriceUltimaNivelada | Simulacao/Calculo/Tabelas.cs:42-51 | when n level periods leave 0, the last-row override pays the level payment too |
| TabelasLemmas.PriceExata | Simulacao/Calculo/Tabelas.cs:22-62 | with an exact Math.Pow and a nonzero rate, all n PRICE rows pay v·t / (1 − pow) |
| TabelasLemmas.SacCronograma | Simulacao/Calculo/Tabelas.cs:81-99 | SAC rows i..n have n − i + 1 rows and form a schedule |
| TabelasLemmas.SacConstante | Simulacao/Calculo/Tabelas.cs:84-87 | every SAC row but the last amortises exactly v / n |
| TabelasLemmas.PassoConstante | Simulacao/Calculo/Tabelas.cs:84-90 | one more constant amortisation: balance v − (k − 1)c − c = v − k·c |
| TabelasLemmas.SacSaldo | Simulacao/Calculo/Tabelas.cs:78-90 | the balance before SAC row k is v − k·(v / n) |
| TabelasLemmas.SacAmortizacaoExata | Simulacao/Calculo/Tabelas.cs:77-90 | at full precision the last SAC row also amortises v / n |
| TabelasLemmas.PriceSacSemJuros | Simulacao/Calculo/Tabelas.cs:23-26 | at a zero rate a PRICE and a SAC schedule with the same per-period amount coincide |
| TabelasLemmas.PriceSemJurosIgualSac | Simulacao/Calculo/Tabelas.cs:23-26 | at a zero rate the PRICE table is the SAC table, whatever Math.Pow returns |
| TabelasLemmas.SacSemJurosParcelas | Simulacao/Calculo/Tabelas.cs:83-98 | at a zero rate every SAC installment is (k + 1, R2(c), 0, R2(c)) |
| TabelasLemmas.SacSemJuros | Simulacao/Calculo/Tabelas.cs:71-102 | at a zero rate the SAC table is n installments of R2(v / n) with no interest |
| TabelasLemmas.SacExemploSemJuros | Simulacao/Calculo/Tabelas.cs:71-102 | 1000 over 10 months at no interest is ten installments of 100.00 |
| TabelasLemmas.PriceResultado | Simulacao/Calculo/Tabelas.cs:22-35 | PRICE succeeds exactly when n ≥ 1 and, at a nonzero rate, pow ≠ 1; a zero term or zero factor divides by zero, a negative term fails the list capacity |
| TabelasLemmas.SacResultado | Simulacao/Calculo/Tabelas.cs:77-79 | SAC succeeds exactly when n ≥ 1; n = 0 divides by zero, n < 0 fails the list capacity |
| TabelasLemmas.SomaArredondada | Simulacao/Calculo/Tabelas.cs:58 | rounding moves the sum of the amortisations by at most half a cent per row |
| TabelasLemmas.CronogramaEmitido | Simulacao/Calculo/Tabelas.cs:55-61 | the emitted form of a schedule has n rows numbered 1..n, all amounts in cents, each payment within a cent of its parts, amortisations repaying v to within n/2 cents |
| TabelasLemmas.PriceTabela | Simulacao/Calculo/Tabelas.cs:16-65 | a PRICE table is such an emitted table, each row but the last paying R2 of the level payment |
| TabelasLemmas.SacTabela | Simulacao/Calculo/Tabelas.cs:71-102 | a SAC table is such an emitted table, every row amortising R2(v / n) |
| Produtos.EmpateMesmaChave | Simulacao/Data/ProdutoRepository.cs:50-52 | two rows neither of which sorts first share both sort keys |
| Produtos.Selecionar | Simulacao/Data/ProdutoRepository.cs:39-53 | None exactly when no catalog row admits the amount and term; otherwise a row that admits them and that no admitting row sorts before (NU_MINIMO_MESES DESC, VR_MINIMO DESC) |
| Produtos.MelhorUnico | Simulacao/Data/ProdutoRepository.cs:40-52 | every row TOP 1 may return has the same minimum term and minimum amount |
| Produtos.SelecionarPermutacao | Simulacao/Data/ProdutoRepository.cs:40-52 | the selection does not depend on the catalog order, up to full ties |
| Produtos.SelecionarExemplo | Simulacao/Data/ProdutoRepository.cs:45-52 | a NULL maximum bounds nothing, the most specific admitting product wins, and nothing is found when no product admits |
| Produtos.ProdutoRepository.ObterProduto | Simulacao/Data/ProdutoRepository.cs:37-68 | the selected product, or DatabaseUnavailable; either way one span log and one 200 record under "db_obter_produto" |
| Telemetria.Inserir | Simulacao/Data/StorageService.cs:280-292 | the first observation inserts (1, d, d, d, ok, ko) |
| Telemetria.Atualizar | Simulacao/Data/StorageService.cs:256-277 | the UPDATE: one more call, d more total, min/max extended by d (d when NULL), one more success if 2xx else one more failure |
| Telemetria.Registrar | Simulacao/Data/StorageService.cs:254-295 | UPDATE when the row exists, otherwise INSERT; the key set gains the service and every other row is unchanged |
| Telemetria.InserirCoerente | Simulacao/Data/StorageService.cs:284-286 | an inserted row is coherent |
| Telemetria.AtualizarCoerente | Simulacao/Data/StorageService.cs:264-272 | the UPDATE keeps a row coherent: calls = successes + failures, min ≤ max, calls·min ≤ total ≤ calls·max |
| Telemetria.RegistrarCoerente | Simulacao/Data/StorageService.cs:254-295 | recording keeps every row of the table coherent |
| Telemetria.MediaEntreLimites | Simulacao/Data/StorageService.cs:267-269 | adding d keeps the total between calls·min and calls·max |
| Telemetria.ResumeInserir | Simulacao/Data/StorageService.cs:284-286 | an inserted row aggregates its single observation: one call, its duration as total, minimum and maximum, and its 2xx/non-2xx count |
| Telemetria.ResumeAtualizar | Simulacao/Data/StorageService.cs:264-272 | an updated row aggregates its observations plus the new one, the CASE expressions keeping the least and greatest duration |
| Telemetria.MinDuracao | Simulacao/Data/StorageService.cs:267 | the least duration bounds every observation from below and is one of them |
| Telemetria.MaxDuracao | Simulacao/Data/StorageService.cs:268 | the greatest duration bounds every observation from above and is one of them |
| Telemetria.ResumeExtremos | Simulacao/Data/StorageService.cs:264-286 | an aggregated row has min_ms and max_ms set, every observed duration lies between them, and both were observed |
| Telemetria.AcumularConta | Simulacao/Data/StorageService.cs:254-295 | from an empty table, a service has a row exactly when it was observed, and its row aggregates exactly its observations (Resume): call count, total, 2xx/non-2xx counts, min_ms the least and max_ms the greatest observed duration |
| Telemetria.AcumularCoerente | Simulacao/Data/StorageService.cs:254-295 | any sequence of recordings from an empty table leaves every row coherent |
| Telemetria.DoServico | Simulacao/Data/StorageService.cs:272 | an observation is kept exactly when it is in the list and names that service |
| Telemetria.Sucessos | Simulacao/Data/StorageService.cs:256 | the 2xx count is at most the number of observations |
| Telemetria.LinhaRelatorio | Simulacao/Data/StorageService.cs:314-331 | a report row: mean total/calls and ratio successes/calls when calls > 0, both 0 otherwise; NULL min/max read as 0; times with 2 digits, ratio with 4 |
| Telemetria.MediaLimitada | Simulacao/Data/StorageService.cs:321 | the mean lies between min and max |
| Telemetria.RazaoUnitaria | Simulacao/Data/StorageService.cs:322 | the success ratio lies in [0, 1] |
| Telemetria.LinhaRelatorioLimites | Simulacao/Data/StorageService.cs:321-330 | for a coherent row the reported mean lies between the reported min and max, and the reported ratio lies in [0, 1] |
| Telemetria.AntesIrreflexivo | Simulacao/Data/StorageService.cs:306 | no name sorts before itself |
| Telemetria.AntesTransitivo | Simulacao/Data/StorageService.cs:306 | the collation order is transitive |
| Telemetria.AntesTotal | Simulacao/Data/StorageService.cs:306 | two different names are ordered one way or the other |
| Telemetria.AntesAssimetrico | Simulacao/Data/StorageService.cs:306 | the collation order is asymmetric |
| Telemetria.ExistePrimeiro | Simulacao/Data/StorageService.cs:306 | every non-empty set of names has a first one |
| Telemetria.PrimeiroUnico | Simulacao/Data/StorageService.cs:306 | that first name is unique |
| Telemetria.Ordenar | Simulacao/Data/StorageService.cs:303-307 | ORDER BY servico: each name exactly once, strictly increasing |
| Telemetria.PrimeiroAntes | Simulacao/Data/StorageService.cs:306 | the first name followed by the others in order is the whole set in order |
| Armazenamento.InserirPorId | Simulacao/Data/StorageService.cs:102-117 | the stored rows gain exactly the new row, in id position |
| Armazenamento.InserirPorIdCrescente | Simulacao/Data/StorageService.cs:40 | inserting an id not yet stored keeps ids unique and increasing |
| Armazenamento.Int32 | Simulacao/Data/StorageService.cs:138 | unchecked 32-bit product: congruent modulo 2^32, in the int range, exact when it fits |
| Armazenamento.AoMenosUm | Simulacao/Data/StorageService.cs:125-126 | page and size below 1 become 1 |
| Armazenamento.Pulo | Simulacao/Data/StorageService.cs:138-148 | the OFFSET applied is never negative |
| Armazenamento.Janela | Simulacao/Data/StorageService.cs:145 | LIMIT take returns at most take rows |
| Armazenamento.Decrescente | Simulacao/Data/StorageService.cs:144 | ORDER BY id DESC over the rowid-ordered rows is the reversal |
| Armazenamento.Resumos | Simulacao/Data/StorageService.cs:153-172 | one summary per row read |
| Armazenamento.ResumosIndex | Simulacao/Data/StorageService.cs:155-171 | summary k is row k's id, amount rounded to cents, term, and installment total rounded to cents |
| Armazenamento.DecrescenteIds | Simulacao/Data/StorageService.cs:144 | the listing order has strictly decreasing ids |
| Armazenamento.JanelaIndice | Simulacao/Data/StorageService.cs:145 | element i of a page is element skip + i of the order |
| Armazenamento.PaginaOrdenada | Simulacao/Data/StorageService.cs:123-180 | a page holds at most the clamped size of stored rows, by strictly decreasing id |
| Armazenamento.PaginaContem | Simulacao/Data/StorageService.cs:125-148 | while the offset fits in 32 bits, row j of the listing is entry j mod size of page j div size + 1 |
| Armazenamento.PaginaEstouro | Simulacao/Data/StorageService.cs:138 | the 32-bit offset wraps: page 65537 of size 65536 is page 1 |
| Armazenamento.DoDia | Simulacao/Data/StorageService.cs:193-196 | the rows kept are exactly those created on the date |
| Armazenamento.Codigos | Simulacao/Data/StorageService.cs:201-224 | the bucket keys: each code of the rows once, in order of first appearance |
| Armazenamento.Grupo | Simulacao/Data/StorageService.cs:217-220 | a code's bucket is non-empty exactly when some row has that code |
| Armazenamento.GrupoOrigem | Simulacao/Data/StorageService.cs:217-220 | every entry of a code's bucket is the entry of a row with that code |
| Armazenamento.ItensVolume | Simulacao/Data/StorageService.cs:223-243 | one item per code |
| Armazenamento.ItensVolumeIndex | Simulacao/Data/StorageService.cs:226-242 | item i is code i's bucket summarised: first description, mean rate (6 places), mean total (2), both sums (2) |
| Armazenamento.Volume | Simulacao/Data/StorageService.cs:185-249 | the day's report echoes the date and has one item per distinct code |
| Armazenamento.CodigosDoDia | Simulacao/Data/StorageService.cs:193-220 | a code is reported exactly when some row of that day has it |
| Armazenamento.VolumeProdutos | Simulacao/Data/StorageService.cs:223-247 | item i of the report is for the i-th distinct code of the day |
| Armazenamento.TamanhoOutro | Simulacao/Data/StorageService.cs:217-220 | a row of another code leaves a bucket alone |
| Armazenamento.TamanhoMesmo | Simulacao/Data/StorageService.cs:217-220 | a row of a known code adds one entry to the buckets |
| Armazenamento.TamanhoNovo | Simulacao/Data/StorageService.cs:217-218 | a row of a new code creates its one-entry bucket |
| Armazenamento.GruposParticionam | Simulacao/Data/StorageService.cs:203-221 | the buckets partition the day's rows: every row lands in exactly one |
| Armazenamento.CodigosComGrupo | Simulacao/Data/StorageService.cs:217-228 | every dictionary key has a non-empty list, so arr[0] exists |
| Armazenamento.BucketPasso | Simulacao/Data/StorageService.cs:217-220 | reading one row appends its entry to its code's list, creating it (and the key) on first sight |
| Armazenamento.StorageService.RecordTelemetry | Simulacao/Data/StorageService.cs:254-295 | StorageUnavailable with nothing changed, or the table becomes Registrar of the old one; the invariant is kept |
| Armazenamento.StorageService.SaveSimulacao | Simulacao/Data/StorageService.cs:93-118 | StorageUnavailable; UniqueConstraint when the id is stored; else the row is inserted in id position with created_at the UTC date |
| Armazenamento.StorageService.GetSimulacoesPaginadas | Simulacao/Data/StorageService.cs:123-180 | clamped page and size, the total count, and the summaries of exactly the page's rows |
| Armazenamento.StorageService.GetTelemetryReport | Simulacao/Data/StorageService.cs:297-338 | the date echoed and one report row per service, in collation order |
| Armazenamento.StorageService.GetVolumePorProdutoDia | Simulacao/Data/StorageService.cs:185-249 | the reading and bucket loops produce exactly Volume(rows, date) |
| Armazenamento.Agrupar | Simulacao/Data/StorageService.cs:200-221 | after the reading loop the dictionary holds each code's entries in order, keyed in order of first appearance |
| Armazenamento.Itens | Simulacao/Data/StorageService.cs:223-243 | the foreach over the dictionary yields ItensVolume of the codes in order |
| Armazenamento.ItensPasso | Simulacao/Data/StorageService.cs:223-242 | the k-th key has a non-empty list, and one turn of the foreach appends exactly that key's item |
| Instrumentacao.ComoTexto | Simulacao/Temeletry/RequestTelemetryMiddleware.cs:35-36 | a header with no value is null, a single value is itself |
| Instrumentacao.Correlacao | Simulacao/Temeletry/RequestTelemetryMiddleware.cs:34-37 | the header's text when present and not null or whitespace, otherwise the fresh id |
| Instrumentacao.CorrelacaoNaoBranca | Simulacao/Temeletry/RequestTelemetryMiddleware.cs:34-37 | the id chosen is never blank when the fresh one is not |
| Instrumentacao.NomeDaRota | Simulacao/Temeletry/RequestTelemetryMiddleware.cs:93-106 | the non-blank route pattern text of a route endpoint, else the display name, else the path |
| Instrumentacao.NomeDaRotaSemEndpoint | Simulacao/Temeletry/RequestTelemetryMiddleware.cs:105 | without an endpoint telemetry is keyed by the path |
| Instrumentacao.Invoke | Simulacao/Temeletry/RequestTelemetryMiddleware.cs:29-91 | the id is in Items and in the response header; one record of (route, R2(duration), status) when the store is available; otherwise a warning and nothing else; an error log and a PipelineFault when the stage throws; always the request log last |
| Instrumentacao.UmRegistroPorRequisicao | Simulacao/Temeletry/RequestTelemetryMiddleware.cs:67-71 | one request adds exactly one call to its route, a success iff the status is 2xx, and leaves every other route alone |
| Instrumentacao.StatusDeFalha | Simulacao/Temeletry/RequestTelemetryMiddleware.cs:46-57 | a thrown stage or a missing response counts as a failure; a completed one counts by its code |
| Instrumentacao.CorrelacaoDoContexto | Simulacao/Temeletry/SpanScope.cs:37 | null without a context or without the item, else the item |
| Instrumentacao.SpanScope.Dispose | Simulacao/Temeletry/SpanScope.cs:32-54 | the first Stop fixes the time; one span log with R2 of it; one 200 record under the span name when there is a store, none without |
| Instrumentacao.SpanSucesso | Simulacao/Temeletry/SpanScope.cs:49-53 | a span adds one success and no failure to its name |
| Simulador.IdSimulacao | Simulacao/Endpoints/SimuladorEndpoints.cs:12-13 | the id of a valid instant is positive and fits in a long |
| Simulador.DecomporIdSimulacao | Simulacao/Endpoints/SimuladorEndpoints.cs:12-13 | the id's digits read back give the instant |
| Simulador.IdSimulacaoInjetivo | Simulacao/Endpoints/SimuladorEndpoints.cs:12-13 | two simulations get the same id exactly when they start in the same second |
| Simulador.IdSimulacaoMonotono | Simulacao/Endpoints/SimuladorEndpoints.cs:12-13 | a later second gives a larger id and only then |
| Simulador.SimularResultado | Simulacao/Endpoints/SimuladorEndpoints.cs:85-86 | the envelope exists iff the term is positive and the PRICE divisor is nonzero; SAC's fault comes first |
| Simulador.SimularEnvelope | Simulacao/Endpoints/SimuladorEndpoints.cs:83-99 | the product's code and name copied, the rate to six places, SAC then PRICE, both valid emitted tables of prazo rows, the total the sum of both |
| Simulador.TotalDeDuas | Simulacao/Data/StorageService.cs:162-164 | the total of a two-schedule envelope is the sum of the two schedules |
| Simulador.EventHubPublisher.Publish | Simulacao/Data/EventHubPublisher.cs:22-38 | disabled: nothing; enabled: the event is published, or PublishFailed |
| Simulador.DesfechoDe | Simulacao/Endpoints/SimuladorEndpoints.cs:61-107 | a fault reaches the middleware as an exception, a result as a status |
| Simulador.SucessoSoComEnvelope | Simulacao/Endpoints/SimuladorEndpoints.cs:75-107 | only an Ok envelope counts as a success of the route |
| Simulador.Envelopar | Simulacao/Endpoints/SimuladorEndpoints.cs:83-99 | SAC, then PRICE, then the envelope: exactly Simular with the timestamp's id |
| Simulador.RodarSimulacao | Simulacao/Endpoints/SimuladorEndpoints.cs:61-107 | the outcome Rodou: the database fault with nothing saved or published; no product: NotFound with nothing saved or published; a table or store fault fails with nothing published; otherwise saved before publishing, Ok with the envelope whatever publishing does |
| Simulador.PostSimulacao | Simulacao/Endpoints/SimuladorEndpoints.cs:38-49 | a missing body is BadRequest and changes nothing; a body gives RodarSimulacao's outcome unchanged (the same Rodou case split: database fault, NotFound, table or store fault, or Ok with Simular's envelope saved and published); an Ok envelope carries the timestamp's id and is stored |

## Left out

- SQL Server, SQLite, connections, commands and readers are abstract state. A
  failure to reach the local store is one flag, `disponivel`, on the store. A
  failure to reach the product database is one flag on the repository.
- The schema bootstrap `EnsureDb`/`TryAddColumn` (StorageService.cs:30-88) is
  not modelled. The store starts with empty tables.
- The legacy `ListSimulacoesAsync`/`GetTelemetryAsync` (StorageService.cs:343-424)
  only reformat the same state, so they are not modelled.
- JSON serialisation of envelopes is taken as the identity.
- SQLite stores `taxa_juros` and `valor_desejado` as REAL. Their conversion to
  double and back is not modelled.
- `Math.Pow` (Tabelas.cs:30) is the parameter `pow`. Its double-to-decimal cast
  is exact, and the cast's overflow on a NaN or an infinity is not modelled.
  With `prazo = 0` the parameter must equal 1, since `Math.Pow(x, 0)` is 1.
- Tabelas.TabelaPrice: `decimal` is an exact `real`. The 28-digit precision and
  range limits of `decimal` (and the overflow exception) are not modelled.
- Durations are real numbers: stopwatch readings in milliseconds, passed as
  parameters. `Math.Round` on doubles is modelled as exact half-to-even rounding
  of reals.
- The clock is a parameter: `agora` is the local time of the id and `hoje` is
  the UTC date of `created_at`. So is `Guid.NewGuid` (`novoId`).
- Simulador.IdSimulacao: assumes the current culture uses the Gregorian
  calendar. `ToString("yyyyMMddHHmmss")` takes no culture argument, so under a
  culture with another calendar (the Thai Buddhist one, for instance) the year
  and month digits differ from the ones modelled.
- The next middleware stage is a parameter: it completes with a status code (or
  no response object), or it throws.
- Concurrency is left out, and every recording is applied in the order it is
  issued. This covers the span's fire-and-forget recording (SpanScope.cs:52),
  whose outcome nobody observes, and the race between two first requests of a
  route in the non-atomic UPDATE-then-INSERT (StorageService.cs:262-293): that
  race can make the INSERT violate the primary key.
- Produtos.Selecionar: at a full tie of both sort keys TOP 1 may return any
  tied row. The model returns the first such row in catalog order. `Melhor`
  and `MelhorUnico` state what every tied choice has in common.
- Instrumentacao.Invoke: `OnStarting` writes the response header when the
  response starts. The model writes it when the callback is registered.
- Instrumentacao.Invoke: the header is looked up by its name, not
  case-insensitively as ASP.NET headers are.
- Instrumentacao.Logger: log levels and message templates are reduced to one
  event per log call.
- Simulador.EventHubPublisher.Publish: connection, batch-size and send failures
  of the Azure client are one flag, `envioFalha`.
- Simulador.RodarSimulacao: cancellation tokens are not modelled.
- Simulador.PostSimulacao: the `[Range]` attributes of `SimulacaoInputDto` are
  not enforced by the endpoint and are not modelled.
- The GET endpoint's query-string binding and the framework's own 400
  responses are not modelled.
- Armazenamento.StorageService.GetSimulacoesPaginadas: page number and size
  are required to be 32-bit values, as their C# type `int` guarantees.
- Program.cs (dependency injection, logging setup) is not modelled. Neither is
  SqlConnectionFactory.cs, nor the routing-only TabelasEndpoints.cs,
  ProdutoEndpoints.cs, StorageEndpoints.cs and TelemetryExtensions.cs.
