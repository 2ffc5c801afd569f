/**
 * The records the core exchanges: installments, simulation envelopes, catalog
 * products and the report rows. They carry no logic of their own.
 */
module Models {
  import opened Common

  /** A calendar date (DateOnly). */
  datatype Date = Date(year: int, month: int, day: int)

  /** One installment as emitted: number, amortisation, interest and payment. */
  datatype Parcela = Parcela(numero: int, valorAmortizacao: real, valorJuros: real, valorPrestacao: real)

  /** One schedule of an envelope, tagged "SAC" or "PRICE". */
  datatype ResultadoSimulacao = ResultadoSimulacao(tipo: string, parcelas: seq<Parcela>)

  /** The result of one simulation, returned to the caller, stored and published. */
  datatype Envelope = Envelope(
    idSimulacao: int,
    codigoProduto: int,
    descricaoProduto: string,
    taxaJuros: real,
    resultadoSimulacao: seq<ResultadoSimulacao>)

  /** A catalog row; a NULL maximum is None. */
  datatype Produto = Produto(
    coProduto: int,
    noProduto: string,
    pcTaxaJuros: real,
    nuMinimoMeses: int,
    nuMaximoMeses: Option<int>,
    vrMinimo: real,
    vrMaximo: Option<real>)

  /** One row of the paginated listing. */
  datatype SimulacaoResumo = SimulacaoResumo(idSimulacao: int, valorDesejado: real, prazo: int, valorTotalParcelas: real)

  /** A page of the listing. */
  datatype ListaSimulacoes = ListaSimulacoes(pagina: int, qtdRegistros: int, qtdRegistrosPagina: int, registros: seq<SimulacaoResumo>)

  /** One row of the telemetry report. */
  datatype EndpointTelemetry = EndpointTelemetry(
    nomeApi: string,
    qtdRequisicoes: int,
    tempoMedio: real,
    tempoMinimo: real,
    tempoMaximo: real,
    percentualSucesso: real)

  /** The telemetry report; the date is only a label. */
  datatype TelemetryReport = TelemetryReport(dataReferencia: Date, listaEndpoints: seq<EndpointTelemetry>)

  /** Per-product aggregate of one day's simulations. */
  datatype VolumeProdutoItem = VolumeProdutoItem(
    codigoProduto: int,
    descricaoProduto: string,
    taxaMediaJuro: real,
    valorMedioPrestacao: real,
    valorTotalDesejado: real,
    valorTotalCredito: real)

  /** The per-product volume report of one day. */
  datatype VolumePorProdutoDia = VolumePorProdutoDia(dataReferencia: Date, simulacoes: seq<VolumeProdutoItem>)
}
