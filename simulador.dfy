/**
 * The simulation endpoint: SimuladorEndpoints.RodarSimulacao picks the product,
 * builds the SAC and PRICE tables into an envelope identified by the local time
 * to the second, stores it, and publishes it to the Event Hub without letting
 * a publishing failure fail the request.
 */
module Simulador {
  import opened Common
  import opened Models
  import opened Rounding
  import opened Tabelas
  import opened TabelasLemmas
  import opened Telemetria
  import opened Armazenamento
  import opened Instrumentacao
  import opened Produtos

  // ---------------------------------------------------------------------
  // Simulation ids
  // ---------------------------------------------------------------------

  /** A local date and time, to the second (DateTime.Now). */
  datatype Instante = Instante(ano: int, mes: int, dia: int, hora: int, minuto: int, segundo: int)

  predicate Bissexto(ano: int)
  {
    (ano % 4 == 0 && ano % 100 != 0) || ano % 400 == 0
  }

  function DiasNoMes(ano: int, mes: int): int
  {
    if mes == 2 then (if Bissexto(ano) then 29 else 28)
    else if mes == 4 || mes == 6 || mes == 9 || mes == 11 then 30
    else 31
  }

  /** A date and time DateTime can hold. */
  predicate InstanteValido(i: Instante)
  {
    && 1 <= i.ano <= 9999
    && 1 <= i.mes <= 12
    && 1 <= i.dia <= DiasNoMes(i.ano, i.mes)
    && 0 <= i.hora < 24
    && 0 <= i.minuto < 60
    && 0 <= i.segundo < 60
  }

  const Int64Max := 0x7FFF_FFFF_FFFF_FFFF

  /** GerarIdSimulacao: the digits yyyyMMddHHmmss read as a long. */
  function IdSimulacao(i: Instante): (id: int)
    ensures InstanteValido(i) ==> 0 < id <= 99991231235959 < Int64Max
  {
    i.ano * 10000000000 + i.mes * 100000000 + i.dia * 1000000
      + i.hora * 10000 + i.minuto * 100 + i.segundo
  }

  /** The date and time an id was generated at, read back two digits at a time
      from the right. */
  function Decompor(id: int): Instante
  {
    var segundo, r1 := id % 100, id / 100;
    var minuto, r2 := r1 % 100, r1 / 100;
    var hora, r3 := r2 % 100, r2 / 100;
    var dia, r4 := r3 % 100, r3 / 100;
    Instante(r4 / 100, r4 % 100, dia, hora, minuto, segundo)
  }

  /** Two more digits on the right of q are read back by one division. */
  lemma DoisDigitos(q: int, r: int)
    requires 0 <= r < 100
    ensures (q * 100 + r) / 100 == q && (q * 100 + r) % 100 == r
  {
  }

  /** The id of a valid instant spells it out: reading the digits back gives
      the instant. */
  lemma DecomporIdSimulacao(i: Instante)
    requires InstanteValido(i)
    ensures Decompor(IdSimulacao(i)) == i
  {
    var x4 := i.ano * 100 + i.mes;
    var x3 := x4 * 100 + i.dia;
    var x2 := x3 * 100 + i.hora;
    var x1 := x2 * 100 + i.minuto;
    assert IdSimulacao(i) == x1 * 100 + i.segundo;
    DoisDigitos(x1, i.segundo);
    DoisDigitos(x2, i.minuto);
    DoisDigitos(x3, i.hora);
    DoisDigitos(x4, i.dia);
    DoisDigitos(i.ano, i.mes);
  }

  /** Two simulations get the same id exactly when they start in the same second. */
  lemma IdSimulacaoInjetivo(a: Instante, b: Instante)
    requires InstanteValido(a) && InstanteValido(b)
    ensures IdSimulacao(a) == IdSimulacao(b) <==> a == b
  {
    if IdSimulacao(a) == IdSimulacao(b) {
      DecomporIdSimulacao(a);
      DecomporIdSimulacao(b);
    }
  }

  /** a is an earlier second than b. */
  predicate Anterior(a: Instante, b: Instante)
  {
    || a.ano < b.ano
    || (a.ano == b.ano && a.mes < b.mes)
    || (a.ano == b.ano && a.mes == b.mes && a.dia < b.dia)
    || (a.ano == b.ano && a.mes == b.mes && a.dia == b.dia && a.hora < b.hora)
    || (a.ano == b.ano && a.mes == b.mes && a.dia == b.dia && a.hora == b.hora && a.minuto < b.minuto)
    || (a.ano == b.ano && a.mes == b.mes && a.dia == b.dia && a.hora == b.hora && a.minuto == b.minuto
        && a.segundo < b.segundo)
  }

  /** Later seconds get larger ids, so id order is the order of creation. */
  lemma IdSimulacaoMonotono(a: Instante, b: Instante)
    requires InstanteValido(a) && InstanteValido(b)
    ensures Anterior(a, b) <==> IdSimulacao(a) < IdSimulacao(b)
  {
  }

  // ---------------------------------------------------------------------
  // The envelope
  // ---------------------------------------------------------------------

  /** The envelope of a simulation with product p, or the fault of the first
      table that throws: SAC is built first, then PRICE. */
  function Simular(p: Produto, valor: real, prazo: int, pow: real, id: int): Result<Envelope>
    requires prazo == 0 ==> pow == 1.0
  {
    match Sac(valor, prazo, p.pcTaxaJuros)
    case Failure(f) => Failure(f)
    case Success(sac) =>
      match Price(valor, prazo, p.pcTaxaJuros, pow)
      case Failure(f) => Failure(f)
      case Success(price) =>
        Success(Envelope(id, p.coProduto, p.noProduto, Round6(p.pcTaxaJuros),
                         [ResultadoSimulacao("SAC", sac), ResultadoSimulacao("PRICE", price)]))
  }

  /** A simulation succeeds exactly when the term is positive and, at a nonzero
      rate, the PRICE divisor is not zero; a zero term divides by zero in SAC, a
      negative one fails its list capacity, and a zero PRICE divisor divides by zero. */
  lemma SimularResultado(p: Produto, valor: real, prazo: int, pow: real, id: int)
    requires prazo == 0 ==> pow == 1.0
    ensures Simular(p, valor, prazo, pow, id).Success? <==>
              prazo >= 1 && (p.pcTaxaJuros == 0.0 || pow != 1.0)
    ensures Simular(p, valor, prazo, pow, id).Failure? ==>
              Simular(p, valor, prazo, pow, id).fault == (if prazo < 0 then ArgumentOutOfRange else DivideByZero)
  {
    SacResultado(valor, prazo, p.pcTaxaJuros);
    PriceResultado(valor, prazo, p.pcTaxaJuros, pow);
  }

  /** A successful envelope carries the product's code and name, its rate to six
      places, and a SAC then a PRICE table, each a valid emitted table of
      `prazo` installments over the amount; its total is the sum of both. */
  lemma SimularEnvelope(p: Produto, valor: real, prazo: int, pow: real, id: int)
    requires prazo == 0 ==> pow == 1.0
    requires Simular(p, valor, prazo, pow, id).Success?
    ensures var e := Simular(p, valor, prazo, pow, id).value;
            && e.idSimulacao == id
            && e.codigoProduto == p.coProduto && e.descricaoProduto == p.noProduto
            && Micros(e.taxaJuros) && -0.0000005 <= p.pcTaxaJuros - e.taxaJuros <= 0.0000005
            && |e.resultadoSimulacao| == 2
            && e.resultadoSimulacao[0].tipo == "SAC" && e.resultadoSimulacao[1].tipo == "PRICE"
            && TabelaEmitida(e.resultadoSimulacao[0].parcelas, valor, prazo)
            && TabelaEmitida(e.resultadoSimulacao[1].parcelas, valor, prazo)
            && TotalParcelas(e.resultadoSimulacao)
               == SomaPrestacoes(e.resultadoSimulacao[0].parcelas) + SomaPrestacoes(e.resultadoSimulacao[1].parcelas)
  {
    var t := p.pcTaxaJuros;
    SimularResultado(p, valor, prazo, pow, id);
    var sac := Sac(valor, prazo, t).value;
    var price := Price(valor, prazo, t, pow).value;
    var e := Envelope(id, p.coProduto, p.noProduto, Round6(t),
                      [ResultadoSimulacao("SAC", sac), ResultadoSimulacao("PRICE", price)]);
    assert Simular(p, valor, prazo, pow, id).value == e;
    SacTabela(valor, prazo, t);
    PriceTabela(valor, prazo, t, pow);
    TotalDeDuas(e.resultadoSimulacao[0], e.resultadoSimulacao[1]);
  }

  /** The total of a two-schedule envelope is the sum of its two schedules. */
  lemma TotalDeDuas(a: ResultadoSimulacao, b: ResultadoSimulacao)
    ensures TotalParcelas([a, b]) == SomaPrestacoes(a.parcelas) + SomaPrestacoes(b.parcelas)
  {
    assert [a, b][..1] == [a];
    assert [a][..0] == [];
    assert TotalParcelas([a]) == SomaPrestacoes(a.parcelas);
  }

  // ---------------------------------------------------------------------
  // Event Hub
  // ---------------------------------------------------------------------

  /** EventHubPublisher: publishing is enabled by a non-blank connection string;
      `envioFalha` says whether the client fails (connection, batch size or send).
      The envelope's JSON is the envelope itself. */
  class EventHubPublisher {
    const connectionString: Option<string>
    const envioFalha: bool
    var publicados: seq<Envelope>

    constructor (connectionString: Option<string>, envioFalha: bool)
      ensures this.connectionString == connectionString && this.envioFalha == envioFalha
      ensures publicados == []
    {
      this.connectionString := connectionString;
      this.envioFalha := envioFalha;
      publicados := [];
    }

    predicate Enabled()
    {
      !NuloOuBranco(connectionString)
    }

    /** PublishAsync: nothing when disabled; otherwise one event, or the fault. */
    method Publish(env: Envelope) returns (r: Result<()>)
      modifies this
      ensures !Enabled() ==> r == Success(()) && publicados == old(publicados)
      ensures Enabled() && envioFalha ==> r == Failure(PublishFailed) && publicados == old(publicados)
      ensures Enabled() && !envioFalha ==> r == Success(()) && publicados == old(publicados) + [env]
    {
      if !Enabled() { return Success(()); }
      if envioFalha { return Failure(PublishFailed); }
      publicados := publicados + [env];
      return Success(());
    }
  }

  // ---------------------------------------------------------------------
  // The endpoint
  // ---------------------------------------------------------------------

  /** The HTTP results of the simulation endpoints. */
  datatype Resposta = Ok(envelope: Envelope) | NotFound(valorDesejado: real, prazo: int) | BadRequest

  /** The status code a result leaves on the response. */
  function StatusDe(r: Resposta): int
  {
    match r
    case Ok(_) => 200
    case NotFound(_, _) => 404
    case BadRequest => 400
  }

  /** How the endpoint ends for the telemetry middleware: a result sets its
      status code, a fault is an exception. */
  function DesfechoDe(r: Result<Resposta>): (d: Desfecho)
    ensures r.Failure? <==> d.Lanca?
  {
    match r
    case Success(x) => Conclui(Some(StatusDe(x)))
    case Failure(_) => Lanca
  }

  /** Only a returned envelope counts as a success in the telemetry of the route. */
  lemma SucessoSoComEnvelope(r: Result<Resposta>)
    ensures Sucesso(StatusRegistrado(DesfechoDe(r))) <==> r.Success? && r.value.Ok?
  {
  }

  /** The envelope RodarSimulacao builds once the product is known: SAC, then
      PRICE, then the id. */
  method Envelopar(p: Produto, valor: real, prazo: int, pow: real, agora: Instante) returns (r: Result<Envelope>)
    requires prazo == 0 ==> pow == 1.0
    ensures r == Simular(p, valor, prazo, pow, IdSimulacao(agora))
  {
    var taxa := p.pcTaxaJuros;
    var sac := TabelaSac(valor, prazo, taxa);
    if sac.Failure? { return Failure(sac.fault); }
    var price := TabelaPrice(valor, prazo, taxa, pow);
    if price.Failure? { return Failure(price.fault); }
    var env := Envelope(IdSimulacao(agora), p.coProduto, p.noProduto, Round6(taxa),
                        [ResultadoSimulacao("SAC", sac.value), ResultadoSimulacao("PRICE", price.value)]);
    return Success(env);
  }

  /** What RodarSimulacao leaves behind: the product query's span recorded when
      the store is up, nothing saved or published when the database is down, no
      product admits the request (a 404), the tables fail or the store refuses
      the row; otherwise the row saved in id position, the event published when
      publishing is enabled and succeeds, and the envelope returned. */
  twostate predicate Rodou(valor: real, prazo: int, repo: ProdutoRepository, storage: StorageService,
                           publisher: EventHubPublisher, leituraSpan: real, agora: Instante, duracaoMs: real,
                           hoje: Date, pow: real, new r: Result<Resposta>)
    requires prazo == 0 ==> pow == 1.0
    reads storage, publisher
  {
    var intocados := storage.simulacoes == old(storage.simulacoes) && publisher.publicados == old(publisher.publicados);
    && storage.disponivel == old(storage.disponivel)
    && storage.telemetria == (if storage.disponivel
                              then Registrar(old(storage.telemetria), "db_obter_produto", Round2(leituraSpan), 200)
                              else old(storage.telemetria))
    && (!repo.bancoDisponivel ==> r == Failure(DatabaseUnavailable) && intocados)
    && (repo.bancoDisponivel && Selecionar(repo.catalogo, valor, prazo).None? ==>
          r == Success(NotFound(valor, prazo)) && intocados)
    && (repo.bancoDisponivel && Selecionar(repo.catalogo, valor, prazo).Some? ==>
          var s := Simular(Selecionar(repo.catalogo, valor, prazo).value, valor, prazo, pow, IdSimulacao(agora));
          && (s.Failure? ==> r == Failure(s.fault) && intocados)
          && (s.Success? && !storage.disponivel ==> r == Failure(StorageUnavailable) && intocados)
          && (s.Success? && storage.disponivel && TemId(old(storage.simulacoes), s.value.idSimulacao) ==>
                r == Failure(UniqueConstraint) && intocados)
          && (s.Success? && storage.disponivel && !TemId(old(storage.simulacoes), s.value.idSimulacao) ==>
                && r == Success(Ok(s.value))
                && storage.simulacoes == InserirPorId(old(storage.simulacoes), SimulacaoGravada(
                     s.value.idSimulacao, s.value.codigoProduto, s.value.descricaoProduto,
                     s.value.taxaJuros, valor, prazo, s.value, hoje, duracaoMs))
                && publisher.publicados
                   == old(publisher.publicados) + (if publisher.Enabled() && !publisher.envioFalha then [s.value] else [])))
  }

  /** RodarSimulacao. `leituraSpan` is the product query's span time, `duracaoMs`
      the stopwatch reading stored with the row, `agora` the local time, `hoje`
      the UTC date of the insert and `pow` the value Math.Pow gives PRICE. No
      product is a 404 and stores nothing; a table or store fault fails the
      request and publishes nothing; a publishing fault is swallowed. */
  method RodarSimulacao(valor: real, prazo: int, repo: ProdutoRepository, storage: StorageService,
                        publisher: EventHubPublisher, leituraSpan: real, agora: Instante, duracaoMs: real,
                        hoje: Date, pow: real)
    returns (r: Result<Resposta>)
    requires repo.storage == storage && storage.Valid()
    requires prazo == 0 ==> pow == 1.0
    modifies repo.logger, storage, publisher
    ensures storage.Valid()
    ensures Rodou(valor, prazo, repo, storage, publisher, leituraSpan, agora, duracaoMs, hoje, pow, r)
  {
    var consulta := repo.ObterProduto(valor, prazo, leituraSpan);
    if consulta.Failure? { return Failure(consulta.fault); }
    if consulta.value.None? { return Success(NotFound(valor, prazo)); }
    var produto := consulta.value.value;
    var env := Envelopar(produto, valor, prazo, pow, agora);
    if env.Failure? { return Failure(env.fault); }
    var gravado := storage.SaveSimulacao(env.value, valor, prazo, duracaoMs, hoje);
    if gravado.Failure? { return Failure(gravado.fault); }
    var _ := publisher.Publish(env.value);  // a publishing fault does not fail the request
    return Success(Ok(env.value));
  }

  /** The POST endpoint: a missing body is a 400, anything else is simulated
      (the body's range annotations are not checked by the endpoint). */
  method PostSimulacao(input: Option<(real, int)>, repo: ProdutoRepository, storage: StorageService,
                       publisher: EventHubPublisher, leituraSpan: real, agora: Instante, duracaoMs: real,
                       hoje: Date, pow: real)
    returns (r: Result<Resposta>)
    requires repo.storage == storage && storage.Valid()
    requires input.Some? && input.value.1 == 0 ==> pow == 1.0
    modifies repo.logger, storage, publisher
    ensures storage.Valid()
    ensures input.None? ==>
              && r == Success(BadRequest) && storage.simulacoes == old(storage.simulacoes)
              && storage.telemetria == old(storage.telemetria) && publisher.publicados == old(publisher.publicados)
    ensures input.Some? ==>
              Rodou(input.value.0, input.value.1, repo, storage, publisher, leituraSpan, agora, duracaoMs, hoje, pow, r)
    ensures input.Some? && r.Success? && r.value.Ok? ==>
              r.value.envelope.idSimulacao == IdSimulacao(agora) && storage.disponivel
              && TemId(storage.simulacoes, IdSimulacao(agora))
  {
    if input.None? { return Success(BadRequest); }
    r := RodarSimulacao(input.value.0, input.value.1, repo, storage, publisher, leituraSpan, agora, duracaoMs, hoje, pow);
    if r.Success? && r.value.Ok? {
      var s := Simular(Selecionar(repo.catalogo, input.value.0, input.value.1).value,
                       input.value.0, input.value.1, pow, IdSimulacao(agora));
      var g := SimulacaoGravada(
        s.value.idSimulacao, s.value.codigoProduto, s.value.descricaoProduto,
        s.value.taxaJuros, input.value.0, input.value.1, s.value, hoje, duracaoMs);
      assert g in storage.simulacoes;
    }
  }
}
