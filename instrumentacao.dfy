/**
 * Request instrumentation: RequestTelemetryMiddleware.Invoke (correlation id,
 * status, exactly one telemetry record per request, the request log) and
 * SpanScope (a timed inner operation that logs itself and records a success).
 * The next pipeline stage, the stopwatch and Guid.NewGuid are parameters: the
 * stage's outcome, the elapsed milliseconds and the fresh id.
 */
module Instrumentacao {
  import opened Common
  import opened Rounding
  import opened Telemetria
  import opened Armazenamento

  const CorrelationHeader := "X-Correlation-ID"
  const CorrelationItemKey := "CorrelationId"

  /** The structured log events the core writes. */
  datatype Evento =
    | SpanLog(span: string, duracaoSpan: real, correlacaoSpan: Option<string>)
    | RequestLog(route: string, metodo: string, status: int, durationMs: real, correlationId: string, path: string)
    | ErrorLog(path: string)
    | WarningLog(route: string)

  /** A logger as the sequence of events written to it. */
  class Logger {
    var eventos: seq<Evento>

    constructor ()
      ensures eventos == []
    {
      eventos := [];
    }

    method Log(e: Evento)
      modifies this
      ensures eventos == old(eventos) + [e]
    {
      eventos := eventos + [e];
    }
  }

  // ---------------------------------------------------------------------
  // Correlation id
  // ---------------------------------------------------------------------

  /** char.IsWhiteSpace: the space, line and paragraph separators of Unicode,
      the controls U+0009 to U+000D, and U+0085. */
  predicate EspacoBranco(c: char)
  {
    || ('\U{0009}' <= c <= '\U{000D}')
    || c == '\U{0020}' || c == '\U{0085}' || c == '\U{00A0}' || c == '\U{1680}'
    || ('\U{2000}' <= c <= '\U{200A}')
    || c == '\U{2028}' || c == '\U{2029}' || c == '\U{202F}' || c == '\U{205F}' || c == '\U{3000}'
  }

  /** string.IsNullOrWhiteSpace. */
  predicate NuloOuBranco(s: Option<string>)
  {
    s.None? || forall i :: 0 <= i < |s.value| ==> EspacoBranco(s.value[i])
  }

  /** The values joined by commas. */
  function Juntar(vs: seq<string>): string
    requires |vs| > 0
  {
    if |vs| == 1 then vs[0] else Juntar(vs[..|vs| - 1]) + "," + vs[|vs| - 1]
  }

  /** A header's StringValues as a string: null for no value, the value itself
      for one, the values joined by commas for several. */
  function ComoTexto(vs: seq<string>): (r: Option<string>)
    ensures |vs| == 0 <==> r.None?
    ensures |vs| == 1 ==> r == Some(vs[0])
  {
    if |vs| == 0 then None else Some(Juntar(vs))
  }

  /** The correlation id of a request: the X-Correlation-ID header when it is
      present and not blank, otherwise the fresh id. */
  function Correlacao(cabecalho: Option<seq<string>>, novo: string): (r: string)
    ensures cabecalho.Some? && !NuloOuBranco(ComoTexto(cabecalho.value)) ==> Some(r) == ComoTexto(cabecalho.value)
    ensures cabecalho.None? || NuloOuBranco(ComoTexto(cabecalho.value)) ==> r == novo
  {
    if cabecalho.Some? && !NuloOuBranco(ComoTexto(cabecalho.value)) then ComoTexto(cabecalho.value).value
    else novo
  }

  /** The id is never blank when the fresh one is not (a Guid's text never is). */
  lemma CorrelacaoNaoBranca(cabecalho: Option<seq<string>>, novo: string)
    requires !NuloOuBranco(Some(novo))
    ensures !NuloOuBranco(Some(Correlacao(cabecalho, novo)))
  {
  }

  // ---------------------------------------------------------------------
  // Route name
  // ---------------------------------------------------------------------

  /** The matched endpoint: a route endpoint carries its route pattern text. */
  datatype Endpoint =
    | RouteEndpoint(rawText: Option<string>, displayName: Option<string>)
    | OutroEndpoint(displayName: Option<string>)

  /** GetRouteName: the non-blank route pattern text, else the endpoint's display
      name, else the request path. */
  function NomeDaRota(ep: Option<Endpoint>, path: string): (r: string)
    ensures ep.Some? && ep.value.RouteEndpoint? && !NuloOuBranco(ep.value.rawText) ==> r == ep.value.rawText.value
    ensures (ep.None? || !ep.value.RouteEndpoint? || NuloOuBranco(ep.value.rawText)) ==>
              r == (if ep.Some? && ep.value.displayName.Some? then ep.value.displayName.value else path)
  {
    if ep.Some? && ep.value.RouteEndpoint? && !NuloOuBranco(ep.value.rawText) then ep.value.rawText.value
    else if ep.Some? && ep.value.displayName.Some? then ep.value.displayName.value
    else path
  }

  /** Without an endpoint, telemetry is keyed by the request path. */
  lemma NomeDaRotaSemEndpoint(path: string)
    ensures NomeDaRota(None, path) == path
  {
  }

  // ---------------------------------------------------------------------
  // The request
  // ---------------------------------------------------------------------

  /** The parts of HttpContext the core reads and writes. */
  class HttpContext {
    const metodo: string
    const path: string
    const endpoint: Option<Endpoint>
    /** The values of the X-Correlation-ID request header, if present. */
    const cabecalhoCorrelacao: Option<seq<string>>
    var items: map<string, string>
    /** Response?.StatusCode: None when there is no response object. */
    var statusCode: Option<int>
    /** Response headers written by the OnStarting callbacks. */
    var cabecalhosResposta: map<string, string>

    constructor (metodo: string, path: string, endpoint: Option<Endpoint>, cabecalho: Option<seq<string>>)
      ensures this.metodo == metodo && this.path == path && this.endpoint == endpoint
      ensures cabecalhoCorrelacao == cabecalho
      ensures items == map[] && statusCode == Some(200) && cabecalhosResposta == map[]
    {
      this.metodo := metodo;
      this.path := path;
      this.endpoint := endpoint;
      cabecalhoCorrelacao := cabecalho;
      items := map[];
      statusCode := Some(200);
      cabecalhosResposta := map[];
    }
  }

  /** How the next pipeline stage ends: it completes, leaving a response status
      code (or no response), or it throws. */
  datatype Desfecho = Conclui(statusCode: Option<int>) | Lanca

  /** The status the middleware records: 500 when the stage throws, else
      Response?.StatusCode ?? 0. */
  function StatusRegistrado(d: Desfecho): int
  {
    match d
    case Lanca => 500
    case Conclui(s) => if s.Some? then s.value else 0
  }

  /** RequestTelemetryMiddleware.Invoke. The correlation id goes to Items and to
      the response header; the stage runs; then, whatever happened, one
      telemetry record is attempted (its failure is logged as a warning and
      swallowed) and the request is logged; a stage exception is rethrown. */
  method Invoke(ctx: HttpContext, storage: StorageService, logger: Logger,
                proximo: Desfecho, elapsedMs: real, novoId: string)
    returns (r: Result<()>)
    requires storage.Valid()
    modifies ctx, storage, logger
    ensures storage.Valid()
    ensures var id := Correlacao(ctx.cabecalhoCorrelacao, novoId);
            && ctx.items == old(ctx.items)[CorrelationItemKey := id]
            && ctx.cabecalhosResposta == old(ctx.cabecalhosResposta)[CorrelationHeader := id]
    ensures proximo.Conclui? ==> ctx.statusCode == proximo.statusCode && r == Success(())
    ensures proximo.Lanca? ==> ctx.statusCode == old(ctx.statusCode) && r == Failure(PipelineFault)
    ensures var rota := NomeDaRota(ctx.endpoint, ctx.path);
            var status := StatusRegistrado(proximo);
            var dur := Round2(elapsedMs);
            && storage.disponivel == old(storage.disponivel) && storage.simulacoes == old(storage.simulacoes)
            && storage.telemetria == (if storage.disponivel then Registrar(old(storage.telemetria), rota, dur, status)
                                      else old(storage.telemetria))
            && logger.eventos == old(logger.eventos)
                 + (if proximo.Lanca? then [ErrorLog(ctx.path)] else [])
                 + (if storage.disponivel then [] else [WarningLog(rota)])
                 + [RequestLog(rota, ctx.metodo, status, dur, Correlacao(ctx.cabecalhoCorrelacao, novoId), ctx.path)]
  {
    var correlationId := Correlacao(ctx.cabecalhoCorrelacao, novoId);
    ctx.items := ctx.items[CorrelationItemKey := correlationId];
    ctx.cabecalhosResposta := ctx.cabecalhosResposta[CorrelationHeader := correlationId];
    var status := 0;
    var lancou := false;
    match proximo {
      case Conclui(s) =>
        ctx.statusCode := s;
        status := if ctx.statusCode.Some? then ctx.statusCode.value else 0;
      case Lanca =>
        status := 500;
        logger.Log(ErrorLog(ctx.path));
        lancou := true;
    }
    // finally
    var durationMs := Round2(elapsedMs);
    var routeName := NomeDaRota(ctx.endpoint, ctx.path);
    var gravado := storage.RecordTelemetry(routeName, durationMs, status);
    if gravado.Failure? {
      logger.Log(WarningLog(routeName));
    }
    logger.Log(RequestLog(routeName, ctx.metodo, status, durationMs, correlationId, ctx.path));
    if lancou { return Failure(PipelineFault); }
    return Success(());
  }

  /** One request adds exactly one call to its route's row, a success exactly
      when the recorded status is 2xx, and leaves every other row as it was. */
  lemma UmRegistroPorRequisicao(t: Tabela, rota: string, dur: real, status: int)
    ensures var t' := Registrar(t, rota, dur, status);
            var antes := if rota in t then t[rota].chamadas else 0;
            var ok := if rota in t then t[rota].sucesso2xx else 0;
            && rota in t'
            && t'[rota].chamadas == antes + 1
            && t'[rota].sucesso2xx == ok + (if Sucesso(status) then 1 else 0)
            && forall s :: s in t && s != rota ==> s in t' && t'[s] == t[s]
  {
  }

  /** A request whose stage throws counts as a failure; one whose stage completes
      counts by its response code, and a missing response as a failure. */
  lemma StatusDeFalha(d: Desfecho)
    ensures d.Lanca? ==> !Sucesso(StatusRegistrado(d))
    ensures d.Conclui? && d.statusCode.None? ==> !Sucesso(StatusRegistrado(d))
    ensures d.Conclui? && d.statusCode.Some? ==> (Sucesso(StatusRegistrado(d)) <==> 200 <= d.statusCode.value < 300)
  {
  }

  // ---------------------------------------------------------------------
  // Spans
  // ---------------------------------------------------------------------

  /** The correlation id a span reads: null without a current request, and
      null when the request's Items has no such entry. */
  function CorrelacaoDoContexto(ctx: HttpContext?): (r: Option<string>)
    reads ctx
    ensures ctx == null ==> r.None?
    ensures ctx != null ==> (r.Some? <==> CorrelationItemKey in ctx.items)
    ensures ctx != null && CorrelationItemKey in ctx.items ==> r == Some(ctx.items[CorrelationItemKey])
  {
    if ctx == null then None
    else if CorrelationItemKey in ctx.items then Some(ctx.items[CorrelationItemKey])
    else None
  }

  /** SpanScope: a named, timed scope. The stopwatch starts with the scope; its
      first Stop fixes the elapsed time. */
  class SpanScope {
    const nome: string
    const logger: Logger
    /** IHttpContextAccessor.HttpContext: null outside a request. */
    const ctx: HttpContext?
    const storage: StorageService?
    var parado: bool
    var elapsedMs: real

    constructor (nome: string, logger: Logger, ctx: HttpContext?, storage: StorageService?)
      ensures this.nome == nome && this.logger == logger && this.ctx == ctx && this.storage == storage
      ensures !parado
    {
      this.nome := nome;
      this.logger := logger;
      this.ctx := ctx;
      this.storage := storage;
      parado := false;
      elapsedMs := 0.0;
    }

    /** Dispose: stop the watch (`leitura` is its reading now; a watch already
        stopped keeps its time), log the span, and, when there is a store,
        record it as a 200 whose outcome nobody observes. */
    method Dispose(leitura: real)
      requires storage != null ==> storage.Valid()
      modifies this, logger, storage
      ensures parado && elapsedMs == (if old(parado) then old(elapsedMs) else leitura)
      ensures storage != null ==> storage.Valid()
      ensures logger.eventos == old(logger.eventos) + [SpanLog(nome, Round2(elapsedMs), CorrelacaoDoContexto(ctx))]
      ensures storage != null ==>
                && storage.disponivel == old(storage.disponivel)
                && storage.simulacoes == old(storage.simulacoes)
                && storage.telemetria == (if storage.disponivel
                                          then Registrar(old(storage.telemetria), nome, Round2(elapsedMs), 200)
                                          else old(storage.telemetria))
    {
      if !parado {
        elapsedMs := leitura;
        parado := true;
      }
      var dur := Round2(elapsedMs);
      var correlationId := CorrelacaoDoContexto(ctx);
      logger.Log(SpanLog(nome, dur, correlationId));
      if storage != null {
        var _ := storage.RecordTelemetry(nome, dur, 200);
      }
    }
  }

  /** A span always counts as a success of its name. */
  lemma SpanSucesso(t: Tabela, nome: string, dur: real)
    ensures Registrar(t, nome, dur, 200)[nome].sucesso2xx
            == (if nome in t then t[nome].sucesso2xx else 0) + 1
    ensures Registrar(t, nome, dur, 200)[nome].falhaN2xx
            == (if nome in t then t[nome].falhaN2xx else 0)
  {
  }
}
