/**
 * The product selection rule of ProdutoRepository.ObterProdutoAsync: keep the
 * catalog rows whose term and amount bounds admit the request (a NULL maximum
 * bounds nothing), order them by minimum term, then minimum amount, both
 * descending, and take the first.
 */
module Produtos {
  import opened Common
  import opened Models
  import opened Rounding
  import opened Telemetria
  import opened Armazenamento
  import opened Instrumentacao

  /** The WHERE clause: the product admits amount `valor` over `prazo` months. */
  predicate Admite(p: Produto, valor: real, prazo: int)
  {
    && prazo >= p.nuMinimoMeses
    && (p.nuMaximoMeses.None? || prazo <= p.nuMaximoMeses.value)
    && valor >= p.vrMinimo
    && (p.vrMaximo.None? || valor <= p.vrMaximo.value)
  }

  /** The ORDER BY clause: a sorts strictly before b under
      NU_MINIMO_MESES DESC, VR_MINIMO DESC. */
  predicate Precede(a: Produto, b: Produto)
  {
    a.nuMinimoMeses > b.nuMinimoMeses
    || (a.nuMinimoMeses == b.nuMinimoMeses && a.vrMinimo > b.vrMinimo)
  }

  /** p is a row TOP 1 may return: it is in the catalog, admits the request,
      and no admitting row sorts strictly before it. Among full ties the query
      leaves the choice open, so every tied row qualifies. */
  ghost predicate Melhor(catalogo: seq<Produto>, valor: real, prazo: int, p: Produto)
  {
    && p in catalogo
    && Admite(p, valor, prazo)
    && forall q :: q in catalogo && Admite(q, valor, prazo) ==> !Precede(q, p)
  }

  /** If neither of a, b sorts before the other they have the same sort key, and a
      row sorting before one of them sorts before the other. */
  lemma EmpateMesmaChave(a: Produto, b: Produto, q: Produto)
    requires !Precede(a, b) && !Precede(b, a)
    ensures a.nuMinimoMeses == b.nuMinimoMeses && a.vrMinimo == b.vrMinimo
    ensures Precede(q, a) <==> Precede(q, b)
  {
  }

  /** The row the query returns: the first admitting row that no later admitting
      row sorts strictly before, or None when no row admits the request. */
  function Selecionar(catalogo: seq<Produto>, valor: real, prazo: int): (r: Option<Produto>)
    ensures r.None? <==> forall q :: q in catalogo ==> !Admite(q, valor, prazo)
    ensures r.Some? ==> Melhor(catalogo, valor, prazo, r.value)
  {
    if catalogo == [] then None
    else
      var p := catalogo[0];
      var resto := Selecionar(catalogo[1..], valor, prazo);
      assert forall q :: q in catalogo <==> q == p || q in catalogo[1..];
      if !Admite(p, valor, prazo) then resto
      else if resto.Some? && Precede(resto.value, p) then resto
      else Some(p)
  }

  /** Any two rows TOP 1 may return carry the same sort key. */
  lemma {:induction false} MelhorUnico(catalogo: seq<Produto>, valor: real, prazo: int, a: Produto, b: Produto)
    requires Melhor(catalogo, valor, prazo, a) && Melhor(catalogo, valor, prazo, b)
    ensures a.nuMinimoMeses == b.nuMinimoMeses && a.vrMinimo == b.vrMinimo
  {
    assert !Precede(a, b) && !Precede(b, a);
    EmpateMesmaChave(a, b, a);
  }

  /** The selection does not depend on the order of the catalog rows: reordering
      the catalog finds a product exactly when the original does, and one with the
      same minimum term and minimum amount. */
  lemma SelecionarPermutacao(c1: seq<Produto>, c2: seq<Produto>, valor: real, prazo: int)
    requires multiset(c1) == multiset(c2)
    ensures Selecionar(c1, valor, prazo).None? <==> Selecionar(c2, valor, prazo).None?
    ensures Selecionar(c1, valor, prazo).Some? ==>
              Selecionar(c1, valor, prazo).value.nuMinimoMeses == Selecionar(c2, valor, prazo).value.nuMinimoMeses
              && Selecionar(c1, valor, prazo).value.vrMinimo == Selecionar(c2, valor, prazo).value.vrMinimo
  {
    assert forall q :: q in c1 <==> q in multiset(c1);
    assert forall q :: q in c2 <==> q in multiset(c2);
    var r1, r2 := Selecionar(c1, valor, prazo), Selecionar(c2, valor, prazo);
    if r1.Some? && r2.Some? {
      assert Melhor(c2, valor, prazo, r1.value);
      MelhorUnico(c2, valor, prazo, r1.value, r2.value);
    }
  }

  /** The selection rule on a small catalog: the most specific admitting product
      wins, a NULL maximum admits any term, and a request nothing admits finds nothing. */
  lemma SelecionarExemplo()
    ensures var geral := Produto(1, "Geral", 0.02, 0, None, 0.0, Some(10000.0));
            var longo := Produto(2, "Longo", 0.015, 24, None, 5000.0, None);
            var catalogo := [geral, longo];
            && Selecionar(catalogo, 8000.0, 36) == Some(longo)
            && Selecionar(catalogo, 8000.0, 12) == Some(geral)
            && Selecionar(catalogo, 20000.0, 12) == None
  {
  }

  /** ProdutoRepository: the product catalog, reachable or not, queried inside a
      span named "db_obter_produto". */
  class ProdutoRepository {
    const catalogo: seq<Produto>
    const bancoDisponivel: bool
    const logger: Logger
    const http: HttpContext?
    const storage: StorageService

    constructor (catalogo: seq<Produto>, bancoDisponivel: bool, logger: Logger, http: HttpContext?, storage: StorageService)
      ensures this.catalogo == catalogo && this.bancoDisponivel == bancoDisponivel
      ensures this.logger == logger && this.http == http && this.storage == storage
    {
      this.catalogo := catalogo;
      this.bancoDisponivel := bancoDisponivel;
      this.logger := logger;
      this.http := http;
      this.storage := storage;
    }

    /** ObterProdutoAsync: the selected product (None when nothing admits the
        request), or the connection fault. Either way the span is disposed on
        the way out, so it is logged and recorded as a success of
        "db_obter_produto"; `leitura` is its stopwatch reading then. */
    method ObterProduto(valor: real, prazo: int, leitura: real) returns (r: Result<Option<Produto>>)
      requires storage.Valid()
      modifies logger, storage
      ensures storage.Valid()
      ensures bancoDisponivel ==> r == Success(Selecionar(catalogo, valor, prazo))
      ensures !bancoDisponivel ==> r == Failure(DatabaseUnavailable)
      ensures logger.eventos == old(logger.eventos) + [SpanLog("db_obter_produto", Round2(leitura), CorrelacaoDoContexto(http))]
      ensures storage.disponivel == old(storage.disponivel) && storage.simulacoes == old(storage.simulacoes)
      ensures storage.telemetria == (if storage.disponivel
                                     then Registrar(old(storage.telemetria), "db_obter_produto", Round2(leitura), 200)
                                     else old(storage.telemetria))
    {
      var span := new SpanScope("db_obter_produto", logger, http, storage);
      if !bancoDisponivel {
        span.Dispose(leitura);
        return Failure(DatabaseUnavailable);
      }
      var prod := Selecionar(catalogo, valor, prazo);
      span.Dispose(leitura);
      return Success(prod);
    }
  }
}
