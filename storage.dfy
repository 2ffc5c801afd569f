/**
 * StorageService: the local store's two tables as the state of one object.
 * telemetria is keyed by service name; simulacoes is a rowid table whose key is
 * id_simulacao, so it is kept as its rows in increasing id order, the order in
 * which the store scans it. Opening or writing the store can fail, which
 * `disponivel` stands for. Serialising an envelope to JSON and back is taken to
 * be the identity, so rows hold the envelope itself.
 */
module Armazenamento {
  import opened Common
  import opened Models
  import opened Rounding
  import opened Telemetria

  /** One row of simulacoes; `dataCriacao` is the UTC date of created_at. */
  datatype SimulacaoGravada = SimulacaoGravada(
    id: int,
    codigoProduto: int,
    descricaoProduto: string,
    taxaJuros: real,
    valorDesejado: real,
    prazo: int,
    envelope: Envelope,
    dataCriacao: Date,
    durationMs: real)

  /** The ids strictly increase along the rows: the primary key is unique and
      the rows are in rowid order. */
  predicate IdsCrescentes(s: seq<SimulacaoGravada>)
  {
    forall i, j :: 0 <= i < j < |s| ==> s[i].id < s[j].id
  }

  /** Some row carries this id. */
  predicate TemId(s: seq<SimulacaoGravada>, id: int)
  {
    exists i :: 0 <= i < |s| && s[i].id == id
  }

  /** The rows after inserting g at its place in id order. */
  function InserirPorId(s: seq<SimulacaoGravada>, g: SimulacaoGravada): (r: seq<SimulacaoGravada>)
    ensures |r| == |s| + 1 && multiset(r) == multiset(s) + multiset{g}
    ensures forall x :: x in r <==> x in s || x == g
  {
    if s == [] then [g]
    else if g.id < s[0].id then [g] + s
    else
      var r := [s[0]] + InserirPorId(s[1..], g);
      assert s == [s[0]] + s[1..];
      r
  }

  /** Inserting an id that is not stored keeps the ids increasing. */
  lemma {:induction false} InserirPorIdCrescente(s: seq<SimulacaoGravada>, g: SimulacaoGravada)
    requires IdsCrescentes(s) && !TemId(s, g.id)
    ensures IdsCrescentes(InserirPorId(s, g))
  {
    if s != [] && g.id >= s[0].id {
      assert g.id != s[0].id;
      assert !TemId(s[1..], g.id) by {
        forall i | 0 <= i < |s[1..]| ensures s[1..][i].id != g.id { assert s[1..][i] == s[i + 1]; }
      }
      InserirPorIdCrescente(s[1..], g);
      var r := InserirPorId(s[1..], g);
      forall x | x in r ensures s[0].id < x.id {
        if x != g {
          var k :| 0 <= k < |s[1..]| && s[1..][k] == x;
          assert s[k + 1] == x;
        }
      }
      AntesCrescente(s[0], r);
    }
  }

  /** A row whose id is below every id of an increasing sequence can lead it. */
  lemma AntesCrescente(h: SimulacaoGravada, r: seq<SimulacaoGravada>)
    requires IdsCrescentes(r) && forall x :: x in r ==> h.id < x.id
    ensures IdsCrescentes([h] + r)
  {
    var t := [h] + r;
    forall i, j | 0 <= i < j < |t| ensures t[i].id < t[j].id {
      assert t[j] == r[j - 1];
      if i > 0 {
        assert t[i] == r[i - 1];
      }
    }
  }

  // ---------------------------------------------------------------------
  // Totals of an envelope
  // ---------------------------------------------------------------------

  /** The sum of ValorPrestacao over installments. */
  function SomaPrestacoes(ps: seq<Parcela>): real
  {
    if ps == [] then 0.0 else SomaPrestacoes(ps[..|ps| - 1]) + ps[|ps| - 1].valorPrestacao
  }

  /** The sum of ValorPrestacao over every installment of every schedule. */
  function TotalParcelas(rs: seq<ResultadoSimulacao>): real
  {
    if rs == [] then 0.0 else TotalParcelas(rs[..|rs| - 1]) + SomaPrestacoes(rs[|rs| - 1].parcelas)
  }

  // ---------------------------------------------------------------------
  // Pagination
  // ---------------------------------------------------------------------

  const Int32Min := -0x8000_0000
  const Int32Max := 0x7FFF_FFFF

  predicate EhInt32(x: int)
  {
    Int32Min <= x <= Int32Max
  }

  /** Unchecked 32-bit two's-complement arithmetic: x modulo 2^32 into the int range. */
  function Int32(x: int): (r: int)
    ensures EhInt32(r)
    ensures (x - r) % 0x1_0000_0000 == 0
    ensures EhInt32(x) ==> r == x
  {
    (x - Int32Min) % 0x1_0000_0000 + Int32Min
  }

  /** A page number or size below 1 is taken as 1. */
  function AoMenosUm(x: int): (r: int)
    ensures r >= 1 && (x >= 1 ==> r == x)
  {
    if x < 1 then 1 else x
  }

  /** The OFFSET the store applies: (pagina - 1) * qtd in 32-bit arithmetic; a
      negative OFFSET skips nothing. */
  function Pulo(pagina: int, qtd: int): (k: int)
    ensures k >= 0
  {
    var skip := Int32((pagina - 1) * qtd);
    if skip < 0 then 0 else skip
  }

  /** At most `take` rows of s from position `skip` on. */
  function Janela<T>(s: seq<T>, skip: int, take: int): (w: seq<T>)
    requires skip >= 0 && take >= 0
    ensures |w| <= take
  {
    var a := if skip < |s| then skip else |s|;
    var b := if a + take < |s| then a + take else |s|;
    s[a..b]
  }

  /** The rows in decreasing id order (ORDER BY id_simulacao DESC). */
  function Decrescente(s: seq<SimulacaoGravada>): (r: seq<SimulacaoGravada>)
    ensures |r| == |s| && forall i :: 0 <= i < |s| ==> r[i] == s[|s| - 1 - i]
  {
    seq(|s|, i requires 0 <= i < |s| => s[|s| - 1 - i])
  }

  /** The rows of one page, after clamping the page number and size. */
  function RowsDaPagina(s: seq<SimulacaoGravada>, pagina: int, qtd: int): seq<SimulacaoGravada>
  {
    var p := AoMenosUm(pagina);
    var q := AoMenosUm(qtd);
    Janela(Decrescente(s), Pulo(p, q), q)
  }

  /** One listing entry: amount and the total of all installments, rounded to cents. */
  function Resumo(g: SimulacaoGravada): SimulacaoResumo
  {
    SimulacaoResumo(g.id, Round2(g.valorDesejado), g.prazo, Round2(TotalParcelas(g.envelope.resultadoSimulacao)))
  }

  /** The listing entries of some rows, in order. */
  function Resumos(rows: seq<SimulacaoGravada>): (r: seq<SimulacaoResumo>)
    ensures |r| == |rows|
  {
    if rows == [] then [] else Resumos(rows[..|rows| - 1]) + [Resumo(rows[|rows| - 1])]
  }

  lemma {:induction false} ResumosIndex(rows: seq<SimulacaoGravada>, k: int)
    requires 0 <= k < |rows|
    ensures Resumos(rows)[k] == Resumo(rows[k])
  {
    if k < |rows| - 1 {
      ResumosIndex(rows[..|rows| - 1], k);
    }
  }

  /** Reversing rows with increasing ids gives strictly decreasing ids. */
  lemma DecrescenteIds(s: seq<SimulacaoGravada>)
    requires IdsCrescentes(s)
    ensures var d := Decrescente(s);
            forall i, j :: 0 <= i < j < |d| ==> d[i].id > d[j].id
  {
  }

  /** The elements of a window, and where they come from. */
  lemma JanelaIndice<T>(s: seq<T>, skip: int, take: int)
    requires skip >= 0 && take >= 0
    ensures var w := Janela(s, skip, take);
            && (|w| == 0 || skip + |w| <= |s|)
            && forall i :: 0 <= i < |w| ==> skip + i < |s| && w[i] == s[skip + i]
  {
  }

  /** A page of a table with increasing ids lists stored rows by strictly
      decreasing id, and no more than the (clamped) page size of them. */
  lemma PaginaOrdenada(s: seq<SimulacaoGravada>, pagina: int, qtd: int)
    requires IdsCrescentes(s)
    ensures var w := RowsDaPagina(s, pagina, qtd);
            && |w| <= AoMenosUm(qtd)
            && (forall x :: x in w ==> x in s)
            && forall i, j :: 0 <= i < j < |w| ==> w[i].id > w[j].id
  {
    var d := Decrescente(s);
    var k := Pulo(AoMenosUm(pagina), AoMenosUm(qtd));
    var w := RowsDaPagina(s, pagina, qtd);
    DecrescenteIds(s);
    JanelaIndice(d, k, AoMenosUm(qtd));
    forall x | x in w ensures x in s {
      var i :| 0 <= i < |w| && w[i] == x;
      assert d[k + i] in s;
    }
  }

  /** While (pagina - 1) * qtd fits in 32 bits, the row at position j of the
      decreasing order is the (j mod qtd)-th row of page j div qtd + 1: paging
      through the listing meets every stored row exactly where expected. */
  lemma PaginaContem(s: seq<SimulacaoGravada>, qtd: int, j: int)
    requires qtd >= 1 && 0 <= j < |s|
    requires (j / qtd) * qtd <= Int32Max
    ensures var w := RowsDaPagina(s, j / qtd + 1, qtd);
            j % qtd < |w| && w[j % qtd] == Decrescente(s)[j]
  {
    var p := j / qtd + 1;
    assert AoMenosUm(p) == p;
    assert (p - 1) * qtd == (j / qtd) * qtd;
    assert Pulo(p, qtd) == (j / qtd) * qtd;
    assert (j / qtd) * qtd + j % qtd == j;
  }

  /** The 32-bit OFFSET wraps: page 65537 of size 65536 starts at offset 0 and
      lists the same rows as page 1. */
  lemma PaginaEstouro(s: seq<SimulacaoGravada>)
    ensures Pulo(65537, 65536) == 0
    ensures RowsDaPagina(s, 65537, 65536) == RowsDaPagina(s, 1, 65536)
  {
    assert (65537 - 1) * 65536 == 0x1_0000_0000;
  }

  // ---------------------------------------------------------------------
  // Volume per product and day
  // ---------------------------------------------------------------------

  /** What one row contributes to its product's bucket. */
  datatype Entrada = Entrada(taxa: real, valorDesejado: real, totalParcelas: real, desc: string)

  function EntradaDe(g: SimulacaoGravada): Entrada
  {
    Entrada(g.taxaJuros, g.valorDesejado, TotalParcelas(g.envelope.resultadoSimulacao), g.descricaoProduto)
  }

  /** The rows created on a given (UTC) date, in scan order. */
  function DoDia(s: seq<SimulacaoGravada>, data: Date): (r: seq<SimulacaoGravada>)
    ensures forall x :: x in r <==> x in s && x.dataCriacao == data
  {
    if s == [] then []
    else DoDia(s[..|s| - 1], data) + (if s[|s| - 1].dataCriacao == data then [s[|s| - 1]] else [])
  }

  /** The product codes in the order they first appear (the bucket dictionary's
      insertion order). */
  function Codigos(rows: seq<SimulacaoGravada>): (cs: seq<int>)
    ensures forall c :: c in cs <==> exists i :: 0 <= i < |rows| && rows[i].codigoProduto == c
    ensures forall i, j :: 0 <= i < j < |cs| ==> cs[i] != cs[j]
  {
    if rows == [] then []
    else
      var p := rows[..|rows| - 1];
      var c := rows[|rows| - 1].codigoProduto;
      var cp := Codigos(p);
      assert forall i :: 0 <= i < |p| ==> p[i] == rows[i];
      cp + (if c in cp then [] else [c])
  }

  /** The bucket of product c: the entries of its rows, in order. */
  function Grupo(rows: seq<SimulacaoGravada>, c: int): (g: seq<Entrada>)
    ensures |g| > 0 <==> exists i :: 0 <= i < |rows| && rows[i].codigoProduto == c
  {
    if rows == [] then []
    else
      var p := rows[..|rows| - 1];
      assert forall i :: 0 <= i < |p| ==> p[i] == rows[i];
      Grupo(p, c) + (if rows[|rows| - 1].codigoProduto == c then [EntradaDe(rows[|rows| - 1])] else [])
  }

  /** Every entry of the bucket of c is the entry of a row with code c. */
  lemma {:induction false} GrupoOrigem(rows: seq<SimulacaoGravada>, c: int)
    ensures forall e :: e in Grupo(rows, c) ==>
              exists i :: 0 <= i < |rows| && rows[i].codigoProduto == c && EntradaDe(rows[i]) == e
  {
    if rows != [] {
      var p := rows[..|rows| - 1];
      GrupoOrigem(p, c);
      forall e | e in Grupo(rows, c)
        ensures exists i :: 0 <= i < |rows| && rows[i].codigoProduto == c && EntradaDe(rows[i]) == e
      {
        if e in Grupo(p, c) {
          var i :| 0 <= i < |p| && p[i].codigoProduto == c && EntradaDe(p[i]) == e;
          assert rows[i] == p[i];
        } else {
          assert rows[|rows| - 1].codigoProduto == c && EntradaDe(rows[|rows| - 1]) == e;
        }
      }
    }
  }

  function SomaTaxas(g: seq<Entrada>): real
  {
    if g == [] then 0.0 else SomaTaxas(g[..|g| - 1]) + g[|g| - 1].taxa
  }

  function SomaDesejado(g: seq<Entrada>): real
  {
    if g == [] then 0.0 else SomaDesejado(g[..|g| - 1]) + g[|g| - 1].valorDesejado
  }

  function SomaCredito(g: seq<Entrada>): real
  {
    if g == [] then 0.0 else SomaCredito(g[..|g| - 1]) + g[|g| - 1].totalParcelas
  }

  /** The report item of one non-empty bucket: the first row's description, the
      mean rate to six places, the mean installment total and both sums to cents. */
  function ItemVolume(c: int, g: seq<Entrada>): VolumeProdutoItem
    requires |g| > 0
  {
    var n := |g| as real;
    VolumeProdutoItem(
      c,
      g[0].desc,
      Round6(SomaTaxas(g) / n),
      Round2(SomaCredito(g) / n),
      Round2(SomaDesejado(g)),
      Round2(SomaCredito(g)))
  }

  /** The items of the given codes, in order. */
  function ItensVolume(rows: seq<SimulacaoGravada>, cs: seq<int>): (r: seq<VolumeProdutoItem>)
    requires forall i :: 0 <= i < |cs| ==> |Grupo(rows, cs[i])| > 0
    ensures |r| == |cs|
  {
    if cs == [] then []
    else
      assert forall i :: 0 <= i < |cs| - 1 ==> cs[..|cs| - 1][i] == cs[i];
      ItensVolume(rows, cs[..|cs| - 1]) + [ItemVolume(cs[|cs| - 1], Grupo(rows, cs[|cs| - 1]))]
  }

  /** The volume report of the rows created on one date. */
  function Volume(s: seq<SimulacaoGravada>, data: Date): (r: VolumePorProdutoDia)
    ensures r.dataReferencia == data
    ensures var rows := DoDia(s, data);
            |r.simulacoes| == |Codigos(rows)|
  {
    var rows := DoDia(s, data);
    var cs := Codigos(rows);
    CodigosComGrupo(rows);
    VolumePorProdutoDia(data, ItensVolume(rows, cs))
  }

  /** Item i of the list belongs to code i. */
  lemma {:induction false} ItensVolumeIndex(rows: seq<SimulacaoGravada>, cs: seq<int>, i: int)
    requires forall j :: 0 <= j < |cs| ==> |Grupo(rows, cs[j])| > 0
    requires 0 <= i < |cs|
    ensures ItensVolume(rows, cs)[i] == ItemVolume(cs[i], Grupo(rows, cs[i]))
  {
    if i < |cs| - 1 {
      assert forall j :: 0 <= j < |cs| - 1 ==> cs[..|cs| - 1][j] == cs[j];
      ItensVolumeIndex(rows, cs[..|cs| - 1], i);
    }
  }

  /** A product code occurs among the day's rows exactly when some row of that
      day was simulated with it. */
  lemma CodigosDoDia(s: seq<SimulacaoGravada>, data: Date, c: int)
    ensures c in Codigos(DoDia(s, data)) <==> exists g :: g in s && g.dataCriacao == data && g.codigoProduto == c
  {
    var rows := DoDia(s, data);
    if c in Codigos(rows) {
      var j :| 0 <= j < |rows| && rows[j].codigoProduto == c;
      assert rows[j] in rows;
    }
  }

  /** The volume report has one item per distinct product code of the day's
      rows (each code occurring once, by the contract of Codigos), in order of
      first appearance. */
  lemma VolumeProdutos(s: seq<SimulacaoGravada>, data: Date)
    ensures var r := Volume(s, data);
            var cs := Codigos(DoDia(s, data));
            |r.simulacoes| == |cs| && forall i :: 0 <= i < |cs| ==> r.simulacoes[i].codigoProduto == cs[i]
  {
    var rows := DoDia(s, data);
    var cs := Codigos(rows);
    CodigosComGrupo(rows);
    forall i | 0 <= i < |cs| ensures Volume(s, data).simulacoes[i].codigoProduto == cs[i] {
      ItensVolumeIndex(rows, cs, i);
    }
  }

  /** The number of entries in the buckets of the codes cs. */
  function TamanhoGrupos(rows: seq<SimulacaoGravada>, cs: seq<int>): nat
  {
    if cs == [] then 0 else TamanhoGrupos(rows, cs[..|cs| - 1]) + |Grupo(rows, cs[|cs| - 1])|
  }

  /** Reading a row of another code leaves the sizes of cs's buckets alone. */
  lemma {:induction false} TamanhoOutro(p: seq<SimulacaoGravada>, g: SimulacaoGravada, cs: seq<int>)
    requires g.codigoProduto !in cs
    ensures TamanhoGrupos(p + [g], cs) == TamanhoGrupos(p, cs)
  {
    var q := p + [g];
    assert q[..|q| - 1] == p;
    if cs != [] {
      assert Grupo(q, cs[|cs| - 1]) == Grupo(p, cs[|cs| - 1]);
      TamanhoOutro(p, g, cs[..|cs| - 1]);
    }
  }

  /** Reading a row of one of the distinct codes cs adds one entry to their buckets. */
  lemma {:induction false} TamanhoMesmo(p: seq<SimulacaoGravada>, g: SimulacaoGravada, cs: seq<int>)
    requires g.codigoProduto in cs
    requires forall i, j :: 0 <= i < j < |cs| ==> cs[i] != cs[j]
    ensures TamanhoGrupos(p + [g], cs) == TamanhoGrupos(p, cs) + 1
  {
    var q := p + [g];
    var c := g.codigoProduto;
    var ini := cs[..|cs| - 1];
    assert q[..|q| - 1] == p;
    assert |Grupo(q, cs[|cs| - 1])| == |Grupo(p, cs[|cs| - 1])| + (if cs[|cs| - 1] == c then 1 else 0);
    if cs[|cs| - 1] == c {
      assert c !in ini by {
        forall i | 0 <= i < |ini| ensures ini[i] != c { assert ini[i] == cs[i]; }
      }
      TamanhoOutro(p, g, ini);
    } else {
      assert c in ini by {
        var i :| 0 <= i < |cs| && cs[i] == c;
        assert ini[i] == c;
      }
      TamanhoMesmo(p, g, ini);
    }
  }

  /** Reading the first row of a new code adds that code's one-entry bucket. */
  lemma TamanhoNovo(p: seq<SimulacaoGravada>, g: SimulacaoGravada, cp: seq<int>)
    requires g.codigoProduto !in cp
    requires |Grupo(p, g.codigoProduto)| == 0
    ensures TamanhoGrupos(p + [g], cp + [g.codigoProduto]) == TamanhoGrupos(p, cp) + 1
  {
    var q := p + [g];
    var cs := cp + [g.codigoProduto];
    assert q[..|q| - 1] == p;
    assert cs[..|cs| - 1] == cp;
    TamanhoOutro(p, g, cp);
    assert |Grupo(q, g.codigoProduto)| == 1;
  }

  /** The buckets partition the rows: every row read lands in exactly one bucket. */
  lemma {:induction false} GruposParticionam(rows: seq<SimulacaoGravada>)
    ensures TamanhoGrupos(rows, Codigos(rows)) == |rows|
  {
    if rows != [] {
      var p := rows[..|rows| - 1];
      var g := rows[|rows| - 1];
      var cp := Codigos(p);
      assert rows == p + [g];
      GruposParticionam(p);
      if g.codigoProduto in cp {
        assert Codigos(rows) == cp;
        TamanhoMesmo(p, g, cp);
      } else {
        assert Codigos(rows) == cp + [g.codigoProduto];
        assert |Grupo(p, g.codigoProduto)| == 0;
        TamanhoNovo(p, g, cp);
      }
    }
  }

  // ---------------------------------------------------------------------
  // The service
  // ---------------------------------------------------------------------

  class StorageService {
    /** Whether the store can be opened and written. */
    var disponivel: bool
    var telemetria: Tabela
    var simulacoes: seq<SimulacaoGravada>

    /** What every operation keeps: each telemetria row is Coerente, and the
        simulation ids are unique and in rowid order. */
    ghost predicate Valid()
      reads this
    {
      TabelaCoerente(telemetria) && IdsCrescentes(simulacoes)
    }

    /** A store whose tables are empty (as EnsureDb leaves a new file). */
    constructor (disponivel: bool)
      ensures Valid()
      ensures this.disponivel == disponivel && telemetria == map[] && simulacoes == []
    {
      this.disponivel := disponivel;
      telemetria := map[];
      simulacoes := [];
    }

    /** RecordTelemetryAsync: UPDATE the service's row, or INSERT it when no
        row was updated. */
    method RecordTelemetry(servico: string, durationMs: real, status: int) returns (r: Result<()>)
      requires Valid()
      modifies this
      ensures Valid()
      ensures disponivel == old(disponivel) && simulacoes == old(simulacoes)
      ensures !disponivel ==> r == Failure(StorageUnavailable) && telemetria == old(telemetria)
      ensures disponivel ==> r == Success(()) && telemetria == Registrar(old(telemetria), servico, durationMs, status)
    {
      if !disponivel { return Failure(StorageUnavailable); }
      RegistrarCoerente(telemetria, servico, durationMs, status);
      if servico in telemetria {
        telemetria := telemetria[servico := Atualizar(telemetria[servico], durationMs, status)];
      } else {
        telemetria := telemetria[servico := Inserir(durationMs, status)];
      }
      return Success(());
    }

    /** SaveSimulacaoAsync: INSERT one row; an id already stored violates the
        primary key. `hoje` is the UTC date created_at takes. */
    method SaveSimulacao(envelope: Envelope, valorDesejado: real, prazo: int, durationMs: real, hoje: Date)
      returns (r: Result<()>)
      requires Valid()
      modifies this
      ensures Valid()
      ensures disponivel == old(disponivel) && telemetria == old(telemetria)
      ensures !disponivel ==> r == Failure(StorageUnavailable) && simulacoes == old(simulacoes)
      ensures disponivel && TemId(old(simulacoes), envelope.idSimulacao) ==>
                r == Failure(UniqueConstraint) && simulacoes == old(simulacoes)
      ensures disponivel && !TemId(old(simulacoes), envelope.idSimulacao) ==>
                r == Success(()) &&
                simulacoes == InserirPorId(old(simulacoes), SimulacaoGravada(
                  envelope.idSimulacao, envelope.codigoProduto, envelope.descricaoProduto,
                  envelope.taxaJuros, valorDesejado, prazo, envelope, hoje, durationMs))
    {
      if !disponivel { return Failure(StorageUnavailable); }
      if TemId(simulacoes, envelope.idSimulacao) { return Failure(UniqueConstraint); }
      var linha := SimulacaoGravada(
        envelope.idSimulacao, envelope.codigoProduto, envelope.descricaoProduto,
        envelope.taxaJuros, valorDesejado, prazo, envelope, hoje, durationMs);
      InserirPorIdCrescente(simulacoes, linha);
      simulacoes := InserirPorId(simulacoes, linha);
      return Success(());
    }

    /** GetSimulacoesPaginadas: clamp page and size, count the rows, then read one
        page of the id-descending order, summarising each row. */
    method GetSimulacoesPaginadas(pagina: int, qtdRegistrosPagina: int) returns (r: Result<ListaSimulacoes>)
      requires EhInt32(pagina) && EhInt32(qtdRegistrosPagina)
      ensures !disponivel ==> r == Failure(StorageUnavailable)
      ensures disponivel ==> r.Success?
      ensures r.Success? ==>
                && r.value.pagina == AoMenosUm(pagina)
                && r.value.qtdRegistrosPagina == AoMenosUm(qtdRegistrosPagina)
                && r.value.qtdRegistros == |simulacoes|
                && r.value.registros == Resumos(RowsDaPagina(simulacoes, pagina, qtdRegistrosPagina))
    {
      if !disponivel { return Failure(StorageUnavailable); }
      var p := pagina;
      var q := qtdRegistrosPagina;
      if p < 1 { p := 1; }
      if q < 1 { q := 1; }
      var total := |simulacoes|;
      var skip := Int32((p - 1) * q);
      var lidas := Janela(Decrescente(simulacoes), if skip < 0 then 0 else skip, q);
      assert lidas == RowsDaPagina(simulacoes, pagina, qtdRegistrosPagina);
      var regs: seq<SimulacaoResumo> := [];
      var i := 0;
      while i < |lidas|
        invariant 0 <= i <= |lidas|
        invariant regs == Resumos(lidas[..i])
      {
        var g := lidas[i];
        var totalParcelas := TotalParcelas(g.envelope.resultadoSimulacao);
        regs := regs + [SimulacaoResumo(g.id, Round2(g.valorDesejado), g.prazo, Round2(totalParcelas))];
        assert lidas[..i + 1][..i] == lidas[..i];
        i := i + 1;
      }
      assert lidas[..|lidas|] == lidas;
      return Success(ListaSimulacoes(p, total, q, regs));
    }

    /** GetTelemetryReport: one row per service, in collation order of the name. */
    method GetTelemetryReport(data: Date) returns (r: Result<TelemetryReport>)
      ensures !disponivel ==> r == Failure(StorageUnavailable)
      ensures disponivel ==> r.Success?
      ensures r.Success? ==>
                var ks := Ordenar(telemetria.Keys);
                && r.value.dataReferencia == data
                && |r.value.listaEndpoints| == |ks|
                && forall i :: 0 <= i < |ks| ==> r.value.listaEndpoints[i] == LinhaRelatorio(ks[i], telemetria[ks[i]])
    {
      if !disponivel { return Failure(StorageUnavailable); }
      var ks := Ordenar(telemetria.Keys);
      var itens: seq<EndpointTelemetry> := [];
      var i := 0;
      while i < |ks|
        invariant 0 <= i <= |ks|
        invariant |itens| == i
        invariant forall j :: 0 <= j < i ==> itens[j] == LinhaRelatorio(ks[j], telemetria[ks[j]])
      {
        var serv := ks[i];
        var reg := telemetria[serv];
        itens := itens + [LinhaRelatorio(serv, reg)];
        i := i + 1;
      }
      return Success(TelemetryReport(data, itens));
    }

    /** GetVolumePorProdutoDia: bucket the day's rows by product code in order of
        first appearance, then emit one item per bucket. */
    method GetVolumePorProdutoDia(data: Date) returns (r: Result<VolumePorProdutoDia>)
      ensures !disponivel ==> r == Failure(StorageUnavailable)
      ensures disponivel ==> r == Success(Volume(simulacoes, data))
    {
      if !disponivel { return Failure(StorageUnavailable); }
      var rows := DoDia(simulacoes, data);
      var bucket, ordem := Agrupar(rows);
      var itens := Itens(rows, bucket, ordem);
      return Success(VolumePorProdutoDia(data, itens));
    }
  }

  /** The reading loop of GetVolumePorProdutoDia: each row's entry goes to its
      product's list, created on first sight. */
  method Agrupar(rows: seq<SimulacaoGravada>) returns (bucket: map<int, seq<Entrada>>, ordem: seq<int>)
    ensures BucketDe(rows, bucket, ordem)
  {
    bucket := map[];
    ordem := [];
    var i := 0;
    while i < |rows|
      invariant 0 <= i <= |rows|
      invariant BucketDe(rows[..i], bucket, ordem)
    {
      var g := rows[i];
      var cod := g.codigoProduto;
      ghost var bucket0, ordem0 := bucket, ordem;
      var list := if cod in bucket then bucket[cod] else [];  // TryGetValue, else a new list
      if cod !in bucket {
        ordem := ordem + [cod];
      }
      bucket := bucket[cod := list + [EntradaDe(g)]];
      BucketPasso(rows, i, bucket0, ordem0, bucket, ordem);
      i := i + 1;
    }
    assert rows[..|rows|] == rows;
  }

  /** The loop over the buckets of GetVolumePorProdutoDia: one item per code,
      in dictionary order. */
  method Itens(rows: seq<SimulacaoGravada>, bucket: map<int, seq<Entrada>>, ordem: seq<int>)
    returns (itens: seq<VolumeProdutoItem>)
    requires BucketDe(rows, bucket, ordem)
    ensures forall i :: 0 <= i < |Codigos(rows)| ==> |Grupo(rows, Codigos(rows)[i])| > 0
    ensures itens == ItensVolume(rows, Codigos(rows))
  {
    CodigosComGrupo(rows);
    itens := [];
    var k := 0;
    while k < |ordem|
      invariant 0 <= k <= |ordem|
      invariant itens == ItensVolume(rows, ordem[..k])
    {
      var cod := ordem[k];
      var arr := bucket[cod];
      var n := |arr| as real;
      ItensPasso(rows, bucket, ordem, k);
      itens := itens + [VolumeProdutoItem(
        cod,
        arr[0].desc,
        Round6(SomaTaxas(arr) / n),
        Round2(SomaCredito(arr) / n),
        Round2(SomaDesejado(arr)),
        Round2(SomaCredito(arr)))];
      k := k + 1;
    }
    assert ordem[..|ordem|] == ordem;
  }

  /** One turn of that loop adds the item of the k-th key's bucket. */
  lemma ItensPasso(rows: seq<SimulacaoGravada>, bucket: map<int, seq<Entrada>>, ordem: seq<int>, k: int)
    requires BucketDe(rows, bucket, ordem) && 0 <= k < |ordem|
    ensures ordem[k] in bucket && |bucket[ordem[k]]| > 0
    ensures forall i :: 0 <= i < |ordem| ==> |Grupo(rows, ordem[i])| > 0
    ensures ItensVolume(rows, ordem[..k + 1])
            == ItensVolume(rows, ordem[..k]) + [ItemVolume(ordem[k], bucket[ordem[k]])]
  {
    CodigosComGrupo(rows);
    var cs := ordem[..k + 1];
    assert cs[..|cs| - 1] == ordem[..k];
    assert cs[|cs| - 1] == ordem[k];
    assert bucket[ordem[k]] == Grupo(rows, ordem[k]);
  }

  /** Every code that occurs has a non-empty bucket. */
  lemma CodigosComGrupo(rows: seq<SimulacaoGravada>)
    ensures forall i :: 0 <= i < |Codigos(rows)| ==> |Grupo(rows, Codigos(rows)[i])| > 0
  {
    var cs := Codigos(rows);
    forall i | 0 <= i < |cs| ensures |Grupo(rows, cs[i])| > 0 {
      assert cs[i] in cs;
      var j :| 0 <= j < |rows| && rows[j].codigoProduto == cs[i];
    }
  }

  /** The dictionary state after reading the rows p: the codes in order of first
      appearance, and each code's list of entries. */
  ghost predicate BucketDe(p: seq<SimulacaoGravada>, bucket: map<int, seq<Entrada>>, ordem: seq<int>)
  {
    && ordem == Codigos(p)
    && (forall c :: c in bucket <==> c in ordem)
    && forall c :: c in bucket ==> bucket[c] == Grupo(p, c)
  }

  /** Reading one more row appends its entry to its code's list, creating the
      list (and the code's place in the order) on first sight. */
  lemma BucketPasso(rows: seq<SimulacaoGravada>, i: int,
                    bucket: map<int, seq<Entrada>>, ordem: seq<int>,
                    bucket': map<int, seq<Entrada>>, ordem': seq<int>)
    requires 0 <= i < |rows|
    requires BucketDe(rows[..i], bucket, ordem)
    requires ordem' == if rows[i].codigoProduto in bucket then ordem else ordem + [rows[i].codigoProduto]
    requires bucket' == bucket[rows[i].codigoProduto :=
               (if rows[i].codigoProduto in bucket then bucket[rows[i].codigoProduto] else []) + [EntradaDe(rows[i])]]
    ensures BucketDe(rows[..i + 1], bucket', ordem')
  {
    ChavesPasso(rows, i, bucket, ordem, bucket', ordem');
    ListasPasso(rows, i, bucket, ordem, bucket');
  }

  /** The keys after one more row are the codes of the longer prefix, in order. */
  lemma ChavesPasso(rows: seq<SimulacaoGravada>, i: int,
                    bucket: map<int, seq<Entrada>>, ordem: seq<int>,
                    bucket': map<int, seq<Entrada>>, ordem': seq<int>)
    requires 0 <= i < |rows|
    requires ordem == Codigos(rows[..i]) && forall k :: k in bucket <==> k in ordem
    requires ordem' == if rows[i].codigoProduto in bucket then ordem else ordem + [rows[i].codigoProduto]
    requires bucket'.Keys == bucket.Keys + {rows[i].codigoProduto}
    ensures ordem' == Codigos(rows[..i + 1])
    ensures forall k :: k in bucket' <==> k in ordem'
  {
    var c := rows[i].codigoProduto;
    CodigosPasso(rows, i);
    OrdemPasso(Codigos(rows[..i]), Codigos(rows[..i + 1]), c, bucket.Keys, ordem');
  }

  /** The key order after one more row, on the code sequences alone. */
  lemma OrdemPasso(cp: seq<int>, cq: seq<int>, c: int, chaves: set<int>, ordem': seq<int>)
    requires forall k :: k in chaves <==> k in cp
    requires cq == cp + (if c in cp then [] else [c])
    requires ordem' == if c in chaves then cp else cp + [c]
    ensures ordem' == cq
    ensures forall k :: k in chaves + {c} <==> k in ordem'
  {
  }

  /** The lists after one more row are the buckets of the longer prefix. */
  lemma ListasPasso(rows: seq<SimulacaoGravada>, i: int,
                    bucket: map<int, seq<Entrada>>, ordem: seq<int>, bucket': map<int, seq<Entrada>>)
    requires 0 <= i < |rows|
    requires BucketDe(rows[..i], bucket, ordem)
    requires bucket' == bucket[rows[i].codigoProduto :=
               (if rows[i].codigoProduto in bucket then bucket[rows[i].codigoProduto] else []) + [EntradaDe(rows[i])]]
    ensures forall k :: k in bucket' ==> bucket'[k] == Grupo(rows[..i + 1], k)
  {
    var c := rows[i].codigoProduto;
    if c !in bucket {
      SemGrupo(rows[..i], c);
    }
    forall k | k in bucket' ensures bucket'[k] == Grupo(rows[..i + 1], k) {
      GrupoPasso(rows, i, k);
    }
  }

  /** The codes after one more row: its code is appended unless already seen. */
  lemma CodigosPasso(rows: seq<SimulacaoGravada>, i: int)
    requires 0 <= i < |rows|
    ensures Codigos(rows[..i + 1]) == Codigos(rows[..i])
              + (if rows[i].codigoProduto in Codigos(rows[..i]) then [] else [rows[i].codigoProduto])
  {
    var q := rows[..i + 1];
    assert q[..|q| - 1] == rows[..i];
  }

  /** The bucket of k after one more row: the row's entry is appended when it is k's. */
  lemma GrupoPasso(rows: seq<SimulacaoGravada>, i: int, k: int)
    requires 0 <= i < |rows|
    ensures Grupo(rows[..i + 1], k) == Grupo(rows[..i], k)
              + (if rows[i].codigoProduto == k then [EntradaDe(rows[i])] else [])
  {
    var q := rows[..i + 1];
    assert q[..|q| - 1] == rows[..i];
  }

  /** A code that has not occurred has an empty bucket. */
  lemma SemGrupo(rows: seq<SimulacaoGravada>, c: int)
    requires c !in Codigos(rows)
    ensures Grupo(rows, c) == []
  {
  }

}
