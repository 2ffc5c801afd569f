/**
 * The telemetria table of the local store, as values: one aggregate row per
 * service (call count, total, minimum and maximum duration, 2xx and non-2xx
 * counts), the UPDATE-else-INSERT rule that folds one observation into it, and
 * the report row computed from an aggregate. Durations are exact reals.
 */
module Telemetria {
  import opened Common
  import opened Models
  import opened Rounding

  /** One row of telemetria; min_ms and max_ms are nullable columns. */
  datatype Registro = Registro(
    chamadas: int,
    totalMs: real,
    minMs: Option<real>,
    maxMs: Option<real>,
    sucesso2xx: int,
    falhaN2xx: int)

  /** The table: service name (the primary key) to its row. */
  type Tabela = map<string, Registro>

  /** An HTTP status counts as a success exactly when it is 2xx. */
  predicate Sucesso(status: int)
  {
    200 <= status < 300
  }

  /** The INSERT of a service's first observation. */
  function Inserir(d: real, status: int): (r: Registro)
    ensures r.chamadas == 1 && r.totalMs == d && r.minMs == Some(d) && r.maxMs == Some(d)
    ensures Sucesso(status) ==> r.sucesso2xx == 1 && r.falhaN2xx == 0
    ensures !Sucesso(status) ==> r.sucesso2xx == 0 && r.falhaN2xx == 1
  {
    Registro(1, d, Some(d), Some(d), if Sucesso(status) then 1 else 0, if Sucesso(status) then 0 else 1)
  }

  /** The UPDATE of an existing row by one observation: one more call, d more
      milliseconds, the minimum and maximum (a NULL one becomes d), and one more
      success or failure. */
  function Atualizar(r: Registro, d: real, status: int): (r': Registro)
    ensures r'.chamadas == r.chamadas + 1 && r'.totalMs == r.totalMs + d
    ensures r'.minMs.Some? && r'.maxMs.Some?
    ensures r'.minMs.value <= d <= r'.maxMs.value
    ensures r.minMs.Some? ==> r'.minMs.value <= r.minMs.value && (r'.minMs.value == r.minMs.value || r'.minMs.value == d)
    ensures r.maxMs.Some? ==> r'.maxMs.value >= r.maxMs.value && (r'.maxMs.value == r.maxMs.value || r'.maxMs.value == d)
    ensures r.minMs.None? ==> r'.minMs == Some(d)
    ensures r.maxMs.None? ==> r'.maxMs == Some(d)
    ensures Sucesso(status) ==> r'.sucesso2xx == r.sucesso2xx + 1 && r'.falhaN2xx == r.falhaN2xx
    ensures !Sucesso(status) ==> r'.sucesso2xx == r.sucesso2xx && r'.falhaN2xx == r.falhaN2xx + 1
  {
    var ok := if Sucesso(status) then 1 else 0;
    Registro(
      r.chamadas + 1,
      r.totalMs + d,
      if r.minMs.None? || d < r.minMs.value then Some(d) else r.minMs,
      if r.maxMs.None? || d > r.maxMs.value then Some(d) else r.maxMs,
      r.sucesso2xx + ok,
      r.falhaN2xx + (1 - ok))
  }

  /** The table after one observation of `servico`: the UPDATE when the row
      exists, otherwise the INSERT. */
  function Registrar(t: Tabela, servico: string, d: real, status: int): (t': Tabela)
    ensures t'.Keys == t.Keys + {servico}
    ensures forall s :: s in t && s != servico ==> t'[s] == t[s]
    ensures servico in t ==> t'[servico] == Atualizar(t[servico], d, status)
    ensures servico !in t ==> t'[servico] == Inserir(d, status)
  {
    if servico in t then t[servico := Atualizar(t[servico], d, status)]
    else t[servico := Inserir(d, status)]
  }

  // ---------------------------------------------------------------------
  // The invariant every row keeps
  // ---------------------------------------------------------------------

  /** What a row written only by Inserir and Atualizar satisfies: every call is
      a success or a failure, minimum and maximum are set, and in exact
      arithmetic the mean duration lies between them. */
  ghost predicate Coerente(r: Registro)
  {
    && r.chamadas >= 1
    && r.sucesso2xx >= 0 && r.falhaN2xx >= 0
    && r.chamadas == r.sucesso2xx + r.falhaN2xx
    && r.minMs.Some? && r.maxMs.Some?
    && r.minMs.value <= r.maxMs.value
    && r.chamadas as real * r.minMs.value <= r.totalMs <= r.chamadas as real * r.maxMs.value
  }

  /** Every row of the table is Coerente. */
  ghost predicate TabelaCoerente(t: Tabela)
  {
    forall s :: s in t ==> Coerente(t[s])
  }

  lemma InserirCoerente(d: real, status: int)
    ensures Coerente(Inserir(d, status))
  {
  }

  /** c * m <= total and m' <= m, m' <= d give (c + 1) * m' <= total + d;
      symmetrically for the maximum. */
  lemma MediaEntreLimites(c: real, total: real, m: real, mx: real, d: real, m': real, mx': real)
    requires c >= 1.0
    requires c * m <= total <= c * mx
    requires m' <= m && m' <= d && mx' >= mx && mx' >= d
    ensures (c + 1.0) * m' <= total + d <= (c + 1.0) * mx'
  {
    assert c * m' <= c * m;
    assert c * mx <= c * mx';
  }

  /** The UPDATE keeps a row Coerente. */
  lemma AtualizarCoerente(r: Registro, d: real, status: int)
    requires Coerente(r)
    ensures Coerente(Atualizar(r, d, status))
  {
    var r' := Atualizar(r, d, status);
    MediaEntreLimites(r.chamadas as real, r.totalMs, r.minMs.value, r.maxMs.value, d, r'.minMs.value, r'.maxMs.value);
    assert r'.chamadas as real == r.chamadas as real + 1.0;
  }

  /** Recording keeps every row of the table Coerente. */
  lemma RegistrarCoerente(t: Tabela, servico: string, d: real, status: int)
    requires TabelaCoerente(t)
    ensures TabelaCoerente(Registrar(t, servico, d, status))
  {
    if servico in t {
      AtualizarCoerente(t[servico], d, status);
    } else {
      InserirCoerente(d, status);
    }
  }

  // ---------------------------------------------------------------------
  // A sequence of observations
  // ---------------------------------------------------------------------

  /** One recorded call: the service name, its duration and its status. */
  datatype Observacao = Observacao(servico: string, duracaoMs: real, status: int)

  /** The table after recording the observations in order. */
  function Acumular(t: Tabela, obs: seq<Observacao>): Tabela
  {
    if obs == [] then t
    else
      var o := obs[|obs| - 1];
      Registrar(Acumular(t, obs[..|obs| - 1]), o.servico, o.duracaoMs, o.status)
  }

  /** The observations of one service. */
  function DoServico(obs: seq<Observacao>, s: string): (r: seq<Observacao>)
    ensures |r| <= |obs|
    ensures forall o :: o in r <==> o in obs && o.servico == s
  {
    if obs == [] then []
    else
      var p := obs[..|obs| - 1];
      var o := obs[|obs| - 1];
      assert forall x :: x in obs <==> x in p || x == o;
      DoServico(p, s) + (if o.servico == s then [o] else [])
  }

  /** The number of observations with a 2xx status. */
  function Sucessos(obs: seq<Observacao>): (k: nat)
    ensures k <= |obs|
  {
    if obs == [] then 0
    else Sucessos(obs[..|obs| - 1]) + (if Sucesso(obs[|obs| - 1].status) then 1 else 0)
  }

  /** The total duration of observations. */
  function Duracao(obs: seq<Observacao>): real
  {
    if obs == [] then 0.0 else Duracao(obs[..|obs| - 1]) + obs[|obs| - 1].duracaoMs
  }

  /** The least duration of some observations: a lower bound that one of them reaches. */
  function MinDuracao(os: seq<Observacao>): (m: real)
    requires |os| > 0
    ensures forall o :: o in os ==> m <= o.duracaoMs
    ensures exists o :: o in os && o.duracaoMs == m
  {
    if |os| == 1 then os[0].duracaoMs
    else
      var p := os[..|os| - 1];
      var d := os[|os| - 1].duracaoMs;
      var m := MinDuracao(p);
      assert forall o :: o in os ==> o in p || o == os[|os| - 1];
      assert forall o :: o in p ==> o in os;
      if d < m then d else m
  }

  /** The greatest duration of some observations: an upper bound that one of them reaches. */
  function MaxDuracao(os: seq<Observacao>): (m: real)
    requires |os| > 0
    ensures forall o :: o in os ==> o.duracaoMs <= m
    ensures exists o :: o in os && o.duracaoMs == m
  {
    if |os| == 1 then os[0].duracaoMs
    else
      var p := os[..|os| - 1];
      var d := os[|os| - 1].duracaoMs;
      var m := MaxDuracao(p);
      assert forall o :: o in os ==> o in p || o == os[|os| - 1];
      assert forall o :: o in p ==> o in os;
      if d > m then d else m
  }

  /** Row r aggregates exactly the (at least one) observations os: the counts,
      the total, and the least and greatest duration. */
  ghost predicate Resume(r: Registro, os: seq<Observacao>)
  {
    && |os| > 0
    && r.chamadas == |os|
    && r.sucesso2xx == Sucessos(os)
    && r.falhaN2xx == |os| - Sucessos(os)
    && r.totalMs == Duracao(os)
    && r.minMs == Some(MinDuracao(os))
    && r.maxMs == Some(MaxDuracao(os))
  }

  /** The INSERT aggregates its one observation. */
  lemma ResumeInserir(o: Observacao)
    ensures Resume(Inserir(o.duracaoMs, o.status), [o])
  {
    assert [o][..0] == [];
  }

  /** The UPDATE by o of a row aggregating os aggregates os + [o]. */
  lemma ResumeAtualizar(r: Registro, os: seq<Observacao>, o: Observacao)
    requires Resume(r, os)
    ensures Resume(Atualizar(r, o.duracaoMs, o.status), os + [o])
  {
    assert (os + [o])[..|os|] == os;
  }

  /** The row of an observed service bounds every one of its durations by its
      minimum and maximum, and both are durations that were observed. */
  lemma ResumeExtremos(r: Registro, os: seq<Observacao>)
    requires Resume(r, os)
    ensures r.minMs.Some? && r.maxMs.Some?
    ensures forall o :: o in os ==> r.minMs.value <= o.duracaoMs <= r.maxMs.value
    ensures exists o :: o in os && o.duracaoMs == r.minMs.value
    ensures exists o :: o in os && o.duracaoMs == r.maxMs.value
  {
  }

  /** Starting from an empty table, a service has a row exactly when it was
      observed, and its row aggregates exactly its observations: calls,
      successes, failures, total duration, and the least and greatest duration. */
  lemma {:induction false} AcumularConta(obs: seq<Observacao>, s: string)
    ensures s in Acumular(map[], obs) <==> |DoServico(obs, s)| > 0
    ensures s in Acumular(map[], obs) ==> Resume(Acumular(map[], obs)[s], DoServico(obs, s))
  {
    if obs != [] {
      var p := obs[..|obs| - 1];
      var o := obs[|obs| - 1];
      var t := Acumular(map[], p);
      var os := DoServico(p, s);
      AcumularConta(p, s);
      assert Acumular(map[], obs) == Registrar(t, o.servico, o.duracaoMs, o.status);
      if o.servico == s {
        assert DoServico(obs, s) == os + [o];
        if s in t {
          ResumeAtualizar(t[s], os, o);
        } else {
          assert os == [];
          ResumeInserir(o);
        }
      } else {
        assert DoServico(obs, s) == os;
      }
    }
  }

  /** Starting from an empty table, the table after any observations is Coerente. */
  lemma {:induction false} AcumularCoerente(obs: seq<Observacao>)
    ensures TabelaCoerente(Acumular(map[], obs))
  {
    if obs != [] {
      var o := obs[|obs| - 1];
      AcumularCoerente(obs[..|obs| - 1]);
      RegistrarCoerente(Acumular(map[], obs[..|obs| - 1]), o.servico, o.duracaoMs, o.status);
    }
  }

  // ---------------------------------------------------------------------
  // The report row
  // ---------------------------------------------------------------------

  /** A nullable column read with IsDBNull ? 0.0. */
  function OuZero(x: Option<real>): real
  {
    if x.Some? then x.value else 0.0
  }

  /** The report row of one service: mean and success ratio (0 when there is no
      call), times rounded to two places and the ratio to four. */
  function LinhaRelatorio(servico: string, r: Registro): (e: EndpointTelemetry)
    ensures e.nomeApi == servico && e.qtdRequisicoes == r.chamadas
    ensures r.chamadas > 0 ==> e.tempoMedio == Round2(r.totalMs / r.chamadas as real)
    ensures r.chamadas > 0 ==> e.percentualSucesso == Round4(r.sucesso2xx as real / r.chamadas as real)
    ensures r.chamadas <= 0 ==> e.tempoMedio == 0.0 && e.percentualSucesso == 0.0
    ensures e.tempoMinimo == Round2(OuZero(r.minMs)) && e.tempoMaximo == Round2(OuZero(r.maxMs))
  {
    var avg := if r.chamadas > 0 then r.totalMs / r.chamadas as real else 0.0;
    var perc := if r.chamadas > 0 then r.sucesso2xx as real / r.chamadas as real else 0.0;
    Round2Fixes(0.0);
    NearestEvenUnique(0.0, 0);
    EndpointTelemetry(servico, r.chamadas, Round2(avg), Round2(OuZero(r.minMs)), Round2(OuZero(r.maxMs)), Round4(perc))
  }

  /** m <= total / c <= mx when c * m <= total <= c * mx and c > 0. */
  lemma MediaLimitada(c: real, total: real, m: real, mx: real)
    requires c > 0.0 && c * m <= total <= c * mx
    ensures m <= total / c <= mx
  {
    var q := total / c;
    assert q * c == total;
  }

  /** 0 <= k / c <= 1 for naturals k <= c, c > 0. */
  lemma RazaoUnitaria(k: int, c: int)
    requires 0 <= k <= c && c > 0
    ensures 0.0 <= k as real / c as real <= 1.0
  {
    var q := k as real / c as real;
    assert q * c as real == k as real;
  }

  /** For a Coerente row the reported mean lies between the reported minimum and
      maximum, and the success ratio lies in [0, 1]. */
  lemma LinhaRelatorioLimites(servico: string, r: Registro)
    requires Coerente(r)
    ensures var e := LinhaRelatorio(servico, r);
            && e.tempoMinimo <= e.tempoMedio <= e.tempoMaximo
            && 0.0 <= e.percentualSucesso <= 1.0
  {
    var c := r.chamadas as real;
    MediaLimitada(c, r.totalMs, r.minMs.value, r.maxMs.value);
    Round2Monotone(r.minMs.value, r.totalMs / c);
    Round2Monotone(r.totalMs / c, r.maxMs.value);
    RazaoUnitaria(r.sucesso2xx, r.chamadas);
    Round4UnitInterval(r.sucesso2xx as real / c);
  }

  // ---------------------------------------------------------------------
  // ORDER BY servico: the BINARY collation, code point by code point
  // ---------------------------------------------------------------------

  /** a sorts strictly before b: at the first differing position a has the
      smaller character, or a is a proper prefix of b. */
  predicate Antes(a: string, b: string)
  {
    if |a| == 0 then |b| > 0
    else if |b| == 0 then false
    else if a[0] < b[0] then true
    else if a[0] > b[0] then false
    else Antes(a[1..], b[1..])
  }

  lemma {:induction false} AntesIrreflexivo(a: string)
    ensures !Antes(a, a)
  {
    if |a| > 0 { AntesIrreflexivo(a[1..]); }
  }

  lemma {:induction false} AntesTransitivo(a: string, b: string, c: string)
    requires Antes(a, b) && Antes(b, c)
    ensures Antes(a, c)
  {
    if |a| > 0 && |b| > 0 && |c| > 0 && a[0] == b[0] && b[0] == c[0] {
      AntesTransitivo(a[1..], b[1..], c[1..]);
    }
  }

  /** Two different strings are ordered one way or the other. */
  lemma {:induction false} AntesTotal(a: string, b: string)
    requires a != b
    ensures Antes(a, b) || Antes(b, a)
  {
    if |a| > 0 && |b| > 0 && a[0] == b[0] {
      assert a == [a[0]] + a[1..] && b == [b[0]] + b[1..];
      AntesTotal(a[1..], b[1..]);
    }
  }

  lemma AntesAssimetrico(a: string, b: string)
    requires Antes(a, b)
    ensures !Antes(b, a)
  {
    if Antes(b, a) {
      AntesTransitivo(a, b, a);
      AntesIrreflexivo(a);
    }
  }

  /** The names strictly increase along s. */
  predicate Crescente(s: seq<string>)
  {
    forall i, j :: 0 <= i < j < |s| ==> Antes(s[i], s[j])
  }

  /** m is the first name of the set in collation order. */
  predicate Primeiro(s: set<string>, m: string)
  {
    m in s && forall x :: x in s && x != m ==> Antes(m, x)
  }

  /** Every non-empty set of names has a first one. */
  lemma {:induction false} ExistePrimeiro(s: set<string>)
    requires s != {}
    ensures exists m :: Primeiro(s, m)
    decreases |s|
  {
    var x :| x in s;
    if s == {x} {
      assert Primeiro(s, x);
    } else {
      ExistePrimeiro(s - {x});
      var m :| Primeiro(s - {x}, m);
      if Antes(x, m) {
        forall y | y in s && y != x ensures Antes(x, y) {
          if y != m { AntesTransitivo(x, m, y); }
        }
        assert Primeiro(s, x);
      } else {
        AntesTotal(x, m);
        assert Primeiro(s, m);
      }
    }
  }

  /** The first name of a set is unique. */
  lemma PrimeiroUnico(s: set<string>)
    ensures forall m, m' :: Primeiro(s, m) && Primeiro(s, m') ==> m == m'
  {
    forall m, m' | Primeiro(s, m) && Primeiro(s, m') ensures m == m' {
      if m != m' { AntesAssimetrico(m, m'); }
    }
  }

  /** The names of a set in collation order. */
  function Ordenar(s: set<string>): (r: seq<string>)
    ensures |r| == |s| && (forall x :: x in r <==> x in s) && Crescente(r)
    decreases |s|
  {
    if s == {} then []
    else
      ExistePrimeiro(s);
      PrimeiroUnico(s);
      var m :| Primeiro(s, m);
      var resto := Ordenar(s - {m});
      PrimeiroAntes(s, m, resto);
      [m] + resto
  }

  /** The first name followed by the rest in order is the whole set in order. */
  lemma PrimeiroAntes(s: set<string>, m: string, resto: seq<string>)
    requires Primeiro(s, m)
    requires |resto| == |s - {m}| && (forall x :: x in resto <==> x in s - {m}) && Crescente(resto)
    ensures |[m] + resto| == |s| && (forall x :: x in [m] + resto <==> x in s) && Crescente([m] + resto)
  {
    var r := [m] + resto;
    forall i, j | 0 <= i < j < |r| ensures Antes(r[i], r[j]) {
      assert r[j] == resto[j - 1];
      if i == 0 {
        assert resto[j - 1] in s - {m};
      } else {
        assert r[i] == resto[i - 1];
      }
    }
  }
}
