/**
 * What the two amortisation tables promise, proved about the row functions
 * of Tabelas: both are schedules that repay the principal exactly at full
 * precision, PRICE keeps a level payment, SAC a constant amortisation, the
 * two coincide at a zero rate, and each table fails exactly when the source
 * throws.
 */
module TabelasLemmas {
  import opened Common
  import opened Models
  import opened Rounding
  import opened Tabelas

  /** Period l is number i, starts from balance s, charges interest s * t on it
      and pays amortisation plus interest. */
  ghost predicate Periodo(l: Linha, s: real, i: int, t: real)
  {
    l.numero == i && l.saldo == s && l.juros == s * t && l.prest == l.amort + l.juros
  }

  /** A repayment schedule numbered from i over principal s at rate t: each period
      fits Periodo, the next starts from the balance reduced by its amortisation,
      and the last period amortises what is left. */
  ghost predicate Cronograma(ls: seq<Linha>, s: real, i: int, t: real)
    decreases |ls|
  {
    && |ls| > 0
    && Periodo(ls[0], s, i, t)
    && if |ls| == 1 then ls[0].amort == s
       else Cronograma(ls[1..], s - ls[0].amort, i + 1, t)
  }

  /** The k-th period of a schedule, and how its balance follows from the previous one. */
  lemma {:induction false} CronogramaIndex(ls: seq<Linha>, s: real, i: int, t: real, k: int)
    requires Cronograma(ls, s, i, t) && 0 <= k < |ls|
    ensures ls[k].numero == i + k
    ensures ls[k].juros == ls[k].saldo * t
    ensures ls[k].prest == ls[k].amort + ls[k].juros
    ensures k == 0 ==> ls[k].saldo == s
    ensures k > 0 ==> ls[k].saldo == ls[k - 1].saldo - ls[k - 1].amort
    ensures k == |ls| - 1 ==> ls[k].amort == ls[k].saldo
    decreases k
  {
    if k > 0 {
      CronogramaIndex(ls[1..], s - ls[0].amort, i + 1, t, k - 1);
      assert ls[1..][k - 1] == ls[k];
      if k > 1 { assert ls[1..][k - 2] == ls[k - 1]; }
    }
  }

  /** A schedule repays its principal exactly: the amortisations sum to it, so
      the balance after the last period is zero. */
  lemma {:induction false} CronogramaQuita(ls: seq<Linha>, s: real, i: int, t: real)
    requires Cronograma(ls, s, i, t)
    ensures SomaAmort(ls) == s
    decreases |ls|
  {
    if |ls| == 1 {
      assert SomaAmort(ls[1..]) == 0.0;
    } else {
      CronogramaQuita(ls[1..], s - ls[0].amort, i + 1, t);
    }
  }

  // ---------------------------------------------------------------------
  // PRICE
  // ---------------------------------------------------------------------

  /** PRICE periods i..n form a schedule of n - i + 1 periods. */
  lemma {:induction false} PriceCronograma(s: real, i: int, n: int, t: real, p: real)
    requires i <= n
    ensures |LinhasPrice(s, i, n, t, p)| == n - i + 1
    ensures Cronograma(LinhasPrice(s, i, n, t, p), s, i, t)
    decreases n - i
  {
    var j := s * t;
    var a := if i == n then s else p - j;
    var l := Linha(i, s, a, j, if i == n then a + j else p);
    PriceCons(s, i, n, t, p, l);
    if i == n {
      assert LinhasPrice(s - a, i + 1, n, t, p) == [];
    } else {
      PriceCronograma(s - a, i + 1, n, t, p);
      assert LinhasPrice(s, i, n, t, p)[1..] == LinhasPrice(s - a, i + 1, n, t, p);
    }
  }

  /** Every PRICE period but the last pays exactly the level payment p. */
  lemma {:induction false} PriceNivelada(s: real, i: int, n: int, t: real, p: real)
    requires i <= n
    ensures |LinhasPrice(s, i, n, t, p)| == n - i + 1
    ensures forall k :: 0 <= k < n - i ==> LinhasPrice(s, i, n, t, p)[k].prest == p
    decreases n - i
  {
    var j := s * t;
    var a := if i == n then s else p - j;
    var l := Linha(i, s, a, j, if i == n then a + j else p);
    PriceCons(s, i, n, t, p, l);
    if i == n {
      assert LinhasPrice(s - a, i + 1, n, t, p) == [];
    } else {
      PriceNivelada(s - a, i + 1, n, t, p);
      var ls := LinhasPrice(s, i, n, t, p);
      forall k | 0 <= k < n - i ensures ls[k].prest == p {
        if k > 0 { assert ls[k] == LinhasPrice(s - a, i + 1, n, t, p)[k - 1]; }
      }
    }
  }

  /** b raised to the natural power k. */
  function Potencia(b: real, k: nat): real
  {
    if k == 0 then 1.0 else Potencia(b, k - 1) * b
  }

  /** One level-payment period multiplies saldo * t - p by 1 + t. */
  lemma PassoFechado(t: real, p: real, b0: real, b1: real)
    requires b1 == b0 + b0 * t - p
    ensures b1 * t - p == (b0 * t - p) * (1.0 + t)
  {
  }

  lemma Associa(a: real, b: real, c: real)
    ensures (a * b) * c == a * (b * c)
  {
  }

  /** The balance after k periods that each add the interest t and pay p, from v. */
  function SaldoNivelado(v: real, t: real, p: real, k: nat): real
  {
    if k == 0 then v else SaldoNivelado(v, t, p, k - 1) + SaldoNivelado(v, t, p, k - 1) * t - p
  }

  /** What the balance exceeds the perpetuity by, scaled by t: saldo * t - p. */
  function Excesso(v: real, t: real, p: real, k: nat): real
  {
    SaldoNivelado(v, t, p, k) * t - p
  }

  /** Closed form: Excesso grows geometrically, saldo * t - p == (v * t - p) * g^k, g = 1 + t. */
  lemma {:induction false} SaldoNiveladoFechado(v: real, t: real, p: real, k: nat)
    ensures Excesso(v, t, p, k) == Excesso(v, t, p, 0) * Potencia(1.0 + t, k)
    decreases k
  {
    if k > 0 {
      SaldoNiveladoFechado(v, t, p, k - 1);
      PassoFechado(t, p, SaldoNivelado(v, t, p, k - 1), SaldoNivelado(v, t, p, k));
      Associa(Excesso(v, t, p, 0), Potencia(1.0 + t, k - 1), 1.0 + t);
    }
  }

  /** A period that starts from SaldoNivelado(v, t, p, k - 1), charges interest on
      it and pays p leaves the balance SaldoNivelado(v, t, p, k). */
  lemma PassoNivelado(v: real, t: real, p: real, k: nat, l: Linha, b1: real)
    requires k >= 1 && l.saldo == SaldoNivelado(v, t, p, k - 1)
    requires l.juros == l.saldo * t && l.prest == l.amort + l.juros && l.prest == p
    requires b1 == l.saldo - l.amort
    ensures b1 == SaldoNivelado(v, t, p, k)
  {
  }

  /** Periods ls[0..m] each charge interest t on their balance, pay p, and hand on
      their balance reduced by their amortisation; the first starts from s. */
  ghost predicate Encadeada(ls: seq<Linha>, s: real, t: real, p: real, m: int)
  {
    && 0 <= m < |ls|
    && ls[0].saldo == s
    && (forall j :: 0 <= j < m ==> ls[j].juros == ls[j].saldo * t)
    && (forall j :: 0 <= j < m ==> ls[j].prest == ls[j].amort + ls[j].juros && ls[j].prest == p)
    && (forall j :: 0 <= j < m ==> ls[j + 1].saldo == ls[j].saldo - ls[j].amort)
  }

  /** Along such a chain the balance before period k is SaldoNivelado(s, t, p, k). */
  lemma {:induction false} EncadeadaNivelada(ls: seq<Linha>, s: real, t: real, p: real, m: int, k: nat)
    requires Encadeada(ls, s, t, p, m) && k <= m
    ensures ls[k].saldo == SaldoNivelado(s, t, p, k)
    decreases k
  {
    if k > 0 {
      EncadeadaNivelada(ls, s, t, p, m, k - 1);
      PassoNivelado(s, t, p, k, ls[k - 1], ls[k].saldo);
    }
  }

  /** A schedule whose every period but the last pays p is such a chain up to its last period. */
  lemma CronogramaEncadeada(ls: seq<Linha>, s: real, i: int, t: real, p: real)
    requires Cronograma(ls, s, i, t)
    requires forall j :: 0 <= j < |ls| - 1 ==> ls[j].prest == p
    ensures Encadeada(ls, s, t, p, |ls| - 1)
  {
    CronogramaIndex(ls, s, i, t, 0);
    forall j | 0 <= j < |ls| - 1
      ensures ls[j].juros == ls[j].saldo * t
      ensures ls[j].prest == ls[j].amort + ls[j].juros
      ensures ls[j + 1].saldo == ls[j].saldo - ls[j].amort
    {
      CronogramaIndex(ls, s, i, t, j);
      CronogramaIndex(ls, s, i, t, j + 1);
    }
  }

  /** The balance before PRICE period i + k is SaldoNivelado(s, t, p, k): every
      earlier period paid the level payment. */
  lemma PriceSaldo(s: real, i: int, n: int, t: real, p: real, k: nat)
    requires i <= n && k <= n - i
    ensures |LinhasPrice(s, i, n, t, p)| == n - i + 1
    ensures LinhasPrice(s, i, n, t, p)[k].saldo == SaldoNivelado(s, t, p, k)
  {
    PriceCronograma(s, i, n, t, p);
    PriceNivelada(s, i, n, t, p);
    var ls := LinhasPrice(s, i, n, t, p);
    CronogramaEncadeada(ls, s, i, t, p);
    EncadeadaNivelada(ls, s, t, p, n - i, k);
  }

  /** Dividing and multiplying back by a non-zero divisor is exact on the reals. */
  lemma Quociente(a: real, b: real)
    requires b != 0.0
    ensures (a / b) * b == a
  {
  }

  /** With a non-zero rate the level payment is v * t / (1 - pow). */
  lemma PrestacaoComJuros(v: real, n: int, t: real, pow: real)
    requires t != 0.0 && pow != 1.0
    ensures Prestacao(v, n, t, pow) == Success(v * t / (1.0 - pow))
  {
  }

  /** The last PRICE period pays its balance plus the interest on it. */
  lemma PriceUltima(v: real, n: int, t: real, p: real)
    requires n >= 1
    ensures |LinhasPrice(v, 1, n, t, p)| == n
    ensures LinhasPrice(v, 1, n, t, p)[n - 1].prest
            == LinhasPrice(v, 1, n, t, p)[n - 1].saldo + LinhasPrice(v, 1, n, t, p)[n - 1].saldo * t
  {
    PriceCronograma(v, 1, n, t, p);
    CronogramaIndex(LinhasPrice(v, 1, n, t, p), v, 1, t, n - 1);
  }

  /** A balance that follows the closed form with the exact Math.Pow factor
      (pow * g == 1, g = (1 + t)^n) and the payment p = v * t / (1 - pow) is zero. */
  lemma QuitaFechado(v: real, t: real, p: real, pow: real, g: real, s: real)
    requires t != 0.0
    requires pow * g == 1.0
    requires p * (1.0 - pow) == v * t
    requires s * t - p == (v * t - p) * g
    ensures s == 0.0
  {
    assert v * t - p == -(p * pow);
    assert -(p * pow) * g == -p * (pow * g);
    assert s * t == 0.0;
  }

  /** The level payment v * t / (1 - pow), with pow the exact (1 + t)^-n, leaves
      no balance after n periods. */
  lemma PrestacaoQuita(v: real, n: nat, t: real, pow: real, p: real)
    requires t != 0.0
    requires pow * Potencia(1.0 + t, n) == 1.0
    requires p * (1.0 - pow) == v * t
    ensures SaldoNivelado(v, t, p, n) == 0.0
  {
    SaldoNiveladoFechado(v, t, p, n);
    QuitaFechado(v, t, p, pow, Potencia(1.0 + t, n), SaldoNivelado(v, t, p, n));
  }

  /** A level payment p that leaves no balance after n periods is also what the
      last PRICE period pays, although that period amortises the whole remaining
      balance rather than p minus interest. */
  lemma PriceUltimaNivelada(v: real, n: int, t: real, p: real)
    requires n >= 1
    requires SaldoNivelado(v, t, p, n) == 0.0
    ensures |LinhasPrice(v, 1, n, t, p)| == n
    ensures LinhasPrice(v, 1, n, t, p)[n - 1].prest == p
  {
    PriceUltima(v, n, t, p);
    PriceSaldo(v, 1, n, t, p, n - 1);
  }

  /** When Math.Pow is exact and the rate is not zero, the last PRICE period pays
      the level payment as well: at full precision every installment is the same. */
  lemma PriceExata(v: real, n: int, t: real, pow: real)
    requires n >= 1 && t != 0.0 && pow != 1.0
    requires pow * Potencia(1.0 + t, n) == 1.0
    ensures Prestacao(v, n, t, pow) == Success(v * t / (1.0 - pow))
    ensures var ls := LinhasPrice(v, 1, n, t, v * t / (1.0 - pow));
            |ls| == n && forall k :: 0 <= k < n ==> ls[k].prest == v * t / (1.0 - pow)
  {
    PrestacaoComJuros(v, n, t, pow);
    var p := v * t / (1.0 - pow);
    Quociente(v * t, 1.0 - pow);
    PrestacaoQuita(v, n, t, pow, p);
    PriceNivelada(v, 1, n, t, p);
    PriceUltimaNivelada(v, n, t, p);
  }

  // ---------------------------------------------------------------------
  // SAC
  // ---------------------------------------------------------------------

  /** SAC periods i..n form a schedule of n - i + 1 periods. */
  lemma {:induction false} SacCronograma(s: real, i: int, n: int, t: real, c: real)
    requires i <= n
    ensures |LinhasSac(s, i, n, t, c)| == n - i + 1
    ensures Cronograma(LinhasSac(s, i, n, t, c), s, i, t)
    decreases n - i
  {
    var a := if i == n then s else c;
    var l := Linha(i, s, a, s * t, a + s * t);
    SacCons(s, i, n, t, c, l);
    if i == n {
      assert LinhasSac(s - a, i + 1, n, t, c) == [];
    } else {
      SacCronograma(s - a, i + 1, n, t, c);
      assert LinhasSac(s, i, n, t, c)[1..] == LinhasSac(s - a, i + 1, n, t, c);
    }
  }

  /** Every SAC period but the last amortises exactly c. */
  lemma {:induction false} SacConstante(s: real, i: int, n: int, t: real, c: real)
    requires i <= n
    ensures |LinhasSac(s, i, n, t, c)| == n - i + 1
    ensures forall k :: 0 <= k < n - i ==> LinhasSac(s, i, n, t, c)[k].amort == c
    decreases n - i
  {
    var a := if i == n then s else c;
    var l := Linha(i, s, a, s * t, a + s * t);
    SacCons(s, i, n, t, c, l);
    if i == n {
      assert LinhasSac(s - a, i + 1, n, t, c) == [];
    } else {
      var ls := LinhasSac(s, i, n, t, c);
      var resto := LinhasSac(s - a, i + 1, n, t, c);
      SacConstante(s - a, i + 1, n, t, c);
      forall k | 0 < k < n - i ensures ls[k].amort == c {
        assert ls[k] == resto[k - 1];
      }
    }
  }

  /** One more constant amortisation: s - (k - 1) * c - c == s - k * c. */
  lemma PassoConstante(s: real, c: real, k: int, b0: real, b1: real)
    requires b0 == s - (k - 1) as real * c && b1 == b0 - c
    ensures b1 == s - k as real * c
  {
  }

  /** The balance before SAC period i + k is s - k * c. */
  lemma {:induction false} SacSaldo(s: real, i: int, n: int, t: real, c: real, k: int)
    requires i <= n && 0 <= k <= n - i
    ensures |LinhasSac(s, i, n, t, c)| == n - i + 1
    ensures LinhasSac(s, i, n, t, c)[k].saldo == s - k as real * c
    decreases k
  {
    var ls := LinhasSac(s, i, n, t, c);
    SacCronograma(s, i, n, t, c);
    CronogramaIndex(ls, s, i, t, k);
    if k > 0 {
      SacSaldo(s, i, n, t, c, k - 1);
      SacConstante(s, i, n, t, c);
      PassoConstante(s, c, k, ls[k - 1].saldo, ls[k].saldo);
    }
  }

  lemma UmAMenos(n: int, c: real)
    ensures (n - 1) as real * c == n as real * c - c
  {
  }

  /** At full precision the last SAC period amortises c = v / n as well: every
      period of a table of n >= 1 periods amortises exactly c. */
  lemma SacAmortizacaoExata(v: real, n: int, t: real, c: real)
    requires n >= 1 && n as real * c == v
    ensures var ls := LinhasSac(v, 1, n, t, c);
            |ls| == n && forall k :: 0 <= k < n ==> ls[k].amort == c
  {
    var ls := LinhasSac(v, 1, n, t, c);
    SacConstante(v, 1, n, t, c);
    SacCronograma(v, 1, n, t, c);
    CronogramaIndex(ls, v, 1, t, n - 1);
    SacSaldo(v, 1, n, t, c, n - 1);
    UmAMenos(n, c);
  }

  // ---------------------------------------------------------------------
  // Zero rate
  // ---------------------------------------------------------------------

  /** With no interest a PRICE schedule and a SAC schedule over the same per-period
      amount are the same rows. */
  lemma {:induction false} PriceSacSemJuros(s: real, i: int, n: int, c: real)
    ensures LinhasPrice(s, i, n, 0.0, c) == LinhasSac(s, i, n, 0.0, c)
    decreases n - i
  {
    if i <= n {
      var a := if i == n then s else c;
      var l := Linha(i, s, a, 0.0, a);
      PriceCons(s, i, n, 0.0, c, l);
      SacCons(s, i, n, 0.0, c, l);
      PriceSacSemJuros(s - a, i + 1, n, c);
    }
  }

  /** At a zero rate the PRICE table is the SAC table, whatever Math.Pow returns. */
  lemma PriceSemJurosIgualSac(v: real, n: int, pow: real)
    requires n >= 1
    ensures Price(v, n, 0.0, pow) == Sac(v, n, 0.0)
  {
    PriceSacSemJuros(v, 1, n, v / n as real);
  }

  /** At a zero rate every emitted SAC installment amortises c rounded, with no interest. */
  lemma SacSemJurosParcelas(v: real, n: int, c: real)
    requires n >= 1 && n as real * c == v
    ensures var ps := EmitirTodas(LinhasSac(v, 1, n, 0.0, c));
            |ps| == n && forall k :: 0 <= k < n ==> ps[k] == Parcela(k + 1, Round2(c), 0.0, Round2(c))
  {
    var ls := LinhasSac(v, 1, n, 0.0, c);
    SacCronograma(v, 1, n, 0.0, c);
    SacAmortizacaoExata(v, n, 0.0, c);
    Round2Fixes(0.0);
    forall k | 0 <= k < n
      ensures EmitirTodas(ls)[k] == Parcela(k + 1, Round2(c), 0.0, Round2(c))
    {
      EmitirTodasIndex(ls, k);
      CronogramaIndex(ls, v, 1, 0.0, k);
    }
  }

  /** At a zero rate every SAC installment is v / n rounded, with no interest. */
  lemma SacSemJuros(v: real, n: int)
    requires n >= 1
    ensures Sac(v, n, 0.0) == Success(seq(n, k => Parcela(k + 1, Round2(v / n as real), 0.0, Round2(v / n as real))))
  {
    var c := v / n as real;
    Quociente(v, n as real);
    SacSemJurosParcelas(v, n, c);
    assert EmitirTodas(LinhasSac(v, 1, n, 0.0, c)) == seq(n, k => Parcela(k + 1, Round2(c), 0.0, Round2(c)));
  }

  /** 1000 over 10 months at no interest: ten installments of 100.00, no interest. */
  lemma SacExemploSemJuros()
    ensures Sac(1000.0, 10, 0.0) == Success(seq(10, k => Parcela(k + 1, 100.0, 0.0, 100.0)))
  {
    SacSemJuros(1000.0, 10);
    Round2Fixes(100.0);
  }

  // ---------------------------------------------------------------------
  // Outcomes
  // ---------------------------------------------------------------------

  /** PRICE produces a table exactly when the term is positive and the divisor of
      the level payment is not zero; otherwise it raises the source's exception. */
  lemma PriceResultado(v: real, n: int, t: real, pow: real)
    requires n == 0 ==> pow == 1.0
    ensures Price(v, n, t, pow).Success? <==> n >= 1 && (t == 0.0 || pow != 1.0)
    ensures Price(v, n, t, pow).Failure? ==>
              Price(v, n, t, pow).fault
              == if n == 0 || (t != 0.0 && pow == 1.0) then DivideByZero else ArgumentOutOfRange
  {
  }

  /** SAC produces a table exactly when the term is positive. */
  lemma SacResultado(v: real, n: int, t: real)
    ensures Sac(v, n, t).Success? <==> n >= 1
    ensures Sac(v, n, t).Failure? ==>
              Sac(v, n, t).fault == if n == 0 then DivideByZero else ArgumentOutOfRange
  {
  }

  // ---------------------------------------------------------------------
  // The emitted (rounded) tables
  // ---------------------------------------------------------------------

  /** Sum of the rounded amortisations of a table. */
  function SomaAmortizacoes(ps: seq<Parcela>): real
  {
    if ps == [] then 0.0 else ps[0].valorAmortizacao + SomaAmortizacoes(ps[1..])
  }

  /** What every emitted table of n installments over principal v guarantees:
      numbered 1..n, every amount in whole cents, each payment within a cent of
      its rounded parts, and the rounded amortisations repaying v to within half
      a cent per installment. */
  ghost predicate TabelaEmitida(ps: seq<Parcela>, v: real, n: int)
  {
    && |ps| == n
    && (forall k :: 0 <= k < n ==> ps[k].numero == k + 1)
    && (forall k :: 0 <= k < n ==>
          Cents(ps[k].valorAmortizacao) && Cents(ps[k].valorJuros) && Cents(ps[k].valorPrestacao))
    && (forall k :: 0 <= k < n ==>
          -0.01 <= ps[k].valorPrestacao - (ps[k].valorAmortizacao + ps[k].valorJuros) <= 0.01)
    && -0.005 * n as real <= SomaAmortizacoes(ps) - v <= 0.005 * n as real
  }

  /** Rounding each amortisation moves their sum by at most half a cent per period. */
  lemma {:induction false} SomaArredondada(ls: seq<Linha>)
    ensures -0.005 * |ls| as real <= SomaAmortizacoes(EmitirTodas(ls)) - SomaAmort(ls) <= 0.005 * |ls| as real
  {
    if ls != [] {
      SomaArredondada(ls[1..]);
      assert EmitirTodas(ls)[1..] == EmitirTodas(ls[1..]);
    }
  }

  /** The rounded form of any schedule over v numbered from 1 is a valid emitted table. */
  lemma CronogramaEmitido(ls: seq<Linha>, v: real, t: real)
    requires Cronograma(ls, v, 1, t)
    ensures TabelaEmitida(EmitirTodas(ls), v, |ls|)
  {
    var ps := EmitirTodas(ls);
    forall k | 0 <= k < |ls|
      ensures ps[k].numero == k + 1
      ensures Cents(ps[k].valorAmortizacao) && Cents(ps[k].valorJuros) && Cents(ps[k].valorPrestacao)
      ensures -0.01 <= ps[k].valorPrestacao - (ps[k].valorAmortizacao + ps[k].valorJuros) <= 0.01
    {
      EmitirTodasIndex(ls, k);
      CronogramaIndex(ls, v, 1, t, k);
      Round2SumWithinCent(ls[k].amort, ls[k].juros);
    }
    CronogramaQuita(ls, v, 1, t);
    SomaArredondada(ls);
  }

  /** A PRICE table is a valid emitted table whose installments, all but the last,
      are the level payment rounded to cents. */
  lemma PriceTabela(v: real, n: int, t: real, pow: real)
    requires n == 0 ==> pow == 1.0
    requires Price(v, n, t, pow).Success?
    ensures TabelaEmitida(Price(v, n, t, pow).value, v, n)
    ensures forall k :: 0 <= k < n - 1 ==>
              Price(v, n, t, pow).value[k].valorPrestacao == Round2(Prestacao(v, n, t, pow).value)
  {
    var p := Prestacao(v, n, t, pow).value;
    var ls := LinhasPrice(v, 1, n, t, p);
    PriceCronograma(v, 1, n, t, p);
    PriceNivelada(v, 1, n, t, p);
    CronogramaEmitido(ls, v, t);
    forall k | 0 <= k < n - 1 ensures EmitirTodas(ls)[k].valorPrestacao == Round2(p) {
      EmitirTodasIndex(ls, k);
    }
  }

  /** A SAC table is a valid emitted table whose every amortisation is v / n rounded to cents. */
  lemma SacTabela(v: real, n: int, t: real)
    requires n >= 1
    ensures TabelaEmitida(Sac(v, n, t).value, v, n)
    ensures forall k :: 0 <= k < n ==> Sac(v, n, t).value[k].valorAmortizacao == Round2(v / n as real)
  {
    var c := v / n as real;
    Quociente(v, n as real);
    var ls := LinhasSac(v, 1, n, t, c);
    SacCronograma(v, 1, n, t, c);
    SacAmortizacaoExata(v, n, t, c);
    CronogramaEmitido(ls, v, t);
    forall k | 0 <= k < n ensures EmitirTodas(ls)[k].valorAmortizacao == Round2(c) {
      EmitirTodasIndex(ls, k);
    }
  }
}
