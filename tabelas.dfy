/**
 * The amortisation engine: the PRICE (level payment) and SAC (constant
 * amortisation) schedules. Each method runs the loop of the source over the
 * full-precision balance and emits installments whose three amounts alone
 * are rounded. The specification of each table is a function over
 * unrounded rows (Linha), about which the lemmas below are proved.
 */
module Tabelas {
  import opened Common
  import opened Models
  import opened Rounding

  /** One period at full precision: its number, the balance before it, and its three amounts. */
  datatype Linha = Linha(numero: int, saldo: real, amort: real, juros: real, prest: real)

  /** The installment emitted for a period: only the three amounts are rounded. */
  function Emitir(l: Linha): Parcela
  {
    Parcela(l.numero, Round2(l.amort), Round2(l.juros), Round2(l.prest))
  }

  /** The installments emitted for a sequence of periods, in order. */
  function EmitirTodas(ls: seq<Linha>): (ps: seq<Parcela>)
    ensures |ps| == |ls|
  {
    if ls == [] then [] else [Emitir(ls[0])] + EmitirTodas(ls[1..])
  }

  /** The k-th emitted installment is the k-th period, rounded. */
  lemma {:induction false} EmitirTodasIndex(ls: seq<Linha>, k: int)
    requires 0 <= k < |ls|
    ensures EmitirTodas(ls)[k] == Emitir(ls[k])
    decreases k
  {
    if k > 0 {
      EmitirTodasIndex(ls[1..], k - 1);
    }
  }

  lemma EmitirTodasCons(l: Linha, ls: seq<Linha>)
    ensures EmitirTodas([l] + ls) == [Emitir(l)] + EmitirTodas(ls)
  {
    assert ([l] + ls)[1..] == ls;
  }

  lemma AppendCons<T>(ps: seq<T>, x: T, rest: seq<T>)
    ensures (ps + [x]) + rest == ps + ([x] + rest)
  {
  }

  /** Sum of the full-precision amortisations of a sequence of periods. */
  function SomaAmort(ls: seq<Linha>): real
  {
    if ls == [] then 0.0 else ls[0].amort + SomaAmort(ls[1..])
  }

  // ---------------------------------------------------------------------
  // PRICE
  // ---------------------------------------------------------------------

  /** The PRICE level payment, or the fault its division raises. `pow` stands
      for (decimal)Math.Pow((double)(1 + t), -n), the one floating-point step. */
  function Prestacao(v: real, n: int, t: real, pow: real): Result<real>
  {
    if t == 0.0 then
      if n == 0 then Failure(DivideByZero) else Success(v / n as real)
    else
      var fator := 1.0 - pow;
      if fator == 0.0 then Failure(DivideByZero) else Success(v * t / fator)
  }

  /** PRICE periods i..n, starting from balance `saldo`, with level payment `prestacao`:
      interest on the balance, amortisation = payment - interest, and on the
      last period the whole balance is amortised and paid with its interest. */
  function LinhasPrice(saldo: real, i: int, n: int, t: real, prestacao: real): seq<Linha>
    decreases n - i
  {
    if i > n then []
    else
      var juros := saldo * t;
      var amort := if i == n then saldo else prestacao - juros;
      var prest := if i == n then amort + juros else prestacao;
      [Linha(i, saldo, amort, juros, prest)] + LinhasPrice(saldo - amort, i + 1, n, t, prestacao)
  }

  /** The first PRICE period from balance saldo, and the rest from the reduced balance. */
  lemma PriceCons(saldo: real, i: int, n: int, t: real, p: real, linha: Linha)
    requires i <= n
    requires linha.numero == i && linha.saldo == saldo && linha.juros == saldo * t
    requires linha.amort == (if i == n then saldo else p - linha.juros)
    requires linha.prest == (if i == n then linha.amort + linha.juros else p)
    ensures LinhasPrice(saldo, i, n, t, p) == [linha] + LinhasPrice(saldo - linha.amort, i + 1, n, t, p)
  {
    assert LinhasPrice(saldo, i, n, t, p)[0] == linha;
  }

  /** One step of the PRICE loop: appending the emitted installment of the
      current period and continuing from the reduced balance leaves the whole
      table unchanged. */
  lemma PriceStep(saldo: real, i: int, n: int, t: real, p: real, parcelas: seq<Parcela>, linha: Linha)
    requires i <= n
    requires linha.numero == i && linha.saldo == saldo && linha.juros == saldo * t
    requires linha.amort == (if i == n then saldo else p - linha.juros)
    requires linha.prest == (if i == n then linha.amort + linha.juros else p)
    ensures (parcelas + [Emitir(linha)]) + EmitirTodas(LinhasPrice(saldo - linha.amort, i + 1, n, t, p))
            == parcelas + EmitirTodas(LinhasPrice(saldo, i, n, t, p))
  {
    var resto := LinhasPrice(saldo - linha.amort, i + 1, n, t, p);
    PriceCons(saldo, i, n, t, p, linha);
    EmitirTodasCons(linha, resto);
    AppendCons(parcelas, Emitir(linha), EmitirTodas(resto));
  }

  /** The PRICE table for amount v, term n and rate t, or the exception it throws:
      a zero divisor in the level payment, then a negative list capacity. */
  function Price(v: real, n: int, t: real, pow: real): Result<seq<Parcela>>
    requires n == 0 ==> pow == 1.0
  {
    match Prestacao(v, n, t, pow)
    case Failure(f) => Failure(f)
    case Success(p) =>
      if n < 0 then Failure(ArgumentOutOfRange)
      else Success(EmitirTodas(LinhasPrice(v, 1, n, t, p)))
  }

  /** Tabelas.TabelaPrice: the level payment (or its fault), the list capacity
      check, then the installment loop. `pow` is what Math.Pow returns for
      (1 + taxa, -prazo); Math.Pow(x, 0) is 1 for every x, hence the precondition. */
  method TabelaPrice(valorDesejado: real, prazo: int, taxa: real, pow: real) returns (r: Result<seq<Parcela>>)
    requires prazo == 0 ==> pow == 1.0
    ensures r == Price(valorDesejado, prazo, taxa, pow)
  {
    var calculo := Prestacao(valorDesejado, prazo, taxa, pow);
    if calculo.Failure? { return Failure(calculo.fault); }
    if prazo < 0 { return Failure(ArgumentOutOfRange); }  // new List<ParcelaDto>(n)
    var v, n, t := valorDesejado, prazo, taxa;
    var prestacao := calculo.value;
    var saldo := v;
    var parcelas: seq<Parcela> := [];
    assert parcelas + EmitirTodas(LinhasPrice(saldo, 1, n, t, prestacao))
           == EmitirTodas(LinhasPrice(v, 1, n, t, prestacao));
    for i := 1 to n + 1
      invariant parcelas + EmitirTodas(LinhasPrice(saldo, i, n, t, prestacao))
                == EmitirTodas(LinhasPrice(v, 1, n, t, prestacao))
    {
      var juros := saldo * t;
      var amort := prestacao - juros;
      var prest: real;
      if i == n {
        amort := saldo;  // the last period zeroes the balance
        prest := amort + juros;
      } else {
        prest := prestacao;
      }
      var linha := Linha(i, saldo, amort, juros, prest);
      PriceStep(saldo, i, n, t, prestacao, parcelas, linha);
      saldo := saldo - amort;
      parcelas := parcelas + [Emitir(linha)];
    }
    assert EmitirTodas(LinhasPrice(saldo, n + 1, n, t, prestacao)) == [];
    assert parcelas + [] == parcelas;
    return Success(parcelas);
  }


  // ---------------------------------------------------------------------
  // SAC
  // ---------------------------------------------------------------------

  /** SAC periods i..n from balance `saldo`: a constant amortisation, except that
      the last period amortises the whole balance; payment = amortisation + interest. */
  function LinhasSac(saldo: real, i: int, n: int, t: real, amortConst: real): seq<Linha>
    decreases n - i
  {
    if i > n then []
    else
      var juros := saldo * t;
      var amort := if i == n then saldo else amortConst;
      [Linha(i, saldo, amort, juros, amort + juros)] + LinhasSac(saldo - amort, i + 1, n, t, amortConst)
  }

  /** The SAC table for amount v, term n and rate t, or the exception it throws. */
  function Sac(v: real, n: int, t: real): Result<seq<Parcela>>
  {
    if n == 0 then Failure(DivideByZero)
    else if n < 0 then Failure(ArgumentOutOfRange)
    else Success(EmitirTodas(LinhasSac(v, 1, n, t, v / n as real)))
  }

  /** The first SAC period from balance saldo, and the rest from the reduced balance. */
  lemma SacCons(saldo: real, i: int, n: int, t: real, c: real, linha: Linha)
    requires i <= n
    requires linha.numero == i && linha.saldo == saldo && linha.juros == saldo * t
    requires linha.amort == (if i == n then saldo else c)
    requires linha.prest == linha.amort + linha.juros
    ensures LinhasSac(saldo, i, n, t, c) == [linha] + LinhasSac(saldo - linha.amort, i + 1, n, t, c)
  {
    assert LinhasSac(saldo, i, n, t, c)[0] == linha;
  }

  /** One step of the SAC loop, as PriceStep is for PRICE. */
  lemma SacStep(saldo: real, i: int, n: int, t: real, c: real, parcelas: seq<Parcela>, linha: Linha)
    requires i <= n
    requires linha.numero == i && linha.saldo == saldo && linha.juros == saldo * t
    requires linha.amort == (if i == n then saldo else c)
    requires linha.prest == linha.amort + linha.juros
    ensures (parcelas + [Emitir(linha)]) + EmitirTodas(LinhasSac(saldo - linha.amort, i + 1, n, t, c))
            == parcelas + EmitirTodas(LinhasSac(saldo, i, n, t, c))
  {
    var resto := LinhasSac(saldo - linha.amort, i + 1, n, t, c);
    SacCons(saldo, i, n, t, c, linha);
    EmitirTodasCons(linha, resto);
    AppendCons(parcelas, Emitir(linha), EmitirTodas(resto));
  }

  /** Tabelas.TabelaSac: the constant amortisation (or its fault), the list
      capacity check, then the installment loop. */
  method TabelaSac(valorDesejado: real, prazo: int, taxa: real) returns (r: Result<seq<Parcela>>)
    ensures r == Sac(valorDesejado, prazo, taxa)
  {
    if prazo == 0 { return Failure(DivideByZero); }
    var amortConst := valorDesejado / prazo as real;
    if prazo < 0 { return Failure(ArgumentOutOfRange); }  // new List<ParcelaDto>(n)
    var v, n, t := valorDesejado, prazo, taxa;
    var saldo := v;
    var parcelas: seq<Parcela> := [];
    assert parcelas + EmitirTodas(LinhasSac(saldo, 1, n, t, amortConst))
           == EmitirTodas(LinhasSac(v, 1, n, t, amortConst));
    for i := 1 to n + 1
      invariant parcelas + EmitirTodas(LinhasSac(saldo, i, n, t, amortConst))
                == EmitirTodas(LinhasSac(v, 1, n, t, amortConst))
    {
      var juros := saldo * t;
      var amort := amortConst;
      if i == n {
        amort := saldo;  // guarantees a zero balance
      }
      var prest := amort + juros;
      var linha := Linha(i, saldo, amort, juros, prest);
      SacStep(saldo, i, n, t, amortConst, parcelas, linha);
      saldo := saldo - amort;
      parcelas := parcelas + [Emitir(linha)];
    }
    assert EmitirTodas(LinhasSac(saldo, n + 1, n, t, amortConst)) == [];
    assert parcelas + [] == parcelas;
    return Success(parcelas);
  }

}
