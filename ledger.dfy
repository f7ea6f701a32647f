/**
 * The figures the dashboard derives from an account's movements
 * (signed amounts: deposits positive, withdrawals negative): the balance,
 * the "in", "out" and "interest" summary, and the rows of the history list.
 */
module Ledger {
  import opened Wrappers
  import opened Arrays

  /** The arithmetic sum of the movements: what every figure below is measured against. */
  function Sum(s: seq<int>): int
  {
    if s == [] then 0 else s[0] + Sum(s[1..])
  }

  lemma {:induction false} SumAppend(s: seq<int>, x: int)
    ensures Sum(s + [x]) == Sum(s) + x
  {
    if s == [] {
      assert s + [x] == [x];
    } else {
      assert (s + [x])[1..] == s[1..] + [x];
      SumAppend(s[1..], x);
    }
  }

  /** `s.reduce((acc, x) => acc + x, init)`: a left-to-right fold that adds up to the sum. */
  function Reduce(s: seq<int>, init: int): (r: int)
    ensures r == init + Sum(s)
  {
    if s == [] then init else Reduce(s[1..], init + s[0])
  }

  /**
   * The balance as `updateBalance` computes it: `reduce` with no initial value
   * starts from the first movement, and throws a TypeError on an empty list
   * (None here).
   */
  function Balance(movements: seq<int>): (r: Option<int>)
    ensures r.Some? <==> movements != []
    ensures r.Some? ==> r.value == Sum(movements)
  {
    if movements == [] then None else Some(Reduce(movements[1..], movements[0]))
  }

  /** The sample history [200, -200, 340, -300] has balance 40. */
  lemma BalanceOfSample()
    ensures Balance([200, -200, 340, -300]) == Some(40)
  {
  }

  /** A movement is a deposit exactly when it is strictly positive. */
  predicate IsDeposit(m: int) { m > 0 }

  /** A movement is counted among the withdrawals exactly when it is strictly negative. */
  predicate IsWithdrawal(m: int) { m < 0 }

  /** The "in" figure: `movements.filter(m => m > 0).reduce((acc, d) => acc + d, 0)`. */
  function TotalDeposits(movements: seq<int>): (r: int)
    ensures r == Sum(Filter(movements, IsDeposit))
  {
    Reduce(Filter(movements, IsDeposit), 0)
  }

  /** The signed "out" figure: `movements.filter(m => m < 0).reduce((acc, w) => acc + w, 0)`. */
  function TotalWithdrawals(movements: seq<int>): (r: int)
    ensures r == Sum(Filter(movements, IsWithdrawal))
  {
    Reduce(Filter(movements, IsWithdrawal), 0)
  }

  /** Deposits and withdrawals together add up to the balance; zero movements are in neither. */
  lemma {:induction false} SummaryAddsUp(movements: seq<int>)
    ensures TotalDeposits(movements) + TotalWithdrawals(movements) == Sum(movements)
  {
    if movements != [] {
      SummaryAddsUp(movements[1..]);
      var t := movements[1..];
      if IsDeposit(movements[0]) {
        assert Filter(movements, IsDeposit) == [movements[0]] + Filter(t, IsDeposit);
        assert ([movements[0]] + Filter(t, IsDeposit))[1..] == Filter(t, IsDeposit);
      } else if IsWithdrawal(movements[0]) {
        assert Filter(movements, IsWithdrawal) == [movements[0]] + Filter(t, IsWithdrawal);
        assert ([movements[0]] + Filter(t, IsWithdrawal))[1..] == Filter(t, IsWithdrawal);
      }
    }
  }

  /**
   * The deposits total is never negative and is zero exactly when there is no
   * deposit; the withdrawals total is never positive and is zero exactly when
   * there is no withdrawal.
   */
  lemma {:induction false} TotalsSigns(movements: seq<int>)
    ensures TotalDeposits(movements) >= 0
    ensures TotalDeposits(movements) == 0 <==> forall i :: 0 <= i < |movements| ==> !IsDeposit(movements[i])
    ensures TotalWithdrawals(movements) <= 0
    ensures TotalWithdrawals(movements) == 0 <==> forall i :: 0 <= i < |movements| ==> !IsWithdrawal(movements[i])
  {
    if movements != [] {
      var t := movements[1..];
      TotalsSigns(t);
      assert forall i :: 1 <= i < |movements| ==> movements[i] == t[i - 1];
      if IsDeposit(movements[0]) {
        assert Filter(movements, IsDeposit) == [movements[0]] + Filter(t, IsDeposit);
        assert ([movements[0]] + Filter(t, IsDeposit))[1..] == Filter(t, IsDeposit);
      } else if IsWithdrawal(movements[0]) {
        assert Filter(movements, IsWithdrawal) == [movements[0]] + Filter(t, IsWithdrawal);
        assert ([movements[0]] + Filter(t, IsWithdrawal))[1..] == Filter(t, IsWithdrawal);
      }
    }
  }

  /** `Math.abs`. */
  function Abs(x: int): (r: int)
    ensures r >= 0 && (r == x || r == -x)
  {
    if x < 0 then -x else x
  }

  /** The sum of a list of reals, `reduce((acc, x) => acc + x, 0)` over the interest payments. */
  function SumReal(s: seq<real>): real
  {
    if s == [] then 0.0 else s[0] + SumReal(s[1..])
  }

  /** `amount * rate / 100`: `rate` percent of `amount`. */
  function Percent(amount: int, rate: real): real
  {
    amount as real * rate / 100.0
  }

  lemma PercentAdds(a: int, b: int, rate: real)
    ensures Percent(a, rate) + Percent(b, rate) == Percent(a + b, rate)
  {
  }

  lemma PercentNonNegative(a: int, rate: real)
    requires a >= 0 && rate >= 0.0
    ensures Percent(a, rate) >= 0.0
  {
  }

  /** The interest one deposit earns at `rate` percent. */
  function InterestOn(rate: real): int -> real
  {
    d => Percent(d, rate)
  }

  /** Only payments of at least 1 are credited. */
  predicate Credited(payment: real) { payment >= 1.0 }

  /** The interest on each deposit, in the order of the deposits. */
  function InterestPayments(movements: seq<int>, rate: real): seq<real>
  {
    Map(Filter(movements, IsDeposit), InterestOn(rate))
  }

  /**
   * The "interest" figure: the payments of at least 1, added up. At a
   * non-negative rate it is never negative and never more than the rate
   * applied to the whole deposits total.
   */
  function Interest(movements: seq<int>, rate: real): (r: real)
    ensures rate >= 0.0 ==> 0.0 <= r <= Percent(TotalDeposits(movements), rate)
  {
    var payments := InterestPayments(movements, rate);
    var credited := Filter(payments, Credited);
    if rate < 0.0 then SumReal(credited)
    else
      var deposits := Filter(movements, IsDeposit);
      assert forall i :: 0 <= i < |payments| ==> payments[i] == Percent(deposits[i], rate);
      assert forall i :: 0 <= i < |payments| ==> payments[i] >= 0.0 by {
        forall i | 0 <= i < |payments| ensures payments[i] >= 0.0 {
          PercentNonNegative(deposits[i], rate);
        }
      }
      SumRealNonNegative(credited);
      SumRealFilterAtMost(payments, Credited);
      SumRealScaled(deposits, rate);
      SumReal(credited)
  }

  lemma {:induction false} SumRealNonNegative(s: seq<real>)
    requires forall i :: 0 <= i < |s| ==> s[i] >= 0.0
    ensures SumReal(s) >= 0.0
  {
    if s != [] {
      SumRealNonNegative(s[1..]);
    }
  }

  /** Dropping non-negative terms never increases a sum. */
  lemma {:induction false} SumRealFilterAtMost(s: seq<real>, p: real -> bool)
    requires forall i :: 0 <= i < |s| ==> s[i] >= 0.0
    ensures SumReal(Filter(s, p)) <= SumReal(s)
  {
    if s != [] {
      SumRealFilterAtMost(s[1..], p);
      if p(s[0]) {
        assert Filter(s, p) == [s[0]] + Filter(s[1..], p);
        assert ([s[0]] + Filter(s[1..], p))[1..] == Filter(s[1..], p);
      }
    }
  }

  lemma {:induction false} SumRealScaled(ds: seq<int>, rate: real)
    ensures SumReal(Map(ds, InterestOn(rate))) == Percent(Sum(ds), rate)
  {
    if ds != [] {
      SumRealScaled(ds[1..], rate);
      assert Map(ds, InterestOn(rate))[1..] == Map(ds[1..], InterestOn(rate));
      PercentAdds(ds[0], Sum(ds[1..]), rate);
    }
  }

  /** The three summary figures as the dashboard shows them: "in", "out" (made positive) and "interest". */
  datatype Summary = Summary(income: int, outgoing: int, interest: real)

  /**
   * `updateAccountSummary`: the shown "in" and "out" are never negative and
   * "in" minus "out" is the balance; at a non-negative rate the interest is
   * between 0 and the rate applied to "in".
   */
  function AccountSummary(movements: seq<int>, rate: real): (r: Summary)
    ensures r.income >= 0 && r.outgoing >= 0
    ensures r.income == TotalDeposits(movements) && r.outgoing == -TotalWithdrawals(movements)
    ensures r.income - r.outgoing == Sum(movements)
    ensures rate >= 0.0 ==> 0.0 <= r.interest <= Percent(r.income, rate)
  {
    SummaryAddsUp(movements);
    TotalsSigns(movements);
    SummaryOf(movements, rate)
  }

  function SummaryOf(movements: seq<int>, rate: real): Summary
  {
    Summary(TotalDeposits(movements), Abs(TotalWithdrawals(movements)), Interest(movements, rate))
  }

  /** How a history row is labelled: strictly positive is "deposit", everything else (0 included) "withdrawal". */
  datatype MovementType = Deposit | Withdrawal

  function TypeOf(m: int): (r: MovementType)
    ensures r == Deposit <==> IsDeposit(m)
    ensures r == Withdrawal <==> m <= 0
  {
    if m > 0 then Deposit else Withdrawal
  }

  /** One row of the history list: its 1-based number, its label and its amount. */
  datatype Row = Row(number: nat, kind: MovementType, amount: int)

  /**
   * Rows as `displayMovements` leaves them on screen: each row is inserted at
   * the top, so the newest movement comes first, and the row for movement `i`
   * (0-based) carries number `i + 1`.
   */
  ghost predicate NewestFirst(rows: seq<Row>, movements: seq<int>)
  {
    |rows| == |movements| &&
    forall k :: 0 <= k < |rows| ==>
      var i := |movements| - 1 - k;
      rows[k] == Row(i + 1, TypeOf(movements[i]), movements[i])
  }

  /** `displayMovements`: one row per movement, each inserted "afterbegin". */
  method DisplayMovements(movements: seq<int>) returns (rows: seq<Row>)
    ensures NewestFirst(rows, movements)
    ensures forall k :: 0 <= k < |rows| ==> (rows[k].kind == Deposit <==> IsDeposit(rows[k].amount))
  {
    rows := [];
    for i := 0 to |movements|
      invariant |rows| == i
      invariant forall k :: 0 <= k < i ==> rows[k] == Row(i - k, TypeOf(movements[i - 1 - k]), movements[i - 1 - k])
    {
      rows := [Row(i + 1, TypeOf(movements[i]), movements[i])] + rows;
    }
  }
}
