/** The balance of a debt (the `Debt.balance` property): loans add,
    payments subtract, transactions of any other kind are ignored. */
module Balances {
  import opened Records

  /** Sum of the amounts of the transactions of one kind. */
  function SumOfKind(txs: seq<Transaction>, kind: string): real
  {
    if txs == [] then 0.0
    else (if txs[0].kind == kind then txs[0].amount else 0.0) + SumOfKind(txs[1..], kind)
  }

  /** Reference definition of the balance: the sum of the loans minus the sum of the payments. */
  function Balance(txs: seq<Transaction>): real
  {
    SumOfKind(txs, Loan) - SumOfKind(txs, Payment)
  }

  /** What one transaction does to a balance. */
  function Effect(t: Transaction): real
  {
    if t.kind == Loan then t.amount
    else if t.kind == Payment then -t.amount
    else 0.0
  }

  lemma {:induction false} SumOfKindConcat(a: seq<Transaction>, b: seq<Transaction>, kind: string)
    ensures SumOfKind(a + b, kind) == SumOfKind(a, kind) + SumOfKind(b, kind)
  {
    if a == [] {
      assert a + b == b;
    } else {
      assert (a + b)[0] == a[0];
      assert (a + b)[1..] == a[1..] + b;
      SumOfKindConcat(a[1..], b, kind);
    }
  }

  /** The balance of two runs of transactions is the sum of their balances. */
  lemma {:induction false} BalanceConcat(a: seq<Transaction>, b: seq<Transaction>)
    ensures Balance(a + b) == Balance(a) + Balance(b)
  {
    SumOfKindConcat(a, b, Loan);
    SumOfKindConcat(a, b, Payment);
  }

  /** Recording one more transaction moves the balance by its effect. */
  lemma {:induction false} BalanceAppend(txs: seq<Transaction>, t: Transaction)
    ensures Balance(txs + [t]) == Balance(txs) + Effect(t)
  {
    BalanceConcat(txs, [t]);
    assert [t][1..] == [];
    assert SumOfKind([t], Loan) == if t.kind == Loan then t.amount else 0.0;
    assert SumOfKind([t], Payment) == if t.kind == Payment then t.amount else 0.0;
  }

  /** A transaction whose kind is neither 'loan' nor 'payment' contributes
      nothing, wherever it stands. */
  lemma {:induction false} BalanceIgnoresOtherKinds(before: seq<Transaction>, t: Transaction, after: seq<Transaction>)
    requires t.kind != Loan && t.kind != Payment
    ensures Balance(before + [t] + after) == Balance(before + after)
  {
    BalanceConcat(before + [t], after);
    BalanceAppend(before, t);
    BalanceConcat(before, after);
  }

  /** The balance as the source computes it: one pass with an accumulator. */
  method ComputeBalance(txs: seq<Transaction>) returns (total: real)
    ensures total == Balance(txs)
  {
    total := 0.0;
    for i := 0 to |txs|
      invariant total == Balance(txs[..i])
    {
      var t := txs[i];
      if t.kind == Loan {
        total := total + t.amount;
      } else if t.kind == Payment {
        total := total - t.amount;
      }
      BalanceAppend(txs[..i], t);
      assert txs[..i + 1] == txs[..i] + [t];
    }
    assert txs[..|txs|] == txs;
  }
}
