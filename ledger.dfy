/** The ledger behind the money tracker's routes: a table of people and a
    table of debts, each debt holding its transactions. The route handlers
    become the methods of `Ledger`; the index page is `Dashboard.Index`. */
module Bookkeeping {
  import opened Records
  import opened Balances
  import opened Dashboard

  /** Every row's id is its position in its table. */
  predicate PersonsIndexed(ps: seq<Person>)
  {
    forall i :: 0 <= i < |ps| ==> ps[i].id == i
  }

  predicate DebtsIndexed(ds: seq<Debt>)
  {
    forall i :: 0 <= i < |ds| ==> ds[i].id == i
  }

  /** Names are non-empty and no two people share one. */
  predicate NamesUnique(ps: seq<Person>)
  {
    (forall i :: 0 <= i < |ps| ==> ps[i].name != "") &&
    (forall i, j :: 0 <= i < j < |ps| ==> ps[i].name != ps[j].name)
  }

  /** `d` is an active debt with this person in this direction. */
  predicate IsActiveFor(d: Debt, personId: nat, direction: string)
  {
    d.status == Active && d.personId == personId && d.direction == direction
  }

  /** At most one active debt per (person, direction). */
  predicate OneActivePerPair(ds: seq<Debt>)
  {
    forall i, j :: 0 <= i < j < |ds| && ds[i].status == Active && ds[j].status == Active ==>
      ds[i].personId != ds[j].personId || ds[i].direction != ds[j].direction
  }

  /** Loans carry a non-zero amount; payments a positive one. */
  predicate WellFormedTransaction(t: Transaction)
  {
    (t.kind == Loan && t.amount != 0.0) || (t.kind == Payment && t.amount > 0.0)
  }

  predicate TransactionsWellFormed(ds: seq<Debt>)
  {
    forall i, k :: 0 <= i < |ds| && 0 <= k < |ds[i].transactions| ==> WellFormedTransaction(ds[i].transactions[k])
  }

  /** Debts are never removed, and a settled debt stays settled. */
  predicate StatusOnlySettles(before: seq<Debt>, after: seq<Debt>)
  {
    |before| <= |after| &&
    forall i :: 0 <= i < |before| && before[i].status == Settled ==> after[i].status == Settled
  }

  /** The first active debt with this person and direction, if any (the
      query `filter_by(person_id, direction, status='active').first()`). */
  function FindActive(ds: seq<Debt>, personId: nat, direction: string): (r: Option<nat>)
    ensures r.Some? ==> r.value < |ds| && IsActiveFor(ds[r.value], personId, direction)
    ensures r.Some? ==> forall i :: 0 <= i < r.value ==> !IsActiveFor(ds[i], personId, direction)
    ensures r.None? ==> forall i :: 0 <= i < |ds| ==> !IsActiveFor(ds[i], personId, direction)
  {
    if ds == [] then None
    else if IsActiveFor(ds[0], personId, direction) then Some(0)
    else match FindActive(ds[1..], personId, direction)
      case None => None
      case Some(j) => Some(j + 1)
  }

  /** The payment actually recorded: the requested amount, capped at the
      current balance. */
  function PaymentAmount(requested: real, balance: real): (r: real)
    ensures r <= balance && r <= requested
    ensures r == requested || r == balance
  {
    if requested > balance then balance else requested
  }

  /** A recorded payment lowers the balance by exactly its amount and never
      takes a non-negative balance below zero. */
  lemma PaymentKeepsBalanceNonNegative(txs: seq<Transaction>, requested: real, date: nat)
    requires PaymentAmount(requested, Balance(txs)) > 0.0
    ensures var paid := PaymentAmount(requested, Balance(txs));
            var after := txs + [Transaction(paid, Payment, PaymentDescription, date)];
            Balance(after) == Balance(txs) - paid && Balance(after) >= 0.0
  {
    BalanceAppend(txs, Transaction(PaymentAmount(requested, Balance(txs)), Payment, PaymentDescription, date));
  }

  class Ledger {
    var persons: seq<Person>
    var debts: seq<Debt>

    ghost predicate Valid()
      reads this
    {
      PersonsIndexed(persons) && NamesUnique(persons) &&
      DebtsIndexed(debts) && OneActivePerPair(debts) && TransactionsWellFormed(debts)
    }

    /** An empty database. */
    constructor ()
      ensures Valid() && persons == [] && debts == []
    {
      persons := [];
      debts := [];
    }

    /** The add_person route: adds a person when the name is non-empty and
        not taken; otherwise changes nothing. */
    method AddPerson(name: string) returns (added: bool)
      requires Valid()
      modifies this
      ensures Valid()
      ensures added <==> name != "" && forall i :: 0 <= i < |old(persons)| ==> old(persons)[i].name != name
      ensures persons == if added then old(persons) + [Person(|old(persons)|, name)] else old(persons)
      ensures debts == old(debts)
    {
      added := name != "" && forall i :: 0 <= i < |persons| ==> persons[i].name != name;
      if added {
        persons := persons + [Person(|persons|, name)];
      }
    }

    /** The add_transaction route. `personId` is None when the form field is
        missing or empty. Returns the debt that received the loan, or None
        when the input is rejected. */
    method AddTransaction(personId: Option<nat>, amount: real, direction: string, description: string, date: nat)
      returns (used: Option<nat>)
      requires Valid()
      modifies this
      ensures Valid()
      ensures persons == old(persons)
      ensures StatusOnlySettles(old(debts), debts)
      ensures used.None? <==> personId.None? || amount == 0.0 || direction == "" || description == ""
      ensures used.None? ==> debts == old(debts)
      ensures used.Some? ==>
        var k := used.value;
        // reuses the active debt for this person and direction, or appends a new one
        k <= |old(debts)| &&
        (k < |old(debts)| <==> exists i :: 0 <= i < |old(debts)| && IsActiveFor(old(debts)[i], personId.value, direction)) &&
        |debts| == (if k < |old(debts)| then |old(debts)| else |old(debts)| + 1) &&
        // afterwards it is the only active debt for the pair
        IsActiveFor(debts[k], personId.value, direction) &&
        (forall i :: 0 <= i < |debts| && i != k ==> !IsActiveFor(debts[i], personId.value, direction)) &&
        // exactly one loan appended to it; everything else untouched
        debts[k].transactions ==
          (if k < |old(debts)| then old(debts)[k].transactions else []) + [Transaction(amount, Loan, description, date)] &&
        debts[k].id == k &&
        (k < |old(debts)| ==> debts[k] == old(debts)[k].(transactions := debts[k].transactions)) &&
        (forall i :: 0 <= i < |old(debts)| && i != k ==> debts[i] == old(debts)[i]) &&
        // its balance and the total for its direction rise by the amount
        Balance(debts[k].transactions) ==
          (if k < |old(debts)| then Balance(old(debts)[k].transactions) else 0.0) + amount &&
        Outstanding(debts, direction) == old(Outstanding(debts, direction)) + amount
      ensures used.Some? ==> forall dir :: dir != direction ==> Outstanding(debts, dir) == old(Outstanding(debts, dir))
    {
      if personId.None? || amount == 0.0 || direction == "" || description == "" {
        return None;
      }
      var pid := personId.value;
      var k: nat;
      match FindActive(debts, pid, direction) {
        case Some(j) =>
          k := j;
        case None =>
          k := |debts|;
          var created := Debt(k, pid, direction, Active, []);
          forall dir {
            OutstandingAppend(debts, created, dir);
          }
          debts := debts + [created];
      }
      var loan := Transaction(amount, Loan, description, date);
      var updated := debts[k].(transactions := debts[k].transactions + [loan]);
      BalanceAppend(debts[k].transactions, loan);
      forall dir {
        OutstandingUpdate(debts, k, updated, dir);
      }
      debts := debts[k := updated];
      used := Some(k);
    }

    /** The make_payment route. Returns false (not found) when there is no
        debt `debtId`. Otherwise records a payment of the requested amount
        capped at the balance, if that is positive, and settles the debt when
        its balance is then below the threshold. */
    method MakePayment(debtId: nat, requested: real, date: nat) returns (found: bool)
      requires Valid()
      modifies this
      ensures Valid()
      ensures persons == old(persons)
      ensures StatusOnlySettles(old(debts), debts)
      ensures found <==> debtId < |old(debts)|
      ensures |debts| == |old(debts)|
      ensures forall i :: 0 <= i < |debts| && i != debtId ==> debts[i] == old(debts)[i]
      ensures found ==>
        var d := old(debts)[debtId];
        var paid := PaymentAmount(requested, Balance(d.transactions));
        var txs := debts[debtId].transactions;
        // a payment is recorded only when positive, and never exceeds the balance
        txs == d.transactions + (if paid > 0.0 then [Transaction(paid, Payment, PaymentDescription, date)] else []) &&
        Balance(txs) == Balance(d.transactions) - (if paid > 0.0 then paid else 0.0) &&
        (Balance(d.transactions) >= 0.0 ==> Balance(txs) >= 0.0) &&
        debts[debtId] == d.(transactions := txs, status := debts[debtId].status) &&
        debts[debtId].status == (if Balance(txs) < SettleThreshold then Settled else d.status)
    {
      if debtId >= |debts| {
        return false;
      }
      found := true;
      var d := debts[debtId];
      var balance := ComputeBalance(d.transactions);
      var paid := requested;
      if paid > balance {
        paid := balance;
      }
      if paid > 0.0 {
        PaymentKeepsBalanceNonNegative(d.transactions, requested, date);
        d := d.(transactions := d.transactions + [Transaction(paid, Payment, PaymentDescription, date)]);
      }
      balance := ComputeBalance(d.transactions);
      if balance < SettleThreshold {
        d := d.(status := Settled);
      }
      debts := debts[debtId := d];
    }

    /** The settle route: marks debt `debtId` settled, leaving its
        transactions as they are; false (not found) when there is no such debt. */
    method SettleDebt(debtId: nat) returns (found: bool)
      requires Valid()
      modifies this
      ensures Valid()
      ensures persons == old(persons)
      ensures StatusOnlySettles(old(debts), debts)
      ensures found <==> debtId < |old(debts)|
      ensures !found ==> debts == old(debts)
      ensures found ==> debts == old(debts)[debtId := old(debts)[debtId].(status := Settled)]
      ensures found ==> forall dir :: Outstanding(debts, dir) == old(Outstanding(debts, dir)) - Share(old(debts)[debtId], dir)
    {
      if debtId >= |debts| {
        return false;
      }
      found := true;
      var d := debts[debtId].(status := Settled);
      forall dir {
        OutstandingUpdate(debts, debtId, d, dir);
      }
      debts := debts[debtId := d];
    }
  }
}
