/** What the index page shows: the active debts newest first, the people by
    name, and the two totals (owed to me, I owe). */
module Dashboard {
  import opened Records
  import opened Balances

  /** The values handed to the index template. */
  datatype View = View(debts: seq<Debt>, people: seq<Person>, totalOwed: real, totalOwe: real)

  // ---- totals ----

  /** What one debt adds to the total for a direction: its balance when it
      is active and goes that way, nothing otherwise. */
  function Share(d: Debt, direction: string): real
  {
    if d.status == Active && d.direction == direction then Balance(d.transactions) else 0.0
  }

  /** Reference definition of a total: the balances of the active debts of
      the whole table that go in the given direction. */
  function Outstanding(ds: seq<Debt>, direction: string): real
  {
    if ds == [] then 0.0 else Share(ds[0], direction) + Outstanding(ds[1..], direction)
  }

  /** The active rows of the debt table, in table order. */
  function ActiveDebts(ds: seq<Debt>): (r: seq<Debt>)
    ensures forall d :: d in r <==> d in ds && d.status == Active
    ensures multiset(r) <= multiset(ds)
  {
    if ds == [] then []
    else
      assert ds == [ds[0]] + ds[1..];
      (if ds[0].status == Active then [ds[0]] else []) + ActiveDebts(ds[1..])
  }

  /** The generator sum of the index page: the balances of the listed debts
      that go in the given direction. */
  function SumBalances(ds: seq<Debt>, direction: string): real
  {
    if ds == [] then 0.0
    else (if ds[0].direction == direction then Balance(ds[0].transactions) else 0.0) + SumBalances(ds[1..], direction)
  }

  /** Summing over the active debts only is the same as summing the shares
      of the whole table. */
  lemma {:induction false} OutstandingIsSumOverActive(ds: seq<Debt>, direction: string)
    ensures SumBalances(ActiveDebts(ds), direction) == Outstanding(ds, direction)
  {
    if ds != [] {
      OutstandingIsSumOverActive(ds[1..], direction);
      var rest := ActiveDebts(ds[1..]);
      if ds[0].status == Active {
        assert ActiveDebts(ds) == [ds[0]] + rest;
        assert ([ds[0]] + rest)[1..] == rest;
      } else {
        assert ActiveDebts(ds) == rest;
      }
    }
  }

  /** A new row adds its share to the total. */
  lemma {:induction false} OutstandingAppend(ds: seq<Debt>, d: Debt, direction: string)
    ensures Outstanding(ds + [d], direction) == Outstanding(ds, direction) + Share(d, direction)
  {
    if ds == [] {
      assert [d][1..] == [];
    } else {
      assert (ds + [d])[1..] == ds[1..] + [d];
      OutstandingAppend(ds[1..], d, direction);
    }
  }

  /** Replacing one row replaces its share in the total. */
  lemma {:induction false} OutstandingUpdate(ds: seq<Debt>, k: nat, d: Debt, direction: string)
    requires k < |ds|
    ensures Outstanding(ds[k := d], direction) == Outstanding(ds, direction) - Share(ds[k], direction) + Share(d, direction)
  {
    if k == 0 {
      assert ds[k := d][1..] == ds[1..];
    } else {
      assert ds[k := d][1..] == ds[1..][k - 1 := d];
      OutstandingUpdate(ds[1..], k - 1, d, direction);
    }
  }

  // ---- ordering of the debts: newest transaction first ----

  /** The date of the most recent transaction. */
  function LatestDate(txs: seq<Transaction>): (r: nat)
    requires txs != []
    ensures forall i :: 0 <= i < |txs| ==> txs[i].date <= r
    ensures exists i :: 0 <= i < |txs| && txs[i].date == r
  {
    if |txs| == 1 then txs[0].date
    else
      var m := LatestDate(txs[1..]);
      if txs[0].date >= m then txs[0].date
      else
        var j :| 0 <= j < |txs[1..]| && txs[1..][j].date == m;
        assert txs[j + 1].date == m;
        m
  }

  /** The sort key of a debt: its latest transaction date, or the earliest
      date when it has no transactions. */
  function LatestKey(d: Debt): nat
  {
    if d.transactions == [] then MinDate else LatestDate(d.transactions)
  }

  /** Newest first: keys never increase along the list. */
  predicate SortedByLatest(s: seq<Debt>)
  {
    forall i, j :: 0 <= i < j < |s| ==> LatestKey(s[i]) >= LatestKey(s[j])
  }

  /** A debt whose key is at least every key of a newest-first list may go
      in front of it. Stated apart so that `InsertByLatest` stays cheap to verify. */
  lemma SortedByLatestCons(d: Debt, s: seq<Debt>)
    requires SortedByLatest(s)
    requires forall x | x in s :: LatestKey(d) >= LatestKey(x)
    ensures SortedByLatest([d] + s)
  {
  }

  /** Puts `d` before the first debt whose key is not larger, so that debts
      with equal keys keep their order. */
  function InsertByLatest(d: Debt, s: seq<Debt>): (r: seq<Debt>)
    requires SortedByLatest(s)
    ensures SortedByLatest(r)
    ensures multiset(r) == multiset(s) + multiset{d}
  {
    if s == [] || LatestKey(d) >= LatestKey(s[0]) then
      SortedByLatestCons(d, s);
      [d] + s
    else
      var rest := InsertByLatest(d, s[1..]);
      assert s == [s[0]] + s[1..];
      forall x | x in rest ensures LatestKey(s[0]) >= LatestKey(x) {
        assert x in multiset(rest);
      }
      SortedByLatestCons(s[0], rest);
      [s[0]] + rest
  }

  /** The active debts ordered newest first (a stable sort in reverse order). */
  function SortByLatest(s: seq<Debt>): (r: seq<Debt>)
    ensures SortedByLatest(r)
    ensures multiset(r) == multiset(s)
  {
    if s == [] then []
    else
      assert s == [s[0]] + s[1..];
      InsertByLatest(s[0], SortByLatest(s[1..]))
  }

  // ---- ordering of the people: by name ----

  /** String order on names: code point by code point, a prefix first. */
  predicate NameLe(a: string, b: string)
  {
    if a == [] then true
    else if b == [] then false
    else if a[0] != b[0] then a[0] < b[0]
    else NameLe(a[1..], b[1..])
  }

  lemma {:induction false} NameLeTotal(a: string, b: string)
    ensures NameLe(a, b) || NameLe(b, a)
  {
    if a != [] && b != [] && a[0] == b[0] {
      NameLeTotal(a[1..], b[1..]);
    }
  }

  lemma {:induction false} NameLeTransitive(a: string, b: string, c: string)
    requires NameLe(a, b) && NameLe(b, c)
    ensures NameLe(a, c)
  {
    if a != [] && b != [] && c != [] && a[0] == b[0] && b[0] == c[0] {
      NameLeTransitive(a[1..], b[1..], c[1..]);
    }
  }

  predicate SortedByName(s: seq<Person>)
  {
    forall i, j :: 0 <= i < j < |s| ==> NameLe(s[i].name, s[j].name)
  }

  function InsertByName(p: Person, s: seq<Person>): (r: seq<Person>)
    requires SortedByName(s)
    ensures SortedByName(r)
    ensures multiset(r) == multiset(s) + multiset{p}
  {
    if s == [] || NameLe(p.name, s[0].name) then
      forall j | 0 <= j < |s| ensures NameLe(p.name, s[j].name) {
        if j > 0 { NameLeTransitive(p.name, s[0].name, s[j].name); }
      }
      assert forall j :: 1 <= j < |[p] + s| ==> ([p] + s)[j] == s[j - 1];
      [p] + s
    else
      NameLeTotal(p.name, s[0].name);
      var rest := InsertByName(p, s[1..]);
      assert s == [s[0]] + s[1..];
      forall x | x in rest ensures NameLe(s[0].name, x.name) {
        assert x in multiset(rest);
      }
      [s[0]] + rest
  }

  /** The people ordered by name. */
  function SortByName(s: seq<Person>): (r: seq<Person>)
    ensures SortedByName(r)
    ensures multiset(r) == multiset(s)
  {
    if s == [] then []
    else
      assert s == [s[0]] + s[1..];
      InsertByName(s[0], SortByName(s[1..]))
  }

  // ---- the index page ----

  /** The index page: active debts newest first, people by name, and the
      totals owed to me ('lent') and owed by me ('borrowed'). */
  function Index(persons: seq<Person>, debts: seq<Debt>): (v: View)
    ensures forall d :: d in v.debts <==> d in debts && d.status == Active
    ensures multiset(v.debts) == multiset(ActiveDebts(debts))
    ensures SortedByLatest(v.debts)
    ensures multiset(v.people) == multiset(persons) && SortedByName(v.people)
    ensures v.totalOwed == Outstanding(debts, Lent)
    ensures v.totalOwe == Outstanding(debts, Borrowed)
  {
    var active := ActiveDebts(debts);
    OutstandingIsSumOverActive(debts, Lent);
    OutstandingIsSumOverActive(debts, Borrowed);
    var sorted := SortByLatest(active);
    assert forall d :: d in sorted <==> d in multiset(active);
    View(sorted, SortByName(persons), SumBalances(active, Lent), SumBalances(active, Borrowed))
  }
}
