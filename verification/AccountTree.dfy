/**
 * The roll-up of AccountHierarchy.tsx (`aggregateUnreviewed`, `deriveTree`), specified by the
 * flat list of everything below an account. Money is exact; an ISO date is a day number.
 */
module AccountTree {
  import opened Prelude

  /** A tree node: `data` is what the server sent (Raw) or what the roll-up computed (Sums). */
  datatype Node<+T> = Node(guid: string, name: string, hidden: bool, data: T, children: seq<Node<T>>)

  /** Balances as parsed numbers; an absent USD string is None. */
  datatype Raw = Raw(accountType: string, total: real, period: real, totalUsd: Option<real>, periodUsd: Option<real>)

  datatype Sums = Sums(totalUsd: real, periodUsd: real, reconciledUsd: real, lastReconcile: Option<int>, unreviewed: nat)

  datatype ReconcileRow = ReconcileRow(reconciledUsd: real, lastReconcile: Option<int>)

  datatype Reversal = NoReversal | Credit | IncomeExpense

  /** What the component reads besides the tree: the review map, the reconcile map and the reversal preference. */
  datatype Context = Context(unreviewed: map<string, nat>, reconcile: map<string, ReconcileRow>, reversal: Reversal)

  type Account = Node<Raw>
  type DerivedAccount = Node<Sums>

  function ApplyReversal(balance: real, accountType: string, mode: Reversal): real {
    if mode == Credit && accountType in ["INCOME", "LIABILITY", "EQUITY", "CREDIT"] then -balance
    else if mode == IncomeExpense && accountType in ["INCOME", "EXPENSE"] then -balance
    else balance
  }

  function UnreviewedOf(guid: string, c: Context): nat {
    if guid in c.unreviewed then c.unreviewed[guid] else 0
  }

  function ReconcileOf(guid: string, c: Context): ReconcileRow {
    if guid in c.reconcile then c.reconcile[guid] else ReconcileRow(0.0, None)
  }

  /** An account's own figures, before anything below it is added. */
  function Own(a: Account, c: Context): Sums {
    var usd := if a.data.totalUsd.Some? then a.data.totalUsd.value else a.data.total;
    var period := if a.data.periodUsd.Some? then a.data.periodUsd.value else a.data.period;
    var row := ReconcileOf(a.guid, c);
    Sums(ApplyReversal(usd, a.data.accountType, c.reversal),
         ApplyReversal(period, a.data.accountType, c.reversal),
         ApplyReversal(row.reconciledUsd, a.data.accountType, c.reversal),
         row.lastReconcile,
         UnreviewedOf(a.guid, c))
  }

  /** getMaxDate: the later of two dates, a missing one never wins. */
  function LaterDate(a: Option<int>, b: Option<int>): Option<int> {
    if a == None then b
    else if b == None then a
    else if a.value > b.value then a else b
  }

  // ----- The flat specification -----

  /** The own figures of every account of the forest, parents before children. */
  function Flat(forest: seq<Account>, c: Context): seq<Sums> {
    if forest == [] then []
    else [Own(forest[0], c)] + Flat(forest[0].children, c) + Flat(forest[1..], c)
  }

  const NOTHING := Sums(0.0, 0.0, 0.0, None, 0)

  function Plus(a: Sums, b: Sums): Sums {
    Sums(a.totalUsd + b.totalUsd, a.periodUsd + b.periodUsd, a.reconciledUsd + b.reconciledUsd,
         LaterDate(a.lastReconcile, b.lastReconcile), a.unreviewed + b.unreviewed)
  }

  function Fold(rows: seq<Sums>): Sums {
    if rows == [] then NOTHING else Plus(rows[0], Fold(rows[1..]))
  }

  /** Every roll-up of `a`: one fold over its whole flat subtree. */
  function SubtreeSums(a: Account, c: Context): Sums {
    Fold(Flat([a], c))
  }

  function Derive(a: Account, c: Context): DerivedAccount {
    Node(a.guid, a.name, a.hidden, SubtreeSums(a, c), DeriveForest(a.children, c))
  }

  function DeriveForest(forest: seq<Account>, c: Context): seq<DerivedAccount> {
    if forest == [] then [] else [Derive(forest[0], c)] + DeriveForest(forest[1..], c)
  }

  // ----- Folding -----

  lemma {:induction false} FoldAppend(a: seq<Sums>, b: seq<Sums>)
    ensures Fold(a + b) == Plus(Fold(a), Fold(b))
  {
    if a == [] {
      assert a + b == b;
    } else {
      assert (a + b)[1..] == a[1..] + b;
      FoldAppend(a[1..], b);
    }
  }

  lemma PlusSwaps(x: Sums, y: Sums, z: Sums)
    ensures Plus(x, Plus(y, z)) == Plus(y, Plus(x, z))
  {
  }

  lemma FoldAround(before: seq<Sums>, x: Sums, after: seq<Sums>)
    ensures Fold(before + ([x] + after)) == Plus(x, Fold(before + after))
  {
    FoldAppend(before, after);
    FoldAppend(before, [x] + after);
    assert ([x] + after)[1..] == after;
    PlusSwaps(Fold(before), x, Fold(after));
  }

  lemma SameWithoutHead(a: seq<Sums>, before: seq<Sums>, after: seq<Sums>)
    requires a != [] && multiset(a) == multiset(before + ([a[0]] + after))
    ensures multiset(a[1..]) == multiset(before + after)
  {
    assert a == [a[0]] + a[1..];
    assert multiset(a[1..]) == multiset(a) - multiset{a[0]};
    assert multiset(before + after) == multiset(before + ([a[0]] + after)) - multiset{a[0]};
  }

  /** The order of the rows does not matter, only how often each occurs. */
  lemma {:induction false} FoldIgnoresOrder(a: seq<Sums>, b: seq<Sums>)
    requires multiset(a) == multiset(b)
    ensures Fold(a) == Fold(b)
    decreases |a|
  {
    if a == [] {
      assert |multiset(b)| == 0;
    } else {
      assert a[0] in multiset(b);
      var i :| 0 <= i < |b| && b[i] == a[0];
      var before, after := b[..i], b[i + 1..];
      assert b == before + ([a[0]] + after);
      SameWithoutHead(a, before, after);
      FoldIgnoresOrder(a[1..], before + after);
      FoldAround(before, a[0], after);
    }
  }

  lemma {:induction false} FlatAppend(a: seq<Account>, b: seq<Account>, c: Context)
    ensures Flat(a + b, c) == Flat(a, c) + Flat(b, c)
  {
    if a == [] {
      assert a + b == b;
    } else {
      assert (a + b)[1..] == a[1..] + b;
      FlatAppend(a[1..], b, c);
    }
  }

  lemma SubtreeIsOwnPlusChildren(a: Account, c: Context)
    ensures SubtreeSums(a, c) == Plus(Own(a, c), Fold(Flat(a.children, c)))
  {
    assert Flat([a], c) == [Own(a, c)] + Flat(a.children, c);
  }

  lemma FoldOneMore(done: seq<Account>, a: Account, c: Context)
    ensures Fold(Flat(done + [a], c)) == Plus(Fold(Flat(done, c)), SubtreeSums(a, c))
  {
    FlatAppend(done, [a], c);
    FoldAppend(Flat(done, c), Flat([a], c));
  }

  lemma {:induction false} DeriveOneMore(done: seq<Account>, a: Account, c: Context)
    ensures DeriveForest(done + [a], c) == DeriveForest(done, c) + [Derive(a, c)]
  {
    if done != [] {
      assert (done + [a])[1..] == done[1..] + [a];
      DeriveOneMore(done[1..], a, c);
    }
  }

  // ----- Each account's own contribution, from the data alone -----

  /** Every account of the forest, parents before children. */
  function Subtree(forest: seq<Account>): seq<Account> {
    if forest == [] then [] else [forest[0]] + Subtree(forest[0].children) + Subtree(forest[1..])
  }

  /** The user's preference turns the sign of this account's balances. */
  predicate Turned(a: Account, mode: Reversal) {
    var t := a.data.accountType;
    || (mode == Credit && (t == "INCOME" || t == "LIABILITY" || t == "EQUITY" || t == "CREDIT"))
    || (mode == IncomeExpense && (t == "INCOME" || t == "EXPENSE"))
  }

  function Signed(amount: real, a: Account, c: Context): real {
    if Turned(a, c.reversal) then 0.0 - amount else amount
  }

  /** In dollars if the server converted it, else as it stands. */
  function TotalOf(a: Account, c: Context): real {
    Signed(match a.data.totalUsd case Some(usd) => usd case None => a.data.total, a, c)
  }

  function PeriodOf(a: Account, c: Context): real {
    Signed(match a.data.periodUsd case Some(usd) => usd case None => a.data.period, a, c)
  }

  function ReconciledOf(a: Account, c: Context): real {
    if a.guid in c.reconcile then Signed(c.reconcile[a.guid].reconciledUsd, a, c) else 0.0
  }

  function DateOf(a: Account, c: Context): Option<int> {
    if a.guid in c.reconcile then c.reconcile[a.guid].lastReconcile else None
  }

  function ToReviewOf(a: Account, c: Context): int {
    if a.guid in c.unreviewed then c.unreviewed[a.guid] else 0
  }

  function Total(accounts: seq<Account>, f: Account -> real): real {
    if accounts == [] then 0.0 else f(accounts[0]) + Total(accounts[1..], f)
  }

  function Count(accounts: seq<Account>, f: Account -> int): int {
    if accounts == [] then 0 else f(accounts[0]) + Count(accounts[1..], f)
  }

  /** `latest` is the latest of the accounts' reconcile dates, and none if no account has one. */
  ghost predicate IsLatestDate(accounts: seq<Account>, c: Context, latest: Option<int>) {
    match latest
    case None => forall a :: a in accounts ==> DateOf(a, c) == None
    case Some(d) =>
      && (exists a :: a in accounts && DateOf(a, c) == Some(d))
      && (forall a :: a in accounts && DateOf(a, c).Some? ==> DateOf(a, c).value <= d)
  }

  // ----- The roll-up adds them up -----

  /** One account's figures joined to those of the accounts after it. */
  lemma OneMoreAccount(a: Account, rest: seq<Account>, c: Context, s: Sums)
    requires IsLatestDate(rest, c, s.lastReconcile)
    ensures var joined := Plus(Own(a, c), s);
      && joined.totalUsd == TotalOf(a, c) + s.totalUsd && joined.periodUsd == PeriodOf(a, c) + s.periodUsd
      && joined.reconciledUsd == ReconciledOf(a, c) + s.reconciledUsd
      && joined.unreviewed == ToReviewOf(a, c) + s.unreviewed
      && IsLatestDate([a] + rest, c, joined.lastReconcile)
  {
    var joined := Plus(Own(a, c), s);
    assert forall x :: x in [a] + rest <==> x == a || x in rest;
    assert DateOf(a, c) == Own(a, c).lastReconcile;
  }

  function OwnFigures(accounts: seq<Account>, c: Context): seq<Sums> {
    if accounts == [] then [] else [Own(accounts[0], c)] + OwnFigures(accounts[1..], c)
  }

  lemma {:induction false} OwnFiguresAppend(a: seq<Account>, b: seq<Account>, c: Context)
    ensures OwnFigures(a + b, c) == OwnFigures(a, c) + OwnFigures(b, c)
  {
    if a == [] {
      assert a + b == b;
    } else {
      assert (a + b)[1..] == a[1..] + b;
      OwnFiguresAppend(a[1..], b, c);
    }
  }

  lemma {:induction false} FlatIsOwnFigures(forest: seq<Account>, c: Context)
    ensures Flat(forest, c) == OwnFigures(Subtree(forest), c)
  {
    if forest != [] {
      var a := forest[0];
      FlatIsOwnFigures(a.children, c);
      FlatIsOwnFigures(forest[1..], c);
      OwnFiguresAppend([a] + Subtree(a.children), Subtree(forest[1..]), c);
      OwnFiguresAppend([a], Subtree(a.children), c);
    }
  }

  /** The five figures are those of these accounts. */
  ghost predicate AreFiguresOf(s: Sums, accounts: seq<Account>, c: Context) {
    && s.totalUsd == Total(accounts, a => TotalOf(a, c))
    && s.periodUsd == Total(accounts, a => PeriodOf(a, c))
    && s.reconciledUsd == Total(accounts, a => ReconciledOf(a, c))
    && s.unreviewed == Count(accounts, a => ToReviewOf(a, c))
    && IsLatestDate(accounts, c, s.lastReconcile)
  }

  lemma {:induction false} FoldedFigures(accounts: seq<Account>, c: Context)
    ensures AreFiguresOf(Fold(OwnFigures(accounts, c)), accounts, c)
  {
    if accounts != [] {
      var a, rest := accounts[0], accounts[1..];
      FoldedFigures(rest, c);
      assert OwnFigures(accounts, c)[1..] == OwnFigures(rest, c);
      OneMoreAccount(a, rest, c, Fold(OwnFigures(rest, c)));
      assert accounts == [a] + rest;
    }
  }

  /**
   * What an account shows: over itself and every account below it, the sum of the balances in dollars
   * with the user's signs, the sum of the reconciled amounts, the number of transactions to review,
   * and the latest reconcile date any of them has.
   */
  lemma FiguresOfTheSubtree(a: Account, c: Context)
    ensures AreFiguresOf(Derive(a, c).data, Subtree([a]), c)
  {
    FlatIsOwnFigures([a], c);
    FoldedFigures(Subtree([a]), c);
  }

  // ----- The accumulating code -----

  /** aggregateUnreviewed: its own count, then one child after another. */
  method AggregateUnreviewed(a: Account, c: Context) returns (count: nat)
    ensures count == SubtreeSums(a, c).unreviewed
    ensures count == Count(Subtree([a]), x => ToReviewOf(x, c))
    decreases a
  {
    FiguresOfTheSubtree(a, c);
    count := UnreviewedOf(a.guid, c);
    for i := 0 to |a.children|
      invariant count == UnreviewedOf(a.guid, c) + Fold(Flat(a.children[..i], c)).unreviewed
    {
      var below := AggregateUnreviewed(a.children[i], c);
      count := count + below;
      FoldOneMore(a.children[..i], a.children[i], c);
      assert a.children[..i + 1] == a.children[..i] + [a.children[i]];
    }
    assert a.children[..|a.children|] == a.children;
    SubtreeIsOwnPlusChildren(a, c);
  }

  lemma {:induction false} DerivedAt(forest: seq<Account>, c: Context, k: nat)
    requires k < |forest|
    ensures |DeriveForest(forest, c)| == |forest| && DeriveForest(forest, c)[k] == Derive(forest[k], c)
  {
    if |forest| > 1 {
      DerivedAt(forest[1..], c, if k > 0 then k - 1 else 0);
    }
  }

  /** deriveNode: derive the children first, then add their finished figures to the account's own. */
  method DeriveNode(a: Account, c: Context) returns (d: DerivedAccount)
    ensures d == Derive(a, c) && AreFiguresOf(d.data, Subtree([a]), c)
    decreases a, 1
  {
    var children := DeriveTree(a.children, c);
    var sums := AddChildren(Own(a, c), children, a.children, c);
    SubtreeIsOwnPlusChildren(a, c);
    var unreviewed := AggregateUnreviewed(a, c);
    d := Node(a.guid, a.name, a.hidden, sums.(unreviewed := unreviewed), children);
    FiguresOfTheSubtree(a, c);
  }

  method AddChildren(own: Sums, children: seq<DerivedAccount>, ghost from: seq<Account>, ghost c: Context) returns (sums: Sums)
    requires children == DeriveForest(from, c)
    ensures sums == Plus(own, Fold(Flat(from, c))).(unreviewed := own.unreviewed)
  {
    if |from| > 0 {
      DerivedAt(from, c, 0);
    }
    sums := own;
    for i := 0 to |children|
      invariant |children| == |from|
      invariant sums == Plus(own, Fold(Flat(from[..i], c))).(unreviewed := own.unreviewed)
    {
      var child := children[i].data;
      sums := Sums(sums.totalUsd + child.totalUsd, sums.periodUsd + child.periodUsd, sums.reconciledUsd + child.reconciledUsd,
                   LaterDate(sums.lastReconcile, child.lastReconcile), sums.unreviewed);
      DerivedAt(from, c, i);
      FoldOneMore(from[..i], from[i], c);
      assert from[..i + 1] == from[..i] + [from[i]];
    }
    assert from[..|from|] == from;
  }

  method DeriveTree(forest: seq<Account>, c: Context) returns (derived: seq<DerivedAccount>)
    ensures derived == DeriveForest(forest, c)
    ensures |derived| == |forest|
    ensures forall k :: 0 <= k < |forest| ==> AreFiguresOf(derived[k].data, Subtree([forest[k]]), c)
    decreases forest, 0
  {
    derived := [];
    for i := 0 to |forest|
      invariant derived == DeriveForest(forest[..i], c) && |derived| == i
      invariant forall k :: 0 <= k < i ==> AreFiguresOf(derived[k].data, Subtree([forest[k]]), c)
    {
      var d := DeriveNode(forest[i], c);
      derived := derived + [d];
      DeriveOneMore(forest[..i], forest[i], c);
      assert forest[..i + 1] == forest[..i] + [forest[i]];
    }
    assert forest[..|forest|] == forest;
  }
}
