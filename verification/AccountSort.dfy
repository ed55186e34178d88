/** `sortTree` of AccountHierarchy.tsx: a stable sort of every list of siblings. */
module AccountSort {
  import opened AccountTree

  datatype SortKey = ByName | ByTotalBalance | ByPeriodBalance

  /** `collate(a, b)`: a does not come after b in the user's locale. */
  datatype Order = Order(key: SortKey, collate: (string, string) -> bool)

  ghost predicate LocaleOrder(collate: (string, string) -> bool) {
    && (forall a, b :: collate(a, b) || collate(b, a))
    && (forall a, b, c :: collate(a, b) && collate(b, c) ==> collate(a, c))
  }

  /** getSortValue and the comparator: `a` may stay before `b`. */
  predicate NotAfter(a: Account, b: Account, o: Order) {
    match o.key
    case ByName => o.collate(a.name, b.name)
    case ByTotalBalance => a.data.total >= b.data.total
    case ByPeriodBalance => a.data.period >= b.data.period
  }

  function Size(forest: seq<Account>): nat {
    if forest == [] then 0 else 1 + Size(forest[0].children) + Size(forest[1..])
  }

  lemma SizeCons(a: Account, rest: seq<Account>)
    ensures Size([a] + rest) == 1 + Size(a.children) + Size(rest)
  {
    assert ([a] + rest)[1..] == rest;
  }

  function Insert(a: Account, sorted: seq<Account>, o: Order): (r: seq<Account>)
    ensures Size(r) == 1 + Size(a.children) + Size(sorted)
  {
    if sorted == [] || NotAfter(a, sorted[0], o) then
      SizeCons(a, sorted);
      [a] + sorted
    else
      SizeCons(sorted[0], Insert(a, sorted[1..], o));
      [sorted[0]] + Insert(a, sorted[1..], o)
  }

  /** Array.prototype.sort with this comparator: any stable sort gives this list. */
  function SortLevel(forest: seq<Account>, o: Order): (r: seq<Account>)
    ensures Size(r) == Size(forest)
  {
    if forest == [] then [] else Insert(forest[0], SortLevel(forest[1..], o), o)
  }

  function SortTree(forest: seq<Account>, o: Order): seq<Account>
    decreases Size(forest), 1
  {
    SortChildren(SortLevel(forest, o), o)
  }

  /** The `.map` that sorts below every account. */
  function SortChildren(forest: seq<Account>, o: Order): seq<Account>
    decreases Size(forest), 0
  {
    if forest == [] then []
    else [forest[0].(children := SortTree(forest[0].children, o))] + SortChildren(forest[1..], o)
  }

  // ----- It is a stable sort -----

  /** By name in the user's locale, by balance from large to small. */
  predicate InOrder(a: Account, b: Account, o: Order) {
    match o.key
    case ByName => o.collate(a.name, b.name)
    case ByTotalBalance => b.data.total <= a.data.total
    case ByPeriodBalance => b.data.period <= a.data.period
  }

  ghost predicate Sorted(forest: seq<Account>, o: Order) {
    forall i, j :: 0 <= i < j < |forest| ==> InOrder(forest[i], forest[j], o)
  }

  /** The accounts that tie with `a`, in their order. */
  function Ties(forest: seq<Account>, a: Account, o: Order): seq<Account> {
    if forest == [] then []
    else if Tie(forest[0], a, o) then [forest[0]] + Ties(forest[1..], a, o)
    else Ties(forest[1..], a, o)
  }

  lemma {:induction false} InsertIsPermutation(a: Account, sorted: seq<Account>, o: Order)
    ensures multiset(Insert(a, sorted, o)) == multiset(sorted) + multiset{a}
  {
    if sorted != [] && !NotAfter(a, sorted[0], o) {
      InsertIsPermutation(a, sorted[1..], o);
      assert sorted == [sorted[0]] + sorted[1..];
    }
  }

  lemma {:induction false} SortLevelIsPermutation(forest: seq<Account>, o: Order)
    ensures multiset(SortLevel(forest, o)) == multiset(forest)
  {
    if forest != [] {
      SortLevelIsPermutation(forest[1..], o);
      InsertIsPermutation(forest[0], SortLevel(forest[1..], o), o);
      assert forest == [forest[0]] + forest[1..];
    }
  }

  lemma InOrderTransitive(a: Account, b: Account, c: Account, o: Order)
    requires LocaleOrder(o.collate) && InOrder(a, b, o) && InOrder(b, c, o)
    ensures InOrder(a, c, o)
  {
  }

  lemma SortedCons(a: Account, rest: seq<Account>, o: Order)
    requires Sorted(rest, o) && forall x :: x in rest ==> InOrder(a, x, o)
    ensures Sorted([a] + rest, o)
  {
  }

  lemma {:induction false} InsertSorts(a: Account, sorted: seq<Account>, o: Order)
    requires LocaleOrder(o.collate) && Sorted(sorted, o)
    ensures Sorted(Insert(a, sorted, o), o)
  {
    if sorted == [] || NotAfter(a, sorted[0], o) {
      forall x | x in sorted
        ensures InOrder(a, x, o)
      {
        var i :| 0 <= i < |sorted| && sorted[i] == x;
        if i > 0 {
          InOrderTransitive(a, sorted[0], x, o);
        }
      }
      SortedCons(a, sorted, o);
    } else {
      InsertSorts(a, sorted[1..], o);
      InsertIsPermutation(a, sorted[1..], o);
      forall x | x in Insert(a, sorted[1..], o)
        ensures InOrder(sorted[0], x, o)
      {
        assert x in multiset(Insert(a, sorted[1..], o));
      }
      SortedCons(sorted[0], Insert(a, sorted[1..], o), o);
    }
  }

  /** Names the locale does not tell apart, or equal balances. */
  predicate Tie(a: Account, b: Account, o: Order) {
    match o.key
    case ByName => o.collate(a.name, b.name) && o.collate(b.name, a.name)
    case ByTotalBalance => a.data.total == b.data.total
    case ByPeriodBalance => a.data.period == b.data.period
  }

  lemma TiesCons(a: Account, rest: seq<Account>, x: Account, o: Order)
    ensures Ties([a] + rest, x, o) == (if Tie(a, x, o) then [a] else []) + Ties(rest, x, o)
  {
    assert ([a] + rest)[1..] == rest;
  }

  lemma TiesWithBoth(a: Account, b: Account, x: Account, o: Order)
    requires LocaleOrder(o.collate) && Tie(a, x, o) && Tie(b, x, o)
    ensures Tie(a, b, o)
  {
  }

  lemma {:induction false} InsertKeepsTies(a: Account, sorted: seq<Account>, x: Account, o: Order)
    requires LocaleOrder(o.collate)
    ensures Ties(Insert(a, sorted, o), x, o) == Ties([a] + sorted, x, o)
  {
    if sorted != [] && !NotAfter(a, sorted[0], o) {
      var first, rest := sorted[0], sorted[1..];
      assert sorted == [first] + rest;
      InsertKeepsTies(a, rest, x, o);
      TiesCons(a, sorted, x, o);
      TiesCons(a, rest, x, o);
      TiesCons(first, rest, x, o);
      TiesCons(first, Insert(a, rest, o), x, o);
      if Tie(a, x, o) && Tie(first, x, o) {
        TiesWithBoth(a, first, x, o);
      }
    }
  }

  /** Sorted, a permutation, and equal keys keep their order. */
  lemma {:induction false} SortLevelIsStableSort(forest: seq<Account>, x: Account, o: Order)
    requires LocaleOrder(o.collate)
    ensures Sorted(SortLevel(forest, o), o)
    ensures multiset(SortLevel(forest, o)) == multiset(forest)
    ensures Ties(SortLevel(forest, o), x, o) == Ties(forest, x, o)
  {
    SortLevelIsPermutation(forest, o);
    if forest != [] {
      SortLevelIsStableSort(forest[1..], x, o);
      InsertSorts(forest[0], SortLevel(forest[1..], o), o);
      InsertKeepsTies(forest[0], SortLevel(forest[1..], o), x, o);
      TiesCons(forest[0], SortLevel(forest[1..], o), x, o);
    }
  }

  lemma HeadsTie(g: seq<Account>, h: seq<Account>, o: Order)
    requires LocaleOrder(o.collate) && Sorted(g, o) && Sorted(h, o) && multiset(g) == multiset(h) && g != [] && h != []
    requires Ties(g, g[0], o) == Ties(h, g[0], o)
    ensures g[0] == h[0]
  {
    assert g[0] in multiset(h) && h[0] in multiset(g);
    assert NotAfter(h[0], g[0], o) && NotAfter(g[0], h[0], o);
    assert Ties(g, g[0], o)[0] == g[0] && Ties(h, g[0], o)[0] == h[0];
  }

  /** Those three facts leave one possible list, so whichever stable sort the engine uses gives this one. */
  lemma {:induction false} StableSortIsUnique(g: seq<Account>, h: seq<Account>, o: Order)
    requires LocaleOrder(o.collate) && Sorted(g, o) && Sorted(h, o) && multiset(g) == multiset(h)
    requires forall x :: Ties(g, x, o) == Ties(h, x, o)
    ensures g == h
    decreases |g|
  {
    assert |g| == |multiset(g)| == |multiset(h)| == |h|;
    if g != [] {
      HeadsTie(g, h, o);
      TailBag(g);
      TailBag(h);
      forall x
        ensures Ties(g[1..], x, o) == Ties(h[1..], x, o)
      {
        TailTies(g, h, x, o);
      }
      StableSortIsUnique(g[1..], h[1..], o);
      assert g == [g[0]] + g[1..] && h == [h[0]] + h[1..];
    }
  }

  lemma TailBag(g: seq<Account>)
    requires g != []
    ensures multiset(g[1..]) == multiset(g) - multiset{g[0]}
  {
    assert g == [g[0]] + g[1..];
  }

  lemma TailTies(g: seq<Account>, h: seq<Account>, x: Account, o: Order)
    requires g != [] && h != [] && g[0] == h[0] && Ties(g, x, o) == Ties(h, x, o)
    ensures Ties(g[1..], x, o) == Ties(h[1..], x, o)
  {
    if Tie(g[0], x, o) {
      assert Ties(g, x, o)[1..] == Ties(g[1..], x, o) && Ties(h, x, o)[1..] == Ties(h[1..], x, o);
    }
  }

  /** `g` is `f` with siblings permuted, at this level and at every level below. */
  ghost predicate SiblingsPermuted(f: seq<Account>, g: seq<Account>)
    decreases g, 1
  {
    exists h: seq<Account> :: multiset(h) == multiset(f) && SameUpToBelow(h, g)
  }

  ghost predicate SameUpToBelow(h: seq<Account>, g: seq<Account>)
    decreases g, 0
  {
    && |h| == |g|
    && forall i :: 0 <= i < |g| ==> h[i].(children := g[i].children) == g[i] && SiblingsPermuted(h[i].children, g[i].children)
  }

  lemma {:induction false} SortOnlyPermutesSiblings(f: seq<Account>, o: Order)
    ensures SiblingsPermuted(f, SortTree(f, o))
    decreases Size(f), 1
  {
    SortLevelIsPermutation(f, o);
    SortChildrenPermutesBelow(SortLevel(f, o), o);
  }

  lemma SameBelowCons(a: Account, rest: seq<Account>, b: Account, below: seq<Account>)
    requires a.(children := b.children) == b && SiblingsPermuted(a.children, b.children) && SameUpToBelow(rest, below)
    ensures SameUpToBelow([a] + rest, [b] + below)
  {
    var h, g := [a] + rest, [b] + below;
    forall i | 0 <= i < |g|
      ensures h[i].(children := g[i].children) == g[i] && SiblingsPermuted(h[i].children, g[i].children)
    {
      if i > 0 {
        assert h[i] == rest[i - 1] && g[i] == below[i - 1];
      }
    }
  }

  lemma {:induction false} SortChildrenPermutesBelow(f: seq<Account>, o: Order)
    ensures SameUpToBelow(f, SortChildren(f, o))
    decreases Size(f), 0
  {
    if f != [] {
      SortOnlyPermutesSiblings(f[0].children, o);
      SortChildrenPermutesBelow(f[1..], o);
      SameBelowCons(f[0], f[1..], f[0].(children := SortTree(f[0].children, o)), SortChildren(f[1..], o));
      assert f == [f[0]] + f[1..];
    }
  }

  // ----- Sorting first changes no roll-up -----

  lemma FlatBagCons(a: Account, rest: seq<Account>, c: Context)
    ensures multiset(Flat([a] + rest, c)) == multiset(Flat([a], c)) + multiset(Flat(rest, c))
  {
    FlatAppend([a], rest, c);
  }

  lemma {:induction false} InsertKeepsFlat(a: Account, sorted: seq<Account>, o: Order, c: Context)
    ensures multiset(Flat(Insert(a, sorted, o), c)) == multiset(Flat([a], c)) + multiset(Flat(sorted, c))
  {
    if sorted == [] || NotAfter(a, sorted[0], o) {
      FlatBagCons(a, sorted, c);
      assert [a] + sorted == Insert(a, sorted, o);
    } else {
      var first, rest := sorted[0], sorted[1..];
      assert sorted == [first] + rest;
      InsertKeepsFlat(a, rest, o, c);
      FlatBagCons(first, Insert(a, rest, o), c);
      FlatBagCons(first, rest, c);
    }
  }

  lemma {:induction false} SortLevelKeepsFlat(f: seq<Account>, o: Order, c: Context)
    ensures multiset(Flat(SortLevel(f, o), c)) == multiset(Flat(f, c))
  {
    if f != [] {
      var first, rest := f[0], f[1..];
      assert f == [first] + rest;
      SortLevelKeepsFlat(rest, o, c);
      InsertKeepsFlat(first, SortLevel(rest, o), o, c);
      FlatBagCons(first, rest, c);
    }
  }

  lemma {:induction false} SortTreeKeepsFlat(f: seq<Account>, o: Order, c: Context)
    ensures multiset(Flat(SortTree(f, o), c)) == multiset(Flat(f, c))
    decreases Size(f), 1
  {
    SortLevelKeepsFlat(f, o, c);
    SortChildrenKeepsFlat(SortLevel(f, o), o, c);
  }

  lemma {:induction false} SortChildrenKeepsFlat(f: seq<Account>, o: Order, c: Context)
    ensures multiset(Flat(SortChildren(f, o), c)) == multiset(Flat(f, c))
    decreases Size(f), 0
  {
    if f != [] {
      SortTreeKeepsFlat(f[0].children, o, c);
      SortChildrenKeepsFlat(f[1..], o, c);
      assert SortChildren(f, o)[1..] == SortChildren(f[1..], o);
    }
  }

  lemma SortedChildrenSameSums(a: Account, o: Order, c: Context)
    ensures SubtreeSums(a.(children := SortTree(a.children, o)), c) == SubtreeSums(a, c)
  {
    var b := a.(children := SortTree(a.children, o));
    SortTreeKeepsFlat(a.children, o, c);
    FoldIgnoresOrder(Flat(b.children, c), Flat(a.children, c));
    SubtreeIsOwnPlusChildren(a, c);
    SubtreeIsOwnPlusChildren(b, c);
  }

  /** Every derived account with its figures, in display order. */
  function Rows(derived: seq<DerivedAccount>): seq<(string, Sums)> {
    if derived == [] then []
    else [(derived[0].guid, derived[0].data)] + Rows(derived[0].children) + Rows(derived[1..])
  }

  function RowBag(f: seq<Account>, c: Context): multiset<(string, Sums)> {
    multiset(Rows(DeriveForest(f, c)))
  }

  lemma RowBagCons(a: Account, rest: seq<Account>, c: Context)
    ensures RowBag([a] + rest, c) == RowBag([a], c) + RowBag(rest, c)
  {
    var d := Derive(a, c);
    assert ([a] + rest)[1..] == rest && DeriveForest([a], c) == [d];
    assert ([d] + DeriveForest(rest, c))[1..] == DeriveForest(rest, c);
    assert Rows([d]) == [(d.guid, d.data)] + Rows(d.children);
  }

  lemma {:induction false} InsertKeepsRows(a: Account, sorted: seq<Account>, o: Order, c: Context)
    ensures RowBag(Insert(a, sorted, o), c) == RowBag([a], c) + RowBag(sorted, c)
  {
    if sorted == [] || NotAfter(a, sorted[0], o) {
      RowBagCons(a, sorted, c);
    } else {
      var first, rest := sorted[0], sorted[1..];
      assert sorted == [first] + rest;
      InsertKeepsRows(a, rest, o, c);
      RowBagCons(first, Insert(a, rest, o), c);
      RowBagCons(first, rest, c);
    }
  }

  lemma {:induction false} SortLevelKeepsRows(f: seq<Account>, o: Order, c: Context)
    ensures RowBag(SortLevel(f, o), c) == RowBag(f, c)
  {
    if f != [] {
      var first, rest := f[0], f[1..];
      assert f == [first] + rest;
      SortLevelKeepsRows(rest, o, c);
      InsertKeepsRows(first, SortLevel(rest, o), o, c);
      RowBagCons(first, rest, c);
    }
  }

  /** Sorting first, then rolling up, gives every account exactly the figures it has unsorted. */
  lemma {:induction false} SortChangesNoFigures(f: seq<Account>, o: Order, c: Context)
    ensures multiset(Rows(DeriveForest(SortTree(f, o), c))) == multiset(Rows(DeriveForest(f, c)))
    decreases Size(f), 1
  {
    SortLevelKeepsRows(f, o, c);
    SortChildrenKeepsRows(SortLevel(f, o), o, c);
  }

  lemma {:induction false} SortChildrenKeepsRows(f: seq<Account>, o: Order, c: Context)
    ensures RowBag(SortChildren(f, o), c) == RowBag(f, c)
    decreases Size(f), 0
  {
    if f != [] {
      var first, rest := f[0], f[1..];
      var below := first.(children := SortTree(first.children, o));
      assert f == [first] + rest;
      SortChangesNoFigures(first.children, o, c);
      SortChildrenKeepsRows(rest, o, c);
      SortedChildrenSameSums(first, o, c);
      SameTopSameBag(first, below, c);
      RowBagCons(below, SortChildren(rest, o), c);
      RowBagCons(first, rest, c);
    }
  }

  lemma SameTopSameBag(a: Account, b: Account, c: Context)
    requires a.guid == b.guid && SubtreeSums(a, c) == SubtreeSums(b, c) && RowBag(a.children, c) == RowBag(b.children, c)
    ensures RowBag([a], c) == RowBag([b], c)
  {
    assert Rows(DeriveForest([a], c)) == [(a.guid, SubtreeSums(a, c))] + Rows(DeriveForest(a.children, c));
    assert Rows(DeriveForest([b], c)) == [(b.guid, SubtreeSums(b, c))] + Rows(DeriveForest(b.children, c));
  }
}
