/** Ancestor search and expansion of AccountHierarchy.tsx: which rows are visible, and revealing a focused account. */
module AccountExpansion {
  import opened Prelude
  import opened AccountTree
  import opened AccountSort
  import opened AccountFilter

  // ----- Ancestors -----

  function Guids<T>(forest: seq<Node<T>>): set<string> {
    if forest == [] then {} else {forest[0].guid} + Guids(forest[0].children) + Guids(forest[1..])
  }

  /** No guid occurs twice in the forest. */
  predicate Unique<T>(forest: seq<Node<T>>) {
    forest != [] ==>
      && forest[0].guid !in Guids(forest[0].children) + Guids(forest[1..])
      && Guids(forest[0].children) !! Guids(forest[1..])
      && Unique(forest[0].children) && Unique(forest[1..])
  }

  /** Some account `target` lies in the forest and `path` is its proper ancestors, root first. */
  predicate Ancestors<T>(forest: seq<Node<T>>, path: seq<string>, target: string) {
    forest != [] &&
    (|| (path == [] && forest[0].guid == target)
     || (path != [] && path[0] == forest[0].guid && Ancestors(forest[0].children, path[1..], target))
     || Ancestors(forest[1..], path, target))
  }

  function FindAncestorPath<T>(forest: seq<Node<T>>, target: string): Option<seq<string>> {
    if forest == [] then None
    else if forest[0].guid == target then Some([])
    else
      match FindAncestorPath(forest[0].children, target)
      case Some(below) => Some([forest[0].guid] + below)
      case None => FindAncestorPath(forest[1..], target)
  }

  lemma {:induction false} PathStaysInside<T>(forest: seq<Node<T>>, path: seq<string>, target: string)
    requires Ancestors(forest, path, target)
    ensures target in Guids(forest) && (path != [] ==> path[0] in Guids(forest))
  {
    if path != [] && path[0] == forest[0].guid && Ancestors(forest[0].children, path[1..], target) {
      PathStaysInside(forest[0].children, path[1..], target);
    } else if Ancestors(forest[1..], path, target) {
      PathStaysInside(forest[1..], path, target);
    }
  }

  lemma {:induction false} OneAncestorPath<T>(forest: seq<Node<T>>, p: seq<string>, q: seq<string>, target: string)
    requires Unique(forest) && Ancestors(forest, p, target) && Ancestors(forest, q, target)
    ensures p == q
  {
    var kids, rest := forest[0].children, forest[1..];
    if Ancestors(rest, p, target) {
      PathStaysInside(rest, p, target);
      if q != [] && Ancestors(kids, q[1..], target) {
        PathStaysInside(kids, q[1..], target);
      }
      OneAncestorPath(rest, p, q, target);
    } else if p != [] && Ancestors(kids, p[1..], target) {
      PathStaysInside(kids, p[1..], target);
      if Ancestors(rest, q, target) {
        PathStaysInside(rest, q, target);
      }
      OneAncestorPath(kids, p[1..], q[1..], target);
      assert p == [p[0]] + p[1..] && q == [q[0]] + q[1..];
    } else if q != [] && Ancestors(kids, q[1..], target) {
      PathStaysInside(kids, q[1..], target);
    } else if Ancestors(rest, q, target) {
      PathStaysInside(rest, q, target);
    }
  }

  lemma {:induction false} FoundPathIsAncestors<T>(forest: seq<Node<T>>, target: string)
    ensures FindAncestorPath(forest, target).Some? <==> target in Guids(forest)
    ensures FindAncestorPath(forest, target).Some? ==> Ancestors(forest, FindAncestorPath(forest, target).value, target)
  {
    if forest != [] && forest[0].guid != target {
      FoundPathIsAncestors(forest[0].children, target);
      FoundPathIsAncestors(forest[1..], target);
      match FindAncestorPath(forest[0].children, target)
      case Some(below) => assert ([forest[0].guid] + below)[1..] == below;
      case None =>
    }
  }

  /** null exactly for an absent target; otherwise the one ancestor path there is. */
  lemma FindAncestorPathIsExact<T>(forest: seq<Node<T>>, target: string)
    requires Unique(forest)
    ensures FindAncestorPath(forest, target) == None <==> target !in Guids(forest)
    ensures forall path :: Ancestors(forest, path, target) <==> FindAncestorPath(forest, target) == Some(path)
  {
    FoundPathIsAncestors(forest, target);
    forall path | Ancestors(forest, path, target)
      ensures FindAncestorPath(forest, target) == Some(path)
    {
      PathStaysInside(forest, path, target);
      OneAncestorPath(forest, path, FindAncestorPath(forest, target).value, target);
    }
  }

  // ----- Expansion -----

  /** The table's ExpandedState: everything, or the guids whose record entry is true. */
  datatype Expanded = Everything | Only(guids: set<string>)

  /** The rows the table shows: an account's children only when it is expanded. */
  function Shown<T>(forest: seq<Node<T>>, e: Expanded): set<string> {
    if forest == [] then {}
    else
      {forest[0].guid}
      + (if e == Everything || forest[0].guid in e.guids then Shown(forest[0].children, e) else {})
      + Shown(forest[1..], e)
  }

  datatype Place = Place(guid: string, depth: nat, parent: bool)

  /** Every account with its depth below the roots and whether it has children. */
  function Places<T>(forest: seq<Node<T>>, depth: nat): set<Place> {
    if forest == [] then {}
    else
      {Place(forest[0].guid, depth, forest[0].children != [])}
      + Places(forest[0].children, depth + 1) + Places(forest[1..], depth)
  }

  /** `limit` None is Infinity. */
  predicate Within(depth: nat, limit: Option<nat>) {
    limit == None || depth < limit.value
  }

  /** Specification of buildExpandedDefaults: the parents at depth less than the limit. */
  ghost function Defaults<T>(forest: seq<Node<T>>, depth: nat, limit: Option<nat>): set<string> {
    set p | p in Places(forest, depth) && p.parent && Within(p.depth, limit) :: p.guid
  }

  lemma {:induction false} DeeperPlaces<T>(forest: seq<Node<T>>, depth: nat)
    ensures forall p :: p in Places(forest, depth) ==> p.depth >= depth
  {
    if forest != [] {
      DeeperPlaces(forest[0].children, depth + 1);
      DeeperPlaces(forest[1..], depth);
    }
  }

  lemma DefaultsCons<T>(node: Node<T>, rest: seq<Node<T>>, depth: nat, limit: Option<nat>)
    ensures Defaults([node] + rest, depth, limit)
         == (if node.children != [] && Within(depth, limit) then {node.guid} + Defaults(node.children, depth + 1, limit) else {})
            + Defaults(rest, depth, limit)
  {
    assert ([node] + rest)[1..] == rest;
    DeeperPlaces(node.children, depth + 1);
    assert node.children == [] ==> Places(node.children, depth + 1) == {};
    var whole := Defaults([node] + rest, depth, limit);
    if node.children != [] && Within(depth, limit) {
      assert Place(node.guid, depth, true) in Places([node] + rest, depth);
    }
  }

  /** buildExpandedDefaults' inner `visit`, filling the record in place. */
  method VisitDefaults<T>(forest: seq<Node<T>>, depth: nat, limit: Option<nat>, into: set<string>) returns (expanded: set<string>)
    ensures expanded == into + Defaults(forest, depth, limit)
    decreases forest
  {
    expanded := into;
    var i := 0;
    while i < |forest|
      invariant 0 <= i <= |forest|
      invariant expanded + Defaults(forest[i..], depth, limit) == into + Defaults(forest, depth, limit)
    {
      var node := forest[i];
      assert forest[i..] == [node] + forest[i + 1..];
      DefaultsCons(node, forest[i + 1..], depth, limit);
      if |node.children| > 0 && (limit == None || depth < limit.value) {
        expanded := VisitDefaults(node.children, depth + 1, limit, expanded + {node.guid});
      }
      i := i + 1;
    }
    assert Defaults(forest[i..], depth, limit) == {};
  }

  method BuildExpandedDefaults<T>(forest: seq<Node<T>>, limit: Option<nat>) returns (expanded: set<string>)
    ensures expanded == Defaults(forest, 0, limit)
  {
    expanded := VisitDefaults(forest, 0, limit, {});
  }

  /** applyManualExpanded on a record: a manual entry overrides the default of its guid. */
  ghost function Overridden(defaults: set<string>, manual: map<string, bool>): set<string> {
    (defaults - manual.Keys) + (set g | g in manual && manual[g])
  }

  method ApplyManualExpanded(defaults: set<string>, manual: map<string, bool>) returns (merged: set<string>)
    ensures merged == Overridden(defaults, manual)
    ensures forall g :: g in merged <==> if g in manual then manual[g] else g in defaults
  {
    merged := defaults;
    var todo := manual.Keys;
    while todo != {}
      invariant todo <= manual.Keys
      invariant forall g :: g in merged <==> if g in manual && g !in todo then manual[g] else g in defaults
      decreases todo
    {
      var guid :| guid in todo;
      if manual[guid] {
        merged := merged + {guid};
      } else {
        merged := merged - {guid};
      }
      todo := todo - {guid};
    }
  }

  /** The loop of the focus effect: every account on the path becomes manually expanded. */
  method MarkPath(manual: map<string, bool>, path: seq<string>) returns (next: map<string, bool>)
    ensures next == Marked(manual, path)
  {
    next := manual;
    for i := 0 to |path|
      invariant next == Marked(manual, path[..i])
    {
      next := next[path[i] := true];
      assert path[..i + 1] == path[..i] + [path[i]];
    }
    assert path[..|path|] == path;
  }

  ghost function Marked(manual: map<string, bool>, path: seq<string>): map<string, bool> {
    map g | g in manual.Keys + (set x | x in path) :: g in path || manual[g]
  }

  /** What the component hands the table. */
  ghost function TableExpansion<T>(forest: seq<Node<T>>, o: Filter, limit: Option<nat>, manual: map<string, bool>): Expanded {
    if o.text != "" || o.showToReview then Everything else Only(Overridden(Defaults(forest, 0, limit), manual))
  }

  // ----- Depth theorem -----

  ghost predicate ParentsFollowLimit<T>(forest: seq<Node<T>>, depth: nat, limit: Option<nat>, expanded: set<string>) {
    forall p :: p in Places(forest, depth) && p.parent ==> (p.guid in expanded <==> Within(p.depth, limit))
  }

  lemma {:induction false} ShownByDepth<T>(forest: seq<Node<T>>, depth: nat, limit: Option<nat>, expanded: set<string>)
    requires limit.Some? ==> depth <= limit.value
    requires ParentsFollowLimit(forest, depth, limit, expanded)
    ensures Shown(forest, Only(expanded)) == set p | p in Places(forest, depth) && (limit == None || p.depth <= limit.value) :: p.guid
    decreases forest
  {
    if forest != [] {
      var node := forest[0];
      DeeperPlaces(node.children, depth + 1);
      ShownByDepth(forest[1..], depth, limit, expanded);
      var here := Place(node.guid, depth, node.children != []);
      assert here in Places(forest, depth);
      if node.children == [] {
        assert Places(node.children, depth + 1) == {} && Shown(node.children, Only(expanded)) == {};
      } else if Within(depth, limit) {
        ShownByDepth(node.children, depth + 1, limit, expanded);
      }
      ShownSplits(forest, depth, limit, expanded);
    }
  }

  lemma ShownSplits<T>(forest: seq<Node<T>>, depth: nat, limit: Option<nat>, expanded: set<string>)
    requires forest != []
    ensures (set p | p in Places(forest, depth) && (limit == None || p.depth <= limit.value) :: p.guid)
         == (if limit == None || depth <= limit.value then {forest[0].guid} else {})
            + (set p | p in Places(forest[0].children, depth + 1) && (limit == None || p.depth <= limit.value) :: p.guid)
            + (set p | p in Places(forest[1..], depth) && (limit == None || p.depth <= limit.value) :: p.guid)
  {
    var here := Place(forest[0].guid, depth, forest[0].children != []);
    assert here in Places(forest, depth);
  }

  lemma {:induction false} PlacedOnce<T>(forest: seq<Node<T>>, depth: nat, p: Place, q: Place)
    requires Unique(forest) && p in Places(forest, depth) && q in Places(forest, depth) && p.guid == q.guid
    ensures p == q
    decreases forest
  {
    PlacesAreGuids(forest[0].children, depth + 1);
    PlacesAreGuids(forest[1..], depth);
    if p in Places(forest[0].children, depth + 1) && q in Places(forest[0].children, depth + 1) {
      PlacedOnce(forest[0].children, depth + 1, p, q);
    } else if p in Places(forest[1..], depth) && q in Places(forest[1..], depth) {
      PlacedOnce(forest[1..], depth, p, q);
    }
  }

  lemma {:induction false} PlacesAreGuids<T>(forest: seq<Node<T>>, depth: nat)
    ensures forall p :: p in Places(forest, depth) ==> p.guid in Guids(forest)
  {
    if forest != [] {
      PlacesAreGuids(forest[0].children, depth + 1);
      PlacesAreGuids(forest[1..], depth);
    }
  }

  /** With no manual overrides and no filter, the visible accounts are exactly those at depth at most the limit. */
  lemma VisibleUpToDepth<T>(forest: seq<Node<T>>, o: Filter, limit: Option<nat>)
    requires Unique(forest) && o.text == "" && !o.showToReview
    ensures Shown(forest, TableExpansion(forest, o, limit, map[]))
         == set p | p in Places(forest, 0) && (limit == None || p.depth <= limit.value) :: p.guid
  {
    var expanded := Overridden(Defaults(forest, 0, limit), map[]);
    forall p | p in Places(forest, 0) && p.parent
      ensures p.guid in expanded <==> Within(p.depth, limit)
    {
      if p.guid in expanded {
        var q :| q in Places(forest, 0) && q.parent && Within(q.depth, limit) && q.guid == p.guid;
        PlacedOnce(forest, 0, p, q);
      }
    }
    ShownByDepth(forest, 0, limit, expanded);
  }

  lemma {:induction false} EverythingShows<T>(forest: seq<Node<T>>)
    ensures Shown(forest, Everything) == Guids(forest)
  {
    if forest != [] {
      EverythingShows(forest[0].children);
      EverythingShows(forest[1..]);
    }
  }

  /** While a text or To Review filters the tree every account of it is visible, whatever was toggled. */
  lemma FilteringShowsEverything<T>(forest: seq<Node<T>>, o: Filter, limit: Option<nat>, manual: map<string, bool>)
    requires |o.text| > 0 || o.showToReview
    ensures Shown(forest, TableExpansion(forest, o, limit, manual)) == Guids(forest)
  {
    EverythingShows(forest);
  }

  /** Otherwise a toggled account is as toggled, and any other is expanded exactly as a parent above the limit. */
  lemma TogglesOverrideDepth<T>(forest: seq<Node<T>>, o: Filter, limit: Option<nat>, manual: map<string, bool>)
    requires |o.text| == 0 && !o.showToReview
    ensures var e := TableExpansion(forest, o, limit, manual);
      && e.Only?
      && (forall g | g in manual :: g in e.guids <==> manual[g])
      && (forall g | g !in manual ::
            g in e.guids <==> exists p :: p in Places(forest, 0) && p.guid == g && p.parent && (limit == None || p.depth < limit.value))
  {
  }

  // ----- Focus theorem -----

  lemma {:induction false} ExpandedPathShows<T>(forest: seq<Node<T>>, path: seq<string>, target: string, e: Expanded)
    requires Ancestors(forest, path, target)
    requires e == Everything || forall i :: 0 <= i < |path| ==> path[i] in e.guids
    ensures target in Shown(forest, e)
  {
    if path != [] && path[0] == forest[0].guid && Ancestors(forest[0].children, path[1..], target) {
      ExpandedPathShows(forest[0].children, path[1..], target, e);
    } else if Ancestors(forest[1..], path, target) {
      ExpandedPathShows(forest[1..], path, target, e);
    }
  }

  lemma {:induction false} FilterKeepsAncestors(derived: seq<DerivedAccount>, o: Filter, path: seq<string>, target: string)
    requires Ancestors(FilterForest(derived, o), path, target)
    ensures Ancestors(derived, path, target)
    decreases derived
  {
    var kept := FilterForest(derived, o);
    if derived != [] {
      if Visit(derived[0], o).Some? {
        assert kept[1..] == FilterForest(derived[1..], o);
        if Ancestors(kept[1..], path, target) {
          FilterKeepsAncestors(derived[1..], o, path, target);
        } else if path != [] {
          FilterKeepsAncestors(derived[0].children, o, path[1..], target);
        }
      } else {
        FilterKeepsAncestors(derived[1..], o, path, target);
      }
    }
  }

  lemma {:induction false} DeriveKeepsAncestors(forest: seq<Account>, c: Context, path: seq<string>, target: string)
    ensures Ancestors(DeriveForest(forest, c), path, target) <==> Ancestors(forest, path, target)
  {
    if forest != [] {
      assert DeriveForest(forest, c)[1..] == DeriveForest(forest[1..], c);
      DeriveKeepsAncestors(forest[1..], c, path, target);
      if path != [] {
        DeriveKeepsAncestors(forest[0].children, c, path[1..], target);
      }
    }
  }

  lemma AncestorsCons<T>(a: Node<T>, rest: seq<Node<T>>, path: seq<string>, target: string)
    ensures Ancestors([a] + rest, path, target) <==> Ancestors([a], path, target) || Ancestors(rest, path, target)
  {
    assert ([a] + rest)[1..] == rest && [a][1..] == [];
  }

  lemma {:induction false} InsertKeepsAncestors(a: Account, sorted: seq<Account>, o: Order, path: seq<string>, target: string)
    ensures Ancestors(Insert(a, sorted, o), path, target)
       <==> Ancestors([a], path, target) || Ancestors(sorted, path, target)
  {
    AncestorsCons(a, sorted, path, target);
    if sorted != [] {
      var first, rest := sorted[0], sorted[1..];
      assert sorted == [first] + rest;
      InsertKeepsAncestors(a, rest, o, path, target);
      AncestorsCons(first, Insert(a, rest, o), path, target);
      AncestorsCons(first, rest, path, target);
    }
  }

  lemma {:induction false} SortLevelKeepsAncestors(f: seq<Account>, o: Order, path: seq<string>, target: string)
    ensures Ancestors(SortLevel(f, o), path, target) <==> Ancestors(f, path, target)
  {
    if f != [] {
      var first, rest := f[0], f[1..];
      assert f == [first] + rest;
      SortLevelKeepsAncestors(rest, o, path, target);
      InsertKeepsAncestors(first, SortLevel(rest, o), o, path, target);
      AncestorsCons(first, rest, path, target);
    }
  }

  lemma {:induction false} SortKeepsAncestors(f: seq<Account>, o: Order, path: seq<string>, target: string)
    ensures Ancestors(SortTree(f, o), path, target) <==> Ancestors(f, path, target)
    decreases Size(f), 1
  {
    SortLevelKeepsAncestors(f, o, path, target);
    SortChildrenKeepsAncestors(SortLevel(f, o), o, path, target);
  }

  lemma {:induction false} SortChildrenKeepsAncestors(f: seq<Account>, o: Order, path: seq<string>, target: string)
    ensures Ancestors(SortChildren(f, o), path, target) <==> Ancestors(f, path, target)
    decreases Size(f), 0
  {
    if f != [] {
      assert SortChildren(f, o)[1..] == SortChildren(f[1..], o);
      SortChildrenKeepsAncestors(f[1..], o, path, target);
      if path != [] {
        SortKeepsAncestors(f[0].children, o, path[1..], target);
      }
    }
  }

  /**
   * Focusing: mark the path found in the unsorted, unfiltered tree. A target that survives the
   * filter is then visible in the sorted, rolled-up, filtered table under any depth default and
   * any earlier manual toggles.
   */
  lemma FocusRevealsTarget(accounts: seq<Account>, sort: Order, c: Context, o: Filter, limit: Option<nat>,
                           manual: map<string, bool>, target: string)
    requires Unique(accounts)
    requires target in Guids(FilterForest(DeriveForest(SortTree(accounts, sort), c), o))
    ensures FindAncestorPath(accounts, target).Some?
    ensures var table := FilterForest(DeriveForest(SortTree(accounts, sort), c), o);
      var next := Marked(manual, FindAncestorPath(accounts, target).value);
      target in Shown(table, TableExpansion(table, o, limit, next))
  {
    var derived := DeriveForest(SortTree(accounts, sort), c);
    var table := FilterForest(derived, o);
    FoundPathIsAncestors(table, target);
    var path := FindAncestorPath(table, target).value;
    FilterKeepsAncestors(derived, o, path, target);
    DeriveKeepsAncestors(SortTree(accounts, sort), c, path, target);
    SortKeepsAncestors(accounts, sort, path, target);
    FindAncestorPathIsExact(accounts, target);
    var next := Marked(manual, path);
    ExpandedPathShows(table, path, target, TableExpansion(table, o, limit, next));
  }
}
