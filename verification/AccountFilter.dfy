/** `filterTree` of AccountHierarchy.tsx against a specification by paths from the root. */
module AccountFilter {
  import opened Prelude
  import opened Text
  import opened AccountTree
  import opened AccountSort

  /** `lower` is String.prototype.toLowerCase. */
  datatype Filter = Filter(text: string, showHidden: bool, showToReview: bool, lower: string -> string)

  function Needle(o: Filter): string {
    o.lower(Trim(o.text))
  }

  predicate OccursAt(s: string, sub: string, i: nat) {
    i + |sub| <= |s| && s[i..i + |sub|] == sub
  }

  predicate Contains(s: string, sub: string) {
    exists i: nat :: i <= |s| && OccursAt(s, sub, i)
  }

  predicate Concealed(d: DerivedAccount, o: Filter) {
    d.hidden && !o.showHidden
  }

  predicate MatchesText(d: DerivedAccount, o: Filter) {
    |Needle(o)| == 0 || Contains(o.lower(d.name), Needle(o))
  }

  predicate PassesReview(d: DerivedAccount, o: Filter) {
    !o.showToReview || d.data.unreviewed > 0
  }

  function Visit(d: DerivedAccount, o: Filter): Option<DerivedAccount>
    decreases d, 1
  {
    if Concealed(d, o) then None
    else
      var kept := FilterForest(d.children, o);
      if (MatchesText(d, o) || kept != []) && PassesReview(d, o) then Some(d.(children := kept)) else None
  }

  function FilterForest(derived: seq<DerivedAccount>, o: Filter): seq<DerivedAccount>
    decreases derived, 0
  {
    if derived == [] then []
    else
      match Visit(derived[0], o)
      case None => FilterForest(derived[1..], o)
      case Some(d) => [d] + FilterForest(derived[1..], o)
  }

  // ----- Which accounts are kept -----

  /** The filter text, trimmed and lower-cased, stands somewhere in the lower-cased name. */
  ghost predicate NameHasText(d: DerivedAccount, o: Filter) {
    exists front: string, back: string :: o.lower(d.name) == front + o.lower(Trim(o.text)) + back
  }

  ghost predicate IsMatch(d: DerivedAccount, o: Filter) {
    NameHasText(d, o) && (o.showToReview ==> d.data.unreviewed >= 1)
  }

  lemma TextMatchIs(d: DerivedAccount, o: Filter)
    ensures MatchesText(d, o) <==> NameHasText(d, o)
  {
    var name, sub := o.lower(d.name), Needle(o);
    if |sub| == 0 {
      assert name == "" + sub + name;
    } else if Contains(name, sub) {
      var i: nat :| i <= |name| && OccursAt(name, sub, i);
      assert name == name[..i] + sub + name[i + |sub|..];
    }
    if NameHasText(d, o) {
      var front: string, back: string :| name == front + sub + back;
      assert name[|front|..|front| + |sub|] == sub;
      assert OccursAt(name, sub, |front|);
    }
  }

  /** Following child indices `path` down from `d` crosses no account filtered as hidden and ends at a match. */
  ghost predicate LeadsToMatch(d: DerivedAccount, path: seq<nat>, o: Filter)
    decreases path
  {
    && (d.hidden ==> o.showHidden)
    && if path == [] then IsMatch(d, o)
       else path[0] < |d.children| && LeadsToMatch(d.children[path[0]], path[1..], o)
  }

  ghost predicate HasMatch(d: DerivedAccount, o: Filter) {
    exists path :: LeadsToMatch(d, path, o)
  }

  /** Unreviewed counts are roll-ups: no account has fewer than one of its children. */
  ghost predicate RolledUp(derived: seq<DerivedAccount>) {
    derived != [] ==>
      && (forall k :: 0 <= k < |derived[0].children| ==> derived[0].children[k].data.unreviewed <= derived[0].data.unreviewed)
      && RolledUp(derived[0].children) && RolledUp(derived[1..])
  }

  lemma {:induction false} RolledUpAt(derived: seq<DerivedAccount>, k: nat)
    requires RolledUp(derived) && k < |derived|
    ensures RolledUp([derived[k]]) && RolledUp(derived[k].children)
  {
    assert [derived[0]][1..] == [];
    if k > 0 {
      RolledUpAt(derived[1..], k - 1);
    }
  }

  lemma {:induction false} DeriveRollsUp(forest: seq<Account>, c: Context)
    ensures RolledUp(DeriveForest(forest, c))
  {
    if forest != [] {
      var a := forest[0];
      DeriveRollsUp(a.children, c);
      DeriveRollsUp(forest[1..], c);
      assert DeriveForest(forest, c)[1..] == DeriveForest(forest[1..], c);
      SubtreeIsOwnPlusChildren(a, c);
      forall k | 0 <= k < |Derive(a, c).children|
        ensures Derive(a, c).children[k].data.unreviewed <= Derive(a, c).data.unreviewed
      {
        ChildCountBelow(a.children, c, k);
      }
    }
  }

  lemma {:induction false} ChildCountBelow(forest: seq<Account>, c: Context, k: nat)
    requires k < |DeriveForest(forest, c)|
    ensures DeriveForest(forest, c)[k].data.unreviewed <= Fold(Flat(forest, c)).unreviewed
  {
    if forest != [] {
      FlatAppend([forest[0]], forest[1..], c);
      assert forest == [forest[0]] + forest[1..];
      FoldAppend(Flat([forest[0]], c), Flat(forest[1..], c));
      if k > 0 {
        ChildCountBelow(forest[1..], c, k - 1);
      }
    }
  }

  lemma {:induction false} MatchBelowIsReviewed(d: DerivedAccount, path: seq<nat>, o: Filter)
    requires RolledUp([d]) && LeadsToMatch(d, path, o)
    ensures PassesReview(d, o)
    decreases path
  {
    if path != [] {
      RolledUpAt(d.children, path[0]);
      MatchBelowIsReviewed(d.children[path[0]], path[1..], o);
    }
  }

  lemma {:induction false} SomeChildKept(derived: seq<DerivedAccount>, o: Filter)
    ensures FilterForest(derived, o) != [] <==> exists k :: 0 <= k < |derived| && Visit(derived[k], o).Some?
  {
    if derived != [] {
      SomeChildKept(derived[1..], o);
      if FilterForest(derived[1..], o) != [] {
        var k :| 0 <= k < |derived[1..]| && Visit(derived[1..][k], o).Some?;
        assert Visit(derived[k + 1], o).Some?;
      }
      if exists k :: 0 < k < |derived| && Visit(derived[k], o).Some? {
        var k :| 0 < k < |derived| && Visit(derived[k], o).Some?;
        assert derived[1..][k - 1] == derived[k];
      }
    }
  }

  /**
   * An account survives exactly when some descendant-or-self, reached without crossing a
   * concealed account, matches the text and passes To Review.
   */
  lemma {:induction false} KeptIffMatchBelow(d: DerivedAccount, o: Filter)
    requires RolledUp([d])
    ensures Visit(d, o).Some? <==> HasMatch(d, o)
    decreases d
  {
    SomeChildKept(d.children, o);
    forall k | 0 <= k < |d.children|
      ensures Visit(d.children[k], o).Some? <==> HasMatch(d.children[k], o)
    {
      RolledUpAt(d.children, k);
      KeptIffMatchBelow(d.children[k], o);
    }
    TextMatchIs(d, o);
    if Visit(d, o).Some? {
      if MatchesText(d, o) {
        assert LeadsToMatch(d, [], o);
      } else {
        var k :| 0 <= k < |d.children| && Visit(d.children[k], o).Some?;
        var path :| LeadsToMatch(d.children[k], path, o);
        assert ([k] + path)[1..] == path;
        assert LeadsToMatch(d, [k] + path, o);
      }
    }
    if HasMatch(d, o) {
      var path :| LeadsToMatch(d, path, o);
      MatchBelowIsReviewed(d, path, o);
      if path != [] {
        assert LeadsToMatch(d.children[path[0]], path[1..], o);
        assert HasMatch(d.children[path[0]], o);
      }
    }
  }

  /** The rows the filter should show: nothing concealed from the root down, and a match at or below. */
  ghost function KeptRows(derived: seq<DerivedAccount>, o: Filter): seq<(string, Sums)> {
    if derived == [] then []
    else
      var d := derived[0];
      (if d.hidden && !o.showHidden then []
       else (if HasMatch(d, o) then [(d.guid, d.data)] else []) + KeptRows(d.children, o))
      + KeptRows(derived[1..], o)
  }

  lemma {:induction false} NoMatchNoRows(derived: seq<DerivedAccount>, o: Filter)
    requires forall k :: 0 <= k < |derived| ==> !HasMatch(derived[k], o)
    ensures KeptRows(derived, o) == []
  {
    if derived != [] {
      var d := derived[0];
      if !Concealed(d, o) {
        NoMatchAbove(d, o);
        NoMatchNoRows(d.children, o);
      }
      NoMatchNoRows(derived[1..], o);
    }
  }

  lemma NoMatchAbove(d: DerivedAccount, o: Filter)
    requires !HasMatch(d, o) && (d.hidden ==> o.showHidden)
    ensures forall k :: 0 <= k < |d.children| ==> !HasMatch(d.children[k], o)
  {
    forall k | 0 <= k < |d.children|
      ensures !HasMatch(d.children[k], o)
    {
      if HasMatch(d.children[k], o) {
        var path :| LeadsToMatch(d.children[k], path, o);
        assert ([k] + path)[1..] == path;
        assert LeadsToMatch(d, [k] + path, o);
      }
    }
  }

  /** The filtered tree lists exactly those rows, in order and with the figures untouched. */
  lemma {:induction false} FilterKeepsExactly(derived: seq<DerivedAccount>, o: Filter)
    requires RolledUp(derived)
    ensures Rows(FilterForest(derived, o)) == KeptRows(derived, o)
    decreases derived
  {
    if derived != [] {
      var d := derived[0];
      RolledUpAt(derived, 0);
      KeptIffMatchBelow(d, o);
      FilterKeepsExactly(d.children, o);
      FilterKeepsExactly(derived[1..], o);
      if Visit(d, o).Some? {
        assert ([Visit(d, o).value] + FilterForest(derived[1..], o))[1..] == FilterForest(derived[1..], o);
      } else if !Concealed(d, o) {
        NoMatchAbove(d, o);
        NoMatchNoRows(d.children, o);
      }
    }
  }

  /** The statement for what the component shows: sort, roll up, filter. */
  lemma ShownAccounts(forest: seq<Account>, sort: Order, c: Context, o: Filter)
    ensures var derived := DeriveForest(SortTree(forest, sort), c);
      Rows(FilterForest(derived, o)) == KeptRows(derived, o)
  {
    DeriveRollsUp(SortTree(forest, sort), c);
    FilterKeepsExactly(DeriveForest(SortTree(forest, sort), c), o);
  }

  // ----- Shape of the result -----

  /** Nothing concealed remains, everything passes To Review, and every leaf matches the text itself. */
  ghost predicate Clean(derived: seq<DerivedAccount>, o: Filter) {
    derived == [] ||
    (var d := derived[0];
     && (d.hidden ==> o.showHidden) && (o.showToReview ==> d.data.unreviewed >= 1)
     && (d.children == [] ==> NameHasText(d, o))
     && Clean(d.children, o) && Clean(derived[1..], o))
  }

  lemma {:induction false} FilterIsClean(derived: seq<DerivedAccount>, o: Filter)
    ensures Clean(FilterForest(derived, o), o)
    decreases derived
  {
    if derived != [] {
      TextMatchIs(derived[0], o);
      FilterIsClean(derived[0].children, o);
      FilterIsClean(derived[1..], o);
      var rest := FilterForest(derived[1..], o);
      if Visit(derived[0], o).Some? {
        assert ([Visit(derived[0], o).value] + rest)[1..] == rest;
      }
    }
  }

  lemma {:induction false} CleanIsFixed(derived: seq<DerivedAccount>, o: Filter)
    requires Clean(derived, o)
    ensures FilterForest(derived, o) == derived
    decreases derived
  {
    if derived != [] {
      TextMatchIs(derived[0], o);
      CleanIsFixed(derived[0].children, o);
      CleanIsFixed(derived[1..], o);
      assert derived == [derived[0]] + derived[1..];
    }
  }

  /** Filtering a filtered tree changes nothing. */
  lemma FilterTwiceIsOnce(derived: seq<DerivedAccount>, o: Filter)
    ensures FilterForest(FilterForest(derived, o), o) == FilterForest(derived, o)
  {
    FilterIsClean(derived, o);
    CleanIsFixed(FilterForest(derived, o), o);
  }
}
