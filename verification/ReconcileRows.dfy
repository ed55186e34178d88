/** Selection and row marking of a reconciliation: src/lib/reconciliation-selection.ts and AccountLedger.tsx. */
module ReconcileRows {
  import opened Reconciling

  /** A split as a ledger row shows it; amounts in minor units. */
  datatype RowSplit = RowSplit(guid: string, state: string, amount: int)

  datatype Row = Row(splitGuid: string, state: string, value: int, accountSplits: seq<RowSplit>, splits: seq<RowSplit>)

  /** getRowAccountSplits: the account's splits of the row, from the old single-split fields if need be. */
  function RowSplits(row: Row): seq<RowSplit> {
    if row.accountSplits != [] then row.accountSplits
    else if row.splitGuid == "" then []
    else [RowSplit(row.splitGuid, row.state, row.value)]
  }

  /** getSelectableRowSplits, as guids. */
  function Open(row: Row): set<string> {
    set x | x in RowSplits(row) && x.state != "y" :: x.guid
  }

  predicate IsRowSelected(row: Row, selected: set<string>) {
    Open(row) != {} && Open(row) <= selected
  }

  function ToggleRow(row: Row, selected: set<string>): set<string> {
    if IsRowSelected(row, selected) then selected - Open(row) else selected + Open(row)
  }

  function OpenGuids(rows: seq<Row>): set<string> {
    set i, g | 0 <= i < |rows| && g in Open(rows[i]) :: g
  }

  /** Toggling a row twice restores the selection unless the row was selected in part. */
  lemma ToggleTwiceIffWholeOrNone(row: Row, selected: set<string>)
    ensures ToggleRow(row, ToggleRow(row, selected)) == selected <==> Open(row) <= selected || Open(row) !! selected
  {
    var open := Open(row);
    if IsRowSelected(row, selected) {
      assert !(open <= selected - open) by {
        var g :| g in open;
      }
      assert selected - open + open == selected;
    } else if open != {} {
      assert selected + open - open == selected - open;
    }
  }

  /**
   * A toggle takes the row's open splits out of the selection if all of them were in it, puts them in
   * if one was missing, and leaves every other split as it was.
   */
  lemma ToggleSelectsOrClears(row: Row, selected: set<string>, g: string)
    ensures var open := exists x :: x in RowSplits(row) && x.state != "y" && x.guid == g;
      var whole := forall x :: x in RowSplits(row) && x.state != "y" ==> x.guid in selected;
      g in ToggleRow(row, selected) <==> if open then !whole else g in selected
    ensures (exists x :: x in RowSplits(row) && x.state != "y") ==>
      (IsRowSelected(row, ToggleRow(row, selected)) <==> !IsRowSelected(row, selected))
  {
    if exists x :: x in RowSplits(row) && x.state != "y" {
      var x :| x in RowSplits(row) && x.state != "y";
      assert x.guid in Open(row);
    }
    assert Open(row) <= selected <==> forall x :: x in RowSplits(row) && x.state != "y" ==> x.guid in selected;
  }

  datatype Choice = Toggle(index: nat) | SelectAll | Clear

  function Choose(rows: seq<Row>, selected: set<string>, c: Choice): set<string> {
    match c
    case Toggle(index) => if index < |rows| then ToggleRow(rows[index], selected) else selected
    case SelectAll => OpenGuids(rows)
    case Clear => {}
  }

  function Choices(rows: seq<Row>, selected: set<string>, cs: seq<Choice>): set<string>
    decreases |cs|
  {
    if cs == [] then selected else Choices(rows, Choose(rows, selected, cs[0]), cs[1..])
  }

  lemma SelectAllTakesTheOpen(rows: seq<Row>, selected: set<string>)
    ensures forall i, x | 0 <= i < |rows| && x in RowSplits(rows[i]) && x.state != "y" ::
              x.guid in Choices(rows, selected, [SelectAll])
  {
    assert [SelectAll][1..] == [];
    assert Choices(rows, selected, [SelectAll]) == Choices(rows, OpenGuids(rows), []) == OpenGuids(rows);
    forall i, x | 0 <= i < |rows| && x in RowSplits(rows[i]) && x.state != "y"
      ensures x.guid in OpenGuids(rows)
    {
      assert x.guid in Open(rows[i]);
    }
  }

  /** However rows are picked, only splits shown as not yet reconciled are ever selected; all of them by Select All. */
  lemma {:induction false} OnlyOpenSplitsAreSelected(rows: seq<Row>, selected: set<string>, cs: seq<Choice>)
    requires selected <= OpenGuids(rows)
    ensures Choices(rows, selected, cs) <= OpenGuids(rows)
    ensures forall i, x | 0 <= i < |rows| && x in RowSplits(rows[i]) && x.state != "y" ::
              x.guid in Choices(rows, selected, [SelectAll])
    decreases |cs|
  {
    SelectAllTakesTheOpen(rows, selected);
    if cs != [] {
      OnlyOpenSplitsAreSelected(rows, Choose(rows, selected, cs[0]), cs[1..]);
    }
  }

  // ----- Marking rows after the session -----

  function MarkSplits(xs: seq<RowSplit>, selected: set<string>): (r: seq<RowSplit>)
    ensures |r| == |xs|
  {
    seq(|xs|, i requires 0 <= i < |xs| => if xs[i].guid in selected then xs[i].(state := "y") else xs[i])
  }

  predicate AllReconciled(xs: seq<RowSplit>) {
    forall x :: x in xs ==> x.state == "y"
  }

  /** One row in handleReconcileComplete. */
  function AfterReconcile(row: Row, selected: set<string>): Row {
    var own := RowSplits(row);
    if !(exists x :: x in own && x.guid in selected) then row
    else
      var next := MarkSplits(own, selected);
      row.(splits := MarkSplits(row.splits, selected), accountSplits := next,
           state := if AllReconciled(next) then "y" else row.state)
  }

  /** A row turns reconciled exactly when the session took one of its splits and left none open. */
  lemma RowTurnsReconciledIff(row: Row, selected: set<string>)
    requires row.state != "y"
    ensures AfterReconcile(row, selected).state == "y" <==>
      && (exists x :: x in RowSplits(row) && x.guid in selected)
      && (forall x :: x in RowSplits(row) ==> x.state == "y" || x.guid in selected)
  {
    var own := RowSplits(row);
    var next := MarkSplits(own, selected);
    assert forall i :: 0 <= i < |own| ==> own[i] in own && next[i] in next;
  }

  /** The session took one of the row's splits and left none open. */
  predicate Completes(row: Row, selected: set<string>) {
    && (exists x :: x in RowSplits(row) && x.guid in selected)
    && forall x :: x in RowSplits(row) ==> x.state == "y" || x.guid in selected
  }

  lemma RowState(row: Row, selected: set<string>)
    ensures AfterReconcile(row, selected).state == if Completes(row, selected) then "y" else row.state
  {
    if row.state != "y" {
      RowTurnsReconciledIff(row, selected);
    }
  }

  /** What the row shows as its own splits afterwards: the same ones, the selected ones reconciled. */
  lemma SplitsAfterReconcile(row: Row, selected: set<string>)
    ensures RowSplits(AfterReconcile(row, selected)) == MarkSplits(RowSplits(row), selected)
  {
    var own := RowSplits(row);
    assert forall i :: 0 <= i < |own| ==> own[i] in own;
  }

  /** The row's other splits are marked along with its own, and nothing else of the row changes. */
  lemma OtherSplitsAreMarked(row: Row, selected: set<string>)
    ensures var after := AfterReconcile(row, selected);
      && after.splitGuid == row.splitGuid && after.value == row.value && |after.splits| == |row.splits|
      && forall k | 0 <= k < |row.splits| ::
           var touched := exists x :: x in RowSplits(row) && x.guid in selected;
           after.splits[k] == RowSplit(row.splits[k].guid,
             if touched && row.splits[k].guid in selected then "y" else row.splits[k].state, row.splits[k].amount)
  {
  }

  /** The row's own state says whether all its splits are reconciled. */
  predicate StateAgrees(row: Row) {
    RowSplits(row) != [] ==> (row.state == "y" <==> AllReconciled(RowSplits(row)))
  }

  lemma StateStillAgrees(row: Row, selected: set<string>)
    requires StateAgrees(row)
    ensures StateAgrees(AfterReconcile(row, selected))
  {
    SplitsAfterReconcile(row, selected);
    var own := RowSplits(row);
    var next := MarkSplits(own, selected);
    if row.state == "y" {
      assert forall i :: 0 <= i < |own| ==> own[i] in own && next[i].state == "y";
    }
  }

  // ----- The ledger mirrors the table -----

  /** The table holds this split, in this state and with this amount. */
  ghost predicate Shows(x: RowSplit, table: seq<Split>, scu: int) {
    exists s :: s in table && s.guid == x.guid && s.state == x.state && UnitsOf(s, scu) == x.amount
  }

  ghost predicate Mirrors(rows: seq<Row>, table: seq<Split>, scu: int) {
    forall i, x | 0 <= i < |rows| && x in RowSplits(rows[i]) :: Shows(x, table, scu)
  }

  function RowsAfter(rows: seq<Row>, selected: set<string>): seq<Row> {
    seq(|rows|, i requires 0 <= i < |rows| => AfterReconcile(rows[i], selected))
  }

  lemma MarkedSplitIsShown(x: RowSplit, table: seq<Split>, req: Request, scu: int, adj: Adjusting)
    requires KeyedByGuid(table) && NewGuids(table, adj) && Finalize(table, req, scu, adj).Done?
    requires Shows(x, table, scu)
    ensures Shows(if x.guid in req.guids then x.(state := "y") else x, Finalize(table, req, scu, adj).rows, scu)
  {
    FinishedSessionTouchesOnlyTheSelection(table, req, scu, adj);
    var i :| 0 <= i < |table| && table[i].guid == x.guid && table[i].state == x.state && UnitsOf(table[i], scu) == x.amount;
    var s := Finalize(table, req, scu, adj).rows[i];
    assert s.guid == x.guid && UnitsOf(s, scu) == x.amount;
  }

  /** The local update leaves the ledger showing what the server now holds, without a reload. */
  lemma LedgerStillMirrorsTheTable(rows: seq<Row>, table: seq<Split>, req: Request, scu: int, adj: Adjusting)
    requires KeyedByGuid(table) && NewGuids(table, adj) && Finalize(table, req, scu, adj).Done?
    requires Mirrors(rows, table, scu)
    ensures Mirrors(RowsAfter(rows, req.guids), Finalize(table, req, scu, adj).rows, scu)
  {
    var after := RowsAfter(rows, req.guids);
    forall i, x | 0 <= i < |after| && x in RowSplits(after[i])
      ensures Shows(x, Finalize(table, req, scu, adj).rows, scu)
    {
      var own := RowSplits(rows[i]);
      SplitsAfterReconcile(rows[i], req.guids);
      var k :| 0 <= k < |own| && x == MarkSplits(own, req.guids)[k];
      assert own[k] in RowSplits(rows[i]);
      MarkedSplitIsShown(own[k], table, req, scu, adj);
    }
  }

  // ----- The selected sum -----

  function AllSplits(rows: seq<Row>): seq<RowSplit> {
    if rows == [] then [] else RowSplits(rows[0]) + AllSplits(rows[1..])
  }

  function SumSelected(xs: seq<RowSplit>, selected: set<string>): int {
    if xs == [] then 0
    else (if xs[0].guid in selected then xs[0].amount else 0) + SumSelected(xs[1..], selected)
  }

  /** sumSelectedRows: row by row. */
  function SumSelectedRows(rows: seq<Row>, selected: set<string>): int {
    if rows == [] then 0 else SumSelected(RowSplits(rows[0]), selected) + SumSelectedRows(rows[1..], selected)
  }

  lemma {:induction false} SumSelectedAppend(a: seq<RowSplit>, b: seq<RowSplit>, selected: set<string>)
    ensures SumSelected(a + b, selected) == SumSelected(a, selected) + SumSelected(b, selected)
  {
    if a == [] {
      assert a + b == b;
    } else {
      assert (a + b)[1..] == a[1..] + b;
      SumSelectedAppend(a[1..], b, selected);
    }
  }

  lemma {:induction false} RowsSumIsFlatSum(rows: seq<Row>, selected: set<string>)
    ensures SumSelectedRows(rows, selected) == SumSelected(AllSplits(rows), selected)
  {
    if rows != [] {
      RowsSumIsFlatSum(rows[1..], selected);
      SumSelectedAppend(RowSplits(rows[0]), AllSplits(rows[1..]), selected);
    }
  }

  lemma {:induction false} WithoutOne(table: seq<Split>, selected: set<string>, s: Split, scu: int)
    requires KeyedByGuid(table) && s in table && s.guid in selected
    ensures Sum(Selected(table, selected), scu) == Sum(Selected(table, selected - {s.guid}), scu) + UnitsOf(s, scu)
  {
    var rest := table[1..];
    if table[0] == s {
      AbsentGuid(rest, selected, s.guid);
    } else {
      assert table[0].guid != s.guid && s in rest;
      WithoutOne(rest, selected, s, scu);
    }
  }

  lemma {:induction false} AbsentGuid(table: seq<Split>, selected: set<string>, g: string)
    requires forall i :: 0 <= i < |table| ==> table[i].guid != g
    ensures Selected(table, selected - {g}) == Selected(table, selected)
  {
    if table != [] {
      AbsentGuid(table[1..], selected, g);
    }
  }

  lemma {:induction false} NothingSelected(table: seq<Split>)
    ensures Selected(table, {}) == []
  {
    if table != [] {
      NothingSelected(table[1..]);
    }
  }

  lemma {:induction false} AbsentRowSplit(xs: seq<RowSplit>, selected: set<string>, g: string)
    requires forall i :: 0 <= i < |xs| ==> xs[i].guid != g
    ensures SumSelected(xs, selected - {g}) == SumSelected(xs, selected)
  {
    if xs != [] {
      AbsentRowSplit(xs[1..], selected, g);
    }
  }

  /** No split is shown twice. */
  ghost predicate ShownOnce(xs: seq<RowSplit>) {
    forall i, j :: 0 <= i < j < |xs| ==> xs[i].guid != xs[j].guid
  }

  lemma {:induction false} FlatSumIsTheServers(xs: seq<RowSplit>, table: seq<Split>, selected: set<string>, scu: int)
    requires KeyedByGuid(table) && ShownOnce(xs) && forall x :: x in xs ==> Shows(x, table, scu)
    requires forall g :: g in selected ==> exists i :: 0 <= i < |xs| && xs[i].guid == g
    ensures SumSelected(xs, selected) == Sum(Selected(table, selected), scu)
  {
    if xs == [] {
      assert selected == {};
      NothingSelected(table);
    } else {
      var x, rest := xs[0], xs[1..];
      assert x in xs;
      AbsentRowSplit(rest, selected, x.guid);
      forall g | g in selected - {x.guid}
        ensures exists i :: 0 <= i < |rest| && rest[i].guid == g
      {
        var i :| 0 <= i < |xs| && xs[i].guid == g;
        assert rest[i - 1].guid == g;
      }
      FlatSumIsTheServers(rest, table, selected - {x.guid}, scu);
      if x.guid in selected {
        var s :| s in table && s.guid == x.guid && s.state == x.state && UnitsOf(s, scu) == x.amount;
        WithoutOne(table, selected, s, scu);
      } else {
        assert selected - {x.guid} == selected;
      }
    }
  }

  lemma {:induction false} AllSplitsMembers(rows: seq<Row>, x: RowSplit)
    ensures x in AllSplits(rows) <==> exists i :: 0 <= i < |rows| && x in RowSplits(rows[i])
  {
    if rows != [] {
      AllSplitsMembers(rows[1..], x);
      if exists i :: 0 <= i < |rows| && x in RowSplits(rows[i]) {
        var i :| 0 <= i < |rows| && x in RowSplits(rows[i]);
        if i > 0 {
          assert rows[i] == rows[1..][i - 1];
        }
      }
    }
  }

  /** A row with only the old single-split fields selects, counts and marks that one split. */
  lemma SingleSplitRow(row: Row, selected: set<string>)
    requires row.accountSplits == [] && row.splitGuid != ""
    ensures Open(row) == if row.state == "y" then {} else {row.splitGuid}
    ensures SumSelectedRows([row], selected) == if row.splitGuid in selected then row.value else 0
    ensures AfterReconcile(row, selected).state == if row.splitGuid in selected then "y" else row.state
  {
    var own := RowSplit(row.splitGuid, row.state, row.value);
    assert RowSplits(row) == [own] && [own][1..] == [] && [row][1..] == [];
    assert SumSelected([own], selected) == (if own.guid in selected then own.amount else 0) + SumSelected([], selected);
    RowState(row, selected);
  }

  /** The panel's selected balance is the one the server will compute. */
  lemma SelectedBalanceIsTheServers(rows: seq<Row>, table: seq<Split>, selected: set<string>, scu: int)
    requires KeyedByGuid(table) && ShownOnce(AllSplits(rows)) && Mirrors(rows, table, scu) && selected <= OpenGuids(rows)
    ensures SumSelectedRows(rows, selected) == Sum(Selected(table, selected), scu)
  {
    var xs := AllSplits(rows);
    RowsSumIsFlatSum(rows, selected);
    forall x | x in xs
      ensures Shows(x, table, scu)
    {
      AllSplitsMembers(rows, x);
    }
    forall g | g in selected
      ensures exists i :: 0 <= i < |xs| && xs[i].guid == g
    {
      assert g in OpenGuids(rows);
      var i :| 0 <= i < |rows| && g in Open(rows[i]);
      var x :| x in RowSplits(rows[i]) && x.guid == g;
      AllSplitsMembers(rows, x);
    }
    FlatSumIsTheServers(xs, table, selected, scu);
  }

  /** The ledger's reconcile state, as its handlers update it. */
  class ReconcileLedger {
    var transactions: seq<Row>
    var selectedSplits: set<string>
    var isReconciling: bool

    constructor (rows: seq<Row>)
      ensures transactions == rows && selectedSplits == {} && !isReconciling
    {
      transactions, selectedSplits, isReconciling := rows, {}, false;
    }

    /** toggleRowSelection: one delete or add per selectable split. */
    method Toggle(row: Row)
      modifies this`selectedSplits
      ensures selectedSplits == ToggleRow(row, old(selectedSplits))
    {
      var own := RowSplits(row);
      var remove := IsRowSelected(row, selectedSplits);
      ghost var before := selectedSplits;
      for i := 0 to |own|
        invariant selectedSplits ==
          var done := set k | 0 <= k < i && own[k].state != "y" :: own[k].guid;
          if remove then before - done else before + done
      {
        if own[i].state != "y" {
          selectedSplits := if remove then selectedSplits - {own[i].guid} else selectedSplits + {own[i].guid};
        }
      }
      assert (set k | 0 <= k < |own| && own[k].state != "y" :: own[k].guid) == Open(row);
    }

    method SelectAllUnreconciled()
      modifies this`selectedSplits
      ensures selectedSplits == OpenGuids(transactions)
    {
      selectedSplits := OpenGuids(transactions);
    }

    method ClearSelection()
      modifies this`selectedSplits
      ensures selectedSplits == {}
    {
      selectedSplits := {};
    }

    /**
     * handleReconcileComplete: every row shows its splits with the selected ones reconciled, and is
     * itself reconciled exactly when the session completed it; the session is closed.
     */
    method HandleReconcileComplete()
      modifies this
      ensures transactions == RowsAfter(old(transactions), old(selectedSplits))
      ensures forall i | 0 <= i < |transactions| ::
                var row := old(transactions)[i];
                && RowSplits(transactions[i]) == MarkSplits(RowSplits(row), old(selectedSplits))
                && transactions[i].state == if Completes(row, old(selectedSplits)) then "y" else row.state
      ensures selectedSplits == {} && !isReconciling
    {
      var prev, selected := transactions, selectedSplits;
      var rows := [];
      for i := 0 to |prev|
        invariant rows == RowsAfter(prev, selected)[..i]
      {
        var row := UpdateRow(prev[i], selected);
        rows := rows + [row];
      }
      forall i | 0 <= i < |prev|
        ensures RowSplits(rows[i]) == MarkSplits(RowSplits(prev[i]), selected)
        ensures rows[i].state == if Completes(prev[i], selected) then "y" else prev[i].state
      {
        SplitsAfterReconcile(prev[i], selected);
        RowState(prev[i], selected);
      }
      transactions := rows;
      selectedSplits, isReconciling := {}, false;
    }

    static method UpdateRow(row: Row, selected: set<string>) returns (updated: Row)
      ensures updated == AfterReconcile(row, selected)
    {
      var own := RowSplits(row);
      var i := 0;
      while i < |own| && own[i].guid !in selected
        invariant 0 <= i <= |own|
        invariant forall k :: 0 <= k < i ==> own[k].guid !in selected
      {
        i := i + 1;
      }
      if i == |own| {
        return row;
      }
      assert own[i] in own;
      var next, reconciled := Mark(own, selected);
      var splits, _ := Mark(row.splits, selected);
      updated := row.(splits := splits, accountSplits := next, state := if reconciled then "y" else row.state);
    }

    /** The map over the splits of a row, and whether all of them are reconciled then. */
    static method Mark(xs: seq<RowSplit>, selected: set<string>) returns (marked: seq<RowSplit>, reconciled: bool)
      ensures marked == MarkSplits(xs, selected) && reconciled == AllReconciled(marked)
    {
      marked, reconciled := [], true;
      for i := 0 to |xs|
        invariant marked == MarkSplits(xs, selected)[..i] && reconciled == AllReconciled(marked)
      {
        var x := if xs[i].guid in selected then xs[i].(state := "y") else xs[i];
        marked := marked + [x];
        reconciled := reconciled && x.state == "y";
        assert x in marked;
      }
    }
  }
}
