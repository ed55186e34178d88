/** ReconciliationPanel.tsx: the finish gate, checked against the server, and the session's statement balance. */
module ReconcilePanels {
  import opened Prelude
  import opened Text
  import opened Decimal
  import opened Reconciling
  import opened ReconcileRows

  // ----- The gate of handleFinish -----

  datatype Gate = NothingSelected | InvalidBalance | MustBeZero | Post(guids: set<string>, ending: string, createAdjustment: bool)

  function Subtract(statement: Option<int>, current: Option<int>, selected: Option<int>): Option<int> {
    if statement.Some? && current.Some? && selected.Some? then Some(statement.value - current.value - selected.value)
    else None
  }

  /** Three decimal strings read and subtracted; `current` and `selected` are minor units before toFixed. */
  function DifferenceUnits(statement: string, current: int, selected: int, scale: nat): Option<int> {
    Subtract(ToMinorUnits(statement, scale), ReadBack(current, scale), ReadBack(selected, scale))
  }

  function ReadBack(n: int, scale: nat): (r: Option<int>)
    ensures r == Some(n)
  {
    PrintedIsReadBack(n, scale);
    ToMinorUnits(Print(n, scale), scale)
  }

  function HandleFinish(guids: set<string>, statement: string, current: int, selected: int, scale: nat, record: bool): Gate {
    var difference := DifferenceUnits(statement, current, selected, scale);
    if guids == {} then NothingSelected
    else if difference == None then InvalidBalance
    else if !record && difference.value != 0 then MustBeZero
    else Post(guids, statement, record)
  }

  /** No rounding anywhere: a difference exists for every accepted statement and is the exact one. */
  lemma DifferenceIsExact(statement: string, current: int, selected: int, scale: nat)
    ensures DifferenceUnits(statement, current, selected, scale)
         == Subtract(ToMinorUnits(statement, scale), Some(current), Some(selected))
  {
  }

  /** The selection and the typed balance go out as they are, or the first thing missing is named. */
  lemma PostsIff(guids: set<string>, statement: string, current: int, selected: int, scale: nat, record: bool, read: Option<int>)
    requires read == ToMinorUnits(statement, scale)
    ensures HandleFinish(guids, statement, current, selected, scale, record) ==
      if guids == {} then NothingSelected
      else if read == None then InvalidBalance
      else if record || read.value == current + selected then Post(guids, statement, record)
      else MustBeZero
  {
    DifferenceIsExact(statement, current, selected, scale);
  }

  /** Math.round(Math.log10(scu)): the power of ten nearest to the unit in ratio. */
  function MinorUnitScale(scu: int): nat
    requires scu > 0
  {
    NearestScale(scu * scu, 0)
  }

  /** From `k` up, the first with scu < 10^(k + 1/2), squared to stay in whole numbers. */
  function NearestScale(square: int, k: nat): (r: nat)
    ensures k <= r && square < Pow10(2 * r + 1)
    ensures r > k ==> Pow10(2 * r - 1) <= square
    decreases square - Pow10(2 * k + 1)
  {
    if square < Pow10(2 * k + 1) then k
    else
      assert Pow10(2 * k + 3) == 10 * Pow10(2 * k + 2) && Pow10(2 * k + 2) == 10 * Pow10(2 * k + 1);
      NearestScale(square, k + 1)
  }

  lemma {:induction false} PowersGrow(a: nat, b: nat)
    requires a < b
    ensures Pow10(a) < Pow10(b)
    decreases b
  {
    if a < b - 1 {
      PowersGrow(a, b - 1);
    }
  }

  lemma PowersAreOrdered(a: nat, b: nat)
    ensures Pow10(a) <= Pow10(b) ==> a <= b
  {
    if b < a {
      PowersGrow(b, a);
    }
  }

  lemma {:induction false} SquareOfPower(k: nat)
    ensures Pow10(k) * Pow10(k) == Pow10(2 * k)
  {
    if k > 0 {
      SquareOfPower(k - 1);
      var p := Pow10(k - 1);
      assert (10 * p) * (10 * p) == 100 * (p * p);
      assert Pow10(2 * k) == 10 * Pow10(2 * k - 1) && Pow10(2 * k - 1) == 10 * Pow10(2 * (k - 1));
    }
  }

  lemma ScaleOfSquare(square: int, k: nat)
    requires square == Pow10(2 * k)
    ensures NearestScale(square, 0) == k
  {
    var r := NearestScale(square, 0);
    PowersAreOrdered(2 * k, 2 * r + 1);
    if r > 0 {
      PowersAreOrdered(2 * r - 1, 2 * k);
    }
  }

  /** For a unit of 10^k the rounded logarithm is k. */
  lemma ScaleOfPower(k: nat)
    ensures MinorUnitScale(Pow10(k)) == k
  {
    SquareOfPower(k);
    ScaleOfSquare(Pow10(k) * Pow10(k), k);
  }

  /**
   * With the ledger in step with the server and a selection the server accepts, the panel posts
   * exactly the requests the server fulfils, but for three cases: the panel wants something
   * selected, the server does not trim the statement balance, and the server refuses a unit that is
   * no power of ten where the panel rounds its logarithm.
   */
  lemma GateAgreesWithServer(rows: seq<Row>, table: seq<Split>, req: Request, scu: int, adj: Adjusting)
    requires KeyedByGuid(table) && ShownOnce(AllSplits(rows)) && scu > 0 && Mirrors(rows, table, scu)
    requires req.guids <= OpenGuids(rows) && Refusal(table, req, scu) == None
    requires BalanceIsExact(table, req.account, scu) && adj.possible
    ensures var gate := HandleFinish(req.guids, req.ending, Balance(table, req.account, scu), SumSelectedRows(rows, req.guids),
                                     MinorUnitScale(scu), req.createAdjustment);
      && (gate.Post? ==> gate == Post(req.guids, req.ending, req.createAdjustment))
      && (gate.Post? && Trim(req.ending) == req.ending && Places(scu).Some?
          <==> Finalize(table, req, scu, adj).Done? && req.guids != {})
  {
    if Places(scu).Some? {
      PlacesOfPowers(scu, Places(scu).value);
      GateAgreesOnPowers(rows, table, req, Places(scu).value, adj);
      ScaleOfPower(Places(scu).value);
    } else {
      OddUnitsAreRefused(table, req, scu, adj);
    }
  }

  lemma GateAgreesOnPowers(rows: seq<Row>, table: seq<Split>, req: Request, scale: nat, adj: Adjusting)
    requires KeyedByGuid(table) && ShownOnce(AllSplits(rows)) && Mirrors(rows, table, Pow10(scale))
    requires req.guids <= OpenGuids(rows) && Refusal(table, req, Pow10(scale)) == None
    requires BalanceIsExact(table, req.account, Pow10(scale)) && adj.possible
    ensures var scu := Pow10(scale);
      var gate := HandleFinish(req.guids, req.ending, Balance(table, req.account, scu), SumSelectedRows(rows, req.guids),
                               scale, req.createAdjustment);
      gate.Post? && Trim(req.ending) == req.ending <==> Finalize(table, req, scu, adj).Done? && req.guids != {}
  {
    var scu := Pow10(scale);
    var current, selected := Balance(table, req.account, scu), SumSelectedRows(rows, req.guids);
    SelectedBalanceIsTheServers(rows, table, req.guids, scu);
    ServerAgreesIffTrimmed(req.ending, scale);
    PostsIff(req.guids, req.ending, current, selected, scale, req.createAdjustment, ToMinorUnits(req.ending, scale));
    FinishesIff(table, req, scu, adj, None, true, DecimalToUnits(req.ending, scu), current + selected);
  }

  /** A unit that is no power of ten never gets through, whatever is requested. */
  lemma OddUnitsAreRefused(table: seq<Split>, req: Request, scu: int, adj: Adjusting)
    requires Places(scu) == None
    ensures Finalize(table, req, scu, adj).Failed?
  {
  }

  /** The panel knows no such refusal: at its rounded scale it posts every readable statement it is told to record. */
  lemma PanelPostsOddUnits(table: seq<Split>, req: Request, scu: int, adj: Adjusting, current: int, selected: int)
    requires scu > 0 && Places(scu) == None && req.guids != {} && req.createAdjustment
    requires ToMinorUnits(req.ending, MinorUnitScale(scu)).Some?
    ensures HandleFinish(req.guids, req.ending, current, selected, MinorUnitScale(scu), true).Post?
    ensures Finalize(table, req, scu, adj).Failed?
  {
    var scale := MinorUnitScale(scu);
    PostsIff(req.guids, req.ending, current, selected, scale, true, ToMinorUnits(req.ending, scale));
  }

  // ----- The statement balance of one session -----

  datatype Panel = Panel(balance: string, wasReconciling: bool, touched: bool, defaultApplied: bool)

  /** The two effects after a render; `known` is the bank's balance, printed, unless the account is an investment. */
  function Rendered(p: Panel, isReconciling: bool, known: Option<string>): Panel {
    var p1 := if isReconciling && !p.wasReconciling then Panel("", true, false, false) else p.(wasReconciling := isReconciling);
    if isReconciling && known.Some? && !p1.touched && !p1.defaultApplied
    then p1.(balance := known.value, defaultApplied := true)
    else p1
  }

  datatype Event = Render(known: Option<string>) | Edit(text: string)

  /** A session: renders while reconciling, and edits of the field. */
  function During(p: Panel, events: seq<Event>): Panel
    decreases |events|
  {
    if events == [] then p
    else
      var q := During(p, events[..|events| - 1]);
      match events[|events| - 1]
      case Render(known) => Rendered(q, true, known)
      case Edit(text) => q.(balance := text, touched := true)
  }

  function LastEdit(events: seq<Event>): Option<string>
    decreases |events|
  {
    if events == [] then None
    else
      match events[|events| - 1]
      case Edit(text) => Some(text)
      case Render(_) => LastEdit(events[..|events| - 1])
  }

  function FirstKnown(events: seq<Event>): Option<string> {
    if events == [] then None
    else
      match events[0]
      case Render(Some(balance)) => Some(balance)
      case _ => FirstKnown(events[1..])
  }

  lemma {:induction false} FirstKnownSnoc(events: seq<Event>, e: Event)
    ensures FirstKnown(events + [e])
         == if FirstKnown(events).Some? then FirstKnown(events) else if e.Render? then e.known else None
  {
    if events == [] {
      assert [e][1..] == [];
    } else {
      assert (events + [e])[1..] == events[1..] + [e];
      FirstKnownSnoc(events[1..], e);
    }
  }

  /**
   * From the opening of a session the field holds what the user last typed, whatever renders and
   * balances come later; untouched, it holds the first balance that became known, and else is empty.
   */
  lemma {:induction false} TypedBalanceSurvives(before: Panel, known: Option<string>, events: seq<Event>)
    requires !before.wasReconciling
    ensures var p := During(Rendered(before, true, known), events);
      && p.wasReconciling && (p.touched <==> LastEdit(events).Some?)
      && p.balance == (if LastEdit(events).Some? then LastEdit(events).value
                       else if FirstKnown([Render(known)] + events).Some? then FirstKnown([Render(known)] + events).value
                       else "")
      && (!p.touched ==> (p.defaultApplied <==> FirstKnown([Render(known)] + events).Some?))
    decreases |events|
  {
    if events == [] {
      assert ([Render(known)] + events)[1..] == [];
    } else {
      var earlier, last := events[..|events| - 1], events[|events| - 1];
      TypedBalanceSurvives(before, known, earlier);
      assert [Render(known)] + events == ([Render(known)] + earlier) + [last];
      FirstKnownSnoc([Render(known)] + earlier, last);
    }
  }

  /** The panel's own state, as its effects and handlers update it. */
  class ReconciliationPanel {
    var statementBalance: string
    var wasReconciling: bool
    var statementBalanceTouched: bool
    var simpleFinDefaultApplied: bool
    var saving: bool
    var error: Option<Gate>

    ghost function View(): Panel
      reads this
    {
      Panel(statementBalance, wasReconciling, statementBalanceTouched, simpleFinDefaultApplied)
    }

    constructor ()
      ensures View() == Panel("", false, false, false) && !saving && error == None
    {
      statementBalance, wasReconciling, statementBalanceTouched, simpleFinDefaultApplied := "", false, false, false;
      saving, error := false, None;
    }

    method AfterRender(isReconciling: bool, known: Option<string>)
      modifies this
      ensures View() == Rendered(old(View()), isReconciling, known)
      ensures saving == old(saving) && error == old(error)
    {
      if isReconciling && !wasReconciling {
        statementBalanceTouched := false;
        simpleFinDefaultApplied := false;
        statementBalance := "";
      }
      wasReconciling := isReconciling;
      if isReconciling && known.Some? && !statementBalanceTouched && !simpleFinDefaultApplied {
        statementBalance := known.value;
        simpleFinDefaultApplied := true;
      }
    }

    method EditBalance(text: string)
      modifies this
      ensures View() == old(View()).(balance := text, touched := true)
      ensures saving == old(saving) && error == old(error)
    {
      statementBalanceTouched := true;
      statementBalance := text;
    }

    /** handleFinish up to the request. */
    method BeginFinish(guids: set<string>, current: int, selected: int, scale: nat, record: bool) returns (gate: Gate)
      modifies this
      ensures gate == HandleFinish(guids, old(statementBalance), current, selected, scale, record)
      ensures View() == old(View())
      ensures if gate.Post? then saving && error == None else saving == old(saving) && error == Some(gate)
    {
      if guids == {} {
        error := Some(NothingSelected);
        return NothingSelected;
      }
      var difference := DifferenceUnits(statementBalance, current, selected, scale);
      if difference == None {
        error := Some(InvalidBalance);
        return InvalidBalance;
      }
      if !record && difference.value != 0 {
        error := Some(MustBeZero);
        return MustBeZero;
      }
      saving, error := true, None;
      gate := Post(guids, statementBalance, record);
    }
  }
}
