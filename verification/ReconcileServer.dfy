/** `finalizeReconciliation` of src/lib/reconcile.ts: what a finished session does to the split table. */
module Reconciling {
  import opened Prelude
  import opened Decimal

  datatype Split = Split(guid: string, account: string, state: string, num: int, denom: int, posted: Option<int>)

  /** A whole number of the account's units of 1/scu. */
  predicate Exact(s: Split, scu: int) {
    s.denom != 0 && s.num * scu % s.denom == 0
  }

  function UnitsOf(s: Split, scu: int): int {
    if Exact(s, scu) then s.num * scu / s.denom else 0
  }

  /** statementDateCutoff: the last millisecond of the statement date. */
  function Cutoff(statementDate: int): int {
    statementDate / DAY_MS * DAY_MS + DAY_MS - 1
  }

  datatype Request = Request(account: string, statementDate: int, ending: string, guids: set<string>, createAdjustment: bool)

  /** The book's side of an adjustment: whether one can be made, its counter account, two new guids. */
  datatype Adjusting = Adjusting(possible: bool, imbalance: string, ownGuid: string, otherGuid: string)

  datatype Failure = NotFound | WrongAccount | AlreadyReconciled | PostDated | NotExact | BadBalance | NotZero | NoAdjustment

  datatype Result = Failed(why: Failure) | Done(rows: seq<Split>, difference: int)

  function Selected(rows: seq<Split>, guids: set<string>): seq<Split> {
    if rows == [] then []
    else if rows[0].guid in guids then [rows[0]] + Selected(rows[1..], guids)
    else Selected(rows[1..], guids)
  }

  function Sum(rows: seq<Split>, scu: int): int {
    if rows == [] then 0 else UnitsOf(rows[0], scu) + Sum(rows[1..], scu)
  }

  predicate Counts(s: Split, account: string) {
    s.account == account && s.state == "y"
  }

  /** The reconciled balance: the account's 'y' splits, in units. */
  function Balance(rows: seq<Split>, account: string, scu: int): int {
    if rows == [] then 0
    else (if Counts(rows[0], account) then UnitsOf(rows[0], scu) else 0) + Balance(rows[1..], account, scu)
  }

  predicate BalanceIsExact(rows: seq<Split>, account: string, scu: int) {
    forall s :: s in rows && Counts(s, account) ==> Exact(s, scu)
  }

  /** updateMany: the requested splits of the account become reconciled. */
  function Marked(rows: seq<Split>, guids: set<string>, account: string): (r: seq<Split>)
    ensures |r| == |rows|
  {
    seq(|rows|, i requires 0 <= i < |rows| =>
      if rows[i].guid in guids && rows[i].account == account then rows[i].(state := "y") else rows[i])
  }

  /** The adjustment transaction: a reconciled split here, its opposite in the imbalance account. */
  function Adjustment(difference: int, req: Request, scu: int, adj: Adjusting): seq<Split> {
    if difference == 0 then []
    else [ Split(adj.ownGuid, req.account, "y", difference, scu, Some(req.statementDate)),
           Split(adj.otherGuid, adj.imbalance, "n", -difference, scu, Some(req.statementDate)) ]
  }

  /** The checks on the requested splits, in their order. */
  function Refusal(rows: seq<Split>, req: Request, scu: int): Option<Failure> {
    var selected := Selected(rows, req.guids);
    if |selected| != |req.guids| then Some(NotFound)
    else if exists s :: s in selected && s.account != req.account then Some(WrongAccount)
    else if exists s :: s in selected && s.state == "y" then Some(AlreadyReconciled)
    else if exists s :: s in selected && s.posted.Some? && s.posted.value > Cutoff(req.statementDate) then Some(PostDated)
    else if exists s :: s in selected && !Exact(s, scu) then Some(NotExact)
    else None
  }

  function Difference(rows: seq<Split>, req: Request, scu: int, ending: int): int {
    ending - (Balance(rows, req.account, scu) + Sum(Selected(rows, req.guids), scu))
  }

  function Finalize(rows: seq<Split>, req: Request, scu: int, adj: Adjusting): Result {
    var refusal := Refusal(rows, req, scu);
    if refusal.Some? then Failed(refusal.value)
    else if !BalanceIsExact(rows, req.account, scu) then Failed(NotExact)
    else
      match DecimalToUnits(req.ending, scu)
      case None => Failed(BadBalance)
      case Some(ending) =>
        var difference := Difference(rows, req, scu, ending);
        if difference != 0 && !req.createAdjustment then Failed(NotZero)
        else if difference != 0 && !adj.possible then Failed(NoAdjustment)
        else Done(Marked(rows + Adjustment(difference, req, scu, adj), req.guids, req.account), difference)
  }

  // ----- The count check -----

  function Guids(rows: seq<Split>): set<string> {
    set s | s in rows :: s.guid
  }

  ghost predicate KeyedByGuid(rows: seq<Split>) {
    forall i, j :: 0 <= i < j < |rows| ==> rows[i].guid != rows[j].guid
  }

  lemma {:induction false} SelectedMembers(rows: seq<Split>, guids: set<string>, s: Split)
    ensures s in Selected(rows, guids) <==> s in rows && s.guid in guids
  {
    if rows != [] {
      SelectedMembers(rows[1..], guids, s);
      assert rows == [rows[0]] + rows[1..];
    }
  }

  lemma GuidsCons(first: Split, rest: seq<Split>)
    ensures Guids([first] + rest) == Guids(rest) + {first.guid}
  {
    assert forall s :: s in [first] + rest <==> s == first || s in rest;
  }

  lemma {:induction false} SelectedCount(rows: seq<Split>, guids: set<string>)
    requires KeyedByGuid(rows)
    ensures |Selected(rows, guids)| == |Guids(rows) * guids|
  {
    if rows == [] {
      assert Guids(rows) * guids == {};
    } else {
      var first, rest := rows[0], rows[1..];
      SelectedCount(rest, guids);
      assert rows == [first] + rest;
      GuidsCons(first, rest);
      assert first.guid !in Guids(rest);
      AddOne(Guids(rest), guids, first.guid);
    }
  }

  lemma AddOne(a: set<string>, b: set<string>, x: string)
    requires x !in a
    ensures |(a + {x}) * b| == |a * b| + if x in b then 1 else 0
  {
    if x in b {
      assert (a + {x}) * b == a * b + {x};
    } else {
      assert (a + {x}) * b == a * b;
    }
  }

  lemma CountsAgreeIffAllFound(rows: seq<Split>, guids: set<string>)
    requires KeyedByGuid(rows)
    ensures |Selected(rows, guids)| == |guids| <==> guids <= Guids(rows)
  {
    SelectedCount(rows, guids);
    if guids <= Guids(rows) {
      assert Guids(rows) * guids == guids;
    } else {
      var g :| g in guids && g !in Guids(rows);
      SmallerSet(Guids(rows) * guids, guids, g);
    }
  }

  /** Comparing counts refuses exactly the requests that name a split that does not exist. */
  lemma NotFoundIffSomeMissing(rows: seq<Split>, req: Request, scu: int)
    requires KeyedByGuid(rows)
    ensures Refusal(rows, req, scu) == Some(NotFound) <==> !(req.guids <= Guids(rows))
  {
    CountsAgreeIffAllFound(rows, req.guids);
  }

  /** Counted in units of 1/scu a split is the one whole number, if any, that equals its quantity. */
  lemma UnitsAreExact(s: Split, scu: int, n: int)
    ensures Exact(s, scu) && UnitsOf(s, scu) == n <==> s.denom != 0 && n * s.denom == s.num * scu
  {
    if s.denom != 0 {
      var q, r := s.num * scu / s.denom, s.num * scu % s.denom;
      assert (n - q) * s.denom == n * s.denom - q * s.denom;
      if n * s.denom == s.num * scu {
        assert (n - q) * s.denom == r;
        SmallMultiple(n - q, s.denom);
      }
    }
  }

  lemma SmallMultiple(k: int, d: int)
    requires d != 0
    ensures 0 <= k * d < (if d < 0 then -d else d) ==> k == 0
  {
    if d > 0 {
      AtLeastOneUnit(k, d);
    } else {
      AtLeastOneUnit(k, -d);
      assert k * -d == -(k * d);
    }
  }

  predicate AllOwn(rows: seq<Split>, req: Request) {
    forall s :: s in rows && s.guid in req.guids ==> s.account == req.account
  }

  predicate AllOpen(rows: seq<Split>, req: Request) {
    forall s :: s in rows && s.guid in req.guids ==> s.state != "y"
  }

  /** Posted, if at all, on the statement's day or before: an instant of 86400000 ms a day. */
  predicate AllInTime(rows: seq<Split>, req: Request) {
    forall s :: s in rows && s.guid in req.guids && s.posted.Some? ==>
      s.posted.value / 86_400_000 <= req.statementDate / 86_400_000
  }

  predicate AllExact(rows: seq<Split>, req: Request, scu: int) {
    forall s :: s in rows && s.guid in req.guids ==> Exact(s, scu)
  }

  lemma EndOfDay(posted: int, statementDate: int)
    ensures posted > Cutoff(statementDate) <==> posted / 86_400_000 > statementDate / 86_400_000
  {
  }

  /** A selection passes exactly when nothing is wrong with it, and else is refused for the first thing wrong. */
  lemma RefusedForTheFirstFault(rows: seq<Split>, req: Request, scu: int)
    requires KeyedByGuid(rows)
    ensures var found, own, open, inTime, exact :=
        req.guids <= Guids(rows), AllOwn(rows, req), AllOpen(rows, req), AllInTime(rows, req), AllExact(rows, req, scu);
      match Refusal(rows, req, scu)
      case None => found && own && open && inTime && exact
      case Some(NotFound) => !found
      case Some(WrongAccount) => found && !own
      case Some(AlreadyReconciled) => found && own && !open
      case Some(PostDated) => found && own && open && !inTime
      case Some(NotExact) => found && own && open && inTime && !exact
      case Some(_) => false
  {
    CountsAgreeIffAllFound(rows, req.guids);
    forall s
      ensures s in Selected(rows, req.guids) <==> s in rows && s.guid in req.guids
      ensures s.posted.Some? ==>
        (s.posted.value > Cutoff(req.statementDate) <==> s.posted.value / 86_400_000 > req.statementDate / 86_400_000)
    {
      SelectedMembers(rows, req.guids, s);
      if s.posted.Some? {
        EndOfDay(s.posted.value, req.statementDate);
      }
    }
  }

  lemma SmallerSet(a: set<string>, b: set<string>, x: string)
    requires a <= b && x in b && x !in a
    ensures |a| < |b|
  {
    SubsetCount(a, b - {x});
  }

  lemma {:induction false} SubsetCount(a: set<string>, b: set<string>)
    requires a <= b
    ensures |a| <= |b|
    decreases a
  {
    if a != {} {
      var x :| x in a;
      SubsetCount(a - {x}, b - {x});
    }
  }

  // ----- One finished session -----

  lemma {:induction false} BalanceAppend(a: seq<Split>, b: seq<Split>, account: string, scu: int)
    ensures Balance(a + b, account, scu) == Balance(a, account, scu) + Balance(b, account, scu)
  {
    if a == [] {
      assert a + b == b;
    } else {
      assert (a + b)[1..] == a[1..] + b;
      BalanceAppend(a[1..], b, account, scu);
    }
  }

  /** Marking moves exactly the selected, still unreconciled splits into the balance. */
  lemma {:induction false} MarkingAddsTheSelection(rows: seq<Split>, guids: set<string>, account: string, scu: int)
    requires forall s :: s in Selected(rows, guids) ==> s.account == account && s.state != "y"
    ensures Balance(Marked(rows, guids, account), account, scu) == Balance(rows, account, scu) + Sum(Selected(rows, guids), scu)
  {
    if rows != [] {
      var first, rest := rows[0], rows[1..];
      assert Marked(rows, guids, account)[1..] == Marked(rest, guids, account);
      if first.guid in guids {
        assert Selected(rows, guids)[0] == first && Selected(rows, guids)[1..] == Selected(rest, guids);
      }
      MarkingAddsTheSelection(rest, guids, account, scu);
    }
  }

  lemma {:induction false} MarkingLeavesOtherAccounts(rows: seq<Split>, guids: set<string>, account: string, other: string, scu: int)
    requires other != account
    ensures Balance(Marked(rows, guids, account), other, scu) == Balance(rows, other, scu)
  {
    if rows != [] {
      assert Marked(rows, guids, account)[1..] == Marked(rows[1..], guids, account);
      MarkingLeavesOtherAccounts(rows[1..], guids, account, other, scu);
    }
  }

  lemma AdjustmentUnits(difference: int, req: Request, scu: int, adj: Adjusting, account: string)
    requires scu > 0
    ensures Balance(Adjustment(difference, req, scu, adj), account, scu) == if account == req.account then difference else 0
    ensures BalanceIsExact(Adjustment(difference, req, scu, adj), account, scu)
  {
    var added := Adjustment(difference, req, scu, adj);
    if difference != 0 {
      WholeUnits(difference, scu);
      WholeUnits(-difference, scu);
      assert added == [added[0]] + [added[1]];
      BalanceAppend([added[0]], [added[1]], account, scu);
    }
  }

  lemma WholeUnits(n: int, scu: int)
    requires scu > 0
    ensures n * scu % scu == 0 && n * scu / scu == n
  {
    var q, r := n * scu / scu, n * scu % scu;
    assert (n - q) * scu == r;
    AtLeastOneUnit(n - q, scu);
  }

  lemma AtLeastOneUnit(k: int, scu: int)
    requires scu > 0
    ensures k == 0 || k * scu >= scu || k * scu <= -scu
  {
    if k > 0 {
      assert (k - 1) * scu >= 0;
    } else if k < 0 {
      assert (-k - 1) * scu >= 0;
    }
  }

  lemma MarkedAppend(a: seq<Split>, b: seq<Split>, guids: set<string>, account: string)
    ensures Marked(a + b, guids, account) == Marked(a, guids, account) + Marked(b, guids, account)
  {
  }

  /** What the checks leave: the requested splits exist, and each row they name may be reconciled. */
  lemma AcceptedSelection(rows: seq<Split>, req: Request, scu: int)
    requires KeyedByGuid(rows) && Refusal(rows, req, scu) == None
    ensures req.guids <= Guids(rows)
    ensures forall s :: s in rows && s.guid in req.guids ==> s.account == req.account && s.state != "y"
    ensures forall s :: s in Selected(rows, req.guids) ==> s.account == req.account && s.state != "y"
  {
    CountsAgreeIffAllFound(rows, req.guids);
    forall s | s in rows && s.guid in req.guids
      ensures s in Selected(rows, req.guids)
    {
      SelectedMembers(rows, req.guids, s);
    }
  }

  /** The two new guids are new. */
  ghost predicate NewGuids(rows: seq<Split>, adj: Adjusting) {
    adj.ownGuid !in Guids(rows) && adj.otherGuid !in Guids(rows) && adj.ownGuid != adj.otherGuid
  }

  lemma PlacesArePositive(scu: int)
    requires Places(scu).Some?
    ensures scu > 0
  {
    if scu <= 1 || scu % 10 != 0 {
      assert scu == 1;
    }
  }

  /** What is written: the marked table, then the adjustment, which is itself not marked. */
  lemma WrittenRows(rows: seq<Split>, req: Request, scu: int, adj: Adjusting)
    requires KeyedByGuid(rows) && NewGuids(rows, adj) && Finalize(rows, req, scu, adj).Done?
    ensures var result := Finalize(rows, req, scu, adj);
      result.rows == Marked(rows, req.guids, req.account) + Adjustment(result.difference, req, scu, adj)
    ensures Places(scu).Some? && scu > 0
  {
    var added := Adjustment(Finalize(rows, req, scu, adj).difference, req, scu, adj);
    PlacesArePositive(scu);
    AcceptedSelection(rows, req, scu);
    MarkedAppend(rows, added, req.guids, req.account);
    assert Marked(added, req.guids, req.account) == added;
  }

  /** No other account's reconciled balance moves, the imbalance account's included. */
  lemma OtherBalancesStay(rows: seq<Split>, req: Request, scu: int, adj: Adjusting, other: string)
    requires KeyedByGuid(rows) && NewGuids(rows, adj) && Finalize(rows, req, scu, adj).Done? && other != req.account
    ensures Balance(Finalize(rows, req, scu, adj).rows, other, scu) == Balance(rows, other, scu)
  {
    var d := Finalize(rows, req, scu, adj).difference;
    WrittenRows(rows, req, scu, adj);
    MarkingLeavesOtherAccounts(rows, req.guids, req.account, other, scu);
    BalanceAppend(Marked(rows, req.guids, req.account), Adjustment(d, req, scu, adj), other, scu);
    AdjustmentUnits(d, req, scu, adj, other);
  }

  lemma TieOut(rows: seq<Split>, req: Request, scu: int, adj: Adjusting, ending: int)
    requires KeyedByGuid(rows) && Refusal(rows, req, scu) == None && scu > 0
    ensures var added := Adjustment(Difference(rows, req, scu, ending), req, scu, adj);
      Balance(Marked(rows, req.guids, req.account) + added, req.account, scu) == ending
  {
    var d := Difference(rows, req, scu, ending);
    AcceptedSelection(rows, req, scu);
    MarkingAddsTheSelection(rows, req.guids, req.account, scu);
    BalanceAppend(Marked(rows, req.guids, req.account), Adjustment(d, req, scu, adj), req.account, scu);
    AdjustmentUnits(d, req, scu, adj, req.account);
  }

  /**
   * A finished session leaves the account's reconciled balance at the statement's ending balance,
   * with or without an adjustment.
   */
  lemma FinishedSessionTiesOut(rows: seq<Split>, req: Request, scu: int, adj: Adjusting)
    requires KeyedByGuid(rows) && NewGuids(rows, adj) && Finalize(rows, req, scu, adj).Done?
    ensures DecimalToUnits(req.ending, scu) == Some(Balance(Finalize(rows, req, scu, adj).rows, req.account, scu))
  {
    WrittenRows(rows, req, scu, adj);
    TieOut(rows, req, scu, adj, DecimalToUnits(req.ending, scu).value);
  }

  /** It changes nothing but the state of the selected splits, and adds splits only for a difference. */
  lemma FinishedSessionTouchesOnlyTheSelection(rows: seq<Split>, req: Request, scu: int, adj: Adjusting)
    requires KeyedByGuid(rows) && NewGuids(rows, adj) && Finalize(rows, req, scu, adj).Done?
    ensures var result := Finalize(rows, req, scu, adj);
      && |rows| <= |result.rows| && result.rows[|rows|..] == Adjustment(result.difference, req, scu, adj)
      && (forall i | 0 <= i < |rows| ::
            result.rows[i] == if rows[i].guid in req.guids then rows[i].(state := "y") else rows[i])
  {
    WrittenRows(rows, req, scu, adj);
    AcceptedSelection(rows, req, scu);
  }

  /** The two splits of an adjustment cancel; the other one is the imbalance account's, and both bear the statement's date. */
  lemma AdjustmentBalances(difference: int, req: Request, scu: int, adj: Adjusting)
    requires scu > 0
    ensures Sum(Adjustment(difference, req, scu, adj), scu) == 0
    ensures forall s | s in Adjustment(difference, req, scu, adj) ::
      s.posted == Some(req.statementDate) && s.account == if s.state == "y" then req.account else adj.imbalance
  {
    var added := Adjustment(difference, req, scu, adj);
    if difference != 0 {
      WholeUnits(difference, scu);
      WholeUnits(-difference, scu);
      assert added[1..] == [added[1]] && Sum([added[1]], scu) == -difference;
    }
  }

  /** A session finishes exactly with an accepted selection and a tie-out, or an adjustment that is allowed and possible. */
  lemma FinishesIff(rows: seq<Split>, req: Request, scu: int, adj: Adjusting,
                    refusal: Option<Failure>, exact: bool, read: Option<int>, reached: int)
    requires refusal == Refusal(rows, req, scu) && exact == BalanceIsExact(rows, req.account, scu)
    requires read == DecimalToUnits(req.ending, scu)
    requires reached == Balance(rows, req.account, scu) + Sum(Selected(rows, req.guids), scu)
    ensures Finalize(rows, req, scu, adj).Done? <==>
      refusal == None && exact && read.Some? && (read.value == reached || (req.createAdjustment && adj.possible))
  {
  }

  /** Otherwise it names the first thing in the way. */
  lemma RefusedBecause(rows: seq<Split>, req: Request, scu: int, adj: Adjusting,
                       refusal: Option<Failure>, exact: bool, read: Option<int>, reached: int)
    requires refusal == Refusal(rows, req, scu) && exact == BalanceIsExact(rows, req.account, scu)
    requires read == DecimalToUnits(req.ending, scu)
    requires reached == Balance(rows, req.account, scu) + Sum(Selected(rows, req.guids), scu)
    requires Finalize(rows, req, scu, adj).Failed?
    ensures Finalize(rows, req, scu, adj).why ==
      if refusal.Some? then refusal.value
      else if !exact then NotExact
      else if read == None then BadBalance
      else if req.createAdjustment then NoAdjustment else NotZero
  {
  }

  // ----- Any sequence of sessions -----

  datatype Session = Session(req: Request, adj: Adjusting)

  /** The database transaction: a refused session leaves the table as it was. */
  function Settle(rows: seq<Split>, s: Session, scu: int): seq<Split> {
    match Finalize(rows, s.req, scu, s.adj)
    case Failed(_) => rows
    case Done(rows', _) => rows'
  }

  function Play(rows: seq<Split>, sessions: seq<Session>, scu: int): seq<Split>
    decreases |sessions|
  {
    if sessions == [] then rows else Play(Settle(rows, sessions[0], scu), sessions[1..], scu)
  }

  /** The generated guids are new whenever they are generated. */
  ghost predicate GuidsStayNew(rows: seq<Split>, sessions: seq<Session>, scu: int)
    decreases |sessions|
  {
    sessions == [] || (NewGuids(rows, sessions[0].adj) && GuidsStayNew(Settle(rows, sessions[0], scu), sessions[1..], scu))
  }

  /** The ending balance of the last session that finished, else the balance at the start. */
  function LastStatement(rows: seq<Split>, sessions: seq<Session>, scu: int, before: int): int
    decreases |sessions|
  {
    if sessions == [] then before
    else
      var s := sessions[0];
      var ending := DecimalToUnits(s.req.ending, scu);
      var next := if Finalize(rows, s.req, scu, s.adj).Done? && ending.Some? then ending.value else before;
      LastStatement(Settle(rows, s, scu), sessions[1..], scu, next)
  }

  lemma SettleKeepsKeys(rows: seq<Split>, s: Session, scu: int)
    requires KeyedByGuid(rows) && NewGuids(rows, s.adj)
    ensures KeyedByGuid(Settle(rows, s, scu))
  {
    if Finalize(rows, s.req, scu, s.adj).Done? {
      FinishedSessionTouchesOnlyTheSelection(rows, s.req, scu, s.adj);
      var rows' := Settle(rows, s, scu);
      forall i | 0 <= i < |rows|
        ensures rows'[i].guid == rows[i].guid && rows[i].guid in Guids(rows)
      {
      }
      forall i | |rows| <= i < |rows'|
        ensures rows'[i] == rows'[|rows|..][i - |rows|]
      {
      }
    }
  }

  /** After any sequence of sessions on an account its reconciled balance is the last statement it was finished with. */
  lemma {:induction false} BalanceIsTheLastStatement(rows: seq<Split>, sessions: seq<Session>, account: string, scu: int)
    requires KeyedByGuid(rows) && GuidsStayNew(rows, sessions, scu)
    requires forall i :: 0 <= i < |sessions| ==> sessions[i].req.account == account
    ensures Balance(Play(rows, sessions, scu), account, scu)
         == LastStatement(rows, sessions, scu, Balance(rows, account, scu))
    decreases |sessions|
  {
    if sessions != [] {
      var s := sessions[0];
      SettleKeepsKeys(rows, s, scu);
      if Finalize(rows, s.req, scu, s.adj).Done? {
        FinishedSessionTiesOut(rows, s.req, scu, s.adj);
      }
      BalanceIsTheLastStatement(Settle(rows, s, scu), sessions[1..], account, scu);
    }
  }

  ghost predicate IsReconciled(rows: seq<Split>, guid: string) {
    exists s :: s in rows && s.guid == guid && s.state == "y"
  }

  lemma SettleKeepsReconciled(rows: seq<Split>, s: Session, scu: int, guid: string)
    requires IsReconciled(rows, guid)
    ensures IsReconciled(Settle(rows, s, scu), guid)
  {
    if Finalize(rows, s.req, scu, s.adj).Done? {
      var i :| 0 <= i < |rows| && rows[i].guid == guid && rows[i].state == "y";
      var rows' := Settle(rows, s, scu);
      assert rows'[i].guid == guid && rows'[i].state == "y";
      assert rows'[i] in rows';
    }
  }

  lemma {:induction false} PlayKeepsReconciled(rows: seq<Split>, sessions: seq<Session>, scu: int, guid: string)
    requires IsReconciled(rows, guid)
    ensures IsReconciled(Play(rows, sessions, scu), guid)
    decreases |sessions|
  {
    if sessions != [] {
      SettleKeepsReconciled(rows, sessions[0], scu, guid);
      PlayKeepsReconciled(Settle(rows, sessions[0], scu), sessions[1..], scu, guid);
    }
  }

  /** No split is reconciled by two sessions, whatever sessions come between. */
  lemma NoSplitIsReconciledTwice(rows: seq<Split>, first: Session, between: seq<Session>, last: Session, scu: int)
    requires KeyedByGuid(rows) && NewGuids(rows, first.adj) && Finalize(rows, first.req, scu, first.adj).Done?
    requires Finalize(Play(Settle(rows, first, scu), between, scu), last.req, scu, last.adj).Done?
    ensures first.req.guids !! last.req.guids
  {
    var rows1 := Settle(rows, first, scu);
    var rows2 := Play(rows1, between, scu);
    forall g | g in first.req.guids
      ensures g !in last.req.guids
    {
      FinishedMeansReconciled(rows, first, scu, g);
      PlayKeepsReconciled(rows1, between, scu, g);
      if g in last.req.guids {
        ReconciledIsRefused(rows2, last, scu, g);
      }
    }
  }

  lemma FinishedMeansReconciled(rows: seq<Split>, s: Session, scu: int, guid: string)
    requires KeyedByGuid(rows) && NewGuids(rows, s.adj) && Finalize(rows, s.req, scu, s.adj).Done? && guid in s.req.guids
    ensures IsReconciled(Settle(rows, s, scu), guid)
  {
    AcceptedSelection(rows, s.req, scu);
    FinishedSessionTouchesOnlyTheSelection(rows, s.req, scu, s.adj);
    var i :| 0 <= i < |rows| && rows[i].guid == guid;
    assert Settle(rows, s, scu)[i].state == "y";
  }

  lemma ReconciledIsRefused(rows: seq<Split>, s: Session, scu: int, guid: string)
    requires IsReconciled(rows, guid) && guid in s.req.guids
    ensures Finalize(rows, s.req, scu, s.adj).Failed?
  {
    var x :| x in rows && x.guid == guid && x.state == "y";
    SelectedMembers(rows, s.req.guids, x);
  }

  /** The split table behind the route. */
  class SplitTable {
    var rows: seq<Split>

    constructor (initial: seq<Split>)
      ensures rows == initial
    {
      rows := initial;
    }

    /** finalizeReconciliation inside its database transaction. */
    method FinalizeReconciliation(req: Request, scu: int, adj: Adjusting) returns (result: Result)
      modifies this
      ensures result == Finalize(old(rows), req, scu, adj)
      ensures rows == Settle(old(rows), Session(req, adj), scu)
    {
      var selected := Selected(rows, req.guids);
      var refusal := Refusal(rows, req, scu);
      if refusal.Some? {
        return Failed(refusal.value);
      }
      var selectedUnits := SumOf(selected, scu);
      if !BalanceIsExact(rows, req.account, scu) {
        return Failed(NotExact);
      }
      var ending := DecimalToUnits(req.ending, scu);
      if ending == None {
        return Failed(BadBalance);
      }
      var difference := ending.value - (Balance(rows, req.account, scu) + selectedUnits);
      if difference != 0 && !req.createAdjustment {
        return Failed(NotZero);
      }
      if difference != 0 {
        if !adj.possible {
          return Failed(NoAdjustment);
        }
        rows := rows + Adjustment(difference, req, scu, adj);
      } else {
        assert rows + [] == rows;
      }
      rows := Marked(rows, req.guids, req.account);
      result := Done(rows, difference);
    }

    /** The reduce over the selected splits. */
    static method SumOf(selected: seq<Split>, scu: int) returns (sum: int)
      ensures sum == Sum(selected, scu)
    {
      sum := 0;
      for i := 0 to |selected|
        invariant sum + Sum(selected[i..], scu) == Sum(selected, scu)
      {
        sum := sum + UnitsOf(selected[i], scu);
        assert selected[i..][1..] == selected[i + 1..];
      }
    }
  }
}
