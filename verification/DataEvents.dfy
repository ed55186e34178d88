/**
 * The data-change bus of DataEventsProvider.tsx as a timed state machine.
 *
 * `log` records what happened, in order: it is the yardstick for the theorems and no step
 * reads it. Times are milliseconds of a clock that never runs backwards.
 */
module DataEvents {
  import opened Prelude

  const DEBOUNCE_MS := 500
  const RECONNECT_MIN_MS := 5_000
  const RECONNECT_MAX_MS := 60_000
  const SUPPRESS_ECHO_MS := 1_500

  datatype Entity = Transactions | Accounts | Budgets | Schedules | Reconciliation | Prices | Business | WholeBook

  datatype Payload = Payload(entity: Entity, detail: string)

  datatype Entry =
    | Marked(entity: Entity, at: int)
    | MarksCleared
    | Shown
    | Hidden
    | Ignored(payload: Payload, at: int)
    | Accepted(payload: Payload, at: int)
    | Flushed(at: int)
    | Dispatched(payload: Payload, at: int)
    | Skipped(payload: Payload, at: int)

  type Log = seq<Entry>

  datatype State = State(
    now: int,
    suppressedUntil: map<Entity, int>,
    pending: seq<Payload>,
    flushDue: Option<int>,
    visible: bool,
    streamOpen: bool,
    reconnectDue: Option<int>,
    reconnectDelay: int,
    disposed: bool,
    log: Log)

  /** After the mount effect has run: the first connect() opened the stream. */
  function Mounted(visible: bool, now: int): State {
    State(now, map[], [], None, visible, true, None, RECONNECT_MIN_MS, false, [if visible then Shown else Hidden])
  }

  // ----- Steps -----

  predicate EchoSuppressed(until: map<Entity, int>, e: Entity, now: int) {
    e in until && now < until[e]
  }

  /** The lazy deletion inside isEchoSuppressed. */
  function Purge(until: map<Entity, int>, e: Entity, now: int): map<Entity, int> {
    if e in until && now >= until[e] then until - {e} else until
  }

  /** Map.set on the pending map: an entity keeps its place, its payload is replaced. */
  function Put(pending: seq<Payload>, p: Payload): seq<Payload> {
    if pending == [] then [p]
    else if pending[0].entity == p.entity then [p] + pending[1..]
    else [pending[0]] + Put(pending[1..], p)
  }

  function Lookup(pending: seq<Payload>, e: Entity): Option<Payload> {
    if pending == [] then None
    else if pending[0].entity == e then Some(pending[0])
    else Lookup(pending[1..], e)
  }

  /** The loop of `flush`: the re-check of each entity, then its dispatch. */
  function Drain(pending: seq<Payload>, until: map<Entity, int>, now: int): (map<Entity, int>, Log) {
    if pending == [] then (until, [])
    else
      var p := pending[0];
      var first := if EchoSuppressed(until, p.entity, now) then Skipped(p, now) else Dispatched(p, now);
      var (rest, log) := Drain(pending[1..], Purge(until, p.entity, now), now);
      (rest, [first] + log)
  }

  function Flush(s: State): State {
    if !s.visible then s.(flushDue := None)
    else
      var (until, entries) := Drain(s.pending, s.suppressedUntil, s.now);
      s.(flushDue := None, pending := [], suppressedUntil := until, log := s.log + [Flushed(s.now)] + entries)
  }

  function Receive(s: State, p: Payload): State {
    if EchoSuppressed(s.suppressedUntil, p.entity, s.now) then s.(log := s.log + [Ignored(p, s.now)])
    else
      s.(suppressedUntil := Purge(s.suppressedUntil, p.entity, s.now),
         pending := Put(s.pending, p),
         flushDue := if s.visible && s.flushDue == None then Some(s.now + DEBOUNCE_MS) else s.flushDue,
         log := s.log + [Accepted(p, s.now)])
  }

  function ChangeVisibility(s: State, visible: bool): State {
    var s1 := s.(visible := visible, log := s.log + [if visible then Shown else Hidden]);
    if s.disposed || !visible || s.pending == [] then s1 else Flush(s1)
  }

  datatype Event =
    | Mark(entity: Entity)
    | ClearMarks
    | Arrive(frame: Option<Payload>)
    | FlushTimer
    | Visibility(visible: bool)
    | Connected
    | StreamError
    | ReconnectTimer
    | Unmount

  datatype Timed = Timed(at: int, event: Event)

  predicate Enabled(s: State, e: Timed) {
    && s.now <= e.at
    && match e.event
       case Arrive(_) => s.streamOpen
       case Connected => s.streamOpen
       case StreamError => s.streamOpen
       case FlushTimer => s.flushDue.Some? && s.flushDue.value <= e.at
       case ReconnectTimer => s.reconnectDue.Some? && s.reconnectDue.value <= e.at
       case Unmount => !s.disposed
       case _ => true
  }

  /** One handler, at the instant `s.now`. */
  function Act(s: State, event: Event): State {
    match event
    case Mark(entity) =>
      s.(suppressedUntil := s.suppressedUntil[entity := s.now + SUPPRESS_ECHO_MS], log := s.log + [Marked(entity, s.now)])
    case ClearMarks => s.(suppressedUntil := map[], log := s.log + [MarksCleared])
    case Arrive(frame) => (match frame case None => s case Some(p) => Receive(s, p))
    case FlushTimer => Flush(s)
    case Visibility(visible) => ChangeVisibility(s, visible)
    case Connected => s.(reconnectDelay := RECONNECT_MIN_MS)
    case StreamError =>
      s.(streamOpen := false,
         reconnectDue := Some(s.now + s.reconnectDelay),
         reconnectDelay := Min(s.reconnectDelay * 2, RECONNECT_MAX_MS))
    case ReconnectTimer => s.(reconnectDue := None, streamOpen := true)
    case Unmount => s.(disposed := true, streamOpen := false, reconnectDue := None, flushDue := None)
  }

  function Step(s: State, e: Timed): State
    requires Enabled(s, e)
  {
    Act(s.(now := e.at), e.event)
  }

  // ----- Reading the log -----

  /** The last suppression mark of `e` still in force, by history alone. */
  function LastMark(log: Log, e: Entity): Option<int>
    decreases |log|
  {
    if log == [] then None
    else
      match log[|log| - 1]
      case Marked(x, at) => if x == e then Some(at) else LastMark(log[..|log| - 1], e)
      case MarksCleared => None
      case _ => LastMark(log[..|log| - 1], e)
  }

  /** `now` falls in the echo window of the latest mark of `e`. */
  predicate InEchoWindow(log: Log, e: Entity, now: int) {
    LastMark(log, e).Some? && now < LastMark(log, e).value + 1_500
  }

  function VisibleAt(log: Log): bool
    decreases |log|
  {
    log != [] &&
    match log[|log| - 1]
    case Shown => true
    case Hidden => false
    case _ => VisibleAt(log[..|log| - 1])
  }

  predicate Settles(x: Entry, e: Entity) {
    (x.Dispatched? || x.Skipped?) && x.payload.entity == e
  }

  predicate Accepts(x: Entry, e: Entity) {
    x.Accepted? && x.payload.entity == e
  }

  /** The payload of `e` that was accepted last and not yet settled. */
  function Unsettled(log: Log, e: Entity): Option<Payload>
    decreases |log|
  {
    if log == [] then None
    else
      var x := log[|log| - 1];
      if Accepts(x, e) then Some(x.payload)
      else if Settles(x, e) then None
      else Unsettled(log[..|log| - 1], e)
  }

  /** When the oldest event since the last flush was accepted. */
  function OldestWaiting(log: Log): Option<int>
    decreases |log|
  {
    if log == [] then None
    else
      match log[|log| - 1]
      case Flushed(_) => None
      case Accepted(_, at) =>
        var older := OldestWaiting(log[..|log| - 1]);
        if older.Some? then older else Some(at)
      case _ => OldestWaiting(log[..|log| - 1])
  }

  /** Only settlements since the last flush began. */
  predicate FlushRunning(log: Log)
    decreases |log|
  {
    && log != []
    && var x := log[|log| - 1];
    x.Flushed? || ((x.Dispatched? || x.Skipped?) && FlushRunning(log[..|log| - 1]))
  }

  /** The tab has this moment become visible. */
  predicate JustShown(log: Log) {
    log != [] && log[|log| - 1].Shown?
  }

  /** The oldest waiting event is half a second old. */
  predicate Debounced(log: Log, now: int) {
    OldestWaiting(log).Some? && OldestWaiting(log).value + 500 <= now
  }

  /** What each entry promises about the history before it. */
  predicate EntryJustified(before: Log, x: Entry) {
    match x
    case Ignored(p, at) => InEchoWindow(before, p.entity, at)
    case Accepted(p, at) => !InEchoWindow(before, p.entity, at)
    case Dispatched(p, at) =>
      && Unsettled(before, p.entity) == Some(p) && FlushRunning(before) && VisibleAt(before)
      && !InEchoWindow(before, p.entity, at)
    case Skipped(p, at) =>
      Unsettled(before, p.entity) == Some(p) && FlushRunning(before) && InEchoWindow(before, p.entity, at)
    case Flushed(at) => JustShown(before) || Debounced(before, at)
    case _ => true
  }

  ghost predicate Justified(log: Log) {
    forall j :: 0 <= j < |log| ==> EntryJustified(log[..j], log[j])
  }

  // ----- Invariant -----

  /** The lazily purged map answers, now and at any later time, what the full history of marks would. */
  ghost predicate MarksAgree(until: map<Entity, int>, log: Log, now: int) {
    forall e, t :: now <= t ==> (EchoSuppressed(until, e, t) <==> InEchoWindow(log, e, t))
  }

  ghost predicate PendingAgrees(pending: seq<Payload>, log: Log) {
    && (forall e :: Lookup(pending, e) == Unsettled(log, e))
    && (forall i, j :: 0 <= i < j < |pending| ==> pending[i].entity != pending[j].entity)
  }

  ghost predicate FlushTimerSound(s: State) {
    && (s.flushDue.Some? ==> OldestWaiting(s.log).Some? && s.flushDue.value == OldestWaiting(s.log).value + 500)
    && (s.disposed ==> s.flushDue == None)
    && (OldestWaiting(s.log).Some? ==> OldestWaiting(s.log).value <= s.now)
    && (s.visible && !s.disposed && s.pending != [] ==> s.flushDue.Some?)
  }

  ghost predicate StreamSound(s: State) {
    if s.disposed then !s.streamOpen && s.reconnectDue == None
    else s.streamOpen <==> s.reconnectDue == None
  }

  ghost predicate Invariant(s: State) {
    && MarksAgree(s.suppressedUntil, s.log, s.now) && PendingAgrees(s.pending, s.log)
    && (s.pending != [] <==> OldestWaiting(s.log).Some?)
    && FlushTimerSound(s) && StreamSound(s)
    && Justified(s.log) && (s.visible <==> VisibleAt(s.log))
  }

  lemma Snoc(log: Log, x: Entry)
    ensures (log + [x])[..|log + [x]| - 1] == log
  {
  }

  lemma JustifiedSnoc(log: Log, x: Entry)
    requires Justified(log) && EntryJustified(log, x)
    ensures Justified(log + [x])
  {
    forall j | 0 <= j < |log + [x]|
      ensures EntryJustified((log + [x])[..j], (log + [x])[j])
    {
      assert (log + [x])[..j] == log[..j];
    }
    assert (log + [x])[..|log|] == log == log[..|log|];
  }

  lemma PurgeAgrees(until: map<Entity, int>, e: Entity, log: Log, now: int)
    requires MarksAgree(until, log, now)
    ensures MarksAgree(Purge(until, e, now), log, now)
  {
  }

  /** Entries other than marks do not move any echo window. */
  lemma NonMarkAgrees(until: map<Entity, int>, log: Log, x: Entry, now: int)
    requires MarksAgree(until, log, now) && !x.Marked? && !x.MarksCleared?
    ensures MarksAgree(until, log + [x], now)
  {
    Snoc(log, x);
    assert forall e, t :: InEchoWindow(log + [x], e, t) <==> InEchoWindow(log, e, t);
  }

  lemma {:induction false} PutThenLookup(pending: seq<Payload>, p: Payload, e: Entity)
    ensures Put(pending, p) != []
    ensures Lookup(Put(pending, p), e) == if e == p.entity then Some(p) else Lookup(pending, e)
  {
    if pending != [] && pending[0].entity != p.entity {
      PutThenLookup(pending[1..], p, e);
    }
  }

  lemma {:induction false} PutKeepsPlaces(pending: seq<Payload>, p: Payload)
    ensures var r := Put(pending, p);
      && |pending| <= |r| <= |pending| + 1
      && (forall i :: 0 <= i < |pending| ==> r[i].entity == pending[i].entity)
      && (|r| > |pending| ==> r[|pending|] == p && forall i :: 0 <= i < |pending| ==> pending[i].entity != p.entity)
  {
    if pending != [] && pending[0].entity != p.entity {
      PutKeepsPlaces(pending[1..], p);
    }
  }

  lemma {:induction false} AbsentLookup(pending: seq<Payload>, e: Entity)
    requires forall i :: 0 <= i < |pending| ==> pending[i].entity != e
    ensures Lookup(pending, e) == None
  {
    if pending != [] {
      AbsentLookup(pending[1..], e);
    }
  }

  lemma {:induction false} RunningFlushHasNothingWaiting(log: Log)
    requires FlushRunning(log)
    ensures OldestWaiting(log) == None
    decreases |log|
  {
    if !log[|log| - 1].Flushed? {
      RunningFlushHasNothingWaiting(log[..|log| - 1]);
    }
  }

  /** Entries that neither accept nor settle leave what is owed. */
  lemma NeutralKeepsPending(pending: seq<Payload>, log: Log, x: Entry)
    requires PendingAgrees(pending, log) && !x.Accepted? && !x.Dispatched? && !x.Skipped?
    ensures PendingAgrees(pending, log + [x])
  {
    Snoc(log, x);
    forall e
      ensures Lookup(pending, e) == Unsettled(log + [x], e)
    {
    }
  }

  /** Settling the first pending payload leaves the others owed. */
  lemma SettlingKeepsPending(pending: seq<Payload>, log: Log, x: Entry)
    requires PendingAgrees(pending, log) && pending != [] && (x.Dispatched? || x.Skipped?) && x.payload == pending[0]
    ensures PendingAgrees(pending[1..], log + [x])
  {
    Snoc(log, x);
    AbsentLookup(pending[1..], pending[0].entity);
    forall e
      ensures Lookup(pending[1..], e) == Unsettled(log + [x], e)
    {
    }
  }

  /** What holds before each turn of the flush loop. */
  ghost predicate Draining(pending: seq<Payload>, until: map<Entity, int>, now: int, log: Log) {
    && MarksAgree(until, log, now) && PendingAgrees(pending, log)
    && Justified(log) && FlushRunning(log) && VisibleAt(log)
  }

  lemma DrainOne(pending: seq<Payload>, until: map<Entity, int>, now: int, log: Log)
    requires Draining(pending, until, now, log) && pending != []
    ensures var p := pending[0];
      var first := if EchoSuppressed(until, p.entity, now) then Skipped(p, now) else Dispatched(p, now);
      Draining(pending[1..], Purge(until, p.entity, now), now, log + [first])
  {
    var p := pending[0];
    var first := if EchoSuppressed(until, p.entity, now) then Skipped(p, now) else Dispatched(p, now);
    assert Lookup(pending, p.entity) == Some(p);
    assert InEchoWindow(log, p.entity, now) <==> EchoSuppressed(until, p.entity, now);
    JustifiedSnoc(log, first);
    PurgeAgrees(until, p.entity, log, now);
    NonMarkAgrees(Purge(until, p.entity, now), log, first, now);
    SettlingKeepsPending(pending, log, first);
    Snoc(log, first);
  }

  /** One flush settles every pending payload, and the log after it owes nothing. */
  lemma {:induction false} DrainSettlesEverything(pending: seq<Payload>, until: map<Entity, int>, now: int, log: Log)
    requires Draining(pending, until, now, log)
    ensures var (until', entries) := Drain(pending, until, now);
      Draining([], until', now, log + entries) && OldestWaiting(log + entries) == None
  {
    if pending == [] {
      assert log + [] == log;
      RunningFlushHasNothingWaiting(log);
    } else {
      var p := pending[0];
      var first := if EchoSuppressed(until, p.entity, now) then Skipped(p, now) else Dispatched(p, now);
      DrainOne(pending, until, now, log);
      DrainSettlesEverything(pending[1..], Purge(until, p.entity, now), now, log + [first]);
      assert log + Drain(pending, until, now).1
          == (log + [first]) + Drain(pending[1..], Purge(until, p.entity, now), now).1;
    }
  }

  lemma FlushKeepsInvariant(s: State)
    requires MarksAgree(s.suppressedUntil, s.log, s.now) && PendingAgrees(s.pending, s.log) && Justified(s.log)
    requires s.visible && VisibleAt(s.log) && StreamSound(s) && (JustShown(s.log) || Debounced(s.log, s.now))
    ensures Invariant(Flush(s)) && Flush(s).pending == []
  {
    var x := Flushed(s.now);
    var log := s.log + [x];
    Snoc(s.log, x);
    JustifiedSnoc(s.log, x);
    NonMarkAgrees(s.suppressedUntil, s.log, x, s.now);
    NeutralKeepsPending(s.pending, s.log, x);
    DrainSettlesEverything(s.pending, s.suppressedUntil, s.now, log);
  }

  lemma PutAgrees(pending: seq<Payload>, log: Log, p: Payload, now: int)
    requires PendingAgrees(pending, log)
    ensures PendingAgrees(Put(pending, p), log + [Accepted(p, now)]) && Put(pending, p) != []
  {
    var x := Accepted(p, now);
    Snoc(log, x);
    PutKeepsPlaces(pending, p);
    PutThenLookup(pending, p, p.entity);
    forall e
      ensures Lookup(Put(pending, p), e) == Unsettled(log + [x], e)
    {
      PutThenLookup(pending, p, e);
    }
  }

  /** Marks and ignored frames: they may move echo windows and nothing else. */
  lemma NeutralKeepsInvariant(s: State, until: map<Entity, int>, x: Entry)
    requires Invariant(s) && (x.Marked? || x.MarksCleared? || x.Ignored?) && EntryJustified(s.log, x)
    requires MarksAgree(until, s.log + [x], s.now)
    ensures Invariant(s.(suppressedUntil := until, log := s.log + [x]))
  {
    JustifiedSnoc(s.log, x);
    NeutralKeepsPending(s.pending, s.log, x);
    Snoc(s.log, x);
  }

  lemma IgnoringKeepsInvariant(s: State, p: Payload)
    requires Invariant(s) && InEchoWindow(s.log, p.entity, s.now)
    ensures Invariant(s.(log := s.log + [Ignored(p, s.now)]))
  {
    NonMarkAgrees(s.suppressedUntil, s.log, Ignored(p, s.now), s.now);
    NeutralKeepsInvariant(s, s.suppressedUntil, Ignored(p, s.now));
  }

  lemma AcceptingAgrees(s: State, p: Payload)
    requires Invariant(s) && !InEchoWindow(s.log, p.entity, s.now)
    ensures var log := s.log + [Accepted(p, s.now)];
      && MarksAgree(Purge(s.suppressedUntil, p.entity, s.now), log, s.now)
      && PendingAgrees(Put(s.pending, p), log) && Put(s.pending, p) != [] && Justified(log) && VisibleAt(log) == VisibleAt(s.log)
  {
    var x := Accepted(p, s.now);
    JustifiedSnoc(s.log, x);
    PurgeAgrees(s.suppressedUntil, p.entity, s.log, s.now);
    NonMarkAgrees(Purge(s.suppressedUntil, p.entity, s.now), s.log, x, s.now);
    Snoc(s.log, x);
    PutAgrees(s.pending, s.log, p, s.now);
  }

  lemma ReceiveKeepsInvariant(s: State, p: Payload)
    requires Invariant(s) && !s.disposed
    ensures Invariant(Receive(s, p))
  {
    assert InEchoWindow(s.log, p.entity, s.now) <==> EchoSuppressed(s.suppressedUntil, p.entity, s.now);
    if EchoSuppressed(s.suppressedUntil, p.entity, s.now) {
      IgnoringKeepsInvariant(s, p);
    } else {
      AcceptingAgrees(s, p);
      Snoc(s.log, Accepted(p, s.now));
    }
  }

  lemma MarkAgrees(until: map<Entity, int>, log: Log, e: Entity, now: int)
    requires MarksAgree(until, log, now)
    ensures MarksAgree(until[e := now + SUPPRESS_ECHO_MS], log + [Marked(e, now)], now)
  {
    Snoc(log, Marked(e, now));
    forall f, t | now <= t
      ensures EchoSuppressed(until[e := now + SUPPRESS_ECHO_MS], f, t) <==> InEchoWindow(log + [Marked(e, now)], f, t)
    {
      assert EchoSuppressed(until, f, t) <==> InEchoWindow(log, f, t);
    }
  }

  lemma ClearedAgrees(log: Log, now: int)
    ensures MarksAgree(map[], log + [MarksCleared], now)
  {
    Snoc(log, MarksCleared);
  }

  lemma MarkKeepsInvariant(s: State, e: Entity)
    requires Invariant(s)
    ensures Invariant(s.(suppressedUntil := s.suppressedUntil[e := s.now + SUPPRESS_ECHO_MS], log := s.log + [Marked(e, s.now)]))
  {
    MarkAgrees(s.suppressedUntil, s.log, e, s.now);
    NeutralKeepsInvariant(s, s.suppressedUntil[e := s.now + SUPPRESS_ECHO_MS], Marked(e, s.now));
  }

  lemma ClearMarksKeepsInvariant(s: State)
    requires Invariant(s)
    ensures Invariant(s.(suppressedUntil := map[], log := s.log + [MarksCleared]))
  {
    ClearedAgrees(s.log, s.now);
    NeutralKeepsInvariant(s, map[], MarksCleared);
  }

  lemma VisibilityKeepsInvariant(s: State, visible: bool)
    requires Invariant(s)
    ensures Invariant(ChangeVisibility(s, visible))
    ensures visible && !s.disposed ==> ChangeVisibility(s, visible).pending == []
  {
    var x := if visible then Shown else Hidden;
    var s1 := s.(visible := visible, log := s.log + [x]);
    JustifiedSnoc(s.log, x);
    NonMarkAgrees(s.suppressedUntil, s.log, x, s.now);
    Snoc(s.log, x);
    NeutralKeepsPending(s.pending, s.log, x);
    if !s.disposed && visible && s.pending != [] {
      FlushKeepsInvariant(s1);
    }
  }

  lemma WaitingKeepsInvariant(s: State, at: int)
    requires Invariant(s) && s.now <= at
    ensures Invariant(s.(now := at))
  {
  }

  lemma StreamStepsKeepInvariant(s: State, e: Event)
    requires Invariant(s) && Enabled(s, Timed(s.now, e))
    requires e.Connected? || e.StreamError? || e.ReconnectTimer? || e.Unmount?
    ensures Invariant(Act(s, e))
  {
  }

  lemma ArrivalKeepsInvariant(s: State, frame: Option<Payload>)
    requires Invariant(s) && s.streamOpen
    ensures Invariant(Act(s, Arrive(frame)))
  {
    if frame.Some? {
      ReceiveKeepsInvariant(s, frame.value);
    }
  }

  lemma FlushTimerKeepsInvariant(s: State)
    requires Invariant(s) && s.flushDue.Some? && s.flushDue.value <= s.now
    ensures Invariant(Flush(s))
  {
    if s.visible {
      FlushKeepsInvariant(s);
    }
  }

  lemma ActKeepsInvariant(s: State, e: Event)
    requires Invariant(s) && Enabled(s, Timed(s.now, e))
    ensures Invariant(Act(s, e))
  {
    match e
    case Mark(entity) => MarkKeepsInvariant(s, entity);
    case ClearMarks => ClearMarksKeepsInvariant(s);
    case Arrive(frame) => ArrivalKeepsInvariant(s, frame);
    case FlushTimer => FlushTimerKeepsInvariant(s);
    case Visibility(visible) => VisibilityKeepsInvariant(s, visible);
    case _ => StreamStepsKeepInvariant(s, e);
  }

  lemma StepKeepsInvariant(s: State, e: Timed)
    requires Invariant(s) && Enabled(s, e)
    ensures Invariant(Step(s, e))
  {
    WaitingKeepsInvariant(s, e.at);
    ActKeepsInvariant(s.(now := e.at), e.event);
  }

  lemma MountedIsSound(visible: bool, now: int)
    ensures Invariant(Mounted(visible, now))
  {
    var log := [if visible then Shown else Hidden];
    assert log[..|log| - 1] == [];
    assert LastMark([], Transactions) == None && OldestWaiting([]) == None;
    forall e
      ensures Unsettled(log, e) == None && LastMark(log, e) == None
    {
      assert Unsettled([], e) == None && LastMark([], e) == None;
    }
  }
}
