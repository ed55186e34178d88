/**
 * SimpleFin scheduling in worker.ts as a state machine.
 *
 * JavaScript runs one step at a time between awaits, so each event below is the code
 * between two await points. `Run` folds any legal sequence of such steps from start-up:
 * rebuild requests, the phases of a rebuild, timer firings, queued jobs, waits and shutdown may
 * interleave in every order.
 */
module SimpleFin {
  import opened Prelude
  import opened Timers

  type ConnectionId = int
  type EntryId = nat
  type TaskId = nat

  const MIN_DELAY_MS := 60_000
  const HOUR_MS := 3_600_000

  /** A sync-enabled connection as the query returns it. */
  datatype Connection = Connection(id: ConnectionId, lastSync: Option<int>)

  /** The owner's preferences; `hours` is parseInt's result, None for NaN. */
  datatype Preferences = OptedOut | OptedIn(hours: Option<int>)

  /** A SimpleFinTimerEntry object: shared by the map and by the timer's closure, so it has an identity. */
  datatype Entry = Entry(initial: Option<Handle>, interval: Option<Handle>)

  datatype Callback =
    | FirstTick(entry: EntryId, conn: ConnectionId, intervalMs: int)
    | RepeatTick(conn: ConnectionId)

  datatype Rebuild = NoRebuild | Querying | Arming(rest: seq<Connection>)

  /** Where a sync task is parked: a queued job awaits the dynamic import before its try block. */
  datatype Phase = ScheduledSync | JobImporting | JobSyncing

  datatype Task = Task(conn: ConnectionId, phase: Phase)

  /** The timer side: the registry, the entry objects and the `simplefinTimers` map. */
  datatype Schedule = Schedule(
    registry: Registry<Callback>,
    entries: map<EntryId, Entry>,
    nextEntry: EntryId,
    byConn: map<ConnectionId, EntryId>)

  /** The sync side: the `simplefinSyncInFlight` set and the tasks parked at an await. */
  datatype Syncs = Syncs(guard: set<ConnectionId>, tasks: map<TaskId, Task>, nextTask: TaskId)

  /** `clock` is the latest instant read so far; Date.now() never runs backwards. */
  datatype State = State(schedule: Schedule, queued: nat, rebuild: Rebuild, syncs: Syncs, shuttingDown: bool, clock: int)

  function Init(): State {
    State(Schedule(Empty(), map[], 0, map[]), 0, NoRebuild, Syncs({}, map[], 0), false, 0)
  }

  // ----- Cadence arithmetic -----

  /** Math.max(1, Math.min(24, parseInt(raw) || 2)). */
  function IntervalHours(hours: Option<int>): (r: int)
    ensures 1 <= r <= 24
    ensures hours.Some? && 1 <= hours.value <= 24 ==> r == hours.value
    ensures hours == None || hours.value == 0 ==> r == 2
    ensures hours.Some? && hours.value > 24 ==> r == 24
    ensures hours.Some? && hours.value < 0 ==> r == 1
  {
    Max(1, Min(24, if hours.Some? && hours.value != 0 then hours.value else 2))
  }

  function IntervalMs(hours: Option<int>): (r: int)
    ensures 60 * 60 * 1000 <= r <= 24 * 60 * 60 * 1000
    ensures hours.Some? && 1 <= hours.value <= 24 ==> r == hours.value * 60 * 60 * 1000
  {
    IntervalHours(hours) * HOUR_MS
  }

  function LastSync(c: Connection): int {
    match c.lastSync
    case None => 0
    case Some(t) => t
  }

  function InitialDelay(lastSync: int, intervalMs: int, now: int): int {
    Max(MIN_DELAY_MS, Min(intervalMs, lastSync + intervalMs - now))
  }

  // ----- Steps -----

  function Slots(e: Entry): set<Handle> {
    HandleSet(e.initial) + HandleSet(e.interval)
  }

  /** Handles held by the entries that simplefinTimers currently names. */
  ghost function HeldHandles(s: Schedule): set<Handle> {
    set c, h | c in s.byConn && s.byConn[c] in s.entries && h in Slots(s.entries[s.byConn[c]]) :: h
  }

  ghost function ClearSimpleFinTimers(s: Schedule): Schedule {
    s.(registry := ClearHandles(s.registry, HeldHandles(s)), byConn := map[])
  }

  function ArmConnection(s: Schedule, c: Connection, hours: Option<int>, now: int): Schedule {
    var ms := IntervalMs(hours);
    var timer := Timer(Timeout, FirstTick(s.nextEntry, c.id, ms), now + InitialDelay(LastSync(c), ms, now), 0);
    var (registry, handle) := Arm(s.registry, timer);
    Schedule(registry,
             s.entries[s.nextEntry := Entry(handle, None)],
             s.nextEntry + 1,
             s.byConn[c.id := s.nextEntry])
  }

  /** A timer runs: the first tick empties its slot and starts the repeating interval. */
  function Tick(s: Schedule, h: Handle, now: int): Schedule
    requires h in s.registry.platform
  {
    var cb := s.registry.platform[h].callback;
    var fired := Fire(s.registry, h, now);
    if cb.FirstTick? && cb.entry in s.entries then
      var (registry, handle) := Arm(fired, Timer(Interval, RepeatTick(cb.conn), now + cb.intervalMs, cb.intervalMs));
      s.(registry := registry, entries := s.entries[cb.entry := Entry(None, handle)])
    else
      s.(registry := fired)
  }

  /** Skip a guarded connection, otherwise record it and start a task. */
  function StartSync(y: Syncs, conn: ConnectionId, phase: Phase): Syncs {
    if conn in y.guard then y
    else Syncs(y.guard + {conn}, y.tasks[y.nextTask := Task(conn, phase)], y.nextTask + 1)
  }

  datatype Event =
    | RequestRebuild
    | BeginRebuild(now: int)
    | QueryReturned(connections: seq<Connection>)
    | NextConnection(preferences: Preferences, now: int)
    | RebuildEnds
    | FireTimer(handle: Handle, now: int)
    | JobStarts(conn: ConnectionId)
    | JobImported(task: TaskId)
    | JobImportFails(task: TaskId)
    | SyncEnds(task: TaskId)
    | Wait(now: int)
    | Shutdown

  function Ids(cs: seq<Connection>): seq<ConnectionId> {
    seq(|cs|, i requires 0 <= i < |cs| => cs[i].id)
  }

  /**
   * What the runtime can do next. Rebuilds run one at a time because each `.then` waits for
   * the previous rebuild; connection ids are a primary key; a timer never runs early.
   */
  ghost predicate Enabled(s: State, e: Event) {
    match e
    case RequestRebuild => true
    case BeginRebuild(now) => s.rebuild == NoRebuild && s.queued > 0 && s.clock <= now
    case QueryReturned(cs) => s.rebuild == Querying && Distinct(Ids(cs))
    case NextConnection(_, now) => s.rebuild.Arming? && s.rebuild.rest != [] && s.clock <= now
    case RebuildEnds => s.rebuild != NoRebuild
    case FireTimer(h, now) =>
      h in s.schedule.registry.platform && s.schedule.registry.platform[h].due <= now && s.clock <= now
    case JobStarts(_) => true
    case JobImported(t) => t in s.syncs.tasks && s.syncs.tasks[t].phase == JobImporting
    case JobImportFails(t) => t in s.syncs.tasks && s.syncs.tasks[t].phase == JobImporting
    case SyncEnds(t) => t in s.syncs.tasks && s.syncs.tasks[t].phase != JobImporting
    case Wait(now) => s.clock <= now
    case Shutdown => true
  }

  ghost function Step(s: State, e: Event): State
    requires Enabled(s, e)
  {
    match e
    case RequestRebuild => s.(queued := s.queued + 1)
    case BeginRebuild(now) =>
      s.(schedule := ClearSimpleFinTimers(s.schedule), queued := s.queued - 1, rebuild := Querying, clock := now)
    case QueryReturned(cs) => s.(rebuild := Arming(cs))
    case NextConnection(p, now) => ConsiderNext(s, p, now)
    case RebuildEnds => s.(rebuild := NoRebuild)
    case FireTimer(h, now) =>
      s.(schedule := Tick(s.schedule, h, now),
         syncs := StartSync(s.syncs, s.schedule.registry.platform[h].callback.conn, ScheduledSync),
         clock := now)
    case JobStarts(conn) => s.(syncs := StartSync(s.syncs, conn, JobImporting))
    case JobImported(t) => s.(syncs := s.syncs.(tasks := s.syncs.tasks[t := s.syncs.tasks[t].(phase := JobSyncing)]))
    case JobImportFails(t) => s.(syncs := s.syncs.(tasks := s.syncs.tasks - {t}))
    case SyncEnds(t) => s.(syncs := EndTask(s.syncs, t))
    case Wait(now) => s.(clock := now)
    case Shutdown =>
      if s.shuttingDown then s
      else s.(shuttingDown := true, schedule := s.schedule.(registry := ClearAll(s.schedule.registry), byConn := map[]))
  }

  function ConsiderNext(s: State, p: Preferences, now: int): State
    requires s.rebuild.Arming? && s.rebuild.rest != []
  {
    var s1 := s.(rebuild := Arming(s.rebuild.rest[1..]), clock := now);
    match p
    case OptedOut => s1
    case OptedIn(hours) => s1.(schedule := ArmConnection(s.schedule, s.rebuild.rest[0], hours, now))
  }

  /** The finally block: the sync is over and its connection is released. */
  function EndTask(y: Syncs, t: TaskId): Syncs
    requires t in y.tasks
  {
    y.(tasks := y.tasks - {t}, guard := y.guard - {y.tasks[t].conn})
  }

  // ----- What every step keeps -----

  /** Connection `c`'s entry, as named by simplefinTimers, holds live timer `h` in the slot of its kind. */
  ghost predicate Holds(s: Schedule, c: ConnectionId, h: Handle) {
    && h in s.registry.platform && c in s.byConn && s.byConn[c] in s.entries
    && var t := s.registry.platform[h];
    && t.callback.conn == c
    && (t.callback.FirstTick? ==>
          t.kind == Timeout && t.callback.entry == s.byConn[c] && s.entries[s.byConn[c]].initial == Some(h))
    && (t.callback.RepeatTick? ==> t.kind == Interval && s.entries[s.byConn[c]].interval == Some(h))
  }

  ghost predicate EveryTimerHeld(s: Schedule) {
    forall h :: h in s.registry.platform ==> Holds(s, s.registry.platform[h].callback.conn, h)
  }

  predicate Below(h: Option<Handle>, bound: Handle) {
    h.Some? ==> h.value < bound
  }

  ghost predicate EntriesSound(s: Schedule) {
    && (forall e :: e in s.entries ==>
          && e < s.nextEntry
          && (s.entries[e].initial == None || s.entries[e].interval == None)
          && Below(s.entries[e].initial, s.registry.next) && Below(s.entries[e].interval, s.registry.next))
    && (forall c :: c in s.byConn ==> s.byConn[c] in s.entries)
    && (forall c, d :: c in s.byConn && d in s.byConn && s.byConn[c] == s.byConn[d] ==> c == d)
  }

  /** Every connection in simplefinTimers has a live timer. */
  ghost predicate HasTimer(s: Schedule, c: ConnectionId) {
    && c in s.byConn && s.byConn[c] in s.entries
    && var e := s.entries[s.byConn[c]];
    || (e.initial.Some? && Holds(s, c, e.initial.value))
    || (e.interval.Some? && Holds(s, c, e.interval.value))
  }

  ghost predicate ScheduleSound(s: Schedule) {
    && Consistent(s.registry) && EveryTimerHeld(s) && EntriesSound(s)
    && (!s.registry.stopped ==> forall c :: c in s.byConn ==> HasTimer(s, c))
  }

  /** A running rebuild will never overwrite an entry it did not clear. */
  ghost predicate RebuildSound(s: State) {
    match s.rebuild
    case NoRebuild => true
    case Querying => s.schedule.byConn == map[]
    case Arming(rest) => Distinct(Ids(rest)) && forall i :: 0 <= i < |rest| ==> rest[i].id !in s.schedule.byConn
  }

  ghost predicate SyncsSound(y: Syncs) {
    && (forall t :: t in y.tasks ==> t < y.nextTask && y.tasks[t].conn in y.guard)
    && (forall t, u :: t in y.tasks && u in y.tasks && y.tasks[t].conn == y.tasks[u].conn ==> t == u)
  }

  ghost predicate Invariant(s: State) {
    && ScheduleSound(s.schedule) && RebuildSound(s) && SyncsSound(s.syncs)
    && (s.shuttingDown <==> s.schedule.registry.stopped)
  }

  lemma ClearReleasesEverything(s: Schedule)
    requires ScheduleSound(s)
    ensures ScheduleSound(ClearSimpleFinTimers(s))
    ensures ClearSimpleFinTimers(s).registry.platform == map[]
  {
    forall h | h in s.registry.platform
      ensures h in HeldHandles(s)
    {
      var c := s.registry.platform[h].callback.conn;
      assert Holds(s, c, h);
      assert h in Slots(s.entries[s.byConn[c]]);
    }
  }

  lemma ArmingKeepsHolding(s: Schedule, c: Connection, hours: Option<int>, now: int, h: Handle)
    requires ScheduleSound(s) && c.id !in s.byConn && h in ArmConnection(s, c, hours, now).registry.platform
    ensures var s' := ArmConnection(s, c, hours, now); Holds(s', s'.registry.platform[h].callback.conn, h)
  {
    if h in s.registry.platform && h != s.registry.next {
      assert Holds(s, s.registry.platform[h].callback.conn, h);
    }
  }

  lemma ArmingKeepsTimers(s: Schedule, c: Connection, hours: Option<int>, now: int, d: ConnectionId)
    requires ScheduleSound(s) && c.id !in s.byConn && !s.registry.stopped
    requires d in ArmConnection(s, c, hours, now).byConn
    ensures HasTimer(ArmConnection(s, c, hours, now), d)
  {
    if d != c.id {
      assert HasTimer(s, d);
    }
  }

  lemma ArmingKeepsEntries(s: Schedule, c: Connection, hours: Option<int>, now: int)
    requires ScheduleSound(s) && c.id !in s.byConn
    ensures Consistent(ArmConnection(s, c, hours, now).registry) && EntriesSound(ArmConnection(s, c, hours, now))
  {
  }

  lemma ArmingKeepsSchedule(s: Schedule, c: Connection, hours: Option<int>, now: int)
    requires ScheduleSound(s) && c.id !in s.byConn
    ensures ScheduleSound(ArmConnection(s, c, hours, now))
    ensures ArmConnection(s, c, hours, now).registry.stopped == s.registry.stopped
    ensures ArmConnection(s, c, hours, now).byConn.Keys == s.byConn.Keys + {c.id}
  {
    var s' := ArmConnection(s, c, hours, now);
    ArmingKeepsEntries(s, c, hours, now);
    forall h | h in s'.registry.platform
      ensures Holds(s', s'.registry.platform[h].callback.conn, h)
    {
      ArmingKeepsHolding(s, c, hours, now, h);
    }
    forall d | d in s'.byConn && !s'.registry.stopped
      ensures HasTimer(s', d)
    {
      ArmingKeepsTimers(s, c, hours, now, d);
    }
  }

  lemma TickKeepsEntries(s: Schedule, h: Handle, now: int)
    requires ScheduleSound(s) && h in s.registry.platform
    ensures Consistent(Tick(s, h, now).registry) && EntriesSound(Tick(s, h, now))
  {
    assert Holds(s, s.registry.platform[h].callback.conn, h);
  }

  /** A tick moves the fired connection's timer and leaves every other connection's where it was. */
  lemma TickKeepsHolding(s: Schedule, h: Handle, now: int, c: ConnectionId, k: Handle)
    requires ScheduleSound(s) && h in s.registry.platform
    requires k in Tick(s, h, now).registry.platform && c == Tick(s, h, now).registry.platform[k].callback.conn
    ensures Holds(Tick(s, h, now), c, k)
  {
    assert Holds(s, s.registry.platform[h].callback.conn, h);
    if k in s.registry.platform {
      assert Holds(s, c, k);
    }
  }

  lemma TickKeepsTimers(s: Schedule, h: Handle, now: int, c: ConnectionId)
    requires ScheduleSound(s) && h in s.registry.platform && !s.registry.stopped && c in s.byConn
    ensures HasTimer(Tick(s, h, now), c)
  {
    assert Holds(s, s.registry.platform[h].callback.conn, h);
    assert HasTimer(s, c);
  }

  lemma TickKeepsSchedule(s: Schedule, h: Handle, now: int)
    requires ScheduleSound(s) && h in s.registry.platform
    ensures ScheduleSound(Tick(s, h, now)) && Tick(s, h, now).byConn == s.byConn
    ensures Tick(s, h, now).registry.stopped == s.registry.stopped
  {
    var s' := Tick(s, h, now);
    TickKeepsEntries(s, h, now);
    forall k | k in s'.registry.platform
      ensures Holds(s', s'.registry.platform[k].callback.conn, k)
    {
      TickKeepsHolding(s, h, now, s'.registry.platform[k].callback.conn, k);
    }
    forall c | c in s'.byConn && !s'.registry.stopped
      ensures HasTimer(s', c)
    {
      TickKeepsTimers(s, h, now, c);
    }
  }

  lemma ConsideringKeepsInvariant(s: State, p: Preferences, now: int)
    requires Invariant(s) && s.rebuild.Arming? && s.rebuild.rest != []
    ensures Invariant(ConsiderNext(s, p, now))
  {
    var rest := s.rebuild.rest;
    assert forall i :: 0 <= i < |rest| ==> Ids(rest)[i] == rest[i].id;
    assert Ids(rest[1..]) == Ids(rest)[1..];
    if p.OptedIn? {
      ArmingKeepsSchedule(s.schedule, rest[0], p.hours, now);
    }
  }

  lemma StartingKeepsSyncs(y: Syncs, conn: ConnectionId, phase: Phase)
    requires SyncsSound(y)
    ensures SyncsSound(StartSync(y, conn, phase))
  {
  }

  lemma FiringKeepsInvariant(s: State, h: Handle, now: int)
    requires Invariant(s) && Enabled(s, FireTimer(h, now))
    ensures Invariant(Step(s, FireTimer(h, now)))
  {
    TickKeepsSchedule(s.schedule, h, now);
    StartingKeepsSyncs(s.syncs, s.schedule.registry.platform[h].callback.conn, ScheduledSync);
  }

  /** The steps of a sync task after its head. */
  lemma TaskStepsKeepInvariant(s: State, e: Event)
    requires Invariant(s) && Enabled(s, e) && (e.JobImported? || e.JobImportFails? || e.SyncEnds?)
    ensures Invariant(Step(s, e))
  {
  }

  lemma ShutdownKeepsInvariant(s: State)
    requires Invariant(s)
    ensures Invariant(Step(s, Shutdown))
  {
  }

  lemma StepKeepsInvariant(s: State, e: Event)
    requires Invariant(s) && Enabled(s, e)
    ensures Invariant(Step(s, e))
  {
    match e
    case BeginRebuild(_) => ClearReleasesEverything(s.schedule);
    case NextConnection(p, now) => ConsideringKeepsInvariant(s, p, now);
    case FireTimer(h, now) => FiringKeepsInvariant(s, h, now);
    case JobStarts(conn) => StartingKeepsSyncs(s.syncs, conn, JobImporting);
    case Shutdown => ShutdownKeepsInvariant(s);
    case JobImported(_) => TaskStepsKeepInvariant(s, e);
    case JobImportFails(_) => TaskStepsKeepInvariant(s, e);
    case SyncEnds(_) => TaskStepsKeepInvariant(s, e);
    case _ =>
  }
}
