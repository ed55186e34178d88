/** What holds over whole runs of the SimpleFin machine, whatever the interleaving. */
module SimpleFinTheorems {
  import opened Prelude
  import opened Timers
  import opened SimpleFin

  ghost predicate Legal(es: seq<Event>)
    decreases |es|, 0
  {
    es == [] || (Legal(es[..|es| - 1]) && Enabled(Run(es[..|es| - 1]), es[|es| - 1]))
  }

  ghost function Run(es: seq<Event>): State
    requires Legal(es)
    decreases |es|, 1
  {
    if es == [] then Init() else Step(Run(es[..|es| - 1]), es[|es| - 1])
  }

  lemma {:induction false} RunKeepsInvariant(es: seq<Event>)
    requires Legal(es)
    ensures Invariant(Run(es))
    decreases |es|
  {
    if es != [] {
      RunKeepsInvariant(es[..|es| - 1]);
      StepKeepsInvariant(Run(es[..|es| - 1]), es[|es| - 1]);
    }
  }

  // ----- Timers -----

  /**
   * Every live SimpleFin timer is held by its connection's entry, no connection has two,
   * every scheduled connection has one until shutdown, and none is left after it.
   */
  lemma OneHeldTimerPerConnection(es: seq<Event>)
    requires Legal(es)
    ensures var s := Run(es).schedule;
      && (forall h :: h in s.registry.platform ==> Holds(s, s.registry.platform[h].callback.conn, h))
      && (forall h, k | h in s.registry.platform && k in s.registry.platform ::
            s.registry.platform[h].callback.conn == s.registry.platform[k].callback.conn ==> h == k)
      && (!Run(es).shuttingDown ==>
            forall c :: c in s.byConn ==> exists h :: h in s.registry.platform && s.registry.platform[h].callback.conn == c)
      && (Run(es).shuttingDown ==> s.registry.platform == map[])
  {
    RunKeepsInvariant(es);
    var s := Run(es).schedule;
    forall h, k | h in s.registry.platform && k in s.registry.platform
        && s.registry.platform[h].callback.conn == s.registry.platform[k].callback.conn
      ensures h == k
    {
      assert Holds(s, s.registry.platform[h].callback.conn, h);
      assert Holds(s, s.registry.platform[k].callback.conn, k);
    }
    forall c | c in s.byConn && !Run(es).shuttingDown
      ensures exists h :: h in s.registry.platform && s.registry.platform[h].callback.conn == c
    {
      assert HasTimer(s, c);
    }
  }

  /**
   * Why rebuilds are chained. If a second rebuild ran between the first one's clearing and
   * its arming, both would arm `c`: the later entry replaces the earlier one in the map and
   * the earlier timer stays live with nothing holding it, whatever the cadence and clock.
   */
  lemma OverlappingRebuildsLeakATimer(c: Connection, hours: Option<int>, t1: int, t2: int)
    ensures var cleared := ClearSimpleFinTimers(Init().schedule);
      var second := ArmConnection(ClearSimpleFinTimers(cleared), c, hours, t1);
      var first := ArmConnection(second, c, hours, t2);
      && |first.registry.platform| == 2
      && exists h :: h in first.registry.platform && !Holds(first, c.id, h) && first.registry.platform[h].callback.conn == c.id
  {
    var cleared := ClearSimpleFinTimers(Init().schedule);
    var second := ArmConnection(ClearSimpleFinTimers(cleared), c, hours, t1);
    var first := ArmConnection(second, c, hours, t2);
    assert 0 in first.registry.platform && !Holds(first, c.id, 0);
    assert first.registry.platform.Keys == {0, 1};
  }

  // ----- What a rebuild achieves -----

  datatype Verdict = Verdict(id: ConnectionId, optedIn: bool)

  ghost function VerdictsAfter(s: State, e: Event, vs: seq<Verdict>): seq<Verdict>
    requires Enabled(s, e)
  {
    match e
    case BeginRebuild(_) => []
    case NextConnection(p, _) => vs + [Verdict(s.rebuild.rest[0].id, p.OptedIn?)]
    case _ => vs
  }

  function LoadedAfter(e: Event, loaded: Option<seq<Connection>>): Option<seq<Connection>> {
    match e
    case BeginRebuild(_) => None
    case QueryReturned(cs) => Some(cs)
    case _ => loaded
  }

  /** The connections considered since the latest rebuild began, in order, and whether each was scheduled. */
  ghost function Considered(es: seq<Event>): seq<Verdict>
    requires Legal(es)
    decreases |es|
  {
    if es == [] then []
    else VerdictsAfter(Run(es[..|es| - 1]), es[|es| - 1], Considered(es[..|es| - 1]))
  }

  /** What the query of the latest rebuild returned, if it has. */
  ghost function Loaded(es: seq<Event>): Option<seq<Connection>>
    decreases |es|
  {
    if es == [] then None else LoadedAfter(es[|es| - 1], Loaded(es[..|es| - 1]))
  }

  function VerdictIds(vs: seq<Verdict>): seq<ConnectionId> {
    seq(|vs|, i requires 0 <= i < |vs| => vs[i].id)
  }

  function OptedInIds(vs: seq<Verdict>): set<ConnectionId> {
    set v | v in vs && v.optedIn :: v.id
  }

  /** The considered connections and those still to come are the query's list. */
  ghost predicate Accounted(r: Rebuild, vs: seq<Verdict>, loaded: Option<seq<Connection>>) {
    match r
    case NoRebuild => if loaded.Some? then VerdictIds(vs) <= Ids(loaded.value) else vs == []
    case Querying => loaded == None && vs == []
    case Arming(rest) => loaded.Some? && Ids(loaded.value) == VerdictIds(vs) + Ids(rest)
  }

  lemma OptedInSnoc(vs: seq<Verdict>, v: Verdict)
    ensures OptedInIds(vs + [v]) == if v.optedIn then OptedInIds(vs) + {v.id} else OptedInIds(vs)
    ensures VerdictIds(vs + [v]) == VerdictIds(vs) + [v.id]
  {
    assert forall x :: x in vs + [v] <==> x in vs || x == v;
  }

  ghost predicate HoldsTheOptedIn(s: State, vs: seq<Verdict>, loaded: Option<seq<Connection>>) {
    s.schedule.byConn.Keys == OptedInIds(vs) && Accounted(s.rebuild, vs, loaded)
  }

  lemma ConsideringKeepsCount(s: State, p: Preferences, now: int, vs: seq<Verdict>, loaded: Option<seq<Connection>>)
    requires Invariant(s) && Enabled(s, NextConnection(p, now)) && HoldsTheOptedIn(s, vs, loaded)
    ensures HoldsTheOptedIn(ConsiderNext(s, p, now), vs + [Verdict(s.rebuild.rest[0].id, p.OptedIn?)], loaded)
  {
    var rest := s.rebuild.rest;
    OptedInSnoc(vs, Verdict(rest[0].id, p.OptedIn?));
    assert Ids(rest) == [rest[0].id] + Ids(rest[1..]);
  }

  lemma StepKeepsCount(s: State, e: Event, vs: seq<Verdict>, loaded: Option<seq<Connection>>)
    requires Invariant(s) && Enabled(s, e) && e != Shutdown && HoldsTheOptedIn(s, vs, loaded)
    ensures HoldsTheOptedIn(Step(s, e), VerdictsAfter(s, e, vs), LoadedAfter(e, loaded))
  {
    match e
    case NextConnection(p, now) => ConsideringKeepsCount(s, p, now, vs, loaded);
    case FireTimer(h, now) => TickKeepsSchedule(s.schedule, h, now);
    case _ =>
  }

  /**
   * Before shutdown `simplefinTimers` holds exactly the opted-in connections that the latest rebuild
   * considered: a front part of its query's list in order, and all of the list once the rebuild has
   * worked through it, however early it ended otherwise.
   */
  lemma {:induction false} RebuildHoldsTheOptedIn(es: seq<Event>)
    requires Legal(es) && Shutdown !in es
    ensures HoldsTheOptedIn(Run(es), Considered(es), Loaded(es))
    decreases |es|
  {
    if es != [] {
      var before, e := es[..|es| - 1], es[|es| - 1];
      assert es == before + [e];
      RebuildHoldsTheOptedIn(before);
      RunKeepsInvariant(before);
      StepKeepsCount(Run(before), e, Considered(before), Loaded(before));
    }
  }

  // ----- What a request and a firing bring about -----

  function Requests(es: seq<Event>): nat {
    if es == [] then 0 else Requests(es[..|es| - 1]) + if es[|es| - 1].RequestRebuild? then 1 else 0
  }

  function Begins(es: seq<Event>): nat {
    if es == [] then 0 else Begins(es[..|es| - 1]) + if es[|es| - 1].BeginRebuild? then 1 else 0
  }

  /** No request is lost or run twice: what was requested has begun or is waiting its turn. */
  lemma {:induction false} EveryRequestIsQueued(es: seq<Event>)
    requires Legal(es)
    ensures Requests(es) == Begins(es) + Run(es).queued
    decreases |es|
  {
    if es != [] {
      EveryRequestIsQueued(es[..|es| - 1]);
    }
  }

  /** A sync of `c` begins here if none is running, and otherwise nothing happens. */
  ghost predicate StartsOrSkips(y: Syncs, y': Syncs, c: ConnectionId, phase: Phase) {
    if c in y.guard then y' == y
    else
      && y'.guard == y.guard + {c}
      && exists t: TaskId :: t !in y.tasks && y'.tasks == y.tasks[t := Task(c, phase)]
  }

  lemma SyncStarts(y: Syncs, c: ConnectionId, phase: Phase)
    requires SyncsSound(y)
    ensures StartsOrSkips(y, StartSync(y, c, phase), c, phase)
  {
    if c !in y.guard {
      assert y.nextTask !in y.tasks;
    }
  }

  /** A queued job starts its sync exactly when none of its connection is running. */
  lemma JobStartsASync(s: State, c: ConnectionId)
    requires Invariant(s)
    ensures StartsOrSkips(s.syncs, Step(s, JobStarts(c)).syncs, c, JobImporting)
  {
    SyncStarts(s.syncs, c, JobImporting);
  }

  /**
   * A timer that fires starts its connection's sync, or skips it if one is running, and is due again
   * one interval later: a first tick hands over to a repeating timer, a repeating one goes on. No
   * other timer changes.
   */
  lemma FiringStartsASyncAndGoesOn(s: State, h: Handle, now: int)
    requires Invariant(s) && !s.shuttingDown && Enabled(s, FireTimer(h, now))
    ensures var t, s' := s.schedule.registry.platform[h], Step(s, FireTimer(h, now));
      var before, after := s.schedule.registry.platform, s'.schedule.registry.platform;
      && StartsOrSkips(s.syncs, s'.syncs, t.callback.conn, ScheduledSync)
      && (forall g | g in before && g != h :: g in after && after[g] == before[g])
      && (t.callback.FirstTick? ==>
            && h !in after
            && exists g :: g in after && g !in before
                 && after[g] == Timer(Interval, RepeatTick(t.callback.conn), now + t.callback.intervalMs, t.callback.intervalMs))
      && (t.callback.RepeatTick? ==> h in after && after[h] == t.(due := now + t.period))
  {
    var t := s.schedule.registry.platform[h];
    SyncStarts(s.syncs, t.callback.conn, ScheduledSync);
    assert Holds(s.schedule, t.callback.conn, h);
    if t.callback.FirstTick? {
      assert s.schedule.registry.next in Step(s, FireTimer(h, now)).schedule.registry.platform;
    }
  }

  // ----- The in-flight guard -----

  ghost function Syncing(y: Syncs): set<ConnectionId> {
    set t | t in y.tasks :: y.tasks[t].conn
  }

  /** Connections whose queued job lost its dynamic import, which is awaited before the try block. */
  ghost function LostImports(es: seq<Event>): set<ConnectionId>
    requires Legal(es)
    decreases |es|
  {
    if es == [] then {}
    else
      var before := es[..|es| - 1];
      match es[|es| - 1]
      case JobImportFails(t) => LostImports(before) + {Run(before).syncs.tasks[t].conn}
      case _ => LostImports(before)
  }

  /** The guard is exactly the running connections plus those that lost an import, and never both. */
  lemma {:induction false} GuardAccountedFor(es: seq<Event>)
    requires Legal(es)
    ensures Run(es).syncs.guard == Syncing(Run(es).syncs) + LostImports(es)
    ensures Syncing(Run(es).syncs) !! LostImports(es)
    decreases |es|
  {
    RunKeepsInvariant(es);
    if es != [] {
      var before := es[..|es| - 1];
      RunKeepsInvariant(before);
      GuardAccountedFor(before);
      GuardStep(Run(before), es[|es| - 1], LostImports(before), LostImports(es));
    }
  }

  lemma GuardStep(s: State, e: Event, lost: set<ConnectionId>, lost': set<ConnectionId>)
    requires Invariant(s) && Enabled(s, e)
    requires s.syncs.guard == Syncing(s.syncs) + lost && Syncing(s.syncs) !! lost
    requires lost' == if e.JobImportFails? then lost + {s.syncs.tasks[e.task].conn} else lost
    ensures Step(s, e).syncs.guard == Syncing(Step(s, e).syncs) + lost'
    ensures Syncing(Step(s, e).syncs) !! lost'
  {
    var y, y' := s.syncs, Step(s, e).syncs;
    match e
    case FireTimer(h, now) => StartSyncing(y, s.schedule.registry.platform[h].callback.conn, ScheduledSync);
    case JobStarts(conn) => StartSyncing(y, conn, JobImporting);
    case JobImported(t) => SameSyncing(y, t);
    case JobImportFails(t) => StopSyncing(y, t);
    case SyncEnds(t) => StopSyncing(y, t);
    case _ =>
  }

  lemma SameSyncing(y: Syncs, t: TaskId)
    requires t in y.tasks
    ensures Syncing(y.(tasks := y.tasks[t := y.tasks[t].(phase := JobSyncing)])) == Syncing(y)
  {
    var y' := y.(tasks := y.tasks[t := y.tasks[t].(phase := JobSyncing)]);
    forall c | c in Syncing(y)
      ensures c in Syncing(y')
    {
      var u :| u in y.tasks && y.tasks[u].conn == c;
      assert u in y'.tasks && y'.tasks[u].conn == c;
    }
  }

  lemma StartSyncing(y: Syncs, conn: ConnectionId, phase: Phase)
    requires SyncsSound(y)
    ensures Syncing(StartSync(y, conn, phase)) == if conn in y.guard then Syncing(y) else Syncing(y) + {conn}
  {
    var y' := StartSync(y, conn, phase);
    if conn !in y.guard {
      assert y'.tasks[y.nextTask].conn == conn;
      forall c | c in Syncing(y)
        ensures c in Syncing(y')
      {
        var u :| u in y.tasks && y.tasks[u].conn == c;
        assert u in y'.tasks && y'.tasks[u].conn == c;
      }
    }
  }

  lemma StopSyncing(y: Syncs, t: TaskId)
    requires SyncsSound(y) && t in y.tasks
    ensures Syncing(y.(tasks := y.tasks - {t})) == Syncing(y) - {y.tasks[t].conn}
  {
    var y' := y.(tasks := y.tasks - {t});
    forall c | c in Syncing(y) && c != y.tasks[t].conn
      ensures c in Syncing(y')
    {
      var u :| u in y.tasks && y.tasks[u].conn == c;
      assert u in y'.tasks && y'.tasks[u].conn == c;
    }
  }

  /** Timer ticks and queued jobs together never run two syncs of one connection, and each is recorded. */
  lemma {:induction false} OneSyncAtATime(es: seq<Event>)
    requires Legal(es)
    ensures var y := Run(es).syncs;
      && (forall t, u :: t in y.tasks && u in y.tasks && t != u ==> y.tasks[t].conn != y.tasks[u].conn)
      && Syncing(y) <= y.guard
  {
    RunKeepsInvariant(es);
  }

  lemma {:induction false} LostImportsAreEvents(es: seq<Event>)
    requires Legal(es)
    ensures LostImports(es) == {} <==> forall e :: e in es ==> !e.JobImportFails?
    decreases |es|
  {
    if es != [] {
      var before := es[..|es| - 1];
      assert es == before + [es[|es| - 1]];
      LostImportsAreEvents(before);
    }
  }

  /** The guard is always released after a run exactly when no queued job ever lost its import. */
  lemma GuardReleasedIffNoImportLost(es: seq<Event>)
    requires Legal(es)
    ensures Run(es).syncs.guard == Syncing(Run(es).syncs) <==> forall e :: e in es ==> !e.JobImportFails?
  {
    GuardAccountedFor(es);
    LostImportsAreEvents(es);
  }

  /** A lost import shuts its connection out of every later sync, by timer or by job. */
  lemma {:induction false} LostConnectionNeverSyncsAgain(es: seq<Event>, more: seq<Event>, c: ConnectionId)
    requires Legal(es) && Legal(es + more) && c in LostImports(es)
    ensures c in LostImports(es + more)
    ensures forall t :: t in Run(es + more).syncs.tasks ==> Run(es + more).syncs.tasks[t].conn != c
    decreases |more|
  {
    GuardAccountedFor(es + more);
    if more == [] {
      assert es + more == es;
    } else {
      var before := more[..|more| - 1];
      assert (es + more)[..|es + more| - 1] == es + before;
      LostConnectionNeverSyncsAgain(es, before, c);
    }
    forall t | t in Run(es + more).syncs.tasks
      ensures Run(es + more).syncs.tasks[t].conn != c
    {
      assert Run(es + more).syncs.tasks[t].conn in Syncing(Run(es + more).syncs);
    }
  }
}
