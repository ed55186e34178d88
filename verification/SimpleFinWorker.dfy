/**
 * The SimpleFin half of worker.ts as it is written: module-level maps and sets changed in
 * place. Each method is the code between two awaits and is proved to be one `Step`.
 */
module SimpleFinWorkers {
  import opened Prelude
  import opened Timers
  import opened SimpleFin

  class SimpleFinWorker {
    const timers: TimerRegistry<Callback>
    var entries: map<EntryId, Entry>
    var nextEntry: EntryId
    var simplefinTimers: map<ConnectionId, EntryId>
    var queued: nat
    var rebuild: Rebuild
    var simplefinSyncInFlight: set<ConnectionId>
    var tasks: map<TaskId, Task>
    var nextTask: TaskId
    var shuttingDown: bool
    ghost var clock: int

    ghost function View(): State
      reads this, timers
    {
      State(Schedule(timers.View(), entries, nextEntry, simplefinTimers), queued, rebuild,
            Syncs(simplefinSyncInFlight, tasks, nextTask), shuttingDown, clock)
    }

    ghost predicate Valid()
      reads this, timers
    {
      Invariant(View())
    }

    constructor ()
      ensures Valid() && View() == Init() && fresh(timers)
    {
      timers := new TimerRegistry();
      entries, nextEntry, simplefinTimers := map[], 0, map[];
      queued, rebuild := 0, NoRebuild;
      simplefinSyncInFlight, tasks, nextTask := {}, map[], 0;
      shuttingDown, clock := false, 0;
    }

    method RecoverSimpleFinSchedules()
      requires Valid()
      modifies this`queued
      ensures Valid() && View() == Step(old(View()), RequestRebuild)
    {
      queued := queued + 1;
      StepKeepsInvariant(old(View()), RequestRebuild);
    }

    method ClearTimers()
      requires Valid()
      modifies this`simplefinTimers, timers
      ensures View() == old(View()).(schedule := ClearSimpleFinTimers(old(View()).schedule))
    {
      var conns: set<ConnectionId> := simplefinTimers.Keys;
      ghost var done: set<Handle> := {};
      assert ClearHandles(timers.View(), done) == timers.View();
      while conns != {}
        modifies timers
        invariant conns <= simplefinTimers.Keys
        invariant Consistent(timers.View())
        invariant timers.View() == ClearHandles(old(timers.View()), done)
        invariant done == set c, h | c in simplefinTimers.Keys - conns && h in Slots(entries[simplefinTimers[c]]) :: h
        decreases conns
      {
        ghost var witnessed := Member(conns);
        var c :| c in conns;
        var entry := entries[simplefinTimers[c]];
        timers.Clear(entry.initial);
        timers.Clear(entry.interval);
        conns := conns - {c};
        ClearTwice(old(timers.View()), done, entry);
        done := done + Slots(entry);
      }
      assert done == HeldHandles(old(View()).schedule);
      simplefinTimers := map[];
    }

    method BeginRebuildNow(ghost now: int)
      requires Valid() && Enabled(View(), BeginRebuild(now))
      modifies this`queued, this`rebuild, this`simplefinTimers, this`clock, timers
      ensures Valid() && View() == Step(old(View()), BeginRebuild(now))
    {
      StepKeepsInvariant(View(), BeginRebuild(now));
      ClearTimers();
      clock := now;
      queued := queued - 1;
      rebuild := Querying;
    }

    method ConnectionsLoaded(connections: seq<Connection>)
      requires Valid() && Enabled(View(), QueryReturned(connections))
      modifies this`rebuild
      ensures Valid() && View() == Step(old(View()), QueryReturned(connections))
    {
      StepKeepsInvariant(View(), QueryReturned(connections));
      rebuild := Arming(connections);
    }

    /** The loop body for one connection, after both preference lookups have returned. */
    method ScheduleConnection(preferences: Preferences, now: int)
      requires Valid() && Enabled(View(), NextConnection(preferences, now))
      modifies this`rebuild, this`entries, this`nextEntry, this`simplefinTimers, this`clock, timers
      ensures Valid() && View() == Step(old(View()), NextConnection(preferences, now))
    {
      StepKeepsInvariant(View(), NextConnection(preferences, now));
      ArmNext(preferences, now);
    }

    method ArmNext(preferences: Preferences, now: int)
      requires rebuild.Arming? && rebuild.rest != []
      modifies this`rebuild, this`entries, this`nextEntry, this`simplefinTimers, this`clock, timers
      ensures View() == ConsiderNext(old(View()), preferences, now)
    {
      var conn := rebuild.rest[0];
      rebuild := Arming(rebuild.rest[1..]);
      clock := now;
      if preferences.OptedOut? {
        return;
      }
      var intervalMs := IntervalHours(preferences.hours) * HOUR_MS;
      var initialDelay := InitialDelay(LastSync(conn), intervalMs, now);
      var entry := nextEntry;
      nextEntry := nextEntry + 1;
      var initial := timers.SetTimeout(FirstTick(entry, conn.id, intervalMs), now + initialDelay);
      entries := entries[entry := Entry(initial, None)];
      simplefinTimers := simplefinTimers[conn.id := entry];
    }

    method FinishRebuild()
      requires Valid() && Enabled(View(), RebuildEnds)
      modifies this`rebuild
      ensures Valid() && View() == Step(old(View()), RebuildEnds)
    {
      StepKeepsInvariant(View(), RebuildEnds);
      rebuild := NoRebuild;
    }

    /** The synchronous head of a sync: skip when one is running, otherwise record it and start a task. */
    method StartSyncOf(conn: ConnectionId, phase: Phase)
      modifies this`simplefinSyncInFlight, this`tasks, this`nextTask
      ensures Syncs(simplefinSyncInFlight, tasks, nextTask)
           == StartSync(old(Syncs(simplefinSyncInFlight, tasks, nextTask)), conn, phase)
    {
      if conn in simplefinSyncInFlight {
        return;
      }
      simplefinSyncInFlight := simplefinSyncInFlight + {conn};
      tasks := tasks[nextTask := Task(conn, phase)];
      nextTask := nextTask + 1;
    }

    method RunTimer(h: Handle, now: int)
      requires Valid() && Enabled(View(), FireTimer(h, now))
      modifies this`entries, this`simplefinSyncInFlight, this`tasks, this`nextTask, this`clock, timers
      ensures Valid() && View() == Step(old(View()), FireTimer(h, now))
    {
      StepKeepsInvariant(View(), FireTimer(h, now));
      if timers.platform[h].callback.FirstTick? {
        FiringEntryExists(View().schedule, h);
      }
      RunCallback(h, now);
    }

    method RunCallback(h: Handle, now: int)
      requires Consistent(timers.View()) && h in timers.platform
      requires timers.platform[h].callback.FirstTick? ==>
                 timers.platform[h].callback.entry in entries && entries[timers.platform[h].callback.entry].interval == None
      modifies this`entries, this`simplefinSyncInFlight, this`tasks, this`nextTask, this`clock, timers
      ensures View() == old(View()).(
                schedule := Tick(old(View()).schedule, h, now),
                syncs := StartSync(old(View()).syncs, old(timers.platform[h].callback.conn), ScheduledSync),
                clock := now)
    {
      clock := now;
      var callback := timers.FireTimer(h, now);
      match callback
      case FirstTick(entry, conn, intervalMs) => RunFirstTick(entry, conn, intervalMs, now);
      case RepeatTick(conn) => StartSyncOf(conn, ScheduledSync);
    }

    /** The body of the first tick's closure. */
    method RunFirstTick(entry: EntryId, conn: ConnectionId, intervalMs: int, now: int)
      requires entry in entries && entries[entry].interval == None
      modifies this`entries, this`simplefinSyncInFlight, this`tasks, this`nextTask, timers
      ensures var (registry, handle) := Arm(old(timers.View()), Timer(Interval, RepeatTick(conn), now + intervalMs, intervalMs));
        timers.View() == registry && entries == old(entries)[entry := Entry(None, handle)]
      ensures Syncs(simplefinSyncInFlight, tasks, nextTask)
           == StartSync(old(Syncs(simplefinSyncInFlight, tasks, nextTask)), conn, ScheduledSync)
    {
      entries := entries[entry := entries[entry].(initial := None)];
      StartSyncOf(conn, ScheduledSync);
      var interval := timers.SetInterval(RepeatTick(conn), now + intervalMs, intervalMs);
      entries := entries[entry := entries[entry].(interval := interval)];
    }

    method StartSyncJob(conn: ConnectionId)
      requires Valid()
      modifies this`simplefinSyncInFlight, this`tasks, this`nextTask
      ensures Valid() && View() == Step(old(View()), JobStarts(conn))
    {
      StepKeepsInvariant(View(), JobStarts(conn));
      StartSyncOf(conn, JobImporting);
    }

    /** The dynamic import of the sync service settles; a rejection leaves the job before its try block. */
    method ImportSettles(task: TaskId, loaded: bool)
      requires Valid() && Enabled(View(), JobImported(task))
      modifies this`tasks
      ensures Valid() && View() == Step(old(View()), if loaded then JobImported(task) else JobImportFails(task))
    {
      StepKeepsInvariant(View(), if loaded then JobImported(task) else JobImportFails(task));
      if loaded {
        tasks := tasks[task := tasks[task].(phase := JobSyncing)];
      } else {
        tasks := tasks - {task};
      }
    }

    method FinishSync(task: TaskId)
      requires Valid() && Enabled(View(), SyncEnds(task))
      modifies this`tasks, this`simplefinSyncInFlight
      ensures Valid() && View() == Step(old(View()), SyncEnds(task))
    {
      StepKeepsInvariant(View(), SyncEnds(task));
      simplefinSyncInFlight := simplefinSyncInFlight - {tasks[task].conn};
      tasks := tasks - {task};
    }

    method ShutDown()
      requires Valid()
      modifies this`shuttingDown, this`simplefinTimers, timers
      ensures Valid() && View() == Step(old(View()), Shutdown)
    {
      StepKeepsInvariant(View(), Shutdown);
      if shuttingDown {
        return;
      }
      shuttingDown := true;
      timers.ClearAllTimers();
      simplefinTimers := map[];
    }
  }

  lemma FiringEntryExists(s: Schedule, h: Handle)
    requires ScheduleSound(s) && h in s.registry.platform && s.registry.platform[h].callback.FirstTick?
    ensures s.registry.platform[h].callback.entry in s.entries
    ensures s.entries[s.registry.platform[h].callback.entry].interval == None
  {
    assert Holds(s, s.registry.platform[h].callback.conn, h);
  }

  lemma ClearTwice(r: Registry<Callback>, done: set<Handle>, entry: Entry)
    ensures ClearHandles(ClearHandles(ClearHandles(r, done), HandleSet(entry.initial)), HandleSet(entry.interval))
         == ClearHandles(r, done + Slots(entry))
  {
    var a := ClearHandles(ClearHandles(ClearHandles(r, done), HandleSet(entry.initial)), HandleSet(entry.interval));
    var b := ClearHandles(r, done + Slots(entry));
    assert a.platform == b.platform;
    assert a.timeouts == b.timeouts;
    assert a.intervals == b.intervals;
  }
}
