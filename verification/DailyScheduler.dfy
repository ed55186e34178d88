/** The daily half of worker.ts as it is written; each method is proved to be one `Step` of DailyChains. */
module DailySchedulers {
  import opened Prelude
  import opened TimesOfDay
  import opened Timers
  import opened DailyChains

  class DailyScheduler {
    const timers: TimerRegistry<Chain>
    var held: map<ChainId, Handle>
    var running: map<TaskId, Chain>
    var nextTask: TaskId
    var shuttingDown: bool

    ghost function View(): State
      reads this, timers
    {
      State(timers.View(), held, running, nextTask, shuttingDown)
    }

    ghost predicate Valid()
      reads this, timers
    {
      TimersSound(View())
    }

    constructor ()
      ensures Valid() && View() == Init() && fresh(timers)
    {
      timers := new TimerRegistry();
      held, running, nextTask, shuttingDown := map[], map[], 0, false;
    }

    /** `scheduleNext`: the registry refuses once it is latched, and then nothing is recorded. */
    method ScheduleNextRun(c: Chain, now: int)
      modifies this`held, timers
      ensures View() == ScheduleNext(old(View()), c, now)
    {
      var timer := timers.SetTimeout(c, now + MsUntil(c.offset, now));
      if timer.Some? {
        held := held[c.id := timer.value];
      }
    }

    method ArmNextDay(c: Chain, now: int)
      requires Valid()
      modifies this`held, timers
      ensures Valid() && View() == ScheduleNext(old(View()), c, now)
    {
      RearmStaysSound(View(), c, now);
      ScheduleNextRun(c, now);
    }

    method ClearExisting(id: ChainId)
      requires Valid()
      modifies timers
      ensures Valid() && View() == ClearHeld(old(View()), id)
    {
      ClearStaysSound(View(), id);
      if id in held {
        timers.Clear(Some(held[id]));
      }
    }

    method ClearBookSchedule(bookGuid: string)
      requires Valid()
      modifies this`held, timers
      ensures Valid() && View() == Step(old(View()), ClearBook(bookGuid))
    {
      ClearExisting(Book(bookGuid));
      held := held - {Book(bookGuid)};
    }

    method SetSchedule(bookGuid: string, requestedTime: string, now: int)
      requires Valid()
      modifies this`held, timers
      ensures Valid() && View() == Step(old(View()), SetBook(bookGuid, ParseTimeOfDay(requestedTime), now))
    {
      var time := ParseTimeOfDay(requestedTime);
      if time == None {
        return;
      }
      ClearBookSchedule(bookGuid);
      ArmNextDay(Chain(Book(bookGuid), time.value), now);
    }

    method SetScheduleGeneric(name: string, timeUtc: string, now: int)
      requires Valid()
      modifies this`held, timers
      ensures Valid() && View() == Step(old(View()), SetNamed(name, ParseTimeOfDay(timeUtc), now))
    {
      ClearExisting(Named(name));
      var time := ParseTimeOfDay(timeUtc);
      if time == None {
        return;
      }
      ArmNextDay(Chain(Named(name), time.value), now);
    }

    method RunTimer(h: Handle, now: int)
      requires Valid() && Enabled(View(), FireTimer(h, now))
      modifies this`running, this`nextTask, timers
      ensures Valid() && View() == Step(old(View()), FireTimer(h, now))
    {
      var chain := timers.FireTimer(h, now);
      running := running[nextTask := chain];
      nextTask := nextTask + 1;
    }

    /** The callback's task is over: `finally` for a named job, the line after the await for a book. */
    method FinishCallback(task: TaskId, rejected: bool, now: int)
      requires Valid() && task in running
      modifies this`held, this`running, timers
      ensures Valid() && View() == Settle(old(View()), task, rejected, now)
    {
      var chain := running[task];
      running := running - {task};
      if rejected && chain.id.Book? {
        return;
      }
      ArmNextDay(chain, now);
    }

    method ShutDown()
      requires Valid()
      modifies this`shuttingDown, this`held, timers
      ensures Valid() && View() == Step(old(View()), Shutdown)
    {
      if shuttingDown {
        return;
      }
      shuttingDown := true;
      timers.ClearAllTimers();
      held := map[];
    }
  }
}
