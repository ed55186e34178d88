/**
 * The worker's timer registry (src/lib/worker/timer-registry.ts).
 *
 * `platform` stands for the timers pending in the JavaScript runtime, each with the
 * callback it will run and the earliest instant at which it may run. The registry keeps
 * its own two handle sets beside it; the lemmas show the two never drift apart.
 */
module Timers {
  import opened Prelude

  type Handle = nat

  datatype Kind = Timeout | Interval

  datatype Timer<C> = Timer(kind: Kind, callback: C, due: int, period: int)

  datatype Registry<C> = Registry(
    platform: map<Handle, Timer<C>>,
    timeouts: set<Handle>,
    intervals: set<Handle>,
    stopped: bool,
    next: Handle)

  function Empty<C>(): Registry<C> {
    Registry(map[], {}, {}, false, 0)
  }

  /** The handle sets list exactly the timers the runtime holds, by kind; a latched registry holds none. */
  ghost predicate Consistent<C>(r: Registry<C>) {
    && (forall h :: h in r.timeouts <==> h in r.platform && r.platform[h].kind == Timeout)
    && (forall h :: h in r.intervals <==> h in r.platform && r.platform[h].kind == Interval)
    && (forall h :: h in r.platform ==> h < r.next)
    && (r.stopped ==> r.platform == map[])
  }

  /** setTimeout and setInterval: nothing is armed once the registry is latched. */
  function Arm<C>(r: Registry<C>, t: Timer<C>): (Registry<C>, Option<Handle>) {
    if r.stopped then (r, None)
    else
      (Registry(r.platform[r.next := t],
                if t.kind == Timeout then r.timeouts + {r.next} else r.timeouts,
                if t.kind == Interval then r.intervals + {r.next} else r.intervals,
                false,
                r.next + 1),
       Some(r.next))
  }

  function ClearHandles<C>(r: Registry<C>, hs: set<Handle>): Registry<C> {
    r.(platform := r.platform - hs, timeouts := r.timeouts - hs, intervals := r.intervals - hs)
  }

  function HandleSet(h: Option<Handle>): set<Handle> {
    match h
    case None => {}
    case Some(x) => {x}
  }

  function ClearAll<C>(r: Registry<C>): Registry<C> {
    Registry(map[], {}, {}, true, r.next)
  }

  /** The runtime runs a pending timer: a timeout is gone, an interval waits for its next turn. */
  function Fire<C>(r: Registry<C>, h: Handle, now: int): Registry<C>
    requires h in r.platform
  {
    if r.platform[h].kind == Timeout then
      r.(platform := r.platform - {h}, timeouts := r.timeouts - {h})
    else
      r.(platform := r.platform[h := r.platform[h].(due := now + r.platform[h].period)])
  }

  // ----- Whole histories of registry operations -----

  datatype Op<C> = ArmOp(timer: Timer<C>) | ClearOp(handle: Option<Handle>) | FireOp(fired: Handle, now: int) | ClearAllOp

  function Apply<C>(r: Registry<C>, op: Op<C>): Registry<C> {
    match op
    case ArmOp(t) => Arm(r, t).0
    case ClearOp(h) => ClearHandles(r, HandleSet(h))
    case FireOp(h, now) => if h in r.platform then Fire(r, h, now) else r
    case ClearAllOp => ClearAll(r)
  }

  function ApplyAll<C>(r: Registry<C>, ops: seq<Op<C>>): Registry<C>
    decreases |ops|
  {
    if ops == [] then r else ApplyAll(Apply(r, ops[0]), ops[1..])
  }

  lemma {:induction false} RegistryMatchesRuntime<C>(r: Registry<C>, ops: seq<Op<C>>)
    requires Consistent(r)
    ensures Consistent(ApplyAll(r, ops))
    decreases |ops|
  {
    if ops != [] {
      RegistryMatchesRuntime(Apply(r, ops[0]), ops[1..]);
    }
  }

  /** After clearAllTimers no sequence of calls arms anything again. */
  lemma {:induction false} LatchedRegistryStaysEmpty<C>(r: Registry<C>, ops: seq<Op<C>>)
    requires Consistent(r) && r.stopped
    ensures ApplyAll(r, ops).platform == map[] && ApplyAll(r, ops).stopped
    ensures forall t :: Arm(ApplyAll(r, ops), t).1 == None
    decreases |ops|
  {
    if ops != [] {
      LatchedRegistryStaysEmpty(Apply(r, ops[0]), ops[1..]);
    }
  }

  /** A handle that was issued and is no longer pending never becomes pending again, so it never fires. */
  lemma {:induction false} ClearedTimerNeverFires<C>(r: Registry<C>, h: Handle, ops: seq<Op<C>>)
    requires h < r.next && h !in r.platform
    ensures h !in ApplyAll(r, ops).platform
    decreases |ops|
  {
    if ops != [] {
      ClearedTimerNeverFires(Apply(r, ops[0]), h, ops[1..]);
    }
  }

  // ----- The class -----

  class TimerRegistry<C> {
    var platform: map<Handle, Timer<C>>
    var timeouts: set<Handle>
    var intervals: set<Handle>
    var stopped: bool
    var next: Handle

    ghost function View(): Registry<C>
      reads this
    {
      Registry(platform, timeouts, intervals, stopped, next)
    }

    constructor ()
      ensures View() == Empty()
      ensures Consistent(View())
    {
      platform, timeouts, intervals, stopped, next := map[], {}, {}, false, 0;
    }

    method SetTimeout(callback: C, due: int) returns (handle: Option<Handle>)
      modifies this
      ensures (View(), handle) == Arm(old(View()), Timer(Timeout, callback, due, 0))
    {
      if stopped {
        return None;
      }
      handle := Some(next);
      platform := platform[next := Timer(Timeout, callback, due, 0)];
      timeouts := timeouts + {next};
      next := next + 1;
    }

    method SetInterval(callback: C, due: int, period: int) returns (handle: Option<Handle>)
      modifies this
      ensures (View(), handle) == Arm(old(View()), Timer(Interval, callback, due, period))
    {
      if stopped {
        return None;
      }
      handle := Some(next);
      platform := platform[next := Timer(Interval, callback, due, period)];
      intervals := intervals + {next};
      next := next + 1;
    }

    method Clear(handle: Option<Handle>)
      requires Consistent(View())
      modifies this
      ensures View() == ClearHandles(old(View()), HandleSet(handle))
      ensures Consistent(View())
    {
      if handle == None {
        assert platform - {} == platform;
        return;
      }
      if handle.value in timeouts {
        timeouts := timeouts - {handle.value};
        platform := platform - {handle.value};
        return;
      }
      if handle.value in intervals {
        intervals := intervals - {handle.value};
        platform := platform - {handle.value};
        return;
      }
      assert handle.value !in platform;
      assert platform - {handle.value} == platform;
    }

    /** clearAllTimers: latch first, then walk both handle sets. */
    method ClearAllTimers()
      requires Consistent(View())
      modifies this
      ensures View() == ClearAll(old(View()))
      ensures Consistent(View())
    {
      stopped := true;
      var ts, ivs := timeouts, intervals;
      while ts != {}
        modifies this`platform
        invariant ts <= timeouts
        invariant forall h :: h in platform <==> h in ts || h in intervals
        decreases ts
      {
        var h :| h in ts;
        platform := platform - {h};
        ts := ts - {h};
      }
      while ivs != {}
        modifies this`platform
        invariant ivs <= intervals
        invariant forall h :: h in platform <==> h in ivs
        decreases ivs
      {
        var h :| h in ivs;
        platform := platform - {h};
        ivs := ivs - {h};
      }
      assert platform == map[];
      timeouts, intervals := {}, {};
    }

    /** The runtime's half of a firing: the bookkeeping that happens before the callback runs. */
    method FireTimer(h: Handle, now: int) returns (callback: C)
      requires h in platform && Consistent(View())
      modifies this
      ensures View() == Fire(old(View()), h, now)
      ensures callback == old(platform[h].callback)
      ensures Consistent(View())
    {
      callback := platform[h].callback;
      if platform[h].kind == Timeout {
        platform := platform - {h};
        timeouts := timeouts - {h};
      } else {
        platform := platform[h := platform[h].(due := now + platform[h].period)];
      }
    }
  }
}
