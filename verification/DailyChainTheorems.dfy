/** Whole runs of the daily chains: exactly when each wanted chain stays alive as a single chain. */
module DailyChainTheorems {
  import opened Prelude
  import opened TimesOfDay
  import opened Timers
  import opened DailyChains

  predicate Legal(es: seq<Event>)
    decreases |es|, 0
  {
    es == [] || (Legal(es[..|es| - 1]) && Enabled(Run(es[..|es| - 1]), es[|es| - 1]))
  }

  function Run(es: seq<Event>): State
    requires Legal(es)
    decreases |es|, 1
  {
    if es == [] then Init() else Step(Run(es[..|es| - 1]), es[|es| - 1])
  }

  function Wanted(es: seq<Event>): set<ChainId>
    decreases |es|
  {
    if es == [] then {} else WantedAfter(Wanted(es[..|es| - 1]), es[|es| - 1])
  }

  ghost predicate HealthyThroughout(es: seq<Event>)
    requires Legal(es)
    decreases |es|
  {
    Healthy(Run(es), Wanted(es)) && (es != [] ==> HealthyThroughout(es[..|es| - 1]))
  }

  /** No set or clear ever arrives while the callback of its own chain is running. */
  ghost predicate CommandsAvoidCallbacks(es: seq<Event>)
    requires Legal(es)
    decreases |es|
  {
    es != [] ==>
      && CommandsAvoidCallbacks(es[..|es| - 1])
      && !LandsDuringCallback(Run(es[..|es| - 1]), es[|es| - 1])
  }

  lemma Extend(es: seq<Event>, e: Event)
    requires Legal(es) && Enabled(Run(es), e)
    ensures Legal(es + [e]) && Run(es + [e]) == Step(Run(es), e) && Wanted(es + [e]) == WantedAfter(Wanted(es), e)
  {
    assert (es + [e])[..|es|] == es;
  }

  lemma {:induction false} RunIsSound(es: seq<Event>)
    requires Legal(es)
    ensures TimersSound(Run(es))
    ensures Run(es).shuttingDown <==> Shutdown in es
    decreases |es|
  {
    if es != [] {
      var before := es[..|es| - 1];
      assert es == before + [es[|es| - 1]];
      RunIsSound(before);
      TimersStaySound(Run(before), es[|es| - 1]);
    }
  }

  lemma CommandStaysHealthy(s: State, id: ChainId, time: Option<int>, now: int, wanted: set<ChainId>)
    requires TimersSound(s) && Tidy(s) && Healthy(s, wanted) && !s.shuttingDown && NotRunning(s, id)
    ensures Tidy(ClearHeld(s, id)) && Healthy(ClearHeld(s, id), wanted - {id})
    ensures time.Some? ==>
              var s' := ScheduleNext(ClearHeld(s, id), Chain(id, time.value), now);
              Tidy(s') && Healthy(s', wanted + {id})
  {
    ClearingDisarms(s, id);
    ClearStaysSound(s, id);
    var cleared := ClearHeld(s, id);
    forall other
      ensures AtMostOneActivity(cleared, other) && (Alive(cleared, other) <==> other in wanted - {id})
    {
      TidyIsOneActivity(cleared, other);
      OnlyOneChainChanges(s, cleared, id, other);
    }
    if time.Some? {
      var c := Chain(id, time.value);
      RearmingStarts(cleared, c, now);
      StartedIsHealthy(cleared, c, now, wanted - {id});
      assert wanted - {id} + {id} == wanted + {id};
    }
  }

  lemma OnlyOneChainChanges(s: State, s': State, id: ChainId, other: ChainId)
    requires forall a :: Active(s', other, a) <==> Active(s, other, a) && (a.Armed? ==> other != id)
    requires NotRunning(s, id)
    ensures Alive(s', other) <==> Alive(s, other) && other != id
  {
    if Alive(s, other) && other != id {
      var a :| Active(s, other, a);
      assert Active(s', other, a);
    }
    if Alive(s', other) {
      var a :| Active(s', other, a);
      assert Active(s, other, a);
    }
  }

  lemma StartedIsHealthy(s: State, c: Chain, now: int, wanted: set<ChainId>)
    requires TimersSound(s) && Tidy(s) && !s.shuttingDown && NotRunning(s, c.id) && NotArmed(s, c.id)
    requires forall other :: Alive(s, other) <==> other in wanted
    ensures Healthy(ScheduleNext(s, c, now), wanted + {c.id})
  {
    var s' := ScheduleNext(s, c, now);
    RearmingStarts(s, c, now);
    forall other
      ensures AtMostOneActivity(s', other) && (Alive(s', other) <==> other in wanted + {c.id})
    {
      TidyIsOneActivity(s', other);
      if other == c.id {
        assert Active(s', other, Armed(s.registry.next));
      } else {
        assert forall a :: Active(s', other, a) <==> Active(s, other, a);
      }
    }
  }

  /** The registry handle a fired timer frees becomes one running callback of the same chain. */
  lemma FiringStaysHealthy(s: State, h: Handle, now: int, wanted: set<ChainId>)
    requires TimersSound(s) && Tidy(s) && Healthy(s, wanted) && h in s.registry.platform
    requires s.registry.platform[h].due <= now
    ensures Tidy(Step(s, FireTimer(h, now))) && Healthy(Step(s, FireTimer(h, now)), wanted)
  {
    var s' := Step(s, FireTimer(h, now));
    var id := s.registry.platform[h].callback.id;
    forall other
      ensures AtMostOneActivity(s', other) && (Alive(s', other) <==> other in wanted)
    {
      TidyIsOneActivity(s', other);
      if other == id {
        assert Active(s', other, Running(s.nextTask)) && Active(s, other, Armed(h));
      } else {
        assert forall a :: Active(s', other, a) <==> Active(s, other, a);
      }
    }
  }

  lemma SettlingStaysHealthy(s: State, t: TaskId, rejected: bool, now: int, wanted: set<ChainId>)
    requires TimersSound(s) && Tidy(s) && Healthy(s, wanted) && t in s.running && !s.shuttingDown
    requires Enabled(s, CallbackSettles(t, rejected, now))
    ensures Tidy(Settle(s, t, rejected, now)) && Healthy(Settle(s, t, rejected, now), wanted)
  {
    var c := s.running[t];
    var idle := s.(running := s.running - {t});
    assert Active(s, c.id, Running(t));
    forall other
      ensures Alive(idle, other) <==> other in wanted - {c.id}
    {
      if other == c.id {
        assert AtMostOneActivity(s, c.id);
        assert forall a :: Active(idle, other, a) ==> Active(s, other, a) && a != Running(t);
      } else {
        assert forall a :: Active(idle, other, a) <==> Active(s, other, a);
      }
    }
    StartedIsHealthy(idle, c, now, wanted - {c.id});
    RearmingStarts(idle, c, now);
    assert wanted - {c.id} + {c.id} == wanted;
  }

  lemma StepStaysHealthy(s: State, e: Event, wanted: set<ChainId>)
    requires TimersSound(s) && Tidy(s) && Healthy(s, wanted) && !s.shuttingDown
    requires Enabled(s, e) && e != Shutdown && !LandsDuringCallback(s, e)
    ensures Tidy(Step(s, e)) && Healthy(Step(s, e), WantedAfter(wanted, e))
  {
    if Target(e).Some? {
      IdleTarget(s, e);
    }
    match e
    case SetBook(guid, time, now) =>
      if time.Some? {
        CommandStaysHealthy(s, Book(guid), time, now, wanted);
        ForgettingIsHarmless(s, guid, Chain(Book(guid), time.value), now);
      }
    case ClearBook(guid) =>
      CommandStaysHealthy(s, Book(guid), None, 0, wanted);
      ClearedBookIsHealthy(s, guid, wanted);
    case SetNamed(name, time, now) => CommandStaysHealthy(s, Named(name), time, now, wanted);
    case FireTimer(h, now) => FiringStaysHealthy(s, h, now, wanted);
    case CallbackSettles(t, rejected, now) => SettlingStaysHealthy(s, t, rejected, now, wanted);
  }

  lemma IdleTarget(s: State, e: Event)
    requires Target(e).Some? && !LandsDuringCallback(s, e)
    ensures NotRunning(s, Target(e).value)
  {
    forall t | t in s.running
      ensures s.running[t].id != Target(e).value
    {
      assert !Active(s, Target(e).value, Running(t));
    }
  }

  lemma ForgettingIsHarmless(s: State, guid: string, c: Chain, now: int)
    requires c.id == Book(guid) && TimersSound(s) && !s.shuttingDown
    ensures ScheduleNext(ClearSchedule(s, guid), c, now) == ScheduleNext(ClearHeld(s, Book(guid)), c, now)
  {
    assert ScheduleNext(ClearSchedule(s, guid), c, now).held == ScheduleNext(ClearHeld(s, Book(guid)), c, now).held;
  }

  lemma ClearedBookIsHealthy(s: State, guid: string, wanted: set<ChainId>)
    requires TimersSound(s) && Tidy(s) && Tidy(ClearHeld(s, Book(guid)))
    requires Healthy(ClearHeld(s, Book(guid)), wanted - {Book(guid)})
    ensures Tidy(ClearSchedule(s, guid)) && Healthy(ClearSchedule(s, guid), wanted - {Book(guid)})
  {
    ClearingDisarms(s, Book(guid));
    var a, b := ClearHeld(s, Book(guid)), ClearSchedule(s, guid);
    assert forall id, x :: Active(a, id, x) <==> Active(b, id, x);
    forall id
      ensures AtMostOneActivity(b, id) && (Alive(b, id) <==> id in wanted - {Book(guid)})
    {
      assert AtMostOneActivity(a, id) && (Alive(a, id) <==> id in wanted - {Book(guid)});
    }
  }

  /** A command that lands during its own callback breaks health at once. */
  lemma LandingBreaksHealth(s: State, e: Event, wanted: set<ChainId>)
    requires TimersSound(s) && !s.shuttingDown && Enabled(s, e) && LandsDuringCallback(s, e)
    ensures !Healthy(Step(s, e), WantedAfter(wanted, e))
  {
    var id := Target(e).value;
    var t :| Active(s, id, Running(t));
    var s' := Step(s, e);
    assert Active(s', id, Running(t));
    if id in WantedAfter(wanted, e) {
      assert Active(s', id, Armed(s.registry.next));
    }
  }

  /**
   * Until shutdown, every wanted chain (and no other) is alive as exactly one armed timer or
   * one running callback, at every moment of the run, if and only if no set or clear arrives
   * during the callback of its own chain. Failing jobs make no difference.
   */
  lemma {:induction false} OneLiveChainIffCommandsAvoidCallbacks(es: seq<Event>)
    requires Legal(es) && Shutdown !in es
    ensures HealthyThroughout(es) <==> CommandsAvoidCallbacks(es)
    ensures CommandsAvoidCallbacks(es) ==> Tidy(Run(es))
    decreases |es|
  {
    if es != [] {
      var before, e := es[..|es| - 1], es[|es| - 1];
      OneLiveChainIffCommandsAvoidCallbacks(before);
      RunIsSound(before);
      if CommandsAvoidCallbacks(before) {
        if LandsDuringCallback(Run(before), e) {
          LandingBreaksHealth(Run(before), e, Wanted(before));
        } else {
          StepStaysHealthy(Run(before), e, Wanted(before));
        }
      }
    }
  }

  /** Once shutdown has latched the registry nothing is armed, whatever commands and callbacks follow. */
  lemma NothingArmedAfterShutdown(es: seq<Event>)
    requires Legal(es) && Shutdown in es
    ensures Run(es).registry.platform == map[]
  {
    RunIsSound(es);
  }

  /** A new timer is armed and recorded for the next occurrence of the chain's time. */
  predicate ArmsNextDay(s: State, s': State, c: Chain, now: int) {
    && c.id in s'.held && s'.held[c.id] == s.registry.next && s'.registry.next == s.registry.next + 1
    && s.registry.next in s'.registry.platform
    && s'.registry.platform[s.registry.next] == Timer(Timeout, c, now + MsUntil(c.offset, now), 0)
  }

  /** A callback that is over leaves its chain armed for the next day, a job that failed included. */
  lemma RearmedWhateverTheOutcome(es: seq<Event>, t: TaskId, rejected: bool, now: int)
    requires Legal(es) && Shutdown !in es && Enabled(Run(es), CallbackSettles(t, rejected, now))
    ensures var s' := Step(Run(es), CallbackSettles(t, rejected, now));
      t !in s'.running && ArmsNextDay(Run(es), s', Run(es).running[t], now)
  {
    RunIsSound(es);
  }

  /**
   * Why that needs `runRefreshForBook` to catch everything: were that promise to reject, a named chain
   * would be armed again and a book's chain would be over.
   */
  lemma RearmedIffNamedOrResolved(es: seq<Event>, t: TaskId, rejected: bool, now: int)
    requires Legal(es) && Shutdown !in es && CommandsAvoidCallbacks(es) && t in Run(es).running
    ensures var s, c := Run(es), Run(es).running[t];
      && (ArmsNextDay(s, Settle(s, t, rejected, now), c, now) <==> c.id.Named? || !rejected)
      && (Alive(Settle(s, t, rejected, now), c.id) <==> c.id.Named? || !rejected)
  {
    RunIsSound(es);
    OneLiveChainIffCommandsAvoidCallbacks(es);
    var s, c := Run(es), Run(es).running[t];
    if c.id.Named? || !rejected {
      assert Active(Settle(s, t, rejected, now), c.id, Armed(s.registry.next));
    } else {
      RunningChainHasNothingElse(s, t);
    }
  }

  lemma RunningChainHasNothingElse(s: State, t: TaskId)
    requires Tidy(s) && t in s.running
    ensures !Alive(s.(running := s.running - {t}), s.running[t].id)
  {
  }

  /** The unguarded case: a set during the callback leaves two armed timers, and so two chains, for good. */
  lemma SetDuringCallbackDoublesTheChain(guid: string, first: int, second: int, t0: int, t1: int, t2: int)
    requires t1 >= t0 + MsUntil(first, t0)
    ensures var es := [] + [SetBook(guid, Some(first), t0)] + [FireTimer(0, t1)] + [SetBook(guid, Some(second), t1)]
                    + [CallbackSettles(0, false, t2)];
      Legal(es) && Active(Run(es), Book(guid), Armed(1)) && Active(Run(es), Book(guid), Armed(2))
  {
    var set1 := [] + [SetBook(guid, Some(first), t0)];
    Extend([], SetBook(guid, Some(first), t0));
    Extend(set1, FireTimer(0, t1));
    Extend(set1 + [FireTimer(0, t1)], SetBook(guid, Some(second), t1));
    Extend(set1 + [FireTimer(0, t1)] + [SetBook(guid, Some(second), t1)], CallbackSettles(0, false, t2));
  }

  /** And a clear during the callback does not hold: the callback arms the cleared book again. */
  lemma ClearDuringCallbackIsUndone(guid: string, offset: int, t0: int, t1: int, t2: int)
    requires t1 >= t0 + MsUntil(offset, t0)
    ensures var es := [] + [SetBook(guid, Some(offset), t0)] + [FireTimer(0, t1)] + [ClearBook(guid)]
                    + [CallbackSettles(0, false, t2)];
      Legal(es) && Wanted(es) == {} && Active(Run(es), Book(guid), Armed(1))
  {
    var set1 := [] + [SetBook(guid, Some(offset), t0)];
    Extend([], SetBook(guid, Some(offset), t0));
    Extend(set1, FireTimer(0, t1));
    Extend(set1 + [FireTimer(0, t1)], ClearBook(guid));
    Extend(set1 + [FireTimer(0, t1)] + [ClearBook(guid)], CallbackSettles(0, false, t2));
  }
}
