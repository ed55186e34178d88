/** At what time of day each chain runs: the time last asked of it, by the history of commands alone. */
module DailyChainTimes {
  import opened Prelude
  import opened TimesOfDay
  import opened Timers
  import opened DailyChains
  import opened DailyChainTheorems

  // ----- The time asked for -----

  /** What a command makes of the time asked of `id`: milliseconds after midnight UTC. */
  function AskedAfter(e: Event, id: ChainId, before: Option<int>): Option<int> {
    match e
    case SetBook(guid, time, _) => if id == Book(guid) && time.Some? then time else before
    case ClearBook(guid) => if id == Book(guid) then None else before
    case SetNamed(name, time, _) => if id == Named(name) then time else before
    case _ => before
  }

  function AskedTime(es: seq<Event>, id: ChainId): Option<int>
    decreases |es|
  {
    if es == [] then None else AskedAfter(es[|es| - 1], id, AskedTime(es[..|es| - 1], id))
  }

  predicate IsTimeOfDay(time: Option<int>) {
    time.Some? ==> 0 <= time.value < 86_400_000
  }

  /** The times in the commands are times of day, as parsing guarantees. */
  predicate TimesOfDayOnly(e: Event) {
    match e
    case SetBook(_, time, _) => IsTimeOfDay(time)
    case SetNamed(_, time, _) => IsTimeOfDay(time)
    case _ => true
  }

  // ----- Every timer and every callback keeps it -----

  predicate RunsAt(c: Chain, asked: Option<int>) {
    asked == Some(c.offset) && 0 <= c.offset < 86_400_000
  }

  ghost predicate KeepsTimes(s: State, asked: ChainId -> Option<int>) {
    && (forall h :: h in s.registry.platform ==>
          var t := s.registry.platform[h];
          RunsAt(t.callback, asked(t.callback.id)) && t.due % 86_400_000 == t.callback.offset)
    && (forall t :: t in s.running ==> RunsAt(s.running[t], asked(s.running[t].id)))
  }

  /** Clearing a chain that is not running leaves nothing of it, so its asked time no longer matters. */
  lemma ClearingKeepsTimes(s: State, id: ChainId, asked: ChainId -> Option<int>, asked': ChainId -> Option<int>)
    requires TimersSound(s) && Tidy(s) && NotRunning(s, id) && KeepsTimes(s, asked)
    requires forall other :: other != id ==> asked'(other) == asked(other)
    ensures KeepsTimes(ClearHeld(s, id), asked')
  {
    ClearingDisarms(s, id);
  }

  lemma ArmingKeepsTimes(s: State, c: Chain, now: int, asked: ChainId -> Option<int>)
    requires TimersSound(s) && !s.shuttingDown && KeepsTimes(s, asked) && RunsAt(c, asked(c.id))
    ensures KeepsTimes(ScheduleNext(s, c, now), asked)
  {
    NextRunIsTheFirst(c.offset, now);
  }

  lemma CommandKeepsTimes(s: State, id: ChainId, time: Option<int>, now: int, asked: ChainId -> Option<int>,
                          asked': ChainId -> Option<int>)
    requires TimersSound(s) && Tidy(s) && !s.shuttingDown && NotRunning(s, id) && KeepsTimes(s, asked)
    requires forall other :: other != id ==> asked'(other) == asked(other)
    requires asked'(id) == time && IsTimeOfDay(time)
    ensures KeepsTimes(ClearHeld(s, id), asked')
    ensures time.Some? ==> KeepsTimes(ScheduleNext(ClearHeld(s, id), Chain(id, time.value), now), asked')
  {
    ClearingKeepsTimes(s, id, asked, asked');
    ClearStaysSound(s, id);
    if time.Some? {
      ArmingKeepsTimes(ClearHeld(s, id), Chain(id, time.value), now, asked');
    }
  }

  lemma StepKeepsTimes(s: State, e: Event, asked: ChainId -> Option<int>, asked': ChainId -> Option<int>)
    requires TimersSound(s) && Tidy(s) && !s.shuttingDown && KeepsTimes(s, asked)
    requires Enabled(s, e) && e != Shutdown && !LandsDuringCallback(s, e) && TimesOfDayOnly(e)
    requires forall id :: asked'(id) == AskedAfter(e, id, asked(id))
    ensures KeepsTimes(Step(s, e), asked')
  {
    if Target(e).Some? {
      IdleTarget(s, e);
    }
    match e
    case SetBook(guid, time, now) =>
      if time.Some? {
        CommandKeepsTimes(s, Book(guid), time, now, asked, asked');
        ForgettingIsHarmless(s, guid, Chain(Book(guid), time.value), now);
      }
    case ClearBook(guid) => CommandKeepsTimes(s, Book(guid), None, 0, asked, asked');
    case SetNamed(name, time, now) => CommandKeepsTimes(s, Named(name), time, now, asked, asked');
    case FireTimer(h, now) =>
    case CallbackSettles(t, rejected, now) =>
      ArmingKeepsTimes(s.(running := s.running - {t}), s.running[t], now, asked');
  }

  lemma {:induction false} RunKeepsTimes(es: seq<Event>)
    requires Legal(es) && Shutdown !in es && CommandsAvoidCallbacks(es)
    requires forall i :: 0 <= i < |es| ==> TimesOfDayOnly(es[i])
    ensures KeepsTimes(Run(es), id => AskedTime(es, id))
    decreases |es|
  {
    if es != [] {
      var before, e := es[..|es| - 1], es[|es| - 1];
      assert es == before + [e];
      RunKeepsTimes(before);
      RunIsSound(before);
      OneLiveChainIffCommandsAvoidCallbacks(before);
      StepKeepsTimes(Run(before), e, id => AskedTime(before, id), id => AskedTime(es, id));
    }
  }

  /**
   * In every run whose commands avoid callbacks, each armed timer of a chain is due at the time of day
   * last asked of that chain, after any number of runs of it and whatever was asked of other chains.
   */
  lemma EveryTimerIsDueWhenAsked(es: seq<Event>, h: Handle)
    requires Legal(es) && CommandsAvoidCallbacks(es) && h in Run(es).registry.platform
    requires forall i :: 0 <= i < |es| ==> TimesOfDayOnly(es[i])
    ensures var t := Run(es).registry.platform[h];
      AskedTime(es, t.callback.id) == Some(t.due % 86_400_000)
  {
    RunIsSound(es);
    RunKeepsTimes(es);
  }

  /** One timer of the chain, due within a day at this time of day. */
  ghost predicate DueWithinADay(s: State, id: ChainId, time: int, now: int) {
    exists h :: h in s.registry.platform && s.registry.platform[h].callback.id == id
                && now < s.registry.platform[h].due <= now + 86_400_000 && s.registry.platform[h].due % 86_400_000 == time
  }

  lemma ArmedWithinADay(s: State, c: Chain, now: int)
    requires !s.registry.stopped && 0 <= c.offset < 86_400_000
    ensures DueWithinADay(ScheduleNext(s, c, now), c.id, c.offset, now)
  {
    NextRunIsTheFirst(c.offset, now);
    var s' := ScheduleNext(s, c, now);
    assert s.registry.next in s'.registry.platform && s'.registry.platform[s.registry.next].callback == c;
  }

  /** A set with a time that parses arms the chain for the next occurrence of that time, for books and named jobs alike. */
  lemma SetArmsForTheTimeAsked(es: seq<Event>, e: Event, id: ChainId)
    requires Legal(es) && Shutdown !in es && TimesOfDayOnly(e)
    requires e.SetBook? || e.SetNamed?
    requires e.time.Some? && id == if e.SetBook? then Book(e.guid) else Named(e.name)
    ensures DueWithinADay(Step(Run(es), e), id, e.time.value, e.now)
  {
    RunIsSound(es);
    if e.SetBook? {
      ArmedWithinADay(ClearSchedule(Run(es), e.guid), Chain(id, e.time.value), e.now);
    } else {
      ArmedWithinADay(ClearHeld(Run(es), id), Chain(id, e.time.value), e.now);
    }
  }
}
