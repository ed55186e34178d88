/**
 * The self-rearming daily chains of worker.ts: per-book price refreshes (`setSchedule`,
 * `clearSchedule`) and named jobs (`setScheduleGeneric`), over one timer registry.
 */
module DailyChains {
  import opened Prelude
  import opened TimesOfDay
  import opened Timers

  // ----- State -----

  type TaskId = nat

  datatype ChainId = Book(guid: string) | Named(name: string)

  /** What a timer's closure and a running callback remember: the chain and its time of day. */
  datatype Chain = Chain(id: ChainId, offset: int)

  /** `held` is the `schedules` map (Book keys) and the `genericTimers` map (Named keys) side by side. */
  datatype State = State(
    registry: Registry<Chain>,
    held: map<ChainId, Handle>,
    running: map<TaskId, Chain>,
    nextTask: TaskId,
    shuttingDown: bool)

  function Init(): State {
    State(Empty(), map[], map[], 0, false)
  }

  // ----- Steps -----

  /** The inner `scheduleNext` of both functions: arm the next day's timer and record it. */
  function ScheduleNext(s: State, c: Chain, now: int): State {
    var (registry, timer) := Arm(s.registry, Timer(Timeout, c, now + MsUntil(c.offset, now), 0));
    match timer
    case None => s
    case Some(h) => s.(registry := registry, held := s.held[c.id := h])
  }

  function ClearHeld(s: State, id: ChainId): State {
    if id in s.held then s.(registry := ClearHandles(s.registry, {s.held[id]})) else s
  }

  function ClearSchedule(s: State, guid: string): State {
    ClearHeld(s, Book(guid)).(held := s.held - {Book(guid)})
  }

  /**
   * The promise inside the timer's callback has settled. A named job re-arms in a `finally`; the book's
   * callback re-arms only after an await, so a rejected task would end its chain.
   */
  function Settle(s: State, t: TaskId, rejected: bool, now: int): State
    requires t in s.running
  {
    var idle := s.(running := s.running - {t});
    if rejected && s.running[t].id.Book? then idle else ScheduleNext(idle, s.running[t], now)
  }

  /** Commands carry the parsed time of day; None is a time that does not parse. */
  datatype Event =
    | SetBook(guid: string, time: Option<int>, now: int)
    | ClearBook(guid: string)
    | SetNamed(name: string, time: Option<int>, now: int)
    | FireTimer(handle: Handle, now: int)
    | CallbackSettles(task: TaskId, rejected: bool, now: int)
    | Shutdown

  /** A book's task never rejects: `runRefreshForBook` catches everything it awaits. */
  predicate Enabled(s: State, e: Event) {
    match e
    case FireTimer(h, now) => h in s.registry.platform && s.registry.platform[h].due <= now
    case CallbackSettles(t, rejected, _) => t in s.running && (rejected ==> s.running[t].id.Named?)
    case _ => true
  }

  function Step(s: State, e: Event): State
    requires Enabled(s, e)
  {
    match e
    case SetBook(guid, time, now) =>
      // setSchedule refuses a bad time before it touches the existing chain
      if time == None then s else ScheduleNext(ClearSchedule(s, guid), Chain(Book(guid), time.value), now)
    case ClearBook(guid) => ClearSchedule(s, guid)
    case SetNamed(name, time, now) =>
      // setScheduleGeneric clears first, so a bad time ends the chain
      var cleared := ClearHeld(s, Named(name));
      if time == None then cleared else ScheduleNext(cleared, Chain(Named(name), time.value), now)
    case FireTimer(h, now) =>
      s.(registry := Fire(s.registry, h, now), running := s.running[s.nextTask := s.registry.platform[h].callback],
         nextTask := s.nextTask + 1)
    case CallbackSettles(t, rejected, now) => Settle(s, t, rejected, now)
    case Shutdown =>
      if s.shuttingDown then s
      else s.(shuttingDown := true, registry := ClearAll(s.registry), held := map[])
  }

  // ----- What a chain is doing -----

  datatype Activity = Armed(handle: Handle) | Running(task: TaskId)

  predicate Active(s: State, id: ChainId, a: Activity) {
    match a
    case Armed(h) => h in s.registry.platform && s.registry.platform[h].callback.id == id
    case Running(t) => t in s.running && s.running[t].id == id
  }

  ghost predicate AtMostOneActivity(s: State, id: ChainId) {
    forall a, b :: Active(s, id, a) && Active(s, id, b) ==> a == b
  }

  ghost predicate Alive(s: State, id: ChainId) {
    exists a :: Active(s, id, a)
  }

  /** Exactly the wanted chains are alive, each as one armed timer or one running callback. */
  ghost predicate Healthy(s: State, wanted: set<ChainId>) {
    forall id :: AtMostOneActivity(s, id) && (Alive(s, id) <==> id in wanted)
  }

  /** The chain a command addresses; a set that setSchedule refuses addresses none. */
  function Target(e: Event): Option<ChainId> {
    match e
    case SetBook(guid, time, _) => if time.Some? then Some(Book(guid)) else None
    case ClearBook(guid) => Some(Book(guid))
    case SetNamed(name, _, _) => Some(Named(name))
    case _ => None
  }

  /** A set or clear arrives while the callback of that very chain is running. */
  ghost predicate LandsDuringCallback(s: State, e: Event) {
    Target(e).Some? && exists t :: Active(s, Target(e).value, Running(t))
  }

  function WantedAfter(wanted: set<ChainId>, e: Event): set<ChainId> {
    match e
    case SetBook(guid, time, _) => if time.Some? then wanted + {Book(guid)} else wanted
    case ClearBook(guid) => wanted - {Book(guid)}
    case SetNamed(name, time, _) =>
      if time.Some? then wanted + {Named(name)} else wanted - {Named(name)}
    case _ => wanted
  }

  // ----- Invariant of runs in which no command lands during its own callback -----

  ghost predicate TimersSound(s: State) {
    && Consistent(s.registry)
    && (s.shuttingDown <==> s.registry.stopped)
    && (forall id :: id in s.held ==> s.held[id] < s.registry.next)
    && (forall id :: id in s.held && s.held[id] in s.registry.platform ==> s.registry.platform[s.held[id]].callback.id == id)
    && (forall h :: h in s.registry.platform ==> s.registry.platform[h].kind == Timeout)
    && (forall t :: t in s.running ==> t < s.nextTask)
  }

  ghost predicate NotRunning(s: State, id: ChainId) {
    forall t :: t in s.running ==> s.running[t].id != id
  }

  ghost predicate NotArmed(s: State, id: ChainId) {
    forall h :: h in s.registry.platform ==> s.registry.platform[h].callback.id != id
  }

  /** Every armed timer is the one its map names, and an armed chain has no callback running. */
  ghost predicate Tidy(s: State) {
    && (forall h :: h in s.registry.platform ==>
          var id := s.registry.platform[h].callback.id; id in s.held && s.held[id] == h && NotRunning(s, id))
    && (forall t, u :: t in s.running && u in s.running && s.running[t].id == s.running[u].id ==> t == u)
  }

  lemma RearmStaysSound(s: State, c: Chain, now: int)
    requires TimersSound(s)
    ensures TimersSound(ScheduleNext(s, c, now))
  {
  }

  lemma ClearStaysSound(s: State, id: ChainId)
    requires TimersSound(s)
    ensures TimersSound(ClearHeld(s, id))
  {
  }

  lemma TimersStaySound(s: State, e: Event)
    requires TimersSound(s) && Enabled(s, e)
    ensures TimersSound(Step(s, e))
  {
    match e
    case SetBook(guid, time, now) =>
      ClearStaysSound(s, Book(guid));
      if time.Some? {
        RearmStaysSound(ClearSchedule(s, guid), Chain(Book(guid), time.value), now);
      }
    case ClearBook(guid) => ClearStaysSound(s, Book(guid));
    case SetNamed(name, time, now) =>
      ClearStaysSound(s, Named(name));
      if time.Some? {
        RearmStaysSound(ClearHeld(s, Named(name)), Chain(Named(name), time.value), now);
      }
    case CallbackSettles(t, _, now) => RearmStaysSound(s.(running := s.running - {t}), s.running[t], now);
    case _ =>
  }

  // ----- Tidy is kept -----

  /** Clearing the held timer of a chain with no running callback leaves that chain with nothing at all. */
  lemma ClearingDisarms(s: State, id: ChainId)
    requires TimersSound(s) && Tidy(s)
    ensures Tidy(ClearHeld(s, id)) && NotArmed(ClearHeld(s, id), id)
    ensures forall a, other :: Active(ClearHeld(s, id), other, a) <==> Active(s, other, a) && (a.Armed? ==> other != id)
  {
    if id !in s.held {
      assert NotArmed(s, id);
    }
  }

  /** Arming an idle chain gives it exactly one activity and touches no other chain. */
  lemma RearmingStarts(s: State, c: Chain, now: int)
    requires TimersSound(s) && Tidy(s) && !s.shuttingDown && NotRunning(s, c.id) && NotArmed(s, c.id)
    ensures Tidy(ScheduleNext(s, c, now))
    ensures forall a, other :: Active(ScheduleNext(s, c, now), other, a)
                               <==> Active(s, other, a) || (other == c.id && a == Armed(s.registry.next))
  {
  }

  lemma TidyIsOneActivity(s: State, id: ChainId)
    requires Tidy(s)
    ensures AtMostOneActivity(s, id)
  {
  }
}
