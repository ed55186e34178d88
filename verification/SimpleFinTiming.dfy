/**
 * When a connection's first sync tick comes, over whole runs of the SimpleFin machine: rebuilds
 * may come at any time, skip the connection, or end before they reach it.
 */
module SimpleFinTiming {
  import opened Prelude
  import opened Timers
  import opened SimpleFin
  import opened SimpleFinTheorems

  // ----- Positions in a run -----

  lemma {:induction false} PrefixLegal(es: seq<Event>, k: nat)
    requires Legal(es) && k <= |es|
    ensures Legal(es[..k])
    decreases |es|
  {
    if k == |es| {
      assert es[..k] == es;
    } else {
      PrefixLegal(es[..|es| - 1], k);
      assert es[..|es| - 1][..k] == es[..k];
    }
  }

  /** The state before event `k`. */
  ghost function At(es: seq<Event>, k: nat): State
    requires Legal(es) && k <= |es|
  {
    PrefixLegal(es, k);
    Run(es[..k])
  }

  lemma AtStep(es: seq<Event>, k: nat)
    requires Legal(es) && k < |es|
    ensures Invariant(At(es, k)) && Enabled(At(es, k), es[k]) && At(es, k + 1) == Step(At(es, k), es[k])
  {
    PrefixLegal(es, k);
    PrefixLegal(es, k + 1);
    assert es[..k + 1][..k] == es[..k] && es[..k + 1][k] == es[k];
    RunKeepsInvariant(es[..k]);
  }

  lemma {:induction false} ClockGrows(es: seq<Event>, a: nat, b: nat)
    requires Legal(es) && a <= b <= |es|
    ensures At(es, a).clock <= At(es, b).clock
    decreases b - a
  {
    if a < b {
      ClockGrows(es, a, b - 1);
      AtStep(es, b - 1);
    }
  }

  lemma {:induction false} NotShutDown(es: seq<Event>, n: nat)
    requires Legal(es) && Shutdown !in es && n <= |es|
    ensures !At(es, n).shuttingDown
  {
    if n > 0 {
      NotShutDown(es, n - 1);
      AtStep(es, n - 1);
    }
  }

  // ----- Rebuilds, armings and first ticks of one connection -----

  /** No rebuild begins strictly between two positions. */
  ghost predicate NoRebuildIn(es: seq<Event>, a: nat, b: nat)
    requires b <= |es|
  {
    forall j :: a < j < b ==> !es[j].BeginRebuild?
  }

  ghost predicate Arms(es: seq<Event>, k: nat, c: ConnectionId)
    requires Legal(es)
  {
    && k < |es| && es[k].NextConnection? && es[k].preferences.OptedIn?
    && var r := At(es, k).rebuild;
    r.Arming? && r.rest != [] && r.rest[0].id == c
  }

  ghost function ReadAt(es: seq<Event>, k: nat, c: ConnectionId): Connection
    requires Legal(es) && Arms(es, k, c)
  {
    At(es, k).rebuild.rest[0]
  }

  /** When the timer armed at `k` is due. */
  ghost function Due(es: seq<Event>, k: nat, c: ConnectionId): int
    requires Legal(es) && Arms(es, k, c)
  {
    es[k].now + InitialDelay(LastSync(ReadAt(es, k, c)), IntervalMs(es[k].preferences.hours), es[k].now)
  }

  /** The repeat interval the timer armed at `k` will start. */
  ghost function EveryMs(es: seq<Event>, k: nat, c: ConnectionId): int
    requires Legal(es) && Arms(es, k, c)
  {
    IntervalMs(es[k].preferences.hours)
  }

  ghost predicate Ticks(es: seq<Event>, f: nat, c: ConnectionId)
    requires Legal(es)
  {
    && f < |es| && es[f].FireTimer?
    && var p := At(es, f).schedule.registry.platform;
    es[f].handle in p && p[es[f].handle].callback.FirstTick? && p[es[f].handle].callback.conn == c
  }

  /** The rebuild that began at `j` got as far as arming `c` before another one began. */
  ghost predicate Reached(es: seq<Event>, j: nat, c: ConnectionId)
    requires Legal(es)
  {
    exists k :: j < k && Arms(es, k, c) && NoRebuildIn(es, j, k)
  }

  ghost predicate NoTickBefore(es: seq<Event>, n: nat, c: ConnectionId)
    requires Legal(es)
  {
    forall f :: 0 <= f < n ==> !Ticks(es, f, c)
  }

  // ----- What a connection waits for -----

  ghost predicate Silent(s: Schedule, c: ConnectionId) {
    forall h :: h in s.registry.platform ==> s.registry.platform[h].callback.conn != c
  }

  predicate IsFirstTick(t: Timer<Callback>, c: ConnectionId) {
    t.callback.FirstTick? && t.callback.conn == c
  }

  predicate IsAwaited(t: Timer<Callback>, c: ConnectionId, due: int, intervalMs: int) {
    IsFirstTick(t, c) && t.due == due && t.callback.intervalMs == intervalMs
  }

  ghost predicate Awaits(s: Schedule, c: ConnectionId, due: int, intervalMs: int) {
    exists h :: h in s.registry.platform && IsAwaited(s.registry.platform[h], c, due, intervalMs)
  }

  ghost predicate NoFirstTick(s: Schedule, c: ConnectionId) {
    forall h :: h in s.registry.platform ==> !IsFirstTick(s.registry.platform[h], c)
  }

  /** Since the latest rebuild began: not armed, armed at `armed`, or armed there and ticked at `tick`. */
  datatype Progress = Bare | Waiting(armed: nat) | Ticked(armed: nat, tick: nat)

  ghost function ProgressAt(es: seq<Event>, c: ConnectionId, n: nat): Progress
    requires Legal(es) && n <= |es|
  {
    if n == 0 || es[n - 1].BeginRebuild? then Bare
    else if Arms(es, n - 1, c) then Waiting(n - 1)
    else
      var p := ProgressAt(es, c, n - 1);
      if Ticks(es, n - 1, c) && p.Waiting? then Ticked(p.armed, n - 1) else p
  }

  ghost predicate Tracks(es: seq<Event>, c: ConnectionId, n: nat, p: Progress)
    requires Legal(es) && n <= |es|
  {
    var s := At(es, n).schedule;
    match p
    case Bare => Silent(s, c)
    case Waiting(k) => k < n && NoRebuildIn(es, k, n) && Arms(es, k, c) && Awaits(s, c, Due(es, k, c), EveryMs(es, k, c))
    case Ticked(k, f) =>
      && k < f < n && NoRebuildIn(es, k, n) && Arms(es, k, c) && Ticks(es, f, c)
      && At(es, f).schedule.registry.platform[es[f].handle].due == Due(es, k, c) && NoFirstTick(s, c)
  }

  ghost predicate ArmsConnection(s: State, e: Event, c: ConnectionId)
    requires Enabled(s, e)
  {
    e.NextConnection? && e.preferences.OptedIn? && s.rebuild.rest[0].id == c
  }

  ghost predicate FiresFirstTick(s: State, e: Event, c: ConnectionId)
    requires Enabled(s, e)
  {
    e.FireTimer? && IsFirstTick(s.schedule.registry.platform[e.handle], c)
  }

  lemma SilentStays(s: State, e: Event, c: ConnectionId)
    requires Invariant(s) && Enabled(s, e) && Silent(s.schedule, c) && !ArmsConnection(s, e, c)
    ensures Silent(Step(s, e).schedule, c)
  {
    if e.BeginRebuild? {
      ClearReleasesEverything(s.schedule);
    }
  }

  lemma BeginSilences(s: State, now: int, c: ConnectionId)
    requires Invariant(s) && Enabled(s, BeginRebuild(now))
    ensures Silent(Step(s, BeginRebuild(now)).schedule, c)
  {
    ClearReleasesEverything(s.schedule);
  }

  lemma AwaitStays(s: State, e: Event, c: ConnectionId, due: int, ms: int)
    requires Invariant(s) && Enabled(s, e) && Awaits(s.schedule, c, due, ms)
    requires !e.BeginRebuild? && !e.Shutdown? && !FiresFirstTick(s, e, c)
    ensures Awaits(Step(s, e).schedule, c, due, ms)
  {
    var h :| h in s.schedule.registry.platform && IsAwaited(s.schedule.registry.platform[h], c, due, ms);
    var s' := Step(s, e).schedule;
    assert h in s'.registry.platform && s'.registry.platform[h] == s.schedule.registry.platform[h];
  }

  lemma ArmingAwaits(s: State, p: Preferences, now: int)
    requires Invariant(s) && Enabled(s, NextConnection(p, now)) && p.OptedIn? && !s.shuttingDown
    ensures var c := s.rebuild.rest[0];
      var ms := IntervalMs(p.hours);
      Awaits(Step(s, NextConnection(p, now)).schedule, c.id, now + InitialDelay(LastSync(c), ms, now), ms)
  {
    var s' := Step(s, NextConnection(p, now)).schedule;
    assert s.schedule.registry.next in s'.registry.platform;
    assert IsFirstTick(s'.registry.platform[s.schedule.registry.next], s.rebuild.rest[0].id);
  }

  lemma OneFirstTick(s: Schedule, c: ConnectionId, h: Handle, k: Handle)
    requires ScheduleSound(s) && h in s.registry.platform && k in s.registry.platform
    requires s.registry.platform[h].callback.conn == c == s.registry.platform[k].callback.conn
    ensures h == k
  {
    assert Holds(s, c, h) && Holds(s, c, k);
  }

  /** The first tick takes its timer away, and only arming brings another one. */
  lemma TickingEnds(s: State, e: Event, c: ConnectionId)
    requires Invariant(s) && Enabled(s, e) && !ArmsConnection(s, e, c)
    requires FiresFirstTick(s, e, c) || NoFirstTick(s.schedule, c)
    ensures NoFirstTick(Step(s, e).schedule, c)
  {
    if e.BeginRebuild? {
      ClearReleasesEverything(s.schedule);
    } else if e.FireTimer? {
      var s' := Step(s, e).schedule;
      forall h | h in s'.registry.platform
        ensures !IsFirstTick(s'.registry.platform[h], c)
      {
        if h in s.schedule.registry.platform && IsFirstTick(s.schedule.registry.platform[h], c) {
          OneFirstTick(s.schedule, c, h, e.handle);
        }
      }
    }
  }

  lemma {:induction false} ProgressTracks(es: seq<Event>, c: ConnectionId, n: nat)
    requires Legal(es) && Shutdown !in es && n <= |es|
    ensures Tracks(es, c, n, ProgressAt(es, c, n))
  {
    if n > 0 {
      ProgressTracks(es, c, n - 1);
      AtStep(es, n - 1);
      NotShutDown(es, n - 1);
      assert es[n - 1] in es;
      TrackStep(es, c, n - 1);
    }
  }

  lemma TrackStep(es: seq<Event>, c: ConnectionId, n: nat)
    requires Legal(es) && n < |es| && es[n] != Shutdown && !At(es, n).shuttingDown
    requires Invariant(At(es, n)) && Enabled(At(es, n), es[n]) && At(es, n + 1) == Step(At(es, n), es[n])
    requires Tracks(es, c, n, ProgressAt(es, c, n))
    ensures Tracks(es, c, n + 1, ProgressAt(es, c, n + 1))
  {
    var s, e := At(es, n), es[n];
    if e.BeginRebuild? {
      BeginSilences(s, e.now, c);
    } else if Arms(es, n, c) {
      ArmingAwaits(s, e.preferences, e.now);
    } else {
      assert !ArmsConnection(s, e, c);
      QuietStep(es, c, n);
    }
  }

  /** Neither a rebuild's begin nor an arming of `c`. */
  lemma QuietStep(es: seq<Event>, c: ConnectionId, n: nat)
    requires Legal(es) && n < |es| && es[n] != Shutdown && !es[n].BeginRebuild? && !Arms(es, n, c)
    requires Invariant(At(es, n)) && Enabled(At(es, n), es[n]) && At(es, n + 1) == Step(At(es, n), es[n])
    requires Tracks(es, c, n, ProgressAt(es, c, n)) && !ArmsConnection(At(es, n), es[n], c)
    ensures Tracks(es, c, n + 1, ProgressAt(es, c, n + 1))
  {
    var s, e := At(es, n), es[n];
    match ProgressAt(es, c, n)
    case Bare => SilentStays(s, e, c);
    case Waiting(k) =>
      if Ticks(es, n, c) {
        var h :| h in s.schedule.registry.platform
                 && IsAwaited(s.schedule.registry.platform[h], c, Due(es, k, c), EveryMs(es, k, c));
        OneFirstTick(s.schedule, c, h, e.handle);
        TickingEnds(s, e, c);
      } else {
        AwaitStays(s, e, c, Due(es, k, c), EveryMs(es, k, c));
      }
    case Ticked(_, _) => TickingEnds(s, e, c);
  }

  /** From the begin of a rebuild on, progress is bare exactly while `c` has not been armed. */
  lemma {:induction false} ProgressSince(es: seq<Event>, c: ConnectionId, j: nat, n: nat)
    requires Legal(es) && j < n <= |es| && es[j].BeginRebuild? && NoRebuildIn(es, j, n)
    ensures ProgressAt(es, c, n) == Bare <==> forall k :: j < k < n ==> !Arms(es, k, c)
    ensures ProgressAt(es, c, n) != Bare ==> j < ProgressAt(es, c, n).armed
    ensures ProgressAt(es, c, n).Ticked? ==> j < ProgressAt(es, c, n).tick
    decreases n
  {
    if n - 1 > j {
      ProgressSince(es, c, j, n - 1);
    }
  }

  /** A tick needs a timer: the connection was waiting for it. */
  lemma TickWasAwaited(es: seq<Event>, c: ConnectionId, f: nat) returns (k: nat)
    requires Legal(es) && Shutdown !in es && Ticks(es, f, c)
    ensures k < f && Arms(es, k, c) && NoRebuildIn(es, k, f) && Due(es, k, c) <= es[f].now
    ensures At(es, f).schedule.registry.platform[es[f].handle].due == Due(es, k, c)
    ensures At(es, f).schedule.registry.platform[es[f].handle].callback.intervalMs == EveryMs(es, k, c)
  {
    ProgressTracks(es, c, f);
    AtStep(es, f);
    var s := At(es, f).schedule;
    assert IsFirstTick(s.registry.platform[es[f].handle], c);
    k := ProgressAt(es, c, f).armed;
    var h :| h in s.registry.platform && IsAwaited(s.registry.platform[h], c, Due(es, k, c), EveryMs(es, k, c));
    OneFirstTick(s, c, h, es[f].handle);
  }

  /** A live first tick was armed by the latest rebuild that began, from what that rebuild read. */
  lemma FirstTickIsFromTheLatestRebuild(es: seq<Event>, h: Handle, c: ConnectionId) returns (k: nat)
    requires Legal(es) && h in Run(es).schedule.registry.platform && IsFirstTick(Run(es).schedule.registry.platform[h], c)
    ensures Arms(es, k, c) && NoRebuildIn(es, k, |es|)
    ensures IsAwaited(Run(es).schedule.registry.platform[h], c, Due(es, k, c), EveryMs(es, k, c))
  {
    var s := Run(es).schedule;
    assert es[..|es|] == es;
    RunKeepsInvariant(es);
    LiveTimerMeansNoShutdown(es);
    ProgressTracks(es, c, |es|);
    k := ProgressAt(es, c, |es|).armed;
    var g :| g in s.registry.platform && IsAwaited(s.registry.platform[g], c, Due(es, k, c), EveryMs(es, k, c));
    OneFirstTick(s, c, g, h);
  }

  /** It is due no earlier than last sync + interval, and at most a minute after the later of that and its arming. */
  lemma FirstTickIsDueInWindow(es: seq<Event>, h: Handle, c: ConnectionId) returns (k: nat)
    requires Legal(es) && h in Run(es).schedule.registry.platform && IsFirstTick(Run(es).schedule.registry.platform[h], c)
    ensures Arms(es, k, c)
    ensures var t, synced := Run(es).schedule.registry.platform[h], ReadAt(es, k, c).lastSync;
      var last := if synced == None then 0 else synced.value;
      last <= es[k].now ==>
        last + t.callback.intervalMs <= t.due <= Max(last + t.callback.intervalMs, es[k].now + 60_000)
    ensures var t := Run(es).schedule.registry.platform[h];
      && t.callback.intervalMs == IntervalMs(es[k].preferences.hours)
      && es[k].now + 60_000 <= t.due <= es[k].now + t.callback.intervalMs
  {
    k := FirstTickIsFromTheLatestRebuild(es, h, c);
  }

  lemma {:induction false} LiveTimerMeansNoShutdown(es: seq<Event>)
    requires Legal(es)
    ensures Shutdown in es ==> Run(es).shuttingDown && Run(es).schedule.registry.platform == map[]
    decreases |es|
  {
    RunKeepsInvariant(es);
    if Shutdown in es {
      var before := es[..|es| - 1];
      assert es == before + [es[|es| - 1]];
      LiveTimerMeansNoShutdown(before);
    }
  }

  // ----- The repeating timer -----

  ghost predicate FiresFor(es: seq<Event>, f: nat, c: ConnectionId)
    requires Legal(es)
  {
    && f < |es| && es[f].FireTimer?
    && var p := At(es, f).schedule.registry.platform;
    es[f].handle in p && p[es[f].handle].callback.conn == c
  }

  predicate IsRepeating(t: Timer<Callback>, c: ConnectionId) {
    t.callback.RepeatTick? && t.callback.conn == c
  }

  /** Armed at `k`, last fired at `f`: the timer repeats with the cadence read at `k`, counted from `f`. */
  ghost predicate RepeatsSince(es: seq<Event>, c: ConnectionId, t: Timer<Callback>, k: nat, f: nat, n: nat)
    requires Legal(es) && n <= |es|
  {
    && k < f < n && Arms(es, k, c) && NoRebuildIn(es, k, n) && FiresFor(es, f, c)
    && (forall j :: f < j < n ==> !FiresFor(es, j, c))
    && t.period == EveryMs(es, k, c) && t.due == es[f].now + t.period
  }

  lemma NewRepeating(s: State, e: Event, h: Handle, c: ConnectionId)
    requires Invariant(s) && Enabled(s, e) && h in Step(s, e).schedule.registry.platform
    requires IsRepeating(Step(s, e).schedule.registry.platform[h], c)
    requires !(e.FireTimer? && s.schedule.registry.platform[e.handle].callback.conn == c)
    ensures !e.BeginRebuild? && h in s.schedule.registry.platform
    ensures s.schedule.registry.platform[h] == Step(s, e).schedule.registry.platform[h]
  {
    if e.BeginRebuild? {
      ClearReleasesEverything(s.schedule);
    }
  }

  lemma FiredRepeating(s: State, e: Event, h: Handle, c: ConnectionId)
    requires Invariant(s) && Enabled(s, e) && h in Step(s, e).schedule.registry.platform
    requires IsRepeating(Step(s, e).schedule.registry.platform[h], c)
    requires e.FireTimer? && s.schedule.registry.platform[e.handle].callback.conn == c
    ensures var fired, t := s.schedule.registry.platform[e.handle], Step(s, e).schedule.registry.platform[h];
      && t.due == e.now + t.period
      && (fired.callback.FirstTick? ==> t.period == fired.callback.intervalMs)
      && (fired.callback.RepeatTick? ==> e.handle == h && t.period == fired.period)
  {
    if h in s.schedule.registry.platform {
      OneFirstTick(s.schedule, c, h, e.handle);
    }
    assert Holds(s.schedule, c, e.handle);
  }

  lemma StillRepeats(es: seq<Event>, c: ConnectionId, t: Timer<Callback>, k: nat, f: nat, n: nat)
    requires Legal(es) && n < |es| && RepeatsSince(es, c, t, k, f, n) && !es[n].BeginRebuild? && !FiresFor(es, n, c)
    ensures RepeatsSince(es, c, t, k, f, n + 1)
  {
  }

  /** The timer that the firing at `n` leaves behind, when a repeating one has fired. */
  lemma RepeatsAnew(es: seq<Event>, c: ConnectionId, h: Handle, k: nat, g: nat, n: nat)
    requires Legal(es) && n < |es| && FiresFor(es, n, c)
    requires es[n].handle == h && RepeatsSince(es, c, At(es, n).schedule.registry.platform[h], k, g, n)
    requires h in At(es, n + 1).schedule.registry.platform
    requires var t := At(es, n + 1).schedule.registry.platform[h];
      t.due == es[n].now + t.period && t.period == At(es, n).schedule.registry.platform[h].period
    ensures RepeatsSince(es, c, At(es, n + 1).schedule.registry.platform[h], k, n, n + 1)
  {
  }

  lemma QuietRepeating(es: seq<Event>, c: ConnectionId, h: Handle, n: nat)
    requires Legal(es) && n < |es| && !FiresFor(es, n, c)
    requires h in At(es, n + 1).schedule.registry.platform && IsRepeating(At(es, n + 1).schedule.registry.platform[h], c)
    ensures !es[n].BeginRebuild? && h in At(es, n).schedule.registry.platform
    ensures At(es, n).schedule.registry.platform[h] == At(es, n + 1).schedule.registry.platform[h]
  {
    AtStep(es, n);
    NewRepeating(At(es, n), es[n], h, c);
  }

  lemma FiringRepeating(es: seq<Event>, c: ConnectionId, h: Handle, n: nat)
    requires Legal(es) && n < |es| && FiresFor(es, n, c)
    requires h in At(es, n + 1).schedule.registry.platform && IsRepeating(At(es, n + 1).schedule.registry.platform[h], c)
    ensures var fired, t := At(es, n).schedule.registry.platform[es[n].handle], At(es, n + 1).schedule.registry.platform[h];
      && t.due == es[n].now + t.period
      && (fired.callback.FirstTick? ==> t.period == fired.callback.intervalMs)
      && (fired.callback.RepeatTick? ==> es[n].handle == h && t.period == fired.period)
  {
    AtStep(es, n);
    FiredRepeating(At(es, n), es[n], h, c);
  }

  /** And when the first tick has fired. */
  lemma RepeatsFirst(es: seq<Event>, c: ConnectionId, h: Handle, n: nat) returns (k: nat)
    requires Legal(es) && Shutdown !in es && n < |es| && FiresFor(es, n, c)
    requires At(es, n).schedule.registry.platform[es[n].handle].callback.FirstTick?
    requires h in At(es, n + 1).schedule.registry.platform && IsRepeating(At(es, n + 1).schedule.registry.platform[h], c)
    ensures RepeatsSince(es, c, At(es, n + 1).schedule.registry.platform[h], k, n, n + 1)
  {
    FiringRepeating(es, c, h, n);
    k := TickWasAwaited(es, c, n);
  }

  lemma {:induction false} RepeatingAt(es: seq<Event>, c: ConnectionId, h: Handle, n: nat) returns (k: nat, f: nat)
    requires Legal(es) && Shutdown !in es && n <= |es| && h in At(es, n).schedule.registry.platform
    requires IsRepeating(At(es, n).schedule.registry.platform[h], c)
    ensures RepeatsSince(es, c, At(es, n).schedule.registry.platform[h], k, f, n)
  {
    assert n > 0;
    if !FiresFor(es, n - 1, c) {
      QuietRepeating(es, c, h, n - 1);
      k, f := RepeatingAt(es, c, h, n - 1);
      StillRepeats(es, c, At(es, n - 1).schedule.registry.platform[h], k, f, n - 1);
    } else {
      f := n - 1;
      if At(es, n - 1).schedule.registry.platform[es[n - 1].handle].callback.FirstTick? {
        k := RepeatsFirst(es, c, h, n - 1);
      } else {
        FiringRepeating(es, c, h, n - 1);
        var g: nat;
        k, g := RepeatingAt(es, c, h, n - 1);
        RepeatsAnew(es, c, h, k, g, n - 1);
      }
    }
  }

  /**
   * In every run a live repeating timer fires again exactly one interval after its connection's timer
   * last fired, the interval being the one the latest rebuild read.
   */
  lemma RepeatsOnCadence(es: seq<Event>, h: Handle, c: ConnectionId) returns (k: nat, f: nat)
    requires Legal(es) && h in Run(es).schedule.registry.platform && IsRepeating(Run(es).schedule.registry.platform[h], c)
    ensures RepeatsSince(es, c, Run(es).schedule.registry.platform[h], k, f, |es|)
  {
    LiveTimerMeansNoShutdown(es);
    assert es[..|es|] == es;
    k, f := RepeatingAt(es, c, h, |es|);
  }

  // ----- Rebuilds that do not reach a connection -----

  /** A rebuild that did not reach `c` silences it: no timer and no first tick until another rebuild begins. */
  lemma UnreachedIsSilent(es: seq<Event>, c: ConnectionId, j: nat)
    requires Legal(es) && Shutdown !in es && j < |es| && es[j].BeginRebuild? && NoRebuildIn(es, j, |es|)
    ensures Silent(At(es, |es|).schedule, c) <==> !Reached(es, j, c)
    ensures !Reached(es, j, c) ==> forall f :: j < f ==> !Ticks(es, f, c)
  {
    ProgressSince(es, c, j, |es|);
    ProgressTracks(es, c, |es|);
    if Reached(es, j, c) {
      HasSomeTimer(es, c, |es|);
    } else {
      forall f | j < f
        ensures !Ticks(es, f, c)
      {
        if Ticks(es, f, c) {
          var k := TickWasAwaited(es, c, f);
        }
      }
    }
  }

  lemma {:induction false} HasSomeTimer(es: seq<Event>, c: ConnectionId, n: nat)
    requires Legal(es) && Shutdown !in es && n <= |es| && ProgressAt(es, c, n) != Bare
    ensures !Silent(At(es, n).schedule, c)
  {
    AtStep(es, n - 1);
    NotShutDown(es, n - 1);
    var s, e := At(es, n - 1), es[n - 1];
    assert e in es;
    if Arms(es, n - 1, c) {
      ArmingAwaits(s, e.preferences, e.now);
    } else {
      HasSomeTimer(es, c, n - 1);
      TimerStays(s, e, c);
    }
  }

  lemma TimerStays(s: State, e: Event, c: ConnectionId)
    requires Invariant(s) && Enabled(s, e) && !s.shuttingDown && !e.BeginRebuild? && !e.Shutdown? && !Silent(s.schedule, c)
    ensures !Silent(Step(s, e).schedule, c)
  {
    var h :| h in s.schedule.registry.platform && s.schedule.registry.platform[h].callback.conn == c;
    var p := Step(s, e).schedule.registry.platform;
    if e.FireTimer? && e.handle == h {
      TickLeavesATimer(s.schedule, h, e.now);
    } else if !e.FireTimer? {
      assert h in p && p[h] == s.schedule.registry.platform[h];
    } else {
      OtherTimerStays(s.schedule, e.handle, e.now, h);
    }
  }

  lemma OtherTimerStays(s: Schedule, fired: Handle, now: int, h: Handle)
    requires ScheduleSound(s) && fired in s.registry.platform && h in s.registry.platform && h != fired
    ensures h in Tick(s, fired, now).registry.platform && Tick(s, fired, now).registry.platform[h] == s.registry.platform[h]
  {
  }

  /** A repeating timer stays, and a first tick leaves the repeating one behind. */
  lemma TickLeavesATimer(s: Schedule, h: Handle, now: int)
    requires ScheduleSound(s) && !s.registry.stopped && h in s.registry.platform
    ensures !Silent(Tick(s, h, now), s.registry.platform[h].callback.conn)
  {
    var c, p := s.registry.platform[h].callback.conn, Tick(s, h, now).registry.platform;
    assert Holds(s, c, h);
    assert (if s.registry.platform[h].callback.FirstTick? then s.registry.next else h) in p;
  }

  // ----- The window -----

  /** A connection with its last sync, cadence and the longest time from a rebuild's begin to its arming. */
  datatype Cadence = Cadence(conn: ConnectionId, lastSync: int, intervalMs: int, latency: nat)

  /** Timers run on time: the clock never passes the due instant of a live timer. */
  ghost predicate Punctual(es: seq<Event>)
    requires Legal(es)
  {
    forall k :: 0 <= k < |es| ==> PunctualAt(es, k)
  }

  ghost predicate PunctualAt(es: seq<Event>, k: nat)
    requires Legal(es) && k < |es|
  {
    NoneOverdue(At(es, k), At(es, k + 1).clock)
  }

  ghost predicate NoneOverdue(s: State, now: int) {
    forall h :: h in s.schedule.registry.platform ==> now <= s.schedule.registry.platform[h].due
  }

  /**
   * Until the first tick each rebuild that arms the connection reads the same last sync (not in
   * the future) and cadence, within `latency` of its begin, and more than a minute before the next one.
   */
  ghost predicate Regular(es: seq<Event>, q: Cadence)
    requires Legal(es)
  {
    && (forall j, k | 0 <= j < k < |es| && es[j].BeginRebuild? && NoRebuildIn(es, j, k) && Arms(es, k, q.conn)
                      && NoTickBefore(es, j, q.conn) ::
          && LastSync(ReadAt(es, k, q.conn)) == q.lastSync <= es[k].now
          && IntervalMs(es[k].preferences.hours) == q.intervalMs
          && es[k].now - es[j].now <= q.latency)
    && (forall k, n | 0 <= k < n < |es| && Arms(es, k, q.conn) && es[n].BeginRebuild? ::
          es[n].now - es[k].now > MIN_DELAY_MS)
  }

  lemma DueIs(es: seq<Event>, q: Cadence, j: nat, k: nat)
    requires Legal(es) && Regular(es, q) && j < k < |es| && es[j].BeginRebuild? && NoRebuildIn(es, j, k)
    requires Arms(es, k, q.conn) && NoTickBefore(es, j, q.conn)
    ensures Due(es, k, q.conn) == Max(es[k].now + MIN_DELAY_MS, q.lastSync + q.intervalMs)
    ensures es[k].now <= es[j].now + q.latency
  {
  }

  lemma {:induction false} RebuildBegan(es: seq<Event>, n: nat) returns (j: nat)
    requires Legal(es) && n <= |es| && At(es, n).rebuild != NoRebuild
    ensures j < n && es[j].BeginRebuild? && NoRebuildIn(es, j, n)
  {
    AtStep(es, n - 1);
    if es[n - 1].BeginRebuild? {
      j := n - 1;
    } else {
      j := RebuildBegan(es, n - 1);
    }
  }

  lemma {:induction false} NextRebuild(es: seq<Event>, j: nat) returns (n: nat)
    requires j < |es|
    ensures j < n <= |es| && NoRebuildIn(es, j, n) && (n < |es| ==> es[n].BeginRebuild?)
  {
    n := j + 1;
    while n < |es| && !es[n].BeginRebuild?
      invariant j < n <= |es| && NoRebuildIn(es, j, n)
    {
      n := n + 1;
    }
  }

  lemma NowIsClock(es: seq<Event>, k: nat)
    requires Legal(es) && k < |es| && (es[k].BeginRebuild? || es[k].NextConnection? || es[k].FireTimer?)
    ensures At(es, k + 1).clock == es[k].now
  {
    AtStep(es, k);
  }

  lemma LaterEvent(es: seq<Event>, i: nat, k: nat)
    requires Legal(es) && i <= k < |es|
    requires es[i].BeginRebuild? || es[i].NextConnection? || es[i].FireTimer?
    requires es[k].BeginRebuild? || es[k].NextConnection? || es[k].FireTimer?
    ensures es[i].now <= es[k].now
  {
    NowIsClock(es, i);
    NowIsClock(es, k);
    ClockGrows(es, i + 1, k + 1);
  }

  /** A timer that is still awaited is not yet overdue. */
  lemma AwaitedIsNotOverdue(es: seq<Event>, c: ConnectionId, n: nat)
    requires Legal(es) && Shutdown !in es && Punctual(es) && n <= |es| && ProgressAt(es, c, n).Waiting?
    ensures Arms(es, ProgressAt(es, c, n).armed, c)
    ensures At(es, n).clock <= Due(es, ProgressAt(es, c, n).armed, c)
    ensures n < |es| ==> At(es, n + 1).clock <= Due(es, ProgressAt(es, c, n).armed, c)
  {
    var k := ProgressAt(es, c, n).armed;
    ProgressTracks(es, c, n);
    NotOverdueAfter(es, c, n, k);
    if k == n - 1 {
      NowIsClock(es, k);
    } else {
      assert ProgressAt(es, c, n - 1) == Waiting(k);
      ProgressTracks(es, c, n - 1);
      NotOverdueAfter(es, c, n - 1, k);
    }
  }

  lemma NotOverdueAfter(es: seq<Event>, c: ConnectionId, n: nat, k: nat)
    requires Legal(es) && Punctual(es) && n <= |es| && Arms(es, k, c) && Awaits(At(es, n).schedule, c, Due(es, k, c), EveryMs(es, k, c))
    ensures n < |es| ==> At(es, n + 1).clock <= Due(es, k, c)
  {
    var s := At(es, n).schedule;
    var h :| h in s.registry.platform && IsAwaited(s.registry.platform[h], c, Due(es, k, c), EveryMs(es, k, c));
    if n < |es| {
      assert PunctualAt(es, n);
    }
  }

  /** The latest rebuild that began no later than `m`. */
  ghost predicate LatestBy(es: seq<Event>, j: nat, m: int) {
    && j < |es| && es[j].BeginRebuild? && es[j].now <= m
    && forall i :: j < i < |es| && es[i].BeginRebuild? ==> es[i].now > m
  }

  /** The first tick comes from the rebuild that began at `j`, between the two instants. */
  ghost predicate TicksWithin(es: seq<Event>, c: ConnectionId, j: nat, earliest: int, latest: int)
    requires Legal(es)
  {
    exists f :: j < f && Ticks(es, f, c) && NoRebuildIn(es, j, f) && earliest <= es[f].now <= latest
  }

  ghost predicate TicksOnlyAfter(es: seq<Event>, c: ConnectionId, t: int)
    requires Legal(es)
  {
    forall f: nat :: Ticks(es, f, c) ==> es[f].now > t
  }

  ghost predicate Settled(es: seq<Event>, q: Cadence) {
    Legal(es) && Shutdown !in es && Punctual(es) && Regular(es, q)
  }

  /** The run goes on for the whole window after `m`. */
  ghost predicate Outlasts(es: seq<Event>, q: Cadence, m: int)
    requires Legal(es)
  {
    At(es, |es|).clock > m + q.latency + MIN_DELAY_MS
  }

  lemma ReachedIsArmed(es: seq<Event>, q: Cadence, j: nat, n: nat) returns (k: nat)
    requires Settled(es, q) && NoTickBefore(es, j, q.conn) && Reached(es, j, q.conn)
    requires j < n <= |es| && es[j].BeginRebuild? && NoRebuildIn(es, j, n) && (n < |es| ==> es[n].BeginRebuild?)
    ensures ProgressAt(es, q.conn, n) != Bare && k == ProgressAt(es, q.conn, n).armed
    ensures j < k < n && NoRebuildIn(es, j, k) && Arms(es, k, q.conn)
  {
    var reached :| j < reached && Arms(es, reached, q.conn) && NoRebuildIn(es, j, reached);
    assert reached < n;
    ProgressSince(es, q.conn, j, n);
    ProgressTracks(es, q.conn, n);
    k := ProgressAt(es, q.conn, n).armed;
  }

  /** The next rebuild begins, or the run ends, only after the timer armed at `k` is due. */
  lemma SegmentOutlastsDue(es: seq<Event>, q: Cadence, j: nat, k: nat, n: nat, m: int)
    requires Settled(es, q) && Outlasts(es, q, m) && q.lastSync + q.intervalMs <= m && LatestBy(es, j, m)
    requires NoTickBefore(es, j, q.conn) && j < k < n <= |es| && NoRebuildIn(es, j, n) && Arms(es, k, q.conn)
    requires n < |es| ==> es[n].BeginRebuild?
    ensures if n < |es| then Due(es, k, q.conn) < es[n].now else Due(es, k, q.conn) < At(es, n).clock
  {
    DueIs(es, q, j, k);
  }

  /** A rebuild that reached the connection is not ended by the next one before its tick. */
  lemma ReachedIsTicked(es: seq<Event>, q: Cadence, j: nat, n: nat, m: int)
    requires Settled(es, q) && Outlasts(es, q, m) && q.lastSync + q.intervalMs <= m && LatestBy(es, j, m)
    requires NoTickBefore(es, j, q.conn) && Reached(es, j, q.conn)
    requires j < n <= |es| && NoRebuildIn(es, j, n) && (n < |es| ==> es[n].BeginRebuild?)
    ensures ProgressAt(es, q.conn, n).Ticked?
  {
    var k := ReachedIsArmed(es, q, j, n);
    SegmentOutlastsDue(es, q, j, k, n, m);
    if ProgressAt(es, q.conn, n).Waiting? {
      AwaitedIsNotOverdue(es, q.conn, n);
      if n < |es| {
        NowIsClock(es, n);
      }
    }
  }

  lemma ReachedTicks(es: seq<Event>, q: Cadence, j: nat, m: int)
    requires Settled(es, q) && Outlasts(es, q, m) && q.lastSync + q.intervalMs <= m && LatestBy(es, j, m)
    requires NoTickBefore(es, j, q.conn) && Reached(es, j, q.conn)
    ensures TicksWithin(es, q.conn, j, q.lastSync + q.intervalMs, m + q.latency + MIN_DELAY_MS)
  {
    var n := NextRebuild(es, j);
    ReachedIsTicked(es, q, j, n, m);
    ProgressSince(es, q.conn, j, n);
    ProgressTracks(es, q.conn, n);
    DueIs(es, q, j, ProgressAt(es, q.conn, n).armed);
    TickOnTime(es, q.conn, ProgressAt(es, q.conn, n).tick);
  }

  /** With punctual timers a tick runs at its due instant. */
  lemma TickOnTime(es: seq<Event>, c: ConnectionId, f: nat)
    requires Legal(es) && Punctual(es) && Ticks(es, f, c)
    ensures es[f].now == At(es, f).schedule.registry.platform[es[f].handle].due
  {
    AtStep(es, f);
    NowIsClock(es, f);
    assert PunctualAt(es, f);
  }

  /**
   * Let `m` be the later of last sync + interval and the first arming, and `j` the latest rebuild
   * that began by then. Rebuild `j` brings the first tick, no earlier than last sync + interval and
   * at most a minute and a latency after `m`, if and only if it reached the connection; if it did
   * not, every tick comes later than `m` plus a minute. Rebuilds before and after do not matter.
   */
  lemma FirstTickInWindowIff(es: seq<Event>, q: Cadence, a: nat, j: nat, m: int)
    requires Settled(es, q) && Arms(es, a, q.conn) && m == Max(q.lastSync + q.intervalMs, es[a].now) && Outlasts(es, q, m)
    requires LatestBy(es, j, m) && NoTickBefore(es, j, q.conn)
    ensures Reached(es, j, q.conn) <==> TicksWithin(es, q.conn, j, q.lastSync + q.intervalMs, m + q.latency + MIN_DELAY_MS)
    ensures !Reached(es, j, q.conn) ==> TicksOnlyAfter(es, q.conn, m + MIN_DELAY_MS)
  {
    if Reached(es, j, q.conn) {
      ReachedTicks(es, q, j, m);
    } else {
      forall f: nat | Ticks(es, f, q.conn)
        ensures es[f].now > m + MIN_DELAY_MS && !NoRebuildIn(es, j, f)
      {
        UnreachedTicksLate(es, q.conn, j, m, f);
      }
    }
  }

  lemma UnreachedTicksLate(es: seq<Event>, c: ConnectionId, j: nat, m: int, f: nat)
    requires Legal(es) && Shutdown !in es && LatestBy(es, j, m) && NoTickBefore(es, j, c)
    requires Ticks(es, f, c) && !Reached(es, j, c)
    ensures es[f].now > m + MIN_DELAY_MS && !NoRebuildIn(es, j, f)
  {
    var k := TickWasAwaited(es, c, f);
    assert j < f && j < k;
    var i :| j < i < k && es[i].BeginRebuild?;
    LaterEvent(es, i, k);
  }

  lemma {:induction false} LatestRebuildBy(es: seq<Event>, m: int, b: nat, n: nat) returns (j: nat)
    requires b < n <= |es| && es[b].BeginRebuild? && es[b].now <= m
    requires forall i :: n <= i < |es| && es[i].BeginRebuild? ==> es[i].now > m
    ensures LatestBy(es, j, m) && b <= j
  {
    if es[n - 1].BeginRebuild? && es[n - 1].now <= m {
      j := n - 1;
    } else {
      j := LatestRebuildBy(es, m, b, n - 1);
    }
  }

  /** Never early: the first tick is not before last sync + interval. */
  lemma FirstTickNeverEarly(es: seq<Event>, q: Cadence, f: nat)
    requires Legal(es) && Shutdown !in es && Regular(es, q) && Ticks(es, f, q.conn) && NoTickBefore(es, f, q.conn)
    ensures q.lastSync + q.intervalMs <= es[f].now
  {
    var k := TickWasAwaited(es, q.conn, f);
    var j := RebuildBegan(es, k);
    DueIs(es, q, j, k);
  }

  lemma FirstOf(es: seq<Event>, c: ConnectionId, f: nat) returns (first: nat)
    requires Legal(es) && Ticks(es, f, c)
    ensures first <= f && Ticks(es, first, c) && NoTickBefore(es, first, c)
  {
    first := 0;
    while !Ticks(es, first, c)
      invariant first <= f && NoTickBefore(es, first, c)
      decreases f - first
    {
      first := first + 1;
    }
  }

  /**
   * However many rebuilds there are: if from the first arming on every rebuild that began before
   * the first tick reached the connection, the first tick comes in the window.
   */
  lemma FirstTickInWindow(es: seq<Event>, q: Cadence, a: nat, m: int) returns (f: nat)
    requires Settled(es, q) && Arms(es, a, q.conn) && m == Max(q.lastSync + q.intervalMs, es[a].now) && Outlasts(es, q, m)
    requires forall i | a < i < |es| && es[i].BeginRebuild? && NoTickBefore(es, i, q.conn) :: Reached(es, i, q.conn)
    ensures Ticks(es, f, q.conn) && NoTickBefore(es, f, q.conn)
    ensures q.lastSync + q.intervalMs <= es[f].now <= m + q.latency + MIN_DELAY_MS
  {
    var b := RebuildBegan(es, a);
    LaterEvent(es, b, a);
    var j := LatestRebuildBy(es, m, b, |es|);
    var g := TickBy(es, q, a, b, j, m);
    f := FirstOf(es, q.conn, g);
    LaterEvent(es, f, g);
    FirstTickNeverEarly(es, q, f);
  }

  lemma TickBy(es: seq<Event>, q: Cadence, a: nat, b: nat, j: nat, m: int) returns (g: nat)
    requires Settled(es, q) && Arms(es, a, q.conn) && m == Max(q.lastSync + q.intervalMs, es[a].now) && Outlasts(es, q, m)
    requires forall i | a < i < |es| && es[i].BeginRebuild? && NoTickBefore(es, i, q.conn) :: Reached(es, i, q.conn)
    requires b < a && es[b].BeginRebuild? && NoRebuildIn(es, b, a) && b <= j && LatestBy(es, j, m)
    ensures Ticks(es, g, q.conn) && es[g].now <= m + q.latency + MIN_DELAY_MS
  {
    if NoTickBefore(es, j, q.conn) {
      if j < a {
        assert j == b;
      }
      ReachedTicks(es, q, j, m);
      g :| j < g && Ticks(es, g, q.conn) && es[g].now <= m + q.latency + MIN_DELAY_MS;
    } else {
      g :| 0 <= g < j && Ticks(es, g, q.conn);
      LaterEvent(es, g, j);
    }
  }

  // ----- Building runs -----

  lemma Extend(es: seq<Event>, e: Event)
    requires Legal(es) && Enabled(Run(es), e)
    ensures Legal(es + [e]) && Run(es + [e]) == Step(Run(es), e)
  {
    assert (es + [e])[..|es|] == es;
  }

  lemma AtOfExtension(es: seq<Event>, e: Event, k: nat)
    requires Legal(es) && Legal(es + [e]) && k <= |es|
    ensures At(es + [e], k) == At(es, k)
  {
    assert (es + [e])[..k] == es[..k];
  }

  lemma AtEnd(es: seq<Event>)
    requires Legal(es)
    ensures At(es, |es|) == Run(es)
  {
    assert es[..|es|] == es;
  }

  lemma ExtendPunctually(es: seq<Event>, e: Event)
    requires Legal(es) && Enabled(Run(es), e) && Punctual(es) && NoneOverdue(Run(es), Step(Run(es), e).clock)
    ensures Legal(es + [e]) && Run(es + [e]) == Step(Run(es), e) && Punctual(es + [e])
  {
    Extend(es, e);
    AtEnd(es);
    AtEnd(es + [e]);
    AtOfExtension(es, e, |es|);
    StillPunctual(es, e);
  }

  lemma PunctualBefore(es: seq<Event>, e: Event, k: nat)
    requires Legal(es) && Legal(es + [e]) && k < |es| && PunctualAt(es, k)
    ensures PunctualAt(es + [e], k)
  {
    AtOfExtension(es, e, k);
    AtOfExtension(es, e, k + 1);
  }

  lemma StillPunctual(es: seq<Event>, e: Event)
    requires Legal(es) && Legal(es + [e]) && Punctual(es) && PunctualAt(es + [e], |es|)
    ensures Punctual(es + [e])
  {
    forall k | 0 <= k < |es|
      ensures PunctualAt(es + [e], k)
    {
      PunctualBefore(es, e, k);
    }
  }

  /** One whole rebuild at `t` that arms `c`. */
  function Round(c: Connection, hours: Option<int>, t: int): seq<Event> {
    [] + [RequestRebuild] + [BeginRebuild(t)] + [QueryReturned([c])] + [NextConnection(OptedIn(hours), t)] + [RebuildEnds]
  }

  /** Nothing is going on, and every live timer is due at `due`. */
  ghost predicate Quiet(s: State, due: int) {
    && s.rebuild == NoRebuild && s.queued == 0 && !s.shuttingDown
    && forall h :: h in s.schedule.registry.platform ==> s.schedule.registry.platform[h].due == due
  }

  /** A legal, punctual run that ends at `t`, quiet, with the first tick of `c` a minute away. */
  ghost predicate MinuteAway(es: seq<Event>, c: ConnectionId, hours: Option<int>, t: int) {
    && Legal(es) && Punctual(es) && Quiet(Run(es), t + MIN_DELAY_MS) && Run(es).clock == t
    && Awaits(Run(es).schedule, c, t + MIN_DELAY_MS, IntervalMs(hours))
  }

  lemma RoundBegins(es: seq<Event>, c: Connection, t: int, due: int) returns (begun: seq<Event>)
    requires Legal(es) && Punctual(es) && Quiet(Run(es), due) && Run(es).clock <= t <= due
    ensures begun == es + [RequestRebuild] + [BeginRebuild(t)] + [QueryReturned([c])]
    ensures Legal(begun) && Punctual(begun)
    ensures var s := Run(begun);
      && s.schedule.registry.platform == map[] && s.rebuild == Arming([c]) && s.queued == 0 && !s.shuttingDown && s.clock == t
  {
    ExtendPunctually(es, RequestRebuild);
    var es1 := es + [RequestRebuild];
    RunKeepsInvariant(es1);
    ExtendPunctually(es1, BeginRebuild(t));
    ClearReleasesEverything(Run(es1).schedule);
    ExtendPunctually(es1 + [BeginRebuild(t)], QueryReturned([c]));
    begun := es1 + [BeginRebuild(t)] + [QueryReturned([c])];
  }

  lemma RoundEnds(es: seq<Event>, c: Connection, hours: Option<int>, t: int)
    requires Legal(es) && Punctual(es) && LastSync(c) + IntervalMs(hours) <= t
    requires var s := Run(es);
      && s.schedule.registry.platform == map[] && s.rebuild == Arming([c]) && s.queued == 0 && !s.shuttingDown && s.clock == t
    ensures MinuteAway(es + [NextConnection(OptedIn(hours), t)] + [RebuildEnds], c.id, hours, t)
  {
    RunKeepsInvariant(es);
    ExtendPunctually(es, NextConnection(OptedIn(hours), t));
    ArmingAwaits(Run(es), OptedIn(hours), t);
    ExtendPunctually(es + [NextConnection(OptedIn(hours), t)], RebuildEnds);
  }

  lemma RoundRuns(es: seq<Event>, c: Connection, hours: Option<int>, t: int, due: int)
    requires Legal(es) && Punctual(es) && Quiet(Run(es), due) && Run(es).clock <= t <= due
    requires LastSync(c) + IntervalMs(hours) <= t
    ensures MinuteAway(es + Round(c, hours, t), c.id, hours, t)
  {
    var begun := RoundBegins(es, c, t, due);
    RoundEnds(begun, c, hours, t);
    assert es + Round(c, hours, t) == begun + [NextConnection(OptedIn(hours), t)] + [RebuildEnds];
  }

  /** A whole rebuild at each of the given times. */
  function Storm(c: Connection, hours: Option<int>, times: seq<int>): seq<Event> {
    if times == [] then []
    else Storm(c, hours, times[..|times| - 1]) + Round(c, hours, times[|times| - 1])
  }

  /**
   * The minute matters: rebuilds no further apart than that, each reaching the connection and with
   * every timer on time, postpone an overdue sync for as long as they go on.
   */
  lemma {:induction false} FrequentRebuildsStarveTheSync(c: Connection, hours: Option<int>, times: seq<int>)
    requires times != [] && 0 <= times[0] && LastSync(c) + IntervalMs(hours) <= times[0]
    requires forall i :: 0 < i < |times| ==> times[i - 1] <= times[i] <= times[i - 1] + MIN_DELAY_MS
    ensures MinuteAway(Storm(c, hours, times), c.id, hours, times[|times| - 1])
    ensures forall e :: e in Storm(c, hours, times) ==> !e.FireTimer?
    ensures times[0] <= times[|times| - 1]
    decreases |times|
  {
    var before, t := times[..|times| - 1], times[|times| - 1];
    if before == [] {
      RoundRuns([], c, hours, t, t);
    } else {
      FrequentRebuildsStarveTheSync(c, hours, before);
      RoundRuns(Storm(c, hours, before), c, hours, t, before[|before| - 1] + MIN_DELAY_MS);
    }
  }

  /** The failing run: a second rebuild clears the connection and ends before it reaches it. */
  lemma FailedRebuildEndsTheSchedule(c: Connection, hours: Option<int>, t0: int, t1: int)
    requires 0 <= t0 <= t1 <= t0 + MIN_DELAY_MS && LastSync(c) + IntervalMs(hours) <= t0
    ensures var es := Round(c, hours, t0) + [RequestRebuild] + [BeginRebuild(t1)] + [RebuildEnds];
      && Legal(es) && Punctual(es) && Run(es).rebuild == NoRebuild && Run(es).queued == 0
      && Run(es).schedule.registry.platform == map[]
  {
    var es0 := Round(c, hours, t0);
    RoundRuns([], c, hours, t0, t0);
    assert [] + es0 == es0;
    ClearingRound(es0, t1, t0 + MIN_DELAY_MS);
  }

  lemma ClearingRound(es: seq<Event>, t: int, due: int)
    requires Legal(es) && Punctual(es) && Quiet(Run(es), due) && Run(es).clock <= t <= due
    ensures var failed := es + [RequestRebuild] + [BeginRebuild(t)] + [RebuildEnds];
      && Legal(failed) && Punctual(failed) && Run(failed).rebuild == NoRebuild && Run(failed).queued == 0
      && Run(failed).schedule.registry.platform == map[]
  {
    ExtendPunctually(es, RequestRebuild);
    var es1 := es + [RequestRebuild];
    RunKeepsInvariant(es1);
    ExtendPunctually(es1, BeginRebuild(t));
    ClearReleasesEverything(Run(es1).schedule);
    ExtendPunctually(es1 + [BeginRebuild(t)], RebuildEnds);
  }
}
