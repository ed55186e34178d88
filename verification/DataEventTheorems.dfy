/** What the data-change bus guarantees over any run of marks, frames, timers, tab switches and stream failures. */
module DataEventTheorems {
  import opened Prelude
  import opened DataEvents

  predicate Legal(start: State, es: seq<Timed>)
    decreases |es|, 0
  {
    es == [] || (Legal(start, es[..|es| - 1]) && Enabled(Run(start, es[..|es| - 1]), es[|es| - 1]))
  }

  function Run(start: State, es: seq<Timed>): State
    requires Legal(start, es)
    decreases |es|, 1
  {
    if es == [] then start else Step(Run(start, es[..|es| - 1]), es[|es| - 1])
  }

  lemma {:induction false} RunKeepsInvariant(visible: bool, t0: int, es: seq<Timed>)
    requires Legal(Mounted(visible, t0), es)
    ensures Invariant(Run(Mounted(visible, t0), es))
    decreases |es|
  {
    if es == [] {
      MountedIsSound(visible, t0);
    } else {
      RunKeepsInvariant(visible, t0, es[..|es| - 1]);
      StepKeepsInvariant(Run(Mounted(visible, t0), es[..|es| - 1]), es[|es| - 1]);
    }
  }

  // ----- Nothing is lost but echoes -----

  predicate AboutPending(x: Entry, e: Entity) {
    Accepts(x, e) || Settles(x, e)
  }

  /** Position `k` is where `q`, the payload of `e` still owed at the end of `log`, was accepted. */
  ghost predicate Source(log: Log, e: Entity, k: int, q: Payload) {
    && 0 <= k < |log| && Accepts(log[k], e) && log[k].payload == q
    && forall m :: k < m < |log| ==> !AboutPending(log[m], e)
  }

  lemma {:induction false} UnsettledHasSource(log: Log, e: Entity) returns (k: int)
    requires Unsettled(log, e).Some?
    ensures Source(log, e, k, Unsettled(log, e).value)
    decreases |log|
  {
    var n := |log| - 1;
    if Accepts(log[n], e) {
      k := n;
    } else {
      k := UnsettledHasSource(log[..n], e);
    }
  }

  /**
   * Each window dispatch carries the newest accepted payload of its entity, sent to a visible
   * tab outside the echo window, and no payload is dispatched twice: since that payload was
   * accepted nothing of its entity had been accepted, dispatched or skipped.
   */
  lemma DispatchIsNewest(visible: bool, t0: int, es: seq<Timed>, j: int) returns (k: int)
    requires Legal(Mounted(visible, t0), es)
    requires 0 <= j < |Run(Mounted(visible, t0), es).log| && Run(Mounted(visible, t0), es).log[j].Dispatched?
    ensures var log := Run(Mounted(visible, t0), es).log;
      var p := log[j].payload;
      && Source(log[..j], p.entity, k, p)
      && VisibleAt(log[..j]) && !InEchoWindow(log[..j], p.entity, log[j].at)
  {
    RunKeepsInvariant(visible, t0, es);
    var log := Run(Mounted(visible, t0), es).log;
    assert EntryJustified(log[..j], log[j]);
    k := UnsettledHasSource(log[..j], log[j].payload.entity);
  }

  lemma {:induction false} FlushStart(log: Log) returns (f: int)
    requires FlushRunning(log)
    ensures 0 <= f < |log| && log[f].Flushed? && forall m :: f < m < |log| ==> log[m].Dispatched? || log[m].Skipped?
    decreases |log|
  {
    f := |log| - 1;
    if !log[f].Flushed? {
      f := FlushStart(log[..f]);
    }
  }

  lemma DispatchFollowsFlush(log: Log, i: int, j: int, k: int) returns (f: int)
    requires 0 <= i < j < |log| && log[i].Dispatched? && log[j].Dispatched?
    requires log[i].payload.entity == log[j].payload.entity && FlushRunning(log[..j])
    requires Source(log[..j], log[j].payload.entity, k, log[j].payload)
    ensures i < k < f < j && log[k].Accepted? && log[k].payload == log[j].payload && log[f].Flushed?
  {
    assert log[..j][i] == log[i] && log[..j][k] == log[k];
    f := FlushStart(log[..j]);
    assert log[..j][f] == log[f];
  }

  lemma DispatchedInFlush(visible: bool, t0: int, es: seq<Timed>, j: int)
    requires Legal(Mounted(visible, t0), es)
    requires 0 <= j < |Run(Mounted(visible, t0), es).log| && Run(Mounted(visible, t0), es).log[j].Dispatched?
    ensures FlushRunning(Run(Mounted(visible, t0), es).log[..j])
  {
    RunKeepsInvariant(visible, t0, es);
    var log := Run(Mounted(visible, t0), es).log;
    assert EntryJustified(log[..j], log[j]);
  }

  /**
   * Dispatches of one entity are a subsequence of what was accepted, one per flush at most:
   * between two of them lie the later one's own acceptance and then the start of its flush.
   */
  lemma OneDispatchPerFlush(visible: bool, t0: int, es: seq<Timed>, i: int, j: int) returns (k: int, f: int)
    requires Legal(Mounted(visible, t0), es)
    requires 0 <= i < j < |Run(Mounted(visible, t0), es).log|
    requires var log := Run(Mounted(visible, t0), es).log;
      log[i].Dispatched? && log[j].Dispatched? && log[i].payload.entity == log[j].payload.entity
    ensures var log := Run(Mounted(visible, t0), es).log;
      && i < k < f < j
      && log[k].Accepted? && log[k].payload == log[j].payload && log[f].Flushed?
  {
    k := DispatchIsNewest(visible, t0, es, j);
    DispatchedInFlush(visible, t0, es, j);
    f := DispatchFollowsFlush(Run(Mounted(visible, t0), es).log, i, j, k);
  }

  /** Settled by `j` with payload `q`, accepted at `k`, at or after position `i`. */
  ghost predicate AnsweredBy(log: Log, i: int, k: int, j: int) {
    && 0 <= i <= k < j < |log|
    && log[i].Accepted? && log[k].Accepted? && (log[j].Dispatched? || log[j].Skipped?)
    && log[k].payload == log[j].payload && log[k].payload.entity == log[i].payload.entity
  }

  lemma {:induction false} AcceptedIsOwedOrSettled(log: Log, i: int)
    requires Justified(log) && 0 <= i < |log| && log[i].Accepted?
    ensures Unsettled(log, log[i].payload.entity).Some? || exists k, j :: AnsweredBy(log, i, k, j)
    decreases |log|
  {
    var e, n := log[i].payload.entity, |log| - 1;
    var before := log[..n];
    if i < n && !Accepts(log[n], e) {
      forall m | 0 <= m < |before|
        ensures EntryJustified(before[..m], before[m])
      {
        assert before[..m] == log[..m];
        assert EntryJustified(log[..m], log[m]);
      }
      AcceptedIsOwedOrSettled(before, i);
      if exists k, j :: AnsweredBy(before, i, k, j) {
        var k, j :| AnsweredBy(before, i, k, j);
        assert AnsweredBy(log, i, k, j);
      } else if Settles(log[n], e) {
        assert EntryJustified(log[..n], log[n]);
        var k := UnsettledHasSource(before, e);
        assert before[i].Accepted? && Accepts(before[i], e);
        assert AnsweredBy(log, i, k, n);
      }
    }
  }

  /**
   * Every frame that was accepted is, once nothing of its entity is pending, answered by a flush
   * that took that payload or a newer one; the flush dispatched it unless the latest mark's echo
   * window was open. A frame is ignored on arrival exactly when such a window was open then.
   */
  lemma EveryFrameAnswered(visible: bool, t0: int, es: seq<Timed>, i: int)
    requires Legal(Mounted(visible, t0), es)
    requires var s := Run(Mounted(visible, t0), es);
      0 <= i < |s.log| && (s.log[i].Accepted? || s.log[i].Ignored?)
    ensures var s := Run(Mounted(visible, t0), es);
      var p := s.log[i].payload;
      && (s.log[i].Ignored? <==> InEchoWindow(s.log[..i], p.entity, s.log[i].at))
      && (s.log[i].Accepted? && Lookup(s.pending, p.entity) == None ==>
            exists k, j :: AnsweredBy(s.log, i, k, j)
              && (s.log[j].Skipped? <==> InEchoWindow(s.log[..j], p.entity, s.log[j].at)))
  {
    RunKeepsInvariant(visible, t0, es);
    var s := Run(Mounted(visible, t0), es);
    assert EntryJustified(s.log[..i], s.log[i]);
    if s.log[i].Accepted? && Lookup(s.pending, s.log[i].payload.entity) == None {
      AcceptedIsOwedOrSettled(s.log, i);
      var k, j :| AnsweredBy(s.log, i, k, j);
      assert EntryJustified(s.log[..j], s.log[j]);
    }
  }

  /** The purged map and the whole history of marks give the same verdict at every instant from now on. */
  lemma SuppressionMatchesHistory(visible: bool, t0: int, es: seq<Timed>, e: Entity, at: int)
    requires Legal(Mounted(visible, t0), es) && Run(Mounted(visible, t0), es).now <= at
    ensures var s := Run(Mounted(visible, t0), es);
      EchoSuppressed(s.suppressedUntil, e, at) <==> InEchoWindow(s.log, e, at)
  {
    RunKeepsInvariant(visible, t0, es);
  }

  // ----- Timeliness -----

  /**
   * A visible tab with something pending has its flush timer armed, and an armed flush is due half a
   * second after the oldest waiting acceptance, no sooner and no later; showing the tab drains
   * everything in one flush.
   */
  lemma PendingIsFlushedInTime(visible: bool, t0: int, es: seq<Timed>)
    requires Legal(Mounted(visible, t0), es)
    ensures var s := Run(Mounted(visible, t0), es);
      && (s.pending != [] ==> OldestWaiting(s.log).Some?)
      && (s.flushDue.Some? ==> OldestWaiting(s.log).Some? && s.flushDue.value == OldestWaiting(s.log).value + 500)
      && (s.visible && !s.disposed && s.pending != [] ==> s.flushDue.Some?)
      && (!s.disposed ==> forall at :: s.now <= at ==> Step(s, Timed(at, Visibility(true))).pending == [])
  {
    RunKeepsInvariant(visible, t0, es);
    var s := Run(Mounted(visible, t0), es);
    forall at | s.now <= at && !s.disposed
      ensures Step(s, Timed(at, Visibility(true))).pending == []
    {
      VisibilityKeepsInvariant(s.(now := at), true);
    }
  }

  /** A flush begins when the tab is shown, or when the oldest waiting event is half a second old. */
  lemma FlushIsDebounced(visible: bool, t0: int, es: seq<Timed>, f: int)
    requires Legal(Mounted(visible, t0), es)
    requires 0 <= f < |Run(Mounted(visible, t0), es).log| && Run(Mounted(visible, t0), es).log[f].Flushed?
    ensures var log := Run(Mounted(visible, t0), es).log;
      || (f > 0 && log[f - 1].Shown?)
      || (OldestWaiting(log[..f]).Some? && OldestWaiting(log[..f]).value + 500 <= log[f].at)
  {
    RunKeepsInvariant(visible, t0, es);
    var log := Run(Mounted(visible, t0), es).log;
    assert EntryJustified(log[..f], log[f]);
  }

  // ----- Coalescing -----

  predicate HasInstant(x: Entry) {
    x.Marked? || x.Ignored? || x.Accepted? || x.Flushed? || x.Dispatched? || x.Skipped?
  }

  /** The instants in the log never go back, and none lies ahead. */
  ghost predicate InOrder(log: Log, now: int) {
    && (forall i, j :: 0 <= i < j < |log| && HasInstant(log[i]) && HasInstant(log[j]) ==> log[i].at <= log[j].at)
    && (forall i :: 0 <= i < |log| && HasInstant(log[i]) ==> log[i].at <= now)
  }

  /** Every entry added is of this instant. */
  ghost predicate OfNow(entries: Log, now: int) {
    forall i :: 0 <= i < |entries| && HasInstant(entries[i]) ==> entries[i].at == now
  }

  lemma OrderGrows(log: Log, entries: Log, before: int, now: int)
    requires InOrder(log, before) && before <= now && OfNow(entries, now)
    ensures InOrder(log + entries, now)
  {
  }

  lemma {:induction false} DrainIsOfNow(pending: seq<Payload>, until: map<Entity, int>, now: int)
    ensures OfNow(Drain(pending, until, now).1, now)
  {
    if pending != [] {
      DrainIsOfNow(pending[1..], Purge(until, pending[0].entity, now), now);
    }
  }

  /** What one step adds to the log. */
  lemma StepAdds(s: State, e: Timed) returns (entries: Log)
    requires Enabled(s, e)
    ensures Step(s, e).log == s.log + entries && OfNow(entries, e.at) && Step(s, e).now == e.at
  {
    var until := s.suppressedUntil;
    var drained := Drain(s.pending, until, e.at).1;
    DrainIsOfNow(s.pending, until, e.at);
    match e.event
    case Mark(entity) => entries := [Marked(entity, e.at)];
    case ClearMarks => entries := [MarksCleared];
    case Arrive(frame) =>
      entries := if frame == None then []
                 else if EchoSuppressed(until, frame.value.entity, e.at) then [Ignored(frame.value, e.at)]
                 else [Accepted(frame.value, e.at)];
    case FlushTimer => entries := if s.visible then [Flushed(e.at)] + drained else [];
    case Visibility(visible) =>
      entries := [if visible then Shown else Hidden]
                 + (if s.disposed || !visible || s.pending == [] then [] else [Flushed(e.at)] + drained);
    case _ => entries := [];
  }

  lemma {:induction false} LogIsInOrder(visible: bool, t0: int, es: seq<Timed>)
    requires Legal(Mounted(visible, t0), es)
    ensures InOrder(Run(Mounted(visible, t0), es).log, Run(Mounted(visible, t0), es).now)
    decreases |es|
  {
    if es != [] {
      var s := Run(Mounted(visible, t0), es[..|es| - 1]);
      LogIsInOrder(visible, t0, es[..|es| - 1]);
      var entries := StepAdds(s, es[|es| - 1]);
      OrderGrows(s.log, entries, s.now, es[|es| - 1].at);
    }
  }

  /** From its acceptance to the next flush the first waiting event stays the oldest one. */
  lemma {:induction false} OldestStays(log: Log, i: int, n: int)
    requires 0 <= i < n <= |log| && log[i].Accepted? && OldestWaiting(log[..i]) == None
    requires forall m :: i < m < n ==> !log[m].Flushed?
    ensures OldestWaiting(log[..n]) == Some(log[i].at)
    decreases n
  {
    assert log[..n][..n - 1] == log[..n - 1];
    if i < n - 1 {
      OldestStays(log, i, n - 1);
    }
  }

  /** No flush begins within half a second of the first waiting event, unless the tab is shown anew. */
  lemma NoEarlyFlush(visible: bool, t0: int, es: seq<Timed>, i: int, f: int)
    requires Legal(Mounted(visible, t0), es)
    requires var log := Run(Mounted(visible, t0), es).log;
      && 0 <= i < f < |log| && log[i].Accepted? && OldestWaiting(log[..i]) == None && log[f].Flushed?
      && forall m :: i < m < f ==> !log[m].Shown? && !log[m].Flushed?
    ensures Run(Mounted(visible, t0), es).log[i].at + 500 <= Run(Mounted(visible, t0), es).log[f].at
  {
    FlushIsDebounced(visible, t0, es, f);
    OldestStays(Run(Mounted(visible, t0), es).log, i, f);
  }

  lemma NoFlushBetween(visible: bool, t0: int, es: seq<Timed>, i: int, j: int, f: int)
    requires Legal(Mounted(visible, t0), es)
    requires var log := Run(Mounted(visible, t0), es).log;
      && 0 <= i < f < j < |log| && log[i].Accepted? && OldestWaiting(log[..i]) == None && log[f].Flushed?
      && log[j].Accepted? && forall m :: i < m < j ==> !log[m].Shown?
    ensures Run(Mounted(visible, t0), es).log[i].at + 500 <= Run(Mounted(visible, t0), es).log[j].at
    decreases f
  {
    var log := Run(Mounted(visible, t0), es).log;
    if exists m :: i < m < f && log[m].Flushed? {
      var m :| i < m < f && log[m].Flushed?;
      NoFlushBetween(visible, t0, es, i, j, m);
    } else {
      NoEarlyFlush(visible, t0, es, i, f);
      LogIsInOrder(visible, t0, es);
    }
  }

  /** Two frames of one entity with no flush between them: what is dispatched afterwards came with the newer one or later. */
  lemma UnflushedFramesCoalesce(visible: bool, t0: int, es: seq<Timed>, i: int, j: int, d: int) returns (k: int)
    requires Legal(Mounted(visible, t0), es)
    requires var log := Run(Mounted(visible, t0), es).log;
      && 0 <= i < j < |log| && log[i].Accepted? && log[j].Accepted? && log[i].payload.entity == log[j].payload.entity
      && forall m :: i < m < j ==> !log[m].Flushed?
    requires var log := Run(Mounted(visible, t0), es).log;
      i < d < |log| && log[d].Dispatched? && log[d].payload.entity == log[i].payload.entity
    ensures var log := Run(Mounted(visible, t0), es).log;
      j <= k < d && log[k].Accepted? && log[k].payload == log[d].payload
  {
    var log := Run(Mounted(visible, t0), es).log;
    if d < j {
      DispatchedInFlush(visible, t0, es, d);
      var f := FlushStart(log[..d]);
      FlushAfterFirst(log, i, f, d, i);
      assert false;
    }
    k := DispatchIsNewest(visible, t0, es, d);
    assert log[..d][k] == log[k] && Accepts(log[..d][j], log[d].payload.entity);
  }

  /**
   * Coalescing: frames of one entity that arrive within half a second of the first waiting event, in
   * a tab that is not shown anew in between, give at most one dispatch, and it is not the older one's:
   * whatever is dispatched afterwards was accepted with the newer frame or later.
   */
  lemma FramesCoalesce(visible: bool, t0: int, es: seq<Timed>, first: int, i: int, j: int, d: int) returns (k: int)
    requires Legal(Mounted(visible, t0), es)
    requires var log := Run(Mounted(visible, t0), es).log;
      && 0 <= first <= i < j < |log| && log[first].Accepted? && OldestWaiting(log[..first]) == None
      && log[i].Accepted? && log[j].Accepted? && log[i].payload.entity == log[j].payload.entity
      && log[j].at < log[first].at + 500 && forall m :: first < m < j ==> !log[m].Shown?
    requires var log := Run(Mounted(visible, t0), es).log;
      i < d < |log| && log[d].Dispatched? && log[d].payload.entity == log[i].payload.entity
    ensures var log := Run(Mounted(visible, t0), es).log;
      j <= k < d && log[k].Accepted? && log[k].payload == log[d].payload
  {
    var log := Run(Mounted(visible, t0), es).log;
    if exists m :: i < m < j && log[m].Flushed? {
      var m :| i < m < j && log[m].Flushed?;
      NoFlushBetween(visible, t0, es, first, j, m);
      assert false;
    }
    k := UnflushedFramesCoalesce(visible, t0, es, i, j, d);
  }

  /** A flush still running at `d` began after every acceptance before `d`. */
  lemma FlushAfterFirst(log: Log, first: int, f: int, d: int, i: int)
    requires 0 <= first <= i < d < |log| && 0 <= f < d && log[i].Accepted?
    requires forall m :: f < m < d ==> log[..d][m].Dispatched? || log[..d][m].Skipped?
    requires log[..d][f].Flushed?
    ensures first < f && log[f].Flushed?
  {
    assert log[..d][i] == log[i] && log[..d][f] == log[f];
  }

  // ----- The stream -----

  function Pow2(k: nat): nat {
    if k == 0 then 1 else 2 * Pow2(k - 1)
  }

  /** Consecutive stream failures: since the last `connected`, or since mounting. */
  function Failures(es: seq<Timed>): nat
    decreases |es|
  {
    if es == [] then 0
    else
      match es[|es| - 1].event
      case Connected => 0
      case StreamError => Failures(es[..|es| - 1]) + 1
      case _ => Failures(es[..|es| - 1])
  }

  lemma DelayAfter(s: State, e: Timed)
    requires Enabled(s, e)
    ensures Step(s, e).reconnectDelay ==
      match e.event
      case Connected => RECONNECT_MIN_MS
      case StreamError => Min(s.reconnectDelay * 2, RECONNECT_MAX_MS)
      case _ => s.reconnectDelay
  {
  }

  lemma {:induction false} DelayDoubles(start: State, es: seq<Timed>)
    requires start.reconnectDelay == RECONNECT_MIN_MS && Legal(start, es)
    ensures Run(start, es).reconnectDelay == Min(RECONNECT_MIN_MS * Pow2(Failures(es)), RECONNECT_MAX_MS)
    decreases |es|
  {
    if es != [] {
      DelayDoubles(start, es[..|es| - 1]);
      DelayAfter(Run(start, es[..|es| - 1]), es[|es| - 1]);
    }
  }

  /** The k-th consecutive failure (from 0) waits min(5000 * 2^k, 60000) ms before reconnecting. */
  lemma BackoffOfKthFailure(visible: bool, t0: int, es: seq<Timed>, at: int)
    requires Legal(Mounted(visible, t0), es) && Enabled(Run(Mounted(visible, t0), es), Timed(at, StreamError))
    ensures Step(Run(Mounted(visible, t0), es), Timed(at, StreamError)).reconnectDue
         == Some(at + Min(5_000 * Pow2(Failures(es)), 60_000))
  {
    DelayDoubles(Mounted(visible, t0), es);
  }

  lemma DisposedAfter(s: State, e: Timed)
    requires Enabled(s, e)
    ensures Step(s, e).disposed <==> s.disposed || e.event == Unmount
  {
  }

  lemma {:induction false} DisposedIsUnmounted(start: State, es: seq<Timed>)
    requires Legal(start, es) && !start.disposed
    ensures Run(start, es).disposed <==> exists e :: e in es && e.event == Unmount
    decreases |es|
  {
    if es != [] {
      var before, last := es[..|es| - 1], es[|es| - 1];
      assert forall e :: e in es <==> e in before || e == last;
      DisposedIsUnmounted(start, before);
      DisposedAfter(Run(start, before), last);
    }
  }

  /** Until unmount exactly one of "stream open" and "reconnect armed" holds; after it neither, nor a flush timer. */
  lemma {:induction false} StreamXorReconnect(visible: bool, t0: int, es: seq<Timed>)
    requires Legal(Mounted(visible, t0), es)
    ensures var s := Run(Mounted(visible, t0), es);
      if exists e :: e in es && e.event == Unmount then !s.streamOpen && s.reconnectDue == None && s.flushDue == None
      else s.streamOpen != s.reconnectDue.Some?
  {
    RunKeepsInvariant(visible, t0, es);
    DisposedIsUnmounted(Mounted(visible, t0), es);
  }
}
