/** DataEventsProvider.tsx as it is written: refs and a module-level map changed by event handlers. */
module DataEventsProviders {
  import opened Prelude
  import opened DataEvents

  class DataEventsProvider {
    var suppressedUntil: map<Entity, int>
    var pending: seq<Payload>
    var flushTimer: Option<int>
    var visible: bool
    var source: bool
    var reconnect: Option<int>
    var reconnectDelay: int
    var disposed: bool
    ghost var now: int
    ghost var log: Log

    ghost function View(): State
      reads this
    {
      State(now, suppressedUntil, pending, flushTimer, visible, source, reconnect, reconnectDelay, disposed, log)
    }

    constructor Mount(tabVisible: bool, at: int)
      ensures View() == Mounted(tabVisible, at) && Invariant(View())
    {
      suppressedUntil, pending, flushTimer := map[], [], None;
      visible, source, reconnect, reconnectDelay, disposed := tabVisible, true, None, RECONNECT_MIN_MS, false;
      now, log := at, [if tabVisible then Shown else Hidden];
      MountedIsSound(tabVisible, at);
    }

    method SuppressNextDataEvent(entity: Entity, at: int)
      requires Enabled(View(), Timed(at, Mark(entity)))
      modifies this
      ensures View() == Step(old(View()), Timed(at, Mark(entity)))
    {
      now := at;
      suppressedUntil := suppressedUntil[entity := at + SUPPRESS_ECHO_MS];
      log := log + [Marked(entity, at)];
    }

    method ClearEchoSuppression(at: int)
      requires Enabled(View(), Timed(at, ClearMarks))
      modifies this
      ensures View() == Step(old(View()), Timed(at, ClearMarks))
    {
      now := at;
      suppressedUntil := map[];
      log := log + [MarksCleared];
    }

    method IsEchoSuppressed(entity: Entity, at: int) returns (suppressed: bool)
      modifies this`suppressedUntil
      ensures suppressed <==> EchoSuppressed(old(suppressedUntil), entity, at)
      ensures suppressedUntil == Purge(old(suppressedUntil), entity, at)
    {
      if entity !in suppressedUntil {
        return false;
      }
      if at >= suppressedUntil[entity] {
        suppressedUntil := suppressedUntil - {entity};
        return false;
      }
      return true;
    }

    method FlushPending(at: int)
      requires at == now
      modifies this`flushTimer, this`pending, this`suppressedUntil, this`log
      ensures View() == Flush(old(View()))
    {
      flushTimer := None;
      if !visible {
        return;
      }
      var taken := pending;
      pending := [];
      log := log + [Flushed(at)];
      DispatchAll(taken, at);
    }

    /** The loop of the flush: recheck each entity, then dispatch its payload. */
    method DispatchAll(taken: seq<Payload>, at: int)
      modifies this`suppressedUntil, this`log
      ensures (suppressedUntil, log) == (Drain(taken, old(suppressedUntil), at).0, old(log) + Drain(taken, old(suppressedUntil), at).1)
    {
      var i := 0;
      while i < |taken|
        modifies this`suppressedUntil, this`log
        invariant 0 <= i <= |taken|
        invariant Drain(taken, old(suppressedUntil), at).0 == Drain(taken[i..], suppressedUntil, at).0
        invariant old(log) + Drain(taken, old(suppressedUntil), at).1 == log + Drain(taken[i..], suppressedUntil, at).1
      {
        var payload := taken[i];
        assert taken[i..][0] == payload && taken[i..][1..] == taken[i + 1..];
        var echo := IsEchoSuppressed(payload.entity, at);
        log := log + [if echo then Skipped(payload, at) else Dispatched(payload, at)];
        i := i + 1;
      }
      assert taken[i..] == [] && log + [] == log;
    }

    /** The flush timeout fires. */
    method FlushTimerFires(at: int)
      requires Enabled(View(), Timed(at, FlushTimer))
      modifies this
      ensures View() == Step(old(View()), Timed(at, FlushTimer))
    {
      now := at;
      FlushPending(at);
    }

    /** The data-change listener; None is a frame that does not parse or names no entity. */
    method OnDataChange(frame: Option<Payload>, at: int)
      requires Enabled(View(), Timed(at, Arrive(frame)))
      modifies this
      ensures View() == Step(old(View()), Timed(at, Arrive(frame)))
    {
      now := at;
      if frame == None {
        return;
      }
      var payload := frame.value;
      var echo := IsEchoSuppressed(payload.entity, at);
      if echo {
        log := log + [Ignored(payload, at)];
        return;
      }
      SetPending(payload);
      log := log + [Accepted(payload, at)];
      if visible && flushTimer == None {
        flushTimer := Some(at + DEBOUNCE_MS);
      }
    }

    /** Map.set on the pending map. */
    method SetPending(payload: Payload)
      modifies this`pending
      ensures pending == Put(old(pending), payload)
    {
      var i := 0;
      while i < |pending| && pending[i].entity != payload.entity
        invariant 0 <= i <= |pending|
        invariant Put(pending, payload) == pending[..i] + Put(pending[i..], payload)
      {
        assert pending[i..][1..] == pending[i + 1..] && pending[..i + 1] == pending[..i] + [pending[i]];
        i := i + 1;
      }
      if i < |pending| {
        assert pending[i..][1..] == pending[i + 1..];
        pending := pending[..i] + [payload] + pending[i + 1..];
      } else {
        pending := pending + [payload];
      }
    }

    method OnConnected(at: int)
      requires Enabled(View(), Timed(at, Connected))
      modifies this
      ensures View() == Step(old(View()), Timed(at, Connected))
    {
      now := at;
      reconnectDelay := RECONNECT_MIN_MS;
    }

    method OnError(at: int)
      requires Invariant(View()) && Enabled(View(), Timed(at, StreamError))
      modifies this
      ensures View() == Step(old(View()), Timed(at, StreamError))
    {
      now := at;
      source := false;
      var delay := reconnectDelay;
      reconnectDelay := Min(delay * 2, RECONNECT_MAX_MS);
      reconnect := Some(at + delay);
    }

    /** The reconnect timeout runs `connect`, which does nothing once disposed or already open. */
    method ReconnectFires(at: int)
      requires Invariant(View()) && Enabled(View(), Timed(at, ReconnectTimer))
      modifies this
      ensures View() == Step(old(View()), Timed(at, ReconnectTimer))
    {
      now := at;
      reconnect := None;
      if disposed || source {
        return;
      }
      source := true;
    }

    method OnVisibilityChange(nowVisible: bool, at: int)
      requires Enabled(View(), Timed(at, Visibility(nowVisible)))
      modifies this
      ensures View() == Step(old(View()), Timed(at, Visibility(nowVisible)))
    {
      now := at;
      visible := nowVisible;
      log := log + [if nowVisible then Shown else Hidden];
      if disposed || !visible || |pending| == 0 {
        return;
      }
      flushTimer := None;
      FlushPending(at);
    }

    method Cleanup(at: int)
      requires Enabled(View(), Timed(at, Unmount))
      modifies this
      ensures View() == Step(old(View()), Timed(at, Unmount))
    {
      now := at;
      disposed := true;
      source := false;
      reconnect := None;
      flushTimer := None;
    }
  }
}
