/** The offset-paged transaction list of AccountLedger.tsx, against a server list that may move under it. */
module Paging {
  import opened Prelude

  const PAGE_ROWS := 100

  type Guid = string

  /** `rows` are the loaded transactions, by guid. */
  datatype Client = Client(rows: seq<Guid>, offset: nat, hasMore: bool, loading: bool)

  /** ORDER BY a total order, LIMIT, OFFSET. */
  function Page(server: seq<Guid>, offset: nat): seq<Guid> {
    if offset >= |server| then [] else server[offset..Min(offset + PAGE_ROWS, |server|)]
  }

  /** fetchTransactions once its response is in: the first page replaces everything. */
  function Reset(c: Client, response: Option<seq<Guid>>): Client {
    match response
    case None => c
    case Some(data) => c.(rows := data, offset := |data|, hasMore := |data| >= PAGE_ROWS)
  }

  function Fresh(data: seq<Guid>, rows: seq<Guid>): seq<Guid> {
    if data == [] then []
    else (if data[0] in rows then [] else [data[0]]) + Fresh(data[1..], rows)
  }

  /** fetchMoreTransactions once its response is in. */
  function Extend(c: Client, response: Option<seq<Guid>>): Client {
    match response
    case None => c.(loading := false)
    case Some(data) =>
      Client(c.rows + Fresh(data, c.rows), c.offset + |data|, c.hasMore && |data| >= PAGE_ROWS, false)
  }

  /** The page request in flight: sent with the offset of that moment, then answered by the server. */
  datatype Request = Idle | Asked(offset: nat) | Answered(page: seq<Guid>)

  datatype State = State(client: Client, server: seq<Guid>, request: Request)

  datatype Event = Begin | Serve | Arrive | Fail | Reload | Insert(guid: Guid) | Delete(index: nat)

  predicate Enabled(s: State, e: Event) {
    match e
    case Begin => true
    case Serve => s.request.Asked?
    case Arrive => s.request.Answered?
    case Fail => !s.request.Idle?
    case Reload => true
    case Insert(guid) => guid !in s.server
    case Delete(index) => index < |s.server|
  }

  function Step(s: State, e: Event): State
    requires Enabled(s, e)
  {
    match e
    case Begin =>
      if s.client.loading || !s.client.hasMore then s
      else s.(client := s.client.(loading := true), request := Asked(s.client.offset))
    case Serve => s.(request := Answered(Page(s.server, s.request.offset)))
    case Arrive => s.(client := Extend(s.client, Some(s.request.page)), request := Idle)
    case Fail => s.(client := Extend(s.client, None), request := Idle)
    case Reload => s.(client := Reset(s.client, Some(Page(s.server, 0))))
    case Insert(guid) => s.(server := [guid] + s.server)
    case Delete(index) => s.(server := s.server[..index] + s.server[index + 1..])
  }

  ghost predicate Legal(s: State, events: seq<Event>)
    decreases |events|
  {
    events == [] || (Enabled(s, events[0]) && Legal(Step(s, events[0]), events[1..]))
  }

  ghost function Run(s: State, events: seq<Event>): State
    requires Legal(s, events)
    decreases |events|
  {
    if events == [] then s else Run(Step(s, events[0]), events[1..])
  }

  /** Right after a reset load of `list`. */
  function Start(list: seq<Guid>): State {
    var first := Page(list, 0);
    State(Client(first, |first|, |first| >= PAGE_ROWS, false), list, Idle)
  }

  // ----- What one page adds -----

  lemma {:induction false} FreshAppend(a: seq<Guid>, b: seq<Guid>, rows: seq<Guid>)
    ensures Fresh(a + b, rows) == Fresh(a, rows) + Fresh(b, rows)
  {
    if a == [] {
      assert a + b == b;
    } else {
      assert (a + b)[1..] == a[1..] + b;
      FreshAppend(a[1..], b, rows);
    }
  }

  lemma {:induction false} FreshOfKnown(data: seq<Guid>, rows: seq<Guid>)
    requires forall i :: 0 <= i < |data| ==> data[i] in rows
    ensures Fresh(data, rows) == []
  {
    if data != [] {
      FreshOfKnown(data[1..], rows);
    }
  }

  lemma {:induction false} FreshOfUnknown(data: seq<Guid>, rows: seq<Guid>)
    requires forall i :: 0 <= i < |data| ==> data[i] !in rows
    ensures Fresh(data, rows) == data
  {
    if data != [] {
      FreshOfUnknown(data[1..], rows);
    }
  }

  lemma {:induction false} FreshMembers(data: seq<Guid>, rows: seq<Guid>, x: Guid)
    ensures x in Fresh(data, rows) <==> x in data && x !in rows
  {
    if data != [] {
      FreshMembers(data[1..], rows, x);
      assert data == [data[0]] + data[1..];
    }
  }

  /** The rows from `a` to `b` that the first `m` do not hold are those from `m` on. */
  lemma FreshSlice(list: seq<Guid>, m: nat, a: nat, b: nat)
    requires Distinct(list) && a <= m <= |list| && a <= b <= |list|
    ensures Fresh(list[a..b], list[..m]) == if b <= m then [] else list[m..b]
  {
    var mid := Min(b, m);
    assert list[a..b] == list[a..mid] + list[mid..b];
    FreshAppend(list[a..mid], list[mid..b], list[..m]);
    forall i | 0 <= i < mid - a
      ensures list[a..mid][i] in list[..m]
    {
      assert list[a..mid][i] == list[..m][a + i];
    }
    FreshOfKnown(list[a..mid], list[..m]);
    FreshOfUnknown(list[mid..b], list[..m]);
  }

  lemma PageIsSlice(list: seq<Guid>, from: nat) returns (to: nat)
    requires from <= |list|
    ensures from <= to <= |list| && Page(list, from) == list[from..to]
    ensures to == |list| || to == from + PAGE_ROWS
  {
    to := Min(from + PAGE_ROWS, |list|);
  }

  lemma TakePlusSlice(list: seq<Guid>, m: nat, to: nat)
    requires m <= to <= |list|
    ensures list[..m] + list[m..to] == list[..to]
  {
  }

  /** A page that overlaps the loaded prefix, or touches it, only extends the prefix. */
  lemma OverlapExtendsPrefix(list: seq<Guid>, m: nat, from: nat) returns (to: nat)
    requires Distinct(list) && from <= m <= |list|
    ensures to == from + |Page(list, from)| && (to == |list| || to == from + PAGE_ROWS) && to <= |list|
    ensures list[..m] + Fresh(Page(list, from), list[..m]) == list[..Max(m, to)]
  {
    to := PageIsSlice(list, from);
    FreshSlice(list, m, from, to);
    if m < to {
      TakePlusSlice(list, m, to);
    }
  }

  // ----- One request at a time -----

  lemma {:induction false} LoadingWhileInFlight(s: State, events: seq<Event>)
    requires Legal(s, events) && (s.client.loading <==> s.request != Idle)
    ensures var t := Run(s, events);
      t.client.loading <==> t.request != Idle
    decreases |events|
  {
    if events != [] {
      LoadingWhileInFlight(Step(s, events[0]), events[1..]);
    }
  }

  /**
   * Whatever happened, reloads included, a page is asked for exactly when none is in flight and more
   * rows are left; asking leaves what is loaded alone.
   */
  lemma OneRequestInFlight(list: seq<Guid>, events: seq<Event>)
    requires Legal(Start(list), events)
    ensures var s := Run(Start(list), events);
      var t := Step(s, Begin);
      && (s.client.loading <==> s.request != Idle)
      && (s.request != Idle || !s.client.hasMore ==> t == s)
      && (s.request == Idle && s.client.hasMore ==> t.request == Asked(s.client.offset))
      && t.client.rows == s.client.rows && t.client.offset == s.client.offset && t.server == s.server
  {
    LoadingWhileInFlight(Start(list), events);
  }

  // ----- Rows inserted at the head -----

  /** How many rows were put in front of `list` since it was loaded. */
  function Inserted(s: State, list: seq<Guid>): int {
    |s.server| - |list|
  }

  /** The pending page is `list` from some row that is loaded or next to be. */
  ghost predicate Answers(s: State, list: seq<Guid>, page: seq<Guid>) {
    exists from: nat :: from <= |s.client.rows| && s.client.offset <= from + Inserted(s, list) && page == Page(list, from)
  }

  ghost predicate PrefixLoaded(s: State, list: seq<Guid>) {
    && Inserted(s, list) >= 0 && s.server[Inserted(s, list)..] == list && Distinct(s.server) && Distinct(list)
    && s.client.rows <= list
    && |s.client.rows| <= s.client.offset <= |s.client.rows| + Inserted(s, list)
    && (!s.client.hasMore ==> s.client.rows == list)
    && (s.client.loading <==> s.request != Idle)
    && match s.request
       case Idle => true
       case Asked(offset) => offset == s.client.offset && s.client.hasMore
       case Answered(page) => s.client.hasMore && Answers(s, list, page)
  }

  predicate PageEvent(e: Event) {
    e.Begin? || e.Serve? || e.Arrive? || e.Fail?
  }

  /** Fewer rows were inserted than the offset a page is being served at. */
  predicate ServedInTime(s: State, e: Event, list: seq<Guid>) {
    e.Serve? && s.request.Asked? ==> Inserted(s, list) <= s.request.offset
  }

  lemma ShiftedPage(server: seq<Guid>, list: seq<Guid>, offset: nat)
    requires |list| <= |server| && server[|server| - |list|..] == list && |server| - |list| <= offset
    ensures Page(server, offset) == Page(list, offset - (|server| - |list|))
  {
  }

  lemma ServeKeepsPrefix(s: State, list: seq<Guid>)
    requires PrefixLoaded(s, list) && s.request.Asked? && ServedInTime(s, Serve, list)
    ensures PrefixLoaded(Step(s, Serve), list)
  {
    ShiftedPage(s.server, list, s.request.offset);
    var from: nat := s.request.offset - Inserted(s, list);
    assert Page(s.server, s.request.offset) == Page(list, from);
  }

  /** Where the page in flight starts in `list`, and up to where its rows will be loaded. */
  lemma ArrivingRows(s: State, list: seq<Guid>) returns (from: nat, to: nat)
    requires PrefixLoaded(s, list) && s.request.Answered?
    ensures from <= |s.client.rows| && s.client.offset <= from + Inserted(s, list)
    ensures to == from + |s.request.page| <= |list| && (to == |list| || |s.request.page| == PAGE_ROWS)
    ensures Step(s, Arrive).client.rows == list[..Max(|s.client.rows|, to)]
  {
    from :| from <= |s.client.rows| && s.client.offset <= from + Inserted(s, list) && s.request.page == Page(list, from);
    PrefixIsTake(s.client.rows, list);
    to := OverlapExtendsPrefix(list, |s.client.rows|, from);
  }

  lemma PrefixIsTake(rows: seq<Guid>, list: seq<Guid>)
    requires rows <= list
    ensures rows == list[..|rows|]
  {
  }

  lemma ArriveKeepsPrefix(s: State, list: seq<Guid>)
    requires PrefixLoaded(s, list) && s.request.Answered?
    ensures PrefixLoaded(Step(s, Arrive), list)
  {
    var from, to := ArrivingRows(s, list);
    var c := Step(s, Arrive).client;
    assert |c.rows| == Max(|s.client.rows|, to) && c.offset == s.client.offset + (to - from);
  }

  lemma InsertKeepsPrefix(s: State, guid: Guid, list: seq<Guid>)
    requires PrefixLoaded(s, list) && guid !in s.server
    ensures PrefixLoaded(Step(s, Insert(guid)), list)
  {
    var t := Step(s, Insert(guid));
    assert t.server[1..] == s.server;
    assert t.server[Inserted(t, list)..] == s.server[Inserted(s, list)..];
    if s.request.Answered? {
      assert Answers(s, list, s.request.page);
    }
  }

  lemma PageStepKeepsPrefix(s: State, e: Event, list: seq<Guid>)
    requires PrefixLoaded(s, list) && Enabled(s, e) && (PageEvent(e) || e.Insert?) && ServedInTime(s, e, list)
    ensures PrefixLoaded(Step(s, e), list)
  {
    match e
    case Serve => ServeKeepsPrefix(s, list);
    case Arrive => ArriveKeepsPrefix(s, list);
    case Insert(guid) => InsertKeepsPrefix(s, guid, list);
    case _ =>
  }

  /** Every page of the run is served in time. */
  ghost predicate AllServedInTime(s: State, events: seq<Event>, list: seq<Guid>)
    requires Legal(s, events)
    decreases |events|
  {
    events == [] || (ServedInTime(s, events[0], list) && AllServedInTime(Step(s, events[0]), events[1..], list))
  }

  lemma {:induction false} RunKeepsPrefix(s: State, events: seq<Event>, list: seq<Guid>)
    requires PrefixLoaded(s, list) && Legal(s, events) && AllServedInTime(s, events, list)
    requires forall i :: 0 <= i < |events| ==> PageEvent(events[i]) || events[i].Insert?
    ensures PrefixLoaded(Run(s, events), list)
    decreases |events|
  {
    if events != [] {
      PageStepKeepsPrefix(s, events[0], list);
      RunKeepsPrefix(Step(s, events[0]), events[1..], list);
    }
  }

  lemma StartIsLoaded(list: seq<Guid>)
    requires Distinct(list)
    ensures PrefixLoaded(Start(list), list)
  {
  }

  /**
   * While rows are only inserted at the head, and fewer than the offset of each page served, what
   * is loaded is a duplicate-free prefix of the list as it was at the reset, and all of it at the end.
   */
  lemma HeadInsertsKeepAPrefix(list: seq<Guid>, events: seq<Event>)
    requires Distinct(list) && Legal(Start(list), events) && AllServedInTime(Start(list), events, list)
    requires forall i :: 0 <= i < |events| ==> PageEvent(events[i]) || events[i].Insert?
    ensures var c := Run(Start(list), events).client;
      c.rows <= list && Distinct(c.rows) && (!c.hasMore ==> c.rows == list)
  {
    StartIsLoaded(list);
    RunKeepsPrefix(Start(list), events, list);
  }

  /** And no further: a page served after more inserts than its offset appends a new row behind the old ones. */
  lemma PrefixIffServedInTime(s: State, list: seq<Guid>)
    requires PrefixLoaded(s, list) && s.request.Asked?
    ensures Step(Step(s, Serve), Arrive).client.rows <= list <==> Inserted(s, list) <= s.request.offset
  {
    if Inserted(s, list) <= s.request.offset {
      ServeKeepsPrefix(s, list);
      ArriveKeepsPrefix(Step(s, Serve), list);
    } else {
      LateServeIsSpoilt(s, list);
      SpoiltArrives(Step(s, Serve), list);
    }
  }

  /** The pending page holds a row that is neither loaded nor of the original list. */
  ghost predicate SpoiltPage(s: State, list: seq<Guid>) {
    s.request.Answered? && exists x :: x in s.request.page && x !in list && x !in s.client.rows
  }

  /** What is loaded holds a row that is not of the original list. */
  ghost predicate SpoiltRows(s: State, list: seq<Guid>) {
    exists x :: x in s.client.rows && x !in list
  }

  lemma LateServeIsSpoilt(s: State, list: seq<Guid>)
    requires PrefixLoaded(s, list) && s.request.Asked? && Inserted(s, list) > s.request.offset
    ensures SpoiltPage(Step(s, Serve), list)
  {
    var x := s.server[s.request.offset];
    assert Step(s, Serve).request.page[0] == x;
    assert forall i :: 0 <= i < |list| ==> list[i] == s.server[Inserted(s, list) + i];
    assert x !in list && x !in s.client.rows;
  }

  lemma SpoiltArrives(s: State, list: seq<Guid>)
    requires SpoiltPage(s, list)
    ensures SpoiltRows(Step(s, Arrive), list)
    ensures !(Step(s, Arrive).client.rows <= list)
  {
    var x :| x in s.request.page && x !in list && x !in s.client.rows;
    FreshMembers(s.request.page, s.client.rows, x);
    assert x in Step(s, Arrive).client.rows;
  }

  /** Every page that arrives was served in time; `late` tells that the pending one was not. */
  ghost predicate ArrivalsInTime(s: State, events: seq<Event>, list: seq<Guid>, late: bool)
    requires Legal(s, events)
    decreases |events|
  {
    events == [] ||
    var rest := Step(s, events[0]);
    match events[0]
    case Serve => ArrivalsInTime(rest, events[1..], list, !ServedInTime(s, Serve, list))
    case Arrive => !late && ArrivalsInTime(rest, events[1..], list, false)
    case Fail => ArrivalsInTime(rest, events[1..], list, false)
    case _ => ArrivalsInTime(rest, events[1..], list, late)
  }

  /** As `PrefixLoaded`, or with a pending page that was served too late. */
  ghost predicate PrefixBut(s: State, list: seq<Guid>, late: bool) {
    if late then SpoiltPage(s, list) && PrefixLoaded(s.(request := Asked(s.client.offset)), list) else PrefixLoaded(s, list)
  }

  predicate PagingEvent(e: Event) {
    PageEvent(e) || e.Insert?
  }

  lemma LateStep(s: State, e: Event, list: seq<Guid>)
    requires PrefixBut(s, list, true) && PagingEvent(e) && Enabled(s, e) && !e.Arrive?
    ensures PrefixBut(Step(s, e), list, !e.Fail?)
  {
    var asked := s.(request := Asked(s.client.offset));
    match e
    case Fail => PageStepKeepsPrefix(asked, Fail, list);
    case Insert(guid) => InsertKeepsPrefix(asked, guid, list);
    case Begin =>
  }

  lemma InTimeStep(s: State, e: Event, list: seq<Guid>)
    requires PrefixLoaded(s, list) && PagingEvent(e) && Enabled(s, e)
    ensures PrefixBut(Step(s, e), list, e.Serve? && !ServedInTime(s, e, list))
  {
    if ServedInTime(s, e, list) {
      PageStepKeepsPrefix(s, e, list);
    } else {
      LateServeIsSpoilt(s, list);
    }
  }

  lemma {:induction false} SpoiltForGood(s: State, events: seq<Event>, list: seq<Guid>)
    requires SpoiltRows(s, list) && Legal(s, events)
    requires forall i :: 0 <= i < |events| ==> PagingEvent(events[i])
    ensures SpoiltRows(Run(s, events), list) && !(Run(s, events).client.rows <= list)
    decreases |events|
  {
    var x :| x in s.client.rows && x !in list;
    if events != [] {
      assert x in Step(s, events[0]).client.rows;
      SpoiltForGood(Step(s, events[0]), events[1..], list);
    }
  }

  lemma {:induction false} PrefixRun(s: State, events: seq<Event>, list: seq<Guid>, late: bool)
    requires PrefixBut(s, list, late) && Legal(s, events)
    requires forall i :: 0 <= i < |events| ==> PagingEvent(events[i])
    ensures Run(s, events).client.rows <= list <==> ArrivalsInTime(s, events, list, late)
    decreases |events|
  {
    if events != [] {
      var e, next := events[0], Step(s, events[0]);
      if late && e.Arrive? {
        SpoiltArrives(s, list);
        SpoiltForGood(next, events[1..], list);
      } else if late {
        LateStep(s, e, list);
        PrefixRun(next, events[1..], list, !e.Fail?);
      } else {
        InTimeStep(s, e, list);
        PrefixRun(next, events[1..], list, e.Serve? && !ServedInTime(s, e, list));
      }
    }
  }

  /**
   * Over any run with rows inserted at the head, what is loaded is a prefix of the list as it was at
   * the reset if and only if every page that arrived was served in time; late pages that failed do no harm.
   */
  lemma PrefixIffArrivalsInTime(list: seq<Guid>, events: seq<Event>)
    requires Distinct(list) && Legal(Start(list), events)
    requires forall i :: 0 <= i < |events| ==> PagingEvent(events[i])
    ensures Run(Start(list), events).client.rows <= list <==> ArrivalsInTime(Start(list), events, list, false)
  {
    StartIsLoaded(list);
    PrefixRun(Start(list), events, list, false);
  }

  // ----- A stable list -----

  ghost function Arrivals(events: seq<Event>): nat {
    if events == [] then 0 else (if events[0].Arrive? then 1 else 0) + Arrivals(events[1..])
  }

  /** Where paging a stable list stands after `pages` further pages. */
  ghost predicate AtPage(s: State, list: seq<Guid>, pages: nat) {
    && s.server == list && Distinct(list)
    && s.client.offset == Min(PAGE_ROWS * (pages + 1), |list|) && s.client.rows == list[..s.client.offset]
    && (s.client.hasMore <==> PAGE_ROWS * (pages + 1) <= |list|)
    && (s.client.loading <==> s.request != Idle)
    && match s.request
       case Idle => true
       case Asked(offset) => offset == s.client.offset && s.client.hasMore
       case Answered(page) => page == Page(list, s.client.offset) && s.client.hasMore
  }

  lemma StablePageStep(s: State, e: Event, list: seq<Guid>, pages: nat)
    requires AtPage(s, list, pages) && PageEvent(e) && Enabled(s, e)
    ensures AtPage(Step(s, e), list, if e.Arrive? then pages + 1 else pages)
  {
    if e.Arrive? {
      var to := OverlapExtendsPrefix(list, s.client.offset, s.client.offset);
    }
  }

  lemma {:induction false} StableRun(s: State, events: seq<Event>, list: seq<Guid>, pages: nat)
    requires AtPage(s, list, pages) && Legal(s, events)
    requires forall i :: 0 <= i < |events| ==> PageEvent(events[i])
    ensures AtPage(Run(s, events), list, pages + Arrivals(events))
    decreases |events|
  {
    if events != [] {
      StablePageStep(s, events[0], list, pages);
      StableRun(Step(s, events[0]), events[1..], list, if events[0].Arrive? then pages + 1 else pages);
    }
  }

  /**
   * However requests begin, fail and arrive, after `a` arrivals the first `a + 1` pages are loaded in
   * order, and `hasMore` drops exactly at the page that completes the list.
   */
  lemma StablePagingIsExact(list: seq<Guid>, events: seq<Event>)
    requires Distinct(list) && Legal(Start(list), events)
    requires forall i :: 0 <= i < |events| ==> PageEvent(events[i])
    ensures var c, a := Run(Start(list), events).client, Arrivals(events);
      && c.rows == list[..Min(100 * (a + 1), |list|)]
      && (c.hasMore <==> 100 * (a + 1) <= |list|)
      && (!c.hasMore ==> c.rows == list)
  {
    StableRun(Start(list), events, list, 0);
  }

  function Rounds(n: nat): seq<Event> {
    if n == 0 then [] else [Begin, Serve, Arrive] + Rounds(n - 1)
  }

  /** A request, its answer and its arrival bring one more page. */
  lemma OneRound(s: State, list: seq<Guid>, pages: nat) returns (t: State)
    requires AtPage(s, list, pages) && s.request == Idle && s.client.hasMore
    ensures Step(s, Begin).request.Asked? && Step(Step(s, Begin), Serve).request.Answered?
    ensures t == Step(Step(Step(s, Begin), Serve), Arrive) && AtPage(t, list, pages + 1) && t.request == Idle
  {
    StablePageStep(s, Begin, list, pages);
    StablePageStep(Step(s, Begin), Serve, list, pages);
    StablePageStep(Step(Step(s, Begin), Serve), Arrive, list, pages);
    t := Step(Step(Step(s, Begin), Serve), Arrive);
  }

  lemma RoundRuns(s: State, t: State, later: seq<Event>)
    requires Step(s, Begin).request.Asked? && Step(Step(s, Begin), Serve).request.Answered?
    requires t == Step(Step(Step(s, Begin), Serve), Arrive) && Legal(t, later)
    ensures var events := [Begin, Serve, Arrive] + later; Legal(s, events) && Run(s, events) == Run(t, later)
  {
    var s1 := Step(s, Begin);
    Prepend(Step(s1, Serve), Arrive, later);
    Prepend(s1, Serve, [Arrive] + later);
    Prepend(s, Begin, [Serve] + ([Arrive] + later));
    assert [Begin] + ([Serve] + ([Arrive] + later)) == [Begin, Serve, Arrive] + later;
  }

  lemma {:induction false} RoundsFinish(s: State, list: seq<Guid>, pages: nat, n: nat)
    requires AtPage(s, list, pages) && s.request == Idle && n == Max(0, |list| / PAGE_ROWS - pages)
    ensures Legal(s, Rounds(n)) && AtPage(Run(s, Rounds(n)), list, pages + n)
    decreases n
  {
    if n > 0 {
      var t := OneRound(s, list, pages);
      RoundsFinish(t, list, pages + 1, n - 1);
      RoundRuns(s, t, Rounds(n - 1));
    }
  }

  lemma Prepend(s: State, e: Event, events: seq<Event>)
    requires Enabled(s, e) && Legal(Step(s, e), events)
    ensures Legal(s, [e] + events) && Run(s, [e] + events) == Run(Step(s, e), events)
  {
    assert ([e] + events)[1..] == events;
  }

  /** `|list| / 100` answered requests after a reset complete the list. */
  lemma PagingTerminates(list: seq<Guid>)
    requires Distinct(list)
    ensures var events := Rounds(|list| / 100);
      Legal(Start(list), events) && Run(Start(list), events).client.rows == list && !Run(Start(list), events).client.hasMore
  {
    RoundsFinish(Start(list), list, 0, |list| / PAGE_ROWS);
  }

  // ----- What offset paging cannot survive -----

  /** A row before the offset that is not loaded. */
  ghost predicate Skipped(s: State, x: Guid, at: nat) {
    && Distinct(s.server) && at < |s.server| && s.server[at] == x && at < s.client.offset && x !in s.client.rows
    && match s.request
       case Idle => true
       case Asked(offset) => at < offset
       case Answered(page) => x !in page
  }

  lemma SkippedStep(s: State, e: Event, x: Guid, at: nat)
    requires Skipped(s, x, at) && PageEvent(e) && Enabled(s, e)
    ensures Skipped(Step(s, e), x, at)
  {
    match e
    case Arrive => FreshMembers(s.request.page, s.client.rows, x);
    case _ =>
  }

  /** No amount of paging brings it in. */
  lemma {:induction false} SkippedForGood(s: State, events: seq<Event>, x: Guid, at: nat)
    requires Skipped(s, x, at) && Legal(s, events)
    requires forall i :: 0 <= i < |events| ==> PageEvent(events[i])
    ensures x !in Run(s, events).client.rows
    decreases |events|
  {
    if events != [] {
      SkippedStep(s, events[0], x, at);
      SkippedForGood(Step(s, events[0]), events[1..], x, at);
    }
  }

  lemma RemovalKeepsDistinct(list: seq<Guid>, index: nat)
    requires Distinct(list) && index < |list|
    ensures Distinct(list[..index] + list[index + 1..])
  {
  }

  /** The rows the client has or is about to get: a page the server has already answered counts. */
  function Frontier(s: State): nat {
    s.client.offset + if s.request.Answered? then |s.request.page| else 0
  }

  lemma PageAfterRemoval(list: seq<Guid>, offset: nat, index: nat)
    requires Distinct(list) && index < |list| && offset <= |list|
    ensures var list' := list[..index] + list[index + 1..];
      offset <= index ==> (Page(list', offset) == Page(list, offset) <==> offset + |Page(list, offset)| <= index)
  {
    var list' := list[..index] + list[index + 1..];
    var to := PageIsSlice(list, offset);
    if offset <= index < to {
      assert Page(list, offset)[index - offset] == list[index];
      if index - offset < |Page(list', offset)| {
        assert Page(list', offset)[index - offset] == list[index + 1];
      }
    } else if to <= index {
      assert list[offset..to] == list'[offset..to];
    }
  }

  /**
   * Deleting a row elsewhere is harmless exactly when it lies behind everything loaded and behind
   * the page in flight, if the server has answered it.
   */
  lemma DeletionIsSafeIffBehindTheFrontier(s: State, list: seq<Guid>, pages: nat, index: nat)
    requires AtPage(s, list, pages) && index < |list|
    ensures var list' := list[..index] + list[index + 1..];
      AtPage(Step(s, Delete(index)), list', pages) <==> Frontier(s) <= index
  {
    var list' := list[..index] + list[index + 1..];
    RemovalKeepsDistinct(list, index);
    PageAfterRemoval(list, s.client.offset, index);
    if s.client.offset <= index {
      assert list'[..s.client.offset] == list[..s.client.offset];
    } else {
      assert s.client.rows[index] == list[index];
      assert index < |list'| ==> list'[index] == list[index + 1];
    }
  }

  lemma MovedForward(list: seq<Guid>, index: nat, at: nat)
    requires Distinct(list) && index < at < |list|
    ensures var list' := list[..index] + list[index + 1..];
      Distinct(list') && list'[at - 1] == list[at] && |list'| == |list| - 1
  {
    RemovalKeepsDistinct(list, index);
  }

  lemma DeletionSkips(s: State, list: seq<Guid>, pages: nat, index: nat)
    requires AtPage(s, list, pages) && !s.request.Answered? && index < s.client.offset < |list|
    ensures Skipped(Step(s, Delete(index)), list[s.client.offset], s.client.offset - 1)
  {
    MovedForward(list, index, s.client.offset);
  }

  /** Otherwise the next row to load has moved before the offset, and stays out until a reload. */
  lemma DeletionSkipsTheNextRow(s: State, list: seq<Guid>, pages: nat, index: nat, events: seq<Event>)
    requires AtPage(s, list, pages) && !s.request.Answered? && index < s.client.offset < |list|
    requires Legal(Step(s, Delete(index)), events)
    requires forall i :: 0 <= i < |events| ==> PageEvent(events[i])
    ensures var t, x := Step(s, Delete(index)), list[s.client.offset];
      x in t.server && x !in Run(t, events).client.rows
  {
    DeletionSkips(s, list, pages, index);
    SkippedForGood(Step(s, Delete(index)), events, list[s.client.offset], s.client.offset - 1);
  }

  lemma BeyondTheFrontier(s: State, list: seq<Guid>, pages: nat)
    requires AtPage(s, list, pages) && s.request.Answered? && Frontier(s) < |list|
    ensures list[Frontier(s)] !in s.request.page && list[Frontier(s)] !in s.client.rows
  {
    var to := PageIsSlice(list, s.client.offset);
    assert Frontier(s) == to;
  }

  lemma LateDeletionSkips(s: State, list: seq<Guid>, pages: nat, index: nat)
    requires AtPage(s, list, pages) && s.request.Answered? && index < Frontier(s) < |list|
    ensures Skipped(Step(Step(s, Delete(index)), Arrive), list[Frontier(s)], Frontier(s) - 1)
  {
    BeyondTheFrontier(s, list, pages);
    MovedForward(list, index, Frontier(s));
    FreshMembers(s.request.page, s.client.rows, list[Frontier(s)]);
  }

  /** With an answered page in flight it is the first row behind that page that is skipped, once it arrives. */
  lemma DeletionSkipsBehindThePendingPage(s: State, list: seq<Guid>, pages: nat, index: nat, events: seq<Event>)
    requires AtPage(s, list, pages) && s.request.Answered? && index < Frontier(s) < |list|
    requires Legal(Step(Step(s, Delete(index)), Arrive), events)
    requires forall i :: 0 <= i < |events| ==> PageEvent(events[i])
    ensures var t, x := Step(Step(s, Delete(index)), Arrive), list[Frontier(s)];
      x in t.server && x !in Run(t, events).client.rows
  {
    LateDeletionSkips(s, list, pages, index);
    SkippedForGood(Step(Step(s, Delete(index)), Arrive), events, list[Frontier(s)], Frontier(s) - 1);
  }

  /** A reload starts over cleanly exactly when no page beyond the first is in flight. */
  lemma ReloadIsSafeIffNothingBeyondIsPending(s: State, list: seq<Guid>, pages: nat)
    requires AtPage(s, list, pages)
    ensures AtPage(Step(s, Reload), list, 0) <==> s.request == Idle || pages == 0
  {
    if s.request.Answered? && pages > 0 {
      assert Page(list, PAGE_ROWS)[0] == list[PAGE_ROWS];
      if s.client.offset < |list| {
        assert s.request.page[0] == list[s.client.offset];
      }
    }
  }

  /** Otherwise the late page is appended after the first one, and the rows between are never loaded. */
  lemma LatePageLeavesAHole(s: State, list: seq<Guid>, pages: nat, k: nat, events: seq<Event>)
    requires AtPage(s, list, pages) && s.request.Asked?
    requires PAGE_ROWS <= k < Min(s.client.offset, PAGE_ROWS + |Page(list, s.client.offset)|)
    requires Legal(Step(Step(Step(s, Reload), Serve), Arrive), events)
    requires forall i :: 0 <= i < |events| ==> PageEvent(events[i])
    ensures list[k] !in Run(Step(Step(Step(s, Reload), Serve), Arrive), events).client.rows
  {
    var first, late := Page(list, 0), Page(list, s.client.offset);
    var t := Step(Step(Step(s, Reload), Serve), Arrive);
    FreshMembers(late, first, list[k]);
    assert t.client.rows == first + Fresh(late, first) && t.client.offset == PAGE_ROWS + |late|;
    SkippedForGood(t, events, list[k], k);
  }
}
