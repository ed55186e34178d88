/** The paging state of AccountLedger.tsx as its handlers update it, each against `Paging`. */
module PagedLedgers {
  import opened Prelude
  import opened Paging

  /** The rows of a server-rendered first page, each guid at its first place. */
  function FirstOccurrences(rows: seq<Guid>): seq<Guid>
    decreases |rows|
  {
    if rows == [] then []
    else
      var before, last := rows[..|rows| - 1], rows[|rows| - 1];
      FirstOccurrences(before) + (if last in before then [] else [last])
  }

  lemma {:induction false} FirstOccurrencesAreTheRows(rows: seq<Guid>)
    ensures Distinct(FirstOccurrences(rows))
    ensures forall x :: x in FirstOccurrences(rows) <==> x in rows
    ensures Distinct(rows) ==> FirstOccurrences(rows) == rows
    decreases |rows|
  {
    if rows != [] {
      var before, last := rows[..|rows| - 1], rows[|rows| - 1];
      FirstOccurrencesAreTheRows(before);
      assert rows == before + [last];
    }
  }

  class PagedLedger {
    var transactions: seq<Guid>
    var offset: nat
    var hasMore: bool
    var loading: bool

    function View(): Client
      reads this
    {
      Client(transactions, offset, hasMore, loading)
    }

    constructor (initial: seq<Guid>)
      ensures View() == Client(initial, |initial|, |initial| >= PAGE_ROWS, false)
    {
      transactions, offset, hasMore, loading := initial, |initial|, |initial| >= PAGE_ROWS, false;
    }

    /** The effect on a new `initialTransactions`: the loop that keeps each guid once. */
    method ReplaceInitial(initial: seq<Guid>)
      modifies this
      ensures View() == Reset(old(View()), Some(FirstOccurrences(initial)))
    {
      var seen: set<Guid> := {};
      var deduped := [];
      for i := 0 to |initial|
        invariant forall x :: x in seen <==> x in initial[..i]
        invariant deduped == FirstOccurrences(initial[..i])
      {
        assert initial[..i + 1][..i] == initial[..i];
        if initial[i] !in seen {
          seen := seen + {initial[i]};
          deduped := deduped + [initial[i]];
        }
      }
      assert initial[..|initial|] == initial;
      transactions, offset, hasMore := deduped, |deduped|, |deduped| >= PAGE_ROWS;
    }

    method FetchTransactions(response: Option<seq<Guid>>)
      modifies this
      ensures View() == Reset(old(View()), response)
    {
      if response.Some? {
        var data := response.value;
        transactions, offset, hasMore := data, |data|, |data| >= PAGE_ROWS;
      }
    }

    /** Up to the request of fetchMoreTransactions: the offset it is sent with, if it is sent. */
    method BeginFetchMore() returns (asked: Option<nat>)
      modifies this`loading
      ensures var before := old(View());
        if before.loading || !before.hasMore then asked == None && View() == before
        else asked == Some(before.offset) && View() == before.(loading := true)
    {
      if loading || !hasMore {
        return None;
      }
      loading := true;
      asked := Some(offset);
    }

    method CompleteFetchMore(response: Option<seq<Guid>>)
      modifies this
      ensures View() == Extend(old(View()), response)
    {
      if response.Some? {
        var data := response.value;
        if |data| == 0 {
          hasMore := false;
        } else {
          var newRows := FilterFresh(data, transactions);
          if |newRows| > 0 {
            transactions := transactions + newRows;
          }
          offset := offset + |data|;
          if |data| < PAGE_ROWS {
            hasMore := false;
          }
        }
      }
      loading := false;
    }

    /** The filter against the guids already shown. */
    static method FilterFresh(data: seq<Guid>, rows: seq<Guid>) returns (unseen: seq<Guid>)
      ensures unseen == Fresh(data, rows)
    {
      var existing := set x | x in rows;
      unseen := [];
      for i := 0 to |data|
        invariant unseen == Fresh(data[..i], rows)
      {
        FreshAppend(data[..i], [data[i]], rows);
        assert data[..i + 1] == data[..i] + [data[i]];
        if data[i] !in existing {
          unseen := unseen + [data[i]];
        }
      }
      assert data[..|data|] == data;
    }
  }
}
