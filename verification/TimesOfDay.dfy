/** Daily refresh times (src/lib/worker/refresh-schedule.ts): strict HH:MM in UTC and the wait until it next occurs. */
module TimesOfDay {
  import opened Prelude
  import opened Text

  predicate IsHourMinute(s: string) {
    && |s| == 5 && s[2] == ':'
    && IsDigit(s[0]) && IsDigit(s[1]) && IsDigit(s[3]) && IsDigit(s[4])
    && (s[0] <= '1' || (s[0] == '2' && s[1] <= '3'))
    && s[3] <= '5'
  }

  /** normalizeRefreshTime followed by the hour and minute arithmetic: milliseconds after midnight, or None. */
  function ParseTimeOfDay(raw: string): (r: Option<int>)
    ensures r.Some? ==> 0 <= r.value < DAY_MS && r.value % 60_000 == 0
  {
    var s := Trim(raw);
    if IsHourMinute(s) then
      Some((DigitValue(s[0]) * 10 + DigitValue(s[1])) * 3_600_000 + (DigitValue(s[3]) * 10 + DigitValue(s[4])) * 60_000)
    else
      None
  }

  function Pad2(n: nat): string
    requires n < 100
  {
    ['0' + (n / 10) as char, '0' + (n % 10) as char]
  }

  function Spelled(hour: nat, minute: nat): string
    requires hour < 24 && minute < 60
  {
    Pad2(hour) + ":" + Pad2(minute)
  }

  /** Every minute of the day has a spelling, and surrounding blanks do not change it. */
  lemma EveryMinuteIsReadBack(hour: nat, minute: nat, before: string, after: string)
    requires hour < 24 && minute < 60
    requires forall i :: 0 <= i < |before| ==> IsSpace(before[i])
    requires forall i :: 0 <= i < |after| ==> IsSpace(after[i])
    ensures ParseTimeOfDay(before + Spelled(hour, minute) + after) == Some(hour * 3_600_000 + minute * 60_000)
  {
    TrimBlanks(before, Spelled(hour, minute), after);
  }

  lemma AcceptedSpelling(raw: string) returns (hour: nat, minute: nat)
    requires ParseTimeOfDay(raw).Some?
    ensures hour < 24 && minute < 60 && Trim(raw) == Spelled(hour, minute)
  {
    var s := Trim(raw);
    hour := DigitValue(s[0]) * 10 + DigitValue(s[1]);
    minute := DigitValue(s[3]) * 10 + DigitValue(s[4]);
  }

  lemma SpellingIsParsed(raw: string, hour: nat, minute: nat)
    requires hour < 24 && minute < 60 && Trim(raw) == Spelled(hour, minute)
    ensures ParseTimeOfDay(raw) == Some(hour * 3_600_000 + minute * 60_000)
  {
  }

  /** Anything else is refused: a text is accepted exactly when, blanks apart, it spells a minute, and as that minute. */
  lemma AcceptsExactlyTheMinutes(raw: string, offset: int)
    ensures ParseTimeOfDay(raw) == Some(offset) <==>
      exists hour: nat, minute: nat ::
        hour < 24 && minute < 60 && Trim(raw) == Spelled(hour, minute) && offset == hour * 3_600_000 + minute * 60_000
  {
    if ParseTimeOfDay(raw).Some? {
      var hour, minute := AcceptedSpelling(raw);
      SpellingIsParsed(raw, hour, minute);
    }
    forall hour: nat, minute: nat | hour < 24 && minute < 60 && Trim(raw) == Spelled(hour, minute)
      ensures ParseTimeOfDay(raw) == Some(hour * 3_600_000 + minute * 60_000)
    {
      SpellingIsParsed(raw, hour, minute);
    }
  }

  lemma {:induction false} TrimBlanks(before: string, s: string, after: string)
    requires s != [] && !IsSpace(s[0]) && !IsSpace(s[|s| - 1])
    requires forall i :: 0 <= i < |before| ==> IsSpace(before[i])
    requires forall i :: 0 <= i < |after| ==> IsSpace(after[i])
    ensures Trim(before + s + after) == s
    decreases |before| + |after|
  {
    var all := before + s + after;
    if before != [] {
      assert all[1..] == before[1..] + s + after;
      TrimBlanks(before[1..], s, after);
    } else if after != [] {
      assert all[0] == s[0];
      assert all[..|all| - 1] == before + s + after[..|after| - 1];
      TrimBlanks(before, s, after[..|after| - 1]);
    } else {
      assert all == s;
    }
  }

  /** msUntilNextUtcTime for a validated time. */
  function MsUntil(offset: int, now: int): int {
    var target := now / DAY_MS * DAY_MS + offset;
    if target <= now then target + DAY_MS - now else target - now
  }

  predicate AtTimeOfDay(instant: int, offset: int) {
    instant % DAY_MS == offset
  }

  /** The delay is never 0, so no chain can spin, and it leads to the first later instant at that time of day. */
  lemma NextRunIsTheFirst(offset: int, now: int)
    requires 0 <= offset < DAY_MS
    ensures 1 <= MsUntil(offset, now) <= DAY_MS
    ensures AtTimeOfDay(now + MsUntil(offset, now), offset)
    ensures forall k :: now < k < now + MsUntil(offset, now) ==> !AtTimeOfDay(k, offset)
  {
    var midnight := now / DAY_MS * DAY_MS;
    var ms := MsUntil(offset, now);
    assert midnight <= now < midnight + DAY_MS;
    forall k | now < k < now + ms
      ensures !AtTimeOfDay(k, offset)
    {
      assert k == k / DAY_MS * DAY_MS + k % DAY_MS;
      assert k / DAY_MS * DAY_MS == midnight || k / DAY_MS * DAY_MS == midnight + DAY_MS;
    }
    assert (now + ms - offset) % DAY_MS == 0;
  }
}
