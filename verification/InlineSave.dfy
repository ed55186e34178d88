/** Inline saves of AccountLedger.tsx: the two-split payload, its guard, and the claiming of prior splits. */
module InlineSave {
  import opened Prelude
  import opened Rounding

  datatype Split = Split(
    guid: string, account: string, fullName: string, memo: string, reconcile: string,
    valueNum: int, valueDenom: int, quantityNum: int, quantityDenom: int)

  datatype Fractions = Fractions(valueNum: int, valueDenom: int, quantityNum: int, quantityDenom: int)

  datatype Payload = Payload(guid: Option<string>, account: string, fractions: Fractions, memo: string, reconcile: string)

  function Stored(s: Split): Fractions {
    Fractions(s.valueNum, s.valueDenom, s.quantityNum, s.quantityDenom)
  }

  /** Number(n) || fallback. */
  function Or(n: int, fallback: int): int {
    if n == 0 then fallback else n
  }

  function OrState(s: string): string {
    if s == "" then "n" else s
  }

  /** A share count or a foreign amount: the quantity is not the value. */
  predicate IsNonCurrency(s: Split) {
    s.valueDenom != 0 && s.quantityDenom != 0 && (s.valueDenom != s.quantityDenom || s.valueNum != s.quantityNum)
  }

  function InDenom(amount: real, denom: int): real {
    amount * denom as real
  }

  /** Math.round(amount * denominator). */
  function RoundedAt(amount: real, denom: int): int {
    Round(InDenom(amount, denom))
  }

  /** The amount is a whole number of 1/denominator. */
  predicate ExactAt(amount: real, denom: int) {
    Whole(amount * denom as real)
  }

  function SplitFractions(original: Option<Split>, amount: real, keepStored: bool): Fractions {
    var valueDenom := if original.Some? then Or(original.value.valueDenom, 100) else 100;
    var quantityDenom := if original.Some? then Or(original.value.quantityDenom, valueDenom) else valueDenom;
    if original.Some? && keepStored then
      Fractions(original.value.valueNum, valueDenom, original.value.quantityNum, quantityDenom)
    else
      var valueNum := RoundedAt(amount, valueDenom);
      if original.Some? && IsNonCurrency(original.value) then
        Fractions(valueNum, valueDenom, original.value.quantityNum, quantityDenom)
      else
        Fractions(valueNum, valueDenom, valueNum, valueDenom)
  }

  datatype Row = Row(isNew: bool, splits: seq<Split>, accountSplitValue: Option<real>, reconcile: string)

  datatype Suggestion = Suggestion(account: string, amount: real)

  /** What the row's editor hands over; `suggested` is empty unless the whole structure is replaced. */
  datatype Edit = Edit(transfer: string, amount: real, suggested: seq<Suggestion>, memo: Option<string>)

  predicate IsTrading(s: Split) {
    "Trading:" <= s.fullName
  }

  function NonTrading(splits: seq<Split>): seq<Split> {
    if splits == [] then []
    else (if IsTrading(splits[0]) then [] else [splits[0]]) + NonTrading(splits[1..])
  }

  function FindSplit(splits: seq<Split>, account: string, same: bool): Option<Split> {
    if splits == [] then None
    else if (splits[0].account == account) == same then Some(splits[0])
    else FindSplit(splits[1..], account, same)
  }

  function OwnSplit(row: Row, account: string): Option<Split> {
    FindSplit(NonTrading(row.splits), account, true)
  }

  function OtherSplit(row: Row, account: string): Option<Split> {
    FindSplit(NonTrading(row.splits), account, false)
  }

  predicate AmountChanged(row: Row, e: Edit) {
    || row.accountSplitValue == None
    || e.amount - row.accountSplitValue.value >= 0.005 || row.accountSplitValue.value - e.amount >= 0.005
  }

  predicate TransferChanged(row: Row, account: string, e: Edit) {
    var other := OtherSplit(row, account);
    e.transfer != "" && e.transfer != (if other.Some? then other.value.account else "")
  }

  function TwoSplitPayload(row: Row, account: string, e: Edit): seq<Payload> {
    var own, other := OwnSplit(row, account), OtherSplit(row, account);
    var amountChanged, transferChanged := AmountChanged(row, e), TransferChanged(row, account, e);
    [ Payload(if own.Some? then Some(own.value.guid) else None,
              account,
              SplitFractions(own, e.amount, !amountChanged),
              if e.memo.Some? then e.memo.value else if own.Some? then own.value.memo else "",
              if amountChanged then "n" else OrState(row.reconcile)),
      Payload(if other.Some? && !transferChanged then Some(other.value.guid) else None,
              e.transfer,
              SplitFractions(other, -e.amount, !amountChanged && !transferChanged),
              if transferChanged || other == None then "" else other.value.memo,
              if amountChanged || transferChanged || other == None then "n" else OrState(other.value.reconcile)) ]
  }

  datatype Outcome = FullEditor | Send(splits: seq<Payload>)

  /** handleInlineSave up to the request: refuse, or build the body's splits. */
  function Save(row: Row, account: string, e: Edit): Outcome {
    if !row.isNew && (exists s :: s in row.splits && IsNonCurrency(s))
       && (e.suggested != [] || AmountChanged(row, e) || TransferChanged(row, account, e)) then FullEditor
    else if e.suggested != [] then Send(ClaimedPayload(NonTrading(row.splits), e.suggested))
    else Send(TwoSplitPayload(row, account, e))
  }

  // ----- What a save carries -----

  /** `num`/`denom` is the amount, to the nearest 1/denom, and the quantity is the value. */
  ghost predicate CarriesAmount(f: Fractions, amount: real, denom: int) {
    && f.valueDenom == denom && f.quantityDenom == denom && f.quantityNum == f.valueNum
    && -0.5 < f.valueNum as real - amount * denom as real <= 0.5
    && (Whole(amount * denom as real) ==> f.valueNum as real == amount * denom as real)
  }

  lemma RoundedAtIsNearest(amount: real, denom: int)
    ensures CarriesAmount(Fractions(RoundedAt(amount, denom), denom, RoundedAt(amount, denom), denom), amount, denom)
  {
    RoundIsNearest(amount * denom as real);
  }

  /** A fresh currency split carries the amount, at the stored denominator or in cents. */
  lemma RecomputedFractions(original: Option<Split>, amount: real)
    requires original.Some? ==> !IsNonCurrency(original.value)
    ensures CarriesAmount(SplitFractions(original, amount, false), amount,
                          if original.Some? && original.value.valueDenom != 0 then original.value.valueDenom else 100)
  {
    RoundedAtIsNearest(amount, if original.Some? && original.value.valueDenom != 0 then original.value.valueDenom else 100);
  }

  /** A share or foreign quantity is left as stored; only the value is the amount. */
  lemma SharesKeepTheirQuantity(original: Split, amount: real)
    requires IsNonCurrency(original)
    ensures var f := SplitFractions(Some(original), amount, false);
      && f.quantityNum == original.quantityNum && f.quantityDenom == original.quantityDenom
      && f.valueDenom == original.valueDenom
      && -0.5 < f.valueNum as real - amount * original.valueDenom as real <= 0.5
  {
    RoundedAtIsNearest(amount, original.valueDenom);
  }

  /** An entered amount goes to the own side and its negation to the other, each in cents for a new row. */
  lemma NewRowCarriesTheAmount(row: Row, account: string, e: Edit)
    requires row.isNew && row.splits == [] && e.suggested == []
    ensures Save(row, account, e).Send? && |Save(row, account, e).splits| == 2
    ensures var sent := Save(row, account, e).splits;
      && CarriesAmount(sent[0].fractions, e.amount, 100) && CarriesAmount(sent[1].fractions, -e.amount, 100)
      && sent[0].account == account && sent[1].account == e.transfer
      && sent[0].guid == None && sent[1].guid == None && sent[1].reconcile == "n"
  {
    RecomputedFractions(None, e.amount);
    RecomputedFractions(None, -e.amount);
  }

  /** The row's stored amount, to within half a cent. */
  predicate SameAmount(row: Row, e: Edit) {
    row.accountSplitValue.Some? && -0.005 < e.amount - row.accountSplitValue.value < 0.005
  }

  /** No transfer account was picked, or the one the other split already has. */
  predicate SameTransfer(row: Row, account: string, e: Edit) {
    e.transfer == "" || (OtherSplit(row, account).Some? && e.transfer == OtherSplit(row, account).value.account)
  }

  /**
   * Both sides' identity: the accounts of the edit, the guid of a stored split as long as it is the
   * same split, its memo, and its reconcile state as long as neither amount nor account moved.
   */
  lemma SentIdentity(row: Row, account: string, e: Edit)
    ensures var own, other, sent := OwnSplit(row, account), OtherSplit(row, account), TwoSplitPayload(row, account, e);
      && |sent| == 2 && sent[0].account == account && sent[1].account == e.transfer
      && sent[0].guid == (if own.Some? then Some(own.value.guid) else None)
      && sent[1].guid == (if other.Some? && SameTransfer(row, account, e) then Some(other.value.guid) else None)
      && sent[0].memo == (if e.memo.Some? then e.memo.value else if own.Some? then own.value.memo else "")
      && sent[1].memo == (if other.Some? && SameTransfer(row, account, e) then other.value.memo else "")
      && sent[0].reconcile == (if SameAmount(row, e) && row.reconcile != "" then row.reconcile else "n")
      && sent[1].reconcile == (if SameAmount(row, e) && SameTransfer(row, account, e) && other.Some? && other.value.reconcile != ""
                               then other.value.reconcile else "n")
  {
  }

  /** Quantity and value are not the same fraction as stored. */
  predicate HasOtherQuantity(s: Split) {
    && s.valueDenom != 0 && s.quantityDenom != 0
    && !(s.valueDenom == s.quantityDenom && s.valueNum == s.quantityNum)
  }

  /** The full editor is opened exactly for a money change of a stored transaction with such a split. */
  lemma FullEditorIff(row: Row, account: string, e: Edit)
    ensures Save(row, account, e).FullEditor? <==>
      && !row.isNew && (exists s :: s in row.splits && HasOtherQuantity(s))
      && (|e.suggested| > 0 || !SameAmount(row, e) || !SameTransfer(row, account, e))
    ensures Save(row, account, e).Send? && e.suggested == [] ==> Save(row, account, e).splits == TwoSplitPayload(row, account, e)
    ensures Save(row, account, e).Send? && e.suggested != [] ==>
              Save(row, account, e).splits == ClaimedPayload(NonTrading(row.splits), e.suggested)
  {
    forall s | s in row.splits
      ensures HasOtherQuantity(s) <==> IsNonCurrency(s)
    {
    }
  }

  /** find returns the first split of the account, or the first of another one. */
  lemma {:induction false} FoundSplitIsFirst(splits: seq<Split>, account: string, same: bool)
    ensures match FindSplit(splits, account, same)
      case None => forall s :: s in splits ==> ((s.account == account) != same)
      case Some(found) => exists i :: 0 <= i < |splits| && splits[i] == found && ((found.account == account) == same)
                            && forall k :: 0 <= k < i ==> ((splits[k].account == account) != same)
  {
    if splits != [] && (splits[0].account == account) != same {
      FoundSplitIsFirst(splits[1..], account, same);
      if FindSplit(splits, account, same).Some? {
        var found := FindSplit(splits, account, same).value;
        var i :| 0 <= i < |splits[1..]| && splits[1..][i] == found && forall k :: 0 <= k < i ==> ((splits[1..][k].account == account) != same);
        assert splits[i + 1] == found;
        assert forall k :: 0 < k < i + 1 ==> splits[k] == splits[1..][k - 1];
      }
    }
  }

  // ----- Verbatim saves -----

  predicate HasDenominators(s: Split) {
    s.valueDenom != 0 && s.quantityDenom != 0
  }

  /** Stored fractions survive an untouched side exactly when neither stored denominator is zero. */
  lemma KeptFractionsAreVerbatim(s: Split, amount: real)
    ensures SplitFractions(Some(s), amount, true) == Stored(s) <==> HasDenominators(s)
  {
  }

  /** An edit of neither amount nor transfer sends both stored splits back unchanged, identity and state included. */
  lemma UntouchedSaveIsVerbatim(row: Row, account: string, e: Edit)
    requires OwnSplit(row, account).Some? && OtherSplit(row, account).Some? && e.suggested == []
    requires !AmountChanged(row, e) && !TransferChanged(row, account, e) && e.transfer != ""
    ensures var own, other := OwnSplit(row, account).value, OtherSplit(row, account).value;
      && Save(row, account, e).Send? && |Save(row, account, e).splits| == 2
      && var sent := Save(row, account, e).splits;
      && (HasDenominators(own) && HasDenominators(other) <==>
            sent[0].fractions == Stored(own) && sent[1].fractions == Stored(other))
      && sent[0].guid == Some(own.guid) && sent[1].guid == Some(other.guid)
      && sent[0].account == own.account && sent[1].account == other.account
      && sent[0].reconcile == OrState(row.reconcile) && sent[1].reconcile == OrState(other.reconcile)
      && sent[1].memo == other.memo && (e.memo == None ==> sent[0].memo == own.memo)
  {
    FoundSplitMatches(NonTrading(row.splits), account, true);
    KeptFractionsAreVerbatim(OwnSplit(row, account).value, e.amount);
    KeptFractionsAreVerbatim(OtherSplit(row, account).value, -e.amount);
  }

  lemma {:induction false} FoundSplitMatches(splits: seq<Split>, account: string, same: bool)
    requires FindSplit(splits, account, same).Some?
    ensures var s := FindSplit(splits, account, same).value;
      s in splits && ((s.account == account) == same)
  {
    if (splits[0].account == account) != same {
      FoundSplitMatches(splits[1..], account, same);
    }
  }

  /** A stored share or foreign-currency transaction is sent with all fractions verbatim, or not sent at all. */
  lemma SharesNeverRecomputed(row: Row, account: string, e: Edit)
    requires !row.isNew && exists s :: s in row.splits && IsNonCurrency(s)
    requires OwnSplit(row, account).Some? && OtherSplit(row, account).Some?
    requires HasDenominators(OwnSplit(row, account).value) && HasDenominators(OtherSplit(row, account).value)
    ensures match Save(row, account, e)
      case FullEditor => e.suggested != [] || AmountChanged(row, e) || TransferChanged(row, account, e)
      case Send(sent) => |sent| == 2 && sent[0].fractions == Stored(OwnSplit(row, account).value)
                                     && sent[1].fractions == Stored(OtherSplit(row, account).value)
  {
  }

  lemma {:induction false} NonTradingMembers(splits: seq<Split>, s: Split)
    ensures s in NonTrading(splits) <==> s in splits && !IsTrading(s)
  {
    if splits != [] {
      NonTradingMembers(splits[1..], s);
      assert splits == [splits[0]] + splits[1..];
    }
  }

  /** Each side is a stored split that is not a trading one, own or not; it is missing only if there is none. */
  lemma SidesAreNotTrading(row: Row, account: string, same: bool)
    ensures var found := if same then OwnSplit(row, account) else OtherSplit(row, account);
      match found
      case Some(s) => s in row.splits && !("Trading:" <= s.fullName) && ((s.account == account) == same)
      case None => forall s :: s in row.splits && !("Trading:" <= s.fullName) ==> ((s.account == account) != same)
  {
    FoundSplitIsFirst(NonTrading(row.splits), account, same);
    forall s
      ensures s in NonTrading(row.splits) <==> s in row.splits && !IsTrading(s)
    {
      NonTradingMembers(row.splits, s);
    }
  }

  ghost predicate DistinctGuids(splits: seq<Split>) {
    forall k, m :: 0 <= k < m < |splits| ==> splits[k].guid != splits[m].guid
  }

  /** The payload carries this stored split, under its guid and with its fractions. */
  ghost predicate SentVerbatim(s: Split, sent: seq<Payload>) {
    exists p :: p in sent && p.guid == Some(s.guid) && p.fractions == Stored(s)
  }

  /** Where the own and the other split are stored. */
  lemma TwoStored(row: Row, account: string) returns (i: nat, j: nat)
    requires OwnSplit(row, account).Some? && OtherSplit(row, account).Some?
    ensures i < |row.splits| && j < |row.splits| && i != j
    ensures row.splits[i] == OwnSplit(row, account).value && row.splits[j] == OtherSplit(row, account).value
    ensures !IsTrading(row.splits[i]) && !IsTrading(row.splits[j])
  {
    var own, other := OwnSplit(row, account).value, OtherSplit(row, account).value;
    FoundSplitMatches(NonTrading(row.splits), account, true);
    FoundSplitMatches(NonTrading(row.splits), account, false);
    NonTradingMembers(row.splits, own);
    NonTradingMembers(row.splits, other);
    i :| 0 <= i < |row.splits| && row.splits[i] == own;
    j :| 0 <= j < |row.splits| && row.splits[j] == other;
  }

  lemma UntouchedFractions(row: Row, account: string, e: Edit)
    requires OwnSplit(row, account).Some? && OtherSplit(row, account).Some?
    requires !AmountChanged(row, e) && !TransferChanged(row, account, e)
    requires HasDenominators(OwnSplit(row, account).value) && HasDenominators(OtherSplit(row, account).value)
    ensures var own, other, sent := OwnSplit(row, account).value, OtherSplit(row, account).value, TwoSplitPayload(row, account, e);
      && |sent| == 2 && sent[0].guid == Some(own.guid) && sent[1].guid == Some(other.guid)
      && sent[0].fractions == Stored(own) && sent[1].fractions == Stored(other)
  {
  }

  /**
   * An untouched save speaks of one own and one other split only: every stored split is sent, with
   * its fractions, exactly when there are no others and none of them is a trading split.
   */
  lemma EverySplitIsSentIff(row: Row, account: string, e: Edit)
    requires OwnSplit(row, account).Some? && OtherSplit(row, account).Some? && DistinctGuids(row.splits)
    requires !AmountChanged(row, e) && !TransferChanged(row, account, e)
    requires HasDenominators(OwnSplit(row, account).value) && HasDenominators(OtherSplit(row, account).value)
    ensures (forall s :: s in row.splits ==> SentVerbatim(s, TwoSplitPayload(row, account, e)))
       <==> |row.splits| == 2 && forall s :: s in row.splits ==> !("Trading:" <= s.fullName)
  {
    var sent := TwoSplitPayload(row, account, e);
    UntouchedFractions(row, account, e);
    var i, j := TwoStored(row, account);
    assert SentVerbatim(row.splits[i], sent) by {
      assert sent[0] in sent;
    }
    assert SentVerbatim(row.splits[j], sent) by {
      assert sent[1] in sent;
    }
    forall k: nat | k < |row.splits| && k != i && k != j
      ensures !SentVerbatim(row.splits[k], sent)
    {
      assert row.splits[k].guid != row.splits[i].guid && row.splits[k].guid != row.splits[j].guid;
    }
    if |row.splits| > 2 {
      var k: nat := if i != 0 && j != 0 then 0 else if i != 1 && j != 1 then 1 else 2;
      assert row.splits[k] in row.splits;
    }
  }

  // ----- Edited amounts -----

  /**
   * The sum of two values, counted in units of 1/(d1 * d2):
   * n1/d1 + n2/d2 == Imbalance / (d1 * d2).
   */
  function Imbalance(f: Fractions, g: Fractions): int {
    Cross(f.valueNum, f.valueDenom, g.valueNum, g.valueDenom)
  }

  function Cross(n1: int, d1: int, n2: int, d2: int): int {
    n1 * d2 + n2 * d1
  }

  lemma SmallTimes(x: real, d: real)
    requires -0.5 <= x <= 0.5 && d > 0.0
    ensures -0.5 * d <= x * d
    ensures x * d <= 0.5 * d
  {
    assert (0.5 - x) * d >= 0.0 && (x + 0.5) * d >= 0.0;
  }

  /** A rounding error carried to the other side's denominator. */
  lemma Carried(x: real, d: int) returns (p: real)
    requires -0.5 <= x <= 0.5 && d > 0
    ensures p == x * d as real
    ensures -0.5 * d as real <= p
    ensures p <= 0.5 * d as real
  {
    p := x * d as real;
    SmallTimes(x, d as real);
  }

  lemma CommonScale(amount: real, d1: int, d2: int)
    ensures InDenom(amount, d1) * d2 as real == InDenom(amount, d2) * d1 as real
    ensures InDenom(-amount, d2) == -InDenom(amount, d2)
  {
  }

  lemma CrossIsReal(n1: int, d1: int, n2: int, d2: int)
    ensures Cross(n1, d1, n2, d2) as real == n1 as real * d2 as real + n2 as real * d1 as real
  {
  }

  lemma CrossOfErrors(n1: real, n2: real, x: real, y: real, d1: real, d2: real, a: real, b: real)
    requires x * d2 == y * d1 && a == n1 - x && b == n2 + y
    ensures n1 * d2 + n2 * d1 == a * d2 + b * d1
  {
  }

  /** `p` and `q` are the two rounding errors, each carried to the other side's denominator. */
  lemma ErrorsBound(c: int, p: real, q: real, d1: int, d2: int)
    requires c as real == p + q
    requires -0.5 * d2 as real <= p
    requires p <= 0.5 * d2 as real
    requires -0.5 * d1 as real <= q
    requires q <= 0.5 * d1 as real
    ensures -(d1 + d2) <= 2 * c <= d1 + d2
  {
    assert (2 * c) as real == 2.0 * (p + q);
  }

  lemma CrossErrors(n1: int, d1: int, n2: int, d2: int, x: real, y: real) returns (p: real, q: real)
    requires d1 > 0 && d2 > 0 && x * d2 as real == y * d1 as real
    requires -0.5 <= n1 as real - x <= 0.5 && -0.5 <= n2 as real + y <= 0.5
    ensures Cross(n1, d1, n2, d2) as real == p + q
    ensures -0.5 * d2 as real <= p
    ensures p <= 0.5 * d2 as real
    ensures -0.5 * d1 as real <= q
    ensures q <= 0.5 * d1 as real
  {
    var a, b := n1 as real - x, n2 as real + y;
    p := Carried(a, d2);
    q := Carried(b, d1);
    CrossIsReal(n1, d1, n2, d2);
    CrossOfErrors(n1 as real, n2 as real, x, y, d1 as real, d2 as real, a, b);
  }

  lemma CrossBounded(n1: int, d1: int, n2: int, d2: int, x: real, y: real)
    requires d1 > 0 && d2 > 0 && x * d2 as real == y * d1 as real
    requires -0.5 <= n1 as real - x <= 0.5 && -0.5 <= n2 as real + y <= 0.5
    ensures -(d1 + d2) <= 2 * Cross(n1, d1, n2, d2) <= d1 + d2
  {
    var p, q := CrossErrors(n1, d1, n2, d2, x, y);
    ErrorsBound(Cross(n1, d1, n2, d2), p, q, d1, d2);
  }

  lemma CrossExact(n1: int, d1: int, n2: int, d2: int, x: real, y: real)
    requires x * d2 as real == y * d1 as real && n1 as real == x && n2 as real == -y
    ensures Cross(n1, d1, n2, d2) == 0
  {
    CrossIsReal(n1, d1, n2, d2);
  }

  /** Rounding `amount` at one denominator and its negation at another leaves at most half a unit of each. */
  lemma OppositesAlmostCancel(amount: real, d1: int, d2: int)
    requires d1 > 0 && d2 > 0
    ensures var n1, n2 := RoundedAt(amount, d1), RoundedAt(-amount, d2);
      && -(d1 + d2) <= 2 * Cross(n1, d1, n2, d2) <= d1 + d2
      && (ExactAt(amount, d1) && ExactAt(amount, d2) ==> Cross(n1, d1, n2, d2) == 0)
  {
    var x, y := InDenom(amount, d1), InDenom(amount, d2);
    CommonScale(amount, d1, d2);
    ResidueRange(x);
    ResidueRange(-y);
    CrossBounded(Round(x), d1, Round(-y), d2, x, y);
    if Whole(x) && Whole(y) {
      NegatedWhole(y);
      CrossExact(Round(x), d1, Round(-y), d2, x, y);
    }
  }

  lemma NegatedWhole(x: real)
    requires Whole(x)
    ensures Whole(-x)
  {
    var n := x.Floor;
    assert -x == (-n) as real;
    assert (-x).Floor == -n;
  }

  /** An amount edit on a currency transaction whose two sides have denominators `d1` and `d2`. */
  ghost predicate EditedPair(row: Row, account: string, e: Edit, d1: int, d2: int) {
    && OwnSplit(row, account).Some? && OtherSplit(row, account).Some? && e.suggested == []
    && AmountChanged(row, e) && d1 > 0 && d2 > 0
    && OwnSplit(row, account).value.valueDenom == d1 && !IsNonCurrency(OwnSplit(row, account).value)
    && OtherSplit(row, account).value.valueDenom == d2 && !IsNonCurrency(OtherSplit(row, account).value)
  }

  /** Both sides are rounded at their own denominators, and each quantity is its value. */
  lemma EditedFractions(row: Row, account: string, e: Edit, d1: int, d2: int)
    requires EditedPair(row, account, e, d1, d2)
    ensures var n1, n2 := RoundedAt(e.amount, d1), RoundedAt(-e.amount, d2);
      && TwoSplitPayload(row, account, e)[0].fractions == Fractions(n1, d1, n1, d1)
      && TwoSplitPayload(row, account, e)[1].fractions == Fractions(n2, d2, n2, d2)
  {
  }

  /** After an amount edit the own side carries the typed amount and the other side its negation. */
  lemma EditedPairCarriesTheAmount(row: Row, account: string, e: Edit, d1: int, d2: int)
    requires EditedPair(row, account, e, d1, d2)
    ensures var sent := TwoSplitPayload(row, account, e);
      CarriesAmount(sent[0].fractions, e.amount, d1) && CarriesAmount(sent[1].fractions, -e.amount, d2)
    ensures var sent := TwoSplitPayload(row, account, e);
      -0.5 < sent[1].fractions.valueNum as real + e.amount * d2 as real <= 0.5
  {
    RecomputedFractions(OwnSplit(row, account), e.amount);
    RecomputedFractions(OtherSplit(row, account), -e.amount);
    CommonScale(e.amount, d1, d2);
  }

  /** At most half a unit of each denominator, in units of one over their product. */
  predicate AlmostBalanced(f: Fractions, g: Fractions) {
    -(f.valueDenom + g.valueDenom) <= 2 * Imbalance(f, g) <= f.valueDenom + g.valueDenom
  }

  lemma PairAlmostBalances(amount: real, d1: int, d2: int)
    requires d1 > 0 && d2 > 0
    ensures var n1, n2 := RoundedAt(amount, d1), RoundedAt(-amount, d2);
      var f, g := Fractions(n1, d1, n1, d1), Fractions(n2, d2, n2, d2);
      AlmostBalanced(f, g) && (ExactAt(amount, d1) && ExactAt(amount, d2) ==> Imbalance(f, g) == 0)
  {
    OppositesAlmostCancel(amount, d1, d2);
  }

  /**
   * After an amount edit on currency splits each side carries its amount, the two values cancel up to
   * half a unit of each denominator, and entirely when the amount is exact at both.
   */
  lemma EditedAmountsBalance(row: Row, account: string, e: Edit, d1: int, d2: int)
    requires EditedPair(row, account, e, d1, d2)
    ensures var sent := TwoSplitPayload(row, account, e);
      && AlmostBalanced(sent[0].fractions, sent[1].fractions)
      && (ExactAt(e.amount, d1) && ExactAt(e.amount, d2) ==>
            Imbalance(sent[0].fractions, sent[1].fractions) == 0)
    ensures var sent := TwoSplitPayload(row, account, e);
      CarriesAmount(sent[0].fractions, e.amount, d1) && CarriesAmount(sent[1].fractions, -e.amount, d2)
  {
    EditedPairCarriesTheAmount(row, account, e, d1, d2);
    EditedFractions(row, account, e, d1, d2);
    PairAlmostBalances(e.amount, d1, d2);
  }

  /** At one common denominator the edit balances unless the amount is exactly half a unit. */
  lemma EqualDenominatorsBalanceIffNotHalf(row: Row, account: string, e: Edit, d: int)
    requires EditedPair(row, account, e, d, d)
    ensures var sent := TwoSplitPayload(row, account, e);
      sent[0].fractions.valueNum + sent[1].fractions.valueNum == 0 <==> !Half(e.amount * d as real)
  {
    EditedFractions(row, account, e, d, d);
    RoundedOpposites(InDenom(e.amount, d));
    CommonScale(e.amount, d, d);
  }

  // ----- Claiming prior splits -----

  function Accounts(splits: seq<Split>): seq<string> {
    seq(|splits|, i requires 0 <= i < |splits| => splits[i].account)
  }

  function SuggestedAccounts(suggested: seq<Suggestion>): seq<string> {
    seq(|suggested|, i requires 0 <= i < |suggested| => suggested[i].account)
  }

  /** How many of the listed accounts are `a`. */
  function Count(accounts: seq<string>, a: string): nat {
    if accounts == [] then 0
    else Count(accounts[..|accounts| - 1], a) + (if accounts[|accounts| - 1] == a then 1 else 0)
  }

  /** The place of entry `k` among the entries of its own account. */
  function Rank(accounts: seq<string>, k: nat): nat
    requires k < |accounts|
  {
    Count(accounts[..k], accounts[k])
  }

  /** The prior split of account `a` with rank `r`. */
  function PriorOfRank(priors: seq<Split>, a: string, r: nat): Option<nat> {
    if exists k: nat :: k < |priors| && priors[k].account == a && Rank(Accounts(priors), k) == r then
      RankIsUnique(priors, a, r);
      var k: nat :| k < |priors| && priors[k].account == a && Rank(Accounts(priors), k) == r;
      Some(k)
    else None
  }

  lemma {:induction false} CountGrows(accounts: seq<string>, i: nat, j: nat, a: string)
    requires i <= j <= |accounts|
    ensures Count(accounts[..i], a) <= Count(accounts[..j], a)
    ensures i < j && accounts[i] == a ==> Count(accounts[..i], a) < Count(accounts[..j], a)
    decreases j - i
  {
    if i < j {
      CountGrows(accounts, i, j - 1, a);
      assert accounts[..j][..j - 1] == accounts[..j - 1];
    }
  }

  lemma RankIsUnique(priors: seq<Split>, a: string, r: nat)
    ensures forall k: nat, m: nat | k < |priors| && m < |priors| && priors[k].account == a && priors[m].account == a ::
              Rank(Accounts(priors), k) == r == Rank(Accounts(priors), m) ==> k == m
  {
    forall k: nat, m: nat | k < m < |priors| && priors[k].account == a && priors[m].account == a
      ensures Rank(Accounts(priors), k) < Rank(Accounts(priors), m)
    {
      CountGrows(Accounts(priors), k, m, a);
    }
  }

  /** The claim loop pairs the suggestions and the prior splits of an account by rank, whatever their amounts. */
  function ClaimOf(priors: seq<Split>, suggested: seq<Suggestion>, j: nat): Option<nat>
    requires j < |suggested|
  {
    PriorOfRank(priors, suggested[j].account, Rank(SuggestedAccounts(suggested), j))
  }

  /** |prior - suggested| is below half a cent. */
  predicate Intact(prior: Split, s: Suggestion) {
    && prior.valueDenom != 0
    && var gap := prior.valueNum as real / prior.valueDenom as real - s.amount;
    -0.005 < gap < 0.005
  }

  function PayloadFor(claim: Option<nat>, priors: seq<Split>, s: Suggestion): Payload
    requires claim.Some? ==> claim.value < |priors|
  {
    var num := Cents(s.amount);
    var intact := claim.Some? && Intact(priors[claim.value], s);
    Payload(if intact then Some(priors[claim.value].guid) else None,
            s.account,
            Fractions(num, 100, num, 100),
            if claim.Some? then priors[claim.value].memo else "",
            if intact then OrState(priors[claim.value].reconcile) else "n")
  }

  function ClaimedPayload(priors: seq<Split>, suggested: seq<Suggestion>): seq<Payload> {
    seq(|suggested|, j requires 0 <= j < |suggested| => PayloadFor(ClaimOf(priors, suggested, j), priors, suggested[j]))
  }

  /** Below half a cent apart, counted at the prior split's own denominator. */
  lemma IntactIs(prior: Split, s: Suggestion)
    requires prior.valueDenom > 0
    ensures var d := prior.valueDenom as real;
      Intact(prior, s) <==> -0.005 * d < prior.valueNum as real - s.amount * d < 0.005 * d
  {
    GapTimes(prior.valueNum as real, s.amount, prior.valueDenom as real);
  }

  lemma GapTimes(n: real, amount: real, d: real)
    requires d > 0.0
    ensures -0.005 < n / d - amount < 0.005 <==> -0.005 * d < n - amount * d < 0.005 * d
  {
    var gap, times := ScaledGap(n, amount, d);
    TimesBetween(gap, times, d);
  }

  lemma ScaledGap(n: real, amount: real, d: real) returns (gap: real, times: real)
    requires d > 0.0
    ensures gap == n / d - amount && times == gap * d
    ensures times == n - amount * d
  {
    gap := n / d - amount;
    times := gap * d;
    assert (n / d) * d == n;
  }

  lemma TimesBetween(gap: real, times: real, d: real)
    requires d > 0.0 && times == gap * d
    ensures -0.005 < gap <==> -0.005 * d < times
    ensures gap < 0.005 <==> times < 0.005 * d
  {
    TimesOrder(gap, 0.005, d, times, 0.005 * d);
    TimesOrder(-0.005, gap, d, -0.005 * d, times);
  }

  lemma TimesOrder(x: real, y: real, d: real, xd: real, yd: real)
    requires d > 0.0 && xd == x * d && yd == y * d
    ensures x < y <==> xd < yd
  {
    assert yd - xd == (y - x) * d;
    if x < y {
      assert (y - x) * d > 0.0;
    } else {
      assert (x - y) * d >= 0.0;
    }
  }

  /**
   * What a suggestion is sent as: its account and amount in cents; the memo of the prior split it
   * claims; and that split's state only together with its guid.
   */
  lemma ClaimedPayloadCarries(priors: seq<Split>, suggested: seq<Suggestion>, j: nat)
    requires j < |suggested|
    ensures |ClaimedPayload(priors, suggested)| == |suggested|
    ensures var p, claim := ClaimedPayload(priors, suggested)[j], ClaimOf(priors, suggested, j);
      && p.account == suggested[j].account && CarriesAmount(p.fractions, suggested[j].amount, 100)
      && (claim == None ==> p.guid == None && p.memo == "" && p.reconcile == "n")
      && (claim.Some? ==> claim.value < |priors| && p.memo == priors[claim.value].memo)
      && (p.guid == None ==> p.reconcile == "n")
      && (p.guid.Some? ==> claim.Some? && p.guid.value == priors[claim.value].guid
                           && p.reconcile == if priors[claim.value].reconcile == "" then "n" else priors[claim.value].reconcile)
  {
    ClaimsAreOneToOne(priors, suggested);
    RoundIsNearest(suggested[j].amount * 100.0);
  }

  ghost predicate HasRank(accounts: seq<string>, a: string, r: nat) {
    exists k: nat :: k < |accounts| && accounts[k] == a && Rank(accounts, k) == r
  }

  lemma RankInFront(accounts: seq<string>, k: nat)
    requires k < |accounts| - 1
    ensures Rank(accounts[..|accounts| - 1], k) == Rank(accounts, k)
  {
    assert accounts[..|accounts| - 1][..k] == accounts[..k];
  }

  lemma HasRankSnoc(accounts: seq<string>, a: string, r: nat)
    requires accounts != []
    ensures var before := accounts[..|accounts| - 1];
      HasRank(accounts, a, r) <==> HasRank(before, a, r) || (accounts[|accounts| - 1] == a && r == Count(before, a))
  {
    var before := accounts[..|accounts| - 1];
    if HasRank(before, a, r) {
      var k: nat :| k < |before| && before[k] == a && Rank(before, k) == r;
      RankInFront(accounts, k);
    }
    if HasRank(accounts, a, r) {
      var k: nat :| k < |accounts| && accounts[k] == a && Rank(accounts, k) == r;
      if k < |before| {
        RankInFront(accounts, k);
        assert before[k] == a;
      }
    }
    assert accounts[|accounts| - 1] == a ==> Rank(accounts, |accounts| - 1) == Count(before, a);
  }

  lemma {:induction false} RankBelowCount(accounts: seq<string>, a: string, r: nat)
    ensures HasRank(accounts, a, r) <==> r < Count(accounts, a)
    decreases |accounts|
  {
    if accounts != [] {
      RankBelowCount(accounts[..|accounts| - 1], a, r);
      HasRankSnoc(accounts, a, r);
    }
  }

  /**
   * What the claim of suggestion `j` is: a prior split of the same account with the same rank, so
   * no prior is claimed twice; and there is one exactly while the account still has priors left.
   */
  lemma ClaimsAreOneToOne(priors: seq<Split>, suggested: seq<Suggestion>)
    ensures forall j: nat | j < |suggested| && ClaimOf(priors, suggested, j).Some? ::
              var k := ClaimOf(priors, suggested, j).value;
              k < |priors| && priors[k].account == suggested[j].account
    ensures forall i: nat, j: nat | i < j < |suggested| && ClaimOf(priors, suggested, i).Some? ::
              ClaimOf(priors, suggested, i) != ClaimOf(priors, suggested, j)
    ensures forall j: nat | j < |suggested| ::
              ClaimOf(priors, suggested, j).Some? <==>
              Rank(SuggestedAccounts(suggested), j) < Count(Accounts(priors), suggested[j].account)
  {
    var names := SuggestedAccounts(suggested);
    forall j: nat | j < |suggested|
      ensures ClaimOf(priors, suggested, j).Some? <==> Rank(names, j) < Count(Accounts(priors), suggested[j].account)
    {
      RankBelowCount(Accounts(priors), suggested[j].account, Rank(names, j));
      if Rank(names, j) < Count(Accounts(priors), suggested[j].account) {
        var k: nat :| k < |Accounts(priors)| && Accounts(priors)[k] == suggested[j].account
                      && Rank(Accounts(priors), k) == Rank(names, j);
        assert priors[k].account == suggested[j].account;
      }
    }
    forall i: nat, j: nat | i < j < |suggested| && ClaimOf(priors, suggested, i).Some?
      ensures ClaimOf(priors, suggested, i) != ClaimOf(priors, suggested, j)
    {
      if names[i] == names[j] {
        CountGrows(names, i, j, names[i]);
      }
    }
  }

  /** How many of the first `n` suggestions for account `a` claim a prior split. */
  ghost function Claimed(priors: seq<Split>, suggested: seq<Suggestion>, a: string, n: nat): nat
    requires n <= |suggested|
  {
    if n == 0 then 0
    else Claimed(priors, suggested, a, n - 1)
         + (if suggested[n - 1].account == a && ClaimOf(priors, suggested, n - 1).Some? then 1 else 0)
  }

  lemma {:induction false} ClaimedSoFar(priors: seq<Split>, suggested: seq<Suggestion>, a: string, n: nat)
    requires n <= |suggested|
    ensures Claimed(priors, suggested, a, n)
         == Min(Count(Accounts(priors), a), Count(SuggestedAccounts(suggested)[..n], a))
    decreases n
  {
    if n > 0 {
      ClaimedSoFar(priors, suggested, a, n - 1);
      ClaimsAreOneToOne(priors, suggested);
      var names := SuggestedAccounts(suggested);
      assert names[..n][..n - 1] == names[..n - 1];
      assert names[n - 1] == suggested[n - 1].account;
    }
  }

  /** Per account, as many prior splits are claimed as the smaller of the two sides allows. */
  lemma ClaimCount(priors: seq<Split>, suggested: seq<Suggestion>, a: string)
    ensures Claimed(priors, suggested, a, |suggested|)
         == Min(Count(Accounts(priors), a), Count(SuggestedAccounts(suggested), a))
  {
    ClaimedSoFar(priors, suggested, a, |suggested|);
    assert SuggestedAccounts(suggested)[..|suggested|] == SuggestedAccounts(suggested);
  }

  /** The guids sent are distinct, and each names a prior split of that account within half a cent. */
  lemma SentGuidsAreSound(priors: seq<Split>, suggested: seq<Suggestion>)
    requires DistinctGuids(priors)
    ensures var sent := ClaimedPayload(priors, suggested);
      && (forall i, j | 0 <= i < j < |sent| && sent[i].guid.Some? :: sent[i].guid != sent[j].guid)
      && (forall j | 0 <= j < |sent| && sent[j].guid.Some? ::
            exists k :: 0 <= k < |priors| && priors[k].guid == sent[j].guid.value
                        && priors[k].account == sent[j].account && Intact(priors[k], suggested[j]))
  {
    ClaimsAreOneToOne(priors, suggested);
  }

  /**
   * Same account and same amount is not enough to be "the same split": suggestions listed in the
   * other order claim by rank and keep neither guid.
   */
  lemma ReorderedSuggestionsLoseTheirSplits(p: Split, q: Split)
    requires p.account == q.account && p.valueDenom == 100 && q.valueDenom == 100 && p.valueNum != q.valueNum
    ensures var suggested := [Suggestion(q.account, q.valueNum as real / 100.0), Suggestion(p.account, p.valueNum as real / 100.0)];
      var sent := ClaimedPayload([p, q], suggested);
      && Intact(q, suggested[0]) && Intact(p, suggested[1])
      && sent[0].guid == None && sent[1].guid == None
  {
    var suggested := [Suggestion(q.account, q.valueNum as real / 100.0), Suggestion(p.account, p.valueNum as real / 100.0)];
    var priors := [p, q];
    assert Accounts(priors)[..0] == [] && Accounts(priors)[..1] == [p.account];
    assert Accounts(priors)[..1][..0] == [] && SuggestedAccounts(suggested)[..1][..0] == [];
    assert SuggestedAccounts(suggested)[..0] == [] && SuggestedAccounts(suggested)[..1] == [p.account];
    assert Rank(Accounts(priors), 0) == 0 && Rank(Accounts(priors), 1) == 1;
    assert Rank(SuggestedAccounts(suggested), 0) == 0 && Rank(SuggestedAccounts(suggested), 1) == 1;
    RankIsUnique(priors, p.account, 0);
    RankIsUnique(priors, p.account, 1);
    assert ClaimOf(priors, suggested, 0) == Some(0) && ClaimOf(priors, suggested, 1) == Some(1);
  }

  lemma ClaimIs(priors: seq<Split>, suggested: seq<Suggestion>, j: nat, k: nat)
    requires j < |suggested| && k < |priors|
    ensures ClaimOf(priors, suggested, j) == Some(k) <==>
      priors[k].account == suggested[j].account && Rank(Accounts(priors), k) == Rank(SuggestedAccounts(suggested), j)
  {
    RankIsUnique(priors, suggested[j].account, Rank(SuggestedAccounts(suggested), j));
  }

  /**
   * Exactly when suggestion `j` is sent as prior split `k`: they lie on one account, they have the
   * same rank there, and their amounts differ by less than half a cent.
   */
  lemma KeepsGuidIff(priors: seq<Split>, suggested: seq<Suggestion>, j: nat, k: nat)
    requires DistinctGuids(priors) && j < |suggested| && k < |priors|
    ensures ClaimedPayload(priors, suggested)[j].guid == Some(priors[k].guid) <==>
      && priors[k].account == suggested[j].account
      && Rank(Accounts(priors), k) == Rank(SuggestedAccounts(suggested), j)
      && Intact(priors[k], suggested[j])
  {
    ClaimsAreOneToOne(priors, suggested);
    ClaimIs(priors, suggested, j, k);
  }

  /** "The same account with the same amount." */
  predicate SameSplit(prior: Split, s: Suggestion) {
    prior.account == s.account && Intact(prior, s)
  }

  /** The prior split at the suggestion's own rank is within half a cent of it. */
  ghost predicate OwnRankIntact(priors: seq<Split>, suggested: seq<Suggestion>, j: nat)
    requires j < |suggested|
  {
    exists k: nat :: k < |priors| && SameSplit(priors[k], suggested[j])
                     && Rank(Accounts(priors), k) == Rank(SuggestedAccounts(suggested), j)
  }

  lemma KeepsSomeGuidIff(priors: seq<Split>, suggested: seq<Suggestion>, j: nat)
    requires DistinctGuids(priors) && j < |suggested|
    ensures ClaimedPayload(priors, suggested)[j].guid.Some? <==> OwnRankIntact(priors, suggested, j)
  {
    SentGuidsAreSound(priors, suggested);
    if ClaimedPayload(priors, suggested)[j].guid.Some? {
      var k :| 0 <= k < |priors| && priors[k].guid == ClaimedPayload(priors, suggested)[j].guid.value;
      KeepsGuidIff(priors, suggested, j, k);
    }
    if OwnRankIntact(priors, suggested, j) {
      var k: nat :| k < |priors| && SameSplit(priors[k], suggested[j])
                    && Rank(Accounts(priors), k) == Rank(SuggestedAccounts(suggested), j);
      KeepsGuidIff(priors, suggested, j, k);
    }
  }

  ghost predicate HasSameSplit(priors: seq<Split>, s: Suggestion) {
    exists k: nat :: k < |priors| && SameSplit(priors[k], s)
  }

  /**
   * What the save means to do, keep each split that has the same account and amount, it does if and
   * only if every such suggestion finds that amount at its own rank within the account.
   */
  lemma SameSplitsKeptIff(priors: seq<Split>, suggested: seq<Suggestion>)
    requires DistinctGuids(priors)
    ensures (forall j: nat | j < |suggested| && HasSameSplit(priors, suggested[j]) ::
               ClaimedPayload(priors, suggested)[j].guid.Some?)
       <==> (forall j: nat | j < |suggested| && HasSameSplit(priors, suggested[j]) :: OwnRankIntact(priors, suggested, j))
  {
    forall j: nat | j < |suggested|
      ensures ClaimedPayload(priors, suggested)[j].guid.Some? <==> OwnRankIntact(priors, suggested, j)
    {
      KeepsSomeGuidIff(priors, suggested, j);
    }
  }

  /** The claimed guids once the suggestions for `names[..j]` are served: of each account the lowest ranks. */
  ghost predicate ServedUpTo(priors: seq<Split>, names: seq<string>, claimed: set<string>, j: nat)
    requires j <= |names|
  {
    forall k: nat | k < |priors| ::
      priors[k].guid in claimed <==> Rank(Accounts(priors), k) < Count(names[..j], priors[k].account)
  }

  lemma ServeOneMore(priors: seq<Split>, names: seq<string>, claimed: set<string>, j: nat, prior: Option<nat>)
    requires DistinctGuids(priors)
    requires j < |names| && ServedUpTo(priors, names, claimed, j)
    requires prior == PriorOfRank(priors, names[j], Count(names[..j], names[j]))
    ensures ServedUpTo(priors, names, if prior.Some? then claimed + {priors[prior.value].guid} else claimed, j + 1)
  {
    RankIsUnique(priors, names[j], Count(names[..j], names[j]));
    assert names[..j + 1][..j] == names[..j];
  }

  lemma ServedBelowRank(priors: seq<Split>, names: seq<string>, claimed: set<string>, j: nat, account: string)
    requires j <= |names| && ServedUpTo(priors, names, claimed, j)
    ensures LowRanksClaimed(priors, account, claimed, Count(names[..j], account))
  {
  }

  lemma OneMorePayload(priors: seq<Split>, suggested: seq<Suggestion>, j: nat)
    requires j < |suggested|
    ensures var all := ClaimedPayload(priors, suggested);
      all[..j + 1] == all[..j] + [PayloadFor(ClaimOf(priors, suggested, j), priors, suggested[j])]
  {
    var all := ClaimedPayload(priors, suggested);
    assert all[j] == PayloadFor(ClaimOf(priors, suggested, j), priors, suggested[j]);
    assert all[..j + 1] == all[..j] + [all[j]];
  }

  /** The claim loop as written: a set of claimed guids and a search per suggestion. */
  method ClaimPriors(priors: seq<Split>, suggested: seq<Suggestion>) returns (sent: seq<Payload>)
    requires DistinctGuids(priors)
    ensures sent == ClaimedPayload(priors, suggested)
  {
    var claimed: set<string> := {};
    ghost var names := SuggestedAccounts(suggested);
    ghost var all := ClaimedPayload(priors, suggested);
    sent := [];
    for j := 0 to |suggested|
      invariant sent == all[..j]
      invariant ServedUpTo(priors, names, claimed, j)
    {
      var s := suggested[j];
      ServedBelowRank(priors, names, claimed, j, s.account);
      var prior := FindUnclaimed(priors, s.account, claimed, Count(names[..j], s.account));
      assert prior == ClaimOf(priors, suggested, j);
      ServeOneMore(priors, names, claimed, j, prior);
      OneMorePayload(priors, suggested, j);
      if prior.Some? {
        claimed := claimed + {priors[prior.value].guid};
      }
      sent := sent + [PayloadFor(prior, priors, s)];
    }
  }

  /** Of the account's prior splits exactly those of rank below `r` are claimed. */
  ghost predicate LowRanksClaimed(priors: seq<Split>, account: string, claimed: set<string>, r: nat) {
    forall k :: 0 <= k < |priors| && priors[k].account == account ==>
      (priors[k].guid in claimed <==> Rank(Accounts(priors), k) < r)
  }

  /** nonTradingSplits.find: the first unclaimed split of the account. */
  method FindUnclaimed(priors: seq<Split>, account: string, claimed: set<string>, ghost r: nat) returns (found: Option<nat>)
    requires LowRanksClaimed(priors, account, claimed, r)
    ensures found == PriorOfRank(priors, account, r)
  {
    var i := 0;
    while i < |priors| && !(priors[i].account == account && priors[i].guid !in claimed)
      invariant 0 <= i <= |priors|
      invariant Count(Accounts(priors)[..i], account) <= r
      invariant forall k :: 0 <= k < i && priors[k].account == account ==> Rank(Accounts(priors), k) < r
    {
      assert Accounts(priors)[..i + 1][..i] == Accounts(priors)[..i];
      i := i + 1;
    }
    RankIsUnique(priors, account, r);
    if i == |priors| {
      found := None;
    } else {
      found := Some(i);
      assert Rank(Accounts(priors), i) == r;
    }
  }
}
