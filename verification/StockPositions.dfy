/** The oversell guards of the investment form and of the ledger's inline save, over any run of both. */
module StockPositions {
  import opened Prelude
  import opened Rounding
  import opened InvestmentSplits

  /** The stock quantity of each transaction, in units of 1/fraction. */
  type Holdings = seq<int>

  function Position(h: Holdings): int {
    if h == [] then 0 else Position(h[..|h| - 1]) + h[|h| - 1]
  }

  /** currentShares. */
  function Held(h: Holdings, fraction: int): real
    requires fraction > 0
  {
    Position(h) as real / fraction as real
  }

  /** What the splits add to the stock account; its splits are in 1/fraction or of quantity zero. */
  function StockUnits(splits: seq<Split>, account: string): int {
    if splits == [] then 0
    else (if splits[0].account == account then splits[0].quantityNum else 0) + StockUnits(splits[1..], account)
  }

  /** An inline row: a new transaction, or an edit of the one at `index`. */
  datatype InlineEdit = InlineEdit(index: Option<nat>, isBuy: bool, shares: real, total: real)

  datatype Step = Enter(form: Form) | Inline(edit: InlineEdit)

  predicate Fits(h: Holdings, s: Step) {
    s.Inline? && s.edit.index.Some? ==> s.edit.index.value < |h|
  }

  function Original(h: Holdings, e: InlineEdit): int
    requires Fits(h, Inline(e))
  {
    if e.index.Some? then h[e.index.value] else 0
  }

  /** The guard of handleInvestmentInlineSave: a sell being edited is available again, a buy stays counted. */
  predicate InlineRefused(h: Holdings, e: InlineEdit, fraction: int)
    requires fraction > 0 && Fits(h, Inline(e))
  {
    var original := Original(h, e) as real / fraction as real;
    !e.isBuy && Oversells(e.shares, Held(h, fraction) + (if original < 0.0 then -original else 0.0), fraction)
  }

  function InlineUnits(e: InlineEdit, fraction: int): int {
    Units(if e.isBuy then e.shares else -e.shares, fraction)
  }

  predicate Taken(h: Holdings, s: Step, fraction: int)
    requires fraction > 0 && Fits(h, s)
  {
    match s
    case Enter(form) => Accepted(form, Held(h, fraction), fraction)
    case Inline(e) => !InlineRefused(h, e, fraction)
  }

  function Next(h: Holdings, s: Step, account: string, fraction: int): Holdings
    requires fraction > 0 && Fits(h, s)
  {
    if !Taken(h, s, fraction) then h
    else
      match s
      case Enter(form) => h + [StockUnits(BuildSplits(Submitted(form, account, fraction)), account)]
      case Inline(e) =>
        if e.index.Some? then h[e.index.value := InlineUnits(e, fraction)] else h + [InlineUnits(e, fraction)]
  }

  // ----- The guard in whole units -----

  lemma ScaledOrder(x: real, y: real, f: real)
    requires f > 0.0
    ensures x > y <==> x * f > y * f
  {
    if x > y {
      assert (x - y) * f > 0.0;
    } else {
      assert (y - x) * f >= 0.0;
    }
  }

  lemma Divided(p: real, f: real) returns (q: real)
    requires f > 0.0
    ensures q == p / f && q * f == p
    ensures q >= 0.0 <==> p >= 0.0
  {
    q := p / f;
    ScaledOrder(0.0, q, f);
  }

  lemma SumTimes(a: real, b: real, f: real)
    ensures (a + b) * f == a * f + b * f
  {
  }

  /** With `p` units held, the guard refuses exactly more than half a unit above them. */
  lemma GuardInUnits(shares: real, p: int, fraction: int)
    requires fraction > 0
    ensures Oversells(shares, p as real / fraction as real, fraction) <==>
      InUnits(shares, fraction) > Max(0, p) as real + 0.5
  {
    var f := fraction as real;
    var held := Divided(p as real, f);
    var half := Divided(0.5, f);
    var limit := MaxReal(0.0, held);
    ScaledOrder(shares, limit + half, f);
    SumTimes(limit, half, f);
    assert limit * f == Max(0, p) as real;
  }

  lemma SameQuotient(x: real, y: real, f: real)
    requires f > 0.0 && x * f == y * f
    ensures x == y
  {
    ScaledOrder(x, y, f);
    ScaledOrder(y, x, f);
  }

  /** Quotients by the fraction add like their units. */
  lemma QuotientSum(a: int, b: int, f: real)
    requires f > 0.0
    ensures a as real / f + b as real / f == (a + b) as real / f
    ensures a < 0 <==> a as real / f < 0.0
    ensures -(a as real / f) == (-a) as real / f
  {
    var x := Divided(a as real, f);
    var y := Divided(b as real, f);
    var both := Divided((a + b) as real, f);
    var negated := Divided((-a) as real, f);
    SumTimes(x, y, f);
    SameQuotient(x + y, both, f);
    SumTimes(x, negated, f);
    SameQuotient(x + negated, 0.0, f);
  }

  /** The units available to an inline sell: a sell that is being edited counts as held. */
  lemma InlineGuardInUnits(h: Holdings, e: InlineEdit, fraction: int)
    requires fraction > 0 && Fits(h, Inline(e)) && !e.isBuy
    ensures InlineRefused(h, e, fraction) <==>
      InUnits(e.shares, fraction) > Max(0, Position(h) + Max(0, -Original(h, e))) as real + 0.5
  {
    var o := Original(h, e);
    QuotientSum(o, 0, fraction as real);
    QuotientSum(Position(h), Max(0, -o), fraction as real);
    GuardInUnits(e.shares, Position(h) + Max(0, -o), fraction);
  }

  // ----- One step -----

  /** The stock account is not also the cash, income or expense account. */
  predicate OwnAccount(f: Form, account: string) {
    f.cash != account && f.income != account && f.expense != account
  }

  /** The effect of an entered form on the position. */
  lemma FormUnits(f: Form, account: string, fraction: int)
    requires OwnAccount(f, account)
    ensures StockUnits(BuildSplits(Submitted(f, account, fraction)), account) ==
      match f.action
      case Buy => Units(OrZero(f.shares), fraction)
      case StockSplit => Units(OrZero(f.shares), fraction)
      case Sell => -Units(OrZero(f.shares), fraction)
      case _ => 0
  {
    var x := Submitted(f, account, fraction);
    var s := BuildSplits(x);
    assert s == [s[0]] + s[1..] && s[1..] == [s[1]] + s[2..];
    assert |s| == 3 ==> s[2..] == [s[2]];
    assert StockUnits(s[2..], account) == 0;
  }

  lemma PositionAppend(h: Holdings, q: int)
    ensures Position(h + [q]) == Position(h) + q
  {
    assert (h + [q])[..|h|] == h;
  }

  lemma {:induction false} PositionUpdate(h: Holdings, i: nat, q: int)
    requires i < |h|
    ensures Position(h[i := q]) == Position(h) - h[i] + q
    decreases |h|
  {
    var last := |h| - 1;
    if i == last {
      assert h[i := q][..last] == h[..last];
    } else {
      PositionUpdate(h[..last], i, q);
      assert h[i := q][..last] == h[..last][i := q];
    }
  }

  /** Math.round of the shares, then the minus: half a unit over rounds up. */
  lemma FormSell(s: real, p: int)
    requires p >= 0 && s <= p as real + 0.5
    ensures p - Round(s) >= -1
    ensures p - Round(s) >= 0 <==> s != p as real + 0.5
  {
  }

  /** Math.round of the negated shares: half a unit over rounds back to what is held. */
  lemma InlineSell(s: real, available: int)
    ensures available + Round(-s) >= 0 <==> s <= available as real + 0.5
  {
  }

  lemma InlineBuy(s: real, missing: int)
    ensures Round(s) >= missing <==> s >= missing as real - 0.5
  {
  }

  lemma NonNegativeUnits(shares: real, fraction: int)
    requires shares >= 0.0 && fraction > 0
    ensures InUnits(shares, fraction) >= 0.0 && Units(shares, fraction) >= 0
  {
    assert InUnits(shares, fraction) >= 0.0;
  }

  /** The form sells exactly half a unit more than is held: the one amount the tolerance lets round up. */
  predicate SellsHalfOver(h: Holdings, f: Form, fraction: int) {
    f.action == Sell && f.shares.Number? && InUnits(f.shares.value, fraction) == Max(0, Position(h)) as real + 0.5
  }

  /** An accepted form keeps the position from going negative, except for that one amount, and then it goes to -1. */
  lemma FormStaysNonNegativeIff(h: Holdings, f: Form, account: string, fraction: int)
    requires fraction > 0 && OwnAccount(f, account) && Position(h) >= 0 && Accepted(f, Held(h, fraction), fraction)
    ensures Position(Next(h, Enter(f), account, fraction)) >= 0 <==> !SellsHalfOver(h, f, fraction)
    ensures Position(Next(h, Enter(f), account, fraction)) >= -1
  {
    AcceptedTrade(f, Held(h, fraction), fraction);
    FormUnits(f, account, fraction);
    PositionAppend(h, StockUnits(BuildSplits(Submitted(f, account, fraction)), account));
    if f.action == Sell {
      GuardInUnits(OrZero(f.shares), Position(h), fraction);
      if f.shares.Number? {
        FormSell(InUnits(f.shares.value, fraction), Position(h));
      } else {
        assert Units(0.0, fraction) == 0;
      }
    } else if f.action == Buy || f.action == StockSplit {
      NonNegativeUnits(OrZero(f.shares), fraction);
    }
  }

  /**
   * An inline save keeps the position from going negative exactly when the edit of a buy leaves
   * enough: a new sell, or a sell edited into any other sell, always does, off-grid amounts included.
   */
  lemma InlineStaysNonNegativeIff(h: Holdings, e: InlineEdit, account: string, fraction: int)
    requires fraction > 0 && Fits(h, Inline(e)) && Position(h) >= 0 && !InlineRefused(h, e, fraction)
    ensures Position(Next(h, Inline(e), account, fraction)) >= 0 <==> InlineCareful(h, e, fraction)
  {
    var q := InlineUnits(e, fraction);
    if e.index.Some? {
      PositionUpdate(h, e.index.value, q);
    } else {
      PositionAppend(h, q);
    }
    if !e.isBuy {
      NegatedShares(e.shares, fraction);
      InlineGuardInUnits(h, e, fraction);
      InlineSell(InUnits(e.shares, fraction), Position(h) - Original(h, e));
    } else {
      InlineBuy(InUnits(e.shares, fraction), Original(h, e) - Position(h));
    }
  }

  lemma NegatedShares(shares: real, fraction: int)
    ensures InUnits(-shares, fraction) == -InUnits(shares, fraction)
  {
  }

  /**
   * The guard an inline save would need, in shares: a sell must not count a buy it replaces as still
   * held, and a buy that replaces another must bring back what was sold of it. Half a unit is given.
   */
  predicate InlineCareful(h: Holdings, e: InlineEdit, fraction: int)
    requires Fits(h, Inline(e))
  {
    var original := Original(h, e);
    if e.isBuy then InUnits(e.shares, fraction) >= (original - Position(h)) as real - 0.5
    else original <= 0 || InUnits(e.shares, fraction) <= (Position(h) - original) as real + 0.5
  }

  // ----- Runs -----

  ghost predicate Legal(h: Holdings, steps: seq<Step>, account: string, fraction: int)
    requires fraction > 0
    decreases |steps|
  {
    steps == []
    || (Fits(h, steps[0]) && (steps[0].Enter? ==> OwnAccount(steps[0].form, account))
        && Legal(Next(h, steps[0], account, fraction), steps[1..], account, fraction))
  }

  predicate Careful(h: Holdings, s: Step, fraction: int)
    requires fraction > 0 && Fits(h, s)
  {
    Taken(h, s, fraction) ==>
      match s
      case Enter(form) => !SellsHalfOver(h, form, fraction)
      case Inline(e) => InlineCareful(h, e, fraction)
  }

  ghost predicate AllCareful(h: Holdings, steps: seq<Step>, account: string, fraction: int)
    requires fraction > 0 && Legal(h, steps, account, fraction)
    decreases |steps|
  {
    steps == []
    || (Careful(h, steps[0], fraction) && AllCareful(Next(h, steps[0], account, fraction), steps[1..], account, fraction))
  }

  /** The position after every step of the run. */
  ghost predicate NeverNegative(h: Holdings, steps: seq<Step>, account: string, fraction: int)
    requires fraction > 0 && Legal(h, steps, account, fraction)
    decreases |steps|
  {
    Position(h) >= 0
    && (steps != [] ==> NeverNegative(Next(h, steps[0], account, fraction), steps[1..], account, fraction))
  }

  /** Over any run of entries and inline edits the position never goes negative exactly when every step is careful. */
  lemma {:induction false} NeverNegativeIffCareful(h: Holdings, steps: seq<Step>, account: string, fraction: int)
    requires fraction > 0 && Legal(h, steps, account, fraction) && Position(h) >= 0
    ensures NeverNegative(h, steps, account, fraction) <==> AllCareful(h, steps, account, fraction)
    decreases |steps|
  {
    if steps != [] {
      var next := Next(h, steps[0], account, fraction);
      StepStaysNonNegativeIff(h, steps[0], account, fraction);
      if Position(next) >= 0 {
        NeverNegativeIffCareful(next, steps[1..], account, fraction);
      } else {
        assert !NeverNegative(next, steps[1..], account, fraction);
      }
    }
  }

  lemma StepStaysNonNegativeIff(h: Holdings, s: Step, account: string, fraction: int)
    requires fraction > 0 && Fits(h, s) && (s.Enter? ==> OwnAccount(s.form, account)) && Position(h) >= 0
    ensures Position(Next(h, s, account, fraction)) >= 0 <==> Careful(h, s, fraction)
  {
    if Taken(h, s, fraction) {
      match s
      case Enter(form) => FormStaysNonNegativeIff(h, form, account, fraction);
      case Inline(e) => InlineStaysNonNegativeIff(h, e, account, fraction);
    }
  }

  /** Shares on the commodity grid, and no edit of a buy. */
  predicate OnGrid(h: Holdings, s: Step, fraction: int)
    requires Fits(h, s)
  {
    match s
    case Enter(form) => Whole(InUnits(OrZero(form.shares), fraction))
    case Inline(e) => e.shares >= 0.0 && Original(h, e) <= 0
  }

  ghost predicate AllOnGrid(h: Holdings, steps: seq<Step>, account: string, fraction: int)
    requires fraction > 0 && Legal(h, steps, account, fraction)
    decreases |steps|
  {
    steps == []
    || (OnGrid(h, steps[0], fraction) && AllOnGrid(Next(h, steps[0], account, fraction), steps[1..], account, fraction))
  }

  lemma WholeIsNotHalfOver(x: real, n: int)
    requires Whole(x)
    ensures x != n as real + 0.5
  {
  }

  /** With shares on the commodity grid and no edit of a buy, the position never goes negative. */
  lemma {:induction false} GridRunNeverNegative(h: Holdings, steps: seq<Step>, account: string, fraction: int)
    requires fraction > 0 && Legal(h, steps, account, fraction) && Position(h) >= 0
    requires AllOnGrid(h, steps, account, fraction)
    ensures NeverNegative(h, steps, account, fraction)
    decreases |steps|
  {
    if steps != [] {
      var s := steps[0];
      GridStepIsCareful(h, s, fraction);
      StepStaysNonNegativeIff(h, s, account, fraction);
      GridRunNeverNegative(Next(h, s, account, fraction), steps[1..], account, fraction);
    }
  }

  lemma GridStepIsCareful(h: Holdings, s: Step, fraction: int)
    requires fraction > 0 && Fits(h, s) && OnGrid(h, s, fraction) && Position(h) >= 0
    ensures Careful(h, s, fraction)
  {
    match s
    case Enter(form) => WholeIsNotHalfOver(InUnits(OrZero(form.shares), fraction), Max(0, Position(h)));
    case Inline(e) =>
      if e.isBuy {
        NonNegativeUnits(e.shares, fraction);
      }
  }

  // ----- What the guards let through -----

  /** A complete form that sells half a unit. */
  predicate HalfUnitSell(f: Form, fraction: int) {
    && f.action == Sell && f.date != "" && f.cash != "" && OrZero(f.commission) <= 0.0
    && f.shares.Number? && f.shares.value > 0.0 && InUnits(f.shares.value, fraction) == 0.5
    && f.price.Number? && f.price.value > 0.0 && OrZero(f.total) > 0.0
  }

  /** Once nothing is held the form keeps accepting half a unit, and each time a whole unit leaves. */
  lemma {:induction false} HalfUnitSellsDrift(h: Holdings, f: Form, account: string, fraction: int, steps: seq<Step>)
    requires fraction > 0 && OwnAccount(f, account) && HalfUnitSell(f, fraction) && Position(h) <= 0
    requires forall i :: 0 <= i < |steps| ==> steps[i] == Enter(f)
    ensures Position(Entered(h, steps, account, fraction)) == Position(h) - |steps|
    decreases |steps|
  {
    if steps != [] {
      OneHalfUnitSell(h, f, account, fraction);
      HalfUnitSellsDrift(Next(h, steps[0], account, fraction), f, account, fraction, steps[1..]);
    }
  }

  function Entered(h: Holdings, steps: seq<Step>, account: string, fraction: int): Holdings
    requires fraction > 0 && forall i :: 0 <= i < |steps| ==> steps[i].Enter?
    decreases |steps|
  {
    if steps == [] then h else Entered(Next(h, steps[0], account, fraction), steps[1..], account, fraction)
  }

  lemma OneHalfUnitSell(h: Holdings, f: Form, account: string, fraction: int)
    requires fraction > 0 && OwnAccount(f, account) && HalfUnitSell(f, fraction) && Position(h) <= 0
    ensures Position(Next(h, Enter(f), account, fraction)) == Position(h) - 1
  {
    GuardInUnits(f.shares.value, Position(h), fraction);
    assert Accepted(f, Held(h, fraction), fraction);
    FormUnits(f, account, fraction);
    PositionAppend(h, StockUnits(BuildSplits(Submitted(f, account, fraction)), account));
    assert Units(f.shares.value, fraction) == 1;
  }

  /** A lone buy may be edited into a sell of the same size, which leaves the account short by it. */
  lemma BuyEditedIntoSellGoesShort(q: int, e: InlineEdit, account: string, fraction: int)
    requires fraction > 0 && q > 0 && e.index == Some(0) && !e.isBuy && InUnits(e.shares, fraction) == q as real
    ensures !InlineRefused([q], e, fraction) && Position(Next([q], Inline(e), account, fraction)) == -q
  {
    assert Position([q]) == q && Original([q], e) == q by {
      PositionAppend([], q);
      assert [] + [q] == [q];
    }
    InlineGuardInUnits([q], e, fraction);
    NegatedShares(e.shares, fraction);
    PositionUpdate([q], 0, InlineUnits(e, fraction));
    assert Round(-(q as real)) == -q;
  }

  /** The two values of an inline save, in cents: the stock side and its transfer. */
  function InlineValues(e: InlineEdit): (int, int) {
    var stockValue := if e.isBuy then e.total else -e.total;
    (Cents(stockValue), Cents(-stockValue))
  }

  /** A buy brings shares in against the transfer account, a sell takes them out and pays it. */
  lemma InlineMovesAsEntered(e: InlineEdit, fraction: int)
    ensures var (stock, transfer) := InlineValues(e);
      && Near(InlineUnits(e, fraction), (if e.isBuy then e.shares else -e.shares) * fraction as real)
      && Near(stock, (if e.isBuy then e.total else -e.total) * 100.0)
      && Near(transfer, (if e.isBuy then -e.total else e.total) * 100.0)
  {
    RoundIsNearest((if e.isBuy then e.shares else -e.shares) * fraction as real);
    RoundIsNearest(e.total * 100.0);
    RoundIsNearest(-e.total * 100.0);
  }

  /** They cancel unless the total lies half way between two cents; then they are off by one. */
  lemma InlinePairBalancesIff(e: InlineEdit)
    ensures var (stock, transfer) := InlineValues(e);
      stock + transfer == if Half((if e.isBuy then e.total else -e.total) * 100.0) then 1 else 0
  {
    var v := if e.isBuy then e.total else -e.total;
    assert -v * 100.0 == -(v * 100.0);
    RoundedOpposites(v * 100.0);
  }

  /** The account as the form and the ledger change it. */
  class StockAccount {
    const account: string
    const fraction: int
    var holdings: Holdings

    constructor (account: string, fraction: int)
      requires fraction > 0
      ensures this.account == account && this.fraction == fraction && holdings == []
    {
      this.account, this.fraction, holdings := account, fraction, [];
    }

    /** handleSubmit: validate, build, write. */
    method Submit(form: Form) returns (errs: seq<FormError>)
      requires fraction > 0
      modifies this
      ensures errs == Errors(form, Held(old(holdings), fraction), fraction)
      ensures holdings == Next(old(holdings), Enter(form), account, fraction)
    {
      errs := ValidateForm(form, Held(holdings, fraction), fraction);
      if errs == [] {
        var splits := BuildInvestmentSplits(Submitted(form, account, fraction));
        holdings := holdings + [StockUnits(splits, account)];
      }
    }

    /** handleInvestmentInlineSave: the guard, then the new quantity in place of the old one. */
    method SaveInline(e: InlineEdit) returns (saved: bool)
      requires fraction > 0 && Fits(holdings, Inline(e))
      modifies this
      ensures saved == !InlineRefused(old(holdings), e, fraction)
      ensures holdings == Next(old(holdings), Inline(e), account, fraction)
    {
      if InlineRefused(holdings, e, fraction) {
        return false;
      }
      var stockQuantity := if e.isBuy then e.shares else -e.shares;
      var units := Units(stockQuantity, fraction);
      if e.index.Some? {
        holdings := holdings[e.index.value := units];
      } else {
        holdings := holdings + [units];
      }
      saved := true;
    }
  }
}
