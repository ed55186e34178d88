/** InvestmentTransactionForm.tsx: the splits an investment action writes, and whether their values balance. */
module InvestmentSplits {
  import opened Rounding

  datatype Action = Buy | Sell | Dividend | ReturnOfCapital | StockSplit

  datatype Input = Input(
    action: Action, account: string, fraction: int, shares: real, total: real, amount: real, commission: real,
    cash: string, income: string, expense: string)

  datatype Split = Split(account: string, action: string, quantityNum: int, quantityDenom: int, valueNum: int, valueDenom: int)

  /** A plain money split: quantity and value are the same cents. */
  function Money(account: string, cents: int): Split {
    Split(account, "", cents, 100, cents, 100)
  }

  /** Shares in the stock account's smallest units, before rounding. */
  function InUnits(shares: real, fraction: int): real {
    shares * fraction as real
  }

  function Units(shares: real, fraction: int): int {
    Round(InUnits(shares, fraction))
  }

  function CommissionSplit(x: Input): seq<Split> {
    if x.commission > 0.0 && x.expense != "" then [Money(x.expense, Cents(x.commission))] else []
  }

  function BuildSplits(x: Input): seq<Split> {
    match x.action
    case Buy =>
      [ Split(x.account, "Buy", Units(x.shares, x.fraction), x.fraction, Cents(x.total), 100),
        Money(x.cash, -Cents(x.total + x.commission)) ] + CommissionSplit(x)
    case Sell =>
      [ Split(x.account, "Sell", -Units(x.shares, x.fraction), x.fraction, -Cents(x.total), 100),
        Money(x.cash, Cents(x.total - x.commission)) ] + CommissionSplit(x)
    case Dividend => [Money(x.cash, Cents(x.amount)), Money(x.income, -Cents(x.amount))]
    case ReturnOfCapital =>
      [Split(x.account, "Return of Capital", 0, 1, -Cents(x.amount), 100), Money(x.cash, Cents(x.amount))]
    case StockSplit =>
      [ Split(x.account, "Split", Units(x.shares, x.fraction), x.fraction, 0, 100),
        Split(x.account, "", 0, 1, 0, 100) ]
  }

  // ----- The form's validation -----

  /** An input field through parseFloat. */
  datatype Field = Blank | NotANumber | Number(value: real)

  function OrZero(f: Field): real {
    if f.Number? then f.value else 0.0
  }

  /** `!field || parseFloat(field) <= 0`: text that is no number passes. */
  predicate BlankOrNotPositive(f: Field) {
    f.Blank? || (f.Number? && f.value <= 0.0)
  }

  datatype Form = Form(
    action: Action, date: string, shares: Field, price: Field, total: Field, amount: Field, commission: Field,
    cash: string, income: string, expense: string)

  datatype FormError =
    DateMissing | SharesNotPositive | PriceNotPositive | TotalNotPositive | CashMissing | ExpenseMissing | Oversold
    | AmountNotPositive | IncomeMissing

  function MaxReal(a: real, b: real): real {
    if a >= b then a else b
  }

  /** More than half a unit above what is held; a short position counts as nothing held. */
  predicate Oversells(shares: real, held: real, fraction: int)
    requires fraction > 0
  {
    shares > MaxReal(0.0, held) + 0.5 / fraction as real
  }

  predicate SharesOversell(f: Form, held: real, fraction: int)
    requires fraction > 0
  {
    f.shares.Number? && Oversells(f.shares.value, held, fraction)
  }

  /** `if (condition) errs.push(e)`. */
  function PushIf(errs: seq<FormError>, condition: bool, e: FormError): (r: seq<FormError>)
    ensures forall x :: x in r <==> x in errs || (condition && x == e)
  {
    if condition then errs + [e] else errs
  }

  /** The checks of a buy or sell, in order. */
  function TradeErrors(errs: seq<FormError>, f: Form, held: real, fraction: int): seq<FormError>
    requires fraction > 0
  {
    var e1 := PushIf(errs, BlankOrNotPositive(f.shares), SharesNotPositive);
    var e2 := PushIf(e1, BlankOrNotPositive(f.price), PriceNotPositive);
    var e3 := PushIf(e2, OrZero(f.total) <= 0.0, TotalNotPositive);
    var e4 := PushIf(e3, f.cash == "", CashMissing);
    var e5 := PushIf(e4, OrZero(f.commission) > 0.0 && f.expense == "", ExpenseMissing);
    PushIf(e5, f.action == Sell && SharesOversell(f, held, fraction), Oversold)
  }

  function Errors(f: Form, held: real, fraction: int): seq<FormError>
    requires fraction > 0
  {
    var errs := PushIf([], f.date == "", DateMissing);
    match f.action
    case Buy | Sell => TradeErrors(errs, f, held, fraction)
    case Dividend =>
      PushIf(PushIf(PushIf(errs, BlankOrNotPositive(f.amount), AmountNotPositive), f.cash == "", CashMissing),
             f.income == "", IncomeMissing)
    case ReturnOfCapital => PushIf(PushIf(errs, BlankOrNotPositive(f.amount), AmountNotPositive), f.cash == "", CashMissing)
    case StockSplit => PushIf(errs, BlankOrNotPositive(f.shares), SharesNotPositive)
  }

  /** A field left empty, or a number that is zero or below. */
  predicate NothingEntered(f: Field) {
    match f
    case Blank => true
    case NotANumber => false
    case Number(x) => !(x > 0.0)
  }

  predicate PositiveNumber(f: Field) {
    f.Number? && f.value > 0.0
  }

  /** What each error stands for, whatever the action's own checks and their order. */
  predicate Broken(e: FormError, f: Form, held: real, fraction: int)
    requires fraction > 0
  {
    var trade := f.action == Buy || f.action == Sell;
    match e
    case DateMissing => f.date == ""
    case SharesNotPositive => (trade || f.action == StockSplit) && NothingEntered(f.shares)
    case PriceNotPositive => trade && NothingEntered(f.price)
    case TotalNotPositive => trade && !PositiveNumber(f.total)
    case CashMissing => f.action != StockSplit && f.cash == ""
    case ExpenseMissing => trade && PositiveNumber(f.commission) && f.expense == ""
    case Oversold =>
      f.action == Sell && f.shares.Number? && f.shares.value > (if held < 0.0 then 0.0 else held) + 0.5 / fraction as real
    case AmountNotPositive => (f.action == Dividend || f.action == ReturnOfCapital) && NothingEntered(f.amount)
    case IncomeMissing => f.action == Dividend && f.income == ""
  }

  /** The errors are exactly the broken rules. */
  lemma ErrorsAreTheBrokenRules(f: Form, held: real, fraction: int, e: FormError)
    requires fraction > 0
    ensures e in Errors(f, held, fraction) <==> Broken(e, f, held, fraction)
  {
  }

  /** A form passes if and only if it breaks no rule. */
  lemma AcceptedIffNothingBroken(f: Form, held: real, fraction: int)
    requires fraction > 0
    ensures Errors(f, held, fraction) == [] <==> forall e :: !Broken(e, f, held, fraction)
  {
    var errs := Errors(f, held, fraction);
    if errs == [] {
      forall e
        ensures !Broken(e, f, held, fraction)
      {
        ErrorsAreTheBrokenRules(f, held, fraction, e);
      }
    } else {
      ErrorsAreTheBrokenRules(f, held, fraction, errs[0]);
    }
  }

  /** validateForm: the errors it returns are the rules the form breaks. */
  method ValidateForm(f: Form, held: real, fraction: int) returns (errs: seq<FormError>)
    requires fraction > 0
    ensures errs == Errors(f, held, fraction)
    ensures errs == [] <==> forall e :: !Broken(e, f, held, fraction)
  {
    AcceptedIffNothingBroken(f, held, fraction);
    errs := [];
    if f.date == "" {
      errs := errs + [DateMissing];
    }
    if f.action == Buy || f.action == Sell {
      errs := CheckTrade(errs, f, held, fraction);
    } else if f.action == StockSplit {
      if BlankOrNotPositive(f.shares) {
        errs := errs + [SharesNotPositive];
      }
    } else {
      if BlankOrNotPositive(f.amount) {
        errs := errs + [AmountNotPositive];
      }
      if f.cash == "" {
        errs := errs + [CashMissing];
      }
      if f.action == Dividend && f.income == "" {
        errs := errs + [IncomeMissing];
      }
    }
  }

  method CheckTrade(before: seq<FormError>, f: Form, held: real, fraction: int) returns (errs: seq<FormError>)
    requires fraction > 0
    ensures errs == TradeErrors(before, f, held, fraction)
  {
    errs := before;
    if BlankOrNotPositive(f.shares) {
      errs := errs + [SharesNotPositive];
    }
    if BlankOrNotPositive(f.price) {
      errs := errs + [PriceNotPositive];
    }
    if OrZero(f.total) <= 0.0 {
      errs := errs + [TotalNotPositive];
    }
    if f.cash == "" {
      errs := errs + [CashMissing];
    }
    if OrZero(f.commission) > 0.0 && f.expense == "" {
      errs := errs + [ExpenseMissing];
    }
    if f.action == Sell && SharesOversell(f, held, fraction) {
      errs := errs + [Oversold];
    }
  }

  predicate Accepted(f: Form, held: real, fraction: int)
    requires fraction > 0
  {
    Errors(f, held, fraction) == []
  }

  /** buildSplits: the input an accepted form is sent with. */
  function Submitted(f: Form, account: string, fraction: int): Input {
    Input(f.action, account, fraction, OrZero(f.shares), OrZero(f.total), OrZero(f.amount), OrZero(f.commission),
          f.cash, f.income, f.expense)
  }

  /** What acceptance tells about the trade itself. */
  lemma AcceptedTrade(f: Form, held: real, fraction: int)
    requires fraction > 0 && Accepted(f, held, fraction)
    ensures f.action == Buy || f.action == Sell || f.action == StockSplit ==> OrZero(f.shares) >= 0.0
    ensures f.action == Buy || f.action == Sell ==>
      OrZero(f.total) > 0.0 && (OrZero(f.commission) > 0.0 ==> f.expense != "")
    ensures f.action == Sell ==> f.shares.NotANumber? || !Oversells(OrZero(f.shares), held, fraction)
  {
  }

  /** An accepted form is sent with the numbers and accounts entered in it, an empty commission as none. */
  lemma SubmittedAsEntered(f: Form, held: real, account: string, fraction: int)
    requires fraction > 0 && Accepted(f, held, fraction)
    ensures var x := Submitted(f, account, fraction);
      && x.action == f.action && x.account == account && x.fraction == fraction
      && x.cash == f.cash && x.income == f.income && x.expense == f.expense
      && (f.action == Buy || f.action == Sell ==> f.total.Number? && x.total == f.total.value)
      && (f.shares.Number? ==> x.shares == f.shares.value) && (f.amount.Number? ==> x.amount == f.amount.value)
      && x.commission == (if f.commission.Number? then f.commission.value else 0.0)
  {
  }

  // ----- Double entry -----

  function ValueSum(splits: seq<Split>): int {
    if splits == [] then 0 else splits[0].valueNum + ValueSum(splits[1..])
  }

  /** Every value is in cents, so the sum of the numerators is the imbalance in cents. */
  predicate AllCents(splits: seq<Split>) {
    forall s :: s in splits ==> s.valueDenom == 100
  }

  lemma ValueSumOfPair(a: Split, b: Split, rest: seq<Split>)
    ensures ValueSum([a, b] + rest) == a.valueNum + b.valueNum + ValueSum(rest)
  {
    assert ([a, b] + rest)[1..] == [b] + rest && ([b] + rest)[1..] == rest;
  }

  lemma CommissionValue(x: Input)
    ensures ValueSum(CommissionSplit(x)) == if x.commission > 0.0 && x.expense != "" then Cents(x.commission) else 0
  {
  }

  /** Dividends, returns of capital and stock splits balance whatever the input. */
  lemma SimpleActionsBalance(x: Input)
    requires x.action != Buy && x.action != Sell
    ensures AllCents(BuildSplits(x)) && ValueSum(BuildSplits(x)) == 0
  {
    var s := BuildSplits(x);
    assert s == [s[0], s[1]] + [];
    ValueSumOfPair(s[0], s[1], []);
  }

  /** The imbalance of a trade is what rounding its two parts separately adds to rounding them together. */
  lemma TradeImbalance(x: Input)
    requires x.action == Buy || x.action == Sell
    ensures var charged := if x.commission > 0.0 && x.expense != "" then Cents(x.commission) else 0;
      ValueSum(BuildSplits(x)) == if x.action == Buy then Cents(x.total) + charged - Cents(x.total + x.commission)
                                  else Cents(x.total - x.commission) + charged - Cents(x.total)
  {
    var s := BuildSplits(x);
    CommissionValue(x);
    assert s == [s[0], s[1]] + CommissionSplit(x);
    ValueSumOfPair(s[0], s[1], CommissionSplit(x));
  }

  /** How far the values are from balancing: what rounding a trade's two parts separately adds or loses. */
  function Imbalance(x: Input): int {
    var charged := if x.commission > 0.0 && x.expense != "" then Cents(x.commission) else 0;
    match x.action
    case Buy => Cents(x.total) + charged - Cents(x.total + x.commission)
    case Sell => Cents(x.total - x.commission) + charged - Cents(x.total)
    case _ => 0
  }

  lemma SplitsImbalance(x: Input)
    ensures AllCents(BuildSplits(x)) && ValueSum(BuildSplits(x)) == Imbalance(x)
  {
    if x.action == Buy || x.action == Sell {
      TradeImbalance(x);
    } else {
      SimpleActionsBalance(x);
    }
  }

  // ----- Where the money and the shares go -----

  function NetValue(splits: seq<Split>, account: string): int {
    if splits == [] then 0
    else (if splits[0].account == account then splits[0].valueNum else 0) + NetValue(splits[1..], account)
  }

  function NetQuantity(splits: seq<Split>, account: string): int {
    if splits == [] then 0
    else (if splits[0].account == account then splits[0].quantityNum else 0) + NetQuantity(splits[1..], account)
  }

  predicate DistinctAccounts(x: Input) {
    && x.account != x.cash && x.account != x.income && x.account != x.expense
    && x.cash != x.income && x.cash != x.expense && x.income != x.expense
  }

  /** Within half a unit. */
  predicate Near(n: int, x: real) {
    -0.5 <= n as real - x <= 0.5
  }

  predicate Charged(x: Input) {
    x.commission > 0.0 && x.expense != ""
  }

  /** In dollars: what each account receives, negative for what it gives. */
  function Entered(x: Input, account: string): real {
    match x.action
    case Buy =>
      if account == x.account then x.total
      else if account == x.cash then -(x.total + x.commission)
      else if account == x.expense && Charged(x) then x.commission
      else 0.0
    case Sell =>
      if account == x.account then -x.total
      else if account == x.cash then x.total - x.commission
      else if account == x.expense && Charged(x) then x.commission
      else 0.0
    case Dividend => if account == x.cash then x.amount else if account == x.income then -x.amount else 0.0
    case ReturnOfCapital => if account == x.account then -x.amount else if account == x.cash then x.amount else 0.0
    case StockSplit => 0.0
  }

  /** The shares the stock account receives. */
  function EnteredShares(x: Input): real {
    match x.action
    case Buy => x.shares
    case Sell => -x.shares
    case StockSplit => x.shares
    case _ => 0.0
  }

  /**
   * Every account's net value is what was entered for it, to the cent; the stock account's net quantity
   * is the shares entered, to the commodity's unit; money accounts hold as many units as value.
   */
  ghost predicate MovesAsEntered(x: Input, splits: seq<Split>) {
    && AllCents(splits)
    && (forall account :: Near(NetValue(splits, account), Entered(x, account) * 100.0))
    && Near(NetQuantity(splits, x.account), EnteredShares(x) * x.fraction as real)
    && (forall s | s in splits ::
          if s.account == x.account then s.quantityDenom == x.fraction || s.quantityNum == 0
          else s.quantityNum == s.valueNum && s.quantityDenom == 100)
  }

  lemma NetCons(first: Split, rest: seq<Split>, account: string)
    ensures NetValue([first] + rest, account) == (if first.account == account then first.valueNum else 0) + NetValue(rest, account)
    ensures NetQuantity([first] + rest, account)
         == (if first.account == account then first.quantityNum else 0) + NetQuantity(rest, account)
  {
    assert ([first] + rest)[0] == first && ([first] + rest)[1..] == rest;
  }

  lemma NetOfThree(a: Split, b: Split, rest: seq<Split>, account: string)
    requires |rest| <= 1
    ensures NetValue([a, b] + rest, account)
         == (if a.account == account then a.valueNum else 0) + (if b.account == account then b.valueNum else 0)
            + (if rest != [] && rest[0].account == account then rest[0].valueNum else 0)
    ensures NetQuantity([a, b] + rest, account)
         == (if a.account == account then a.quantityNum else 0) + (if b.account == account then b.quantityNum else 0)
            + (if rest != [] && rest[0].account == account then rest[0].quantityNum else 0)
  {
    assert [a, b] + rest == [a] + ([b] + rest);
    NetCons(a, [b] + rest, account);
    NetCons(b, rest, account);
    if rest != [] {
      assert rest == [rest[0]] + [];
      NetCons(rest[0], [], account);
    }
  }

  lemma NetCents(x: Input, account: string)
    requires DistinctAccounts(x)
    ensures Near(NetValue(BuildSplits(x), account), Entered(x, account) * 100.0)
  {
    var s := BuildSplits(x);
    assert s == [s[0], s[1]] + s[2..];
    NetOfThree(s[0], s[1], s[2..], account);
    RoundIsNearest(x.total * 100.0);
    RoundIsNearest(x.commission * 100.0);
    RoundIsNearest(x.amount * 100.0);
    RoundIsNearest((x.total + x.commission) * 100.0);
    RoundIsNearest((x.total - x.commission) * 100.0);
  }

  lemma NetShares(x: Input)
    requires DistinctAccounts(x)
    ensures Near(NetQuantity(BuildSplits(x), x.account), EnteredShares(x) * x.fraction as real)
  {
    var s := BuildSplits(x);
    assert s == [s[0], s[1]] + s[2..];
    NetOfThree(s[0], s[1], s[2..], x.account);
    RoundIsNearest(x.shares * x.fraction as real);
    assert -x.shares * x.fraction as real == -(x.shares * x.fraction as real);
  }

  /** Shares are counted in the commodity's unit, money as its value. */
  lemma QuantitiesInUnits(x: Input)
    requires DistinctAccounts(x)
    ensures forall s | s in BuildSplits(x) ::
      if s.account == x.account then s.quantityDenom == x.fraction || s.quantityNum == 0
      else s.quantityNum == s.valueNum && s.quantityDenom == 100
  {
  }

  /** Bought shares cost the cash account, dividends come from income into cash, and so on for every account. */
  lemma SplitsMoveAsEntered(x: Input)
    requires DistinctAccounts(x)
    ensures MovesAsEntered(x, BuildSplits(x))
  {
    SplitsImbalance(x);
    NetShares(x);
    QuantitiesInUnits(x);
    forall account
      ensures Near(NetValue(BuildSplits(x), account), Entered(x, account) * 100.0)
    {
      NetCents(x, account);
    }
  }

  /** buildInvestmentSplits: the pushes, case by case; all values are cents and their sum is the imbalance. */
  method BuildInvestmentSplits(x: Input) returns (splits: seq<Split>)
    ensures splits == BuildSplits(x)
    ensures AllCents(splits) && ValueSum(splits) == Imbalance(x)
    ensures DistinctAccounts(x) ==> MovesAsEntered(x, splits)
  {
    SplitsImbalance(x);
    if DistinctAccounts(x) {
      SplitsMoveAsEntered(x);
    }
    splits := [];
    match x.action {
      case Buy =>
        var totalWithCommission := x.total + x.commission;
        splits := splits + [Split(x.account, "Buy", Units(x.shares, x.fraction), x.fraction, Cents(x.total), 100)];
        splits := splits + [Money(x.cash, -Cents(totalWithCommission))];
        if x.commission > 0.0 && x.expense != "" {
          splits := splits + [Money(x.expense, Cents(x.commission))];
        }
      case Sell =>
        var netProceeds := x.total - x.commission;
        splits := splits + [Split(x.account, "Sell", -Units(x.shares, x.fraction), x.fraction, -Cents(x.total), 100)];
        splits := splits + [Money(x.cash, Cents(netProceeds))];
        if x.commission > 0.0 && x.expense != "" {
          splits := splits + [Money(x.expense, Cents(x.commission))];
        }
      case Dividend =>
        splits := splits + [Money(x.cash, Cents(x.amount))];
        splits := splits + [Money(x.income, -Cents(x.amount))];
      case ReturnOfCapital =>
        splits := splits + [Split(x.account, "Return of Capital", 0, 1, -Cents(x.amount), 100)];
        splits := splits + [Money(x.cash, Cents(x.amount))];
      case StockSplit =>
        splits := splits + [Split(x.account, "Split", Units(x.shares, x.fraction), x.fraction, 0, 100)];
        splits := splits + [Split(x.account, "", 0, 1, 0, 100)];
    }
  }

  /** The two cent amounts a trade splits its cash movement into. */
  function Proceeds(x: Input): real {
    if x.action == Buy then x.total * 100.0 else (x.total - x.commission) * 100.0
  }

  /**
   * With a non-negative commission and, for a positive one, an expense account, a trade is off by at
   * most one cent, and by nothing exactly when the two rounding residues do not spill over.
   */
  lemma TradeBalancesIff(x: Input)
    requires (x.action == Buy || x.action == Sell) && x.commission >= 0.0 && (x.commission > 0.0 ==> x.expense != "")
    ensures AllCents(BuildSplits(x)) && -1 <= ValueSum(BuildSplits(x)) <= 1
    ensures ValueSum(BuildSplits(x)) == 0 <==> -0.5 <= Residue(Proceeds(x)) + Residue(x.commission * 100.0) < 0.5
  {
    TradeImbalance(x);
    var a, b := Proceeds(x), x.commission * 100.0;
    assert a + b == (if x.action == Buy then x.total + x.commission else x.total) * 100.0;
    assert x.commission == 0.0 ==> b == 0.0 && Round(b) == 0;
    RoundedSum(a, b);
  }

  predicate WholeCents(amount: real) {
    Whole(amount * 100.0)
  }

  lemma WholeSum(a: real, b: real)
    requires Whole(a) && Whole(b)
    ensures Whole(a + b) && Round(a + b) == Round(a) + Round(b)
    ensures Whole(a - b) && Round(a - b) == Round(a) - Round(b)
    ensures Round(a) as real == a && Round(b) as real == b
  {
    assert a + b == (a.Floor + b.Floor) as real;
    assert a - b == (a.Floor - b.Floor) as real;
    ResidueRange(a);
    ResidueRange(b);
    ResidueRange(a + b);
    ResidueRange(a - b);
  }

  /** What the form accepts balances, at whole cents, exactly when the commission is not negative. */
  lemma AcceptedTradeBalancesIff(f: Form, held: real, account: string, fraction: int)
    requires fraction > 0 && Accepted(f, held, fraction) && (f.action == Buy || f.action == Sell)
    requires WholeCents(OrZero(f.total)) && WholeCents(OrZero(f.commission))
    ensures AllCents(BuildSplits(Submitted(f, account, fraction)))
    ensures ValueSum(BuildSplits(Submitted(f, account, fraction))) == 0 <==> OrZero(f.commission) >= 0.0
  {
    var x := Submitted(f, account, fraction);
    AcceptedTrade(f, held, fraction);
    TradeImbalance(x);
    var a, b := x.total * 100.0, x.commission * 100.0;
    assert a + b == (x.total + x.commission) * 100.0 && a - b == (x.total - x.commission) * 100.0;
    WholeSum(a, b);
  }
}
