/** The records the core reads and produces: the payment cycle, the stored
    subscription and exchange-rate rows, and the three result rows of the
    aggregations. Room's table annotations and the timestamp columns
    (`createdAt`, `updatedAt`) are not part of this model. */
module Model {
  import opened Wrappers

  /** The exceptions the core lets escape: `DateTimeParseException`
      (`InvalidDate`), `IllegalArgumentException` for an unknown cycle name
      (`InvalidCycle`), `IllegalStateException` at the loop limit
      (`LoopLimitExceeded`) and the `DateTimeException` of `YearMonth.of`
      (`InvalidYearMonth`). */
  datatype Failure = InvalidDate | InvalidCycle | LoopLimitExceeded | InvalidYearMonth

  /** The billing interval: a closed set of three. */
  datatype PaymentCycle = Monthly | Biannually | Yearly

  /** One stored subscription. `firstPaymentDate` is ISO text, as stored;
      `usageFrequency` is the monthly use count of `Usage.ToInt`. */
  datatype Subscription = Subscription(
    id: int,
    serviceName: string,
    amount: real,
    currencyCode: string,
    paymentCycle: PaymentCycle,
    firstPaymentDate: string,
    usageFrequency: int,
    note: Option<string>,
    iconUrl: Option<string>,
    isActive: int)

  /** One exchange-rate row: yen per unit of `currencyCode`. */
  datatype ExchangeRate = ExchangeRate(currencyCode: string, rateToJpy: real)

  /** A subscription with its projected next payment (ISO text) and the
      days until it. */
  datatype SubscriptionWithPayment = SubscriptionWithPayment(
    subscription: Subscription,
    nextPaymentDate: string,
    daysUntilPayment: int)

  /** A `Double` cost that may be `POSITIVE_INFINITY`. */
  datatype Cost = Infinite | Finite(value: real)

  /** `costA >= costB` in `Double` order, infinity on top. */
  predicate CostGe(a: Cost, b: Cost) {
    a.Infinite? || (b.Finite? && a.value >= b.value)
  }

  datatype CostPerUse = CostPerUse(serviceName: string, costPerUseJpy: Cost)

  datatype MonthlyBreakdownItem = MonthlyBreakdownItem(serviceName: string, amountJpy: real)
}

/** `UsageFrequency`: the six usage levels and their monthly counts. */
module Usage {

  datatype UsageFrequency = Daily | Weekday | Weekly2To3 | Weekly | Monthly | Rarely

  const AllFrequencies: seq<UsageFrequency> := [Daily, Weekday, Weekly2To3, Weekly, Monthly, Rarely]

  /** `toInt()`: the value each constant is declared with. */
  function ToInt(f: UsageFrequency): (v: int)
    ensures 0 <= v <= 30
  {
    match f
    case Daily => 30
    case Weekday => 22
    case Weekly2To3 => 10
    case Weekly => 4
    case Monthly => 1
    case Rarely => 0
  }

  /** `fromInt(value)`: the constant declared with `value`, and `Monthly`
      for any other number. */
  function FromInt(value: int): UsageFrequency {
    if value == 30 then Daily
    else if value == 22 then Weekday
    else if value == 10 then Weekly2To3
    else if value == 4 then Weekly
    else if value == 1 then Monthly
    else if value == 0 then Rarely
    else Monthly
  }

  lemma FromIntToInt(f: UsageFrequency)
    ensures FromInt(ToInt(f)) == f
  {
  }

  /** The declared values are the only ones `fromInt` recognises; it reads
      each of them back as the constant that declares it. */
  lemma ToIntFromInt(value: int)
    ensures ToInt(FromInt(value)) == value <==> value in {30, 22, 10, 4, 1, 0}
    ensures value !in {30, 22, 10, 4, 1, 0} ==> FromInt(value) == Monthly
  {
  }

  lemma ToIntInjective(f: UsageFrequency, g: UsageFrequency)
    ensures ToInt(f) == ToInt(g) ==> f == g
  {
  }

  /** Only `Rarely` counts zero uses: the one level the cost-per-use
      ranking treats as infinitely expensive. */
  lemma OnlyRarelyIsZero(f: UsageFrequency)
    ensures ToInt(f) == 0 <==> f == Rarely
    ensures ToInt(f) > 0 <==> f != Rarely
  {
  }
}

/** The Room type converter that stores a `PaymentCycle` as its constant
    name. */
module Converters {
  import opened Wrappers
  import opened Model

  /** `fromPaymentCycle`: `value.name`. */
  function FromPaymentCycle(value: PaymentCycle): string {
    match value
    case Monthly => "MONTHLY"
    case Biannually => "BIANNUALLY"
    case Yearly => "YEARLY"
  }

  /** `toPaymentCycle`: `PaymentCycle.valueOf(value)`, which throws for
      anything but an exact constant name (`None` here). */
  function ToPaymentCycle(value: string): Option<PaymentCycle> {
    if value == "MONTHLY" then Some(Monthly)
    else if value == "BIANNUALLY" then Some(Biannually)
    else if value == "YEARLY" then Some(Yearly)
    else None
  }

  lemma ToFromPaymentCycle(c: PaymentCycle)
    ensures ToPaymentCycle(FromPaymentCycle(c)) == Some(c)
  {
  }

  /** A stored name that reads back is the name of what it reads as. */
  lemma FromToPaymentCycle(s: string)
    requires ToPaymentCycle(s).Some?
    ensures FromPaymentCycle(ToPaymentCycle(s).value) == s
  {
  }

  lemma FromPaymentCycleInjective(c: PaymentCycle, d: PaymentCycle)
    ensures FromPaymentCycle(c) == FromPaymentCycle(d) ==> c == d
  {
  }

  /** Exactly the three names are accepted: lower case or padded names fail. */
  lemma ToPaymentCycleFails(s: string)
    ensures ToPaymentCycle(s).None? <==> s != "MONTHLY" && s != "BIANNUALLY" && s != "YEARLY"
  {
  }

  lemma ToPaymentCycleExamples()
    ensures ToPaymentCycle("monthly").None? && ToPaymentCycle("YEARLY ").None?
  {
  }
}
