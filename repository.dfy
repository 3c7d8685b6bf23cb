/** The read side of `SubscriptionRepository`: six aggregations, each a
    function of one snapshot of the active subscriptions and the exchange
    rates (and of today, or of a target year and month). */
module Repository {
  import opened Wrappers
  import opened Text
  import opened Calendar
  import opened IsoDate
  import opened Model
  import opened Converters
  import opened Calculator
  import opened Sorting

  // ---------------------------------------------------------------------
  // Exchange rates
  // ---------------------------------------------------------------------

  /** `associateBy { it.currencyCode }`: later rows overwrite earlier ones. */
  function RateMap(rates: seq<ExchangeRate>): (m: map<string, real>)
    ensures forall code :: code in m <==> exists i :: 0 <= i < |rates| && rates[i].currencyCode == code
  {
    if rates == [] then map[]
    else
      var last := rates[|rates| - 1];
      var m := RateMap(rates[..|rates| - 1])[last.currencyCode := last.rateToJpy];
      assert forall i :: 0 <= i < |rates| - 1 ==> rates[..|rates| - 1][i] == rates[i];
      m
  }

  /** `rateMap[code]?.rateToJpy ?: 1.0`. */
  function RateOf(rates: seq<ExchangeRate>, code: string): real {
    var m := RateMap(rates);
    if code in m then m[code] else 1.0
  }

  /** A currency with no rate row is taken at rate 1.0; otherwise the last
      row for it decides. */
  lemma RateLookup(rates: seq<ExchangeRate>, code: string)
    ensures (forall i :: 0 <= i < |rates| ==> rates[i].currencyCode != code) ==> RateOf(rates, code) == 1.0
    ensures forall i :: 0 <= i < |rates| && rates[i].currencyCode == code
                        && (forall j :: i < j < |rates| ==> rates[j].currencyCode != code)
                        ==> RateOf(rates, code) == rates[i].rateToJpy
  {
    forall i | 0 <= i < |rates| && rates[i].currencyCode == code
               && (forall j :: i < j < |rates| ==> rates[j].currencyCode != code)
      ensures RateOf(rates, code) == rates[i].rateToJpy
    {
      LastRowDecides(rates, code, i);
    }
  }

  /** The map holds the rate of the last row with the code. */
  lemma {:induction false} LastRowDecides(rates: seq<ExchangeRate>, code: string, i: int)
    requires 0 <= i < |rates| && rates[i].currencyCode == code
    requires forall j :: i < j < |rates| ==> rates[j].currencyCode != code
    ensures code in RateMap(rates) && RateMap(rates)[code] == rates[i].rateToJpy
  {
    var init := rates[..|rates| - 1];
    if i < |rates| - 1 {
      assert init[i] == rates[i];
      assert forall j :: i < j < |init| ==> init[j] == rates[j];
      LastRowDecides(init, code, i);
    }
  }

  // ---------------------------------------------------------------------
  // Normalised monthly amounts and cost per use
  // ---------------------------------------------------------------------

  /** `monthlyFactor`. */
  function MonthlyFactor(c: PaymentCycle): real {
    match c
    case Monthly => 1.0
    case Biannually => 1.0 / 6.0
    case Yearly => 1.0 / 12.0
  }

  /** A subscription's cost per month in yen: `amount * rate * monthlyFactor`. */
  function MonthlyJpy(s: Subscription, rates: seq<ExchangeRate>): real {
    s.amount * RateOf(rates, s.currencyCode) * MonthlyFactor(s.paymentCycle)
  }

  /** The monthly share, taken over one cycle, adds up to one payment. */
  lemma MonthlyJpyOverCycle(s: Subscription, rates: seq<ExchangeRate>)
    ensures MonthlyJpy(s, rates) * (CycleMonths(s.paymentCycle) as real)
         == s.amount * RateOf(rates, s.currencyCode)
  {
  }

  /** `getNormalizedMonthlyTotal`: nothing for no subscriptions, one
      subscription's monthly yen cost for one; with
      `NormalizedMonthlyTotalAppend`, the sum of the monthly costs. */
  function NormalizedMonthlyTotal(subs: seq<Subscription>, rates: seq<ExchangeRate>): (r: real)
    ensures subs == [] ==> r == 0.0
    ensures |subs| == 1 ==> r == MonthlyJpy(subs[0], rates)
  {
    assert |subs| == 1 ==> SumOf(subs[1..], s => MonthlyJpy(s, rates)) == 0.0;
    SumOf(subs, s => MonthlyJpy(s, rates))
  }

  /** The normalised total of two lists together is the sum of theirs. */
  lemma NormalizedMonthlyTotalAppend(a: seq<Subscription>, b: seq<Subscription>, rates: seq<ExchangeRate>)
    ensures NormalizedMonthlyTotal(a + b, rates) == NormalizedMonthlyTotal(a, rates) + NormalizedMonthlyTotal(b, rates)
  {
    SumOfAppend(a, b, s => MonthlyJpy(s, rates));
  }

  /** One cost per use: infinite without use, otherwise the monthly yen
      cost shared out over the monthly uses. */
  function CostPerUseOf(s: Subscription, rates: seq<ExchangeRate>): (r: CostPerUse)
    ensures r.serviceName == s.serviceName
    ensures r.costPerUseJpy.Infinite? <==> s.usageFrequency <= 0
    ensures r.costPerUseJpy.Finite? ==> r.costPerUseJpy.value * (s.usageFrequency as real) == MonthlyJpy(s, rates)
  {
    var monthlyJpy := MonthlyJpy(s, rates);
    var freq := s.usageFrequency;
    CostPerUse(s.serviceName, if freq <= 0 then Infinite else Finite(monthlyJpy / freq as real))
  }

  function CostsPerUse(subs: seq<Subscription>, rates: seq<ExchangeRate>): (r: seq<CostPerUse>)
    ensures |r| == |subs| && forall i :: 0 <= i < |subs| ==> r[i] == CostPerUseOf(subs[i], rates)
  {
    seq(|subs|, i requires 0 <= i < |subs| => CostPerUseOf(subs[i], rates))
  }

  /** `sortedByDescending { it.costPerUseJpy }`: `a` may precede `b`. */
  predicate CostDescending(a: CostPerUse, b: CostPerUse) {
    CostGe(a.costPerUseJpy, b.costPerUseJpy)
  }

  lemma CostDescendingIsPreorder()
    ensures TotalPreorder(CostDescending)
  {
  }

  /** `getCostPerUseRanking(limit)`; Kotlin's `take` refuses a negative
      limit, so `limit` is a natural number. */
  function CostPerUseRanking(subs: seq<Subscription>, rates: seq<ExchangeRate>, limit: nat): (r: seq<CostPerUse>)
    ensures |r| == if limit <= |subs| then limit else |subs|
    ensures forall c :: c in r ==> exists k :: 0 <= k < |subs| && c == CostPerUseOf(subs[k], rates)
  {
    var costs := CostsPerUse(subs, rates);
    var all := Sort(costs, CostDescending);
    assert forall c :: c in all ==> c in multiset(costs);
    Take(all, limit)
  }

  /** The ranking holds `min(limit, n)` entries, dearest first; it is the
      head of an ordering of all the costs, so every cost left out is no
      dearer than every cost kept; and a subscription that is never used
      ranks as infinitely dear, ahead of every finite cost. */
  lemma CostPerUseRankingSpec(subs: seq<Subscription>, rates: seq<ExchangeRate>, limit: nat)
    ensures var r := CostPerUseRanking(subs, rates, limit);
            var all := Sort(CostsPerUse(subs, rates), CostDescending);
            && |r| == (if limit <= |subs| then limit else |subs|)
            && multiset(all) == multiset(CostsPerUse(subs, rates))
            && r <= all
            && SortedBy(r, CostDescending)
            && (forall i, j :: 0 <= i < |r| <= j < |all| ==> CostGe(r[i].costPerUseJpy, all[j].costPerUseJpy))
            && ((exists k :: 0 <= k < |subs| && subs[k].usageFrequency <= 0) && limit > 0
                ==> r[0].costPerUseJpy.Infinite?)
    ensures forall k :: Equivalents(Sort(CostsPerUse(subs, rates), CostDescending), k, CostDescending)
                        == Equivalents(CostsPerUse(subs, rates), k, CostDescending)
  {
    var costs := CostsPerUse(subs, rates);
    var all := Sort(costs, CostDescending);
    CostDescendingIsPreorder();
    SortSorted(costs, CostDescending);
    TakeSorted(all, limit, CostDescending);
    forall k ensures Equivalents(all, k, CostDescending) == Equivalents(costs, k, CostDescending) {
      SortStable(costs, k, CostDescending);
    }
    if (exists k :: 0 <= k < |subs| && subs[k].usageFrequency <= 0) && limit > 0 {
      NeverUsedRanksFirst(subs, rates);
    }
  }

  /** With a subscription that is never used, the dearest cost is infinite. */
  lemma NeverUsedRanksFirst(subs: seq<Subscription>, rates: seq<ExchangeRate>)
    requires exists k :: 0 <= k < |subs| && subs[k].usageFrequency <= 0
    ensures var all := Sort(CostsPerUse(subs, rates), CostDescending);
            all != [] && all[0].costPerUseJpy.Infinite?
  {
    var costs := CostsPerUse(subs, rates);
    var all := Sort(costs, CostDescending);
    CostDescendingIsPreorder();
    SortSorted(costs, CostDescending);
    var k :| 0 <= k < |subs| && subs[k].usageFrequency <= 0;
    assert costs[k] in multiset(all);
    var p :| 0 <= p < |all| && all[p] == costs[k];
    if p > 0 {
      assert CostDescending(all[0], all[p]);
    }
  }

  // ---------------------------------------------------------------------
  // Next payments
  // ---------------------------------------------------------------------

  /** One row of `getAllWithNextPayment`: the cycle is passed by name to
      `calculate`, then `calculateDaysUntil` reads the result back. */
  function EntryFor(s: Subscription, today: Date): Result<SubscriptionWithPayment, Failure>
    requires ValidDate(today)
  {
    match NextPayment(s.firstPaymentDate, FromPaymentCycle(s.paymentCycle), today)
    case Err(e) => Err(e)
    case Ok(nextPaymentDate) =>
      match DaysUntil(nextPaymentDate, today)
      case Err(e) => Err(e)
      case Ok(daysUntil) => Ok(SubscriptionWithPayment(s, nextPaymentDate, daysUntil))
  }

  /** A row that exists belongs to its subscription and carries the printed
      projection of the first payment date: a date in the LocalDate range,
      after today, that the text parses back to, with the day count to it.
      A row fails exactly when the projection fails or lands outside the
      year range. */
  lemma EntryForSpec(s: Subscription, today: Date)
    requires ValidDate(today)
    ensures var r := EntryFor(s, today);
            var p := Parse(s.firstPaymentDate);
            (r.Ok? <==> p.Some? && ProjectDate(p.value, FromPaymentCycle(s.paymentCycle), today).Ok?
                        && InYearRange(ProjectDate(p.value, FromPaymentCycle(s.paymentCycle), today).value.year))
            && (r.Ok? ==> var d := ProjectDate(p.value, FromPaymentCycle(s.paymentCycle), today).value;
                          && r.value.subscription == s
                          && r.value.nextPaymentDate == Format(d)
                          && Parse(r.value.nextPaymentDate) == Some(d)
                          && After(d, today)
                          && r.value.daysUntilPayment == ToInt32(DaysBetween(today, d)))
  {
    var p := Parse(s.firstPaymentDate);
    if p.Some? && ProjectDate(p.value, FromPaymentCycle(s.paymentCycle), today).Ok? {
      ParseFormat(ProjectDate(p.value, FromPaymentCycle(s.paymentCycle), today).value);
    }
  }

  /** `sortedBy { it.nextPaymentDate }`: by the ISO text. */
  predicate ByNextPaymentDate(a: SubscriptionWithPayment, b: SubscriptionWithPayment) {
    StringLe(a.nextPaymentDate, b.nextPaymentDate)
  }

  lemma ByNextPaymentDateIsPreorder()
    ensures TotalPreorder(ByNextPaymentDate)
  {
    forall a: SubscriptionWithPayment, b: SubscriptionWithPayment
      ensures ByNextPaymentDate(a, b) || ByNextPaymentDate(b, a)
    {
      StringLeTotal(a.nextPaymentDate, b.nextPaymentDate);
    }
    forall a: SubscriptionWithPayment, b: SubscriptionWithPayment, c: SubscriptionWithPayment
      | ByNextPaymentDate(a, b) && ByNextPaymentDate(b, c)
      ensures ByNextPaymentDate(a, c)
    {
      StringLeTransitive(a.nextPaymentDate, b.nextPaymentDate, c.nextPaymentDate);
    }
  }

  /** `getAllWithNextPayment`: one row per subscription, or the failure of
      the first subscription whose row fails. */
  function AllWithNextPayment(subs: seq<Subscription>, today: Date): (r: Result<seq<SubscriptionWithPayment>, Failure>)
    requires ValidDate(today)
    ensures r.Ok? ==> |r.value| == |subs|
    ensures r.Err? ==> exists i :: 0 <= i < |subs| && EntryFor(subs[i], today) == Err(r.error)
                                   && forall j :: 0 <= j < i ==> EntryFor(subs[j], today).Ok?
  {
    match MapAll(subs, s => EntryFor(s, today))
    case Err(e) => Err(e)
    case Ok(entries) => Ok(Sort(entries, ByNextPaymentDate))
  }

  /** The next-payment list holds one row per subscription (a permutation
      of the rows in subscription order), ordered by the date text, with
      rows of equal dates in subscription order; it fails exactly when
      some subscription's projection fails. */
  lemma AllWithNextPaymentSpec(subs: seq<Subscription>, today: Date)
    requires ValidDate(today)
    ensures AllWithNextPayment(subs, today).Ok? <==> forall i :: 0 <= i < |subs| ==> EntryFor(subs[i], today).Ok?
    ensures var r := AllWithNextPayment(subs, today);
            r.Ok? ==> var entries := MapAll(subs, s => EntryFor(s, today)).value;
                      && |r.value| == |subs|
                      && multiset(r.value) == multiset(entries)
                      && SortedBy(r.value, ByNextPaymentDate)
                      && forall k :: Equivalents(r.value, k, ByNextPaymentDate) == Equivalents(entries, k, ByNextPaymentDate)
  {
    ByNextPaymentDateIsPreorder();
    if MapAll(subs, s => EntryFor(s, today)).Ok? {
      var entries := MapAll(subs, s => EntryFor(s, today)).value;
      SortSorted(entries, ByNextPaymentDate);
      forall k ensures Equivalents(Sort(entries, ByNextPaymentDate), k, ByNextPaymentDate)
                    == Equivalents(entries, k, ByNextPaymentDate) {
        SortStable(entries, k, ByNextPaymentDate);
      }
    }
  }

  /** With four-digit years the text order is the chronological order: no
      row's date is before an earlier row's. */
  lemma NextPaymentListChronological(subs: seq<Subscription>, today: Date, i: nat, j: nat)
    requires ValidDate(today)
    requires AllWithNextPayment(subs, today).Ok?
    requires i < j < |AllWithNextPayment(subs, today).value|
    ensures var r := AllWithNextPayment(subs, today).value;
            Parse(r[i].nextPaymentDate).Some? && Parse(r[j].nextPaymentDate).Some?
            && (var di, dj := Parse(r[i].nextPaymentDate).value, Parse(r[j].nextPaymentDate).value;
                0 <= di.year <= 9999 && 0 <= dj.year <= 9999 ==> !Before(dj, di))
  {
    var r := AllWithNextPayment(subs, today).value;
    AllWithNextPaymentSpec(subs, today);
    var entries := MapAll(subs, s => EntryFor(s, today)).value;
    assert r[i] in multiset(entries) && r[j] in multiset(entries);
    var di := ListedDate(subs, today, r[i]);
    var dj := ListedDate(subs, today, r[j]);
    if 0 <= di.year <= 9999 && 0 <= dj.year <= 9999 {
      FormatOrder(di, dj);
    }
  }

  /** Every row built from the subscriptions carries the printed form of a
      valid date that its text parses back to. */
  lemma ListedDate(subs: seq<Subscription>, today: Date, x: SubscriptionWithPayment) returns (d: Date)
    requires ValidDate(today)
    requires MapAll(subs, s => EntryFor(s, today)).Ok?
    requires x in MapAll(subs, s => EntryFor(s, today)).value
    ensures ValidDate(d) && x.nextPaymentDate == Format(d) && Parse(x.nextPaymentDate) == Some(d)
  {
    var entries := MapAll(subs, s => EntryFor(s, today)).value;
    var k :| 0 <= k < |entries| && entries[k] == x;
    assert EntryFor(subs[k], today).Ok?;
    EntryForSpec(subs[k], today);
    d := Parse(x.nextPaymentDate).value;
  }

  // ---------------------------------------------------------------------
  // Payments remaining this month
  // ---------------------------------------------------------------------

  /** One payment of a subscription, converted to yen. */
  function PaymentJpy(s: Subscription, rates: seq<ExchangeRate>): real {
    s.amount * RateOf(rates, s.currencyCode)
  }

  /** One term of `getRemainingThisMonthTotal`: the row's date is read
      back; its payment counts when it falls between today and the month's
      last day, both included. */
  function RemainingContribution(item: SubscriptionWithPayment, rates: seq<ExchangeRate>, today: Date): Result<real, Failure>
    requires ValidDate(today)
  {
    var endOfMonth := EndOfMonth(today.year, today.month);
    match Parse(item.nextPaymentDate)
    case None => Err(InvalidDate)
    case Some(nextDate) =>
      if !Before(nextDate, today) && !After(nextDate, endOfMonth)
      then Ok(PaymentJpy(item.subscription, rates))
      else Ok(0.0)
  }

  /** `getRemainingThisMonthTotal`: nothing remains of no subscriptions,
      and the total exists only when the next-payment list does. */
  function RemainingThisMonthTotal(subs: seq<Subscription>, rates: seq<ExchangeRate>, today: Date): (r: Result<real, Failure>)
    requires ValidDate(today)
    ensures subs == [] ==> r == Ok(0.0)
    ensures r.Ok? ==> AllWithNextPayment(subs, today).Ok?
  {
    match AllWithNextPayment(subs, today)
    case Err(e) => Err(e)
    case Ok(items) =>
      match MapAll(items, item => RemainingContribution(item, rates, today))
      case Err(e) => Err(e)
      case Ok(amounts) => Ok(SumOf(amounts, x => x))
  }

  /** What a subscription adds to the remaining total: its payment, when its
      next payment date is in the current month. That date is always after
      today, so a payment due today is not counted. */
  function RemainingOf(s: Subscription, rates: seq<ExchangeRate>, today: Date): real
    requires ValidDate(today)
  {
    match EntryFor(s, today)
    case Err(_) => 0.0
    case Ok(item) =>
      match Parse(item.nextPaymentDate)
      case None => 0.0
      case Some(d) => if MonthIndexOf(d) == MonthIndexOf(today) then PaymentJpy(s, rates) else 0.0
  }

  /** The value of a row's term when its date reads back. */
  function RemainingValue(item: SubscriptionWithPayment, rates: seq<ExchangeRate>, today: Date): real
    requires ValidDate(today)
  {
    match RemainingContribution(item, rates, today)
    case Err(_) => 0.0
    case Ok(v) => v
  }

  /** The term of a subscription's row is what `RemainingOf` says it adds. */
  lemma RemainingContributionOf(s: Subscription, rates: seq<ExchangeRate>, today: Date)
    requires ValidDate(today) && EntryFor(s, today).Ok?
    ensures RemainingContribution(EntryFor(s, today).value, rates, today) == Ok(RemainingOf(s, rates, today))
  {
    var item := EntryFor(s, today).value;
    var p := Parse(item.nextPaymentDate);
    assert item.subscription == s && p.Some? && ValidDate(p.value) && After(p.value, today) by {
      EntryForSpec(s, today);
    }
    var d := p.value;
    ContributionAfterToday(item, rates, today, d);
    RemainingOfDated(s, rates, today, item, d);
  }

  /** What a subscription adds, read off its row and the row's date. */
  lemma RemainingOfDated(s: Subscription, rates: seq<ExchangeRate>, today: Date, item: SubscriptionWithPayment, d: Date)
    requires ValidDate(today) && EntryFor(s, today) == Ok(item)
    requires Parse(item.nextPaymentDate) == Some(d)
    ensures RemainingOf(s, rates, today)
         == if MonthIndexOf(d) == MonthIndexOf(today) then PaymentJpy(s, rates) else 0.0
  {
    assert EntryFor(s, today).Ok? && EntryFor(s, today).value == item;
  }

  /** A row dated after today counts exactly when its date lies in today's
      month. */
  lemma ContributionAfterToday(item: SubscriptionWithPayment, rates: seq<ExchangeRate>, today: Date, d: Date)
    requires ValidDate(today) && ValidDate(d) && After(d, today)
    requires Parse(item.nextPaymentDate) == Some(d)
    ensures RemainingContribution(item, rates, today)
         == Ok(if MonthIndexOf(d) == MonthIndexOf(today)
               then PaymentJpy(item.subscription, rates) else 0.0)
  {
    var endOfMonth := EndOfMonth(today.year, today.month);
    AfterEndOfMonth(d, today.year, today.month);
    MonthIndexOrder(today, d);
    assert !Before(d, today);
    assert RemainingContribution(item, rates, today).Ok?;
    assert RemainingContribution(item, rates, today).value
        == if !After(d, endOfMonth) then PaymentJpy(item.subscription, rates) else 0.0;
  }

  /** The remaining total fails exactly when the next-payment list fails:
      every row of the list reads back. */
  lemma RemainingThisMonthTotalFails(subs: seq<Subscription>, rates: seq<ExchangeRate>, today: Date)
    requires ValidDate(today)
    ensures RemainingThisMonthTotal(subs, rates, today).Err? <==> AllWithNextPayment(subs, today).Err?
  {
    var f := s => EntryFor(s, today);
    if MapAll(subs, f).Ok? {
      var entries := MapAll(subs, f).value;
      var items := Sort(entries, ByNextPaymentDate);
      var contribution := item => RemainingContribution(item, rates, today);
      forall i | 0 <= i < |entries|
        ensures contribution(entries[i]).Ok?
      {
        RemainingContributionOf(subs[i], rates, today);
      }
      forall k | 0 <= k < |items| ensures contribution(items[k]).Ok? {
        assert items[k] in multiset(entries);
        var i :| 0 <= i < |entries| && entries[i] == items[k];
      }
      assert AllWithNextPayment(subs, today) == Ok(items);
      assert MapAll(items, contribution).Ok?;
    }
  }

  /** The remaining total is the sum, over the subscriptions in their own
      order, of the payments whose next date falls later in the current
      month: sorting the rows does not change it. */
  lemma RemainingThisMonthTotalSpec(subs: seq<Subscription>, rates: seq<ExchangeRate>, today: Date)
    requires ValidDate(today)
    requires AllWithNextPayment(subs, today).Ok?
    ensures RemainingThisMonthTotal(subs, rates, today) == Ok(SumOf(subs, s => RemainingOf(s, rates, today)))
  {
    RemainingThisMonthTotalFails(subs, rates, today);
    var f := s => EntryFor(s, today);
    var entries := MapAll(subs, f).value;
    var items := Sort(entries, ByNextPaymentDate);
    var contribution := item => RemainingContribution(item, rates, today);
    var value := item => RemainingValue(item, rates, today);
    forall i | 0 <= i < |entries|
      ensures value(entries[i]) == RemainingOf(subs[i], rates, today)
    {
      RemainingContributionOf(subs[i], rates, today);
    }
    assert AllWithNextPayment(subs, today) == Ok(items);
    var amounts := MapAll(items, contribution).value;
    assert RemainingThisMonthTotal(subs, rates, today) == Ok(SumOf(amounts, x => x));
    SumOfPointwise(amounts, x => x, items, value);
    SortSum(entries, ByNextPaymentDate, value);
    SumOfPointwise(entries, value, subs, s => RemainingOf(s, rates, today));
  }

  /** On the last day of a month nothing remains to be paid in it. */
  lemma NothingRemainsOnLastDay(subs: seq<Subscription>, rates: seq<ExchangeRate>, today: Date)
    requires ValidDate(today) && today == EndOfMonth(today.year, today.month)
    requires AllWithNextPayment(subs, today).Ok?
    ensures RemainingThisMonthTotal(subs, rates, today) == Ok(0.0)
  {
    RemainingThisMonthTotalSpec(subs, rates, today);
    forall k | 0 <= k < |subs| ensures RemainingOf(subs[k], rates, today) == 0.0 {
      EntryForSpec(subs[k], today);
      var d := Parse(EntryFor(subs[k], today).value.nextPaymentDate).value;
      MonthIndexOrder(d, today);
    }
    SumOfZero(subs, s => RemainingOf(s, rates, today));
  }

  // ---------------------------------------------------------------------
  // Payments in a given month
  // ---------------------------------------------------------------------

  lemma ModAddCycle(a: int, c: PaymentCycle)
    ensures (a + CycleMonths(c)) % CycleMonths(c) == a % CycleMonths(c)
  {
  }

  /** The loop `while (currentPaymentDate.isBefore(targetStart))` of the
      monthly views: step through the schedule until the first date on or
      after the target month's first day. It ends because every step moves
      to a later month; it lands on the first schedule date in a month
      from the target's on, at most one cycle past it. */
  function AdvanceToMonth(d: Date, c: PaymentCycle, y: int, m: int): (r: Date)
    requires ValidDate(d) && 1 <= m <= 12
    ensures ValidDate(r)
    ensures MonthIndexOf(d) >= MonthIndex(y, m) ==> r == d
    ensures MonthIndexOf(r) >= MonthIndex(y, m)
    ensures MonthIndexOf(d) < MonthIndex(y, m) ==> MonthIndexOf(r) < MonthIndex(y, m) + CycleMonths(c)
    ensures (MonthIndexOf(r) - MonthIndexOf(d)) % CycleMonths(c) == 0
    decreases MonthIndex(y, m) - MonthIndexOf(d)
  {
    BeforeStartOfMonth(d, y, m);
    if Before(d, StartOfMonth(y, m)) then
      var next := Step(d, c);
      StepFacts(d, c);
      var r := AdvanceToMonth(next, c, y, m);
      assert MonthIndexOf(r) - MonthIndexOf(d) == MonthIndexOf(r) - MonthIndexOf(next) + CycleMonths(c);
      ModAddCycle(MonthIndexOf(r) - MonthIndexOf(next), c);
      r
    else d
  }

  /** The inclusion test of `getMonthlyTotal` and `getMonthlyBreakdown`:
      the first date is not after the month's end, and the schedule,
      advanced to the month's start, lands inside the month. */
  predicate PaysInMonth(first: Date, c: PaymentCycle, y: int, m: int)
    requires ValidDate(first) && 1 <= m <= 12
  {
    var targetStart := StartOfMonth(y, m);
    var targetEnd := EndOfMonth(y, m);
    !After(first, targetEnd)
    && var current := AdvanceToMonth(first, c, y, m);
       !After(current, targetEnd) && !Before(current, targetStart)
  }

  /** In a window of one cycle starting at month `M`, the schedule point
      `R` (a whole number of cycles after `D`) is `M` itself exactly when
      `M` is a whole number of cycles after `D`. */
  lemma CycleWindow(d: int, r: int, mi: int, c: PaymentCycle)
    requires mi <= r < mi + CycleMonths(c) && (r - d) % CycleMonths(c) == 0
    ensures r == mi <==> (mi - d) % CycleMonths(c) == 0
  {
    match c
    case Monthly =>
    case Biannually =>
      assert (r - d) % 6 == 0;
    case Yearly =>
      assert (r - d) % 12 == 0;
  }

  /** A subscription pays in a month exactly when that month is its first
      payment's month or a whole number of cycles later. */
  lemma PaysInMonthIff(first: Date, c: PaymentCycle, y: int, m: int)
    requires ValidDate(first) && 1 <= m <= 12
    ensures PaysInMonth(first, c, y, m)
            <==> MonthIndexOf(first) <= MonthIndex(y, m)
                 && (MonthIndex(y, m) - MonthIndexOf(first)) % CycleMonths(c) == 0
  {
    var r := AdvanceToMonth(first, c, y, m);
    AfterEndOfMonth(first, y, m);
    AfterEndOfMonth(r, y, m);
    BeforeStartOfMonth(r, y, m);
    var inMonth := MonthIndexOf(r) == MonthIndex(y, m);
    assert PaysInMonth(first, c, y, m) <==> MonthIndexOf(first) <= MonthIndex(y, m) && inMonth;
    if MonthIndexOf(first) < MonthIndex(y, m) {
      CycleWindow(MonthIndexOf(first), MonthIndexOf(r), MonthIndex(y, m), c);
    }
  }

  /** A monthly subscription pays in every month from its first one on. */
  lemma MonthlyAlwaysPays(first: Date, y: int, m: int)
    requires ValidDate(first) && 1 <= m <= 12
    ensures PaysInMonth(first, Monthly, y, m) <==> !After(first, EndOfMonth(y, m))
  {
    PaysInMonthIff(first, Monthly, y, m);
    AfterEndOfMonth(first, y, m);
  }

  /** A yearly subscription pays only in its anchor month. */
  lemma YearlyPaysInAnchorMonth(first: Date, y: int, m: int)
    requires ValidDate(first) && 1 <= m <= 12
    ensures PaysInMonth(first, Yearly, y, m) <==> first.year <= y && first.month == m
  {
    PaysInMonthIff(first, Yearly, y, m);
    assert MonthIndex(y, m) - MonthIndexOf(first) == 12 * (y - first.year) + (m - first.month);
    ModTwelveShift(y - first.year, m - first.month);
  }

  lemma ModTwelveShift(k: int, x: int)
    requires -11 <= x <= 11
    ensures (12 * k + x) % 12 == 0 <==> x == 0
  {
  }

  /** A biannual subscription pays in its anchor month and six months on. */
  lemma BiannualPaysEverySixMonths(first: Date, y: int, m: int)
    requires ValidDate(first) && 1 <= m <= 12
    ensures PaysInMonth(first, Biannually, y, m)
            <==> MonthIndexOf(first) <= MonthIndex(y, m)
                 && (m == first.month || m == first.month + 6 || m == first.month - 6)
  {
    PaysInMonthIff(first, Biannually, y, m);
    var k := y - first.year;
    assert MonthIndex(y, m) - MonthIndexOf(first) == 6 * (2 * k) + (m - first.month);
    ModSixShift(2 * k, m - first.month);
  }

  lemma ModSixShift(k: int, x: int)
    requires -11 <= x <= 11
    ensures (6 * k + x) % 6 == 0 <==> (x == 0 || x == 6 || x == -6)
  {
  }

  /** One term of `getMonthlyTotal`: the payment in yen when the
      subscription pays in the month, else 0.0. */
  function MonthContribution(s: Subscription, rates: seq<ExchangeRate>, y: int, m: int): Result<real, Failure>
    requires 1 <= m <= 12
  {
    ContributionOfParsed(s, RateOf(rates, s.currencyCode), y, m, Parse(s.firstPaymentDate))
  }

  /** `MonthContribution` once the first payment date text has been read
      and the rate looked up. */
  function ContributionOfParsed(s: Subscription, rate: real, y: int, m: int, parsed: Option<Date>): Result<real, Failure>
    requires 1 <= m <= 12 && (parsed.Some? ==> ValidDate(parsed.value))
  {
    match parsed
    case None => Err(InvalidDate)
    case Some(first) =>
      if PaysInMonth(first, s.paymentCycle, y, m) then Ok(s.amount * rate) else Ok(0.0)
  }

  /** `YearMonth.of(year, month)` succeeds. */
  predicate ValidYearMonth(year: int, month: int) {
    1 <= month <= 12 && InYearRange(year)
  }

  /** `getMonthlyTotal(year, month)`: fails on a month `YearMonth.of`
      refuses or on an unreadable first payment date, and nothing else;
      nothing is due from no subscriptions. */
  function MonthlyTotal(subs: seq<Subscription>, rates: seq<ExchangeRate>, year: int, month: int): (r: Result<real, Failure>)
    ensures !ValidYearMonth(year, month) ==> r == Err(InvalidYearMonth)
    ensures r.Err? ==> r.error == InvalidYearMonth || r.error == InvalidDate
    ensures ValidYearMonth(year, month) && subs == [] ==> r == Ok(0.0)
  {
    if !ValidYearMonth(year, month) then Err(InvalidYearMonth)
    else
      match MapAll(subs, s => MonthContribution(s, rates, year, month))
      case Err(e) => Err(e)
      case Ok(amounts) => Ok(SumOf(amounts, x => x))
  }

  /** The advance loop of the monthly views, as the source runs it. */
  method AdvanceLoop(firstPaymentDate: Date, paymentCycle: PaymentCycle, year: int, month: int)
      returns (currentPaymentDate: Date)
    requires ValidDate(firstPaymentDate) && 1 <= month <= 12
    ensures currentPaymentDate == AdvanceToMonth(firstPaymentDate, paymentCycle, year, month)
  {
    var targetStart := StartOfMonth(year, month);
    currentPaymentDate := firstPaymentDate;
    while Before(currentPaymentDate, targetStart)
      invariant ValidDate(currentPaymentDate)
      invariant AdvanceToMonth(currentPaymentDate, paymentCycle, year, month)
             == AdvanceToMonth(firstPaymentDate, paymentCycle, year, month)
      decreases MonthIndex(year, month) - MonthIndexOf(currentPaymentDate)
    {
      BeforeStartOfMonth(currentPaymentDate, year, month);
      ghost var previous := currentPaymentDate;
      currentPaymentDate := match paymentCycle
        case Monthly => PlusMonths(currentPaymentDate, 1)
        case Biannually => PlusMonths(currentPaymentDate, 6)
        case Yearly => PlusYears(currentPaymentDate, 1);
      currentPaymentDate := ClampToMonthEnd(currentPaymentDate);
      assert currentPaymentDate == Step(previous, paymentCycle);
    }
    BeforeStartOfMonth(currentPaymentDate, year, month);
  }

  /** One subscription's share of a month, once its first payment date has been read. */
  lemma MonthContributionOf(s: Subscription, rates: seq<ExchangeRate>, y: int, m: int, first: Date, rate: real)
    requires 1 <= m <= 12 && Parse(s.firstPaymentDate) == Some(first)
    requires rate == RateOf(rates, s.currencyCode)
    ensures ValidDate(first)
    ensures MonthContribution(s, rates, y, m)
         == if PaysInMonth(first, s.paymentCycle, y, m) then Ok(s.amount * rate) else Ok(0.0)
  {
    var c := ContributionOfParsed(s, rate, y, m, Some(first));
    assert MonthContribution(s, rates, y, m) == c;
    assert c.Ok?;
    if PaysInMonth(first, s.paymentCycle, y, m) {
      assert c.value == s.amount * rate;
    } else {
      assert c.value == 0.0;
    }
  }

  /** The body of `getMonthlyTotal`'s `sumOf`: parse the first date, skip
      a subscription that starts after the month, run the advance loop and
      test where it landed. */
  method ContributionInMonth(subscription: Subscription, exchangeRates: seq<ExchangeRate>,
                             rateMap: map<string, real>, year: int, month: int)
      returns (r: Result<real, Failure>)
    requires 1 <= month <= 12 && rateMap == RateMap(exchangeRates)
    ensures r == MonthContribution(subscription, exchangeRates, year, month)
  {
    var targetStart := StartOfMonth(year, month);
    var targetEnd := EndOfMonth(year, month);
    var parsed := Parse(subscription.firstPaymentDate);
    if parsed.None? {
      return Err(InvalidDate);
    }
    var firstPaymentDate := parsed.value;
    MonthContributionOf(subscription, exchangeRates, year, month, firstPaymentDate,
                        RateOf(exchangeRates, subscription.currencyCode));
    if After(firstPaymentDate, targetEnd) {
      return Ok(0.0);
    }
    var hasPaymentInMonth := false;
    var currentPaymentDate := AdvanceLoop(firstPaymentDate, subscription.paymentCycle, year, month);
    if !After(currentPaymentDate, targetEnd) && !Before(currentPaymentDate, targetStart) {
      hasPaymentInMonth := true;
    }
    assert hasPaymentInMonth == PaysInMonth(firstPaymentDate, subscription.paymentCycle, year, month);
    if hasPaymentInMonth {
      var rate := if subscription.currencyCode in rateMap then rateMap[subscription.currencyCode] else 1.0;
      MonthContributionOf(subscription, exchangeRates, year, month, firstPaymentDate, rate);
      return Ok(subscription.amount * rate);
    } else {
      return Ok(0.0);
    }
  }

  /** `getMonthlyTotal`, step by step as the source runs it. */
  method GetMonthlyTotal(subscriptions: seq<Subscription>, exchangeRates: seq<ExchangeRate>, year: int, month: int)
      returns (r: Result<real, Failure>)
    ensures r == MonthlyTotal(subscriptions, exchangeRates, year, month)
  {
    var rateMap := RateMap(exchangeRates);
    if !ValidYearMonth(year, month) {
      return Err(InvalidYearMonth);
    }
    ghost var f := s => MonthContribution(s, exchangeRates, year, month);
    ghost var amounts: seq<real> := [];
    var total := 0.0;
    for i := 0 to |subscriptions|
      invariant MapAll(subscriptions[..i], f) == Ok(amounts)
      invariant total == SumOf(amounts, x => x)
    {
      var contribution := ContributionInMonth(subscriptions[i], exchangeRates, rateMap, year, month);
      assert f(subscriptions[i]) == contribution;
      if contribution.Err? {
        MapAllFailsAt(subscriptions, f, i, amounts);
        return Err(contribution.error);
      }
      MapAllExtend(subscriptions, f, i, amounts);
      SumOfAppend(amounts, [contribution.value], x => x);
      amounts := amounts + [contribution.value];
      total := total + contribution.value;
    }
    MapAllWhole(subscriptions, f);
    return Ok(total);
  }

  // ---------------------------------------------------------------------
  // getMonthlyBreakdown

  /** One element of `getMonthlyBreakdown`'s `mapNotNull`: an item when the
      subscription pays in the month, else nothing. */
  function BreakdownItem(s: Subscription, rates: seq<ExchangeRate>, y: int, m: int)
      : Result<Option<MonthlyBreakdownItem>, Failure>
    requires 1 <= m <= 12
  {
    ItemOfParsed(s, RateOf(rates, s.currencyCode), y, m, Parse(s.firstPaymentDate))
  }

  /** `BreakdownItem` once the first payment date text has been read. */
  function ItemOfParsed(s: Subscription, rate: real, y: int, m: int, parsed: Option<Date>)
      : Result<Option<MonthlyBreakdownItem>, Failure>
    requires 1 <= m <= 12 && (parsed.Some? ==> ValidDate(parsed.value))
  {
    match parsed
    case None => Err(InvalidDate)
    case Some(first) =>
      if PaysInMonth(first, s.paymentCycle, y, m)
      then Ok(Some(MonthlyBreakdownItem(s.serviceName, s.amount * rate)))
      else Ok(None)
  }

  /** `sortedByDescending { it.amountJpy }`, as the order the stable sort keeps. */
  predicate ByAmountDescending(a: MonthlyBreakdownItem, b: MonthlyBreakdownItem) {
    a.amountJpy >= b.amountJpy
  }

  lemma ByAmountDescendingIsPreorder()
    ensures TotalPreorder(ByAmountDescending)
  {
  }

  /** `getMonthlyBreakdown(year, month)`: fails as the monthly total does,
      and lists at most one item per subscription. */
  function MonthlyBreakdown(subs: seq<Subscription>, rates: seq<ExchangeRate>, year: int, month: int)
      : (r: Result<seq<MonthlyBreakdownItem>, Failure>)
    ensures !ValidYearMonth(year, month) ==> r == Err(InvalidYearMonth)
    ensures r.Err? ==> r.error == InvalidYearMonth || r.error == InvalidDate
    ensures r.Ok? ==> |r.value| <= |subs|
  {
    if !ValidYearMonth(year, month) then Err(InvalidYearMonth)
    else
      match MapAll(subs, s => BreakdownItem(s, rates, year, month))
      case Err(e) => Err(e)
      case Ok(items) => Ok(Sort(Somes(items), ByAmountDescending))
  }

  /** A subscription's breakdown item and its share of the monthly total
      fail alike, and the item carries exactly that share. */
  lemma BreakdownItemContribution(s: Subscription, rates: seq<ExchangeRate>, y: int, m: int)
    requires 1 <= m <= 12
    ensures BreakdownItem(s, rates, y, m).Err? == MonthContribution(s, rates, y, m).Err?
    ensures BreakdownItem(s, rates, y, m).Err? ==> BreakdownItem(s, rates, y, m).error == MonthContribution(s, rates, y, m).error
    ensures BreakdownItem(s, rates, y, m).Ok? ==>
      MonthContribution(s, rates, y, m).value
      == match BreakdownItem(s, rates, y, m).value
         case None => 0.0
         case Some(item) => item.amountJpy
  {
  }

  /** The total of the kept items is the total of their shares, one share
      per element and 0.0 for the dropped ones. */
  lemma {:induction false} SomesSum(opts: seq<Option<MonthlyBreakdownItem>>, amounts: seq<real>)
    requires |opts| == |amounts|
    requires forall k :: 0 <= k < |opts| ==>
      amounts[k] == match opts[k] case None => 0.0 case Some(item) => item.amountJpy
    ensures SumOf(Somes(opts), (item: MonthlyBreakdownItem) => item.amountJpy) == SumOf(amounts, x => x)
  {
    if opts != [] {
      var n := |opts| - 1;
      SomesSum(opts[..n], amounts[..n]);
      assert amounts == amounts[..n] + [amounts[n]];
      SumOfAppend(amounts[..n], [amounts[n]], x => x);
      match opts[n]
      case None =>
      case Some(item) =>
        SumOfAppend(Somes(opts[..n]), [item], (item: MonthlyBreakdownItem) => item.amountJpy);
    }
  }

  /** The breakdown and the monthly total agree: they fail together with
      the same failure, and the breakdown's amounts add up to the total. */
  lemma BreakdownSumsToTotal(subs: seq<Subscription>, rates: seq<ExchangeRate>, year: int, month: int)
    ensures MonthlyBreakdown(subs, rates, year, month).Ok? == MonthlyTotal(subs, rates, year, month).Ok?
    ensures MonthlyBreakdown(subs, rates, year, month).Err? ==>
      MonthlyBreakdown(subs, rates, year, month).error == MonthlyTotal(subs, rates, year, month).error
    ensures MonthlyBreakdown(subs, rates, year, month).Ok? ==>
      SumOf(MonthlyBreakdown(subs, rates, year, month).value, (item: MonthlyBreakdownItem) => item.amountJpy)
      == MonthlyTotal(subs, rates, year, month).value
  {
    if ValidYearMonth(year, month) {
      var f := s => BreakdownItem(s, rates, year, month);
      var g := s => MonthContribution(s, rates, year, month);
      forall i | 0 <= i < |subs| {
        BreakdownItemContribution(subs[i], rates, year, month);
      }
      MapAllSameFailures(subs, f, g);
      if MapAll(subs, f).Ok? {
        var opts := MapAll(subs, f).value;
        var amounts := MapAll(subs, g).value;
        SomesSum(opts, amounts);
        SortSum(Somes(opts), ByAmountDescending, (item: MonthlyBreakdownItem) => item.amountJpy);
      }
    }
  }

  /** The breakdown is ordered by amount, largest first, and holds exactly
      the items of the subscriptions that pay in the month: it is a
      permutation of the items `mapNotNull` keeps, one per paying
      subscription (see `SomesCount`), equal items included. */
  lemma BreakdownContents(subs: seq<Subscription>, rates: seq<ExchangeRate>, year: int, month: int)
    requires MonthlyBreakdown(subs, rates, year, month).Ok?
    ensures 1 <= month <= 12
    ensures SortedBy(MonthlyBreakdown(subs, rates, year, month).value, ByAmountDescending)
    ensures forall item :: item in MonthlyBreakdown(subs, rates, year, month).value <==>
      exists i :: 0 <= i < |subs| && BreakdownItem(subs[i], rates, year, month) == Ok(Some(item))
    ensures multiset(MonthlyBreakdown(subs, rates, year, month).value)
            == multiset(Somes(MapAll(subs, s => BreakdownItem(s, rates, year, month)).value))
    ensures forall k :: Equivalents(MonthlyBreakdown(subs, rates, year, month).value, k, ByAmountDescending)
                        == Equivalents(Somes(MapAll(subs, s => BreakdownItem(s, rates, year, month)).value), k, ByAmountDescending)
  {
    var f := s => BreakdownItem(s, rates, year, month);
    var opts := MapAll(subs, f).value;
    ByAmountDescendingIsPreorder();
    SortSorted(Somes(opts), ByAmountDescending);
    SortMembers(Somes(opts), ByAmountDescending);
    MapAllSomes(subs, f, opts);
    forall k ensures Equivalents(Sort(Somes(opts), ByAmountDescending), k, ByAmountDescending)
                     == Equivalents(Somes(opts), k, ByAmountDescending) {
      SortStable(Somes(opts), k, ByAmountDescending);
    }
  }

  /** The body of `getMonthlyBreakdown`'s `mapNotNull`. */
  method ItemInMonth(subscription: Subscription, exchangeRates: seq<ExchangeRate>,
                     rateMap: map<string, real>, year: int, month: int)
      returns (r: Result<Option<MonthlyBreakdownItem>, Failure>)
    requires 1 <= month <= 12 && rateMap == RateMap(exchangeRates)
    ensures r == BreakdownItem(subscription, exchangeRates, year, month)
  {
    var targetStart := StartOfMonth(year, month);
    var targetEnd := EndOfMonth(year, month);
    var parsed := Parse(subscription.firstPaymentDate);
    if parsed.None? {
      return Err(InvalidDate);
    }
    var firstPaymentDate := parsed.value;
    if After(firstPaymentDate, targetEnd) {
      return Ok(None);
    }
    var currentPaymentDate := AdvanceLoop(firstPaymentDate, subscription.paymentCycle, year, month);
    if !After(currentPaymentDate, targetEnd) && !Before(currentPaymentDate, targetStart) {
      var rate := if subscription.currencyCode in rateMap then rateMap[subscription.currencyCode] else 1.0;
      BreakdownItemOf(subscription, exchangeRates, year, month, firstPaymentDate, rate);
      return Ok(Some(MonthlyBreakdownItem(subscription.serviceName, subscription.amount * rate)));
    } else {
      BreakdownItemOf(subscription, exchangeRates, year, month, firstPaymentDate,
                      RateOf(exchangeRates, subscription.currencyCode));
      return Ok(None);
    }
  }

  /** One subscription's breakdown item, once its first payment date has
      been read: an item with its name and its payment at `rate` when it
      pays in the month, nothing otherwise. */
  lemma BreakdownItemOf(s: Subscription, rates: seq<ExchangeRate>, y: int, m: int, first: Date, rate: real)
    requires 1 <= m <= 12 && Parse(s.firstPaymentDate) == Some(first)
    requires rate == RateOf(rates, s.currencyCode)
    ensures ValidDate(first)
    ensures PaysInMonth(first, s.paymentCycle, y, m) ==>
      BreakdownItem(s, rates, y, m) == Ok(Some(MonthlyBreakdownItem(s.serviceName, s.amount * rate)))
    ensures !PaysInMonth(first, s.paymentCycle, y, m) ==> BreakdownItem(s, rates, y, m) == Ok(None)
  {
    assert BreakdownItem(s, rates, y, m) == ItemOfParsed(s, rate, y, m, Some(first));
    if PaysInMonth(first, s.paymentCycle, y, m) {
      ItemWhenPaying(s, rate, y, m, first);
    } else {
      ItemWhenNotPaying(s, rate, y, m, first);
    }
  }

  lemma ItemWhenPaying(s: Subscription, rate: real, y: int, m: int, first: Date)
    requires 1 <= m <= 12 && ValidDate(first) && PaysInMonth(first, s.paymentCycle, y, m)
    ensures ItemOfParsed(s, rate, y, m, Some(first)) == Ok(Some(MonthlyBreakdownItem(s.serviceName, s.amount * rate)))
  {
    var it := ItemOfParsed(s, rate, y, m, Some(first));
    assert it.Ok? && it.value.Some?;
    assert it.value.value.serviceName == s.serviceName;
    assert it.value.value.amountJpy == s.amount * rate;
  }

  lemma ItemWhenNotPaying(s: Subscription, rate: real, y: int, m: int, first: Date)
    requires 1 <= m <= 12 && ValidDate(first) && !PaysInMonth(first, s.paymentCycle, y, m)
    ensures ItemOfParsed(s, rate, y, m, Some(first)) == Ok(None)
  {
  }

  /** `getMonthlyBreakdown`, step by step as the source runs it. */
  method GetMonthlyBreakdown(subscriptions: seq<Subscription>, exchangeRates: seq<ExchangeRate>,
                             year: int, month: int)
      returns (r: Result<seq<MonthlyBreakdownItem>, Failure>)
    ensures r == MonthlyBreakdown(subscriptions, exchangeRates, year, month)
  {
    var rateMap := RateMap(exchangeRates);
    if !ValidYearMonth(year, month) {
      return Err(InvalidYearMonth);
    }
    ghost var f := s => BreakdownItem(s, exchangeRates, year, month);
    ghost var opts: seq<Option<MonthlyBreakdownItem>> := [];
    var kept: seq<MonthlyBreakdownItem> := [];
    for i := 0 to |subscriptions|
      invariant MapAll(subscriptions[..i], f) == Ok(opts)
      invariant kept == Somes(opts)
    {
      var item := ItemInMonth(subscriptions[i], exchangeRates, rateMap, year, month);
      assert f(subscriptions[i]) == item;
      if item.Err? {
        MapAllFailsAt(subscriptions, f, i, opts);
        return Err(item.error);
      }
      MapAllExtend(subscriptions, f, i, opts);
      SomesSnoc(opts, item.value);
      opts := opts + [item.value];
      if item.value.Some? {
        kept := kept + [item.value.value];
      }
    }
    MapAllWhole(subscriptions, f);
    return Ok(Sort(kept, ByAmountDescending));
  }
}
