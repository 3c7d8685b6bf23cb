/** `NextPaymentCalculator`: projecting a first payment date forward by its
    billing cycle to the first date strictly after today, and the day count
    from today to a payment date. `LocalDate.now()` is the parameter
    `today`. */
module Calculator {
  import opened Wrappers
  import opened Text
  import opened Calendar
  import opened IsoDate
  import opened Model
  import opened Converters

  /** `maxLoops`. */
  const MaxLoops: nat := 1000

  function CycleMonths(c: PaymentCycle): nat {
    match c
    case Monthly => 1
    case Biannually => 6
    case Yearly => 12
  }

  /** The loop body for a known cycle: add the cycle, then clamp the day to
      the month's end. Each step moves to a later month by the cycle's
      length and keeps the day unless the month is too short. */
  function Step(d: Date, c: PaymentCycle): (r: Date)
    requires ValidDate(d)
    ensures ValidDate(r)
  {
    var next := match c
      case Monthly => PlusMonths(d, 1)
      case Biannually => PlusMonths(d, 6)
      case Yearly => PlusYears(d, 1);
    ClampToMonthEnd(next)
  }

  /** Each step moves to a later month by the cycle's length and keeps the
      day unless the month is too short. */
  lemma StepFacts(d: Date, c: PaymentCycle)
    requires ValidDate(d)
    ensures var r := Step(d, c);
            && MonthIndexOf(r) == MonthIndexOf(d) + CycleMonths(c)
            && r.day == Min(d.day, DaysInMonth(r.year, r.month))
            && After(r, d)
  {
    MonthIndexOrder(d, Step(d, c));
  }

  /** The `n`-th date of the payment schedule that starts at `d`. */
  function StepN(d: Date, c: PaymentCycle, n: nat): (r: Date)
    requires ValidDate(d)
    ensures ValidDate(r)
  {
    if n == 0 then d else Step(StepN(d, c, n - 1), c)
  }

  /** The loop of `calculate` from date `d` with counter `loopCount`. It
      stops at a date after today; otherwise the counter is checked, then
      the cycle name. The result is after today, and is `d` itself or lies
      at most one year past today's month. */
  function Advance(d: Date, cycle: Option<PaymentCycle>, today: Date, loopCount: nat): (r: Result<Date, Failure>)
    requires ValidDate(d) && ValidDate(today)
    ensures r.Ok? ==> ValidDate(r.value) && After(r.value, today)
    ensures r.Err? ==> r.error == InvalidCycle || r.error == LoopLimitExceeded
    ensures r.Ok? ==> r.value == d || MonthIndexOf(r.value) <= MonthIndexOf(today) + 12
    decreases MaxLoops + 1 - loopCount
  {
    if !(Before(d, today) || d == today) then Ok(d)
    else if loopCount > MaxLoops then Err(LoopLimitExceeded)
    else match cycle
      case None => Err(InvalidCycle)
      case Some(c) =>
        MonthIndexOrder(d, today);
        StepFacts(d, c);
        Advance(Step(d, c), cycle, today, loopCount + 1)
  }

  /** The projection on dates. A first date already after today comes back
      unchanged whatever the cycle name; an unknown name fails only once a
      step is needed. */
  function ProjectDate(first: Date, cycleName: string, today: Date): (r: Result<Date, Failure>)
    requires ValidDate(first) && ValidDate(today)
    ensures After(first, today) ==> r == Ok(first)
    ensures ToPaymentCycle(cycleName).None? ==> r == if After(first, today) then Ok(first) else Err(InvalidCycle)
  {
    Advance(first, ToPaymentCycle(cycleName), today, 0)
  }

  /** `calculate(firstPaymentDate, paymentCycle)`: the printed date of a
      payment after today, or one of the three failures of `calculate`. */
  function NextPayment(firstPaymentDate: string, paymentCycle: string, today: Date): (r: Result<string, Failure>)
    requires ValidDate(today)
    ensures Parse(firstPaymentDate).None? ==> r == Err(InvalidDate)
    ensures r.Ok? ==> exists d :: ValidDate(d) && After(d, today) && r.value == Format(d)
    ensures r.Err? ==> r.error == InvalidDate || r.error == InvalidCycle || r.error == LoopLimitExceeded
  {
    match Parse(firstPaymentDate)
    case None => Err(InvalidDate)
    case Some(firstDate) =>
      match ProjectDate(firstDate, paymentCycle, today)
      case Ok(d) => assert ValidDate(d) && After(d, today); Ok(Format(d))
      case Err(e) => Err(e)
  }

  /** `calculate`, step by step as the source runs it. */
  method Calculate(firstPaymentDate: string, paymentCycle: string, today: Date)
      returns (r: Result<string, Failure>)
    requires ValidDate(today)
    ensures r == NextPayment(firstPaymentDate, paymentCycle, today)
  {
    var parsed := Parse(firstPaymentDate);
    if parsed.None? {
      return Err(InvalidDate);
    }
    var nextPaymentDate := ProjectLoop(parsed.value, paymentCycle, today);
    if nextPaymentDate.Err? {
      return Err(nextPaymentDate.error);
    }
    return Ok(Format(nextPaymentDate.value));
  }

  /** The `while` loop of `calculate`, from the parsed first date. */
  method ProjectLoop(firstDate: Date, paymentCycle: string, today: Date) returns (r: Result<Date, Failure>)
    requires ValidDate(firstDate) && ValidDate(today)
    ensures r == ProjectDate(firstDate, paymentCycle, today)
  {
    var nextPaymentDate := firstDate;
    var loopCount := 0;
    while Before(nextPaymentDate, today) || nextPaymentDate == today
      invariant ValidDate(nextPaymentDate) && loopCount <= MaxLoops + 1
      invariant Advance(nextPaymentDate, ToPaymentCycle(paymentCycle), today, loopCount)
             == ProjectDate(firstDate, paymentCycle, today)
      decreases MaxLoops + 1 - loopCount
    {
      var failure;
      failure, nextPaymentDate, loopCount := LoopBody(nextPaymentDate, paymentCycle, today, loopCount);
      if failure.Some? {
        return Err(failure.value);
      }
    }
    return Ok(nextPaymentDate);
  }

  /** One pass of the loop body from a date not after today: the loop-limit
      check, the counter, then a step by the named cycle and the clamp. It
      fails exactly where the projection fails, and otherwise leaves the
      projection from the new date and counter unchanged. */
  method LoopBody(d: Date, paymentCycle: string, today: Date, loopCount: nat)
      returns (failure: Option<Failure>, next: Date, count: nat)
    requires ValidDate(d) && ValidDate(today) && (Before(d, today) || d == today)
    ensures failure.Some? ==> Advance(d, ToPaymentCycle(paymentCycle), today, loopCount) == Err(failure.value)
    ensures failure.None? ==> ValidDate(next) && count == loopCount + 1 <= MaxLoops + 1
    ensures failure.None? ==> Advance(next, ToPaymentCycle(paymentCycle), today, count)
                              == Advance(d, ToPaymentCycle(paymentCycle), today, loopCount)
  {
    next, count := d, loopCount;
    if loopCount > MaxLoops {
      return Some(LoopLimitExceeded), next, count;
    }
    count := loopCount + 1;
    var cycle := ToPaymentCycle(paymentCycle);
    if cycle.None? {
      return Some(InvalidCycle), next, count;
    }
    next := match cycle.value
      case Monthly => PlusMonths(d, 1)
      case Biannually => PlusMonths(d, 6)
      case Yearly => PlusYears(d, 1);
    next := ClampToMonthEnd(next);
    failure := None;
  }

  /** `n` is the first schedule index whose date is after today. */
  ghost predicate FirstAfter(first: Date, c: PaymentCycle, today: Date, n: nat)
    requires ValidDate(first)
  {
    After(StepN(first, c, n), today)
    && forall k :: 0 <= k < n ==> !After(StepN(first, c, k), today)
  }

  /** Where the loop ends from the `k`-th schedule date: at the `n`-th, the
      first schedule date after today, or in the loop-limit failure when
      none of the first 1002 schedule dates is after today. */
  ghost predicate LoopOutcome(first: Date, c: PaymentCycle, today: Date, k: nat, n: nat)
    requires ValidDate(first) && ValidDate(today) && k <= MaxLoops + 1
  {
    EndsAt(first, c, today, k, n, Advance(StepN(first, c, k), Some(c), today, k))
  }

  /** `r` is where the loop ends from the `k`-th schedule date, as
      `LoopOutcome` describes it. */
  ghost predicate EndsAt(first: Date, c: PaymentCycle, today: Date, k: nat, n: nat, r: Result<Date, Failure>)
    requires ValidDate(first)
  {
    (r.Ok? ==> k <= n <= MaxLoops + 1 && FirstAfter(first, c, today, n) && r.value == StepN(first, c, n))
    && (r.Err? ==> r.error == LoopLimitExceeded
                   && forall j :: 0 <= j <= MaxLoops + 1 ==> !After(StepN(first, c, j), today))
  }

  /** From the `k`-th schedule date, with none of the earlier ones after
      today, the loop ends at the first schedule date after today, whose
      index `n` it returns, or fails at the loop limit when none of the
      first 1002 is. */
  lemma {:induction false} AdvanceFromStep(first: Date, c: PaymentCycle, today: Date, k: nat)
      returns (n: nat)
    requires ValidDate(first) && ValidDate(today) && k <= MaxLoops + 1
    requires forall j :: 0 <= j < k ==> !After(StepN(first, c, j), today)
    ensures LoopOutcome(first, c, today, k, n)
    decreases MaxLoops + 1 - k
  {
    if After(StepN(first, c, k), today) {
      n := k;
      AdvanceStops(first, c, today, k);
    } else if k <= MaxLoops {
      AdvanceOneStep(first, c, today, k);
      NoneAfterExtends(first, c, today, k);
      n := AdvanceFromStep(first, c, today, k + 1);
      TransferOutcome(first, c, today, k, n);
    } else {
      n := k;
      AdvanceAtLimit(first, c, today, k);
    }
  }

  /** The outcome from the next schedule date is the outcome from this one. */
  lemma TransferOutcome(first: Date, c: PaymentCycle, today: Date, k: nat, n: nat)
    requires ValidDate(first) && ValidDate(today) && k <= MaxLoops
    requires Advance(StepN(first, c, k), Some(c), today, k)
             == Advance(StepN(first, c, k + 1), Some(c), today, k + 1)
    requires LoopOutcome(first, c, today, k + 1, n)
    ensures LoopOutcome(first, c, today, k, n)
  {
  }

  /** A schedule date after today, with none before it, ends the loop. */
  lemma AdvanceStops(first: Date, c: PaymentCycle, today: Date, k: nat)
    requires ValidDate(first) && ValidDate(today)
    requires forall j :: 0 <= j < k ==> !After(StepN(first, c, j), today)
    requires After(StepN(first, c, k), today) && k <= MaxLoops + 1
    ensures Advance(StepN(first, c, k), Some(c), today, k) == Ok(StepN(first, c, k))
    ensures FirstAfter(first, c, today, k)
    ensures LoopOutcome(first, c, today, k, k)
  {
  }

  /** A schedule date not after today at the loop limit fails the loop. */
  lemma AdvanceAtLimit(first: Date, c: PaymentCycle, today: Date, k: nat)
    requires ValidDate(first) && ValidDate(today) && k == MaxLoops + 1
    requires forall j :: 0 <= j < k ==> !After(StepN(first, c, j), today)
    requires !After(StepN(first, c, k), today)
    ensures Advance(StepN(first, c, k), Some(c), today, k) == Err(LoopLimitExceeded)
    ensures forall j :: 0 <= j <= MaxLoops + 1 ==> !After(StepN(first, c, j), today)
    ensures LoopOutcome(first, c, today, k, k)
  {
    var d := StepN(first, c, k);
    assert Before(d, today) || d == today;
  }

  /** From a schedule date not after today and below the loop limit, the
      loop goes on from the next schedule date. */
  lemma AdvanceOneStep(first: Date, c: PaymentCycle, today: Date, k: nat)
    requires ValidDate(first) && ValidDate(today) && k <= MaxLoops
    requires !After(StepN(first, c, k), today)
    ensures Advance(StepN(first, c, k), Some(c), today, k)
            == Advance(StepN(first, c, k + 1), Some(c), today, k + 1)
  {
    var d := StepN(first, c, k);
    assert Before(d, today) || d == today;
  }

  /** No schedule date so far is after today. */
  lemma NoneAfterExtends(first: Date, c: PaymentCycle, today: Date, k: nat)
    requires ValidDate(first)
    requires forall j :: 0 <= j < k ==> !After(StepN(first, c, j), today)
    requires !After(StepN(first, c, k), today)
    ensures forall j :: 0 <= j < k + 1 ==> !After(StepN(first, c, j), today)
  {
  }

  /** Minimality and the loop limit: with a known cycle the projection is
      the first date of the schedule after today, found within 1001 steps;
      it fails, with the loop-limit error only, exactly when none of the
      first 1002 schedule dates is after today. */
  lemma ProjectionIsFirstDateAfterToday(first: Date, c: PaymentCycle, today: Date)
    requires ValidDate(first) && ValidDate(today)
    ensures var r := ProjectDate(first, FromPaymentCycle(c), today);
            (r.Ok? ==> exists n :: 0 <= n <= MaxLoops + 1 && FirstAfter(first, c, today, n)
                                   && r.value == StepN(first, c, n))
            && (r.Err? <==> forall j :: 0 <= j <= MaxLoops + 1 ==> !After(StepN(first, c, j), today))
            && (r.Err? ==> r.error == LoopLimitExceeded)
  {
    var n := AdvanceFromStep(first, c, today, 0);
    var r := ProjectDate(first, FromPaymentCycle(c), today);
    assert r == Advance(StepN(first, c, 0), Some(c), today, 0) by {
      ToFromPaymentCycle(c);
    }
    OutcomeFromFirst(first, c, today, n, r);
  }

  /** The loop outcome from the first date, spelled out. */
  lemma OutcomeFromFirst(first: Date, c: PaymentCycle, today: Date, n: nat, r: Result<Date, Failure>)
    requires ValidDate(first) && EndsAt(first, c, today, 0, n, r)
    ensures r.Ok? ==> exists n :: 0 <= n <= MaxLoops + 1 && FirstAfter(first, c, today, n)
                                  && r.value == StepN(first, c, n)
    ensures r.Err? <==> forall j :: 0 <= j <= MaxLoops + 1 ==> !After(StepN(first, c, j), today)
    ensures r.Err? ==> r.error == LoopLimitExceeded
  {
    if r.Ok? {
      assert FirstAfter(first, c, today, n) && n <= MaxLoops + 1 && r.value == StepN(first, c, n);
      assert After(StepN(first, c, n), today);
      assert !forall j :: 0 <= j <= MaxLoops + 1 ==> !After(StepN(first, c, j), today);
    } else {
      assert r.error == LoopLimitExceeded;
    }
  }

  /** `Long.toInt()`: the low 32 bits, read as a signed number. */
  function ToInt32(x: int): (r: int)
    ensures IntMin <= r <= IntMax
    ensures (r - x) % 0x1_0000_0000 == 0
    ensures IntMin <= x <= IntMax ==> r == x
  {
    (x - IntMin) % 0x1_0000_0000 + IntMin
  }

  /** `calculateDaysUntil(nextPaymentDate)`: fails exactly on text that
      does not read as a date; the count is an `Int`. */
  function DaysUntil(nextPaymentDate: string, today: Date): (r: Result<int, Failure>)
    requires ValidDate(today)
    ensures r.Ok? <==> Parse(nextPaymentDate).Some?
    ensures r.Err? ==> r.error == InvalidDate
    ensures r.Ok? ==> IntMin <= r.value <= IntMax
    ensures r.Ok? && Parse(nextPaymentDate).value == today ==> r.value == 0
  {
    match Parse(nextPaymentDate)
    case None => Err(InvalidDate)
    case Some(nextDate) => Ok(ToInt32(DaysBetween(today, nextDate)))
  }

  /** A projected date at most a year past today's month is less than
      732 days away. */
  lemma DaysToNextYearEnd(today: Date, d: Date)
    requires ValidDate(today) && ValidDate(d) && d.year <= today.year + 1
    ensures DaysBetween(today, d) <= 731
  {
    var limit := Date(today.year + 2, 1, 1);
    EpochDayOrder(d, limit);
    DaysBeforeNextYear(today.year);
    DaysBeforeNextYear(today.year + 1);
  }

  /** The days until the projected payment, counted from the same today:
      the signed day difference is at least one; the `Int` the source
      returns equals it, and so is at least one, whenever the projected
      date lies at most a year past today's year, as it does whenever the
      first date was not already after today. */
  lemma DaysUntilNextPayment(firstPaymentDate: string, paymentCycle: string, today: Date)
    requires ValidDate(today) && -999_999_999 <= today.year < 999_999_999
    requires NextPayment(firstPaymentDate, paymentCycle, today).Ok?
    ensures var firstDate := Parse(firstPaymentDate).value;
            var d := ProjectDate(firstDate, paymentCycle, today).value;
            var days := DaysUntil(NextPayment(firstPaymentDate, paymentCycle, today).value, today);
            days == Ok(ToInt32(DaysBetween(today, d)))
            && DaysBetween(today, d) >= 1
            && (!After(firstDate, today) ==> d.year <= today.year + 1)
            && (d.year <= today.year + 1 ==> 1 <= days.value <= 731)
  {
    var firstDate := Parse(firstPaymentDate).value;
    var d := ProjectDate(firstDate, paymentCycle, today).value;
    EpochDayOrder(today, d);
    if d != firstDate {
      assert d.year <= today.year + 1;
    }
    assert InYearRange(d.year);
    ParseFormat(d);
    if d.year <= today.year + 1 {
      DaysToNextYearEnd(today, d);
    }
  }

  /** Clamping compounds: a Jan 31 monthly schedule pays Feb 29, then
      Mar 29, not Mar 31. */
  lemma ClampCompounds()
    ensures ProjectDate(Date(2024, 1, 31), "MONTHLY", Date(2024, 3, 1)) == Ok(Date(2024, 3, 29))
    ensures StepN(Date(2024, 1, 31), Monthly, 2) == Date(2024, 3, 29)
  {
    assert Step(Date(2024, 1, 31), Monthly) == Date(2024, 2, 29);
    assert Step(Date(2024, 2, 29), Monthly) == Date(2024, 3, 29);
  }

  /** A yearly Feb 29 schedule falls back to Feb 28 and stays there. */
  lemma LeapDayYearly()
    ensures ProjectDate(Date(2024, 2, 29), "YEARLY", Date(2025, 6, 1)) == Ok(Date(2026, 2, 28))
  {
    assert Step(Date(2024, 2, 29), Yearly) == Date(2025, 2, 28);
    assert Step(Date(2025, 2, 28), Yearly) == Date(2026, 2, 28);
  }
}
