/** The detail screen of one subscription: its projected payment, the
    monthly amount in yen and the cost per use, computed with the single
    exchange-rate row of its currency, and the screen's state as loading
    and deleting change it. */
module Detail {
  import opened Wrappers
  import opened Text
  import opened Calendar
  import opened Model
  import opened Converters
  import opened Calculator
  import opened Repository

  // ---------------------------------------------------------------------
  // Rate and cost

  /** `getByCode(code)`: the rate of the first row with that code. */
  function RateByCode(rates: seq<ExchangeRate>, code: string): (r: Option<real>)
    ensures r.None? <==> forall i :: 0 <= i < |rates| ==> rates[i].currencyCode != code
    ensures r.Some? ==> exists i :: 0 <= i < |rates| && rates[i].currencyCode == code && rates[i].rateToJpy == r.value
  {
    if rates == [] then None
    else if rates[0].currencyCode == code then Some(rates[0].rateToJpy)
    else
      var r := RateByCode(rates[1..], code);
      assert forall i :: 1 <= i < |rates| ==> rates[1..][i - 1] == rates[i];
      r
  }

  /** The rate the detail screen uses: the row's rate, or 1.0 without one. */
  function DetailRate(rates: seq<ExchangeRate>, code: string): real {
    RateByCode(rates, code).GetOr(1.0)
  }

  /** The currency code is the table's primary key: no two rows share one. */
  predicate UniqueCodes(rates: seq<ExchangeRate>) {
    forall i, j :: 0 <= i < j < |rates| ==> rates[i].currencyCode != rates[j].currencyCode
  }

  /** With one row per currency, the detail screen's lookup and the
      aggregations' lookup give the same rate, 1.0 included. */
  lemma DetailRateAgrees(rates: seq<ExchangeRate>, code: string)
    requires UniqueCodes(rates)
    ensures DetailRate(rates, code) == RateOf(rates, code)
  {
    RateLookup(rates, code);
    var r := RateByCode(rates, code);
    if r.Some? {
      var i :| 0 <= i < |rates| && rates[i].currencyCode == code && rates[i].rateToJpy == r.value;
      assert forall j :: i < j < |rates| ==> rates[j].currencyCode != code;
    }
  }

  /** The monthly amount in yen: the payment at `rate`, divided by 6 for a
      half-yearly and by 12 for a yearly cycle. */
  function DetailMonthlyAmount(s: Subscription, rate: real): (r: real)
    ensures r * (CycleMonths(s.paymentCycle) as real) == s.amount * rate
  {
    match s.paymentCycle
    case Monthly => s.amount * rate
    case Biannually => (s.amount * rate) / 6.0
    case Yearly => (s.amount * rate) / 12.0
  }

  /** The detail screen's cost per use: 0.0 when the usage count is not
      positive. */
  function DetailCostPerUse(s: Subscription, rate: real): (r: real)
    ensures s.usageFrequency <= 0 ==> r == 0.0
    ensures s.usageFrequency > 0 ==> r * (s.usageFrequency as real) == DetailMonthlyAmount(s, rate)
  {
    if s.usageFrequency > 0 then DetailMonthlyAmount(s, rate) / (s.usageFrequency as real) else 0.0
  }

  /** Against the ranking: the same monthly amount, and the same cost per
      use whenever the usage count is positive; where it is not, the
      ranking says infinite and the detail screen says 0.0. */
  lemma DetailCostMatchesRanking(s: Subscription, rates: seq<ExchangeRate>)
    requires UniqueCodes(rates)
    ensures DetailMonthlyAmount(s, DetailRate(rates, s.currencyCode)) == MonthlyJpy(s, rates)
    ensures s.usageFrequency > 0 ==>
      CostPerUseOf(s, rates).costPerUseJpy == Finite(DetailCostPerUse(s, DetailRate(rates, s.currencyCode)))
    ensures s.usageFrequency <= 0 ==>
      CostPerUseOf(s, rates).costPerUseJpy == Infinite && DetailCostPerUse(s, DetailRate(rates, s.currencyCode)) == 0.0
  {
    DetailRateAgrees(rates, s.currencyCode);
    var x := s.amount * RateOf(rates, s.currencyCode);
    match s.paymentCycle
    case Monthly =>
    case Biannually => assert x * (1.0 / 6.0) == x / 6.0;
    case Yearly => assert x * (1.0 / 12.0) == x / 12.0;
  }

  // ---------------------------------------------------------------------
  // Screen state

  /** The messages the screen shows: no such subscription, a load that
      threw, a delete that threw. */
  datatype DetailError = NotFound | LoadFailed(cause: Failure) | DeleteFailed

  /** `DetailUiState`. */
  datatype DetailUiState = DetailUiState(
    subscription: Option<SubscriptionWithPayment>,
    costPerUse: real,
    isLoading: bool,
    error: Option<DetailError>,
    isDeleted: bool)

  const InitialDetailState := DetailUiState(None, 0.0, true, None, false)

  /** The route id: the `subId` text as an integer, 0 when it does not parse. */
  function DetailSubId(arg: Option<string>): (r: int)
    ensures arg.Some? && ParseInt(arg.value).Some? ==> r == ParseInt(arg.value).value
    ensures arg.None? || ParseInt(arg.value).None? ==> r == 0
  {
    match arg
    case None => 0
    case Some(text) => ParseInt(text).GetOr(0)
  }

  class DetailViewModel {
    const subId: int
    var uiState: DetailUiState

    constructor(subIdArg: Option<string>)
      ensures subId == DetailSubId(subIdArg)
      ensures uiState == InitialDetailState
    {
      subId := DetailSubId(subIdArg);
      uiState := InitialDetailState;
    }

    /** `loadSubscription`: `found` is the row the repository returns for
        `subId`, `rates` the exchange-rate table. A missing row ends the
        load with the not-found message; a failing projection with its
        failure; otherwise the screen shows the same entry the payment list
        shows, and the detail cost per use. */
    method LoadSubscription(found: Option<Subscription>, rates: seq<ExchangeRate>, today: Date)
      requires ValidDate(today)
      modifies this
      ensures found.None? ==> uiState == old(uiState).(isLoading := false, error := Some(NotFound))
      ensures found.Some? && EntryFor(found.value, today).Err? ==>
        uiState == old(uiState).(isLoading := false, error := Some(LoadFailed(EntryFor(found.value, today).error)))
      ensures found.Some? && EntryFor(found.value, today).Ok? ==>
        uiState == old(uiState).(
          subscription := Some(EntryFor(found.value, today).value),
          costPerUse := DetailCostPerUse(found.value, DetailRate(rates, found.value.currencyCode)),
          isLoading := false,
          error := None)
    {
      uiState := uiState.(isLoading := true);
      if found.None? {
        uiState := uiState.(isLoading := false, error := Some(NotFound));
        return;
      }
      var subscription := found.value;
      var nextPaymentDate := Calculate(subscription.firstPaymentDate, FromPaymentCycle(subscription.paymentCycle), today);
      if nextPaymentDate.Err? {
        uiState := uiState.(isLoading := false, error := Some(LoadFailed(nextPaymentDate.error)));
        return;
      }
      var daysUntil := DaysUntil(nextPaymentDate.value, today);
      if daysUntil.Err? {
        uiState := uiState.(isLoading := false, error := Some(LoadFailed(daysUntil.error)));
        return;
      }
      var exchangeRate := RateByCode(rates, subscription.currencyCode);
      var rateToJpy := if exchangeRate.Some? then exchangeRate.value else 1.0;
      assert rateToJpy == DetailRate(rates, subscription.currencyCode);
      var costPerUse := DetailCostPerUse(subscription, rateToJpy);
      var subscriptionWithPayment := SubscriptionWithPayment(subscription, nextPaymentDate.value, daysUntil.value);
      uiState := uiState.(subscription := Some(subscriptionWithPayment), costPerUse := costPerUse,
                          isLoading := false, error := None);
    }

    /** `deleteSubscription`: deactivates the row `subId` (the returned id)
        and marks the screen deleted, or shows the delete failure when the
        write throws (`deleteFails`). */
    method DeleteSubscription(deleteFails: bool) returns (deactivated: int)
      modifies this
      ensures deactivated == subId
      ensures uiState == if deleteFails then old(uiState).(error := Some(DeleteFailed))
                         else old(uiState).(isDeleted := true)
    {
      deactivated := subId;
      if deleteFails {
        uiState := uiState.(error := Some(DeleteFailed));
      } else {
        uiState := uiState.(isDeleted := true);
      }
    }
  }
}
