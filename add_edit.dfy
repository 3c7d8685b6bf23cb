/** The add/edit form: its state, the field setters, the validation that
    fills an error map, and the record that a save writes. The amount
    text is read by Kotlin's `toDoubleOrNull`, which the model takes as a
    given function. */
module AddEdit {
  import opened Wrappers
  import opened Text
  import opened Calendar
  import opened IsoDate
  import opened Model
  import Usage

  /** The reasons a field is refused, one per message of the form. */
  datatype FieldError = BlankServiceName | InvalidAmount | NegativeAmount | InvalidDateText | SaveFailed

  /** `AddEditUiState`. */
  datatype UiState = UiState(
    serviceName: string,
    amount: string,
    currencyCode: string,
    cycle: PaymentCycle,
    firstPaymentDate: string,
    frequency: Usage.UsageFrequency,
    note: string,
    iconUrl: Option<string>,
    errors: map<string, FieldError>,
    isLoading: bool,
    isSaved: bool)

  /** The state a new form starts in, dated `today`. */
  function InitialState(today: Date): UiState
    requires ValidDate(today)
  {
    UiState("", "", "JPY", Monthly, Format(today), Usage.Monthly, "", None, map[], false, false)
  }

  /** The keys of the error map. */
  const ServiceNameKey := "serviceName"
  const AmountKey := "amount"
  const DateKey := "firstPaymentDate"
  const GeneralKey := "general"

  /** The amount is refused: it does not parse, or it is negative. */
  predicate AmountRejected(value: Option<real>) {
    value.None? || value.value < 0.0
  }

  /** The error map `validateInput` builds for a form state. */
  function FormErrors(st: UiState, toDoubleOrNull: string -> Option<real>): (e: map<string, FieldError>)
    ensures e.Keys <= {ServiceNameKey, AmountKey, DateKey}
    ensures ServiceNameKey in e <==> IsBlank(st.serviceName)
    ensures AmountKey in e <==> AmountRejected(toDoubleOrNull(st.amount))
    ensures DateKey in e <==> !IsDateShape(st.firstPaymentDate)
    ensures ServiceNameKey in e ==> e[ServiceNameKey] == BlankServiceName
    ensures AmountKey in e ==> e[AmountKey] == if toDoubleOrNull(st.amount).None? then InvalidAmount else NegativeAmount
    ensures DateKey in e ==> e[DateKey] == InvalidDateText
  {
    var value := toDoubleOrNull(st.amount);
    var afterName: map<string, FieldError> :=
      if IsBlank(st.serviceName) then map[ServiceNameKey := BlankServiceName] else map[];
    var afterAmount :=
      if value.None? then afterName[AmountKey := InvalidAmount]
      else if value.value < 0.0 then afterName[AmountKey := NegativeAmount]
      else afterName;
    if !IsDateShape(st.firstPaymentDate) then afterAmount[DateKey := InvalidDateText] else afterAmount
  }

  /** The form passes validation. */
  predicate Accepted(st: UiState, toDoubleOrNull: string -> Option<real>) {
    FormErrors(st, toDoubleOrNull) == map[]
  }

  /** Validation passes exactly when the name is not blank, the amount
      parses to a number that is not negative, and the date has the shape
      `dddd-dd-dd`. */
  lemma AcceptedIff(st: UiState, toDoubleOrNull: string -> Option<real>)
    ensures Accepted(st, toDoubleOrNull)
        <==> !IsBlank(st.serviceName)
             && toDoubleOrNull(st.amount).Some? && toDoubleOrNull(st.amount).value >= 0.0
             && IsDateShape(st.firstPaymentDate)
  {
    var e := FormErrors(st, toDoubleOrNull);
    if e != map[] {
      var k :| k in e;
      assert k == ServiceNameKey || k == AmountKey || k == DateKey;
    }
  }

  /** The date check is on the shape only: a month 13 and a day 45 pass it,
      though such text is not a date. An amount of 0 is accepted. */
  lemma ValidationIsShapeOnly(st: UiState, toDoubleOrNull: string -> Option<real>)
    requires st.firstPaymentDate == "2024-13-45"
    requires toDoubleOrNull(st.amount) == Some(0.0)
    ensures DateKey !in FormErrors(st, toDoubleOrNull)
    ensures AmountKey !in FormErrors(st, toDoubleOrNull)
    ensures Parse(st.firstPaymentDate) == None
  {
    ShapeIsNotValidity();
  }

  /** `note.trim().ifBlank { null }`. */
  function NoteOf(note: string): (r: Option<string>)
    ensures r.None? <==> IsBlank(note)
    ensures r.Some? ==> r.value == Trim(note) && !IsBlank(r.value)
  {
    TrimEmptyIffBlank(note);
    TrimmedBlankIsEmpty(note);
    var trimmed := Trim(note);
    if IsBlank(trimmed) then None else Some(trimmed)
  }

  /** The route id: `subId` text that parses to an integer other than -1;
      anything else means a new subscription. */
  function SubIdOf(arg: Option<string>): (r: Option<int>)
    ensures r.None? <==> arg.None? || ParseInt(arg.value) == None || ParseInt(arg.value) == Some(-1)
    ensures r.Some? ==> ParseInt(arg.value) == Some(r.value) && r.value != -1
  {
    match arg
    case None => None
    case Some(text) =>
      match ParseInt(text)
      case None => None
      case Some(v) => if v == -1 then None else Some(v)
  }

  /** The record a save builds from an accepted form. */
  function SavedRecord(st: UiState, toDoubleOrNull: string -> Option<real>, subId: Option<int>): Subscription
    requires Accepted(st, toDoubleOrNull)
  {
    AcceptedIff(st, toDoubleOrNull);
    Subscription(
      subId.GetOr(0), Trim(st.serviceName), toDoubleOrNull(st.amount).value, st.currencyCode, st.cycle,
      st.firstPaymentDate, Usage.ToInt(st.frequency), NoteOf(st.note), st.iconUrl, 1)
  }

  /** What a save writes passes the form's checks again: a service name that
      is neither blank nor padded, an amount that is not negative, date text
      of the right shape, a usage count of a level, and a note that is absent
      or not blank. */
  lemma SavedRecordIsClean(st: UiState, toDoubleOrNull: string -> Option<real>, subId: Option<int>)
    requires Accepted(st, toDoubleOrNull)
    ensures var r := SavedRecord(st, toDoubleOrNull, subId);
      && r.serviceName != [] && !IsWhitespace(r.serviceName[0]) && !IsWhitespace(r.serviceName[|r.serviceName| - 1])
      && r.amount >= 0.0
      && IsDateShape(r.firstPaymentDate)
      && Usage.FromInt(r.usageFrequency) == st.frequency
      && (r.note.None? || !IsBlank(r.note.value))
      && (subId.None? <==> r.id == 0 && subId != Some(0))
  {
    AcceptedIff(st, toDoubleOrNull);
    TrimEmptyIffBlank(st.serviceName);
    Usage.FromIntToInt(st.frequency);
  }

  /** A write of `saveSubscription`: a new row, or an update of the row with
      the route's id. */
  datatype Write = Insert(record: Subscription) | Update(record: Subscription)

  class AddEditViewModel {
    const subId: Option<int>
    const toDoubleOrNull: string -> Option<real>
    var uiState: UiState

    constructor(subIdArg: Option<string>, today: Date, toDoubleOrNull: string -> Option<real>)
      requires ValidDate(today)
      ensures subId == SubIdOf(subIdArg)
      ensures this.toDoubleOrNull == toDoubleOrNull
      ensures uiState == InitialState(today)
    {
      subId := SubIdOf(subIdArg);
      this.toDoubleOrNull := toDoubleOrNull;
      uiState := InitialState(today);
    }

    method OnServiceNameChanged(name: string)
      modifies this
      ensures uiState == old(uiState).(serviceName := name)
    {
      uiState := uiState.(serviceName := name);
    }

    method OnAmountChanged(amount: string)
      modifies this
      ensures uiState == old(uiState).(amount := amount)
    {
      uiState := uiState.(amount := amount);
    }

    method OnCurrencyChanged(code: string)
      modifies this
      ensures uiState == old(uiState).(currencyCode := code)
    {
      uiState := uiState.(currencyCode := code);
    }

    method OnCycleChanged(cycle: PaymentCycle)
      modifies this
      ensures uiState == old(uiState).(cycle := cycle)
    {
      uiState := uiState.(cycle := cycle);
    }

    method OnDateChanged(date: string)
      modifies this
      ensures uiState == old(uiState).(firstPaymentDate := date)
    {
      uiState := uiState.(firstPaymentDate := date);
    }

    method OnFrequencyChanged(frequency: Usage.UsageFrequency)
      modifies this
      ensures uiState == old(uiState).(frequency := frequency)
    {
      uiState := uiState.(frequency := frequency);
    }

    method OnNoteChanged(note: string)
      modifies this
      ensures uiState == old(uiState).(note := note)
    {
      uiState := uiState.(note := note);
    }

    /** `validateInput`: fill the error map field by field, store it, and
        report whether it stayed empty. */
    method ValidateInput() returns (valid: bool)
      modifies this
      ensures uiState == old(uiState).(errors := FormErrors(old(uiState), toDoubleOrNull))
      ensures valid <==> Accepted(old(uiState), toDoubleOrNull)
    {
      var errors: map<string, FieldError> := map[];
      var state := uiState;
      if IsBlank(state.serviceName) {
        errors := map[ServiceNameKey := BlankServiceName];
      }
      var amountValue := toDoubleOrNull(state.amount);
      if amountValue.None? {
        errors := errors[AmountKey := InvalidAmount];
      } else if amountValue.value < 0.0 {
        errors := errors[AmountKey := NegativeAmount];
      }
      if !IsDateShape(state.firstPaymentDate) {
        errors := errors[DateKey := InvalidDateText];
      }
      assert errors == FormErrors(state, toDoubleOrNull);
      uiState := uiState.(errors := errors);
      return |errors| == 0;
    }

    /** `saveSubscription`: nothing but the error map changes when the form
        is refused; otherwise the record is inserted when the route has no
        id and updated when it has one. `writeFails` stands for the
        database write throwing. */
    method SaveSubscription(writeFails: bool) returns (write: Option<Write>)
      modifies this
      ensures !Accepted(old(uiState), toDoubleOrNull) ==>
        write == None && uiState == old(uiState).(errors := FormErrors(old(uiState), toDoubleOrNull))
      ensures Accepted(old(uiState), toDoubleOrNull) ==>
        var record := SavedRecord(old(uiState), toDoubleOrNull, subId);
        && write == Some(if subId.None? then Insert(record) else Update(record))
        && uiState == if writeFails
                      then old(uiState).(errors := map[GeneralKey := SaveFailed], isLoading := false)
                      else old(uiState).(errors := map[], isLoading := false, isSaved := true)
    {
      var valid := ValidateInput();
      if !valid {
        return None;
      }
      uiState := uiState.(isLoading := true);
      AcceptedIff(uiState, toDoubleOrNull);
      var subscription := Subscription(
        subId.GetOr(0), Trim(uiState.serviceName), toDoubleOrNull(uiState.amount).value,
        uiState.currencyCode, uiState.cycle, uiState.firstPaymentDate, Usage.ToInt(uiState.frequency),
        NoteOf(uiState.note), uiState.iconUrl, 1);
      if subId.None? {
        write := Some(Insert(subscription));
      } else {
        write := Some(Update(subscription));
      }
      if writeFails {
        uiState := uiState.(isLoading := false, errors := map[GeneralKey := SaveFailed]);
      } else {
        uiState := uiState.(isLoading := false, isSaved := true);
      }
    }
  }
}
