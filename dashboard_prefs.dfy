/** The dashboard's card preferences: the order of the cards, saved as
    comma-separated names, and one visibility flag per card, in a
    key-value store held as two maps (text values and flag values). */
module DashboardPrefs {
  import opened Wrappers
  import opened Text

  /** The dashboard cards, one per constant of the default order. */
  datatype CardType = NextPayment | MonthlyTotal | NormalizedMonthly | RemainingThisMonth | CostPerUse | MonthlyPie

  /** `CardType.values()`. */
  const AllCardTypes: seq<CardType> :=
    [NextPayment, MonthlyTotal, NormalizedMonthly, RemainingThisMonth, CostPerUse, MonthlyPie]

  /** The order a fresh install shows. */
  const DefaultOrder: seq<CardType> :=
    [NextPayment, MonthlyTotal, NormalizedMonthly, RemainingThisMonth, CostPerUse, MonthlyPie]

  const OrderKey := "cards_order"
  const VisiblePrefix := "card_visible_"

  /** `type.name`. */
  function Name(t: CardType): string {
    match t
    case NextPayment => "NEXT_PAYMENT"
    case MonthlyTotal => "MONTHLY_TOTAL"
    case NormalizedMonthly => "NORMALIZED_MONTHLY"
    case RemainingThisMonth => "REMAINING_THIS_MONTH"
    case CostPerUse => "COST_PER_USE"
    case MonthlyPie => "MONTHLY_PIE"
  }

  /** `CardType.valueOf(name)`, with the exception as `None`. */
  function CardTypeOf(name: string): (r: Option<CardType>)
    ensures r.Some? ==> Name(r.value) == name
    ensures r.None? <==> forall t :: Name(t) != name
  {
    if name == "NEXT_PAYMENT" then Some(NextPayment)
    else if name == "MONTHLY_TOTAL" then Some(MonthlyTotal)
    else if name == "NORMALIZED_MONTHLY" then Some(NormalizedMonthly)
    else if name == "REMAINING_THIS_MONTH" then Some(RemainingThisMonth)
    else if name == "COST_PER_USE" then Some(CostPerUse)
    else if name == "MONTHLY_PIE" then Some(MonthlyPie)
    else None
  }

  /** Every card has its own name, and reading the name gives the card back. */
  lemma NameRoundTrip(t: CardType)
    ensures CardTypeOf(Name(t)) == Some(t)
    ensures ',' !in Name(t)
  {
    match t
    case NextPayment =>
    case MonthlyTotal =>
    case NormalizedMonthly =>
    case RemainingThisMonth =>
    case CostPerUse =>
    case MonthlyPie =>
  }

  /** Each card appears once in the default order, and every list of all
      cards is a reordering of it. */
  lemma DefaultOrderListsEachOnce()
    ensures forall t :: multiset(DefaultOrder)[t] == 1
    ensures multiset(AllCardTypes) == multiset(DefaultOrder)
  {
    forall t ensures multiset(DefaultOrder)[t] == 1 {
      match t
      case NextPayment =>
      case MonthlyTotal =>
      case NormalizedMonthly =>
      case RemainingThisMonth =>
      case CostPerUse =>
      case MonthlyPie =>
    }
  }

  /** The text `setOrder` stores: the names joined by commas. */
  function OrderText(order: seq<CardType>): string {
    Join(NamesOf(order), ',')
  }

  function NamesOf(order: seq<CardType>): (r: seq<string>)
    ensures |r| == |order| && forall i :: 0 <= i < |order| ==> r[i] == Name(order[i])
  {
    if order == [] then [] else [Name(order[0])] + NamesOf(order[1..])
  }

  /** `mapNotNull { valueOf(it) }`: the cards the names spell, unknown names
      dropped. */
  function TypesOf(names: seq<string>): (r: seq<CardType>)
    ensures |r| <= |names|
    ensures forall t :: t in r <==> exists k :: 0 <= k < |names| && CardTypeOf(names[k]) == Some(t)
  {
    if names == [] then []
    else
      match CardTypeOf(names[0])
      case None => TypesOf(names[1..])
      case Some(t) => [t] + TypesOf(names[1..])
  }

  /** The names are read in order: those of two lists in a row give the
      cards of the first, then those of the second. */
  lemma {:induction false} TypesOfAppend(a: seq<string>, b: seq<string>)
    ensures TypesOf(a + b) == TypesOf(a) + TypesOf(b)
  {
    if a == [] {
      assert a + b == b;
    } else {
      assert (a + b)[0] == a[0] && (a + b)[1..] == a[1..] + b;
      TypesOfAppend(a[1..], b);
    }
  }

  /** The order stored as `raw`, or the default when no name survives. */
  function ParseOrder(raw: string): seq<CardType> {
    var types := TypesOf(Split(raw, ','));
    if types == [] then DefaultOrder else types
  }

  /** `loadOrder`: the stored order, or the default without one. */
  function LoadOrder(strings: map<string, string>): (r: seq<CardType>)
    ensures r != []
    ensures OrderKey !in strings ==> r == DefaultOrder
  {
    if OrderKey !in strings then DefaultOrder else ParseOrder(strings[OrderKey])
  }

  lemma {:induction false} TypesOfNames(order: seq<CardType>)
    ensures TypesOf(NamesOf(order)) == order
  {
    if order != [] {
      NameRoundTrip(order[0]);
      assert NamesOf(order)[1..] == NamesOf(order[1..]);
      TypesOfNames(order[1..]);
    }
  }

  /** Text whose pieces name no card reads as the default order. */
  lemma {:induction false} UnknownNamesGiveNothing(names: seq<string>)
    requires forall k :: 0 <= k < |names| ==> CardTypeOf(names[k]).None?
    ensures TypesOf(names) == []
  {
    if names != [] {
      assert CardTypeOf(names[0]).None?;
      UnknownNamesGiveNothing(names[1..]);
    }
  }

  /** Saving an order and loading it again gives that order back; an empty
      order loads as the default. */
  lemma OrderRoundTrip(order: seq<CardType>, strings: map<string, string>)
    ensures LoadOrder(strings[OrderKey := OrderText(order)]) == if order == [] then DefaultOrder else order
  {
    if order == [] {
      assert Split(OrderText(order), ',') == [""];
      UnknownNamesGiveNothing([""]);
    } else {
      var names := NamesOf(order);
      forall p | p in names ensures ',' !in p {
        var i :| 0 <= i < |names| && names[i] == p;
        NameRoundTrip(order[i]);
      }
      SplitJoin(names, ',');
      TypesOfNames(order);
    }
  }

  /** `getBoolean(key, true)`: a card is shown unless its flag says no. */
  predicate Visible(bools: map<string, bool>, t: CardType) {
    var key := VisiblePrefix + Name(t);
    key !in bools || bools[key]
  }

  lemma AllCardTypesComplete()
    ensures forall t :: t in AllCardTypes
  {
    forall t ensures t in AllCardTypes {
      match t
      case NextPayment =>
      case MonthlyTotal =>
      case NormalizedMonthly =>
      case RemainingThisMonth =>
      case CostPerUse =>
      case MonthlyPie =>
    }
  }

  lemma NoneVisible(bools: map<string, bool>)
    ensures (set t | t in AllCardTypes && Visible(bools, t)) == {} <==> forall u :: !Visible(bools, u)
  {
    AllCardTypesComplete();
    var visible := set t | t in AllCardTypes && Visible(bools, t);
    if visible == {} {
      forall u ensures !Visible(bools, u) {
        assert u in AllCardTypes && u !in visible;
      }
    }
  }

  /** `loadEnabled`: the shown cards, or every card when none is shown. */
  function EnabledFrom(bools: map<string, bool>): (r: set<CardType>)
    ensures r != {}
    ensures forall t :: t in r <==> Visible(bools, t) || forall u :: !Visible(bools, u)
  {
    AllCardTypesComplete();
    NoneVisible(bools);
    var visible := set t | t in AllCardTypes && Visible(bools, t);
    var all := set t | t in AllCardTypes;
    assert NextPayment in all;
    if visible == {} then all else visible
  }

  /** The flag keys of two cards differ. */
  lemma VisibleKeyInjective(t: CardType, u: CardType)
    requires VisiblePrefix + Name(t) == VisiblePrefix + Name(u)
    ensures t == u
  {
    assert (VisiblePrefix + Name(t))[|VisiblePrefix|..] == Name(t);
    assert (VisiblePrefix + Name(u))[|VisiblePrefix|..] == Name(u);
    NameRoundTrip(t);
    NameRoundTrip(u);
  }

  /** Setting one card's flag leaves the other cards' visibility alone;
      showing a card puts it in the enabled set, and hiding it takes it out
      unless it was the last one shown. */
  lemma SetVisibleEffect(bools: map<string, bool>, t: CardType, visible: bool)
    ensures forall u :: u != t ==> Visible(bools[VisiblePrefix + Name(t) := visible], u) == Visible(bools, u)
    ensures visible ==> t in EnabledFrom(bools[VisiblePrefix + Name(t) := visible])
    ensures !visible ==>
      (t in EnabledFrom(bools[VisiblePrefix + Name(t) := visible]) <==> forall u :: u != t ==> !Visible(bools, u))
  {
    var updated := bools[VisiblePrefix + Name(t) := visible];
    forall u | u != t
      ensures Visible(updated, u) == Visible(bools, u)
    {
      if VisiblePrefix + Name(t) == VisiblePrefix + Name(u) {
        VisibleKeyInjective(t, u);
      }
    }
    if !visible {
      assert !Visible(updated, t);
      assert (forall u :: !Visible(updated, u)) <==> (forall u :: u != t ==> !Visible(bools, u));
    }
  }

  /** The dashboard's `order.filter { it in enabled }`. */
  function VisibleOrder(order: seq<CardType>, enabled: set<CardType>): (r: seq<CardType>)
    ensures |r| <= |order|
    ensures forall t :: t in r <==> t in order && t in enabled
  {
    if order == [] then []
    else (if order[0] in enabled then [order[0]] else []) + VisibleOrder(order[1..], enabled)
  }

  /** `filter` keeps the stored order: the cards shown from two orders in a
      row are those shown from the first, then those shown from the second. */
  lemma {:induction false} VisibleOrderAppend(a: seq<CardType>, b: seq<CardType>, enabled: set<CardType>)
    ensures VisibleOrder(a + b, enabled) == VisibleOrder(a, enabled) + VisibleOrder(b, enabled)
  {
    if a == [] {
      assert a + b == b;
    } else {
      assert (a + b)[0] == a[0] && (a + b)[1..] == a[1..] + b;
      VisibleOrderAppend(a[1..], b, enabled);
    }
  }

  /** `DashboardPreferencesRepository`: the store and the order and
      enabled set it publishes. */
  class DashboardPreferences {
    var strings: map<string, string>
    var bools: map<string, bool>
    var order: seq<CardType>
    var enabled: set<CardType>

    constructor(strings: map<string, string>, bools: map<string, bool>)
      ensures this.strings == strings && this.bools == bools
      ensures order == LoadOrder(strings)
      ensures enabled == EnabledFrom(bools)
    {
      this.strings := strings;
      this.bools := bools;
      order := LoadOrder(strings);
      new;
      enabled := LoadEnabled();
    }

    /** `loadEnabled`, flag by flag. */
    method LoadEnabled() returns (r: set<CardType>)
      ensures r == EnabledFrom(bools)
    {
      var shown: set<CardType> := {};
      for i := 0 to |AllCardTypes|
        invariant shown == set t | t in AllCardTypes[..i] && Visible(bools, t)
      {
        var cardType := AllCardTypes[i];
        var key := VisiblePrefix + Name(cardType);
        var visible := if key in bools then bools[key] else true;
        if visible {
          shown := shown + {cardType};
        }
        assert AllCardTypes[..i + 1] == AllCardTypes[..i] + [cardType];
      }
      assert AllCardTypes[..|AllCardTypes|] == AllCardTypes;
      if shown == {} {
        return set t | t in AllCardTypes;
      }
      return shown;
    }

    /** `setOrder`: store the names and publish exactly `newOrder`. */
    method SetOrder(newOrder: seq<CardType>)
      modifies this
      ensures strings == old(strings)[OrderKey := OrderText(newOrder)]
      ensures order == newOrder
      ensures bools == old(bools) && enabled == old(enabled)
    {
      strings := strings[OrderKey := OrderText(newOrder)];
      order := newOrder;
    }

    /** `setVisible`: store one flag and publish the enabled set read back
        from the store. */
    method SetVisible(cardType: CardType, visible: bool)
      modifies this
      ensures bools == old(bools)[VisiblePrefix + Name(cardType) := visible]
      ensures enabled == EnabledFrom(bools)
      ensures strings == old(strings) && order == old(order)
    {
      bools := bools[VisiblePrefix + Name(cardType) := visible];
      enabled := LoadEnabled();
    }
  }
}
