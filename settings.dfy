/** The settings screen's card moves: a card changes places with its
    neighbour above or below, and the new order is saved. */
module Settings {
  import opened DashboardPrefs

  /** `indexOf(x)`: the first position holding `x`, or -1. */
  function IndexOf<T(==)>(s: seq<T>, x: T): (i: int)
    ensures -1 <= i < |s|
    ensures i == -1 <==> x !in s
    ensures 0 <= i ==> s[i] == x && forall j :: 0 <= j < i ==> s[j] != x
  {
    if s == [] then -1
    else if s[0] == x then 0
    else
      var k := IndexOf(s[1..], x);
      if k == -1 then -1 else k + 1
  }

  /** No element occurs twice. */
  predicate Distinct<T(==)>(s: seq<T>) {
    forall i, j :: 0 <= i < j < |s| ==> s[i] != s[j]
  }

  /** Positions `i` and `i + 1` exchanged, everything else in place. */
  function SwapAdjacent<T>(s: seq<T>, i: int): (r: seq<T>)
    requires 0 <= i < |s| - 1
    ensures |r| == |s| && multiset(r) == multiset(s)
    ensures r[i] == s[i + 1] && r[i + 1] == s[i]
    ensures forall k :: 0 <= k < |s| && k != i && k != i + 1 ==> r[k] == s[k]
  {
    var r := s[..i] + [s[i + 1], s[i]] + s[i + 2..];
    assert s == s[..i] + [s[i], s[i + 1]] + s[i + 2..];
    r
  }

  /** The order after `moveCardUp(t)`: the card's first occurrence swaps with
      its predecessor; an absent or first card leaves the order as it is. */
  function MovedUp(order: seq<CardType>, t: CardType): (r: seq<CardType>)
    ensures |r| == |order| && multiset(r) == multiset(order)
    ensures IndexOf(order, t) <= 0 ==> r == order
  {
    var idx := IndexOf(order, t);
    if idx > 0 then SwapAdjacent(order, idx - 1) else order
  }

  /** The order after `moveCardDown(t)`: the card's first occurrence swaps
      with its successor; an absent or last card leaves the order as it is. */
  function MovedDown(order: seq<CardType>, t: CardType): (r: seq<CardType>)
    ensures |r| == |order| && multiset(r) == multiset(order)
    ensures IndexOf(order, t) == -1 || IndexOf(order, t) == |order| - 1 ==> r == order
  {
    var idx := IndexOf(order, t);
    if 0 <= idx < |order| - 1 then SwapAdjacent(order, idx) else order
  }

  /** The source's `removeAt(idx)` then `add(idx - 1, t)` is the swap with the
      predecessor. */
  lemma RemoveThenInsertBefore(s: seq<CardType>, idx: int)
    requires 0 < idx < |s|
    ensures var removed := s[..idx] + s[idx + 1..];
            removed[..idx - 1] + [s[idx]] + removed[idx - 1..] == SwapAdjacent(s, idx - 1)
  {
    var removed := s[..idx] + s[idx + 1..];
    assert removed[..idx - 1] == s[..idx - 1];
    assert removed[idx - 1..] == [s[idx - 1]] + s[idx + 1..];
  }

  /** The source's `removeAt(idx)` then `add(idx + 1, t)` is the swap with the
      successor. */
  lemma RemoveThenInsertAfter(s: seq<CardType>, idx: int)
    requires 0 <= idx < |s| - 1
    ensures var removed := s[..idx] + s[idx + 1..];
            removed[..idx + 1] + [s[idx]] + removed[idx + 1..] == SwapAdjacent(s, idx)
  {
    var removed := s[..idx] + s[idx + 1..];
    assert removed[..idx + 1] == s[..idx] + [s[idx + 1]];
    assert removed[idx + 1..] == s[idx + 2..];
  }

  /** Moving a card up moves its first occurrence exactly one place. */
  lemma MovedUpPosition(order: seq<CardType>, t: CardType)
    requires IndexOf(order, t) > 0
    ensures IndexOf(MovedUp(order, t), t) == IndexOf(order, t) - 1
  {
    var i := IndexOf(order, t);
    var r := MovedUp(order, t);
    assert r[i - 1] == t;
    assert forall j :: 0 <= j < i - 1 ==> r[j] == order[j];
    IndexOfFirst(r, t, i - 1);
  }

  /** A position holding `x` with no earlier `x` is the first one. */
  lemma {:induction false} IndexOfFirst<T>(s: seq<T>, x: T, i: int)
    requires 0 <= i < |s| && s[i] == x && forall j :: 0 <= j < i ==> s[j] != x
    ensures IndexOf(s, x) == i
  {
    if i > 0 {
      assert forall j :: 0 <= j < i - 1 ==> s[1..][j] == s[j + 1];
      IndexOfFirst(s[1..], x, i - 1);
    }
  }

  /** Moving a card up and then down again restores the order, unless the
      card was first (the up move did nothing). */
  lemma MoveUpThenDown(order: seq<CardType>, t: CardType)
    requires IndexOf(order, t) != 0
    ensures MovedDown(MovedUp(order, t), t) == order
  {
    var i := IndexOf(order, t);
    if i > 0 {
      MovedUpPosition(order, t);
      var r := MovedUp(order, t);
      assert r == SwapAdjacent(order, i - 1);
      assert MovedDown(r, t) == SwapAdjacent(r, i - 1);
      SwapTwice(order, i - 1);
    }
  }

  /** Exchanging the same two neighbours twice restores the list. */
  lemma SwapTwice<T>(s: seq<T>, i: int)
    requires 0 <= i < |s| - 1
    ensures SwapAdjacent(SwapAdjacent(s, i), i) == s
  {
    var r := SwapAdjacent(SwapAdjacent(s, i), i);
    assert forall k :: 0 <= k < |s| ==> r[k] == s[k];
  }

  /** On a list without repeats, moving a card down and then up again
      restores the order, unless the card was last. */
  lemma MoveDownThenUp(order: seq<CardType>, t: CardType)
    requires Distinct(order)
    requires IndexOf(order, t) != |order| - 1
    ensures MovedUp(MovedDown(order, t), t) == order
  {
    var i := IndexOf(order, t);
    if i >= 0 {
      assert order[i] != order[i + 1];
      MoveDownThenUpAt(order, t, i);
    }
  }

  /** The down-then-up round trip, once the card's successor is known to be
      another card. */
  lemma MoveDownThenUpAt(order: seq<CardType>, t: CardType, i: int)
    requires i == IndexOf(order, t) && 0 <= i < |order| - 1 && order[i + 1] != t
    ensures MovedUp(MovedDown(order, t), t) == order
  {
    var r := MovedDown(order, t);
    assert r[i + 1] == t;
    assert r[i] == order[i + 1];
    IndexOfFirst(r, t, i + 1);
    assert r == SwapAdjacent(order, i);
    assert MovedUp(r, t) == SwapAdjacent(r, i);
    SwapTwice(order, i);
  }

  /** `SettingsViewModel`'s card handling, over the preferences it shares
      with the dashboard. */
  class SettingsViewModel {
    const prefsRepo: DashboardPreferences

    constructor(prefsRepo: DashboardPreferences)
      ensures this.prefsRepo == prefsRepo
    {
      this.prefsRepo := prefsRepo;
    }

    /** `setCardVisible`. */
    method SetCardVisible(cardType: CardType, visible: bool)
      modifies prefsRepo
      ensures prefsRepo.bools == old(prefsRepo.bools)[VisiblePrefix + Name(cardType) := visible]
      ensures prefsRepo.enabled == EnabledFrom(prefsRepo.bools)
      ensures prefsRepo.strings == old(prefsRepo.strings) && prefsRepo.order == old(prefsRepo.order)
    {
      prefsRepo.SetVisible(cardType, visible);
    }

    /** `moveCardUp`: swap with the predecessor and save; no save at all
        when the card is absent or first. */
    method MoveCardUp(cardType: CardType)
      modifies prefsRepo
      ensures prefsRepo.order == MovedUp(old(prefsRepo.order), cardType)
      ensures IndexOf(old(prefsRepo.order), cardType) > 0 ==>
        prefsRepo.strings == old(prefsRepo.strings)[OrderKey := OrderText(prefsRepo.order)]
      ensures IndexOf(old(prefsRepo.order), cardType) <= 0 ==> prefsRepo.strings == old(prefsRepo.strings)
      ensures prefsRepo.bools == old(prefsRepo.bools) && prefsRepo.enabled == old(prefsRepo.enabled)
    {
      var current := prefsRepo.order;
      var idx := IndexOf(current, cardType);
      if idx > 0 {
        var newOrder := current;
        newOrder := newOrder[..idx] + newOrder[idx + 1..];
        newOrder := newOrder[..idx - 1] + [cardType] + newOrder[idx - 1..];
        assert newOrder == MovedUp(current, cardType) by {
          RemoveThenInsertBefore(current, idx);
        }
        prefsRepo.SetOrder(newOrder);
      }
    }

    /** `moveCardDown`: swap with the successor and save; no save at all
        when the card is absent or last. */
    method MoveCardDown(cardType: CardType)
      modifies prefsRepo
      ensures prefsRepo.order == MovedDown(old(prefsRepo.order), cardType)
      ensures 0 <= IndexOf(old(prefsRepo.order), cardType) < |old(prefsRepo.order)| - 1 ==>
        prefsRepo.strings == old(prefsRepo.strings)[OrderKey := OrderText(prefsRepo.order)]
      ensures (IndexOf(old(prefsRepo.order), cardType) == -1
               || IndexOf(old(prefsRepo.order), cardType) == |old(prefsRepo.order)| - 1) ==>
        prefsRepo.strings == old(prefsRepo.strings)
      ensures prefsRepo.bools == old(prefsRepo.bools) && prefsRepo.enabled == old(prefsRepo.enabled)
    {
      var current := prefsRepo.order;
      var idx := IndexOf(current, cardType);
      if idx >= 0 && idx < |current| - 1 {
        var newOrder := current;
        newOrder := newOrder[..idx] + newOrder[idx + 1..];
        newOrder := newOrder[..idx + 1] + [cardType] + newOrder[idx + 1..];
        assert newOrder == MovedDown(current, cardType) by {
          RemoveThenInsertAfter(current, idx);
        }
        prefsRepo.SetOrder(newOrder);
        assert prefsRepo.order == MovedDown(current, cardType);
      } else {
        assert idx == -1 || idx == |current| - 1;
        assert prefsRepo.order == MovedDown(current, cardType);
      }
      assert prefsRepo.order == MovedDown(current, cardType);
    }
  }
}
