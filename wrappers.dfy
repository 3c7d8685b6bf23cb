/** Option and Result, and Kotlin's `map` over a function that may throw:
    the exception of the first failing element escapes. */
module Wrappers {

  datatype Option<+T> = None | Some(value: T) {
    function GetOr(default: T): T {
      match this
      case None => default
      case Some(v) => v
    }
  }

  datatype Result<+T, +E> = Ok(value: T) | Err(error: E)

  /** `s.map(f)` where `f` may throw: all results in order, or the failure
      of the first element that fails. */
  function MapAll<A, B, E>(s: seq<A>, f: A -> Result<B, E>): (r: Result<seq<B>, E>)
    ensures r.Ok? <==> forall i :: 0 <= i < |s| ==> f(s[i]).Ok?
    ensures r.Ok? ==> |r.value| == |s| && forall i :: 0 <= i < |s| ==> r.value[i] == f(s[i]).value
    ensures r.Err? ==> exists i :: 0 <= i < |s| && f(s[i]) == Err(r.error)
                                   && forall j :: 0 <= j < i ==> f(s[j]).Ok?
  {
    if s == [] then Ok([])
    else
      var init := s[..|s| - 1];
      assert forall i :: 0 <= i < |s| - 1 ==> init[i] == s[i];
      match MapAll(init, f)
      case Err(e) => Err(e)
      case Ok(values) =>
        match f(s[|s| - 1])
        case Err(e) => Err(e)
        case Ok(v) => Ok(values + [v])
  }

  /** Once a prefix fails, the whole sequence fails the same way. */
  lemma {:induction false} MapAllPrefixFails<A, B, E>(s: seq<A>, f: A -> Result<B, E>, k: nat)
    requires k <= |s| && MapAll(s[..k], f).Err?
    ensures MapAll(s, f) == MapAll(s[..k], f)
  {
    if k == |s| {
      assert s[..k] == s;
    } else {
      var init := s[..|s| - 1];
      assert init[..k] == s[..k];
      MapAllPrefixFails(init, f, k);
    }
  }

  /** Two maps that fail at the same elements with the same failures fail
      alike, and succeed together. */
  lemma MapAllSameFailures<A, B, C, E>(s: seq<A>, f: A -> Result<B, E>, g: A -> Result<C, E>)
    requires forall i :: 0 <= i < |s| ==> f(s[i]).Err? == g(s[i]).Err?
    requires forall i :: 0 <= i < |s| && f(s[i]).Err? ==> f(s[i]).error == g(s[i]).error
    ensures MapAll(s, f).Ok? == MapAll(s, g).Ok?
    ensures MapAll(s, f).Err? ==> MapAll(s, f).error == MapAll(s, g).error
  {
    if MapAll(s, f).Err? {
      var i1 :| 0 <= i1 < |s| && f(s[i1]) == Err(MapAll(s, f).error)
                 && forall j :: 0 <= j < i1 ==> f(s[j]).Ok?;
      var i2 :| 0 <= i2 < |s| && g(s[i2]) == Err(MapAll(s, g).error)
                 && forall j :: 0 <= j < i2 ==> g(s[j]).Ok?;
      assert i2 >= i1 by { assert f(s[i2]).Err?; }
      assert i1 >= i2 by { assert g(s[i1]).Err?; }
    }
  }

  /** Extending the prefix by one element. */
  lemma MapAllSnoc<A, B, E>(s: seq<A>, f: A -> Result<B, E>, i: nat)
    requires i < |s|
    ensures MapAll(s[..i + 1], f)
         == match MapAll(s[..i], f)
            case Err(e) => Err(e)
            case Ok(values) =>
              match f(s[i])
              case Err(e) => Err(e)
              case Ok(v) => Ok(values + [v])
  {
    assert s[..i + 1][..i] == s[..i];
  }

  /** One more element that succeeds extends the results by its value. */
  lemma MapAllExtend<A, B, E>(s: seq<A>, f: A -> Result<B, E>, i: nat, values: seq<B>)
    requires i < |s| && MapAll(s[..i], f) == Ok(values) && f(s[i]).Ok?
    ensures MapAll(s[..i + 1], f) == Ok(values + [f(s[i]).value])
  {
    MapAllSnoc(s, f, i);
  }

  /** The first element that fails decides the failure of the whole map. */
  lemma MapAllFailsAt<A, B, E>(s: seq<A>, f: A -> Result<B, E>, i: nat, values: seq<B>)
    requires i < |s| && MapAll(s[..i], f) == Ok(values) && f(s[i]).Err?
    ensures MapAll(s, f) == Err(f(s[i]).error)
  {
    MapAllSnoc(s, f, i);
    MapAllPrefixFails(s, f, i + 1);
  }

  /** A map over the whole of `s`, read through its full prefix. */
  lemma MapAllWhole<A, B, E>(s: seq<A>, f: A -> Result<B, E>)
    ensures MapAll(s[..|s|], f) == MapAll(s, f)
  {
    assert s[..|s|] == s;
  }

  /** The values of the `Some` elements, in order: what `mapNotNull` keeps.
      How often each value is kept is stated by `SomesCount`, the order by
      `SomesAppend`. */
  function Somes<T(!new)>(s: seq<Option<T>>): (r: seq<T>)
    ensures |r| <= |s|
    ensures forall x :: x in r <==> Some(x) in s
  {
    if s == [] then []
    else
      var init := s[..|s| - 1];
      assert s == init + [s[|s| - 1]];
      match s[|s| - 1]
      case None => Somes(init)
      case Some(v) => Somes(init) + [v]
  }

  /** `mapNotNull` keeps each value as often as it occurs wrapped in `Some`. */
  lemma {:induction false} SomesCount<T(!new)>(s: seq<Option<T>>)
    ensures forall x :: multiset(Somes(s))[x] == multiset(s)[Some(x)]
    decreases |s|
  {
    if s != [] {
      var init, last := s[..|s| - 1], s[|s| - 1];
      assert s == init + [last];
      SomesCount(init);
      SomesSnoc(init, last);
      assert multiset(s) == multiset(init) + multiset{last};
    }
  }

  /** `mapNotNull` keeps the order: the values kept from two lists in a row
      are those kept from the first, then those kept from the second. */
  lemma {:induction false} SomesAppend<T(!new)>(a: seq<Option<T>>, b: seq<Option<T>>)
    ensures Somes(a + b) == Somes(a) + Somes(b)
    decreases |b|
  {
    if b != [] {
      var init, last := b[..|b| - 1], b[|b| - 1];
      assert b == init + [last];
      assert a + b == (a + init) + [last];
      SomesAppend(a, init);
      SomesSnoc(a + init, last);
      SomesSnoc(init, last);
      if last.Some? {
        assert Somes(a + b) == (Somes(a) + Somes(init)) + [last.value];
        assert Somes(b) == Somes(init) + [last.value];
      } else {
        assert Somes(a + b) == Somes(a) + Somes(init);
        assert Somes(b) == Somes(init);
      }
    } else {
      assert a + b == a;
      assert Somes(b) == [];
    }
  }

  /** The values a successful map keeps with `Somes` are those of the
      elements mapped to a `Some`. */
  lemma MapAllSomes<A, T(!new), E>(s: seq<A>, f: A -> Result<Option<T>, E>, opts: seq<Option<T>>)
    requires MapAll(s, f) == Ok(opts)
    ensures forall x :: x in Somes(opts) <==> exists i :: 0 <= i < |s| && f(s[i]) == Ok(Some(x))
  {
    forall x | x in Somes(opts)
      ensures exists i :: 0 <= i < |s| && f(s[i]) == Ok(Some(x))
    {
      var i := SomeSource(s, f, opts, x);
    }
    forall x, i | 0 <= i < |s| && f(s[i]) == Ok(Some(x))
      ensures x in Somes(opts)
    {
      assert opts[i] == Some(x);
    }
  }

  /** Where a kept value came from. */
  lemma SomeSource<A, T(!new), E>(s: seq<A>, f: A -> Result<Option<T>, E>, opts: seq<Option<T>>, x: T)
      returns (i: int)
    requires MapAll(s, f) == Ok(opts) && x in Somes(opts)
    ensures 0 <= i < |s| && f(s[i]) == Ok(Some(x))
  {
    assert Some(x) in opts;
    i :| 0 <= i < |opts| && opts[i] == Some(x);
  }

  /** One more element adds its value when it is a `Some`. */
  lemma SomesSnoc<T(!new)>(s: seq<Option<T>>, x: Option<T>)
    ensures Somes(s + [x]) == if x.Some? then Somes(s) + [x.value] else Somes(s)
  {
    assert (s + [x])[..|s|] == s;
  }
}
