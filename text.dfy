/** The Kotlin string operations the core relies on: `isWhitespace`,
    `isBlank`, `trim`, `split`, `joinToString`, `toIntOrNull` and the
    order of `String.compareTo`, taken character by character. */
module Text {
  import opened Wrappers

  /** Kotlin's `Char.isWhitespace()` on the JVM: `Character.isWhitespace`
      or `Character.isSpaceChar`. */
  predicate IsWhitespace(c: char) {
    || c == ' ' || c == '\t' || c == '\n' || c == '\r'
    || c == '\U{000B}' || c == '\U{000C}'
    || ('\U{001C}' <= c <= '\U{001F}')
    || c == '\U{00A0}' || c == '\U{1680}'
    || ('\U{2000}' <= c <= '\U{200A}')
    || c == '\U{2028}' || c == '\U{2029}' || c == '\U{202F}'
    || c == '\U{205F}' || c == '\U{3000}'
  }

  /** `isBlank()`: empty, or whitespace only. */
  predicate IsBlank(s: string) {
    forall i :: 0 <= i < |s| ==> IsWhitespace(s[i])
  }

  /** Where `trim()` starts: the first position that is not whitespace,
      or the end of the text. */
  function TrimStartIndex(s: string): (k: nat)
    ensures k <= |s| && IsBlank(s[..k])
    ensures k == |s| || !IsWhitespace(s[k])
  {
    if |s| > 0 && IsWhitespace(s[0]) then
      var k := 1 + TrimStartIndex(s[1..]);
      assert forall j :: 1 <= j < k ==> s[j] == s[1..][j - 1];
      k
    else 0
  }

  /** Where `trim()` ends, searching back from the end no further than
      `lo`: just after the last character that is not whitespace, or `lo`. */
  function TrimEndIndex(s: string, lo: nat): (k: nat)
    requires lo <= |s|
    ensures lo <= k <= |s| && IsBlank(s[k..])
    ensures k == lo || !IsWhitespace(s[k - 1])
  {
    if |s| > lo && IsWhitespace(s[|s| - 1]) then
      var k := TrimEndIndex(s[..|s| - 1], lo);
      assert forall j :: k <= j < |s| - 1 ==> s[j] == s[..|s| - 1][j];
      k
    else |s|
  }

  /** `trim()`: the longest infix that neither starts nor ends with
      whitespace, obtained by dropping only whitespace on either side. */
  function Trim(s: string): (r: string)
    ensures exists i :: 0 <= i <= |s| - |r| && r == s[i..i + |r|]
                        && IsBlank(s[..i]) && IsBlank(s[i + |r|..])
    ensures r == [] || (!IsWhitespace(r[0]) && !IsWhitespace(r[|r| - 1]))
  {
    var i := TrimStartIndex(s);
    var j := TrimEndIndex(s, i);
    TrimmedInfix(s, i, j);
    s[i..j]
  }

  /** The infix between the two trim positions has the properties `trim()`
      promises. */
  lemma TrimmedInfix(s: string, i: nat, j: nat)
    requires i <= j <= |s| && IsBlank(s[..i]) && IsBlank(s[j..])
    requires i == |s| || !IsWhitespace(s[i])
    requires j == i || !IsWhitespace(s[j - 1])
    ensures var r := s[i..j];
            && (exists k :: 0 <= k <= |s| - |r| && r == s[k..k + |r|]
                            && IsBlank(s[..k]) && IsBlank(s[k + |r|..]))
            && (r == [] || (!IsWhitespace(r[0]) && !IsWhitespace(r[|r| - 1])))
  {
    var r := s[i..j];
    assert i + |r| == j;
    assert r == s[i..i + |r|] && IsBlank(s[..i]) && IsBlank(s[i + |r|..]);
    if r != [] {
      assert r[0] == s[i] && r[|r| - 1] == s[j - 1];
    }
  }

  /** A string trims to nothing exactly when it is blank. */
  lemma TrimEmptyIffBlank(s: string)
    ensures Trim(s) == [] <==> IsBlank(s)
  {
    var i := TrimStartIndex(s);
    var j := TrimEndIndex(s, i);
  }

  /** A trimmed string is blank only when it is empty. */
  lemma TrimmedBlankIsEmpty(s: string)
    ensures IsBlank(Trim(s)) <==> Trim(s) == []
  {
  }

  predicate IsDigit(c: char) {
    '0' <= c <= '9'
  }

  predicate AllDigits(s: string) {
    forall i :: 0 <= i < |s| ==> IsDigit(s[i])
  }

  function DigitValue(c: char): (v: int)
    requires IsDigit(c)
    ensures 0 <= v <= 9
  {
    c as int - '0' as int
  }

  /** The value of a string of decimal digits, most significant first. */
  function DecimalValue(s: string): (v: nat)
    requires AllDigits(s)
  {
    if s == [] then 0 else DecimalValue(s[..|s| - 1]) * 10 + DigitValue(s[|s| - 1])
  }

  const IntMin: int := -0x8000_0000
  const IntMax: int := 0x7fff_ffff

  /** The text `toIntOrNull` reads: an optional sign, then at least one
      ASCII digit. */
  predicate IsIntegerText(s: string) {
    |s| > 0 && if s[0] == '-' || s[0] == '+' then |s| > 1 && AllDigits(s[1..]) else AllDigits(s)
  }

  /** The number such text spells, negated after a minus sign. */
  function IntegerTextValue(s: string): int
    requires IsIntegerText(s)
  {
    if s[0] == '-' then -(DecimalValue(s[1..]) as int)
    else if s[0] == '+' then DecimalValue(s[1..])
    else DecimalValue(s)
  }

  /** Kotlin's `String.toIntOrNull()`: an optional sign, then at least one
      digit, and the value must fit a 32-bit `Int`. It succeeds exactly on
      such text, with the number the text spells. */
  function ParseInt(s: string): (r: Option<int>)
    ensures r.Some? ==> IntMin <= r.value <= IntMax
    ensures r.Some? ==> exists i :: 0 <= i < |s| && AllDigits(s[i..])
    ensures r.Some? <==> IsIntegerText(s) && IntMin <= IntegerTextValue(s) <= IntMax
    ensures r.Some? ==> r.value == IntegerTextValue(s)
  {
    if |s| == 0 then None
    else if s[0] == '-' || s[0] == '+' then
      if |s| == 1 || !AllDigits(s[1..]) then None
      else
        var v: int := if s[0] == '-' then -(DecimalValue(s[1..]) as int) else DecimalValue(s[1..]);
        if IntMin <= v <= IntMax then Some(v) else None
    else if AllDigits(s) && DecimalValue(s) <= IntMax then
      assert s[0..] == s;
      Some(DecimalValue(s))
    else None
  }

  lemma ParseIntExamples()
    ensures ParseInt("-1") == Some(-1)
    ensures ParseInt("42") == Some(42)
    ensures ParseInt("") == None
    ensures ParseInt("-") == None
    ensures ParseInt("4a") == None
  {
    assert !AllDigits("4a") by { assert !IsDigit("4a"[1]); }
    assert "-1"[1..] == "1";
  }

  /** Kotlin's `split(sep)`: the pieces between separators, in order; an
      empty string gives one empty piece. */
  function Split(s: string, sep: char): (parts: seq<string>)
    ensures |parts| >= 1
    ensures forall p :: p in parts ==> sep !in p
  {
    if s == [] then [[]]
    else
      var rest := Split(s[1..], sep);
      if s[0] == sep then [[]] + rest
      else [[s[0]] + rest[0]] + rest[1..]
  }

  /** `joinToString(sep)`. */
  function Join(parts: seq<string>, sep: char): string {
    if parts == [] then []
    else if |parts| == 1 then parts[0]
    else parts[0] + [sep] + Join(parts[1..], sep)
  }

  /** Splitting undoes joining, as long as there is at least one piece and
      no piece holds the separator. */
  lemma {:induction false} SplitJoin(parts: seq<string>, sep: char)
    requires |parts| >= 1
    requires forall p :: p in parts ==> sep !in p
    ensures Split(Join(parts, sep), sep) == parts
    decreases |parts|, |parts[0]|
  {
    if |parts| == 1 {
      SplitNoSep(parts[0], sep);
    } else if parts[0] == [] {
      var tail := parts[1..];
      assert Join(parts, sep) == [sep] + Join(tail, sep);
      assert (([sep] + Join(tail, sep)))[1..] == Join(tail, sep);
      SplitJoin(tail, sep);
      assert parts == [[]] + tail;
    } else {
      var p := parts[0];
      var shorter := [p[1..]] + parts[1..];
      assert shorter[1..] == parts[1..];
      assert Join(parts, sep) == [p[0]] + Join(shorter, sep);
      assert ([p[0]] + Join(shorter, sep))[1..] == Join(shorter, sep);
      assert parts[0] in parts;
      forall k | 0 <= k < |p| - 1 ensures p[1..][k] != sep {
        assert p[1..][k] == p[k + 1] && p[k + 1] in p;
      }
      assert p[0] != sep by { assert p[0] in p; }
      assert forall q :: q in shorter ==> sep !in q;
      SplitJoin(shorter, sep);
      assert [p[0]] + p[1..] == p;
    }
  }

  lemma {:induction false} SplitNoSep(s: string, sep: char)
    requires sep !in s
    ensures Split(s, sep) == [s]
  {
    if s != [] {
      assert s[1..] == s[1..];
      forall k | 0 <= k < |s| - 1 ensures s[1..][k] != sep {
        assert s[1..][k] == s[k + 1] && s[k + 1] in s;
      }
      SplitNoSep(s[1..], sep);
      assert [s[0]] + s[1..] == s;
    }
  }

  /** `String.compareTo(b) <= 0`: the first differing character decides, and
      a proper prefix comes first. */
  predicate StringLe(a: string, b: string) {
    if a == [] then true
    else if b == [] then false
    else if a[0] != b[0] then a[0] < b[0]
    else StringLe(a[1..], b[1..])
  }

  lemma {:induction false} StringLeTotal(a: string, b: string)
    ensures StringLe(a, b) || StringLe(b, a)
  {
    if a != [] && b != [] && a[0] == b[0] {
      StringLeTotal(a[1..], b[1..]);
    }
  }

  lemma {:induction false} StringLeTransitive(a: string, b: string, c: string)
    requires StringLe(a, b) && StringLe(b, c)
    ensures StringLe(a, c)
  {
    if a != [] && b != [] && c != [] && a[0] == b[0] && b[0] == c[0] {
      StringLeTransitive(a[1..], b[1..], c[1..]);
    }
  }

  lemma {:induction false} StringLeAntisymmetric(a: string, b: string)
    requires StringLe(a, b) && StringLe(b, a)
    ensures a == b
  {
    if a != [] && b != [] {
      StringLeAntisymmetric(a[1..], b[1..]);
      assert a == [a[0]] + a[1..];
      assert b == [b[0]] + b[1..];
    }
  }

  /** Two strings of one length that agree up to position `k` compare as
      their rests from `k` on do. */
  lemma {:induction false} StringLeCommonPrefix(a: string, b: string, k: nat)
    requires k <= |a| && |a| == |b| && a[..k] == b[..k]
    ensures StringLe(a, b) == StringLe(a[k..], b[k..])
    decreases k
  {
    if k > 0 {
      assert a[0] == a[..k][0] && b[0] == b[..k][0];
      assert a[1..][..k - 1] == a[1..k] == a[..k][1..];
      assert b[1..][..k - 1] == b[1..k] == b[..k][1..];
      StringLeCommonPrefix(a[1..], b[1..], k - 1);
      assert a[1..][k - 1..] == a[k..];
      assert b[1..][k - 1..] == b[k..];
    }
  }
}
