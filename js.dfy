/** The pieces of JavaScript's string semantics that the model depends on:
    UTF-16 code units, the `\s` character class, ASCII case mapping,
    `split`, `join`, `trim`, truthiness of optional strings and the shape
    of a loosely typed argument. */
module Js {
  import opened Wrappers

  /** One UTF-16 code unit; JavaScript's `length` counts these. */
  newtype CodeUnit = x: int | 0 <= x < 0x1_0000

  /** A JavaScript string as the sequence of its code units. */
  type Text = seq<CodeUnit>

  /** A loosely typed argument: absent (`undefined`), a string, or any other
      value (a number, an object, `null`). */
  datatype Arg = Missing | Str(value: string) | NonString

  /** JavaScript truthiness of an optional string: `undefined` and "" are falsy. */
  predicate Truthy(s: Option<string>) {
    s.Some? && s.value != ""
  }

  /** `a || b` on optional strings. */
  function Or(a: Option<string>, b: string): (r: string)
    ensures Truthy(a) ==> r == a.value
    ensures !Truthy(a) ==> r == b
  {
    if Truthy(a) then a.value else b
  }

  // ---------------------------------------------------------------------
  // Code units

  const Space: CodeUnit := 0x20
  const Comma: CodeUnit := 0x2C
  const Plus: CodeUnit := 0x2B
  const Dot: CodeUnit := 0x2E
  const DoubleQuote: CodeUnit := 0x22
  const SingleQuote: CodeUnit := 0x27

  /** JavaScript's `\s` (also the set that `String.prototype.trim` removes):
      TAB, LF, VT, FF, CR, SPACE, NBSP, OGHAM SPACE MARK, the spaces
      U+2000 to U+200A, LINE and PARAGRAPH SEPARATOR, NARROW NBSP,
      MEDIUM MATHEMATICAL SPACE, IDEOGRAPHIC SPACE and the BOM. */
  predicate IsWhitespace(c: CodeUnit) {
    || (0x09 <= c <= 0x0D)
    || c == 0x20
    || c == 0xA0
    || c == 0x1680
    || (0x2000 <= c <= 0x200A)
    || c == 0x2028
    || c == 0x2029
    || c == 0x202F
    || c == 0x205F
    || c == 0x3000
    || c == 0xFEFF
  }

  /** The class `[\u0000-\u001f\u007f]`. */
  predicate IsControl(c: CodeUnit) {
    c <= 0x1F || c == 0x7F
  }

  predicate IsAsciiUpper(c: CodeUnit) { 0x41 <= c <= 0x5A }
  predicate IsAsciiLower(c: CodeUnit) { 0x61 <= c <= 0x7A }
  predicate IsAsciiLetter(c: CodeUnit) { IsAsciiUpper(c) || IsAsciiLower(c) }
  predicate IsAsciiDigit(c: CodeUnit) { 0x30 <= c <= 0x39 }

  function LowerUnit(c: CodeUnit): (r: CodeUnit)
    ensures IsAsciiLetter(c) ==> IsAsciiLower(r) && (IsAsciiLower(c) ==> r == c)
    ensures !IsAsciiUpper(c) ==> r == c
  {
    if IsAsciiUpper(c) then c + 0x20 else c
  }

  /** `toLowerCase`, restricted to ASCII. */
  function Lower(s: Text): (r: Text)
    ensures |r| == |s|
    ensures forall i :: 0 <= i < |s| ==> r[i] == LowerUnit(s[i])
  {
    seq(|s|, i requires 0 <= i < |s| => LowerUnit(s[i]))
  }

  lemma LowerAppend(a: Text, b: Text)
    ensures Lower(a + b) == Lower(a) + Lower(b)
  {
  }

  // ---------------------------------------------------------------------
  // ASCII case on Dafny strings (method names, author ids)

  function UpperChar(c: char): (r: char)
    ensures 'a' <= c <= 'z' ==> 'A' <= r <= 'Z' && r as int == c as int - 32
    ensures !('a' <= c <= 'z') ==> r == c
  {
    if 'a' <= c <= 'z' then (c as int - 32) as char else c
  }

  /** `toUpperCase`, restricted to ASCII. */
  function Upper(s: string): (r: string)
    ensures |r| == |s|
    ensures forall i :: 0 <= i < |s| ==> r[i] == UpperChar(s[i])
  {
    seq(|s|, i requires 0 <= i < |s| => UpperChar(s[i]))
  }

  lemma UpperIdempotent(s: string)
    ensures Upper(Upper(s)) == Upper(s)
  {
  }

  // ---------------------------------------------------------------------
  // split and join

  /** `s.split(sep)` for a one-element separator. */
  function Split<T(==)>(s: seq<T>, sep: T): (parts: seq<seq<T>>)
    ensures |parts| >= 1
    ensures forall i :: 0 <= i < |parts| ==> sep !in parts[i]
  {
    if s == [] then [[]]
    else if s[0] == sep then [[]] + Split(s[1..], sep)
    else
      var rest := Split(s[1..], sep);
      [[s[0]] + rest[0]] + rest[1..]
  }

  /** `parts.join(sep)`. */
  function Join<T>(parts: seq<seq<T>>, sep: seq<T>): seq<T>
  {
    if parts == [] then []
    else if |parts| == 1 then parts[0]
    else parts[0] + sep + Join(parts[1..], sep)
  }

  /** Joining the pieces of a split with the separator gives the string back. */
  lemma {:induction false} JoinSplit<T>(s: seq<T>, sep: T)
    ensures Join(Split(s, sep), [sep]) == s
  {
    if s == [] {
    } else if s[0] == sep {
      JoinSplit(s[1..], sep);
      var rest := Split(s[1..], sep);
      assert Split(s, sep) == [[]] + rest;
      if |rest| == 1 {
        assert Join([[]] + rest, [sep]) == [] + [sep] + rest[0];
      } else {
        assert Join([[]] + rest, [sep]) == [] + [sep] + Join(rest, [sep]);
      }
      assert s == [sep] + s[1..];
    } else {
      JoinSplit(s[1..], sep);
      var rest := Split(s[1..], sep);
      var parts := [[s[0]] + rest[0]] + rest[1..];
      assert Split(s, sep) == parts;
      if |rest| == 1 {
        assert Join(parts, [sep]) == [s[0]] + rest[0];
        assert Join(rest, [sep]) == rest[0];
      } else {
        assert parts[1..] == rest[1..];
        assert Join(parts, [sep]) == [s[0]] + rest[0] + [sep] + Join(rest[1..], [sep]);
        assert Join(rest, [sep]) == rest[0] + [sep] + Join(rest[1..], [sep]);
      }
      assert s == [s[0]] + s[1..];
    }
  }

  /** Splitting a join gives the parts back when no part holds the separator. */
  lemma {:induction false} SplitJoin<T>(parts: seq<seq<T>>, sep: T)
    requires |parts| >= 1
    requires forall i :: 0 <= i < |parts| ==> sep !in parts[i]
    ensures Split(Join(parts, [sep]), sep) == parts
  {
    if |parts| == 1 {
      SplitNoSeparator(parts[0], sep);
    } else {
      SplitJoin(parts[1..], sep);
      SplitNoSeparator(parts[0], sep);
      SplitAround(parts[0], Join(parts[1..], [sep]), sep);
      assert parts[0] + [sep] + Join(parts[1..], [sep]) == Join(parts, [sep]);
      assert [parts[0]] + parts[1..] == parts;
    }
  }

  lemma {:induction false} SplitNoSeparator<T>(s: seq<T>, sep: T)
    requires sep !in s
    ensures Split(s, sep) == [s]
  {
    if s != [] {
      SplitNoSeparator(s[1..], sep);
      assert [s[0]] + s[1..] == s;
    }
  }

  /** The parts of `a + sep + b` are those of `a` followed by those of `b`. */
  lemma {:induction false} SplitAround<T>(a: seq<T>, b: seq<T>, sep: T)
    ensures Split(a + [sep] + b, sep) == Split(a, sep) + Split(b, sep)
  {
    if a == [] {
      assert a + [sep] + b == [sep] + b;
      assert ([sep] + b)[1..] == b;
    } else {
      var s := a + [sep] + b;
      assert s[0] == a[0];
      assert s[1..] == a[1..] + [sep] + b;
      SplitAround(a[1..], b, sep);
      if a[0] != sep {
        var rest := Split(s[1..], sep);
        assert rest == Split(a[1..], sep) + Split(b, sep);
        assert rest[0] == Split(a[1..], sep)[0];
        assert rest[1..] == Split(a[1..], sep)[1..] + Split(b, sep);
      }
    }
  }

  // ---------------------------------------------------------------------
  // trim

  /** What is left after the leading whitespace. */
  function TrimStart(s: Text): (r: Text)
    ensures |r| <= |s| && r == s[|s| - |r|..]
    ensures r == [] || !IsWhitespace(r[0])
    ensures forall k :: 0 <= k < |s| - |r| ==> IsWhitespace(s[k])
  {
    if s != [] && IsWhitespace(s[0]) then TrimStart(s[1..]) else s
  }

  /** The first index at or after `i` that holds no whitespace, or `|s|`. */
  function SkipStart(s: Text, i: nat): (j: nat)
    requires i <= |s|
    ensures i <= j <= |s|
    ensures forall k :: i <= k < j ==> IsWhitespace(s[k])
    ensures j == |s| || !IsWhitespace(s[j])
    decreases |s| - i
  {
    if i < |s| && IsWhitespace(s[i]) then SkipStart(s, i + 1) else i
  }

  /** The largest `e` between `lo` and `j` such that `s[e..j]` is all
      whitespace. */
  function SkipEnd(s: Text, lo: nat, j: nat): (e: nat)
    requires lo <= j <= |s|
    ensures lo <= e <= j
    ensures forall k :: e <= k < j ==> IsWhitespace(s[k])
    ensures e == lo || !IsWhitespace(s[e - 1])
    decreases j
  {
    if lo < j && IsWhitespace(s[j - 1]) then SkipEnd(s, lo, j - 1) else j
  }

  /** `trim()`: the slice left after dropping whitespace at both ends. */
  function Trim(s: Text): (r: Text)
    ensures r == [] || (!IsWhitespace(r[0]) && !IsWhitespace(r[|r| - 1]))
    ensures var i := SkipStart(s, 0);
      && i + |r| <= |s| && r == s[i..i + |r|]
      && (forall k :: 0 <= k < i ==> IsWhitespace(s[k]))
      && (forall k :: i + |r| <= k < |s| ==> IsWhitespace(s[k]))
  {
    var i := SkipStart(s, 0);
    s[i..SkipEnd(s, i, |s|)]
  }
}
