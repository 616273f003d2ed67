/** The static search-pattern functions of `SuttaStore`
    (src/sutta-store.cjs): `isUidPattern`, `sanitizePattern`,
    `normalizePattern` and `paliPattern`. Patterns are sequences of UTF-16
    code units, so the 1024 limit counts what JavaScript's `length` counts. */
module SuttaPatterns {
  import opened Wrappers
  import opened Js

  // =====================================================================
  // isUidPattern

  /** The class `[-0-9a-z.:\/]` under the `i` flag. */
  predicate IsTailUnit(c: CodeUnit) {
    c == 0x2D || IsAsciiDigit(c) || IsAsciiLetter(c) || c == Dot || c == 0x3A || c == 0x2F
  }

  /** Length of the leading run of ASCII letters. */
  function LetterRun(s: Text): (n: nat)
    ensures n <= |s|
    ensures forall k :: 0 <= k < n ==> IsAsciiLetter(s[k])
    ensures n == |s| || !IsAsciiLetter(s[n])
  {
    if s != [] && IsAsciiLetter(s[0]) then 1 + LetterRun(s[1..]) else 0
  }

  /** `/^[a-z]+ ?[0-9]+[-0-9a-z.:\/]*$/i.test(part)`, decided by one scan:
      the letters must be the whole leading letter run, a space after them is
      consumed, then a digit must follow and everything after it must be in
      the tail class. */
  predicate UidPartMatches(part: Text) {
    var i := LetterRun(part);
    var j := if i < |part| && part[i] == Space then i + 1 else i;
    && 1 <= i
    && j < |part| && IsAsciiDigit(part[j])
    && forall k :: j < k < |part| ==> IsTailUnit(part[k])
  }

  /** `part` is letters `[0, i)`, an optional space `[i, j)`, digits `[j, k)`
      with at least one, and tail-class units `[k, |part|)`. */
  predicate UidSplit(part: Text, i: nat, j: nat, k: nat) {
    && 1 <= i <= j < k <= |part|
    && (forall m :: 0 <= m < i ==> IsAsciiLetter(part[m]))
    && (j == i || (j == i + 1 && part[i] == Space))
    && (forall m :: j <= m < k ==> IsAsciiDigit(part[m]))
    && (forall m :: k <= m < |part| ==> IsTailUnit(part[m]))
  }

  /** The language of the regular expression. */
  ghost predicate UidShape(part: Text) {
    exists i: nat, j: nat, k: nat :: UidSplit(part, i, j, k)
  }

  /** The scan accepts exactly the strings of the regular expression's language. */
  lemma UidPartMatchesShape(part: Text)
    ensures UidPartMatches(part) <==> UidShape(part)
  {
    var i := LetterRun(part);
    var j := if i < |part| && part[i] == Space then i + 1 else i;
    if UidPartMatches(part) {
      assert UidSplit(part, i, j, j + 1);
    }
    if UidShape(part) {
      var i': nat, j': nat, k': nat :| UidSplit(part, i', j', k');
      assert !IsAsciiLetter(part[i']);
      assert i == i';
    }
  }

  /** `.map((p) => p.trim())` */
  function TrimParts(parts: seq<Text>): (r: seq<Text>)
    ensures |r| == |parts|
    ensures forall k :: 0 <= k < |parts| ==> r[k] == Trim(parts[k])
  {
    seq(|parts|, k requires 0 <= k < |parts| => Trim(parts[k]))
  }

  /** `.reduce((acc, part) => acc && test(part), acc)` */
  function AllUidParts(acc: bool, parts: seq<Text>): bool
  {
    if parts == [] then acc else AllUidParts(acc && UidPartMatches(parts[0]), parts[1..])
  }

  /** The lower-cased, trimmed, comma-separated parts of a pattern. */
  function UidParts(pattern: Text): seq<Text> {
    TrimParts(Split(Lower(pattern), Comma))
  }

  /** `SuttaStore.isUidPattern(pattern)` */
  predicate IsUidPattern(pattern: Text) {
    AllUidParts(true, UidParts(pattern))
  }

  lemma {:induction false} AllUidPartsMeaning(acc: bool, parts: seq<Text>)
    ensures AllUidParts(acc, parts) <==> acc && forall k :: 0 <= k < |parts| ==> UidPartMatches(parts[k])
  {
    if parts != [] {
      AllUidPartsMeaning(acc && UidPartMatches(parts[0]), parts[1..]);
      assert forall k :: 1 <= k < |parts| ==> parts[k] == parts[1..][k - 1];
    }
  }

  /** A pattern is a uid pattern iff every lower-cased, trimmed,
      comma-separated part is letters, an optional space, digits, then only
      tail-class units. */
  lemma IsUidPatternMeaning(pattern: Text)
    ensures IsUidPattern(pattern) <==>
      forall k :: 0 <= k < |UidParts(pattern)| ==> UidShape(UidParts(pattern)[k])
  {
    var parts := UidParts(pattern);
    AllUidPartsMeaning(true, parts);
    forall k | 0 <= k < |parts| ensures UidPartMatches(parts[k]) <==> UidShape(parts[k]) {
      UidPartMatchesShape(parts[k]);
    }
  }

  lemma UidPartsComma(a: Text, b: Text)
    ensures UidParts(a + [Comma] + b) == UidParts(a) + UidParts(b)
  {
    LowerAppend(a + [Comma], b);
    LowerAppend(a, [Comma]);
    assert Lower(a + [Comma] + b) == Lower(a) + [Comma] + Lower(b);
    SplitAround(Lower(a), Lower(b), Comma);
    var pa, pb := Split(Lower(a), Comma), Split(Lower(b), Comma);
    assert TrimParts(pa + pb) == TrimParts(pa) + TrimParts(pb);
  }

  lemma AllUidPartsAppend(x: seq<Text>, y: seq<Text>)
    ensures AllUidParts(true, x + y) <==> AllUidParts(true, x) && AllUidParts(true, y)
  {
    AllUidPartsMeaning(true, x + y);
    AllUidPartsMeaning(true, x);
    AllUidPartsMeaning(true, y);
    assert forall k :: 0 <= k < |x| ==> (x + y)[k] == x[k];
    assert forall k :: 0 <= k < |y| ==> (x + y)[|x| + k] == y[k];
    if AllUidParts(true, x) && AllUidParts(true, y) {
      forall k | 0 <= k < |x + y| ensures UidPartMatches((x + y)[k]) {
        if k >= |x| {
          assert (x + y)[k] == y[k - |x|];
        }
      }
    }
  }

  /** Joining two patterns with a comma gives a uid pattern iff both are. */
  lemma IsUidPatternComma(a: Text, b: Text)
    ensures IsUidPattern(a + [Comma] + b) <==> IsUidPattern(a) && IsUidPattern(b)
  {
    UidPartsComma(a, b);
    AllUidPartsAppend(UidParts(a), UidParts(b));
  }

  // =====================================================================
  // sanitizePattern

  const MaxPattern: nat := 1024

  /** Why `sanitizePattern` throws. */
  datatype SanitizeError =
    | PatternRequired          // `!pattern`
    | TooLong(excess: nat)     // more than 1024 code units, by `excess`
    | InvalidRegex             // `new RegExp(pattern)` threw

  /** The message of the thrown error; for an invalid regular expression it
      is the engine's own, of which the model keeps only its fixed start. */
  function SanitizeMessage(e: SanitizeError): string {
    match e
    case PatternRequired => "sutta-store.sanitizePattern()  pattern is required"
    case TooLong(n) => "Search text too long by " + NatToString(n) + " characters."
    case InvalidRegex => "Invalid regular expression"
  }

  function DigitString(d: nat): string
    requires d < 10
  {
    ["0123456789"[d]]
  }

  function NatToString(n: nat): string {
    if n < 10 then DigitString(n) else NatToString(n / 10) + DigitString(n % 10)
  }

  predicate IsQuote(c: CodeUnit) {
    c == DoubleQuote || c == SingleQuote
  }

  /** `pattern.replace(/["']/g, ".")` */
  function QuotesToDots(s: Text): Text {
    seq(|s|, i requires 0 <= i < |s| => if IsQuote(s[i]) then Dot else s[i])
  }

  /** `pattern.replace(/\s/g, " ")` */
  function WhitespaceToSpaces(s: Text): Text {
    seq(|s|, i requires 0 <= i < |s| => if IsWhitespace(s[i]) then Space else s[i])
  }

  /** `pattern.replace(/[\u0000-\u001f\u007f]+/g, "")`: deleting every run of
      control units deletes every control unit. */
  function DeleteControls(s: Text): Text {
    if s == [] then []
    else if IsControl(s[0]) then DeleteControls(s[1..])
    else [s[0]] + DeleteControls(s[1..])
  }

  /** The three replacements, in the order the source applies them. */
  function SanitizeSteps(s: Text): Text {
    DeleteControls(WhitespaceToSpaces(QuotesToDots(s)))
  }

  /** What happens to one code unit: a quote becomes a dot, any whitespace
      (TAB and LF included) becomes a space, any other control unit is
      dropped, and everything else is kept. */
  function SanitizeUnit(c: CodeUnit): Text {
    if IsQuote(c) then [Dot]
    else if IsWhitespace(c) then [Space]
    else if IsControl(c) then []
    else [c]
  }

  /** The per-unit reference definition of the three replacements. */
  function SanitizeEach(s: Text): Text {
    if s == [] then [] else SanitizeUnit(s[0]) + SanitizeEach(s[1..])
  }

  /** No quote, no control unit, and no whitespace but U+0020. */
  predicate IsClean(s: Text) {
    forall i :: 0 <= i < |s| ==>
      && !IsQuote(s[i])
      && !IsControl(s[i])
      && (IsWhitespace(s[i]) ==> s[i] == Space)
  }

  /** The chain of three replacements is the per-unit map. */
  lemma {:induction false} SanitizeStepsEach(s: Text)
    ensures SanitizeSteps(s) == SanitizeEach(s)
  {
    if s != [] {
      SanitizeStepsEach(s[1..]);
      var w := WhitespaceToSpaces(QuotesToDots(s));
      assert w[1..] == WhitespaceToSpaces(QuotesToDots(s[1..]));
      assert DeleteControls(w) == SanitizeUnit(s[0]) + DeleteControls(w[1..]);
    }
  }

  /** What the per-unit map produces is clean and never longer. */
  lemma {:induction false} SanitizeEachClean(s: Text)
    ensures IsClean(SanitizeEach(s))
    ensures |SanitizeEach(s)| <= |s|
  {
    if s != [] {
      SanitizeEachClean(s[1..]);
      var h, t := SanitizeUnit(s[0]), SanitizeEach(s[1..]);
      assert forall i :: |h| <= i < |h + t| ==> (h + t)[i] == t[i - |h|];
    }
  }

  /** A clean pattern is left as it is. */
  lemma {:induction false} SanitizeEachCleanFixed(s: Text)
    requires IsClean(s)
    ensures SanitizeEach(s) == s
  {
    if s != [] {
      assert IsClean(s[1..]) by {
        assert forall i :: 0 <= i < |s| - 1 ==> s[1..][i] == s[i + 1];
      }
      SanitizeEachCleanFixed(s[1..]);
      assert s == [s[0]] + s[1..];
    }
  }

  /** `SuttaStore.sanitizePattern(pattern)`; `None` is a missing or `null`
      pattern and `isValidRegex` stands for `new RegExp(pattern)` not throwing. */
  function SanitizePattern(pattern: Option<Text>, isValidRegex: Text -> bool): (r: Result<Text, SanitizeError>)
    ensures (pattern.None? || pattern.value == []) <==> r == Failure(PatternRequired)
    ensures pattern.Some? && |pattern.value| > MaxPattern ==>
      r == Failure(TooLong(|pattern.value| - MaxPattern))
    ensures pattern.Some? && 0 < |pattern.value| <= MaxPattern ==>
      var clean := SanitizeEach(pattern.value);
      r == if isValidRegex(clean) then Success(clean) else Failure(InvalidRegex)
    ensures r.Success? ==> pattern.Some? && IsClean(r.value) && |r.value| <= |pattern.value|
  {
    if pattern.None? || pattern.value == [] then Failure(PatternRequired)
    else
      var excess := |pattern.value| - MaxPattern;
      if excess > 0 then Failure(TooLong(excess))
      else
        var p := SanitizeSteps(pattern.value);
        SanitizeStepsEach(pattern.value);
        SanitizeEachClean(pattern.value);
        if isValidRegex(p) then Success(p) else Failure(InvalidRegex)
  }

  // =====================================================================
  // normalizePattern

  /** `pattern.replace(/[\s]+/g, " +")`: each maximal whitespace run, found
      from the left, becomes a space and a plus. */
  function NormalizePattern(s: Text): Text
    decreases |s|
  {
    if s == [] then []
    else if IsWhitespace(s[0]) then [Space, Plus] + NormalizePattern(TrimStart(s))
    else [s[0]] + NormalizePattern(s[1..])
  }

  /** Per-unit reference definition: a whitespace unit that starts a run
      becomes " +", one that continues a run disappears, and every other unit
      is kept. */
  function NormalizeFrom(s: Text, inRun: bool): Text {
    if s == [] then [] else NormalizeUnit(s[0], inRun) + NormalizeFrom(s[1..], IsWhitespace(s[0]))
  }

  /** What one unit becomes, given whether a whitespace run is open. */
  function NormalizeUnit(c: CodeUnit, inRun: bool): Text {
    if !IsWhitespace(c) then [c] else if inRun then [] else [Space, Plus]
  }

  lemma {:induction false} NormalizeFromRun(s: Text)
    ensures NormalizeFrom(s, true) == NormalizeFrom(TrimStart(s), false)
  {
    if s != [] && IsWhitespace(s[0]) {
      NormalizeFromRun(s[1..]);
    }
  }

  /** The run-by-run replacement agrees with the per-unit definition. */
  lemma {:induction false} NormalizeIsPerUnit(s: Text)
    ensures NormalizePattern(s) == NormalizeFrom(s, false)
    decreases |s|
  {
    if s != [] {
      if IsWhitespace(s[0]) {
        NormalizeIsPerUnit(TrimStart(s));
        NormalizeFromRun(s[1..]);
        assert TrimStart(s) == TrimStart(s[1..]);
      } else {
        NormalizeIsPerUnit(s[1..]);
      }
    }
  }

  predicate NoWhitespace(s: Text) {
    forall i :: 0 <= i < |s| ==> !IsWhitespace(s[i])
  }

  /** Whitespace-free input is unchanged. */
  lemma {:induction false} NormalizeNoWhitespace(s: Text)
    requires NoWhitespace(s)
    ensures NormalizePattern(s) == s
  {
    if s != [] {
      assert NoWhitespace(s[1..]) by {
        assert forall i :: 0 <= i < |s| - 1 ==> s[1..][i] == s[i + 1];
      }
      NormalizeNoWhitespace(s[1..]);
      assert s == [s[0]] + s[1..];
    }
  }

  /** Whether a whitespace run is open after reading `a`, starting with `inRun`. */
  function RunAfter(a: Text, inRun: bool): bool {
    if a == [] then inRun else IsWhitespace(a[|a| - 1])
  }

  lemma RunAfterTail(a: Text, inRun: bool)
    requires a != []
    ensures RunAfter(a, inRun) == RunAfter(a[1..], IsWhitespace(a[0]))
  {
    if |a| > 1 {
      assert a[1..][|a| - 2] == a[|a| - 1];
    }
  }

  lemma {:induction false} NormalizeFromAppend(a: Text, b: Text, inRun: bool)
    ensures NormalizeFrom(a + b, inRun) == NormalizeFrom(a, inRun) + NormalizeFrom(b, RunAfter(a, inRun))
  {
    if a != [] {
      var h, w := NormalizeUnit(a[0], inRun), IsWhitespace(a[0]);
      var x, y := NormalizeFrom(a[1..], w), NormalizeFrom(b, RunAfter(a, inRun));
      assert (a + b)[0] == a[0] && (a + b)[1..] == a[1..] + b;
      assert NormalizeFrom(a + b, inRun) == h + NormalizeFrom(a[1..] + b, w);
      NormalizeFromAppend(a[1..], b, w);
      RunAfterTail(a, inRun);
      assert NormalizeFrom(a[1..] + b, w) == x + y;
      assert NormalizeFrom(a, inRun) == h + x;
      assert h + (x + y) == (h + x) + y;
    } else {
      assert a + b == b;
    }
  }

  lemma {:induction false} NormalizeFromAllWhitespace(w: Text)
    requires forall i :: 0 <= i < |w| ==> IsWhitespace(w[i])
    ensures NormalizeFrom(w, true) == []
  {
    if w != [] {
      NormalizeFromAllWhitespace(w[1..]);
    }
  }

  /** A maximal whitespace run between two pieces becomes exactly " +". */
  lemma NormalizeRun(a: Text, w: Text, b: Text)
    requires a == [] || !IsWhitespace(a[|a| - 1])
    requires |w| > 0 && forall i :: 0 <= i < |w| ==> IsWhitespace(w[i])
    requires b == [] || !IsWhitespace(b[0])
    ensures NormalizePattern(a + w + b) == NormalizePattern(a) + [Space, Plus] + NormalizePattern(b)
  {
    NormalizeIsPerUnit(a + w + b);
    NormalizeIsPerUnit(a);
    NormalizeIsPerUnit(b);
    NormalizeFromAppend(a + w, b, false);
    NormalizeFromAppend(a, w, false);
    assert (a + w)[|a + w| - 1] == w[|w| - 1];
    NormalizeFromAllWhitespace(w[1..]);
    assert NormalizeFrom(w, false) == [Space, Plus];
    assert b != [] ==> NormalizeFrom(b, true) == NormalizeFrom(b, false);
  }

  /** Every whitespace unit is a space followed by a plus. */
  predicate SpacesArePlus(r: Text) {
    forall i :: 0 <= i < |r| && IsWhitespace(r[i]) ==> r[i] == Space && i + 1 < |r| && r[i + 1] == Plus
  }

  /** In the output every whitespace unit is a space followed by a plus. */
  lemma {:induction false} NormalizeSpacesArePlus(s: Text, inRun: bool)
    ensures SpacesArePlus(NormalizeFrom(s, inRun))
  {
    if s != [] {
      NormalizeSpacesArePlus(s[1..], IsWhitespace(s[0]));
      var h := if IsWhitespace(s[0]) then (if inRun then [] else [Space, Plus]) else [s[0]];
      var t := NormalizeFrom(s[1..], IsWhitespace(s[0]));
      var r := h + t;
      assert NormalizeFrom(s, inRun) == r;
      forall i | 0 <= i < |r| && IsWhitespace(r[i])
        ensures r[i] == Space && i + 1 < |r| && r[i + 1] == Plus
      {
        if i >= |h| {
          assert r[i] == t[i - |h|];
          assert IsWhitespace(t[i - |h|]);
          assert t[i - |h|] == Space && i - |h| + 1 < |t| && t[i - |h| + 1] == Plus;
          assert r[i + 1] == t[i - |h| + 1];
        } else {
          assert IsWhitespace(s[0]) && !inRun;
        }
      }
    }
  }

  /** In `normalizePattern`'s output every whitespace unit is a space
      followed by a plus. */
  lemma NormalizePatternSpaces(s: Text)
    ensures SpacesArePlus(NormalizePattern(s))
  {
    NormalizeIsPerUnit(s);
    NormalizeSpacesArePlus(s, false);
  }

  // =====================================================================
  // paliPattern

  const LetterA: CodeUnit := 0x61
  const LetterI: CodeUnit := 0x69
  const LetterU: CodeUnit := 0x75
  const LetterM: CodeUnit := 0x6D
  const LetterD: CodeUnit := 0x64
  const LetterN: CodeUnit := 0x6E
  const LetterL: CodeUnit := 0x6C
  const LetterT: CodeUnit := 0x74

  /** The letters the eight chained `replace` calls target, in source order. */
  const PaliTargets: seq<CodeUnit> := [LetterA, LetterI, LetterU, LetterM, LetterD, LetterN, LetterL, LetterT]

  const OpenParen: CodeUnit := 0x28
  const Bar: CodeUnit := 0x7C
  const CloseParen: CodeUnit := 0x29

  /** `"|" + v0 + "|" + v1 ...` */
  function Alternatives(variants: seq<CodeUnit>): Text {
    if variants == [] then [] else [Bar, variants[0]] + Alternatives(variants[1..])
  }

  /** `"(" + x + "|" + v0 + ... + ")"` */
  function Alternation(x: CodeUnit, variants: seq<CodeUnit>): Text {
    [OpenParen, x] + Alternatives(variants) + [CloseParen]
  }

  /** The diacritic variants that each target letter's group adds. */
  function PaliVariants(x: CodeUnit): seq<CodeUnit> {
    if x == LetterA then [0x0101]                     // ā
    else if x == LetterI then [0x012B]                // ī
    else if x == LetterU then [0x016B]                // ū
    else if x == LetterM then [0x1E41, 0x1E43]        // ṁ ṃ
    else if x == LetterD then [0x1E0D]                // ḍ
    else if x == LetterN then [0x1E45, 0x00F1, 0x1E47] // ṅ ñ ṇ
    else if x == LetterL then [0x1E37]                // ḷ
    else if x == LetterT then [0x1E6D]                // ṭ
    else []
  }

  /** The replacement group of a target letter: "(a|ā)", "(i|ī)", "(u|ū)",
      "(m|ṁ|ṃ)", "(d|ḍ)", "(n|ṅ|ñ|ṇ)", "(l|ḷ)", "(t|ṭ)". */
  function PaliGroup(x: CodeUnit): Text {
    Alternation(x, PaliVariants(x))
  }

  /** `s.replace(/x/giu, group)`: every unit that is `x` in either case
      becomes the group. */
  function ReplaceLetter(s: Text, x: CodeUnit, group: Text): Text {
    if s == [] then [] else ReplaceUnit(s[0], x, group) + ReplaceLetter(s[1..], x, group)
  }

  /** What `replace(/x/giu, group)` makes of one unit. */
  function ReplaceUnit(c: CodeUnit, x: CodeUnit, group: Text): Text {
    if LowerUnit(c) == x then group else [c]
  }

  /** The chained `replace` calls for the targets `ts`, first to last. */
  function ReplaceChain(s: Text, ts: seq<CodeUnit>): Text
    decreases |ts|
  {
    if ts == [] then s else ReplaceChain(ReplaceLetter(s, ts[0], PaliGroup(ts[0])), ts[1..])
  }

  /** `/^[a-z]+$/i.test(pattern)` */
  predicate IsAsciiWord(s: Text) {
    |s| > 0 && forall i :: 0 <= i < |s| ==> IsAsciiLetter(s[i])
  }

  /** `SuttaStore.paliPattern(pattern)` */
  function PaliPattern(pattern: Text): Text {
    if IsAsciiWord(pattern) then ReplaceChain(pattern, PaliTargets) else pattern
  }

  /** What one unit of an ASCII word turns into. */
  function PaliUnit(c: CodeUnit): Text {
    if LowerUnit(c) in PaliTargets then PaliGroup(LowerUnit(c)) else [c]
  }

  /** The per-unit reference map. */
  function PaliMap(s: Text): Text {
    if s == [] then [] else PaliUnit(s[0]) + PaliMap(s[1..])
  }

  lemma {:induction false} ReplaceLetterAppend(a: Text, b: Text, x: CodeUnit, g: Text)
    ensures ReplaceLetter(a + b, x, g) == ReplaceLetter(a, x, g) + ReplaceLetter(b, x, g)
  {
    if a != [] {
      var h := ReplaceUnit(a[0], x, g);
      assert (a + b)[0] == a[0] && (a + b)[1..] == a[1..] + b;
      ReplaceLetterAppend(a[1..], b, x, g);
      assert ReplaceLetter(a + b, x, g) == h + (ReplaceLetter(a[1..], x, g) + ReplaceLetter(b, x, g));
    } else {
      assert a + b == b;
    }
  }

  lemma {:induction false} ReplaceLetterUntouched(s: Text, x: CodeUnit, g: Text)
    requires forall i :: 0 <= i < |s| ==> LowerUnit(s[i]) != x
    ensures ReplaceLetter(s, x, g) == s
  {
    if s != [] {
      ReplaceLetterUntouched(s[1..], x, g);
      assert s == [s[0]] + s[1..];
    }
  }

  lemma {:induction false} ReplaceChainAppend(a: Text, b: Text, ts: seq<CodeUnit>)
    ensures ReplaceChain(a + b, ts) == ReplaceChain(a, ts) + ReplaceChain(b, ts)
    decreases |ts|
  {
    if ts != [] {
      ReplaceLetterAppend(a, b, ts[0], PaliGroup(ts[0]));
      ReplaceChainAppend(ReplaceLetter(a, ts[0], PaliGroup(ts[0])), ReplaceLetter(b, ts[0], PaliGroup(ts[0])), ts[1..]);
    }
  }

  lemma {:induction false} ReplaceChainUntouched(s: Text, ts: seq<CodeUnit>)
    requires forall i :: 0 <= i < |s| ==> LowerUnit(s[i]) !in ts
    ensures ReplaceChain(s, ts) == s
    decreases |ts|
  {
    if ts != [] {
      ReplaceLetterUntouched(s, ts[0], PaliGroup(ts[0]));
      ReplaceChainUntouched(s, ts[1..]);
    }
  }

  lemma {:induction false} AlternativesUnits(variants: seq<CodeUnit>)
    requires forall k :: 0 <= k < |variants| ==> variants[k] >= 0xC0
    ensures forall i :: 0 <= i < |Alternatives(variants)| ==>
      Alternatives(variants)[i] == Bar || Alternatives(variants)[i] >= 0xC0
  {
    if variants != [] {
      AlternativesUnits(variants[1..]);
      var t := Alternatives(variants[1..]);
      assert forall i :: 2 <= i < 2 + |t| ==> ([Bar, variants[0]] + t)[i] == t[i - 2];
    }
  }

  /** The variants are all outside ASCII. */
  lemma VariantsHigh(x: CodeUnit)
    ensures forall k :: 0 <= k < |PaliVariants(x)| ==> PaliVariants(x)[k] >= 0xC0
  {
  }

  /** A unit that may occur in the group of `x`. */
  predicate InGroupOf(u: CodeUnit, x: CodeUnit) {
    u == OpenParen || u == CloseParen || u == Bar || u == x || u >= 0xC0
  }

  lemma InGroupSafe(u: CodeUnit, x: CodeUnit)
    requires x in PaliTargets && InGroupOf(u, x)
    ensures LowerUnit(u) in PaliTargets ==> LowerUnit(u) == x
  {
  }

  /** No unit of a group is a target letter other than the group's own. */
  lemma GroupUnits(x: CodeUnit)
    requires x in PaliTargets
    ensures forall i :: 0 <= i < |PaliGroup(x)| ==>
      LowerUnit(PaliGroup(x)[i]) in PaliTargets ==> LowerUnit(PaliGroup(x)[i]) == x
  {
    var vs := PaliVariants(x);
    VariantsHigh(x);
    AlternativesUnits(vs);
    var alts := Alternatives(vs);
    var g := PaliGroup(x);
    assert g == [OpenParen, x] + alts + [CloseParen];
    forall i | 0 <= i < |g| ensures LowerUnit(g[i]) in PaliTargets ==> LowerUnit(g[i]) == x {
      if 2 <= i < 2 + |alts| {
        assert g[i] == alts[i - 2];
      }
      assert InGroupOf(g[i], x);
      InGroupSafe(g[i], x);
    }
  }

  /** One unit through a chain of distinct targets: the first (and only)
      target it matches decides its group, no later step touches the group. */
  lemma {:induction false} ReplaceChainUnit(c: CodeUnit, ts: seq<CodeUnit>)
    requires forall k :: 0 <= k < |ts| ==> ts[k] in PaliTargets
    requires forall k, m :: 0 <= k < m < |ts| ==> ts[k] != ts[m]
    ensures ReplaceChain([c], ts) == if LowerUnit(c) in ts then PaliGroup(LowerUnit(c)) else [c]
    decreases |ts|
  {
    if ts != [] {
      var x := ts[0];
      var rest := ts[1..];
      assert forall k :: 0 <= k < |rest| ==> rest[k] != x;
      if LowerUnit(c) == x {
        assert ReplaceLetter([c], x, PaliGroup(x)) == PaliGroup(x);
        GroupUnits(x);
        ReplaceChainUntouched(PaliGroup(x), rest);
      } else {
        assert ReplaceLetter([c], x, PaliGroup(x)) == [c];
        ReplaceChainUnit(c, rest);
      }
    }
  }

  lemma PaliTargetsDistinct()
    ensures forall k :: 0 <= k < |PaliTargets| ==> PaliTargets[k] in PaliTargets
    ensures forall k, m :: 0 <= k < m < |PaliTargets| ==> PaliTargets[k] != PaliTargets[m]
  {
  }

  /** The eight chained replacements equal a single per-unit map, because
      no inserted group contains a letter that a later replacement targets. */
  lemma {:induction false} ReplaceChainIsMap(s: Text)
    ensures ReplaceChain(s, PaliTargets) == PaliMap(s)
  {
    if s != [] {
      assert s == [s[0]] + s[1..];
      ReplaceChainAppend([s[0]], s[1..], PaliTargets);
      PaliTargetsDistinct();
      ReplaceChainUnit(s[0], PaliTargets);
      assert ReplaceChain([s[0]], PaliTargets) == PaliUnit(s[0]);
      ReplaceChainIsMap(s[1..]);
      assert PaliMap(s) == PaliUnit(s[0]) + PaliMap(s[1..]);
    } else {
      ReplaceChainUntouched(s, PaliTargets);
    }
  }

  /** `paliPattern` of an ASCII word is the per-unit map; of anything else,
      the input itself. */
  lemma PaliPatternMeaning(pattern: Text)
    ensures IsAsciiWord(pattern) ==> PaliPattern(pattern) == PaliMap(pattern)
    ensures !IsAsciiWord(pattern) ==> PaliPattern(pattern) == pattern
  {
    ReplaceChainIsMap(pattern);
  }
}
