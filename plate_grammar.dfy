/**
  The plate grammar test that both recognition handlers apply to every
  recognised word: `re.match(r'^[A-Z]{3}\s?\d{2,3}[A-Z]?$', text) and
  confidence > 0.5`, followed by `text.replace(" ", "")`.

  The character classes are those of Python's `re` module on a `str`
  pattern without flags:
  - `[A-Z]` is the 26 ASCII capitals and nothing else;
  - `\s` is every character for which `str.isspace()` holds;
  - `\d` is every character of Unicode category Nd (decimal digit),
    taken here from Unicode 13.0;
  - `$` matches at the end of the text or just before a single final "\n".
  The three classes are pairwise disjoint, so the pattern can be matched
  deterministically, one character at a time, without backtracking.
*/
module PlateGrammar {
  import opened Wrappers

  /** `[A-Z]`: an ASCII capital letter. */
  predicate IsPlateLetter(c: char) {
    'A' <= c <= 'Z'
  }

  /** `\s` on a `str` pattern: the characters for which `str.isspace()` holds. */
  predicate IsWhitespace(c: char) {
    var n := c as int;
    || 0x09 <= n <= 0x0D   // tab, line feed, vertical tab, form feed, carriage return
    || 0x1C <= n <= 0x1F   // information separators
    || n == 0x20           // space
    || n == 0x85           // next line
    || n == 0xA0           // no-break space
    || n == 0x1680         // Ogham space mark
    || 0x2000 <= n <= 0x200A
    || n == 0x2028 || n == 0x2029
    || n == 0x202F || n == 0x205F
    || n == 0x3000
  }

  /** The ten code points zero, zero + 1, ..., zero + 9. */
  predicate InDigitBlock(n: int, zero: int) {
    zero <= n < zero + 10
  }

  /** The number of runs of ten decimal digits in Unicode 13.0. */
  const DigitBlockCount: nat := 65

  /** The code point of the zero of the `k`-th run, in ascending order. */
  function DigitZero(k: nat): int
    requires k < DigitBlockCount
  {
    match k
    // Basic Multilingual Plane
    case 0 => 0x0030
    case 1 => 0x0660
    case 2 => 0x06F0
    case 3 => 0x07C0
    case 4 => 0x0966
    case 5 => 0x09E6
    case 6 => 0x0A66
    case 7 => 0x0AE6
    case 8 => 0x0B66
    case 9 => 0x0BE6
    case 10 => 0x0C66
    case 11 => 0x0CE6
    case 12 => 0x0D66
    case 13 => 0x0DE6
    case 14 => 0x0E50
    case 15 => 0x0ED0
    case 16 => 0x0F20
    case 17 => 0x1040
    case 18 => 0x1090
    case 19 => 0x17E0
    case 20 => 0x1810
    case 21 => 0x1946
    case 22 => 0x19D0
    case 23 => 0x1A80
    case 24 => 0x1A90
    case 25 => 0x1B50
    case 26 => 0x1BB0
    case 27 => 0x1C40
    case 28 => 0x1C50
    case 29 => 0xA620
    case 30 => 0xA8D0
    case 31 => 0xA900
    case 32 => 0xA9D0
    case 33 => 0xA9F0
    case 34 => 0xAA50
    case 35 => 0xABF0
    case 36 => 0xFF10
    // Supplementary planes
    case 37 => 0x104A0
    case 38 => 0x10D30
    case 39 => 0x11066
    case 40 => 0x110F0
    case 41 => 0x11136
    case 42 => 0x111D0
    case 43 => 0x112F0
    case 44 => 0x11450
    case 45 => 0x114D0
    case 46 => 0x11650
    case 47 => 0x116C0
    case 48 => 0x11730
    case 49 => 0x118E0
    case 50 => 0x11950
    case 51 => 0x11C50
    case 52 => 0x11D50
    case 53 => 0x11DA0
    case 54 => 0x16A60
    case 55 => 0x16B50
    case 56 => 0x1D7CE
    case 57 => 0x1D7D8
    case 58 => 0x1D7E2
    case 59 => 0x1D7EC
    case 60 => 0x1D7F6
    case 61 => 0x1E140
    case 62 => 0x1E2F0
    case 63 => 0x1E950
    case _ => 0x1FBF0   // k == 64
  }

  /** `n` lies in one of the runs `k`, `k + 1`, ... */
  predicate InDigitBlocksFrom(n: int, k: nat)
    decreases DigitBlockCount - k
  {
    k < DigitBlockCount && (InDigitBlock(n, DigitZero(k)) || InDigitBlocksFrom(n, k + 1))
  }

  /**
    `\d` on a `str` pattern: a character of Unicode category Nd. Every such
    character lies in a run of ten consecutive code points starting at one
    of the zeros above (Unicode 13.0).
  */
  predicate IsDecimalDigit(c: char) {
    InDigitBlocksFrom(c as int, 0)
  }

  /** Where the digit runs lie: clear of the letters and of every whitespace character. */
  predicate InDigitRange(n: int) {
    || 0x30 <= n <= 0x39
    || (0x660 <= n < 0x1680)
    || (0x1680 < n < 0x2000)
    || 0x3000 < n
  }

  lemma {:induction false} DigitBlocksInRange(n: int, k: nat)
    requires InDigitBlocksFrom(n, k)
    ensures InDigitRange(n)
    decreases DigitBlockCount - k
  {
    if !InDigitBlock(n, DigitZero(k)) {
      DigitBlocksInRange(n, k + 1);
    }
  }

  /** The three character classes never overlap. */
  lemma ClassesDisjoint(c: char)
    ensures IsDecimalDigit(c) ==> !IsWhitespace(c) && !IsPlateLetter(c)
    ensures IsWhitespace(c) ==> !IsPlateLetter(c)
  {
    if IsDecimalDigit(c) {
      DigitBlocksInRange(c as int, 0);
    }
  }

  predicate AllLetters(s: string) {
    forall i :: 0 <= i < |s| ==> IsPlateLetter(s[i])
  }

  predicate AllDigits(s: string) {
    forall i :: 0 <= i < |s| ==> IsDecimalDigit(s[i])
  }

  /**
    A text the pattern `[A-Z]{3}\s?\d{2,3}[A-Z]?` spans completely, split in
    the pattern's four parts.
  */
  datatype PlateParts = PlateParts(letters: string, separator: Option<char>, digits: string, suffix: Option<char>)

  predicate WellFormed(p: PlateParts) {
    && |p.letters| == 3 && AllLetters(p.letters)
    && (p.separator.Some? ==> IsWhitespace(p.separator.value))
    && 2 <= |p.digits| <= 3 && AllDigits(p.digits)
    && (p.suffix.Some? ==> IsPlateLetter(p.suffix.value))
  }

  function OptChar(c: Option<char>): string {
    if c.Some? then [c.value] else []
  }

  /** The text a well-formed split stands for. */
  function Render(p: PlateParts): string {
    p.letters + OptChar(p.separator) + p.digits + OptChar(p.suffix)
  }

  /**
    The positions of a left-to-right match of `[A-Z]{3}\s?\d{2,3}[A-Z]?`:
    `count` letters read, the letters done, the separator read, `count`
    digits read, the suffix letter read.
  */
  datatype MatchState =
    | InLetters(count: nat)
    | AfterLetters
    | AfterSeparator
    | InDigits(count: nat)
    | AfterSuffix

  const Start: MatchState := InLetters(0)

  /**
    The position after reading `c`, if the pattern can read it there. Because
    whitespace, digits and letters are disjoint, no optional element needs
    backtracking: a whitespace after the letters is the separator, a fourth
    digit or a letter ends the digits only as the pattern allows.
  */
  function Step(st: MatchState, c: char): Option<MatchState> {
    match st
    case InLetters(n) =>
      if IsPlateLetter(c) then Some(if n < 2 then InLetters(n + 1) else AfterLetters) else None
    case AfterLetters =>
      if IsWhitespace(c) then Some(AfterSeparator)
      else if IsDecimalDigit(c) then Some(InDigits(1))
      else None
    case AfterSeparator =>
      if IsDecimalDigit(c) then Some(InDigits(1)) else None
    case InDigits(n) =>
      if IsDecimalDigit(c) && n < 3 then Some(InDigits(n + 1))
      else if IsPlateLetter(c) && n >= 2 then Some(AfterSuffix)
      else None
    case AfterSuffix => None
  }

  /** The positions where `$` may follow: two or three digits read, with or without the suffix. */
  predicate Accepting(st: MatchState) {
    st == InDigits(2) || st == InDigits(3) || st == AfterSuffix
  }

  /** Python's `$` at index `i`: the end of the text, or a final "\n" just before it. */
  predicate AtEnd(s: string, i: nat) {
    i == |s| || (i == |s| - 1 && s[i] == '\n')
  }

  /** The rest of the pattern from position `st` matches `s[i..]`. */
  predicate MatchFrom(s: string, i: nat, st: MatchState)
    requires i <= |s|
    decreases |s| - i
  {
    || (Accepting(st) && AtEnd(s, i))
    || (i < |s| && Step(st, s[i]).Some? && MatchFrom(s, i + 1, Step(st, s[i]).value))
  }

  /** `re.match(r'^[A-Z]{3}\s?\d{2,3}[A-Z]?$', s)` succeeds. */
  predicate MatchesPlatePattern(s: string) {
    MatchFrom(s, 0, Start)
  }

  /** A match from a position where `$` cannot stand reads the next character. */
  lemma Advance(s: string, i: nat, st: MatchState)
    requires i <= |s| && MatchFrom(s, i, st) && !Accepting(st)
    ensures i < |s| && Step(st, s[i]).Some? && MatchFrom(s, i + 1, Step(st, s[i]).value)
  {
  }

  /** A match from a position where `$` may stand ends there or reads the next character. */
  lemma Finish(s: string, i: nat, st: MatchState)
    requires i <= |s| && MatchFrom(s, i, st)
    ensures AtEnd(s, i) || (i < |s| && Step(st, s[i]).Some? && MatchFrom(s, i + 1, Step(st, s[i]).value))
  {
  }

  /** Where the digits starting at `k` end: after a third digit if there is one. */
  function DigitsEnd(s: string, k: nat): nat {
    if k + 2 < |s| && IsDecimalDigit(s[k + 2]) then k + 3 else k + 2
  }

  /** The suffix letter at `e`, if there is one. */
  function SuffixAt(s: string, e: nat): Option<char> {
    if e < |s| && IsPlateLetter(s[e]) then Some(s[e]) else None
  }

  /** The digits and the suffix of a match whose first digit is at `k`, and the `$` after them. */
  lemma MatchedDigits(s: string, k: nat)
    requires k < |s| && IsDecimalDigit(s[k]) && MatchFrom(s, k + 1, InDigits(1))
    ensures k + 2 <= DigitsEnd(s, k) <= k + 3 && DigitsEnd(s, k) <= |s|
    ensures AllDigits(s[k..DigitsEnd(s, k)])
    ensures AtEnd(s, DigitsEnd(s, k) + |OptChar(SuffixAt(s, DigitsEnd(s, k)))|)
  {
    Advance(s, k + 1, InDigits(1));
    Finish(s, k + 2, InDigits(2));
    ClassesDisjoint('\n');
    if AtEnd(s, k + 2) {
    } else if IsDecimalDigit(s[k + 2]) {
      Finish(s, k + 3, InDigits(3));
      if !AtEnd(s, k + 3) {
        ClassesDisjoint(s[k + 3]);
        Finish(s, k + 4, AfterSuffix);
      }
    } else {
      Finish(s, k + 3, AfterSuffix);
    }
    var e := DigitsEnd(s, k);
    assert forall j :: k <= j < e ==> IsDecimalDigit(s[j]);
    assert forall j :: 0 <= j < e - k ==> s[k..e][j] == s[k + j];
  }

  lemma SliceJoin(s: string, i: nat, j: nat, l: nat)
    requires i <= j <= l <= |s|
    ensures s[i..j] + s[j..l] == s[i..l]
  {
  }

  /** Where the digits start: after the separator if the fourth character is whitespace. */
  function DigitsStart(s: string): nat {
    if |s| > 3 && IsWhitespace(s[3]) then 4 else 3
  }

  /** The letters and the separator of a match, and the first digit after them. */
  lemma MatchedLetters(s: string)
    requires MatchesPlatePattern(s)
    ensures DigitsStart(s) < |s| && AllLetters(s[..3])
    ensures IsDecimalDigit(s[DigitsStart(s)]) && MatchFrom(s, DigitsStart(s) + 1, InDigits(1))
  {
    Advance(s, 0, InLetters(0));
    Advance(s, 1, InLetters(1));
    Advance(s, 2, InLetters(2));
    Advance(s, 3, AfterLetters);
    if IsWhitespace(s[3]) {
      Advance(s, 4, AfterSeparator);
    }
    assert s[..3][0] == s[0] && s[..3][1] == s[1] && s[..3][2] == s[2];
  }

  /** Every text the pattern matches is a well-formed split, with at most a final "\n" after it. */
  lemma MatchedIsRendered(s: string)
    requires MatchesPlatePattern(s)
    ensures exists p :: WellFormed(p) && (s == Render(p) || s == Render(p) + "\n")
  {
    MatchedLetters(s);
    var k := DigitsStart(s);
    var sep := if k == 4 then Some(s[3]) else None;
    MatchedDigits(s, k);
    var e := DigitsEnd(s, k);
    var suffix := SuffixAt(s, e);
    var m := e + |OptChar(suffix)|;
    var p := PlateParts(s[..3], sep, s[k..e], suffix);
    assert WellFormed(p);
    assert OptChar(sep) == s[3..k] by {
      if k == 4 {
        assert s[3..k] == [s[3]];
      }
    }
    assert OptChar(suffix) == s[e..m] by {
      if suffix.Some? {
        assert s[e..m] == [s[e]];
      }
    }
    SliceJoin(s, 0, 3, k);
    SliceJoin(s, 0, k, e);
    SliceJoin(s, 0, e, m);
    assert Render(p) == s[..m];
    if m < |s| {
      assert s == s[..m] + "\n";
    }
  }

  /** The pattern matches the text of every well-formed split, with or without a final "\n". */
  lemma RenderedIsMatched(p: PlateParts, t: string)
    requires WellFormed(p) && (t == Render(p) || t == Render(p) + "\n")
    ensures MatchesPlatePattern(t)
  {
    var r := Render(p);
    var k := 3 + |OptChar(p.separator)|;
    var e := k + |p.digits|;
    var m := e + |OptChar(p.suffix)|;
    assert |r| == m && t[..m] == r;
    assert AtEnd(t, m);
    if p.suffix.Some? {
      assert t[e] == p.suffix.value;
      ClassesDisjoint(t[e]);
      assert MatchFrom(t, e + 1, AfterSuffix);
    }
    assert MatchFrom(t, e, InDigits(|p.digits|));
    if |p.digits| == 3 {
      assert t[k + 2] == p.digits[2];
      assert MatchFrom(t, k + 2, InDigits(2));
    }
    assert t[k + 1] == p.digits[1];
    assert MatchFrom(t, k + 1, InDigits(1));
    assert t[k] == p.digits[0];
    ClassesDisjoint(t[k]);
    if p.separator.Some? {
      assert t[3] == p.separator.value;
      assert MatchFrom(t, 4, AfterSeparator);
    }
    assert MatchFrom(t, 3, AfterLetters);
    assert t[2] == p.letters[2] && t[1] == p.letters[1] && t[0] == p.letters[0];
    assert MatchFrom(t, 2, InLetters(2));
    assert MatchFrom(t, 1, InLetters(1));
  }

  /** The pattern test as a language: a well-formed split, optionally followed by one "\n". */
  lemma MatchesPlatePatternIff(s: string)
    ensures MatchesPlatePattern(s) <==>
            exists p :: WellFormed(p) && (s == Render(p) || s == Render(p) + "\n")
  {
    if MatchesPlatePattern(s) {
      MatchedIsRendered(s);
    }
    if exists p :: WellFormed(p) && (s == Render(p) || s == Render(p) + "\n") {
      var p :| WellFormed(p) && (s == Render(p) || s == Render(p) + "\n");
      RenderedIsMatched(p, s);
    }
  }

  /** The word filter of both handlers: grammar match and confidence strictly above 0.5. */
  predicate IsAccepted(text: string, confidence: real) {
    MatchesPlatePattern(text) && confidence > 0.5
  }

  /** `text.replace(" ", "")`: every U+0020 removed, all other characters kept in order. */
  function StripSpaces(s: string): string {
    if |s| == 0 then []
    else (if s[0] == ' ' then [] else [s[0]]) + StripSpaces(s[1..])
  }

  /** The result holds no space, is no longer, and a text without spaces is left as it is. */
  lemma {:induction false} StripSpacesFacts(s: string)
    ensures ' ' !in StripSpaces(s)
    ensures |StripSpaces(s)| <= |s|
    ensures ' ' !in s ==> StripSpaces(s) == s
  {
    if |s| > 0 {
      StripSpacesFacts(s[1..]);
      assert s == [s[0]] + s[1..];
    }
  }

  lemma {:induction false} StripSpacesAppend(a: string, b: string)
    ensures StripSpaces(a + b) == StripSpaces(a) + StripSpaces(b)
  {
    if |a| == 0 {
      assert a + b == b;
    } else {
      assert (a + b)[1..] == a[1..] + b;
      StripSpacesAppend(a[1..], b);
    }
  }

  /**
    The plate a matched text yields: letters, digits and suffix are kept; a
    separator survives unless it is the ASCII space (a tab or a no-break
    space stays in the plate); a trailing "\n" stays too.
  */
  lemma StrippedPlate(p: PlateParts)
    requires WellFormed(p)
    ensures StripSpaces(Render(p)) ==
            p.letters + (if p.separator == Some(' ') then "" else OptChar(p.separator)) + p.digits + OptChar(p.suffix)
  {
    var sep := OptChar(p.separator);
    var suf := OptChar(p.suffix);
    ClassesDisjoint(' ');
    assert ' ' !in p.letters;
    assert ' ' !in p.digits;
    StripSpacesFacts(p.letters);
    StripSpacesFacts(p.digits);
    StripSpacesFacts(suf);
    assert StripSpaces(sep) == (if p.separator == Some(' ') then "" else sep) by {
      if p.separator.Some? {
        assert sep[1..] == [];
      }
    }
    StripSpacesAppend(p.letters + sep + p.digits, suf);
    StripSpacesAppend(p.letters + sep, p.digits);
    StripSpacesAppend(p.letters, sep);
  }

  /** A final "\n" survives the stripping. */
  lemma StrippedNewline(s: string)
    ensures StripSpaces(s + "\n") == StripSpaces(s) + "\n"
  {
    StripSpacesAppend(s, "\n");
    assert "\n"[1..] == [];
  }

  /** A matched text never strips to the empty plate: letters and digits survive. */
  lemma StrippedPlateLength(s: string)
    requires MatchesPlatePattern(s)
    ensures |StripSpaces(s)| >= 5
  {
    MatchesPlatePatternIff(s);
    var p :| WellFormed(p) && (s == Render(p) || s == Render(p) + "\n");
    StrippedPlate(p);
    StrippedNewline(Render(p));
  }

  /** The test plate of the repository is accepted... */
  lemma ExampleSpacedPlate()
    ensures IsAccepted("HET 69A", 0.9)
  {
    var het := PlateParts("HET", Some(' '), "69", Some('A'));
    assert Render(het) == "HET 69A";
    RenderedIsMatched(het, "HET 69A");
  }

  /** ...and its space is stripped. */
  lemma ExampleSpacedPlateStripped()
    ensures StripSpaces("HET 69A") == "HET69A"
  {
    var s := "HET 69A";
    assert s[1..] == "ET 69A" && s[2..] == "T 69A" && s[3..] == " 69A";
    assert s[4..] == "69A" && s[5..] == "9A" && s[6..] == "A";
  }

  /** Compact plates are accepted above the threshold and refused at it. */
  lemma ExampleCompactPlates()
    ensures IsAccepted("ABC12A", 0.95) && IsAccepted("XYZ123", 0.9)
    ensures !IsAccepted("ABC12A", 0.5)
  {
    var abc := PlateParts("ABC", None, "12", Some('A'));
    assert Render(abc) == "ABC12A";
    RenderedIsMatched(abc, "ABC12A");
    var xyz := PlateParts("XYZ", None, "123", None);
    assert Render(xyz) == "XYZ123";
    RenderedIsMatched(xyz, "XYZ123");
  }

  /** Lower-case letters and a fourth digit are refused. */
  lemma ExampleRefusedTexts()
    ensures !MatchesPlatePattern("abc123") && !MatchesPlatePattern("ABC1234")
  {
    assert !IsPlateLetter('a');
    assert !IsPlateLetter('4');
  }

  /** Python's `$` admits one final "\n", and no more. */
  lemma ExampleTrailingNewline()
    ensures MatchesPlatePattern("ABC123\n") && !MatchesPlatePattern("ABC123\n\n")
  {
    var p := PlateParts("ABC", None, "123", None);
    assert Render(p) + "\n" == "ABC123\n";
    RenderedIsMatched(p, "ABC123\n");
    assert !IsPlateLetter('\n');
  }
}
