/**
 * String helpers with the meaning Python's `str` methods give them: `strip`,
 * `rstrip`, `in`, `startswith`, `count`, `replace(old, new, 1)`, `lower`,
 * `title`, `split("/")[-1]` and decimal formatting of integers.
 */
module Text {
  import opened Wrappers

  // ---------------------------------------------------------------------------
  // Character classes
  // ---------------------------------------------------------------------------

  /** The characters Python's `str.isspace` accepts, which `strip()` removes. */
  predicate IsSpace(c: char) {
    c == ' ' || ('\t' <= c <= '\r') || ('\U{1C}' <= c <= '\U{1F}')
    || c == '\U{85}' || c == '\U{A0}' || c == '\U{1680}'
    || ('\U{2000}' <= c <= '\U{200A}') || c == '\U{2028}' || c == '\U{2029}'
    || c == '\U{202F}' || c == '\U{205F}' || c == '\U{3000}'
  }

  /** The bytes `bytes.split()` treats as separators (ASCII whitespace). */
  predicate IsAsciiSpace(c: char) {
    c == ' ' || ('\t' <= c <= '\r')
  }

  predicate IsDigit(c: char) { '0' <= c <= '9' }

  predicate IsUpper(c: char) { 'A' <= c <= 'Z' }

  predicate IsLowerLetter(c: char) { 'a' <= c <= 'z' }

  /** A letter that has case (ASCII model of Python's "cased" characters). */
  predicate IsCased(c: char) { IsUpper(c) || IsLowerLetter(c) }

  function LowerChar(c: char): (r: char)
    ensures !IsUpper(r)
    ensures IsUpper(c) ==> r as int == c as int + 32
    ensures !IsUpper(c) ==> r == c
  {
    if IsUpper(c) then (c as int + 32) as char else c
  }

  function UpperChar(c: char): (r: char)
    ensures !IsLowerLetter(r)
    ensures LowerChar(r) == LowerChar(c)
  {
    if IsLowerLetter(c) then (c as int - 32) as char else c
  }

  // ---------------------------------------------------------------------------
  // lower / title
  // ---------------------------------------------------------------------------

  /** `s.lower()` */
  function Lower(s: string): (r: string)
    ensures |r| == |s|
    ensures forall i :: 0 <= i < |s| ==> r[i] == LowerChar(s[i])
  {
    if s == [] then [] else [LowerChar(s[0])] + Lower(s[1..])
  }

  /** Lower-casing twice is lower-casing once. */
  lemma LowerIdempotent(s: string)
    ensures Lower(Lower(s)) == Lower(s)
  {
    assert forall i :: 0 <= i < |s| ==> LowerChar(LowerChar(s[i])) == LowerChar(s[i]);
  }

  lemma {:induction false} LowerAppend(a: string, b: string)
    ensures Lower(a + b) == Lower(a) + Lower(b)
  {
    if a == [] {
      assert a + b == b;
    } else {
      assert (a + b)[0] == a[0] && (a + b)[1..] == a[1..] + b;
      LowerAppend(a[1..], b);
    }
  }

  /** Upper-case the first cased letter of every run of cased letters and lower-case the rest. */
  function TitleFrom(s: string, afterCased: bool): (r: string)
    ensures |r| == |s|
    ensures forall i :: 0 <= i < |s| ==> LowerChar(r[i]) == LowerChar(s[i])
  {
    if s == [] then []
    else [if afterCased then LowerChar(s[0]) else UpperChar(s[0])] + TitleFrom(s[1..], IsCased(s[0]))
  }

  /** `s.title()` */
  function Title(s: string): (r: string)
    ensures |r| == |s|
    ensures Lower(r) == Lower(s)
  {
    TitleFrom(s, false)
  }

  /**
   * Title-casing character by character: a letter that starts a run of cased
   * letters is upper-cased and every other letter is lower-cased; `afterCased`
   * says whether a cased letter comes just before `s`.
   */
  lemma {:induction false} TitleFromChars(s: string, afterCased: bool)
    ensures forall i :: 0 <= i < |s| ==>
      TitleFrom(s, afterCased)[i]
      == if (i == 0 && !afterCased) || (i > 0 && !IsCased(s[i - 1])) then UpperChar(s[i]) else LowerChar(s[i])
    decreases |s|
  {
    if |s| > 0 {
      TitleFromChars(s[1..], IsCased(s[0]));
      var r := TitleFrom(s, afterCased);
      forall i | 0 < i < |s|
        ensures r[i] == if !IsCased(s[i - 1]) then UpperChar(s[i]) else LowerChar(s[i])
      {
        assert r[i] == TitleFrom(s[1..], IsCased(s[0]))[i - 1];
        assert s[1..][i - 1] == s[i];
        if i > 1 {
          assert s[1..][i - 2] == s[i - 1];
        }
      }
    }
  }

  /** `s.title()` upper-cases each letter that follows no cased letter and lower-cases the others. */
  lemma TitleChars(s: string)
    ensures forall i :: 0 <= i < |s| ==>
      Title(s)[i] == if i == 0 || !IsCased(s[i - 1]) then UpperChar(s[i]) else LowerChar(s[i])
  {
    TitleFromChars(s, false);
    forall i | 0 <= i < |s|
      ensures Title(s)[i] == if i == 0 || !IsCased(s[i - 1]) then UpperChar(s[i]) else LowerChar(s[i])
    {
      assert (i == 0 && !false) || (i > 0 && !IsCased(s[i - 1])) <==> i == 0 || !IsCased(s[i - 1]);
    }
  }

  // ---------------------------------------------------------------------------
  // strip / rstrip
  // ---------------------------------------------------------------------------

  /** `s.rstrip()`: the longest prefix of `s` that does not end in whitespace. */
  function RStrip(s: string): (r: string)
    ensures r <= s
    ensures r == [] || !IsSpace(r[|r| - 1])
  {
    if |s| > 0 && IsSpace(s[|s| - 1]) then RStrip(s[..|s| - 1]) else s
  }

  /** `rstrip()` removes only whitespace. */
  lemma {:induction false} RStripRemovesSpaces(s: string)
    ensures forall i :: |RStrip(s)| <= i < |s| ==> IsSpace(s[i])
    decreases |s|
  {
    if |s| > 0 && IsSpace(s[|s| - 1]) {
      RStripRemovesSpaces(s[..|s| - 1]);
    }
  }

  /** `s.lstrip()`: the longest suffix of `s` that does not start with whitespace. */
  function LStrip(s: string): (r: string)
    ensures |r| <= |s| && r == s[|s| - |r|..]
    ensures r == [] || !IsSpace(r[0])
  {
    if |s| > 0 && IsSpace(s[0]) then LStrip(s[1..]) else s
  }

  /** `lstrip()` removes only whitespace. */
  lemma {:induction false} LStripRemovesSpaces(s: string)
    ensures forall i :: 0 <= i < |s| - |LStrip(s)| ==> IsSpace(s[i])
    decreases |s|
  {
    if |s| > 0 && IsSpace(s[0]) {
      LStripRemovesSpaces(s[1..]);
      assert forall i :: 1 <= i < |s| - |LStrip(s)| ==> s[i] == s[1..][i - 1];
    }
  }

  /** `s.strip()` */
  function Strip(s: string): (r: string)
    ensures r == [] || (!IsSpace(r[0]) && !IsSpace(r[|r| - 1]))
    ensures |r| <= |s|
  {
    LStrip(RStrip(s))
  }

  /**
   * `strip()` removes only surrounding whitespace: the result is the slice
   * `s[a..b]`, and every character before `a` and from `b` on is whitespace.
   */
  lemma StripRemovesSpaces(s: string)
    ensures var b := |RStrip(s)|; var a := b - |Strip(s)|;
      0 <= a <= b <= |s| && Strip(s) == s[a..b]
      && (forall i :: 0 <= i < a ==> IsSpace(s[i]))
      && (forall i :: b <= i < |s| ==> IsSpace(s[i]))
  {
    var t := RStrip(s);
    var b := |t|;
    var a := b - |Strip(s)|;
    RStripRemovesSpaces(s);
    LStripRemovesSpaces(t);
    assert t == s[..b];
    assert Strip(s) == t[a..];
    forall i | 0 <= i < a
      ensures IsSpace(s[i])
    {
      assert t[i] == s[i];
    }
  }

  /** A string that neither starts nor ends with whitespace is its own `strip()`. */
  lemma StripOfStripped(s: string)
    requires s == [] || (!IsSpace(s[0]) && !IsSpace(s[|s| - 1]))
    ensures Strip(s) == s
  {
  }

  /** `strip()` is idempotent. */
  lemma StripIdempotent(s: string)
    ensures Strip(Strip(s)) == Strip(s)
  {
    StripOfStripped(Strip(s));
  }

  /** Every character `rstrip` removes is whitespace, so stripping a stripped string changes nothing. */
  lemma RStripIdempotent(s: string)
    ensures RStrip(RStrip(s)) == RStrip(s)
  {
  }

  // ---------------------------------------------------------------------------
  // Substrings: `in`, `count`, `replace(old, new, 1)`
  // ---------------------------------------------------------------------------

  /** `needle` occurs in `hay` starting at index `i`. */
  predicate OccursAt(hay: string, needle: string, i: int) {
    0 <= i && i + |needle| <= |hay| && hay[i..i + |needle|] == needle
  }

  /** `needle in hay` */
  function Contains(hay: string, needle: string): (r: bool)
    decreases |hay|
  {
    needle <= hay || (|hay| > 0 && Contains(hay[1..], needle))
  }

  /** `needle in hay` holds exactly when there is an index where `needle` starts. */
  lemma {:induction false} ContainsIff(hay: string, needle: string)
    ensures Contains(hay, needle) <==> exists i :: OccursAt(hay, needle, i)
    decreases |hay|
  {
    if needle <= hay {
      assert OccursAt(hay, needle, 0);
    } else if |hay| > 0 {
      ContainsIff(hay[1..], needle);
      if Contains(hay[1..], needle) {
        var i :| OccursAt(hay[1..], needle, i);
        assert hay[1..][i..i + |needle|] == hay[i + 1..i + 1 + |needle|];
        assert OccursAt(hay, needle, i + 1);
      }
      if i :| OccursAt(hay, needle, i) {
        assert i != 0;
        assert hay[1..][i - 1..i - 1 + |needle|] == hay[i..i + |needle|];
        assert OccursAt(hay[1..], needle, i - 1);
      }
    } else {
      assert |needle| > 0;
    }
  }

  /** The index of the first occurrence of `needle` in `hay` (Python's `hay.find(needle)`). */
  function FindFirst(hay: string, needle: string): (r: Option<nat>)
    ensures r.Some? ==> OccursAt(hay, needle, r.value)
    decreases |hay|
  {
    if needle <= hay then Some(0)
    else if |hay| == 0 then None
    else match FindFirst(hay[1..], needle)
      case None => None
      case Some(k) =>
        assert OccursAt(hay, needle, k + 1) by {
          OccursShift(hay, needle, k + 1);
        }
        Some(k + 1)
  }

  /** `find` reports the leftmost occurrence, and reports none only when there is none. */
  lemma {:induction false} FindFirstLeftmost(hay: string, needle: string)
    ensures FindFirst(hay, needle).Some? ==> forall j :: 0 <= j < FindFirst(hay, needle).value ==> !OccursAt(hay, needle, j)
    ensures FindFirst(hay, needle).None? ==> forall j :: !OccursAt(hay, needle, j)
    decreases |hay|
  {
    if !(needle <= hay) && |hay| > 0 {
      FindFirstLeftmost(hay[1..], needle);
      forall j | 0 < j {
        OccursShift(hay, needle, j);
      }
    }
  }

  /** An occurrence at `j > 0` is an occurrence at `j - 1` in the text without its first character. */
  lemma OccursShift(hay: string, needle: string, j: int)
    requires |hay| > 0 && j > 0
    ensures OccursAt(hay, needle, j) <==> OccursAt(hay[1..], needle, j - 1)
  {
    if j + |needle| <= |hay| {
      assert hay[1..][j - 1..j - 1 + |needle|] == hay[j..j + |needle|];
    }
  }

  /** `hay.count(needle)`: non-overlapping occurrences scanned left to right; `|hay| + 1` for "". */
  function Count(hay: string, needle: string): nat
    decreases |hay|
  {
    if |needle| == 0 then |hay| + 1
    else if needle <= hay then 1 + Count(hay[|needle|..], needle)
    else if |hay| == 0 then 0
    else Count(hay[1..], needle)
  }

  /** `count` is positive exactly when the text occurs at all. */
  lemma {:induction false} CountPositiveIff(hay: string, needle: string)
    ensures Count(hay, needle) > 0 <==> Contains(hay, needle)
    decreases |hay|
  {
    if |needle| == 0 {
      assert needle <= hay;
    } else if needle <= hay {
    } else if |hay| > 0 {
      CountPositiveIff(hay[1..], needle);
    }
  }

  /** `s.replace(old, new, 1)` */
  function ReplaceFirst(s: string, target: string, replacement: string): (r: string)
    ensures FindFirst(s, target).None? ==> r == s
    ensures FindFirst(s, target).Some? ==>
      var i := FindFirst(s, target).value;
      r == s[..i] + replacement + s[i + |target|..] && s == s[..i] + target + s[i + |target|..]
  {
    match FindFirst(s, target)
    case None => s
    case Some(i) => s[..i] + replacement + s[i + |target|..]
  }

  // ---------------------------------------------------------------------------
  // split("/")[-1]
  // ---------------------------------------------------------------------------

  /** `s.split(sep)[-1]`: the text after the last `sep`, or all of `s` when it has none. */
  function AfterLast(s: string, sep: char): (r: string)
    ensures |r| <= |s| && r == s[|s| - |r|..]
    ensures sep !in r
    ensures |r| < |s| ==> s[|s| - |r| - 1] == sep
  {
    if |s| == 0 then []
    else if s[|s| - 1] == sep then []
    else
      var r := AfterLast(s[..|s| - 1], sep);
      assert s[..|s| - 1][|s| - 1 - |r|..] + [s[|s| - 1]] == s[|s| - 1 - |r|..];
      r + [s[|s| - 1]]
  }

  /** Taking the last segment twice gives the same result as once. */
  lemma AfterLastIdempotent(s: string, sep: char)
    ensures AfterLast(AfterLast(s, sep), sep) == AfterLast(s, sep)
  {
    var r := AfterLast(s, sep);
    NoSepAfterLast(r, sep);
  }

  /** A string without the separator is its own last segment. */
  lemma {:induction false} NoSepAfterLast(s: string, sep: char)
    requires sep !in s
    ensures AfterLast(s, sep) == s
  {
    if |s| > 0 {
      assert s[..|s| - 1] + [s[|s| - 1]] == s;
      NoSepAfterLast(s[..|s| - 1], sep);
    }
  }

  /** The last segment of text ending in `sep` followed by a separator-free tail is that tail. */
  lemma {:induction false} AfterLastOfJoined(a: string, sep: char, b: string)
    requires sep !in b
    ensures AfterLast(a + [sep] + b, sep) == b
    decreases |b|
  {
    var s := a + [sep] + b;
    if |b| > 0 {
      assert s[..|s| - 1] == a + [sep] + b[..|b| - 1];
      AfterLastOfJoined(a, sep, b[..|b| - 1]);
      assert b[..|b| - 1] + [s[|s| - 1]] == b;
    }
  }

  // ---------------------------------------------------------------------------
  // Splitting on a character and joining
  // ---------------------------------------------------------------------------

  /** `s.split(sep)` for a one-character separator: always at least one piece. */
  function Split(s: string, sep: char): (r: seq<string>)
    ensures |r| >= 1
    ensures forall k :: 0 <= k < |r| ==> sep !in r[k]
    decreases |s|
  {
    if |s| == 0 then [[]]
    else
      var rest := Split(s[1..], sep);
      if s[0] == sep then [[]] + rest
      else [[s[0]] + rest[0]] + rest[1..]
  }

  /** `sep.join(parts)` */
  function Join(parts: seq<string>, sep: string): string
  {
    if |parts| == 0 then []
    else if |parts| == 1 then parts[0]
    else parts[0] + sep + Join(parts[1..], sep)
  }

  /** Splitting the joined text gives back the pieces, provided no piece holds the separator. */
  lemma {:induction false} SplitJoin(parts: seq<string>, sep: char)
    requires |parts| >= 1
    requires forall k :: 0 <= k < |parts| ==> sep !in parts[k]
    ensures Split(Join(parts, [sep]), sep) == parts
    decreases |parts|, |parts[0]|
  {
    var p := parts[0];
    if |p| == 0 {
      if |parts| == 1 {
      } else {
        var s := Join(parts, [sep]);
        assert s == [sep] + Join(parts[1..], [sep]);
        assert s[1..] == Join(parts[1..], [sep]);
        SplitJoin(parts[1..], sep);
        assert parts == [[]] + parts[1..];
      }
    } else {
      var parts' := [p[1..]] + parts[1..];
      assert parts'[1..] == parts[1..];
      var s := Join(parts, [sep]);
      assert Join(parts', [sep]) == s[1..] by {
        if |parts| == 1 {
        } else {
          assert s == p + [sep] + Join(parts[1..], [sep]);
        }
      }
      assert s[0] == p[0];
      SplitJoin(parts', sep);
      assert [p[0]] + p[1..] == p;
      assert [[p[0]] + p[1..]] + parts[1..] == parts;
    }
  }

  /** The split has a single piece exactly when `sep` does not occur. */
  lemma {:induction false} SplitSinglePiece(s: string, sep: char)
    ensures |Split(s, sep)| == 1 <==> sep !in s
    decreases |s|
  {
    if |s| > 0 {
      SplitSinglePiece(s[1..], sep);
      assert sep in s <==> s[0] == sep || sep in s[1..] by {
        assert s == [s[0]] + s[1..];
      }
    }
  }

  /** Text without the separator splits into itself alone. */
  lemma {:induction false} SplitNoSep(s: string, sep: char)
    requires sep !in s
    ensures Split(s, sep) == [s]
    decreases |s|
  {
    if |s| > 0 {
      SplitNoSep(s[1..], sep);
      assert [s[0]] + s[1..] == s;
    }
  }

  /** Once a separator follows the first character, the first character does not reach the last piece. */
  lemma SplitKeepsLastPiece(s: string, sep: char)
    requires |s| > 0 && (s[0] == sep || |Split(s[1..], sep)| > 1)
    ensures var pieces, rest := Split(s, sep), Split(s[1..], sep);
      pieces[|pieces| - 1] == rest[|rest| - 1]
  {
    var rest := Split(s[1..], sep);
    if s[0] == sep {
      assert Split(s, sep) == [[]] + rest;
    } else {
      assert Split(s, sep) == [[s[0]] + rest[0]] + rest[1..];
    }
  }

  /** The last piece of the split is the last segment. */
  lemma {:induction false} SplitLastIsAfterLast(s: string, sep: char)
    ensures var pieces := Split(s, sep); pieces[|pieces| - 1] == AfterLast(s, sep)
    decreases |s|
  {
    if sep !in s {
      SplitNoSep(s, sep);
      NoSepAfterLast(s, sep);
    } else {
      assert s[0] == sep || sep in s[1..] by {
        assert s == [s[0]] + s[1..];
      }
      SplitLastIsAfterLast(s[1..], sep);
      SplitSinglePiece(s[1..], sep);
      SplitKeepsLastPiece(s, sep);
      AfterLastSkipsFirst(s, sep);
    }
  }

  /**
   * `AfterLast` is `split(sep)[-1]`: it is the last piece of the split, and the
   * split has a single piece, the whole text, exactly when `sep` does not occur.
   */
  lemma SplitLastPiece(s: string, sep: char)
    ensures var pieces := Split(s, sep);
      pieces[|pieces| - 1] == AfterLast(s, sep)
      && (|pieces| == 1 <==> sep !in s)
      && (|pieces| == 1 ==> pieces[0] == s)
  {
    SplitLastIsAfterLast(s, sep);
    SplitSinglePiece(s, sep);
    if sep !in s {
      NoSepAfterLast(s, sep);
    }
  }

  /** When the separator occurs at the front or later, dropping the first character keeps the last segment. */
  lemma AfterLastSkipsFirst(s: string, sep: char)
    requires |s| > 0 && (s[0] == sep || sep in s[1..])
    ensures AfterLast(s, sep) == AfterLast(s[1..], sep)
  {
    var r := AfterLast(s[1..], sep);
    assert s[|s| - |r|..] == s[1..][|s| - 1 - |r|..];
    if |r| == |s| - 1 {
      assert r == s[1..];
    } else {
      assert s[|s| - |r| - 1] == s[1..][|s| - 1 - |r| - 1];
    }
    AfterLastUnique(s, sep, r);
  }

  /** No character from index `a` on is the separator. */
  ghost predicate SepFreeFrom(s: string, sep: char, a: nat) {
    forall j :: a <= j < |s| ==> s[j] != sep
  }

  /** A suffix without `sep` that follows a separator or is the whole text starts at one place only. */
  lemma SepFreeStartUnique(s: string, sep: char, a: nat, b: nat)
    requires a <= |s| && b <= |s|
    requires SepFreeFrom(s, sep, a) && SepFreeFrom(s, sep, b)
    requires a > 0 ==> s[a - 1] == sep
    requires b > 0 ==> s[b - 1] == sep
    ensures a == b
  {
  }

  /** A suffix of `s` without `sep` starts where nothing after it is `sep`. */
  lemma SuffixSepFree(s: string, sep: char, r: string)
    requires |r| <= |s| && r == s[|s| - |r|..] && sep !in r
    ensures SepFreeFrom(s, sep, |s| - |r|)
  {
    forall j | |s| - |r| <= j < |s| ensures s[j] != sep {
      assert s[j] == r[j - (|s| - |r|)];
    }
  }

  /** Two separator-free suffixes that each are the whole text or follow a separator are equal. */
  lemma SepFreeSuffixUnique(s: string, sep: char, r: string, t: string)
    requires |r| <= |s| && r == s[|s| - |r|..] && sep !in r
    requires |r| < |s| ==> s[|s| - |r| - 1] == sep
    requires |t| <= |s| && t == s[|s| - |t|..] && sep !in t
    requires |t| < |s| ==> s[|s| - |t| - 1] == sep
    ensures r == t
  {
    SuffixSepFree(s, sep, t);
    SuffixSepFree(s, sep, r);
    SepFreeStartUnique(s, sep, |s| - |t|, |s| - |r|);
  }

  /**
   * The last segment is the only suffix without the separator that is the
   * whole text or follows a separator.
   */
  lemma AfterLastUnique(s: string, sep: char, r: string)
    requires |r| <= |s| && r == s[|s| - |r|..] && sep !in r
    requires |r| < |s| ==> s[|s| - |r| - 1] == sep
    ensures r == AfterLast(s, sep)
  {
    SepFreeSuffixUnique(s, sep, r, AfterLast(s, sep));
  }

  // ---------------------------------------------------------------------------
  // Decimal numbers
  // ---------------------------------------------------------------------------

  function DigitChar(d: nat): (c: char)
    requires d < 10
    ensures IsDigit(c)
  {
    ('0' as int + d) as char
  }

  function DigitValue(c: char): (d: nat)
    requires IsDigit(c)
    ensures d < 10
  {
    c as int - '0' as int
  }

  /** `str(n)` for a natural number: decimal digits, no leading zeros. */
  function NatToString(n: nat): (r: string)
    ensures |r| >= 1
    ensures forall i :: 0 <= i < |r| ==> IsDigit(r[i])
    ensures |r| > 1 ==> r[0] != '0'
    ensures n < 10 ==> |r| == 1
    ensures 10 <= n < 100 ==> |r| == 2
    ensures 100 <= n < 1000 ==> |r| == 3
    ensures 1000 <= n < 10000 ==> |r| == 4
    decreases n
  {
    if n < 10 then [DigitChar(n)] else NatToString(n / 10) + [DigitChar(n % 10)]
  }

  /** The value of a string of decimal digits (`int(s)` on digits). */
  function ParseNat(s: string): nat
    requires forall i :: 0 <= i < |s| ==> IsDigit(s[i])
    decreases |s|
  {
    if |s| == 0 then 0 else ParseNat(s[..|s| - 1]) * 10 + DigitValue(s[|s| - 1])
  }

  /** Reading back a formatted number gives the number. */
  lemma {:induction false} ParseNatToString(n: nat)
    ensures ParseNat(NatToString(n)) == n
    decreases n
  {
    if n >= 10 {
      var s := NatToString(n);
      assert s[..|s| - 1] == NatToString(n / 10);
      ParseNatToString(n / 10);
    }
  }

  /** `f"{n:02d}"` for a natural number. */
  function Pad2(n: nat): (r: string)
    ensures |r| >= 2
    ensures forall i :: 0 <= i < |r| ==> IsDigit(r[i])
    ensures n < 100 ==> |r| == 2
  {
    if n < 10 then "0" + NatToString(n) else NatToString(n)
  }

  lemma Pad2Value(n: nat)
    ensures ParseNat(Pad2(n)) == n
  {
    ParseNatToString(n);
    if n < 10 {
      assert Pad2(n)[..1] == "0";
    }
  }

  // ---------------------------------------------------------------------------
  // Reading text files: universal newlines
  // ---------------------------------------------------------------------------

  /** How many characters the first line ending or character of `s` takes: two for "\r\n". */
  function LeadWidth(s: string): (w: nat)
    requires s != []
    ensures 1 <= w <= |s|
  {
    if s[0] == '\r' && |s| > 1 && s[1] == '\n' then 2 else 1
  }

  /** What the first line ending or character of `s` reads as. */
  function LeadText(s: string): (t: string)
    requires s != []
    ensures t == "\n" <==> s[0] == '\r' || s[0] == '\n'
  {
    if s[0] == '\r' then "\n" else [s[0]]
  }

  /**
   * What a file opened in text mode reads as: each "\r\n" and each lone "\r"
   * becomes "\n", scanning from the left.
   */
  function UniversalNewlines(s: string): (r: string)
    ensures |r| <= |s|
    ensures r == [] <==> s == []
  {
    if s == [] then [] else LeadText(s) + UniversalNewlines(s[LeadWidth(s)..])
  }

  /** No carriage return survives the reading. */
  lemma {:induction false} UniversalNewlinesNoCR(s: string)
    ensures '\r' !in UniversalNewlines(s)
    decreases |s|
  {
    if s != [] {
      UniversalNewlinesNoCR(s[LeadWidth(s)..]);
    }
  }

  /** Text without a carriage return reads back unchanged. */
  lemma {:induction false} UniversalNewlinesKeeps(s: string)
    requires '\r' !in s
    ensures UniversalNewlines(s) == s
    decreases |s|
  {
    if s != [] {
      var t := s[1..];
      assert s == [s[0]] + t;
      assert '\r' !in t;
      UniversalNewlinesKeeps(t);
    }
  }

  /** Text reads back unchanged exactly when it holds no carriage return. */
  lemma UniversalNewlinesFixedIff(s: string)
    ensures UniversalNewlines(s) == s <==> '\r' !in s
  {
    UniversalNewlinesNoCR(s);
    if '\r' !in s {
      UniversalNewlinesKeeps(s);
    }
  }

  /** Reading twice translates nothing more. */
  lemma UniversalNewlinesIdempotent(s: string)
    ensures UniversalNewlines(UniversalNewlines(s)) == UniversalNewlines(s)
  {
    UniversalNewlinesNoCR(s);
    UniversalNewlinesKeeps(UniversalNewlines(s));
  }

  /** One step of the reading: the leading character or line ending, then the rest. */
  lemma UniversalNewlinesStep(s: string)
    requires s != []
    ensures UniversalNewlines(s) == LeadText(s) + UniversalNewlines(s[LeadWidth(s)..])
  {
  }

  /** Appending after a piece that does not end in "\r" leaves its leading step alone. */
  lemma LeadOfAppend(a: string, b: string)
    requires a != [] && a[|a| - 1] != '\r'
    ensures LeadWidth(a + b) == LeadWidth(a) && LeadText(a + b) == LeadText(a)
    ensures (a + b)[LeadWidth(a)..] == a[LeadWidth(a)..] + b
  {
    assert (a + b)[0] == a[0];
    if a[0] == '\r' {
      assert |a| > 1 && (a + b)[1] == a[1];
    }
  }

  lemma AppendAssoc(x: string, y: string, z: string)
    ensures x + (y + z) == (x + y) + z
  {
  }

  /** Translation works piecewise, unless the first piece ends in "\r" (which could pair with a "\n"). */
  lemma {:induction false} UniversalNewlinesAppend(a: string, b: string)
    requires a == [] || a[|a| - 1] != '\r'
    ensures UniversalNewlines(a + b) == UniversalNewlines(a) + UniversalNewlines(b)
    decreases |a|
  {
    if a == [] {
      assert a + b == b;
    } else {
      LeadOfAppend(a, b);
      var rest := a[LeadWidth(a)..];
      UniversalNewlinesAppend(rest, b);
      UniversalNewlinesStep(a + b);
      UniversalNewlinesStep(a);
      AppendAssoc(LeadText(a), UniversalNewlines(rest), UniversalNewlines(b));
    }
  }

  /** A Windows line ending and a lone carriage return both read as "\n". */
  lemma UniversalNewlinesExamples()
    ensures UniversalNewlines("a\r\nb") == "a\nb"
    ensures UniversalNewlines("x\r") == "x\n"
  {
    assert "a\r\nb"[1..] == "\r\nb" && "\r\nb"[2..] == "b" && "b"[1..] == [];
    assert "x\r"[1..] == "\r" && "\r"[1..] == [];
  }
}
