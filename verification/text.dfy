/** Character and string rules shared by the client (JavaScript) and the server (Python):
    whitespace classes, trimming, ASCII lower-casing, splitting on a separator, joining,
    whitespace-separated words, substring search and decimal rendering of integers. */
module Text {

  /** Whose notion of whitespace applies: Python's `str.isspace` (used by `strip` and
      the argument-less `split`) or JavaScript's WhiteSpace and LineTerminator
      productions (used by `String.prototype.trim` and `parseInt`). */
  datatype Whitespace = Python | JavaScript

  /** Characters both languages treat as whitespace. */
  predicate IsCommonSpace(c: char) {
    || c == ' ' || c == '\t' || c == '\n' || c == '\r' || c == '\U{B}' || c == '\U{C}'
    || c == '\U{A0}' || c == '\U{1680}' || ('\U{2000}' <= c <= '\U{200A}')
    || c == '\U{2028}' || c == '\U{2029}' || c == '\U{202F}' || c == '\U{205F}' || c == '\U{3000}'
  }

  predicate IsSpace(w: Whitespace, c: char) {
    match w
    case Python => IsCommonSpace(c) || ('\U{1C}' <= c <= '\U{1F}') || c == '\U{85}'
    case JavaScript => IsCommonSpace(c) || c == '\U{FEFF}'
  }

  predicate AllSpace(w: Whitespace, s: string) {
    forall i :: 0 <= i < |s| ==> IsSpace(w, s[i])
  }

  predicate NoSpace(w: Whitespace, s: string) {
    forall i :: 0 <= i < |s| ==> !IsSpace(w, s[i])
  }

  /** Neither end of `s` is whitespace: what stripping guarantees. */
  predicate IsTrimmed(w: Whitespace, s: string) {
    s == [] || (!IsSpace(w, s[0]) && !IsSpace(w, s[|s| - 1]))
  }

  /** `a` is what remains of `s` once a whitespace run is cut from its start, and it
      does not start with whitespace itself. */
  predicate StartCut(w: Whitespace, s: string, a: string) {
    |a| <= |s| && a == s[|s| - |a|..] && AllSpace(w, s[..|s| - |a|]) && (a == [] || !IsSpace(w, a[0]))
  }

  /** `r` is what remains of `a` once a whitespace run is cut from its end, and it does
      not end with whitespace itself. */
  predicate EndCut(w: Whitespace, a: string, r: string) {
    |r| <= |a| && r == a[..|r|] && AllSpace(w, a[|r|..]) && (r == [] || !IsSpace(w, r[|r| - 1]))
  }

  /** `s` is `r` with `i` whitespace characters before it and only whitespace after it. */
  predicate PaddedAt(w: Whitespace, s: string, r: string, i: int) {
    0 <= i <= |s| - |r| && r == s[i..i + |r|] && AllSpace(w, s[..i]) && AllSpace(w, s[i + |r|..])
  }

  /** `s` without its leading whitespace. */
  function TrimStart(w: Whitespace, s: string): (r: string)
    ensures StartCut(w, s, r)
    decreases |s|
  {
    if |s| > 0 && IsSpace(w, s[0]) then
      var r := TrimStart(w, s[1..]);
      TrimStartStep(w, s, r);
      r
    else s
  }

  /** `s` without its trailing whitespace. */
  function TrimEnd(w: Whitespace, s: string): (r: string)
    ensures EndCut(w, s, r)
    decreases |s|
  {
    if |s| > 0 && IsSpace(w, s[|s| - 1]) then
      var r := TrimEnd(w, s[..|s| - 1]);
      TrimEndStep(w, s, r);
      r
    else s
  }

  lemma TrimStartStep(w: Whitespace, s: string, r: string)
    requires |s| > 0 && IsSpace(w, s[0])
    requires |r| <= |s| - 1 && r == s[1..][|s| - 1 - |r|..]
    requires AllSpace(w, s[1..][..|s| - 1 - |r|])
    ensures r == s[|s| - |r|..]
    ensures AllSpace(w, s[..|s| - |r|])
  {
    assert s[1..][|s| - 1 - |r|..] == s[|s| - |r|..];
    var dropped := s[..|s| - |r|];
    var later := s[1..][..|s| - 1 - |r|];
    forall i | 0 <= i < |dropped| ensures IsSpace(w, dropped[i]) {
      if i > 0 {
        assert dropped[i] == later[i - 1];
      }
    }
  }

  lemma TrimEndStep(w: Whitespace, s: string, r: string)
    requires |s| > 0 && IsSpace(w, s[|s| - 1])
    requires |r| <= |s| - 1 && r == s[..|s| - 1][..|r|]
    requires AllSpace(w, s[..|s| - 1][|r|..])
    ensures r == s[..|r|]
    ensures AllSpace(w, s[|r|..])
  {
    assert s[..|s| - 1][..|r|] == s[..|r|];
    var dropped := s[|r|..];
    var earlier := s[..|s| - 1][|r|..];
    forall i | 0 <= i < |dropped| ensures IsSpace(w, dropped[i]) {
      if i < |earlier| {
        assert dropped[i] == earlier[i];
      }
    }
  }

  /** Python's `str.strip()` (w = Python) and JavaScript's `String.prototype.trim()`
      (w = JavaScript): whitespace removed from both ends, nothing else touched. */
  function Trim(w: Whitespace, s: string): (r: string)
    ensures IsTrimmed(w, r)
    ensures r == [] <==> AllSpace(w, s)
    ensures IsTrimmed(w, s) ==> r == s
    ensures |r| <= |s|
    ensures exists i :: PaddedAt(w, s, r, i)
  {
    var a := TrimStart(w, s);
    TrimCuts(w, s, a, TrimEnd(w, a));
    TrimEnd(w, a)
  }

  /** `s` cut into leading whitespace and `a`, and `a` cut into `r` and trailing
      whitespace: `r` is trimmed, empty exactly when `s` is blank, `s` itself when `s`
      was trimmed, and an infix of `s` between two whitespace runs. */
  lemma TrimCuts(w: Whitespace, s: string, a: string, r: string)
    requires StartCut(w, s, a) && EndCut(w, a, r)
    ensures IsTrimmed(w, r)
    ensures r == [] <==> AllSpace(w, s)
    ensures IsTrimmed(w, s) ==> r == s
    ensures |r| <= |s|
    ensures exists i :: PaddedAt(w, s, r, i)
  {
    if r != [] {
      assert r[0] == a[0];
    }
    TrimBlank(w, s, a, r);
    TrimmedUncut(w, s, a, r);
    TrimInfix(w, s, a, r);
  }

  /** Where the cuts fall: `r` sits in `s` right after the leading whitespace. */
  lemma TrimInfix(w: Whitespace, s: string, a: string, r: string)
    requires StartCut(w, s, a) && EndCut(w, a, r)
    ensures exists i :: PaddedAt(w, s, r, i)
  {
    var i := |s| - |a|;
    assert s[i + |r|..] == a[|r|..];
    assert PaddedAt(w, s, r, i);
  }

  /** Nothing is left of `s` exactly when it is all whitespace. */
  lemma TrimBlank(w: Whitespace, s: string, a: string, r: string)
    requires StartCut(w, s, a) && EndCut(w, a, r)
    ensures r == [] <==> AllSpace(w, s)
  {
    assert |r| < |a| ==> a[|r|..][0] == a[|r|];
    assert a != [] ==> a[0] == s[|s| - |a|];
    assert s[..|s| - 0] == s;
  }

  /** A trimmed text loses nothing at either cut. */
  lemma TrimmedUncut(w: Whitespace, s: string, a: string, r: string)
    requires StartCut(w, s, a) && EndCut(w, a, r)
    ensures IsTrimmed(w, s) ==> r == s
  {
    if IsTrimmed(w, s) && s != [] {
      assert a == s;
    }
  }

  /** ASCII lower-casing of one character; other characters are left alone. */
  function LowerChar(c: char): char {
    if 'A' <= c <= 'Z' then (c as int + 32) as char else c
  }

  predicate IsLowerCase(s: string) {
    forall i :: 0 <= i < |s| ==> LowerChar(s[i]) == s[i]
  }

  /** Python's `str.lower()` restricted to ASCII letters. */
  function Lower(s: string): (r: string)
    ensures |r| == |s|
    ensures forall i :: 0 <= i < |s| ==> r[i] == LowerChar(s[i])
    ensures IsLowerCase(r)
  {
    seq(|s|, i requires 0 <= i < |s| => LowerChar(s[i]))
  }

  /** Lower-casing neither creates nor removes whitespace. */
  lemma LowerKeepsTrimmed(w: Whitespace, s: string)
    requires IsTrimmed(w, s)
    ensures IsTrimmed(w, Lower(s))
  {}

  /** Number of occurrences of `c` in `s`. */
  function Count(s: string, c: char): nat
    decreases |s|
  {
    if |s| == 0 then 0 else (if s[0] == c then 1 else 0) + Count(s[1..], c)
  }

  /** `parts` concatenated with `sep` between neighbours (Python's `sep.join`,
      JavaScript's `Array.prototype.join` on strings). */
  function JoinWith(parts: seq<string>, sep: string): string
    decreases |parts|
  {
    if |parts| == 0 then ""
    else if |parts| == 1 then parts[0]
    else parts[0] + sep + JoinWith(parts[1..], sep)
  }

  /** Splitting on a one-character separator, as Python's `str.split(sep)` and
      JavaScript's `String.prototype.split(sep)` both do: one piece more than there
      are separators, empty pieces kept. */
  function Split(s: string, sep: char): (r: seq<string>)
    ensures |r| == Count(s, sep) + 1
    ensures forall i :: 0 <= i < |r| ==> sep !in r[i]
    decreases |s|
  {
    if |s| == 0 then [""]
    else
      var rest := Split(s[1..], sep);
      if s[0] == sep then [""] + rest
      else [[s[0]] + rest[0]] + rest[1..]
  }

  /** Joining the pieces back with the separator restores the input. */
  lemma {:induction false} SplitThenJoin(s: string, sep: char)
    ensures JoinWith(Split(s, sep), [sep]) == s
    decreases |s|
  {
    if |s| > 0 {
      var rest := Split(s[1..], sep);
      SplitThenJoin(s[1..], sep);
      if s[0] == sep {
        assert ([""] + rest)[1..] == rest;
        assert s == [sep] + s[1..];
      } else {
        var parts := [[s[0]] + rest[0]] + rest[1..];
        if |rest| == 1 {
          assert JoinWith(parts, [sep]) == [s[0]] + rest[0];
        } else {
          assert parts[1..] == rest[1..];
          assert JoinWith(rest, [sep]) == rest[0] + [sep] + JoinWith(rest[1..], [sep]);
        }
        assert s == [s[0]] + s[1..];
      }
    }
  }

  /** Splitting a join of separator-free pieces gives the pieces back. */
  lemma {:induction false} JoinThenSplit(parts: seq<string>, sep: char)
    requires |parts| >= 1
    requires forall i :: 0 <= i < |parts| ==> sep !in parts[i]
    ensures Split(JoinWith(parts, [sep]), sep) == parts
    decreases |parts|, |parts[0]|
  {
    var p := parts[0];
    if |p| == 0 {
      if |parts| > 1 {
        JoinThenSplit(parts[1..], sep);
        var j := JoinWith(parts, [sep]);
        assert j == [sep] + JoinWith(parts[1..], [sep]);
        assert j[1..] == JoinWith(parts[1..], [sep]);
        assert parts == [""] + parts[1..];
      }
    } else {
      var shorter := [p[1..]] + parts[1..];
      JoinThenSplit(shorter, sep);
      var j := JoinWith(parts, [sep]);
      var j' := JoinWith(shorter, [sep]);
      assert shorter[1..] == parts[1..];
      assert j == [p[0]] + j' by {
        assert p == [p[0]] + p[1..];
      }
      assert j[1..] == j';
      assert p[0] != sep by { assert p[0] in p; }
      assert shorter[0] == p[1..];
      assert [p[0]] + shorter[0] == p;
      assert parts == [p] + parts[1..];
      assert parts == [[p[0]] + shorter[0]] + shorter[1..];
    }
  }

  /** Length of the maximal run of non-whitespace characters at the start of `s`. */
  function WordLength(w: Whitespace, s: string): (k: nat)
    ensures k <= |s|
    ensures NoSpace(w, s[..k])
    ensures k == |s| || IsSpace(w, s[k])
    decreases |s|
  {
    if |s| == 0 || IsSpace(w, s[0]) then 0 else 1 + WordLength(w, s[1..])
  }

  /** A word ends where whitespace (or the text) begins, whatever follows. */
  lemma {:induction false} WordLengthPrefix(w: Whitespace, a: string, t: string)
    requires t == [] || IsSpace(w, t[0])
    ensures WordLength(w, a + t) == WordLength(w, a)
    decreases |a|
  {
    if |a| == 0 {
      assert a + t == t;
    } else if !IsSpace(w, a[0]) {
      assert (a + t)[1..] == a[1..] + t;
      WordLengthPrefix(w, a[1..], t);
    } else {
      assert (a + t)[0] == a[0];
    }
  }

  /** The first word of a word followed by whitespace (or nothing) is that word. */
  lemma WordLengthOfWord(w: string, tail: string)
    requires NoSpace(Python, w)
    requires tail == [] || IsSpace(Python, tail[0])
    ensures WordLength(Python, w + tail) == |w|
  {
    WordLengthPrefix(Python, w, tail);
    WordLengthAll(w);
  }

  lemma {:induction false} WordLengthAll(w: string)
    requires NoSpace(Python, w)
    ensures WordLength(Python, w) == |w|
    decreases |w|
  {
    if |w| > 0 {
      WordLengthAll(w[1..]);
    }
  }

  /** Python's argument-less `str.split()`: the maximal runs of non-whitespace. */
  function Words(s: string): (r: seq<string>)
    ensures forall i :: 0 <= i < |r| ==> r[i] != [] && NoSpace(Python, r[i])
    decreases |s|
  {
    if |s| == 0 then []
    else if IsSpace(Python, s[0]) then Words(s[1..])
    else
      var k := WordLength(Python, s);
      [s[..k]] + Words(s[k..])
  }

  /** A non-empty text without whitespace is a single word. */
  lemma WordsOfWord(w: string)
    requires w != [] && NoSpace(Python, w)
    ensures Words(w) == [w]
  {
    WordLengthAll(w);
    assert w[..|w|] == w && w[|w|..] == [];
  }

  /** A whitespace character always separates words: the words of `a`, then those of
      `b`, with nothing merged across it. */
  lemma {:induction false} WordsSplitAtSpace(a: string, c: char, b: string)
    requires IsSpace(Python, c)
    ensures Words(a + [c] + b) == Words(a) + Words(b)
    decreases |a|
  {
    var s := a + [c] + b;
    if |a| == 0 {
      assert s[1..] == b;
    } else if IsSpace(Python, a[0]) {
      assert s[1..] == a[1..] + [c] + b;
      WordsSplitAtSpace(a[1..], c, b);
    } else {
      var k := WordLength(Python, a);
      assert s == a + ([c] + b);
      WordLengthPrefix(Python, a, [c] + b);
      assert s[..k] == a[..k];
      assert s[k..] == a[k..] + [c] + b;
      WordsSplitAtSpace(a[k..], c, b);
      assert Words(s) == [a[..k]] + (Words(a[k..]) + Words(b));
    }
  }

  /** Leading whitespace holds no word. */
  lemma {:induction false} WordsSkipSpace(gap: string, b: string)
    requires AllSpace(Python, gap)
    ensures Words(gap + b) == Words(b)
    decreases |gap|
  {
    if |gap| == 0 {
      assert gap + b == b;
    } else {
      assert (gap + b)[1..] == gap[1..] + b;
      WordsSkipSpace(gap[1..], b);
    }
  }

  /** Joining two non-empty lists is joining each and putting the separator between. */
  lemma {:induction false} JoinConcat(xs: seq<string>, ys: seq<string>, sep: string)
    requires |xs| > 0 && |ys| > 0
    ensures JoinWith(xs + ys, sep) == JoinWith(xs, sep) + sep + JoinWith(ys, sep)
    decreases |xs|
  {
    if |xs| == 1 {
      assert (xs + ys)[1..] == ys;
    } else {
      assert (xs + ys)[1..] == xs[1..] + ys;
      JoinConcat(xs[1..], ys, sep);
      assert JoinWith(xs + ys, sep) == xs[0] + sep + (JoinWith(xs[1..], sep) + sep + JoinWith(ys, sep));
    }
  }

  /** Substring test (Python's `in` on strings). */
  predicate Contains(hay: string, needle: string)
    decreases |hay|
  {
    needle <= hay || (|hay| > 0 && Contains(hay[1..], needle))
  }

  /** `needle` occurs in `hay` starting at index `i`. */
  predicate OccursAt(hay: string, needle: string, i: int) {
    0 <= i && i + |needle| <= |hay| && hay[i..i + |needle|] == needle
  }

  /** `Contains` holds exactly when the needle occurs at some position. */
  lemma {:induction false} ContainsIffOccurs(hay: string, needle: string)
    ensures Contains(hay, needle) <==> exists i :: OccursAt(hay, needle, i)
    decreases |hay|
  {
    if needle <= hay {
      assert OccursAt(hay, needle, 0);
    } else if |hay| > 0 {
      ContainsIffOccurs(hay[1..], needle);
      if exists i :: OccursAt(hay, needle, i) {
        var i :| OccursAt(hay, needle, i);
        assert i != 0 by { assert hay[..|needle|] == hay[0..0 + |needle|]; }
        OccursInTail(hay, needle, i);
      }
      if Contains(hay[1..], needle) {
        var i :| OccursAt(hay[1..], needle, i);
        OccursAfterHead(hay, needle, i);
      }
    } else {
      assert |needle| > 0;
    }
  }

  lemma OccursInTail(hay: string, needle: string, i: int)
    requires |hay| > 0 && i > 0 && OccursAt(hay, needle, i)
    ensures OccursAt(hay[1..], needle, i - 1)
  {
    assert hay[1..][i - 1..i - 1 + |needle|] == hay[i..i + |needle|];
  }

  lemma OccursAfterHead(hay: string, needle: string, i: int)
    requires |hay| > 0 && OccursAt(hay[1..], needle, i)
    ensures OccursAt(hay, needle, i + 1)
  {
    assert hay[i + 1..i + 1 + |needle|] == hay[1..][i..i + |needle|];
  }

  predicate IsDigit(c: char) {
    '0' <= c <= '9'
  }

  function DigitChar(d: nat): (c: char)
    requires d < 10
    ensures IsDigit(c) && (c as int) - ('0' as int) == d
  {
    "0123456789"[d]
  }

  /** Decimal digits of a natural number, most significant first, no leading zeros. */
  function Digits(n: nat): (r: string)
    ensures |r| >= 1
    ensures forall i :: 0 <= i < |r| ==> IsDigit(r[i])
    decreases n
  {
    if n < 10 then [DigitChar(n)] else Digits(n / 10) + [DigitChar(n % 10)]
  }

  /** Decimal rendering of an integer, as Python's f-string `{n}` and JavaScript's
      `String(n)` produce for integral values. */
  function Decimal(n: int): string {
    if n < 0 then "-" + Digits(-n) else Digits(n)
  }
}
