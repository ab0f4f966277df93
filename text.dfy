/**
  The few pieces of Python's `str` and `int` behaviour the collectors rely on:
  `str.strip`, `str.split(sep)`, `str.split()`, `str.split(pat)[0]`, `int(text)`
  and `str(n)`, each stated on `seq<char>`.
*/
module Text {
  import opened Wrappers

  /** The characters for which Python's `str.isspace()` holds. */
  predicate IsSpace(c: char) {
    || c == ' '
    || '\t' <= c <= '\r'               // tab, line feed, vertical tab, form feed, carriage return
    || '\U{1C}' <= c <= '\U{1F}'       // the four information separators
    || c == '\U{85}' || c == '\U{A0}' || c == '\U{1680}'
    || '\U{2000}' <= c <= '\U{200A}'   // the typographic spaces
    || c == '\U{2028}' || c == '\U{2029}' || c == '\U{202F}' || c == '\U{205F}' || c == '\U{3000}'
  }

  predicate IsDigit(c: char) {
    '0' <= c <= '9'
  }

  /** No character of `w` is white space. */
  predicate NoSpace(w: string) {
    forall k :: 0 <= k < |w| ==> !IsSpace(w[k])
  }

  // ---------------------------------------------------------------------------
  // str.strip
  // ---------------------------------------------------------------------------

  /** The character sets stripped here: `str.strip()` drops white space, `str.strip(c)` one character. */
  datatype Chars = Blanks | Only(c: char)

  predicate Drops(chars: Chars, x: char) {
    match chars
    case Blanks => IsSpace(x)
    case Only(c) => x == c
  }

  /** `s` without its longest prefix of characters in `chars`. */
  function TrimStart(s: string, chars: Chars): (r: string)
    ensures |r| <= |s| && r == s[|s| - |r|..]
    ensures r != [] ==> !Drops(chars, r[0])
    decreases |s|
  {
    if s != [] && Drops(chars, s[0]) then TrimStart(s[1..], chars) else s
  }

  /** `s` without its longest suffix of characters in `chars`. */
  function TrimEnd(s: string, chars: Chars): (r: string)
    ensures |r| <= |s| && r == s[..|r|]
    ensures r != [] ==> !Drops(chars, r[|r| - 1])
    decreases |s|
  {
    if s != [] && Drops(chars, s[|s| - 1]) then TrimEnd(s[..|s| - 1], chars) else s
  }

  /**
    Python's `s.strip(chars)`: the part of `s` left once every leading and every
    trailing character in `chars` is removed.
  */
  function Strip(s: string, chars: Chars): (r: string)
    ensures |r| <= |s|
    ensures r != [] ==> !Drops(chars, r[0]) && !Drops(chars, r[|r| - 1])
    ensures var i := LeadCount(s, chars);
            && i + |r| <= |s| && r == s[i..i + |r|]
  {
    var t := TrimStart(s, chars);
    var r := TrimEnd(t, chars);
    var i := |s| - |t|;
    SliceOfSlice(s, i, |r|);
    assert r != [] ==> r[0] == t[0];
    r
  }

  lemma SliceOfSlice(s: string, i: nat, n: nat)
    requires i + n <= |s|
    ensures s[i..][..n] == s[i..i + n]
  {
  }

  /** How many characters in `chars` lead `s`. */
  function LeadCount(s: string, chars: Chars): (n: nat)
    ensures n <= |s|
    ensures n < |s| ==> !Drops(chars, s[n])
  {
    |s| - |TrimStart(s, chars)|
  }

  /** Everything `TrimStart` removes is in `chars`. */
  lemma {:induction false} TrimStartDrops(s: string, chars: Chars)
    ensures forall k :: 0 <= k < |s| - |TrimStart(s, chars)| ==> Drops(chars, s[k])
    decreases |s|
  {
    if s != [] && Drops(chars, s[0]) {
      TrimStartDrops(s[1..], chars);
      assert forall k :: 1 <= k < |s| ==> s[k] == s[1..][k - 1];
    }
  }

  /** Everything `TrimEnd` removes is in `chars`. */
  lemma {:induction false} TrimEndDrops(s: string, chars: Chars)
    ensures forall k :: |TrimEnd(s, chars)| <= k < |s| ==> Drops(chars, s[k])
    decreases |s|
  {
    if s != [] && Drops(chars, s[|s| - 1]) {
      TrimEndDrops(s[..|s| - 1], chars);
    }
  }

  /** Everything `Strip` removes, in front of what it keeps and after it, is in `chars`. */
  lemma StripDrops(s: string, chars: Chars)
    ensures var i := LeadCount(s, chars);
            var r := Strip(s, chars);
            && (forall k :: 0 <= k < i ==> Drops(chars, s[k]))
            && (forall k :: i + |r| <= k < |s| ==> Drops(chars, s[k]))
  {
    var t := TrimStart(s, chars);
    var r := TrimEnd(t, chars);
    var i := |s| - |t|;
    assert Strip(s, chars) == r && LeadCount(s, chars) == i;
    TrimStartDrops(s, chars);
    TrimEndDrops(t, chars);
    DropsShift(s, t, i, |r|, chars);
  }

  /** What holds of the end of `s[i..]` from `n` on holds of the end of `s` from `i + n` on. */
  lemma DropsShift(s: string, t: string, i: nat, n: nat, chars: Chars)
    requires i <= |s| && t == s[i..] && n <= |t|
    requires forall k :: n <= k < |t| ==> Drops(chars, t[k])
    ensures forall k :: i + n <= k < |s| ==> Drops(chars, s[k])
  {
    forall k | i + n <= k < |s|
      ensures Drops(chars, s[k])
    {
      assert s[k] == t[k - i];
    }
  }

  /** Python's argument-less `s.strip()`. */
  function StripSpace(s: string): string {
    Strip(s, Blanks)
  }

  /** Stripping leaves a string whose two ends are kept alone. */
  lemma StripKeeps(s: string, chars: Chars)
    requires s != [] && !Drops(chars, s[0]) && !Drops(chars, s[|s| - 1])
    ensures Strip(s, chars) == s
  {
    assert TrimStart(s, chars) == s;
  }

  /** A dropped character in front of a string is removed by stripping. */
  lemma StripDropsLead(c: char, s: string, chars: Chars)
    requires Drops(chars, c)
    ensures Strip([c] + s, chars) == Strip(s, chars)
  {
    assert ([c] + s)[1..] == s;
  }

  // ---------------------------------------------------------------------------
  // str.split(sep) for a one-character separator, and its inverse sep.join
  // ---------------------------------------------------------------------------

  /** Python's `sep.join(xs)`. */
  function Join(xs: seq<string>, sep: char): string
  {
    if |xs| == 0 then [] else if |xs| == 1 then xs[0] else xs[0] + [sep] + Join(xs[1..], sep)
  }

  /**
    Python's `s.split(sep)`: the pieces between the occurrences of `sep`, at
    least one, none containing `sep`, and joining them with `sep` gives `s` back.
  */
  function Split(s: string, sep: char): (r: seq<string>)
    ensures |r| >= 1
    ensures Join(r, sep) == s
    decreases |s|
  {
    if s == [] then [[]]
    else if s[0] == sep then
      var t := Split(s[1..], sep);
      assert [s[0]] + s[1..] == s;
      [[]] + t
    else
      var t := Split(s[1..], sep);
      var r := [[s[0]] + t[0]] + t[1..];
      assert r[1..] == t[1..];
      assert |t| > 1 ==> Join(t, sep) == t[0] + [sep] + Join(t[1..], sep);
      assert Join(r, sep) == [s[0]] + Join(t, sep);
      assert [s[0]] + s[1..] == s;
      r
  }

  /** No piece holds the separator. */
  lemma {:induction false} SplitPieces(s: string, sep: char)
    ensures forall k :: 0 <= k < |Split(s, sep)| ==> sep !in Split(s, sep)[k]
    decreases |s|
  {
    if s != [] {
      SplitPieces(s[1..], sep);
      var t := Split(s[1..], sep);
      if s[0] != sep {
        var r := [[s[0]] + t[0]] + t[1..];
        assert Split(s, sep) == r;
        assert sep !in [s[0]] + t[0];
        forall k | 1 <= k < |r|
          ensures sep !in r[k]
        {
          assert r[k] == t[k];
        }
      }
    }
  }

  /** A string without the separator splits into itself alone. */
  lemma {:induction false} SplitNone(a: string, sep: char)
    requires sep !in a
    ensures Split(a, sep) == [a]
    decreases |a|
  {
    if a != [] {
      SplitNone(a[1..], sep);
      assert [a[0]] + a[1..] == a;
    }
  }

  /** The first occurrence of the separator ends the first piece. */
  lemma {:induction false} SplitAt(a: string, sep: char, b: string)
    requires sep !in a
    ensures Split(a + [sep] + b, sep) == [a] + Split(b, sep)
    decreases |a|
  {
    var s := a + [sep] + b;
    if a == [] {
      assert s[1..] == b;
    } else {
      assert s[1..] == a[1..] + [sep] + b;
      SplitAt(a[1..], sep, b);
      assert [a[0]] + a[1..] == a;
    }
  }

  /** Splitting undoes joining pieces that do not contain the separator. */
  lemma {:induction false} SplitJoin(xs: seq<string>, sep: char)
    requires |xs| >= 1
    requires forall k :: 0 <= k < |xs| ==> sep !in xs[k]
    ensures Split(Join(xs, sep), sep) == xs
    decreases |xs|
  {
    if |xs| == 1 {
      SplitNone(xs[0], sep);
    } else {
      SplitJoin(xs[1..], sep);
      SplitAt(xs[0], sep, Join(xs[1..], sep));
      assert [xs[0]] + xs[1..] == xs;
    }
  }

  /** The last element of a non-empty sequence: Python's `xs[-1]`. */
  function Last<T>(xs: seq<T>): T
    requires |xs| >= 1
  {
    xs[|xs| - 1]
  }

  // ---------------------------------------------------------------------------
  // str.split() with no argument
  // ---------------------------------------------------------------------------

  /** The longest prefix of `s` that holds no white space. */
  function TakeWord(s: string): (w: string)
    ensures |w| <= |s| && w == s[..|w|]
    ensures |w| < |s| ==> IsSpace(s[|w|])
    decreases |s|
  {
    if s == [] || IsSpace(s[0]) then []
    else
      var w := TakeWord(s[1..]);
      assert [s[0]] + s[1..][..|w|] == s[..|w| + 1];
      [s[0]] + w
  }

  /**
    Python's `s.split()`: the maximal runs of non-white-space characters, in
    order; every word is non-empty and holds no white space.
  */
  function Words(s: string): (r: seq<string>)
    decreases |s|
  {
    var t := TrimStart(s, Blanks);
    if t == [] then []
    else
      var w := TakeWord(t);
      assert |w| >= 1;
      [w] + Words(t[|w|..])
  }

  /** A word holds no white space. */
  lemma {:induction false} TakeWordNoSpace(s: string)
    ensures NoSpace(TakeWord(s))
    decreases |s|
  {
    if s != [] && !IsSpace(s[0]) {
      TakeWordNoSpace(s[1..]);
      var w := TakeWord(s[1..]);
      assert forall k :: 1 <= k < |w| + 1 == |TakeWord(s)| ==> TakeWord(s)[k] == w[k - 1];
    }
  }

  /** Each of `ws` is a word: non-empty and without white space. */
  predicate AllWords(ws: seq<string>) {
    forall k :: 0 <= k < |ws| ==> ws[k] != [] && NoSpace(ws[k])
  }

  lemma AllWordsCons(w: string, ws: seq<string>)
    requires w != [] && NoSpace(w) && AllWords(ws)
    ensures AllWords([w] + ws)
  {
    assert forall k :: 1 <= k < |ws| + 1 ==> ([w] + ws)[k] == ws[k - 1];
  }

  /** Every word is non-empty and holds no white space. */
  lemma {:induction false} WordsShape(s: string)
    ensures AllWords(Words(s))
    decreases |s|
  {
    var t := TrimStart(s, Blanks);
    if t != [] {
      var w := TakeWord(t);
      TakeWordNoSpace(t);
      WordsShape(t[|w|..]);
      var rest := Words(t[|w|..]);
      assert Words(s) == [w] + rest;
      AllWordsCons(w, rest);
    }
  }

  /** Python's `' '.join(ws)`. */
  function Unwords(ws: seq<string>): string {
    if |ws| == 0 then [] else if |ws| == 1 then ws[0] else ws[0] + [' '] + Unwords(ws[1..])
  }

  lemma {:induction false} TakeWordOf(w: string, rest: string)
    requires NoSpace(w)
    requires rest == [] || IsSpace(rest[0])
    ensures TakeWord(w + rest) == w
    decreases |w|
  {
    if w != [] {
      assert (w + rest)[1..] == w[1..] + rest;
      TakeWordOf(w[1..], rest);
      assert [w[0]] + w[1..] == w;
    }
  }

  /** A word followed by white space or nothing is the first of the words. */
  lemma WordsCons(w: string, rest: string)
    requires w != [] && NoSpace(w)
    requires rest == [] || IsSpace(rest[0])
    ensures Words(w + rest) == [w] + Words(rest)
  {
    var s := w + rest;
    assert s[0] == w[0];
    assert TrimStart(s, Blanks) == s;
    TakeWordOf(w, rest);
    assert s[|w|..] == rest;
  }

  /** Leading white space is skipped by `Words`. */
  lemma WordsSkipSpace(c: char, s: string)
    requires IsSpace(c)
    ensures Words([c] + s) == Words(s)
  {
    assert ([c] + s)[1..] == s;
  }

  /** Splitting on white space undoes joining non-empty, space-free words with one blank. */
  lemma {:induction false} WordsUnwords(ws: seq<string>)
    requires AllWords(ws)
    ensures Words(Unwords(ws)) == ws
    decreases |ws|
  {
    if |ws| == 0 {
      assert Words([]) == [];
    } else if |ws| == 1 {
      WordsAlone(ws[0]);
    } else {
      var rest := Unwords(ws[1..]);
      assert AllWords(ws[1..]) by {
        assert forall k :: 0 <= k < |ws| - 1 ==> ws[1..][k] == ws[k + 1];
      }
      WordsUnwords(ws[1..]);
      assert Unwords(ws) == ws[0] + [' '] + rest;
      WordsFirst(ws[0], rest);
      assert [ws[0]] + ws[1..] == ws;
    }
  }

  lemma WordsFirst(w: string, more: string)
    requires w != [] && NoSpace(w)
    ensures Words(w + [' '] + more) == [w] + Words(more)
  {
    var rest := [' '] + more;
    assert w + [' '] + more == w + rest;
    WordsCons(w, rest);
    WordsSkipSpace(' ', more);
  }

  /** One word alone splits into itself. */
  lemma WordsAlone(w: string)
    requires w != [] && NoSpace(w)
    ensures Words(w) == [w]
  {
    WordsCons(w, []);
    assert w + [] == w;
    assert Words([]) == [];
  }

  /** Two words joined by one blank split back into those two words. */
  lemma WordsPair(a: string, b: string)
    requires a != [] && NoSpace(a) && b != [] && NoSpace(b)
    ensures Words(a + [' '] + b) == [a, b]
  {
    WordsFirst(a, b);
    WordsAlone(b);
  }

  // ---------------------------------------------------------------------------
  // str.split(pat)[0] for a multi-character pattern
  // ---------------------------------------------------------------------------

  /** `pat` occurs in `s` starting at index `j`. */
  predicate OccursAt(s: string, pat: string, j: nat) {
    j + |pat| <= |s| && s[j..j + |pat|] == pat
  }

  /** The first index at or after `from` where `pat` occurs in `s`. */
  function IndexFrom(s: string, pat: string, from: nat): (r: Option<nat>)
    requires from <= |s|
    ensures r.Some? ==> from <= r.value && OccursAt(s, pat, r.value)
                        && forall j :: from <= j < r.value ==> !OccursAt(s, pat, j)
    ensures r.None? ==> forall j :: from <= j <= |s| ==> !OccursAt(s, pat, j)
    decreases |s| - from
  {
    if OccursAt(s, pat, from) then Some(from)
    else if from == |s| then None
    else IndexFrom(s, pat, from + 1)
  }

  /** Python's `s.split(pat)[0]`: the part of `s` before the first occurrence of `pat`, or all of `s`. */
  function BeforeFirst(s: string, pat: string): string {
    match IndexFrom(s, pat, 0)
    case Some(i) => s[..i]
    case None => s
  }

  /**
    `BeforeFirst` gives a prefix of `s` in front of which `pat` never starts in
    `s`; when `pat` occurs in `s` at all, the prefix is followed by `pat` (so
    that occurrence is the first), and otherwise it is `s` itself.
  */
  lemma BeforeFirstSpec(s: string, pat: string)
    requires pat != []
    ensures var r := BeforeFirst(s, pat);
            && r == s[..|r|]
            && (forall j :: 0 <= j < |r| ==> !OccursAt(s, pat, j))
            && (r != s ==> OccursAt(s, pat, |r|))
            && (forall j :: 0 <= j <= |r| - |pat| ==> !OccursAt(r, pat, j))
            && ((exists j :: 0 <= j <= |s| && OccursAt(s, pat, j)) ==> OccursAt(s, pat, |r|))
            && ((forall j :: 0 <= j <= |s| ==> !OccursAt(s, pat, j)) ==> r == s)
  {
    var r := BeforeFirst(s, pat);
    match IndexFrom(s, pat, 0)
    case None =>
    case Some(i) =>
      assert r == s[..i];
      forall j | 0 <= j <= |r| - |pat|
        ensures !OccursAt(r, pat, j)
      {
        if OccursAt(r, pat, j) {
          assert s[j..j + |pat|] == r[j..j + |pat|];
          assert OccursAt(s, pat, j);
        }
      }
  }

  // ---------------------------------------------------------------------------
  // str(n) and int(text)
  // ---------------------------------------------------------------------------

  function DigitChar(d: nat): (c: char)
    requires d < 10
    ensures IsDigit(c)
  {
    (48 + d) as char
  }

  /** The value of a decimal digit; other characters count for nothing. */
  function DigitValue(c: char): nat {
    if IsDigit(c) then (c as int) - 48 else 0
  }

  /** The decimal digits of `n`, without leading zeros. */
  function NatRepr(n: nat): (r: string)
    ensures |r| >= 1 && IsDigit(r[0]) && IsDigit(r[|r| - 1])
  {
    if n < 10 then [DigitChar(n)] else NatRepr(n / 10) + [DigitChar(n % 10)]
  }

  /** `str` writes nothing but digits for a natural number. */
  lemma {:induction false} NatReprDigits(n: nat)
    ensures forall k :: 0 <= k < |NatRepr(n)| ==> IsDigit(NatRepr(n)[k])
  {
    if n >= 10 {
      NatReprDigits(n / 10);
    }
  }

  /** Python's `str(x)` for an integer. */
  function IntRepr(x: int): (r: string)
    ensures |r| >= 1 && !IsSpace(r[0]) && !IsSpace(r[|r| - 1])
  {
    if x < 0 then "-" + NatRepr(-x) else NatRepr(x)
  }

  /** What `str` writes for an integer holds no comma and no white space. */
  lemma IntReprChars(x: int)
    ensures var r := IntRepr(x);
            ',' !in r && ' ' !in r && NoSpace(r)
  {
    var r := IntRepr(x);
    NatReprDigits(if x < 0 then -x else x);
    if x < 0 {
      assert forall k :: 1 <= k < |r| ==> r[k] == NatRepr(-x)[k - 1];
    }
  }

  /**
    The digit string Python's `int()` accepts after the sign: a digit first and
    every underscore directly followed by a digit.
  */
  predicate DigitGroups(s: string) {
    && |s| >= 1 && IsDigit(s[0])
    && (forall k :: 0 <= k < |s| ==> IsDigit(s[k]) || s[k] == '_')
    && (forall k :: 0 <= k < |s| && s[k] == '_' ==> k + 1 < |s| && IsDigit(s[k + 1]))
  }

  /** The value of a string of digits and underscores, the underscores ignored. */
  function DigitsValue(s: string): nat {
    if s == [] then 0
    else if s[|s| - 1] == '_' then DigitsValue(s[..|s| - 1])
    else DigitsValue(s[..|s| - 1]) * 10 + DigitValue(s[|s| - 1])
  }

  /** The value of a sign-free numeral, if it is one. */
  function Numeral(s: string): Option<nat> {
    if DigitGroups(s) then Some(DigitsValue(s)) else None
  }

  /**
    Python's `int(text)` for a base-10 string: surrounding white space is
    ignored, an optional sign, then digits with optional single underscores
    between them; anything else is `None` (a `ValueError`).
  */
  function ParseInt(text: string): (r: Option<int>)
    ensures r.Some? ==> StripSpace(text) != []
  {
    ParseSigned(StripSpace(text))
  }

  /** An optional sign followed by a numeral, nothing around it. */
  function ParseSigned(t: string): (r: Option<int>)
    ensures r.Some? ==> t != []
  {
    if t != [] && (t[0] == '-' || t[0] == '+') then
      match Numeral(t[1..])
      case Some(n) => Some(if t[0] == '-' then -(n as int) else n as int)
      case None => None
    else
      match Numeral(t)
      case Some(n) => Some(n as int)
      case None => None
  }

  lemma NumeralOfRepr(n: nat)
    ensures Numeral(NatRepr(n)) == Some(n)
  {
    NatReprDigits(n);
    NatReprValue(n);
  }

  lemma {:induction false} NatReprValue(n: nat)
    ensures DigitsValue(NatRepr(n)) == n
  {
    var r := NatRepr(n);
    if n >= 10 {
      NatReprValue(n / 10);
      assert r[..|r| - 1] == NatRepr(n / 10);
    }
  }

  /** Reading back what `str` wrote gives the same integer: `int(str(x)) == x`. */
  lemma ParseIntRepr(x: int)
    ensures ParseInt(IntRepr(x)) == Some(x)
  {
    var r := IntRepr(x);
    StripKeeps(r, Blanks);
    assert StripSpace(r) == r;
    ParseSignedRepr(x);
  }

  lemma ParseSignedRepr(x: int)
    ensures ParseSigned(IntRepr(x)) == Some(x)
  {
    var r := IntRepr(x);
    if x < 0 {
      assert r[0] == '-' && r[1..] == NatRepr(-x);
      NumeralOfRepr(-x);
    } else {
      assert IsDigit(r[0]);
      NumeralOfRepr(x);
    }
  }

  /** One leading blank, as after a comma in a tuple display, does not change what `int()` reads. */
  lemma ParseIntAfterBlank(x: int)
    ensures ParseInt(" " + IntRepr(x)) == Some(x)
  {
    StripDropsLead(' ', IntRepr(x), Blanks);
    ParseIntRepr(x);
  }

  /** `str` on integers is injective. */
  lemma IntReprInjective(x: int, y: int)
    requires IntRepr(x) == IntRepr(y)
    ensures x == y
  {
    ParseIntRepr(x);
    ParseIntRepr(y);
  }
}
