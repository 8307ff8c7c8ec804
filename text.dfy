/**
 * The small part of Python's string library that main.py relies on:
 * whitespace classification, str.strip(), str.split() with no argument,
 * " ".join(...), str.lower() on ASCII, and decimal rendering of naturals.
 */
module Text {
  import opened Wrappers

  /** Python's str.isspace(): the characters str.split(), str.strip() and the regex class \s treat as whitespace. */
  predicate IsSpace(c: char) {
    ('\t' <= c <= '\r') || ('\U{001C}' <= c <= ' ') || c == '\U{0085}' || c == '\U{00A0}'
    || c == '\U{1680}' || ('\U{2000}' <= c <= '\U{200A}') || c == '\U{2028}' || c == '\U{2029}'
    || c == '\U{202F}' || c == '\U{205F}' || c == '\U{3000}'
  }

  /** A character matched by the regex class \w, restricted to ASCII. */
  predicate IsWordChar(c: char) {
    ('a' <= c <= 'z') || ('A' <= c <= 'Z') || ('0' <= c <= '9') || c == '_'
  }

  predicate IsDigit(c: char) { '0' <= c <= '9' }

  function LowerChar(c: char): char {
    if 'A' <= c <= 'Z' then (c as int + 32) as char else c
  }

  /** str.lower() on ASCII letters; every other character is kept. */
  function Lower(s: string): (r: string)
    ensures |r| == |s|
    ensures forall i :: 0 <= i < |s| ==> !('A' <= r[i] <= 'Z')
    ensures forall i :: 0 <= i < |s| ==>
      if 'A' <= s[i] <= 'Z' then 'a' <= r[i] <= 'z' && r[i] as int - s[i] as int == 32 else r[i] == s[i]
  {
    seq(|s|, i requires 0 <= i < |s| => LowerChar(s[i]))
  }

  predicate AllSpace(s: string) {
    forall i :: 0 <= i < |s| ==> IsSpace(s[i])
  }

  /** A non-empty run of non-whitespace characters: one element of str.split(). */
  predicate IsWord(w: string) {
    w != [] && forall i :: 0 <= i < |w| ==> !IsSpace(w[i])
  }

  /** No whitespace at either end. */
  predicate Trimmed(s: string) {
    s == [] || (!IsSpace(s[0]) && !IsSpace(s[|s| - 1]))
  }

  /** The first index at or after `i` that holds no whitespace (or |s|). */
  function SkipSpace(s: string, i: nat): (j: nat)
    requires i <= |s|
    ensures i <= j <= |s|
    decreases |s| - i
  {
    if i < |s| && IsSpace(s[i]) then SkipSpace(s, i + 1) else i
  }

  /** The first index at or after `i` that holds whitespace (or |s|). */
  function SkipWord(s: string, i: nat): (j: nat)
    requires i <= |s|
    ensures i <= j <= |s|
    decreases |s| - i
  {
    if i < |s| && !IsSpace(s[i]) then SkipWord(s, i + 1) else i
  }

  /** The end of `s[..j]` once its trailing whitespace is dropped. */
  function BackSpace(s: string, j: nat): (k: nat)
    requires j <= |s|
    ensures k <= j
  {
    if j > 0 && IsSpace(s[j - 1]) then BackSpace(s, j - 1) else j
  }

  /** SkipSpace passes over whitespace only, and stops at a non-space or the end. */
  lemma {:induction false} SkipSpaceFacts(s: string, i: nat)
    requires i <= |s|
    ensures var j := SkipSpace(s, i); (j == |s| || !IsSpace(s[j])) && forall m :: i <= m < j ==> IsSpace(s[m])
    decreases |s| - i
  {
    if i < |s| && IsSpace(s[i]) { SkipSpaceFacts(s, i + 1); }
  }

  /** SkipWord passes over non-whitespace only, and stops at whitespace or the end. */
  lemma {:induction false} SkipWordFacts(s: string, i: nat)
    requires i <= |s|
    ensures var j := SkipWord(s, i); (j == |s| || IsSpace(s[j])) && forall m :: i <= m < j ==> !IsSpace(s[m])
    decreases |s| - i
  {
    if i < |s| && !IsSpace(s[i]) { SkipWordFacts(s, i + 1); }
  }

  /** BackSpace drops whitespace only, and stops after a non-space or at the start. */
  lemma {:induction false} BackSpaceFacts(s: string, j: nat)
    requires j <= |s|
    ensures var k := BackSpace(s, j); (k == 0 || !IsSpace(s[k - 1])) && forall m :: k <= m < j ==> IsSpace(s[m])
  {
    if j > 0 && IsSpace(s[j - 1]) { BackSpaceFacts(s, j - 1); }
  }

  /** str.strip(): the longest infix of `s` with no whitespace at either end. */
  function Strip(s: string): (r: string)
    ensures Trimmed(r)
    ensures var a := SkipSpace(s, 0);
      a + |r| <= |s| && r == s[a..a + |r|] && AllSpace(s[..a]) && AllSpace(s[a + |r|..])
  {
    var a := SkipSpace(s, 0);
    var t := s[a..];
    StripEnds(s);
    t[..BackSpace(t, |t|)]
  }

  /** The whitespace SkipSpace and BackSpace pass over at the two ends, and what lies between. */
  lemma StripEnds(s: string)
    ensures var a := SkipSpace(s, 0); var t := s[a..]; var k := BackSpace(t, |t|);
      a + k <= |s| && Trimmed(t[..k]) && t[..k] == s[a..a + k] && AllSpace(s[..a]) && AllSpace(s[a + k..])
  {
    var a := SkipSpace(s, 0);
    var t := s[a..];
    var k := BackSpace(t, |t|);
    SkipSpaceFacts(s, 0);
    BackSpaceFacts(t, |t|);
    assert |t| > 0 ==> t[0] == s[a] && !IsSpace(t[0]);
    assert AllSpace(s[a + k..]) by { assert s[a + k..] == t[k..]; }
  }

  /** str.strip() gives "" exactly for all-whitespace input. */
  lemma StripBlank(s: string)
    ensures Strip(s) == [] <==> AllSpace(s)
  {
    var a := SkipSpace(s, 0);
    var t := s[a..];
    SkipSpaceFacts(s, 0);
    BackSpaceFacts(t, |t|);
    assert |t| > 0 ==> t[0] == s[a] && !IsSpace(t[0]);
    assert AllSpace(s) ==> a == |s|;
  }

  lemma {:induction false} StripTrimmed(s: string)
    requires Trimmed(s)
    ensures Strip(s) == s
  {
    if s != [] {
      SkipSpaceAt(s, 0, 0);
      assert s[0..] == s;
    }
  }

  /** str.split() with no argument: the maximal runs of non-whitespace, in order. */
  function SplitWords(s: string): (ws: seq<string>)
    ensures forall i :: 0 <= i < |ws| ==> IsWord(ws[i])
    decreases |s|
  {
    if s == [] then []
    else if IsSpace(s[0]) then SplitWords(s[1..])
    else
      var b := SkipWord(s, 0);
      assert b > 0 && IsWord(s[..b]) by { SkipWordFacts(s, 0); }
      [s[..b]] + SplitWords(s[b..])
  }

  /** sep.join(ws). */
  function Join(ws: seq<string>, sep: string): string {
    if |ws| == 0 then "" else if |ws| == 1 then ws[0] else ws[0] + sep + Join(ws[1..], sep)
  }

  /** `c` does not occur in `s`. */
  predicate Lacks(s: string, c: char) {
    forall i :: 0 <= i < |s| ==> s[i] != c
  }

  lemma LacksConcat(a: string, b: string, c: char)
    requires Lacks(a, c) && Lacks(b, c)
    ensures Lacks(a + b, c)
  {
    forall i | 0 <= i < |a + b|
      ensures (a + b)[i] != c
    {
      if i >= |a| {
        assert (a + b)[i] == b[i - |a|];
      }
    }
  }

  /**
   * s.split(sep, n) for a one-character separator: cut at the first `n` occurrences
   * of `sep`; the remainder, separators and all, is the last piece.
   */
  function SplitOn(s: string, sep: char, n: nat): (parts: seq<string>)
    ensures 1 <= |parts| <= n + 1
    ensures Join(parts, [sep]) == s
    ensures forall i :: 0 <= i < |parts| - 1 ==> Lacks(parts[i], sep)
    decreases |s|
  {
    if n == 0 || s == [] then [s]
    else if s[0] == sep then
      var rest := SplitOn(s[1..], sep, n - 1);
      JoinCons("", rest, [sep]);
      assert [sep] + s[1..] == s;
      [""] + rest
    else
      var rest := SplitOn(s[1..], sep, n);
      JoinHead(s[0], rest, [sep]);
      assert [s[0]] + s[1..] == s;
      assert Lacks(rest[0], sep) ==> Lacks([s[0]] + rest[0], sep);
      [[s[0]] + rest[0]] + rest[1..]
  }

  lemma JoinCons(w: string, ws: seq<string>, sep: string)
    requires ws != []
    ensures Join([w] + ws, sep) == w + sep + Join(ws, sep)
  {
    assert ([w] + ws)[1..] == ws;
  }

  /** A character in front of the first piece is in front of the join. */
  lemma JoinHead(c: char, ws: seq<string>, sep: string)
    requires ws != []
    ensures Join([[c] + ws[0]] + ws[1..], sep) == [c] + Join(ws, sep)
  {
    var vs := [[c] + ws[0]] + ws[1..];
    if |ws| > 1 {
      assert vs[1..] == ws[1..];
    }
  }

  /** A piece without the separator comes back whole. */
  lemma {:induction false} SplitOnWhole(a: string, sep: char, n: nat)
    requires Lacks(a, sep)
    ensures SplitOn(a, sep, n) == [a]
    decreases |a|
  {
    if n > 0 && a != [] {
      SplitOnWhole(a[1..], sep, n);
      assert [a[0]] + a[1..] == a;
    }
  }

  /** The first cut falls right after a leading piece that has no separator. */
  lemma {:induction false} SplitOnFirst(a: string, b: string, sep: char, n: nat)
    requires n > 0 && Lacks(a, sep)
    ensures SplitOn(a + [sep] + b, sep, n) == [a] + SplitOn(b, sep, n - 1)
    decreases |a|
  {
    var s := a + [sep] + b;
    if a == [] {
      assert s[1..] == b;
    } else {
      assert s[1..] == a[1..] + [sep] + b;
      SplitOnFirst(a[1..], b, sep, n);
      assert [a[0]] + a[1..] == a;
    }
  }

  /**
   * Splitting a join at most |fs| - 1 times gives the pieces back, when no piece
   * but the last holds the separator.
   */
  lemma {:induction false} SplitOnJoin(fs: seq<string>, sep: char)
    requires |fs| >= 1
    requires forall i :: 0 <= i < |fs| - 1 ==> Lacks(fs[i], sep)
    ensures SplitOn(Join(fs, [sep]), sep, |fs| - 1) == fs
  {
    if |fs| == 1 {
    } else {
      var tail := Join(fs[1..], [sep]);
      assert Join(fs, [sep]) == fs[0] + [sep] + tail;
      SplitOnFirst(fs[0], tail, sep, |fs| - 1);
      SplitOnJoin(fs[1..], sep);
      assert fs == [fs[0]] + fs[1..];
    }
  }

  /** SkipSpace stops exactly at the end of a whitespace run. */
  lemma {:induction false} SkipSpaceAt(s: string, i: nat, j: nat)
    requires i <= j <= |s| && (j == |s| || !IsSpace(s[j]))
    requires forall m :: i <= m < j ==> IsSpace(s[m])
    ensures SkipSpace(s, i) == j
    decreases j - i
  {
    if i < j { SkipSpaceAt(s, i + 1, j); }
  }

  /** SkipWord stops exactly at the end of a run of non-whitespace. */
  lemma {:induction false} SkipWordAt(s: string, i: nat, j: nat)
    requires i <= j <= |s| && (j == |s| || IsSpace(s[j]))
    requires forall m :: i <= m < j ==> !IsSpace(s[m])
    ensures SkipWord(s, i) == j
    decreases j - i
  {
    if i < j { SkipWordAt(s, i + 1, j); }
  }

  /** str.split() undoes " ".join() of words: the words come back one by one. */
  lemma {:induction false} SplitJoin(ws: seq<string>)
    requires forall i :: 0 <= i < |ws| ==> IsWord(ws[i])
    ensures SplitWords(Join(ws, " ")) == ws
  {
    if |ws| != 0 {
      var w := ws[0];
      var s := Join(ws, " ");
      var rest := if |ws| == 1 then "" else " " + Join(ws[1..], " ");
      assert s == w + rest;
      assert forall m :: 0 <= m < |w| ==> s[m] == w[m];
      assert rest != [] ==> s[|w|] == ' ';
      SkipWordAt(s, 0, |w|);
      assert s[..|w|] == w;
      assert s[|w|..] == rest;
      if |ws| > 1 {
        assert rest[1..] == Join(ws[1..], " ");
        SplitJoin(ws[1..]);
      }
    }
  }

  /**
   * The whitespace runs str.split() drops: the one before the first word, those
   * between words, and the one after the last word (either end may be empty).
   */
  function Gaps(s: string): (gs: seq<string>)
    ensures |gs| >= 1
    decreases |s|
  {
    if s == [] then [""]
    else if IsSpace(s[0]) then
      var g := Gaps(s[1..]);
      [[s[0]] + g[0]] + g[1..]
    else
      var b := SkipWord(s, 0);
      assert b > 0 by { SkipWordFacts(s, 0); }
      [""] + Gaps(s[b..])
  }

  /** gaps[0] + ws[0] + gaps[1] + ... + ws[n-1] + gaps[n]. */
  function Interleave(gaps: seq<string>, ws: seq<string>): string
    requires |gaps| == |ws| + 1
  {
    if ws == [] then gaps[0] else gaps[0] + ws[0] + Interleave(gaps[1..], ws[1..])
  }

  /** A character in front of the first gap is in front of the whole text. */
  lemma InterleaveHead(c: char, gaps: seq<string>, ws: seq<string>)
    requires |gaps| == |ws| + 1
    ensures Interleave([[c] + gaps[0]] + gaps[1..], ws) == [c] + Interleave(gaps, ws)
  {
    var hs := [[c] + gaps[0]] + gaps[1..];
    assert hs[1..] == gaps[1..];
  }

  /** One more gap than words. */
  lemma {:induction false} GapsCount(s: string)
    ensures |Gaps(s)| == |SplitWords(s)| + 1
    decreases |s|
  {
    if s == [] {
    } else if IsSpace(s[0]) {
      GapsCount(s[1..]);
    } else {
      var b := SkipWord(s, 0);
      SkipWordFacts(s, 0);
      GapsCount(s[b..]);
    }
  }

  /**
   * str.split() keeps every non-whitespace character: the text is its words
   * interleaved with the gaps (GapsAreRuns: the gaps are whitespace, and non-empty
   * between two words, so every word is a maximal run of non-whitespace).
   */
  lemma {:induction false} SplitWordsCover(s: string)
    ensures |Gaps(s)| == |SplitWords(s)| + 1
    ensures s == Interleave(Gaps(s), SplitWords(s))
    decreases |s|
  {
    GapsCount(s);
    if s == [] {
    } else if IsSpace(s[0]) {
      var g := Gaps(s[1..]);
      SplitWordsCover(s[1..]);
      InterleaveHead(s[0], g, SplitWords(s[1..]));
      assert [s[0]] + s[1..] == s;
    } else {
      var b := SkipWord(s, 0);
      SkipWordFacts(s, 0);
      var t := s[b..];
      SplitWordsCover(t);
      var g, ws := Gaps(t), SplitWords(t);
      assert Gaps(s) == [""] + g && ([""] + g)[1..] == g;
      assert SplitWords(s) == [s[..b]] + ws && ([s[..b]] + ws)[1..] == ws;
      assert s == s[..b] + t;
    }
  }

  /** The gaps are whitespace, and those between two words are non-empty. */
  lemma {:induction false} GapsAreRuns(s: string)
    ensures forall k :: 0 <= k < |Gaps(s)| ==> AllSpace(Gaps(s)[k])
    ensures forall k :: 0 < k < |Gaps(s)| - 1 ==> Gaps(s)[k] != []
    decreases |s|
  {
    GapsCount(s);
    if s == [] {
    } else if IsSpace(s[0]) {
      var g := Gaps(s[1..]);
      GapsAreRuns(s[1..]);
      assert Gaps(s) == [[s[0]] + g[0]] + g[1..];
      assert AllSpace([s[0]] + g[0]);
    } else {
      var b := SkipWord(s, 0);
      SkipWordFacts(s, 0);
      var t := s[b..];
      GapsAreRuns(t);
      GapsCount(t);
      var g := Gaps(t);
      assert Gaps(s) == [""] + g;
      if |g| > 1 {
        assert SplitWords(t) != [] && t != [] && IsSpace(t[0]);
        assert g[0] != [];
      }
    }
  }

  function DigitChar(d: nat): char
    requires d < 10
  {
    ('0' as int + d) as char
  }

  function DigitValue(c: char): nat
    requires IsDigit(c)
  {
    c as int - '0' as int
  }

  /** Decimal rendering without leading zeros: Python's f"{n:d}". */
  function NatStr(n: nat): (r: string)
    ensures r != [] && forall i :: 0 <= i < |r| ==> IsDigit(r[i])
  {
    if n < 10 then [DigitChar(n)] else NatStr(n / 10) + [DigitChar(n % 10)]
  }

  lemma NatStrLength(n: nat)
    ensures 10 <= n < 100 ==> |NatStr(n)| == 2
    ensures n < 10 ==> |NatStr(n)| == 1
  {
  }

  /** Python's f"{n:02d}": at least two digits, zero-padded. */
  function Pad2(n: nat): (r: string)
    ensures r != [] && forall i :: 0 <= i < |r| ==> IsDigit(r[i])
    ensures n < 100 ==> |r| == 2
  {
    NatStrLength(n);
    if n < 10 then "0" + NatStr(n) else NatStr(n)
  }

  predicate AllDigits(s: string) {
    forall i :: 0 <= i < |s| ==> IsDigit(s[i])
  }

  function DigitsValue(s: string): nat
    requires AllDigits(s)
  {
    if s == [] then 0 else DigitsValue(s[..|s| - 1]) * 10 + DigitValue(s[|s| - 1])
  }

  /** Reads a non-empty run of decimal digits back as a number. */
  function ParseNat(s: string): Option<nat> {
    if s != [] && AllDigits(s) then Some(DigitsValue(s)) else None
  }

  lemma {:induction false} ParseNatStr(n: nat)
    ensures ParseNat(NatStr(n)) == Some(n)
  {
    var s := NatStr(n);
    if n >= 10 {
      ParseNatStr(n / 10);
      assert s[..|s| - 1] == NatStr(n / 10);
      assert DigitValue(s[|s| - 1]) == n % 10;
    } else {
      assert s[..|s| - 1] == [];
      assert DigitsValue(s[..|s| - 1]) == 0;
      assert DigitValue(s[|s| - 1]) == n;
    }
  }

  lemma {:induction false} ParsePad2(n: nat)
    ensures ParseNat(Pad2(n)) == Some(n)
  {
    ParseNatStr(n);
    if n < 10 {
      var s := Pad2(n);
      assert s[..|s| - 1] == "0";
      assert DigitsValue("0") == 0 by { assert "0"[..0] == ""; }
    }
  }
}
