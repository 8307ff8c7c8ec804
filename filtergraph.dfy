/**
 * The video filter chain of the export step (main.py:187-216): the headline is
 * escaped for ffmpeg's option syntax, placed in a drawtext filter, and the chain
 * scales and crops to 1080x1920, burns the caption file when there is one, and
 * draws the headline.
 */
module Filtergraph {
  import opened Wrappers
  import opened Text

  /** The characters the title escape puts a backslash before. */
  predicate IsSpecial(c: char) { c == ':' || c == '\'' || c == '"' }

  /** s.replace(c, by) for a one-character pattern: every occurrence, left to right. */
  function ReplaceChar(s: string, c: char, repl: string): (r: string)
    ensures Lacks(repl, c) ==> Lacks(r, c)
  {
    if s == [] then [] else (if s[0] == c then repl else [s[0]]) + ReplaceChar(s[1..], c, repl)
  }

  /** safe_title (main.py:188-193): three replace calls in a row. */
  function SafeTitle(title: string): string {
    ReplaceChar(ReplaceChar(ReplaceChar(title, ':', "\\:"), '\'', "\\'"), '"', "\\\"")
  }

  /** The escape as a map over characters: a backslash before each special one. */
  function Escape(t: string): string {
    if t == [] then [] else (if IsSpecial(t[0]) then ['\\', t[0]] else [t[0]]) + Escape(t[1..])
  }

  function CountSpecial(t: string): nat {
    if t == [] then 0 else (if IsSpecial(t[0]) then 1 else 0) + CountSpecial(t[1..])
  }

  lemma {:induction false} ReplaceAppend(a: string, b: string, c: char, repl: string)
    ensures ReplaceChar(a + b, c, repl) == ReplaceChar(a, c, repl) + ReplaceChar(b, c, repl)
  {
    if a != [] {
      var head := if a[0] == c then repl else [a[0]];
      assert (a + b)[0] == a[0];
      assert (a + b)[1..] == a[1..] + b;
      assert ReplaceChar(a + b, c, repl) == head + ReplaceChar(a[1..] + b, c, repl);
      ReplaceAppend(a[1..], b, c, repl);
      assert head + (ReplaceChar(a[1..], c, repl) + ReplaceChar(b, c, repl))
          == (head + ReplaceChar(a[1..], c, repl)) + ReplaceChar(b, c, repl);
    } else {
      assert a + b == b;
    }
  }

  lemma ReplaceSingle(x: char, c: char, repl: string)
    ensures ReplaceChar([x], c, repl) == if x == c then repl else [x]
  {
    assert [x][1..] == [];
  }

  /** The three replacements applied to a single character. */
  lemma SafeTitleChar(x: char)
    ensures SafeTitle([x]) == if IsSpecial(x) then ['\\', x] else [x]
  {
    ReplaceSingle(x, ':', "\\:");
    if x == ':' {
      ReplaceAppend(['\\'], [':'], '\'', "\\'");
      ReplaceSingle('\\', '\'', "\\'");
      ReplaceSingle(':', '\'', "\\'");
      assert ['\\'] + [':'] == ['\\', ':'];
      ReplaceAppend(['\\'], [':'], '"', "\\\"");
      ReplaceSingle('\\', '"', "\\\"");
      ReplaceSingle(':', '"', "\\\"");
    } else {
      ReplaceSingle(x, '\'', "\\'");
      if x == '\'' {
        ReplaceAppend(['\\'], ['\''], '"', "\\\"");
        ReplaceSingle('\\', '"', "\\\"");
        ReplaceSingle('\'', '"', "\\\"");
        assert ['\\'] + ['\''] == ['\\', '\''];
      } else {
        ReplaceSingle(x, '"', "\\\"");
      }
    }
  }

  /** The chained replace is the per-character escape. */
  lemma {:induction false} SafeTitleIsEscape(t: string)
    ensures SafeTitle(t) == Escape(t)
  {
    if t != [] {
      var x, rest := t[0], t[1..];
      assert t == [x] + rest;
      ReplaceAppend([x], rest, ':', "\\:");
      var a1, b1 := ReplaceChar([x], ':', "\\:"), ReplaceChar(rest, ':', "\\:");
      ReplaceAppend(a1, b1, '\'', "\\'");
      var a2, b2 := ReplaceChar(a1, '\'', "\\'"), ReplaceChar(b1, '\'', "\\'");
      ReplaceAppend(a2, b2, '"', "\\\"");
      assert SafeTitle(t) == SafeTitle([x]) + SafeTitle(rest);
      SafeTitleChar(x);
      SafeTitleIsEscape(rest);
    }
  }

  /** Escaping adds exactly one character per special character. */
  lemma {:induction false} EscapeLength(t: string)
    ensures |Escape(t)| == |t| + CountSpecial(t)
  {
    if t != [] { EscapeLength(t[1..]); }
  }

  /** What a reader of a quoted option value recovers, and how many characters it used. */
  datatype Quoted = Quoted(text: string, used: nat)

  /** `c`, which took `k` characters of input, in front of what the rest reads as. */
  function Prepend(c: char, k: nat, q: Option<Quoted>): Option<Quoted> {
    match q
    case Some(r) => Some(Quoted([c] + r.text, r.used + k))
    case None => None
  }

  /**
   * Reads a quoted value up to its closing quote, with the convention the escape
   * follows: a backslash before a special character stands for that character.
   */
  function ReadQuoted(s: string): Option<Quoted>
    decreases |s|
  {
    if s == [] then None
    else if s[0] == '\'' then Some(Quoted("", 1))
    else if s[0] == '\\' && |s| >= 2 && IsSpecial(s[1]) then Prepend(s[1], 2, ReadQuoted(s[2..]))
    else Prepend(s[0], 1, ReadQuoted(s[1..]))
  }

  predicate EndsInBackslash(t: string) { t != [] && t[|t| - 1] == '\\' }

  lemma ReadQuotedEscaped(c: char, after: string)
    requires IsSpecial(c)
    ensures ReadQuoted(['\\', c] + after) == Prepend(c, 2, ReadQuoted(after))
  {
    assert (['\\', c] + after)[2..] == after;
  }

  lemma ReadQuotedPlain(c: char, after: string)
    requires c != '\'' && (c == '\\' ==> after != [] && !IsSpecial(after[0]))
    ensures ReadQuoted([c] + after) == Prepend(c, 1, ReadQuoted(after))
  {
    assert ([c] + after)[1..] == after;
  }

  /** The escape of a non-empty text starts with a character that is not special. */
  lemma EscapeStart(t: string)
    requires t != []
    ensures Escape(t) != [] && !IsSpecial(Escape(t)[0])
  {
  }

  /**
   * An escaped title followed by a closing quote reads back as the title, unless the
   * title ends in a backslash (which the escape leaves alone).
   */
  lemma {:induction false} ReadEscaped(t: string, rest: string)
    requires !EndsInBackslash(t)
    ensures ReadQuoted(Escape(t) + "'" + rest) == Some(Quoted(t, |Escape(t)| + 1))
  {
    if t == [] {
      assert (Escape(t) + "'" + rest)[0] == '\'';
    } else {
      var x, tail := t[0], t[1..];
      var head := if IsSpecial(x) then ['\\', x] else [x];
      var after := Escape(tail) + "'" + rest;
      assert Escape(t) == head + Escape(tail);
      assert Escape(t) + "'" + rest == head + after;
      assert !EndsInBackslash(tail) by {
        if tail != [] { assert tail[|tail| - 1] == t[|t| - 1]; }
      }
      ReadEscaped(tail, rest);
      if IsSpecial(x) {
        ReadQuotedEscaped(x, after);
      } else {
        if x == '\\' {
          EscapeStart(tail);
          assert after[0] == Escape(tail)[0];
        }
        ReadQuotedPlain(x, after);
      }
      assert [x] + tail == t;
    }
  }

  /**
   * A title ending in a backslash escapes the closing quote instead: the reader
   * finds no end to the quoted value.
   */
  lemma {:induction false} TrailingBackslashEscapesQuote(t: string)
    requires EndsInBackslash(t)
    ensures ReadQuoted(Escape(t) + "'") == None
  {
    var x, tail := t[0], t[1..];
    var head := if IsSpecial(x) then ['\\', x] else [x];
    assert Escape(t) == head + Escape(tail);
    if tail == [] {
      assert x == '\\' && Escape(t) + "'" == "\\'";
      assert ("\\'")[2..] == [];
    } else {
      var after := Escape(tail) + "'";
      assert Escape(t) + "'" == head + after;
      assert tail[|tail| - 1] == t[|t| - 1];
      TrailingBackslashEscapesQuote(tail);
      if IsSpecial(x) {
        ReadQuotedEscaped(x, after);
      } else {
        EscapeStart(tail);
        assert after[0] == Escape(tail)[0];
        ReadQuotedPlain(x, after);
      }
    }
  }

  const DrawPrefix := "drawtext=text='"

  /**
   * Everything the drawtext filter of main.py:194-203 holds after the quoted text:
   * style, position, and the time window with its commas escaped.
   */
  function DrawOptions(start: string, end: string): string {
    ":fontcolor=white:fontsize=64:borderw=4:bordercolor=black:x=(w-tw)/2:y=h*0.2:"
    + "enable='between(t\\," + start + "\\," + end + ")'"
  }

  /** The drawtext filter, with the two times already rendered as text. */
  function Draw(safe: string, start: string, end: string): string {
    DrawPrefix + safe + "'" + DrawOptions(start, end)
  }

  lemma DrawShape(safe: string, start: string, end: string)
    ensures Draw(safe, start, end) == DrawPrefix + (safe + "'" + DrawOptions(start, end))
  {
    var o := DrawOptions(start, end);
    assert DrawPrefix + safe + "'" + o == DrawPrefix + (safe + "'" + o);
  }

  /**
   * Reading the drawtext filter's text option back gives the headline itself, and
   * the filter's remaining options follow the closing quote.
   */
  lemma DrawTextReadBack(title: string, start: string, end: string)
    requires !EndsInBackslash(title)
    ensures var d := Draw(SafeTitle(title), start, end);
      var n := |DrawPrefix| + |Escape(title)| + 1;
      d[..|DrawPrefix|] == DrawPrefix
      && ReadQuoted(d[|DrawPrefix|..]) == Some(Quoted(title, |Escape(title)| + 1))
      && n <= |d| && d[n..] == DrawOptions(start, end)
  {
    SafeTitleIsEscape(title);
    var e := Escape(title);
    var o := DrawOptions(start, end);
    DrawShape(e, start, end);
    var d := Draw(e, start, end);
    assert d[|DrawPrefix|..] == e + "'" + o;
    ReadEscaped(title, o);
    assert d[|DrawPrefix| + |e| + 1..] == o;
  }

  /** The fixed start of the chain: fill 1080x1920 and crop the overflow. */
  const ScaleCrop := "scale=1080:1920:force_original_aspect_ratio=increase,crop=1080:1920,"

  const SubtitlesPrefix := "subtitles='"

  /** vf (main.py:207-216): the caption filter goes in only when ass_path is a non-empty path. */
  function Vf(assPath: Option<string>, draw: string): string {
    if assPath.Some? && assPath.value != "" then ScaleCrop + SubtitlesPrefix + assPath.value + "'," + draw
    else ScaleCrop + draw
  }

  /** The filters a chain holds after the fixed scale and crop. */
  datatype Chain = Chain(subtitles: Option<string>, draw: string)

  predicate StartsWith(s: string, p: string) { |p| <= |s| && s[..|p|] == p }

  /** Reads a chain back: the optional caption file, then the drawtext filter. */
  function ReadVf(vf: string): Option<Chain> {
    if StartsWith(vf, ScaleCrop) then ReadFilters(vf[|ScaleCrop|..]) else None
  }

  /** The filters after the crop: an optional subtitles='path', then drawtext. */
  function ReadFilters(rest: string): Option<Chain> {
    if StartsWith(rest, "drawtext=") then Some(Chain(None, rest))
    else if StartsWith(rest, SubtitlesPrefix) then
      var parts := SplitOn(rest[|SubtitlesPrefix|..], '\'', 1);
      if |parts| == 2 && StartsWith(parts[1], ",") then Some(Chain(Some(parts[0]), parts[1][1..]))
      else None
    else None
  }

  /** The chain holds a caption filter exactly when a caption path was given. */
  function Captioned(assPath: Option<string>): Option<string> {
    if assPath.Some? && assPath.value != "" then assPath else None
  }

  lemma DrawStart(safe: string, start: string, end: string)
    ensures StartsWith(Draw(safe, start, end), "drawtext=")
  {
    DrawShape(safe, start, end);
  }

  lemma ConcatStarts(p: string, s: string)
    ensures StartsWith(p + s, p) && (p + s)[|p|..] == s
  {
  }

  /** With a caption file, its path comes back from between the quotes. */
  lemma ReadFiltersCaptioned(p: string, draw: string)
    requires StartsWith(draw, "drawtext=") && Lacks(p, '\'')
    ensures ReadFilters(SubtitlesPrefix + (p + "'," + draw)) == Some(Chain(Some(p), draw))
  {
    var inner := p + "'," + draw;
    var rest := SubtitlesPrefix + inner;
    assert !StartsWith(rest, "drawtext=") by { assert rest[0] == 's'; }
    ConcatStarts(SubtitlesPrefix, inner);
    assert inner == p + ['\''] + ("," + draw);
    SplitOnWhole(p, '\'', 0);
    SplitOnFirst(p, "," + draw, '\'', 1);
    ConcatStarts(",", draw);
  }

  /**
   * The chain reads back as the caption path and the drawtext filter (DrawStart):
   * the caption filter is there if and only if ass_path is a non-empty path.
   */
  lemma VfRoundTrip(assPath: Option<string>, draw: string)
    requires StartsWith(draw, "drawtext=")
    requires assPath.Some? ==> Lacks(assPath.value, '\'')
    ensures ReadVf(Vf(assPath, draw)) == Some(Chain(Captioned(assPath), draw))
  {
    if assPath.Some? && assPath.value != "" {
      var p := assPath.value;
      assert Vf(assPath, draw) == ScaleCrop + (SubtitlesPrefix + (p + "'," + draw));
      ConcatStarts(ScaleCrop, SubtitlesPrefix + (p + "'," + draw));
      ReadFiltersCaptioned(p, draw);
    } else {
      ConcatStarts(ScaleCrop, draw);
    }
  }
}
