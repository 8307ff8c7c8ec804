/**
 * The overlay headline chosen from the transcript (pick_title_hook, main.py:58-65):
 * split after sentence-ending punctuation, prefer the first sentence that holds one
 * of the trigger words, and keep at most eight words.
 */
module Hook {
  import opened Text

  /** The headline used when there is no transcript at all. */
  const Fallback := "Watch this"

  /** The alternatives of the pattern \b(how|what|why|stop|secret|best|avoid|never)\b. */
  const Triggers := ["how", "what", "why", "stop", "secret", "best", "avoid", "never"]

  /** Longest headline, in whitespace-delimited words. */
  const MaxWords := 8

  predicate IsTerminator(c: char) { c == '.' || c == '!' || c == '?' }

  /** Position `i` starts a match of (?<=[.!?])\s+ : whitespace right after a terminator. */
  predicate IsBreak(s: string, i: int) {
    0 < i < |s| && IsTerminator(s[i - 1]) && IsSpace(s[i])
  }

  /** The leftmost split position at or after `k`, or |s| when there is none. */
  function FirstBreak(s: string, k: nat): (i: nat)
    requires 1 <= k
    ensures i == |s| || (k <= i < |s| && IsBreak(s, i))
    ensures forall j :: k <= j < i ==> !IsBreak(s, j)
    decreases |s| - k
  {
    if k >= |s| then |s| else if IsBreak(s, k) then k else FirstBreak(s, k + 1)
  }

  /**
   * re.split(r'(?<=[.!?])\s+', s): the pieces between the whitespace runs that follow
   * a terminator. A match always swallows the whole run, so the next piece starts at
   * the first non-whitespace character after it.
   */
  function Sentences(s: string): (cs: seq<string>)
    ensures |cs| >= 1
    decreases |s|
  {
    var i := FirstBreak(s, 1);
    if i == |s| then [s]
    else [s[..i]] + Sentences(s[SkipSpace(s, i)..])
  }

  /** No split position inside `c`. */
  predicate Unbroken(c: string) {
    forall j :: 0 <= j < |c| ==> !IsBreak(c, j)
  }

  /** No piece re.split returns holds a split position: each was cut at every match. */
  lemma {:induction false} SentencesUnbroken(s: string)
    ensures forall n :: 0 <= n < |Sentences(s)| ==> Unbroken(Sentences(s)[n])
    decreases |s|
  {
    var i := FirstBreak(s, 1);
    if i == |s| {
      assert Sentences(s) == [s];
    } else {
      var rest := s[SkipSpace(s, i)..];
      SentencesUnbroken(rest);
      var head := s[..i];
      assert Sentences(s) == [head] + Sentences(rest);
      assert forall m :: 0 <= m < |head| ==> IsBreak(head, m) == IsBreak(s, m);
    }
  }

  /** Every piece but the last ends in the terminator whose following whitespace was cut. */
  lemma {:induction false} SentencesTerminated(s: string)
    ensures forall n :: 0 <= n < |Sentences(s)| - 1 ==>
      Sentences(s)[n] != [] && IsTerminator(Sentences(s)[n][|Sentences(s)[n]| - 1])
    decreases |s|
  {
    var i := FirstBreak(s, 1);
    if i != |s| {
      var rest := s[SkipSpace(s, i)..];
      SentencesTerminated(rest);
      var head := s[..i];
      assert Sentences(s) == [head] + Sentences(rest);
      assert head[|head| - 1] == s[i - 1];
    }
  }

  /** The first piece is a prefix of the input: the text up to its first split position. */
  lemma SentencesFirst(s: string)
    ensures var c := Sentences(s)[0]; |c| <= |s| && c == s[..|c|]
  {
    var i := FirstBreak(s, 1);
    if i == |s| {
      assert s[..|s|] == s;
    }
  }

  /** A stripped, non-empty input yields only non-empty pieces. */
  lemma {:induction false} SentencesNonEmpty(s: string)
    requires s != [] && Trimmed(s)
    ensures forall n :: 0 <= n < |Sentences(s)| ==> Sentences(s)[n] != []
    decreases |s|
  {
    var i := FirstBreak(s, 1);
    if i != |s| {
      var j := SkipSpace(s, i);
      SkipSpaceFacts(s, i);
      assert j < |s|;
      var rest := s[j..];
      assert rest[0] == s[j] && rest[|rest| - 1] == s[|s| - 1];
      SentencesNonEmpty(rest);
      assert Sentences(s) == [s[..i]] + Sentences(rest);
    }
  }

  /** The whitespace runs re.split cuts out, one between each two pieces. */
  function Cuts(s: string): (gs: seq<string>)
    ensures |gs| == |Sentences(s)| - 1
    decreases |s|
  {
    var i := FirstBreak(s, 1);
    if i == |s| then []
    else
      var j := SkipSpace(s, i);
      [s[i..j]] + Cuts(s[j..])
  }

  /** cs[0] + cuts[0] + cs[1] + ... + cuts[n-2] + cs[n-1]. */
  function Rejoin(cs: seq<string>, cuts: seq<string>): string
    requires |cs| == |cuts| + 1
  {
    if cuts == [] then cs[0] else cs[0] + cuts[0] + Rejoin(cs[1..], cuts[1..])
  }

  /** Nothing but the cut whitespace is lost: the pieces with the runs between them rebuild the input. */
  lemma {:induction false} SentencesRebuild(s: string)
    ensures Rejoin(Sentences(s), Cuts(s)) == s
    decreases |s|
  {
    var i := FirstBreak(s, 1);
    if i < |s| {
      var j := SkipSpace(s, i);
      var rest := s[j..];
      SentencesRebuild(rest);
      var cs, gs := Sentences(s), Cuts(s);
      assert cs == [s[..i]] + Sentences(rest) && cs[1..] == Sentences(rest);
      assert gs == [s[i..j]] + Cuts(rest) && gs[1..] == Cuts(rest);
      assert s == s[..i] + s[i..j] + rest;
    }
  }

  /**
   * Each cut run is non-empty whitespace and maximal: the piece after it does not
   * start with whitespace. (SentencesTerminated: the piece before it ends in a terminator.)
   */
  lemma {:induction false} CutsAreRuns(s: string)
    ensures forall k :: 0 <= k < |Cuts(s)| ==>
      Cuts(s)[k] != [] && AllSpace(Cuts(s)[k])
      && (Sentences(s)[k + 1] == [] || !IsSpace(Sentences(s)[k + 1][0]))
    decreases |s|
  {
    var i := FirstBreak(s, 1);
    if i < |s| {
      var j := SkipSpace(s, i);
      SkipSpaceFacts(s, i);
      var rest := s[j..];
      CutsAreRuns(rest);
      var cs, gs := Sentences(s), Cuts(s);
      assert cs[1..] == Sentences(rest);
      assert gs[1..] == Cuts(rest);
      assert gs[0] == s[i..j] && cs[1] == Sentences(rest)[0];
      assert Sentences(rest)[0] == [] || Sentences(rest)[0][0] == s[j] by {
        SentencesFirst(rest);
      }
      forall k | 1 <= k < |gs|
        ensures gs[k] == Cuts(rest)[k - 1] && cs[k + 1] == Sentences(rest)[k]
      {
      }
    }
  }

  /** `w` occurs in `c` at `p`, ignoring case, with a \b boundary on both sides. */
  predicate WordAt(c: string, p: nat, w: string) {
    && p + |w| <= |c|
    && Lower(c[p..p + |w|]) == w
    && (p == 0 || !IsWordChar(c[p - 1]))
    && (p + |w| == |c| || !IsWordChar(c[p + |w|]))
  }

  /** re.search(r'\b(how|what|why|stop|secret|best|avoid|never)\b', c, re.I) finds a match. */
  predicate HasTrigger(c: string) {
    exists p, w | 0 <= p < |c| && w in Triggers :: WordAt(c, p, w)
  }

  /** [c for c in cs if HasTrigger(c)]. */
  function Strong(cs: seq<string>): seq<string> {
    if cs == [] then [] else (if HasTrigger(cs[0]) then [cs[0]] else []) + Strong(cs[1..])
  }

  /** strong[0] if strong else (candidates[0] if candidates else "Watch this"). */
  function ChooseLine(cs: seq<string>): string {
    var strong := Strong(cs);
    if |strong| > 0 then strong[0] else if |cs| > 0 then cs[0] else Fallback
  }

  /** The line chosen is the first candidate holding a trigger word. */
  lemma {:induction false} ChooseFirstTrigger(cs: seq<string>, j: nat)
    requires j < |cs| && HasTrigger(cs[j])
    requires forall i :: 0 <= i < j ==> !HasTrigger(cs[i])
    ensures ChooseLine(cs) == cs[j]
  {
    StrongFirst(cs, j);
  }

  lemma {:induction false} StrongFirst(cs: seq<string>, j: nat)
    requires j < |cs| && HasTrigger(cs[j])
    requires forall i :: 0 <= i < j ==> !HasTrigger(cs[i])
    ensures |Strong(cs)| > 0 && Strong(cs)[0] == cs[j]
  {
    if j > 0 {
      StrongFirst(cs[1..], j - 1);
    }
  }

  /** With no trigger anywhere, the line chosen is the first candidate. */
  lemma {:induction false} ChooseWithoutTrigger(cs: seq<string>)
    requires |cs| > 0
    requires forall c :: c in cs ==> !HasTrigger(c)
    ensures ChooseLine(cs) == cs[0]
  {
    StrongNone(cs);
  }

  lemma {:induction false} StrongNone(cs: seq<string>)
    requires forall c :: c in cs ==> !HasTrigger(c)
    ensures Strong(cs) == []
  {
    if cs != [] {
      StrongNone(cs[1..]);
    }
  }

  /**
   * " ".join(words[:8]) if len(words) > 8 else line: the result's words are the first
   * eight of the line's, and a line of at most eight words comes back verbatim.
   */
  function Shorten(line: string): (r: string)
    ensures var ws := SplitWords(line);
      SplitWords(r) == if |ws| > MaxWords then ws[..MaxWords] else ws
    ensures |SplitWords(line)| <= MaxWords ==> r == line
  {
    var words := SplitWords(line);
    if |words| > MaxWords then
      SplitJoin(words[..MaxWords]);
      Join(words[..MaxWords], " ")
    else line
  }

  /** pick_title_hook(text). */
  function PickTitleHook(text: string): string {
    if text == "" then Fallback else Shorten(ChooseLine(Sentences(Strip(text))))
  }

  /** The headline never has more than eight words; an empty transcript gets the fallback. */
  lemma HookIsShort(text: string)
    ensures text == "" ==> PickTitleHook(text) == Fallback
    ensures |SplitWords(PickTitleHook(text))| <= MaxWords
  {
    if text != "" {
      var line := ChooseLine(Sentences(Strip(text)));
      assert PickTitleHook(text) == Shorten(line);
    } else {
      assert SplitWords(Fallback) == ["Watch", "this"] by {
        SplitJoin(["Watch", "this"]);
        assert Join(["Watch", "this"], " ") == Fallback;
      }
    }
  }

  /**
   * For a non-empty transcript the headline is the first sentence holding a trigger
   * word, shortened to eight words.
   */
  lemma HookPrefersTrigger(text: string, j: nat)
    requires text != ""
    requires var cs := Sentences(Strip(text));
      j < |cs| && HasTrigger(cs[j]) && forall i :: 0 <= i < j ==> !HasTrigger(cs[i])
    ensures PickTitleHook(text) == Shorten(Sentences(Strip(text))[j])
  {
    ChooseFirstTrigger(Sentences(Strip(text)), j);
  }

  /** Without any trigger word the headline is the first sentence, shortened. */
  lemma HookFallsBackToFirst(text: string)
    requires text != ""
    requires forall c :: c in Sentences(Strip(text)) ==> !HasTrigger(c)
    ensures PickTitleHook(text) == Shorten(Sentences(Strip(text))[0])
  {
    var cs := Sentences(Strip(text));
    ChooseWithoutTrigger(cs);
  }

  /** A transcript of whitespace only yields the empty headline, not the fallback. */
  lemma HookOfBlank(text: string)
    requires text != "" && AllSpace(text)
    ensures PickTitleHook(text) == ""
  {
    StripBlank(text);
    var cs := Sentences(Strip(text));
    assert cs == [""];
    assert !HasTrigger("");
    ChooseWithoutTrigger(cs);
    assert SplitWords("") == [];
  }
}
