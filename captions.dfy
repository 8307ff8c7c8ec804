/**
 * Caption chunks (words_to_chunks, main.py:67-78) and the flattening of the
 * transcription's segments into timed words (main.py:177-181). Times are integer
 * milliseconds.
 */
module Captions {
  import opened Wrappers
  import opened Text

  /** {"start": .., "end": .., "word": ..}: one word kept from the transcription. */
  datatype Word = Word(start: int, end: int, word: string)

  /** {"text": .., "start": .., "end": ..}: one caption event. */
  datatype Chunk = Chunk(text: string, start: int, end: int)

  /** A word entry as the transcription engine returns it; any key may be missing. */
  datatype RawWord = RawWord(start: Option<int>, end: Option<int>, word: Option<string>)

  /** A segment of the transcription; its "words" key may be missing. */
  datatype Segment = Segment(words: Option<seq<RawWord>>)

  /** The size of a caption group the pipeline asks for (the default of max_words). */
  const GroupSize := 3

  // ---------------------------------------------------------------- word extraction

  predicate Complete(w: RawWord) {
    w.start.Some? && w.end.Some? && w.word.Some?
  }

  function ToWord(w: RawWord): Word
    requires Complete(w)
  {
    Word(w.start.value, w.end.value, w.word.value)
  }

  /** The entries of one segment that have all three keys, in order. */
  function Kept(ws: seq<RawWord>): seq<Word> {
    if ws == [] then []
    else Kept(ws[..|ws| - 1]) + (if Complete(ws[|ws| - 1]) then [ToWord(ws[|ws| - 1])] else [])
  }

  /** The words of all segments, segment by segment, dropping incomplete entries. */
  function KeptWords(segs: seq<Segment>): seq<Word> {
    if segs == [] then []
    else KeptWords(segs[..|segs| - 1]) + Kept(segs[|segs| - 1].words.GetOr([]))
  }

  /** The nested loops of main.py:177-181, appending to `words`. */
  method ExtractWords(segs: seq<Segment>) returns (words: seq<Word>)
    ensures words == KeptWords(segs)
  {
    words := [];
    for i := 0 to |segs|
      invariant words == KeptWords(segs[..i])
    {
      var ws := segs[i].words.GetOr([]);
      for j := 0 to |ws|
        invariant words == KeptWords(segs[..i]) + Kept(ws[..j])
      {
        var w := ws[j];
        if w.start.Some? && w.end.Some? && w.word.Some? {
          words := words + [Word(w.start.value, w.end.value, w.word.value)];
        }
        assert ws[..j + 1][..j] == ws[..j];
      }
      assert ws[..|ws|] == ws;
      assert segs[..i + 1][..i] == segs[..i];
    }
    assert segs[..|segs|] == segs;
  }

  /** Every word entry of every segment, in order ("words" missing reads as []). */
  function Entries(segs: seq<Segment>): seq<RawWord> {
    if segs == [] then [] else Entries(segs[..|segs| - 1]) + segs[|segs| - 1].words.GetOr([])
  }

  lemma {:induction false} KeptAppend(a: seq<RawWord>, b: seq<RawWord>)
    ensures Kept(a + b) == Kept(a) + Kept(b)
    decreases |b|
  {
    if b != [] {
      KeptAppend(a, b[..|b| - 1]);
      assert (a + b)[..|a + b| - 1] == a + b[..|b| - 1];
    } else {
      assert a + b == a;
    }
  }

  /** Flattening segment by segment is filtering the concatenated entries. */
  lemma {:induction false} KeptWordsFlat(segs: seq<Segment>)
    ensures KeptWords(segs) == Kept(Entries(segs))
  {
    if segs != [] {
      KeptWordsFlat(segs[..|segs| - 1]);
      KeptAppend(Entries(segs[..|segs| - 1]), segs[|segs| - 1].words.GetOr([]));
    }
  }

  /** A word survives exactly when its entry had all three keys. */
  lemma {:induction false} KeptMembers(ws: seq<RawWord>, x: Word)
    ensures x in Kept(ws) <==> exists r :: r in ws && Complete(r) && ToWord(r) == x
  {
    if ws != [] {
      var init := ws[..|ws| - 1];
      KeptMembers(init, x);
      assert ws == init + [ws[|ws| - 1]];
    }
  }

  /** The extracted words are exactly the complete entries of all segments. */
  lemma KeptWordsMembers(segs: seq<Segment>, x: Word)
    ensures x in KeptWords(segs) <==> exists r :: r in Entries(segs) && Complete(r) && ToWord(r) == x
  {
    KeptWordsFlat(segs);
    KeptMembers(Entries(segs), x);
  }

  function CountComplete(ws: seq<RawWord>): nat {
    if ws == [] then 0 else CountComplete(ws[..|ws| - 1]) + (if Complete(ws[|ws| - 1]) then 1 else 0)
  }

  /** One word per complete entry. */
  lemma {:induction false} KeptLength(ws: seq<RawWord>)
    ensures |Kept(ws)| == CountComplete(ws)
  {
    if ws != [] { KeptLength(ws[..|ws| - 1]); }
  }

  // ---------------------------------------------------------------- chunking

  function Min(a: int, b: int): int { if a <= b then a else b }

  /** The words of a group, each stripped: the generator inside " ".join(...). */
  function Stripped(g: seq<Word>): (r: seq<string>)
    ensures |r| == |g|
  {
    seq(|g|, i requires 0 <= i < |g| => Strip(g[i].word))
  }

  /** " ".join(w["word"].strip() for w in group).strip(). */
  function GroupText(g: seq<Word>): string {
    Strip(Join(Stripped(g), " "))
  }

  /** The chunk a non-empty group yields: its text, its first start, its last end. */
  function MakeChunk(g: seq<Word>): Chunk
    requires g != []
  {
    Chunk(GroupText(g), g[0].start, g[|g| - 1].end)
  }

  /** The consecutive groups of `k` words (the last one possibly shorter). */
  function Groups(words: seq<Word>, k: nat): (gs: seq<seq<Word>>)
    requires k >= 1
    ensures forall j :: 0 <= j < |gs| ==> gs[j] != []
  {
    if words == [] then [] else
      var n := Min(k, |words|);
      [words[..n]] + Groups(words[n..], k)
  }

  /** What one group contributes: its chunk, unless its text is blank. */
  function Emit(g: seq<Word>): seq<Chunk>
    requires g != []
  {
    if GroupText(g) != "" then [MakeChunk(g)] else []
  }

  /** One chunk per group whose text is not blank, in group order. */
  function ChunksOf(gs: seq<seq<Word>>): seq<Chunk>
    requires forall j :: 0 <= j < |gs| ==> gs[j] != []
  {
    if gs == [] then [] else Emit(gs[0]) + ChunksOf(gs[1..])
  }

  /**
   * words_to_chunks(words, k), consuming `k` words at a time as the loop does; a
   * group size of 0 makes the first slice empty and stops at once.
   */
  function Chunks(words: seq<Word>, k: nat): seq<Chunk>
    decreases |words|
  {
    if k == 0 || |words| == 0 then []
    else
      var g := words[..Min(k, |words|)];
      Emit(g) + Chunks(words[|g|..], k)
  }

  /**
   * The loop's state after it has consumed the words before `i`: the chunks emitted so
   * far followed by the chunks of the remaining words are all the chunks.
   */
  predicate ChunkedUpTo(words: seq<Word>, k: nat, i: nat, chunks: seq<Chunk>) {
    && (i < |words| ==> Chunks(words, k) == chunks + Chunks(words[i..], k))
    && (i >= |words| ==> Chunks(words, k) == chunks)
  }

  /** The while loop of main.py:67-78. */
  method WordsToChunks(words: seq<Word>, maxWords: nat) returns (chunks: seq<Chunk>)
    ensures chunks == Chunks(words, maxWords)
  {
    chunks := [];
    var i: nat := 0;
    ChunkedAtStart(words, maxWords);
    while i < |words|
      invariant ChunkedUpTo(words, maxWords, i, chunks)
    {
      var next := i + maxWords;
      var group := words[i..Min(next, |words|)];
      if group == [] {
        ChunkedNoProgress(words, maxWords, i, chunks);
        break;
      }
      var text := Strip(Join(Stripped(group), " "));
      ghost var before := chunks;
      if text != "" {
        chunks := chunks + [Chunk(text, group[0].start, group[|group| - 1].end)];
      }
      ChunksStep(words, i, next, maxWords, before, chunks);
      i := next;
    }
  }

  lemma ChunkedAtStart(words: seq<Word>, k: nat)
    ensures ChunkedUpTo(words, k, 0, [])
  {
    assert words[0..] == words;
    if |words| == 0 {
      assert Chunks(words, k) == [];
    }
  }

  /** An empty slice happens only for a group size of 0, which yields no chunks. */
  lemma ChunkedNoProgress(words: seq<Word>, k: nat, i: nat, chunks: seq<Chunk>)
    requires i < |words| && ChunkedUpTo(words, k, i, chunks)
    requires words[i..Min(i + k, |words|)] == []
    ensures chunks == Chunks(words, k)
  {
    assert k == 0;
    assert Chunks(words[i..], k) == [];
    assert chunks + [] == chunks;
  }

  lemma AppendAssoc<T>(a: seq<T>, b: seq<T>, c: seq<T>)
    ensures a + (b + c) == (a + b) + c
  {
  }

  /** Python's clamped slice words[i:i+k] taken in two steps. */
  lemma SliceOfSlice<T>(s: seq<T>, i: nat, next: nat, k: nat)
    requires i < |s| && next == i + k
    ensures s[i..][..Min(k, |s| - i)] == s[i..Min(next, |s|)]
    ensures s[i..][Min(k, |s| - i)..] == s[Min(next, |s|)..]
  {
  }

  /** One turn of the loop: the group at `i` contributes its chunk, then the loop goes on at `next`, `k` words later. */
  lemma ChunksStep(words: seq<Word>, i: nat, next: nat, k: nat, done: seq<Chunk>, now: seq<Chunk>)
    requires i < |words| && k >= 1 && next == i + k
    requires ChunkedUpTo(words, k, i, done)
    requires now == done + Emit(words[i..Min(next, |words|)])
    ensures ChunkedUpTo(words, k, next, now)
  {
    var rest := words[i..];
    SliceOfSlice(words, i, next, k);
    var g := rest[..Min(k, |rest|)];
    AppendAssoc(done, Emit(g), Chunks(rest[|g|..], k));
    if next >= |words| {
      assert |rest[|g|..]| == 0;
      assert now + [] == now;
    }
  }

  /** The loop's chunks are the non-blank groups' chunks, in order. */
  lemma {:induction false} ChunksAreGroupChunks(words: seq<Word>, k: nat)
    requires k >= 1
    ensures Chunks(words, k) == ChunksOf(Groups(words, k))
    decreases |words|
  {
    if words != [] {
      var n := Min(k, |words|);
      ChunksAreGroupChunks(words[n..], k);
      assert Groups(words, k)[1..] == Groups(words[n..], k);
    }
  }

  lemma DivUnique(x: int, k: int, q: int)
    requires k > 0 && q * k <= x < q * k + k
    ensures x / k == q
  {
    var d := x / k - q;
    assert d * k == (x / k) * k - q * k;
    assert -k < d * k < k;
  }

  /** Where group `j` starts: after j groups of k words. */
  function GroupStart(j: nat, k: nat): nat {
    if j == 0 then 0 else GroupStart(j - 1, k) + k
  }

  /** Group `j` starts at word j*k. */
  lemma {:induction false} GroupStartIsProduct(j: nat, k: nat)
    ensures GroupStart(j, k) == j * k
  {
    if j > 0 {
      GroupStartIsProduct(j - 1, k);
      assert (j - 1) * k + k == j * k;
    }
  }

  /** m groups cover the words, and m-1 groups do not: (m-1)*k < n <= m*k. */
  lemma {:induction false} GroupsBounds(words: seq<Word>, k: nat)
    requires k >= 1
    ensures |words| <= GroupStart(|Groups(words, k)|, k)
    ensures |Groups(words, k)| > 0 ==> GroupStart(|Groups(words, k)| - 1, k) < |words|
    decreases |words|
  {
    if words != [] {
      var n := Min(k, |words|);
      var rest := words[n..];
      GroupsBounds(rest, k);
      var m := |Groups(words, k)|;
      assert m == |Groups(rest, k)| + 1;
      assert GroupStart(m, k) == GroupStart(m - 1, k) + k;
      if |words| > k {
        assert GroupStart(m - 1, k) == GroupStart(m - 2, k) + k;
      }
    }
  }

  /** There are ceil(n/k) groups. */
  lemma GroupsCount(words: seq<Word>, k: nat)
    requires k >= 1
    ensures |Groups(words, k)| == (|words| + k - 1) / k
  {
    GroupsBounds(words, k);
    var m := |Groups(words, k)|;
    GroupStartIsProduct(m, k);
    if m > 0 {
      GroupStartIsProduct(m - 1, k);
      assert GroupStart(m, k) == GroupStart(m - 1, k) + k;
    }
    DivUnique(|words| + k - 1, k, m);
  }

  /** Group `j` is the slice words[j*k .. min(j*k+k, n)]. */
  lemma {:induction false} GroupAt(words: seq<Word>, k: nat, j: nat)
    requires k >= 1 && j < |Groups(words, k)|
    ensures GroupStart(j, k) < |words|
    ensures Groups(words, k)[j] == words[GroupStart(j, k)..Min(GroupStart(j, k) + k, |words|)]
    decreases j
  {
    if j > 0 {
      var rest := words[k..];
      assert Groups(words, k)[j] == Groups(rest, k)[j - 1];
      GroupAt(rest, k, j - 1);
      var lo := GroupStart(j - 1, k);
      SliceOfDrop(words, k, lo);
    }
  }

  /** A slice of words[k..] is the slice of words shifted by k. */
  lemma SliceOfDrop<T>(s: seq<T>, k: nat, lo: nat)
    requires k <= |s| && lo < |s| - k
    ensures s[k..][lo..Min(lo + k, |s| - k)] == s[lo + k..Min(lo + k + k, |s|)]
  {
  }

  /** Every chunk's text is non-empty and carries no whitespace at either end. */
  lemma {:induction false} ChunkTextsNonEmpty(gs: seq<seq<Word>>)
    requires forall j :: 0 <= j < |gs| ==> gs[j] != []
    ensures forall c :: c in ChunksOf(gs) ==> c.text != "" && Trimmed(c.text)
  {
    if gs != [] { ChunkTextsNonEmpty(gs[1..]); }
  }

  /** At most one chunk per group. */
  lemma {:induction false} ChunksAtMostGroups(gs: seq<seq<Word>>)
    requires forall j :: 0 <= j < |gs| ==> gs[j] != []
    ensures |ChunksOf(gs)| <= |gs|
  {
    if gs != [] { ChunksAtMostGroups(gs[1..]); }
  }

  /** No word is blank once stripped. */
  predicate NonBlank(words: seq<Word>) {
    forall i :: 0 <= i < |words| ==> Strip(words[i].word) != ""
  }

  /** Joining non-blank stripped words gives a text with no blank ends: the outer strip() is idle. */
  lemma {:induction false} JoinTrimmed(ws: seq<string>)
    requires forall i :: 0 <= i < |ws| ==> ws[i] != [] && Trimmed(ws[i])
    ensures ws != [] ==> Join(ws, " ") != [] && Trimmed(Join(ws, " "))
  {
    if |ws| > 1 {
      JoinTrimmed(ws[1..]);
      var rest := Join(ws[1..], " ");
      assert Join(ws, " ") == ws[0] + " " + rest;
    }
  }

  lemma GroupTextNonBlank(g: seq<Word>)
    requires g != [] && NonBlank(g)
    ensures GroupText(g) == Join(Stripped(g), " ") && GroupText(g) != ""
  {
    JoinTrimmed(Stripped(g));
    StripTrimmed(Join(Stripped(g), " "));
  }

  predicate AllNonBlank(gs: seq<seq<Word>>) {
    forall j :: 0 <= j < |gs| ==> gs[j] != [] && NonBlank(gs[j])
  }

  /** With no blank word, group `j` yields chunk `j`. */
  lemma {:induction false} ChunksOfNonBlank(gs: seq<seq<Word>>)
    requires AllNonBlank(gs)
    ensures |ChunksOf(gs)| == |gs|
    ensures forall j :: 0 <= j < |gs| ==> ChunksOf(gs)[j] == MakeChunk(gs[j])
  {
    if gs != [] {
      GroupTextNonBlank(gs[0]);
      ChunksOfNonBlank(gs[1..]);
    }
  }

  lemma {:induction false} GroupsNonBlank(words: seq<Word>, k: nat)
    requires k >= 1 && NonBlank(words)
    ensures AllNonBlank(Groups(words, k))
    decreases |words|
  {
    if words != [] {
      var n := Min(k, |words|);
      GroupsNonBlank(words[n..], k);
    }
  }

  /** For k >= 1 there are at most ceil(n/k) chunks. */
  lemma ChunkCountBound(words: seq<Word>, k: nat)
    requires k >= 1
    ensures |Chunks(words, k)| <= (|words| + k - 1) / k
  {
    ChunksAreGroupChunks(words, k);
    GroupsCount(words, k);
    ChunksAtMostGroups(Groups(words, k));
  }

  /** With no blank word every group yields a chunk: there are exactly ceil(n/k) chunks. */
  lemma ChunkCountNonBlank(words: seq<Word>, k: nat)
    requires k >= 1 && NonBlank(words)
    ensures |Chunks(words, k)| == (|words| + k - 1) / k
  {
    ChunksAreGroupChunks(words, k);
    GroupsCount(words, k);
    GroupsNonBlank(words, k);
    ChunksOfNonBlank(Groups(words, k));
  }

  /**
   * With no blank word, chunk j is made of the words [j*k, min(j*k+k, n)): their
   * stripped texts joined by spaces, the first word's start and the last word's end.
   */
  lemma ChunkAtNonBlank(words: seq<Word>, k: nat, j: nat)
    requires k >= 1 && NonBlank(words) && j < |Chunks(words, k)|
    ensures GroupStart(j, k) < |words|
    ensures var g := words[GroupStart(j, k)..Min(GroupStart(j, k) + k, |words|)];
      Chunks(words, k)[j] == Chunk(Join(Stripped(g), " "), g[0].start, g[|g| - 1].end)
  {
    ChunkIsGroupChunk(words, k, j);
    GroupAt(words, k, j);
    var g := Groups(words, k)[j];
    var c := Chunks(words, k)[j];
    assert c == Chunk(Join(Stripped(g), " "), g[0].start, g[|g| - 1].end);
    assert g == words[GroupStart(j, k)..Min(GroupStart(j, k) + k, |words|)];
  }

  /** With no blank word, chunk j is the chunk of group j, and its text is the group's stripped words joined. */
  lemma ChunkIsGroupChunk(words: seq<Word>, k: nat, j: nat)
    requires k >= 1 && NonBlank(words) && j < |Chunks(words, k)|
    ensures j < |Groups(words, k)| && Groups(words, k)[j] != []
    ensures var g := Groups(words, k)[j];
      Chunks(words, k)[j] == Chunk(Join(Stripped(g), " "), g[0].start, g[|g| - 1].end)
  {
    ChunksAreGroupChunks(words, k);
    GroupsNonBlank(words, k);
    var gs := Groups(words, k);
    ChunksOfNonBlank(gs);
    GroupTextNonBlank(gs[j]);
  }

  /** Every chunk the loop emits has a non-empty, stripped text. */
  lemma ChunkTexts(words: seq<Word>, k: nat)
    ensures forall c :: c in Chunks(words, k) ==> c.text != "" && Trimmed(c.text)
  {
    if k >= 1 {
      ChunksAreGroupChunks(words, k);
      ChunkTextsNonEmpty(Groups(words, k));
    }
  }

  function Flatten<T>(gs: seq<seq<T>>): seq<T> {
    if gs == [] then [] else gs[0] + Flatten(gs[1..])
  }

  /** The groups partition the word list: their concatenation is the list. */
  lemma {:induction false} GroupsPartition(words: seq<Word>, k: nat)
    requires k >= 1
    ensures Flatten(Groups(words, k)) == words
    decreases |words|
  {
    if words != [] {
      var n := Min(k, |words|);
      GroupsPartition(words[n..], k);
      assert words == words[..n] + words[n..];
    }
  }

  function Texts(cs: seq<Chunk>): (r: seq<string>)
    ensures |r| == |cs|
  {
    seq(|cs|, i requires 0 <= i < |cs| => cs[i].text)
  }

  /** " ".join(a + b) == " ".join(a) + " " + " ".join(b) for non-empty a and b. */
  lemma {:induction false} JoinAppend(a: seq<string>, b: seq<string>)
    requires a != [] && b != []
    ensures Join(a + b, " ") == Join(a, " ") + " " + Join(b, " ")
  {
    if |a| > 1 {
      JoinAppend(a[1..], b);
      assert (a + b)[1..] == a[1..] + b;
    } else {
      assert (a + b)[1..] == b;
    }
  }

  lemma StrippedAppend(a: seq<Word>, b: seq<Word>)
    ensures Stripped(a + b) == Stripped(a) + Stripped(b)
  {
  }

  lemma {:induction false} JoinGroups(gs: seq<seq<Word>>)
    requires AllNonBlank(gs)
    ensures Join(Texts(ChunksOf(gs)), " ") == Join(Stripped(Flatten(gs)), " ")
  {
    if gs != [] {
      JoinGroups(gs[1..]);
      JoinGroupsCons(gs);
    }
  }

  lemma TextsPrepend(c: Chunk, cs: seq<Chunk>)
    ensures Texts([c] + cs) == [c.text] + Texts(cs)
  {
  }

  lemma TextsCons(gs: seq<seq<Word>>)
    requires gs != [] && forall j :: 0 <= j < |gs| ==> gs[j] != []
    requires GroupText(gs[0]) != ""
    ensures Texts(ChunksOf(gs)) == [GroupText(gs[0])] + Texts(ChunksOf(gs[1..]))
  {
    var c := MakeChunk(gs[0]);
    var rest := ChunksOf(gs[1..]);
    assert Emit(gs[0]) == [c];
    assert ChunksOf(gs) == [c] + rest;
    TextsPrepend(c, rest);
  }

  lemma StrippedFlattenCons(gs: seq<seq<Word>>)
    requires gs != []
    ensures Stripped(Flatten(gs)) == Stripped(gs[0]) + Stripped(Flatten(gs[1..]))
  {
    StrippedAppend(gs[0], Flatten(gs[1..]));
  }

  /** The step of JoinGroups: one more group in front on both sides. */
  lemma JoinGroupsCons(gs: seq<seq<Word>>)
    requires gs != [] && AllNonBlank(gs)
    requires Join(Texts(ChunksOf(gs[1..])), " ") == Join(Stripped(Flatten(gs[1..])), " ")
    ensures Join(Texts(ChunksOf(gs)), " ") == Join(Stripped(Flatten(gs)), " ")
  {
    var g := gs[0];
    var tail := gs[1..];
    GroupTextNonBlank(g);
    TextsCons(gs);
    StrippedFlattenCons(gs);
    var front := [GroupText(g)];
    var back := Texts(ChunksOf(tail));
    var mine := Stripped(g);
    var theirs := Stripped(Flatten(tail));
    assert Texts(ChunksOf(gs)) == front + back;
    assert Stripped(Flatten(gs)) == mine + theirs;
    assert Join(front, " ") == Join(mine, " ");
    if tail == [] {
      assert back == [] && theirs == [];
      assert front + back == front && mine + theirs == mine;
    } else {
      ChunksOfNonBlank(tail);
      JoinAppend(front, back);
      JoinAppend(mine, theirs);
    }
  }

  /**
   * With no blank word, the chunk texts joined by single spaces are the stripped
   * words joined by single spaces: the captions reproduce the transcript's words.
   */
  lemma ChunkTextsJoin(words: seq<Word>, k: nat)
    requires k >= 1 && NonBlank(words)
    ensures Join(Texts(Chunks(words, k)), " ") == Join(Stripped(words), " ")
  {
    ChunksAreGroupChunks(words, k);
    GroupsPartition(words, k);
    GroupsNonBlank(words, k);
    JoinGroups(Groups(words, k));
  }
}
