/**
 * The caption file (make_ass_from_chunks, main.py:80-104): a fixed Advanced
 * SubStation Alpha header followed by one "Dialogue:" event per caption chunk,
 * with start and end rendered by the local helper ts (main.py:93-99).
 *
 * Times are whole milliseconds; ts's float arithmetic is computed exactly.
 */
module Subtitles {
  import opened Wrappers
  import opened Text
  import opened Captions

  /** The script header, byte for byte (main.py:81-92). */
  const Header: string :=
    "[Script Info]\n"
    + "ScriptType: v4.00+\n"
    + "PlayResX: 1080\n"
    + "PlayResY: 1920\n"
    + "\n"
    + "[V4+ Styles]\n"
    + "Format: Name, Fontname, Fontsize, PrimaryColour, OutlineColour, BackColour, Bold, Italic, Underline, StrikeOut, ScaleX, ScaleY, Spacing, Angle, BorderStyle, Outline, Shadow, Alignment, MarginL, MarginR, MarginV, Encoding\n"
    + "Style: TikTokClassic,Arial,64,&H00FFFFFF,&H00000000,&H00000000,1,0,0,0,100,100,0,0,1,4,0,2,80,80,240,1\n"
    + "\n"
    + "[Events]\n"
    + "Format: Layer, Start, End, Style, Name, MarginL, MarginR, MarginV, Effect, Text\n"

  /** The four fields ts prints: hours, minutes, seconds, centiseconds. */
  datatype Clock = Clock(h: nat, m: nat, s: nat, cs: nat)

  /** max(0.0, t) */
  function Clamp(t: int): nat { if t < 0 then 0 else t }

  /** Python's round(n / 10): the nearest whole number, ties to the even one. */
  function RoundTenth(n: nat): (r: nat)
    ensures -5 <= 10 * r - n <= 5
    ensures (10 * r - n == 5 || n - 10 * r == 5) ==> r % 2 == 0
  {
    var q := n / 10;
    var rem := n % 10;
    if rem < 5 then q else if rem > 5 then q + 1 else if q % 2 == 0 then q else q + 1
  }

  /** The contract of RoundTenth pins its result down: no other number meets it. */
  lemma RoundTenthUnique(n: nat, r: nat)
    requires -5 <= 10 * r - n <= 5
    requires (10 * r - n == 5 || n - 10 * r == 5) ==> r % 2 == 0
    ensures r == RoundTenth(n)
  {
  }

  /**
   * The fields of ts(t) for a time of `t` milliseconds: the whole seconds are split
   * into h, m and s, and the fraction is rounded to centiseconds on its own, so it
   * can come out as 100.
   */
  function ClockOf(t: int): (c: Clock)
    ensures c.m < 60 && c.s < 60 && c.cs <= 100
  {
    var ms := Clamp(t);
    var whole := ms / 1000;
    Clock(whole / 3600, (whole / 60) % 60, whole % 60, RoundTenth(ms % 1000))
  }

  /** The time a clock denotes, in milliseconds. */
  function Millis(c: Clock): nat {
    (c.h * 3600 + c.m * 60 + c.s) * 1000 + c.cs * 10
  }

  /** h, m and s together are exactly the whole seconds of the clamped time. */
  lemma ClockWholeSeconds(t: int)
    ensures var c := ClockOf(t); c.h * 3600 + c.m * 60 + c.s == Clamp(t) / 1000
  {
    var w := Clamp(t) / 1000;
    var q, r := w / 60, w % 60;
    var h, m := q / 60, q % 60;
    assert q == h * 60 + m && w == q * 60 + r;
    assert w == h * 3600 + (m * 60 + r);
    assert w / 3600 == h;
  }

  /** The rendered clock is within half a centisecond of the clamped time. */
  lemma ClockAccuracy(t: int)
    ensures -5 <= Millis(ClockOf(t)) - Clamp(t) <= 5
  {
    ClockWholeSeconds(t);
    var ms := Clamp(t);
    assert ms == (ms / 1000) * 1000 + ms % 1000;
  }

  /**
   * ts never carries: the centisecond field reads 100 exactly when the fraction
   * rounds up to a whole second, and the seconds field still shows the truncated second.
   */
  lemma CentisecondsOverflow(t: int)
    ensures ClockOf(t).cs == 100 <==> Clamp(t) % 1000 >= 995
    ensures ClockOf(t).s == (Clamp(t) / 1000) % 60
  {
  }

  /** f"{h:01d}:{m:02d}:{s:02d}.{cs:02d}" */
  function Ts(t: int): string {
    var c := ClockOf(t);
    NatStr(c.h) + ":" + Pad2(c.m) + ":" + Pad2(c.s) + "." + Pad2(c.cs)
  }

  /** 59.996 s renders with a three-digit centisecond field. */
  lemma TsNoCarryExample()
    ensures Ts(59996) == "0:00:59.100"
  {
    var c := ClockOf(59996);
    assert c == Clock(0, 0, 59, 100);
    assert NatStr(0) == "0";
    assert Pad2(0) == "00";
    assert NatStr(5) == "5" && NatStr(9) == "9";
    assert Pad2(59) == "59";
    assert NatStr(10) == "10";
    assert NatStr(100) == NatStr(10) + "0";
    assert Pad2(100) == "100";
  }

  /** Reads "H:MM:SS.CC" back into its four fields. */
  function ParseTs(s: string): Option<Clock> {
    var p := SplitOn(s, ':', 2);
    if |p| != 3 then None
    else
      var q := SplitOn(p[2], '.', 1);
      if |q| != 2 then None
      else
        match (ParseNat(p[0]), ParseNat(p[1]), ParseNat(q[0]), ParseNat(q[1]))
        case (Some(h), Some(m), Some(sec), Some(cs)) => Some(Clock(h, m, sec, cs))
        case _ => None
  }

  /** Nothing but digits, ':' and '.' appear in a rendered time. */
  lemma TsChars(t: int)
    ensures forall i :: 0 <= i < |Ts(t)| ==> IsDigit(Ts(t)[i]) || Ts(t)[i] == ':' || Ts(t)[i] == '.'
  {
  }

  /** Parsing a rendered time gives back exactly the fields ts computed. */
  lemma TsRoundTrip(t: int)
    ensures ParseTs(Ts(t)) == Some(ClockOf(t))
  {
    var c := ClockOf(t);
    var secs := Pad2(c.s) + "." + Pad2(c.cs);
    var fs := [NatStr(c.h), Pad2(c.m), secs];
    assert Join(fs[2..], ":") == secs;
    assert Join(fs[1..], ":") == Pad2(c.m) + ":" + secs by { assert fs[1..][1..] == fs[2..]; }
    assert Join(fs, ":") == NatStr(c.h) + ":" + (Pad2(c.m) + ":" + secs);
    assert Ts(t) == Join(fs, ":");
    SplitOnJoin(fs, ':');
    var gs := [Pad2(c.s), Pad2(c.cs)];
    assert secs == Join(gs, ".");
    SplitOnJoin(gs, '.');
    ParseNatStr(c.h);
    ParsePad2(c.m);
    ParsePad2(c.s);
    ParsePad2(c.cs);
  }

  /** Re-reading a rendered time lands within half a centisecond of the clamped input. */
  lemma TsReadBack(t: int)
    ensures ParseTs(Ts(t)).Some? && -5 <= Millis(ParseTs(Ts(t)).value) - Clamp(t) <= 5
  {
    TsRoundTrip(t);
    ClockAccuracy(t);
  }

  /** The event line written for one chunk (main.py:104), newline included. */
  function DialogueLine(c: Chunk): string {
    "Dialogue: 0," + Ts(c.start) + "," + Ts(c.end) + ",TikTokClassic,,0,0,0,," + c.text + "\n"
  }

  /** The event lines of a sequence of chunks, in order. */
  function Events(chunks: seq<Chunk>): string {
    if chunks == [] then "" else DialogueLine(chunks[0]) + Events(chunks[1..])
  }

  /** The whole caption file written for `chunks`. */
  function Document(chunks: seq<Chunk>): string {
    Header + Events(chunks)
  }

  lemma {:induction false} EventsSnoc(chunks: seq<Chunk>, c: Chunk)
    ensures Events(chunks + [c]) == Events(chunks) + DialogueLine(c)
  {
    if chunks == [] {
      assert [c][1..] == [];
    } else {
      var first := DialogueLine(chunks[0]);
      assert (chunks + [c])[1..] == chunks[1..] + [c];
      assert Events(chunks + [c]) == first + Events(chunks[1..] + [c]);
      EventsSnoc(chunks[1..], c);
      AppendAssoc(first, Events(chunks[1..]), DialogueLine(c));
    }
  }

  lemma TakeNext<T>(s: seq<T>, i: nat)
    requires i < |s|
    ensures s[..i + 1] == s[..i] + [s[i]]
  {
  }

  /**
   * The loop of make_ass_from_chunks (main.py:103-104): after what is already in the
   * file, one event line per chunk, in order.
   */
  method WriteEvents(written: string, chunks: seq<Chunk>) returns (doc: string)
    ensures doc == written + Events(chunks)
  {
    doc := written;
    for i := 0 to |chunks|
      invariant doc == written + Events(chunks[..i])
    {
      var line := DialogueLine(chunks[i]);
      EventsSnoc(chunks[..i], chunks[i]);
      TakeNext(chunks, i);
      AppendAssoc(written, Events(chunks[..i]), line);
      doc := doc + line;
    }
    assert chunks[..|chunks|] == chunks;
  }

  /** make_ass_from_chunks: the header, then the events; the result is the file's content. */
  method MakeAss(chunks: seq<Chunk>) returns (doc: string)
    ensures doc == Document(chunks)
  {
    doc := WriteEvents(Header, chunks);
  }

  /** What a subtitle renderer takes from one event line. */
  datatype Event = Event(start: Clock, end: Clock, text: string)

  function EventOf(c: Chunk): Event {
    Event(ClockOf(c.start), ClockOf(c.end), c.text)
  }

  function EventsOf(chunks: seq<Chunk>): (es: seq<Event>)
    ensures |es| == |chunks|
  {
    if chunks == [] then [] else [EventOf(chunks[0])] + EventsOf(chunks[1..])
  }

  const EventPrefix := "Dialogue: "

  /**
   * Reads one event line (without its newline) the way the format defines it: after
   * the prefix, ten comma-separated fields of which the last, the text, may itself
   * hold commas.
   */
  function ReadEvent(line: string): Option<Event> {
    if |line| < |EventPrefix| || line[..|EventPrefix|] != EventPrefix then None
    else
      var f := SplitOn(line[|EventPrefix|..], ',', 9);
      if |f| != 10 || f[0] != "0" || f[3] != "TikTokClassic" then None
      else
        match (ParseTs(f[1]), ParseTs(f[2]))
        case (Some(a), Some(b)) => Some(Event(a, b, f[9]))
        case _ => None
  }

  /** The fields of an event line, after its prefix. */
  function Fields(c: Chunk): seq<string> {
    ["0", Ts(c.start), Ts(c.end), "TikTokClassic", "", "0", "0", "0", "", c.text]
  }

  /** The constant middle fields and the text, joined by commas. */
  lemma JoinStyleFields(t: string)
    ensures Join(["TikTokClassic", "", "0", "0", "0", "", t], ",") == "TikTokClassic,,0,0,0,," + t
  {
    var f := ["TikTokClassic", "", "0", "0", "0", "", t];
    assert Join(f[6..], ",") == t;
    assert Join(f[5..], ",") == "," + t by { assert f[5..][1..] == f[6..]; }
    assert Join(f[4..], ",") == "0,," + t by { assert f[4..][1..] == f[5..]; }
    assert Join(f[3..], ",") == "0,0,," + t by { assert f[3..][1..] == f[4..]; }
    assert Join(f[2..], ",") == "0,0,0,," + t by { assert f[2..][1..] == f[3..]; }
    assert Join(f[1..], ",") == ",0,0,0,," + t by { assert f[1..][1..] == f[2..]; }
  }

  /** The ten fields joined by commas spell out the f-string of main.py:104. */
  lemma FieldsJoinLiteral(a: string, b: string, t: string)
    ensures "Dialogue: 0," + a + "," + b + ",TikTokClassic,,0,0,0,," + t
         == EventPrefix + Join(["0", a, b, "TikTokClassic", "", "0", "0", "0", "", t], ",")
  {
    var f := ["0", a, b, "TikTokClassic", "", "0", "0", "0", "", t];
    var tail := ",TikTokClassic,,0,0,0,," + t;
    JoinStyleFields(t);
    assert Join(f[3..], ",") == "TikTokClassic,,0,0,0,," + t by {
      assert f[3..] == ["TikTokClassic", "", "0", "0", "0", "", t];
    }
    assert Join(f[2..], ",") == b + tail by { assert f[2..][1..] == f[3..]; }
    assert Join(f[1..], ",") == a + "," + (b + tail) by { assert f[1..][1..] == f[2..]; }
    assert Join(f, ",") == "0," + (a + "," + (b + tail));
    LiteralRegroup(a, b, t);
  }

  lemma LiteralRegroup(a: string, b: string, t: string)
    ensures "Dialogue: 0," + a + "," + b + ",TikTokClassic,,0,0,0,," + t
         == EventPrefix + ("0," + (a + "," + (b + (",TikTokClassic,,0,0,0,," + t))))
  {
    var head := "Dialogue: 0," + a + "," + b;
    var tail := ",TikTokClassic,,0,0,0,," + t;
    assert head + ",TikTokClassic,,0,0,0,," + t == head + tail;
    assert EventPrefix + ("0," + (a + "," + (b + tail))) == head + tail;
  }

  lemma FieldsJoin(c: Chunk)
    ensures DialogueLine(c) == EventPrefix + Join(Fields(c), ",") + "\n"
  {
    FieldsJoinLiteral(Ts(c.start), Ts(c.end), c.text);
  }

  /** A rendered time holds no comma and no newline. */
  lemma TsLacks(t: int)
    ensures Lacks(Ts(t), ',') && Lacks(Ts(t), '\n')
  {
    TsChars(t);
  }

  /** Only the text field may hold a comma. */
  lemma FieldsLackComma(a: string, b: string, t: string)
    requires Lacks(a, ',') && Lacks(b, ',')
    ensures var f := ["0", a, b, "TikTokClassic", "", "0", "0", "0", "", t];
      forall i :: 0 <= i < |f| - 1 ==> Lacks(f[i], ',')
  {
    var f := ["0", a, b, "TikTokClassic", "", "0", "0", "0", "", t];
    assert Lacks("0", ',') && Lacks("", ',') && Lacks("TikTokClassic", ',');
    forall i | 0 <= i < |f| - 1
      ensures Lacks(f[i], ',')
    {
      assert f[i] in {"0", a, b, "TikTokClassic", ""};
    }
  }

  /** Each event line reads back as the chunk's clocks and its text, commas and all. */
  lemma ReadDialogue(c: Chunk)
    ensures var line := DialogueLine(c); ReadEvent(line[..|line| - 1]) == Some(EventOf(c))
  {
    var line := DialogueLine(c);
    var f := Fields(c);
    FieldsJoin(c);
    var body := Join(f, ",");
    assert line[..|line| - 1] == EventPrefix + body;
    assert (EventPrefix + body)[..|EventPrefix|] == EventPrefix;
    assert (EventPrefix + body)[|EventPrefix|..] == body;
    TsLacks(c.start);
    TsLacks(c.end);
    FieldsLackComma(Ts(c.start), Ts(c.end), c.text);
    SplitOnJoin(f, ',');
    TsRoundTrip(c.start);
    TsRoundTrip(c.end);
  }

  /** The length of the first line of `s`: the position of its first newline, or |s| when it has none. */
  function LineEnd(s: string): (i: nat)
    ensures i <= |s| && (i < |s| ==> s[i] == '\n')
    ensures forall j :: 0 <= j < i ==> s[j] != '\n'
  {
    if s == [] || s[0] == '\n' then 0 else 1 + LineEnd(s[1..])
  }

  /** Reads newline-terminated event lines back; None if a line is unterminated or is no event. */
  function ReadEvents(s: string): Option<seq<Event>>
    decreases |s|
  {
    if s == [] then Some([])
    else
      var i := LineEnd(s);
      if i == |s| then None
      else
        match ReadEvent(s[..i])
        case None => None
        case Some(e) =>
          match ReadEvents(s[i + 1..])
          case None => None
          case Some(es) => Some([e] + es)
  }

  lemma LineEndAt(a: string, b: string)
    requires Lacks(a, '\n')
    ensures LineEnd(a + "\n" + b) == |a|
  {
    var s := a + "\n" + b;
    assert s[|a|] == '\n';
    assert forall j :: 0 <= j < |a| ==> s[j] == a[j];
  }

  /** Reading a line that is an event, then the rest. */
  lemma ReadEventsCons(line: string, rest: string, e: Event)
    requires Lacks(line, '\n') && ReadEvent(line) == Some(e) && ReadEvents(rest).Some?
    ensures ReadEvents(line + "\n" + rest) == Some([e] + ReadEvents(rest).value)
  {
    var s := line + "\n" + rest;
    LineEndAt(line, rest);
    assert s[..|line|] == line;
    assert s[|line| + 1..] == rest;
  }

  /** An event line is its fields and one newline, which the fields do not hold. */
  lemma DialogueLineEnds(c: Chunk)
    requires Lacks(c.text, '\n')
    ensures var line := DialogueLine(c);
      |line| >= 1 && line == line[..|line| - 1] + "\n" && Lacks(line[..|line| - 1], '\n')
  {
    var line := DialogueLine(c);
    var head := "Dialogue: 0," + Ts(c.start) + "," + Ts(c.end) + ",TikTokClassic,,0,0,0,," + c.text;
    assert line == head + "\n";
    assert line[..|line| - 1] == head;
    TsLacks(c.start);
    TsLacks(c.end);
    assert Lacks("Dialogue: 0,", '\n') && Lacks(",", '\n') && Lacks(",TikTokClassic,,0,0,0,,", '\n');
    LacksConcat("Dialogue: 0,", Ts(c.start), '\n');
    LacksConcat("Dialogue: 0," + Ts(c.start), ",", '\n');
    LacksConcat("Dialogue: 0," + Ts(c.start) + ",", Ts(c.end), '\n');
    LacksConcat("Dialogue: 0," + Ts(c.start) + "," + Ts(c.end), ",TikTokClassic,,0,0,0,,", '\n');
    LacksConcat("Dialogue: 0," + Ts(c.start) + "," + Ts(c.end) + ",TikTokClassic,,0,0,0,,", c.text, '\n');
  }

  /**
   * The event lines of a caption file read back, in order, as the chunks' rounded clocks
   * and texts, provided no text holds a newline.
   */
  lemma {:induction false} EventsReadBack(chunks: seq<Chunk>)
    requires forall k :: 0 <= k < |chunks| ==> Lacks(chunks[k].text, '\n')
    ensures ReadEvents(Events(chunks)) == Some(EventsOf(chunks))
  {
    if chunks != [] {
      var line := DialogueLine(chunks[0]);
      DialogueLineEnds(chunks[0]);
      var body := line[..|line| - 1];
      var rest := Events(chunks[1..]);
      assert Events(chunks) == body + "\n" + rest;
      ReadDialogue(chunks[0]);
      EventsReadBack(chunks[1..]);
      ReadEventsCons(body, rest, EventOf(chunks[0]));
    }
  }
}
