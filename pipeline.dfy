/**
 * The /process handler (main.py:107-286) as a sequence of observable effects: the
 * gate, the working directory, the external stages in order, the notices posted,
 * and the response. What the outside world does (which stage raises and with what
 * message, what the transcription returns) is an input.
 */
module Pipeline {
  import opened Wrappers
  import opened Text
  import opened Hook
  import opened Captions
  import opened Subtitles
  import opened Filtergraph
  import opened Request

  /** The steps of the try block that can raise. */
  datatype Stage =
    | Download      // download_file (main.py:156)
    | ExtractAudio  // ffmpeg to 16 kHz mono wav (main.py:160)
    | Transcribe    // the speech model (main.py:161)
    | TrimSilence   // ffmpeg silenceremove (main.py:169-174)
    | WriteCaptions // the caption file (main.py:185)
    | Render        // ffmpeg with the filter chain (main.py:218-224)
    | Normalize     // ffmpeg loudnorm (main.py:228-234)
    | OpenFinal     // opening the final file for upload (main.py:241)

  /**
   * What a stage is given beyond the fixed file names: the pause_trim_ms setting the
   * silence filter is built from, the chunks whose caption file it writes (the file's
   * text is Subtitles.Document of them), or the filter chain.
   */
  datatype Input = Fixed | Silence(pauseTrimMs: Value) | CaptionFile(chunks: seq<Chunk>) | Filters(vf: string)

  /** One attempted stage. */
  datatype Step = Step(stage: Stage, input: Input)

  datatype Target = Zapier | Base44

  /**
   * The two notices: READY with the headline (and the file), sent with "source": "render";
   * FAILED with the truncated error, where `tagged` says whether "source": "render" is included.
   */
  datatype Notice =
    | Ready(videoId: Value, titleHook: string)
    | Failed(videoId: Value, errorMsg: string, tagged: bool)

  datatype Effect =
    | MakeWorkdir
    | Run(step: Step)
    | Post(target: Target, notice: Notice)
    | RemoveWorkdir

  /** The configuration read from the environment (main.py:7-11), URLs already stripped. */
  datatype Env = Env(secret: string, zapierUrl: string, base44Url: string)

  /**
   * What happens outside the program: the directory mkdtemp returns, the stages that
   * raise and their messages, the transcription's text and segments, and Python's
   * floating point: `window(hook_start, hook_duration)` is the text of float(hook_start)
   * and of float(hook_start) + float(hook_duration), as main.py:199-203 formats them.
   */
  datatype World = World(
    workdir: string,
    failures: map<Stage, string>,
    transcript: string,
    segments: seq<Segment>,
    window: (Value, Value) -> (string, string))

  datatype Response = Ok | Status(code: nat, detail: string)

  /** os.path.join(dir, name) for a relative name. */
  function JoinPath(dir: string, name: string): string {
    if dir == [] then name else if dir[|dir| - 1] == '/' then dir + name else dir + "/" + name
  }

  /** str(e)[:800] */
  function Truncate(msg: string, n: nat): (r: string)
    ensures |r| == if |msg| <= n then |msg| else n
    ensures |r| <= n && |r| <= |msg| && r == msg[..|r|]
    ensures |msg| <= n ==> r == msg
  {
    if |msg| <= n then msg else msg[..n]
  }

  const ErrorLimit := 800

  /** The headline of main.py:162-165. */
  function TitleHook(world: World): string {
    PickTitleHook(Strip(world.transcript))
  }

  /** Whether the caption file is written (main.py:182-185). */
  predicate WritesCaptions(job: Job, world: World) {
    job.hasCaptions && KeptWords(world.segments) != []
  }

  function CaptionPath(job: Job, world: World): Option<string> {
    if WritesCaptions(job, world) then Some(JoinPath(world.workdir, "captions.ass")) else None
  }

  /** The start and end of the headline's display window, from the job's settings. */
  function Window(job: Job, world: World): (string, string) {
    world.window(job.hookStart, job.hookDuration)
  }

  /** The filter chain handed to the render stage (main.py:187-216). */
  function FilterChain(job: Job, world: World): string {
    Vf(CaptionPath(job, world), Draw(SafeTitle(TitleHook(world)), Window(job, world).0, Window(job, world).1))
  }

  function FirstSteps(pause: Value): seq<Step> {
    [Step(Download, Fixed), Step(ExtractAudio, Fixed), Step(Transcribe, Fixed), Step(TrimSilence, Silence(pause))]
  }

  function CaptionSteps(job: Job, world: World): seq<Step> {
    if WritesCaptions(job, world) then [Step(WriteCaptions, CaptionFile(Chunks(KeptWords(world.segments), GroupSize)))] else []
  }

  /** The stages in the order of the try block: the caption file, if any, comes before the render. */
  function Steps(pause: Value, captions: seq<Step>, vf: string, notify: bool): seq<Step> {
    FirstSteps(pause) + captions + [Step(Render, Filters(vf)), Step(Normalize, Fixed)] + (if notify then [Step(OpenFinal, Fixed)] else [])
  }

  /** Every stage the try block attempts when none raises, in order, given the filter chain. */
  function Plan(job: Job, env: Env, world: World, vf: string): seq<Step> {
    Steps(job.pauseTrimMs, CaptionSteps(job, world), vf, env.zapierUrl != "")
  }

  /** The position of the first stage that raises, or |plan| when none does. */
  function FirstFailing(plan: seq<Step>, failures: map<Stage, string>): (n: nat)
    ensures n <= |plan|
    ensures n < |plan| ==> plan[n].stage in failures
    ensures forall j :: 0 <= j < n ==> plan[j].stage !in failures
  {
    if plan == [] then 0
    else if plan[0].stage in failures then 0
    else 1 + FirstFailing(plan[1..], failures)
  }

  function Runs(steps: seq<Step>): (es: seq<Effect>)
    ensures |es| == |steps|
    ensures forall j :: 0 <= j < |steps| ==> es[j] == Run(steps[j])
  {
    seq(|steps|, j requires 0 <= j < |steps| => Run(steps[j]))
  }

  /** The failure notice of main.py:261-281: Zapier if configured, else Base44, else none. */
  function FailurePosts(env: Env, videoId: Value, msg: string): seq<Effect> {
    if env.zapierUrl != "" then [Post(Zapier, Failed(videoId, Truncate(msg, ErrorLimit), true))]
    else if env.base44Url != "" then [Post(Base44, Failed(videoId, Truncate(msg, ErrorLimit), false))]
    else []
  }

  /** The result notice of main.py:237-254, sent only when Zapier is configured. */
  function SuccessPosts(env: Env, videoId: Value, hook: string): seq<Effect> {
    if env.zapierUrl != "" then [Post(Zapier, Ready(videoId, hook))] else []
  }

  /**
   * The response and the effects of running `plan`: the stages up to and including the
   * first that raises, then the failure notice; or all of them, then `notices`. The
   * directory is removed in every case.
   */
  function Outcome(plan: seq<Step>, failures: map<Stage, string>, notices: seq<Effect>, env: Env, videoId: Value)
    : (Response, seq<Effect>)
  {
    var n := FirstFailing(plan, failures);
    if n == |plan| then
      (Ok, [MakeWorkdir] + Runs(plan) + notices + [RemoveWorkdir])
    else
      var msg := failures[plan[n].stage];
      (Status(500, msg), [MakeWorkdir] + Runs(plan[..n + 1]) + FailurePosts(env, videoId, msg) + [RemoveWorkdir])
  }

  /**
   * The response and the effects of an admitted job, given its headline and filter chain
   * (the handler computes them as TitleHook and FilterChain).
   */
  function Expected(job: Job, env: Env, world: World, hook: string, vf: string): (Response, seq<Effect>) {
    Outcome(Plan(job, env, world, vf), world.failures, SuccessPosts(env, job.videoId, hook), env, job.videoId)
  }

  // ---------------------------------------------------------------- the handler

  /** No stage among `steps` raises. */
  predicate Clean(steps: seq<Step>, failures: map<Stage, string>) {
    forall j :: 0 <= j < |steps| ==> steps[j].stage !in failures
  }

  /**
   * Running stage `k` of the plan, once the stages before it have run without raising:
   * it is recorded, and raises when the world says so.
   */
  method Attempt(log: seq<Effect>, step: Step, world: World, ghost plan: seq<Step>, ghost k: nat)
    returns (log2: seq<Effect>, err: Option<string>)
    requires k < |plan| && plan[k] == step
    requires log == [MakeWorkdir] + Runs(plan[..k]) && Clean(plan[..k], world.failures)
    ensures log2 == [MakeWorkdir] + Runs(plan[..k + 1])
    ensures err == if step.stage in world.failures then Some(world.failures[step.stage]) else None
    ensures err.None? ==> Clean(plan[..k + 1], world.failures)
  {
    assert plan[..k + 1] == plan[..k] + [step];
    assert Runs(plan[..k + 1]) == Runs(plan[..k]) + [Run(step)];
    log2 := log + [Run(step)];
    if step.stage in world.failures {
      err := Some(world.failures[step.stage]);
    } else {
      err := None;
    }
  }

  /** The except and finally clauses (main.py:258-286). */
  method Fail(log: seq<Effect>, env: Env, videoId: Value, msg: string) returns (resp: Response, log2: seq<Effect>)
    ensures resp == Status(500, msg)
    ensures log2 == log + FailurePosts(env, videoId, msg) + [RemoveWorkdir]
  {
    log2 := log;
    if env.zapierUrl != "" {
      log2 := log2 + [Post(Zapier, Failed(videoId, Truncate(msg, ErrorLimit), true))];
    } else if env.base44Url != "" {
      log2 := log2 + [Post(Base44, Failed(videoId, Truncate(msg, ErrorLimit), false))];
    }
    log2 := log2 + [RemoveWorkdir];
    resp := Status(500, msg);
  }

  /** The except branch taken at stage `k` agrees with Outcome. */
  lemma FailureMatches(plan: seq<Step>, failures: map<Stage, string>, notices: seq<Effect>, env: Env, videoId: Value,
                       k: nat, resp: Response, log: seq<Effect>)
    requires k < |plan| && Clean(plan[..k], failures) && plan[k].stage in failures
    requires resp == Status(500, failures[plan[k].stage])
    requires log == [MakeWorkdir] + Runs(plan[..k + 1]) + FailurePosts(env, videoId, failures[plan[k].stage]) + [RemoveWorkdir]
    ensures (resp, log) == Outcome(plan, failures, notices, env, videoId)
  {
  }

  /** The try block run to its end agrees with Outcome. */
  lemma SuccessMatches(plan: seq<Step>, failures: map<Stage, string>, notices: seq<Effect>, env: Env, videoId: Value,
                       log: seq<Effect>)
    requires Clean(plan[..|plan|], failures)
    requires log == [MakeWorkdir] + Runs(plan[..|plan|]) + notices + [RemoveWorkdir]
    ensures (Ok, log) == Outcome(plan, failures, notices, env, videoId)
  {
    assert plan[..|plan|] == plan;
  }

  /**
   * Stage `k` of the plan inside the try block: either it runs and the next stage
   * follows, or it raises and the except and finally clauses end the job.
   */
  method Try(log: seq<Effect>, step: Step, env: Env, world: World, videoId: Value,
             ghost plan: seq<Step>, ghost notices: seq<Effect>, ghost k: nat)
    returns (resp: Response, log2: seq<Effect>, raised: bool)
    requires k < |plan| && plan[k] == step
    requires log == [MakeWorkdir] + Runs(plan[..k]) && Clean(plan[..k], world.failures)
    ensures raised ==> (resp, log2) == Outcome(plan, world.failures, notices, env, videoId)
    ensures !raised ==> log2 == [MakeWorkdir] + Runs(plan[..k + 1]) && Clean(plan[..k + 1], world.failures)
  {
    var err: Option<string>;
    log2, err := Attempt(log, step, world, plan, k);
    raised := err.Some?;
    resp := Ok;
    if raised {
      resp, log2 := Fail(log2, env, videoId, err.value);
      FailureMatches(plan, world.failures, notices, env, videoId, k, resp, log2);
    }
  }

  /** Where each stage sits among the steps. */
  lemma StepsFacts(pause: Value, captions: seq<Step>, vf: string, notify: bool)
    requires |captions| <= 1
    ensures var steps := Steps(pause, captions, vf, notify);
      var c := |captions|;
      |steps| == 6 + c + (if notify then 1 else 0)
      && steps[0] == Step(Download, Fixed) && steps[1] == Step(ExtractAudio, Fixed)
      && steps[2] == Step(Transcribe, Fixed) && steps[3] == Step(TrimSilence, Silence(pause))
      && (c == 1 ==> steps[4] == captions[0])
      && steps[4 + c] == Step(Render, Filters(vf))
      && steps[5 + c] == Step(Normalize, Fixed)
      && (notify ==> steps[6 + c] == Step(OpenFinal, Fixed))
  {
  }

  /** Where each stage sits in the plan. */
  lemma PlanFacts(job: Job, env: Env, world: World, vf: string)
    ensures var plan := Plan(job, env, world, vf);
      var c := if WritesCaptions(job, world) then 1 else 0;
      |plan| == 6 + c + (if env.zapierUrl != "" then 1 else 0)
      && plan[0] == Step(Download, Fixed) && plan[1] == Step(ExtractAudio, Fixed)
      && plan[2] == Step(Transcribe, Fixed) && plan[3] == Step(TrimSilence, Silence(job.pauseTrimMs))
      && (c == 1 ==> plan[4] == Step(WriteCaptions, CaptionFile(Chunks(KeptWords(world.segments), GroupSize))))
      && plan[4 + c] == Step(Render, Filters(vf))
      && plan[5 + c] == Step(Normalize, Fixed)
      && (env.zapierUrl != "" ==> plan[6 + c] == Step(OpenFinal, Fixed))
  {
    StepsFacts(job.pauseTrimMs, CaptionSteps(job, world), vf, env.zapierUrl != "");
  }

  /** Steps 1) to 4) of the try block: download, audio track, transcription and headline, silences. */
  method Prepare(job: Job, env: Env, world: World, ghost plan: seq<Step>, ghost notices: seq<Effect>)
    returns (resp: Response, log: seq<Effect>, titleHook: string, proceed: bool)
    requires |plan| >= 4
    requires plan[0] == Step(Download, Fixed) && plan[1] == Step(ExtractAudio, Fixed)
    requires plan[2] == Step(Transcribe, Fixed) && plan[3] == Step(TrimSilence, Silence(job.pauseTrimMs))
    ensures !proceed ==> (resp, log) == Outcome(plan, world.failures, notices, env, job.videoId)
    ensures proceed ==> log == [MakeWorkdir] + Runs(plan[..4]) && Clean(plan[..4], world.failures)
    ensures proceed ==> titleHook == PickTitleHook(Strip(world.transcript))
  {
    log := [MakeWorkdir];
    titleHook := "";
    proceed := false;
    var raised: bool;
    // 1) download
    resp, log, raised := Try(log, Step(Download, Fixed), env, world, job.videoId, plan, notices, 0);
    if raised { return; }
    // 2) audio track and transcription
    resp, log, raised := Try(log, Step(ExtractAudio, Fixed), env, world, job.videoId, plan, notices, 1);
    if raised { return; }
    resp, log, raised := Try(log, Step(Transcribe, Fixed), env, world, job.videoId, plan, notices, 2);
    if raised { return; }
    var transcript := Strip(world.transcript);
    // 3) headline
    titleHook := PickTitleHook(transcript);
    // 4) silences
    resp, log, raised := Try(log, Step(TrimSilence, Silence(job.pauseTrimMs)), env, world, job.videoId, plan, notices, 3);
    if raised { return; }
    resp := Ok;
    proceed := true;
  }

  /** Steps 5) to 9) of the try block: captions, overlay, render, loudness, the result notice. */
  method Finish(job: Job, env: Env, world: World, log0: seq<Effect>, titleHook: string,
                ghost plan: seq<Step>, ghost notices: seq<Effect>)
    returns (resp: Response, log: seq<Effect>)
    requires var c := if WritesCaptions(job, world) then 1 else 0;
      |plan| == 6 + c + (if env.zapierUrl != "" then 1 else 0)
      && (c == 1 ==> plan[4] == Step(WriteCaptions, CaptionFile(Chunks(KeptWords(world.segments), GroupSize))))
      && plan[4 + c] == Step(Render, Filters(Vf(CaptionPath(job, world),
                                                Draw(SafeTitle(titleHook), Window(job, world).0, Window(job, world).1))))
      && plan[5 + c] == Step(Normalize, Fixed)
      && (env.zapierUrl != "" ==> plan[6 + c] == Step(OpenFinal, Fixed))
    requires notices == if env.zapierUrl != "" then [Post(Zapier, Ready(job.videoId, titleHook))] else []
    requires log0 == [MakeWorkdir] + Runs(plan[..4]) && Clean(plan[..4], world.failures)
    ensures (resp, log) == Outcome(plan, world.failures, notices, env, job.videoId)
  {
    log := log0;
    var raised: bool;
    // 5) captions
    var words := ExtractWords(world.segments);
    var assPath: Option<string> := None;
    ghost var k := 4;
    if job.hasCaptions && words != [] {
      assPath := Some(JoinPath(world.workdir, "captions.ass"));
      var chunks := WordsToChunks(words, GroupSize);
      resp, log, raised := Try(log, Step(WriteCaptions, CaptionFile(chunks)), env, world, job.videoId, plan, notices, 4);
      if raised { return; }
      k := 5;
    }
    // 6) headline overlay
    var safeTitle := SafeTitle(titleHook);
    var window := world.window(job.hookStart, job.hookDuration);
    var draw := Draw(safeTitle, window.0, window.1);
    // 7) render
    var vf := Vf(assPath, draw);
    resp, log, raised := Try(log, Step(Render, Filters(vf)), env, world, job.videoId, plan, notices, k);
    if raised { return; }
    // 8) loudness
    resp, log, raised := Try(log, Step(Normalize, Fixed), env, world, job.videoId, plan, notices, k + 1);
    if raised { return; }
    // 9) the result notice
    if env.zapierUrl != "" {
      resp, log, raised := Try(log, Step(OpenFinal, Fixed), env, world, job.videoId, plan, notices, k + 2);
      if raised { return; }
      log := log + [Post(Zapier, Ready(job.videoId, titleHook))];
    }
    log := log + [RemoveWorkdir];
    resp := Ok;
    SuccessMatches(plan, world.failures, notices, env, job.videoId, log);
  }

  /** The try, except and finally of main.py:151-286 for an admitted job. */
  method RunJob(job: Job, env: Env, world: World) returns (resp: Response, log: seq<Effect>)
    ensures (resp, log) == Expected(job, env, world, TitleHook(world), FilterChain(job, world))
  {
    ghost var plan := Plan(job, env, world, FilterChain(job, world));
    ghost var notices := SuccessPosts(env, job.videoId, TitleHook(world));
    PlanFacts(job, env, world, FilterChain(job, world));
    var titleHook: string;
    var proceed: bool;
    resp, log, titleHook, proceed := Prepare(job, env, world, plan, notices);
    if proceed {
      resp, log := Finish(job, env, world, log, titleHook, plan, notices);
    }
  }

  /** The whole handler (main.py:123-286): the gate, then the job. */
  method Process(body: map<string, Value>, header: string, env: Env, world: World)
    returns (admission: Admission, resp: Response, log: seq<Effect>)
    ensures admission.Unauthorized? <==> !Authorized(body, header, env.secret)
    ensures !admission.Unauthorized? ==> (admission.Admitted? <==> Readable(body))
    ensures admission.Unauthorized? ==> resp == Status(401, "Bad auth") && log == []
    ensures admission.Malformed? ==> resp == Status(500, "Internal Server Error") && log == []
    ensures admission.Admitted? ==> "video_id" in body && admission.job.videoId == body["video_id"]
    ensures admission.Admitted? ==>
      (resp, log) == Expected(admission.job, env, world, TitleHook(world), FilterChain(admission.job, world))
  {
    admission := Admit(body, header, env.secret);
    match admission
    case Unauthorized =>
      resp, log := Status(401, "Bad auth"), [];
    case Malformed(_) =>
      resp, log := Status(500, "Internal Server Error"), [];
    case Admitted(job, _) =>
      resp, log := RunJob(job, env, world);
  }

  // ---------------------------------------------------------------- properties

  /** The notices among the effects, in order. */
  function Posts(log: seq<Effect>): (ps: seq<Effect>)
    ensures |ps| <= |log|
    ensures forall j :: 0 <= j < |ps| ==> ps[j].Post?
  {
    if log == [] then []
    else if log[0].Post? then [log[0]] + Posts(log[1..])
    else Posts(log[1..])
  }

  lemma {:induction false} PostsAppend(a: seq<Effect>, b: seq<Effect>)
    ensures Posts(a + b) == Posts(a) + Posts(b)
  {
    if a == [] {
      assert a + b == b;
    } else {
      assert (a + b)[1..] == a[1..] + b;
      PostsAppend(a[1..], b);
    }
  }

  lemma {:induction false} PostsOnly(ps: seq<Effect>)
    requires forall j :: 0 <= j < |ps| ==> ps[j].Post?
    ensures Posts(ps) == ps
  {
    if ps != [] {
      PostsOnly(ps[1..]);
    }
  }

  lemma {:induction false} PostsNone(es: seq<Effect>)
    requires forall j :: 0 <= j < |es| ==> !es[j].Post?
    ensures Posts(es) == []
  {
    if es != [] {
      PostsNone(es[1..]);
    }
  }

  /** The notices of a run: those of `notices` when no stage raises, else the failure notice. */
  lemma OutcomePosts(plan: seq<Step>, failures: map<Stage, string>, notices: seq<Effect>, env: Env, videoId: Value)
    requires forall j :: 0 <= j < |notices| ==> notices[j].Post?
    ensures var (resp, log) := Outcome(plan, failures, notices, env, videoId);
      Posts(log) == if resp == Ok then notices else FailurePosts(env, videoId, resp.detail)
  {
    var n := FirstFailing(plan, failures);
    if n == |plan| {
      BracketedPosts(plan, notices);
    } else {
      var msg := failures[plan[n].stage];
      BracketedPosts(plan[..n + 1], FailurePosts(env, videoId, msg));
    }
  }

  /** Between the directory's creation and removal, only the notices are posts. */
  lemma BracketedPosts(ran: seq<Step>, tail: seq<Effect>)
    requires forall j :: 0 <= j < |tail| ==> tail[j].Post?
    ensures Posts([MakeWorkdir] + Runs(ran) + tail + [RemoveWorkdir]) == tail
  {
    PostsNone([MakeWorkdir] + Runs(ran));
    PostsOnly(tail);
    PostsNone([RemoveWorkdir]);
    PostsAppend([MakeWorkdir] + Runs(ran), tail);
    PostsAppend([MakeWorkdir] + Runs(ran) + tail, [RemoveWorkdir]);
  }

  /** Outcome succeeds exactly when no stage raises; otherwise it answers 500 with a raised message. */
  lemma OutcomeOk(plan: seq<Step>, failures: map<Stage, string>, notices: seq<Effect>, env: Env, videoId: Value)
    ensures var (resp, _) := Outcome(plan, failures, notices, env, videoId);
      (resp == Ok <==> Clean(plan, failures))
      && (resp != Ok ==> exists j :: 0 <= j < |plan| && plan[j].stage in failures && resp == Status(500, failures[plan[j].stage]))
  {
    var n := FirstFailing(plan, failures);
    if n < |plan| {
      assert !Clean(plan, failures);
    }
  }

  /**
   * A job succeeds exactly when no stage raises; otherwise the response is 500 with the
   * message of a stage that raised, in full.
   */
  lemma OkIffNothingRaises(job: Job, env: Env, world: World, hook: string, vf: string)
    ensures var plan := Plan(job, env, world, vf);
      var (resp, _) := Expected(job, env, world, hook, vf);
      (resp == Ok <==> Clean(plan, world.failures))
      && (resp != Ok ==> exists j :: 0 <= j < |plan| && plan[j].stage in world.failures
                                     && resp == Status(500, world.failures[plan[j].stage]))
  {
    OutcomeOk(Plan(job, env, world, vf), world.failures, SuccessPosts(env, job.videoId, hook), env, job.videoId);
  }

  /**
   * On success the only notice is READY with the headline, to Zapier when it is configured;
   * the failure notice is never sent. The post's own outcome is not an input: an error
   * while posting is caught and the response stays {"ok": true}.
   */
  lemma SuccessNotice(job: Job, env: Env, world: World, hook: string, vf: string)
    ensures var (resp, log) := Expected(job, env, world, hook, vf);
      resp == Ok ==> Posts(log) == SuccessPosts(env, job.videoId, hook)
  {
    OutcomePosts(Plan(job, env, world, vf), world.failures, SuccessPosts(env, job.videoId, hook), env, job.videoId);
  }

  /** The failure notice: at most one, to Zapier in preference to Base44, with the message cut to 800 characters. */
  lemma FailurePostsShape(env: Env, videoId: Value, msg: string)
    ensures var ps := FailurePosts(env, videoId, msg);
      |ps| == (if env.zapierUrl != "" || env.base44Url != "" then 1 else 0)
      && forall p :: p in ps ==>
           p.Post?
           && p.target == (if env.zapierUrl != "" then Zapier else Base44)
           && p.notice == Failed(videoId, Truncate(msg, ErrorLimit), env.zapierUrl != "")
  {
  }

  /**
   * On failure at most one notice goes out: FAILED to Zapier when it is configured, else to
   * Base44 when that is, else none; its error message is the first 800 characters of the
   * exception's, while the response carries the message in full.
   */
  lemma FailureNotice(job: Job, env: Env, world: World, hook: string, vf: string)
    ensures var (resp, log) := Expected(job, env, world, hook, vf);
      resp != Ok ==> resp.code == 500 && Posts(log) == FailurePosts(env, job.videoId, resp.detail)
  {
    var plan := Plan(job, env, world, vf);
    OutcomePosts(plan, world.failures, SuccessPosts(env, job.videoId, hook), env, job.videoId);
    OutcomeOk(plan, world.failures, SuccessPosts(env, job.videoId, hook), env, job.videoId);
  }

  /** In every outcome the directory is made first and removed last, and neither happens in between. */
  lemma OutcomeBracketed(plan: seq<Step>, failures: map<Stage, string>, notices: seq<Effect>, env: Env, videoId: Value)
    requires forall j :: 0 <= j < |notices| ==> notices[j].Post?
    ensures var (_, log) := Outcome(plan, failures, notices, env, videoId);
      |log| >= 2 && log[0] == MakeWorkdir && log[|log| - 1] == RemoveWorkdir
      && forall j :: 0 < j < |log| - 1 ==> log[j] != MakeWorkdir && log[j] != RemoveWorkdir
  {
    var n := FirstFailing(plan, failures);
    var ran := if n == |plan| then plan else plan[..n + 1];
    var tail := if n == |plan| then notices else FailurePosts(env, videoId, failures[plan[n].stage]);
    var log := [MakeWorkdir] + Runs(ran) + tail + [RemoveWorkdir];
    assert Outcome(plan, failures, notices, env, videoId).1 == log;
    forall j | 0 < j < |log| - 1
      ensures log[j] != MakeWorkdir && log[j] != RemoveWorkdir
    {
      if j <= |ran| {
        assert log[j] == Runs(ran)[j - 1];
      } else {
        assert log[j] == tail[j - 1 - |ran|];
      }
    }
  }

  /** The working directory is made first and removed last, whatever happens in between (the finally clause). */
  lemma WorkdirRemovedLast(job: Job, env: Env, world: World, hook: string, vf: string)
    ensures var (_, log) := Expected(job, env, world, hook, vf);
      |log| >= 2 && log[0] == MakeWorkdir && log[|log| - 1] == RemoveWorkdir
      && forall j :: 0 < j < |log| - 1 ==> log[j] != MakeWorkdir && log[j] != RemoveWorkdir
  {
    OutcomeBracketed(Plan(job, env, world, vf), world.failures, SuccessPosts(env, job.videoId, hook), env, job.videoId);
  }

  /** When the first stage raises, nothing else runs. */
  lemma OutcomeFirstRaises(plan: seq<Step>, failures: map<Stage, string>, notices: seq<Effect>, env: Env, videoId: Value)
    requires |plan| >= 1 && plan[0].stage in failures
    ensures Outcome(plan, failures, notices, env, videoId)
      == (Status(500, failures[plan[0].stage]),
          [MakeWorkdir, Run(plan[0])] + FailurePosts(env, videoId, failures[plan[0].stage]) + [RemoveWorkdir])
  {
    assert FirstFailing(plan, failures) == 0;
    assert plan[..1] == [plan[0]];
    assert Runs(plan[..1]) == [Run(plan[0])];
    assert [MakeWorkdir] + Runs(plan[..1]) == [MakeWorkdir, Run(plan[0])];
  }

  /** A download that fails runs nothing else: the notice, then the directory is removed. */
  lemma FailedDownload(job: Job, env: Env, world: World, hook: string, vf: string)
    requires Download in world.failures
    ensures Expected(job, env, world, hook, vf)
      == (Status(500, world.failures[Download]),
          [MakeWorkdir, Run(Step(Download, Fixed))] + FailurePosts(env, job.videoId, world.failures[Download]) + [RemoveWorkdir])
  {
    var plan := Plan(job, env, world, vf);
    StepsFacts(job.pauseTrimMs, CaptionSteps(job, world), vf, env.zapierUrl != "");
    OutcomeFirstRaises(plan, world.failures, SuccessPosts(env, job.videoId, hook), env, job.videoId);
  }

  /** Among the steps, the caption file is written only where the captions part asks for it. */
  lemma StepsCaptions(pause: Value, captions: seq<Step>, vf: string, notify: bool)
    requires |captions| <= 1
    ensures (exists j :: 0 <= j < |Steps(pause, captions, vf, notify)| && Steps(pause, captions, vf, notify)[j].stage == WriteCaptions)
      <==> (exists i :: 0 <= i < |captions| && captions[i].stage == WriteCaptions)
  {
    var steps := Steps(pause, captions, vf, notify);
    StepsFacts(pause, captions, vf, notify);
    forall j | 0 <= j < |steps| && (j < 4 || j >= 4 + |captions|)
      ensures steps[j].stage != WriteCaptions
    {
      if j >= 4 {
        assert j - |captions| in {4, 5, 6};
      }
    }
    if exists j :: 0 <= j < |steps| && steps[j].stage == WriteCaptions {
      var j :| 0 <= j < |steps| && steps[j].stage == WriteCaptions;
      assert j == 4 && steps[4] == captions[0];
    }
    if exists i :: 0 <= i < |captions| && captions[i].stage == WriteCaptions {
      assert steps[4].stage == WriteCaptions;
    }
  }

  /** The caption file is among the stages exactly when captions are on and some word was kept. */
  lemma CaptionsIff(job: Job, env: Env, world: World, hook: string, vf: string)
    ensures (exists j :: 0 <= j < |Plan(job, env, world, vf)| && Plan(job, env, world, vf)[j].stage == WriteCaptions)
      <==> job.hasCaptions && KeptWords(world.segments) != []
  {
    var caps := CaptionSteps(job, world);
    assert Plan(job, env, world, vf) == Steps(job.pauseTrimMs, caps, vf, env.zapierUrl != "");
    StepsCaptions(job.pauseTrimMs, caps, vf, env.zapierUrl != "");
    if WritesCaptions(job, world) {
      assert caps[0].stage == WriteCaptions;
    }
  }

  /** The caption file's path has no single quote when the working directory's has none. */
  lemma CaptionPathLacksQuote(job: Job, world: World)
    requires Lacks(world.workdir, '\'')
    ensures CaptionPath(job, world).Some? ==> Lacks(CaptionPath(job, world).value, '\'')
  {
    var name := "captions.ass";
    assert Lacks(name, '\'');
    assert Lacks("/", '\'');
    LacksConcat(world.workdir, name, '\'');
    LacksConcat(world.workdir, "/", '\'');
    LacksConcat(world.workdir + "/", name, '\'');
  }

  /**
   * The render stage's filter chain reads back as the caption file, present exactly when
   * captions are written, followed by the drawtext filter (Filtergraph.DrawStart shows the
   * headline's filter qualifies), provided the working directory's path has no single quote.
   */
  lemma RenderReadBack(job: Job, world: World, draw: string)
    requires Lacks(world.workdir, '\'') && StartsWith(draw, "drawtext=")
    ensures ReadVf(Vf(CaptionPath(job, world), draw)) == Some(Chain(CaptionPath(job, world), draw))
    ensures CaptionPath(job, world).Some? <==> job.hasCaptions && KeptWords(world.segments) != []
  {
    CaptionPathLacksQuote(job, world);
    VfRoundTrip(CaptionPath(job, world), draw);
  }
}
