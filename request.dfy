/**
 * The request gate of the /process handler (main.py:123-150): authentication from
 * the body or a Bearer header, the video_url alias, defaults, and the reading of
 * the job's inputs from the decoded body.
 */
module Request {
  import opened Wrappers
  import opened Text

  /** A decoded JSON (or form) value. */
  datatype Value =
    | VNull
    | VBool(b: bool)
    | VNum(n: real)
    | VStr(s: string)
    | VList(items: seq<Value>)
    | VObj(fields: map<string, Value>)

  /** Python truthiness of a decoded value. */
  predicate Truthy(v: Value) {
    match v
    case VNull => false
    case VBool(b) => b
    case VNum(n) => n != 0.0
    case VStr(s) => s != []
    case VList(xs) => xs != []
    case VObj(m) => m != map[]
  }

  /** d.get(key, default) */
  function Get(d: map<string, Value>, key: string, default: Value): Value {
    if key in d then d[key] else default
  }

  const EmptyObject: Value := VObj(map[])

  /** auth_hdr.lower().startswith("bearer ") */
  predicate IsBearer(header: string) {
    |header| >= 7 && Lower(header)[..7] == "bearer "
  }

  /** A Bearer header splits at its first space, right after the scheme. */
  lemma BearerSplit(header: string)
    requires IsBearer(header)
    ensures SplitOn(header, ' ', 1) == [header[..6], header[7..]]
  {
    var scheme := header[..6];
    forall i | 0 <= i < 6
      ensures header[i] != ' '
    {
      assert LowerChar(header[i]) == Lower(header)[..7][i] == "bearer "[i];
    }
    assert LowerChar(header[6]) == Lower(header)[..7][6] == ' ';
    assert header == scheme + [' '] + header[7..];
    SplitOnFirst(scheme, header[7..], ' ', 1);
  }

  /** The credential a request presents (main.py:124-128). */
  function AuthToken(body: map<string, Value>, header: string): Value {
    var fromBody := Get(body, "auth", VNull);
    if Truthy(fromBody) then fromBody
    else if IsBearer(header) then
      BearerSplit(header);
      VStr(Strip(SplitOn(header, ' ', 1)[1]))
    else fromBody
  }

  predicate Authorized(body: map<string, Value>, header: string, secret: string) {
    AuthToken(body, header) == VStr(secret)
  }

  /** A truthy "auth" field decides alone; the header is not consulted. */
  lemma BodyAuthWins(body: map<string, Value>, header: string, secret: string)
    requires "auth" in body && Truthy(body["auth"])
    ensures Authorized(body, header, secret) <==> body["auth"] == VStr(secret)
  {
  }

  /**
   * Without a body credential, a Bearer header with any capitalisation of the
   * scheme presents the rest of the header, stripped.
   */
  lemma BearerAccepted(body: map<string, Value>, scheme: string, token: string, secret: string)
    requires !Truthy(Get(body, "auth", VNull))
    requires |scheme| == 6 && Lower(scheme) == "bearer"
    ensures Authorized(body, scheme + " " + token, secret) <==> Strip(token) == secret
  {
    var h := scheme + " " + token;
    assert Lower(h)[..7] == Lower(scheme) + " " by {
      forall i | 0 <= i < 7
        ensures Lower(h)[..7][i] == (Lower(scheme) + " ")[i]
      {
      }
    }
    BearerSplit(h);
    assert h[7..] == token;
  }

  /** A request with no credential at all is refused, whatever the secret. */
  lemma MissingCredentialRefused(body: map<string, Value>, header: string, secret: string)
    requires "auth" !in body && !IsBearer(header)
    ensures !Authorized(body, header, secret)
  {
  }

  /** A falsy credential passes only when the secret is empty and the credential is "". */
  lemma FalsyCredential(body: map<string, Value>, header: string, secret: string)
    requires !Truthy(Get(body, "auth", VNull)) && !IsBearer(header)
    ensures Authorized(body, header, secret) <==> secret == "" && Get(body, "auth", VNull) == VStr("")
  {
  }

  /** str(v).lower() == "true": the boolean True or a string spelling "true" in any case. */
  predicate SaysTrue(v: Value) {
    v == VBool(true) || (v.VStr? && Lower(v.s) == "true")
  }

  /** The inputs read from the body (main.py:142-150), before any numeric conversion. */
  datatype Job = Job(
    videoId: Value,
    rawUrl: Value,
    hasCaptions: bool,
    pauseTrimMs: Value,
    lufs: Value,
    peakDb: Value,
    hookStart: Value,
    hookDuration: Value)

  /**
   * How the gate ends: refused with 401, an uncaught lookup error (a missing key, or
   * a settings entry that is not an object, which the framework answers with 500),
   * or the job and the body as the handler has rewritten it.
   */
  datatype Admission =
    | Unauthorized
    | Malformed(key: string)
    | Admitted(job: Job, body: map<string, Value>)

  /** The dict-typed parts of "settings" main.py:145-150 calls .get on. */
  predicate SettingsShaped(settings: Value) {
    settings.VObj?
    && Get(settings.fields, "audio", EmptyObject).VObj?
    && Get(settings.fields, "export", EmptyObject).VObj?
  }

  /** settings.get(group, {}) */
  function Section(settings: Value, group: string): Value
    requires settings.VObj?
  {
    Get(settings.fields, group, EmptyObject)
  }

  /**
   * The settings of main.py:146-150, each the value given or, key by key, its default:
   * pause_trim_ms 350; audio.lufs -14 and audio.peak_db -1; export.hook_start_min_sec 0.3
   * and export.hook_duration_sec 2.5.
   */
  predicate SettingsRead(job: Job, st: Value)
    requires SettingsShaped(st)
  {
    && job.pauseTrimMs == Get(st.fields, "pause_trim_ms", VNum(350.0))
    && job.lufs == Get(Section(st, "audio").fields, "lufs", VNum(-14.0))
    && job.peakDb == Get(Section(st, "audio").fields, "peak_db", VNum(-1.0))
    && job.hookStart == Get(Section(st, "export").fields, "hook_start_min_sec", VNum(0.3))
    && job.hookDuration == Get(Section(st, "export").fields, "hook_duration_sec", VNum(2.5))
  }

  /** A body the gate reads without an error. */
  predicate Readable(body: map<string, Value>) {
    "video_id" in body
    && ("raw_url" in body || "video_url" in body)
    && SettingsShaped(Get(body, "settings", EmptyObject))
  }

  /** The alias and the two setdefault calls (main.py:133-139), applied to the body in place. */
  method Rewrite(body0: map<string, Value>) returns (body: map<string, Value>)
    ensures forall k :: k in body0 ==> k in body && body[k] == body0[k]
    ensures body.Keys == body0.Keys + (if "video_url" in body0 then {"raw_url"} else {}) + {"has_captions", "settings"}
    ensures "raw_url" !in body0 && "video_url" in body0 ==> body["raw_url"] == body0["video_url"]
    ensures body["has_captions"] == Get(body0, "has_captions", VBool(true))
    ensures body["settings"] == Get(body0, "settings", EmptyObject)
  {
    body := body0;
    if "video_url" in body && "raw_url" !in body {
      body := body["raw_url" := body["video_url"]];
    }
    if "has_captions" !in body {
      body := body["has_captions" := VBool(true)];
    }
    if "settings" !in body {
      body := body["settings" := EmptyObject];
    }
  }

  /** The inputs of main.py:142-150: a lookup error, or the job. */
  method ReadJob(body: map<string, Value>) returns (r: Result<Job, string>)
    requires "has_captions" in body && "settings" in body
    ensures r.Success? <==> "video_id" in body && "raw_url" in body && SettingsShaped(body["settings"])
    ensures r.Success? ==> r.value.videoId == body["video_id"] && r.value.rawUrl == body["raw_url"]
    ensures r.Success? ==> (r.value.hasCaptions <==> SaysTrue(body["has_captions"]))
    ensures r.Success? ==> SettingsRead(r.value, body["settings"])
    ensures r.Success? && body["settings"] == EmptyObject ==>
      r.value.pauseTrimMs == VNum(350.0) && r.value.lufs == VNum(-14.0) && r.value.peakDb == VNum(-1.0)
      && r.value.hookStart == VNum(0.3) && r.value.hookDuration == VNum(2.5)
  {
    if "video_id" !in body {
      return Failure("video_id");
    }
    if "raw_url" !in body {
      return Failure("raw_url");
    }
    var videoId := body["video_id"];
    var rawUrl := body["raw_url"];
    var hasCaptions := SaysTrue(body["has_captions"]);
    var settings := body["settings"];
    if !settings.VObj? {
      return Failure("settings");
    }
    var pause := Get(settings.fields, "pause_trim_ms", VNum(350.0));
    var audio := Get(settings.fields, "audio", EmptyObject);
    if !audio.VObj? {
      return Failure("audio");
    }
    var lufs := Get(audio.fields, "lufs", VNum(-14.0));
    var peak := Get(audio.fields, "peak_db", VNum(-1.0));
    var exportSettings := Get(settings.fields, "export", EmptyObject);
    if !exportSettings.VObj? {
      return Failure("export");
    }
    var hookStart := Get(exportSettings.fields, "hook_start_min_sec", VNum(0.3));
    var hookDur := Get(exportSettings.fields, "hook_duration_sec", VNum(2.5));
    r := Success(Job(videoId, rawUrl, hasCaptions, pause, lufs, peak, hookStart, hookDur));
  }

  /** The handler's gate (main.py:124-150): authenticate, rewrite the body, read the job. */
  method Admit(body0: map<string, Value>, header: string, secret: string) returns (r: Admission)
    ensures r.Unauthorized? <==> !Authorized(body0, header, secret)
    ensures !r.Unauthorized? ==> (r.Admitted? <==> Readable(body0))
    ensures r.Admitted? ==> "video_id" in body0 && r.job.videoId == body0["video_id"]
    ensures r.Admitted? ==> r.job.rawUrl == if "raw_url" in body0 then body0["raw_url"] else body0["video_url"]
    ensures r.Admitted? ==> (r.job.hasCaptions <==> "has_captions" !in body0 || SaysTrue(body0["has_captions"]))
    ensures r.Admitted? ==> SettingsRead(r.job, Get(body0, "settings", EmptyObject))
    ensures r.Admitted? && "settings" !in body0 ==>
      r.job.pauseTrimMs == VNum(350.0) && r.job.lufs == VNum(-14.0) && r.job.peakDb == VNum(-1.0)
      && r.job.hookStart == VNum(0.3) && r.job.hookDuration == VNum(2.5)
    ensures r.Admitted? ==>
      (forall k :: k in body0 ==> k in r.body && r.body[k] == body0[k])
      && r.body.Keys == body0.Keys + {"raw_url", "has_captions", "settings"}
  {
    var token := AuthToken(body0, header);
    if token != VStr(secret) {
      return Unauthorized;
    }
    var body := Rewrite(body0);
    assert "raw_url" in body <==> "raw_url" in body0 || "video_url" in body0;
    assert "video_id" in body <==> "video_id" in body0;
    assert body["settings"] == Get(body0, "settings", EmptyObject);
    var job := ReadJob(body);
    match job
    case Failure(key) => r := Malformed(key);
    case Success(j) => r := Admitted(j, body);
  }
}
