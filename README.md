# tiktok-robot: a verified model of the /process handler

tiktok-robot is a small web service. It takes a talking-head video and returns it edited for
TikTok:
- a headline ("title hook") picked from the speech transcript;
- three-word burned-in captions;
- silences trimmed;
- loudness normalised.

The result goes to a Zapier hook, and a failure notice goes to Zapier or a legacy Base44 callback.
Everything lives in `main.py`. This project models the pure parts of that file and the control
flow of the handler, and proves what they promise.

| file | module | models |
|---|---|---|
| `wrappers.dfy` | `Wrappers` | `Option` and `Result` |
| `text.dfy` | `Text` | Python's `str.strip`, `str.split()`, `" ".join`, `str.split(sep, n)`, ASCII `lower`, and zero-padded integer formatting with its parser |
| `hook.dfy` | `Hook` | `pick_title_hook`: sentence split after `.!?`, the trigger-word search, the fallback and the 8-word cut |
| `captions.dfy` | `Captions` | the word extraction loop over the transcription's segments, and `words_to_chunks` (a loop method proved against a function) |
| `subtitles.dfy` | `Subtitles` | `ts` and the ASS document written by `make_ass_from_chunks`, with a reader that recovers every event |
| `filtergraph.dfy` | `Filtergraph` | the headline escaping, the `drawtext` filter and the `-vf` chain, each with a reader proving it can be read back |
| `request.dfy` | `Request` | the request gate: the credential from the body or a Bearer header, the 401, the `video_url` alias, the defaults and `has_captions` |
| `pipeline.dfy` | `Pipeline` | the handler as a sequence of effects (working directory, stages, notices, removal) and its response |

In the handler model, the outside world is an input (`Pipeline.World`):
- the directory `mkdtemp` returns;
- which external stage raises, and with what message;
- the transcription's text and segments;
- Python's floating point, as the function that turns the job's `hook_start_min_sec` and
  `hook_duration_sec` into the text of the headline window's start and end.

The configuration read at start-up is `Pipeline.Env`. A run produces a `Pipeline.Response` and a
log of `Pipeline.Effect`s, and `Pipeline.Process` is proved to produce exactly
`Pipeline.Expected`. The properties below are proved about `Expected`. Times are integer
milliseconds.

## Model

| member | source | states |
|---|---|---|
| Text.Strip | main.py:61 | the result is the text with its leading and trailing whitespace (Python's `isspace` set) removed: an infix with only whitespace before and after it, and none at either of its ends |
| Text.StripBlank | main.py:59-61 | stripping gives the empty string exactly when the text is all whitespace |
| Text.StripTrimmed | main.py:162 | stripping an already trimmed string leaves it unchanged |
| Text.SplitWords | main.py:64 | `split()` yields only non-empty words without whitespace |
| Text.SplitWordsCover | main.py:64 | the text is exactly its words interleaved with the gaps between them, so no non-whitespace character is lost |
| Text.GapsAreRuns | main.py:64 | the gaps are whitespace, and every gap between two words is non-empty, so each word is a maximal run |
| Text.SplitJoin | main.py:64-65 | splitting the single-space join of words gives back those words |
| Text.SplitOn | main.py:128 | `split(sep, n)` yields between 1 and n+1 parts, which joined by `sep` give back the text, and no part but the last holds `sep` |
| Text.SplitOnFirst | main.py:128 | a separator-free prefix is split off as the first part, and the count drops by one |
| Text.Lower | main.py:127 | the length is kept, each ASCII capital becomes its lower-case letter, every other character is kept, and no ASCII capital remains |
| Text.ParsePad2 | main.py:99 | a two-digit zero-padded number parses back to itself |
| Text.ParseNatStr | main.py:99 | an unpadded number parses back to itself |
| Hook.FirstBreak | main.py:61 | the first point after `.`, `!` or `?` where whitespace starts, and no earlier one |
| Hook.Sentences | main.py:61 | `re.split` after a terminator always yields at least one candidate |
| Hook.SentencesRebuild | main.py:61 | the candidates, with the cut runs between them, rebuild the stripped text |
| Hook.CutsAreRuns | main.py:61 | each cut is non-empty whitespace, and maximal: the next candidate does not start with whitespace |
| Hook.PickTitleHook | main.py:58-65 | no contract of its own; Hook.HookIsShort, Hook.HookPrefersTrigger, Hook.HookFallsBackToFirst and Hook.HookOfBlank state what it returns |
| Hook.ChooseLine | main.py:62-63 | no contract of its own; Hook.ChooseFirstTrigger and Hook.ChooseWithoutTrigger state which line it picks |
| Hook.SentencesUnbroken | main.py:61 | no candidate contains a split point |
| Hook.SentencesTerminated | main.py:61 | every candidate but the last ends in `.`, `!` or `?` |
| Hook.SentencesFirst | main.py:61-63 | the first candidate is a prefix of the stripped text |
| Hook.SentencesNonEmpty | main.py:61 | for non-empty trimmed text, no candidate is empty |
| Hook.StrongFirst | main.py:62-63 | the first strong candidate is the first one with a trigger word |
| Hook.StrongNone | main.py:62 | with no trigger word anywhere, there are no strong candidates |
| Hook.ChooseFirstTrigger | main.py:63 | the chosen line is the first candidate with a trigger word |
| Hook.ChooseWithoutTrigger | main.py:63 | with no trigger word, the chosen line is the first candidate |
| Hook.Shorten | main.py:64-65 | the result's words are the first 8 words of the line; a line of 8 words or fewer comes back verbatim |
| Hook.HookIsShort | main.py:58-65 | empty text gives "Watch this", and every headline has at most 8 words |
| Hook.HookPrefersTrigger | main.py:61-65 | the headline is the first trigger sentence, shortened |
| Hook.HookFallsBackToFirst | main.py:61-65 | without a trigger sentence, the headline is the first sentence, shortened |
| Hook.HookOfBlank | main.py:59-65 | non-empty text that is all whitespace gives the empty headline, not "Watch this" |
| Captions.KeptWords | main.py:177-181 | no contract of its own; Captions.KeptWordsMembers and Captions.KeptLength state which words it keeps |
| Captions.ExtractWords | main.py:177-181 | the loop collects exactly the entries that have start, end and word, in order |
| Captions.KeptWordsMembers | main.py:178-181 | a word is collected iff some entry of some segment is complete and gives it |
| Captions.KeptLength | main.py:180-181 | one word per complete entry |
| Captions.KeptAppend | main.py:178-181 | collection distributes over concatenation of entries |
| Captions.Chunks | main.py:67-78 | no contract of its own; Captions.ChunksAreGroupChunks, Captions.ChunkCountBound, Captions.ChunkAtNonBlank, Captions.ChunkTexts and Captions.ChunkTextsJoin state what it returns |
| Captions.WordsToChunks | main.py:67-78 | the loop's result equals `Chunks(words, maxWords)`, including the `break` on an empty group |
| Captions.ChunksAreGroupChunks | main.py:69-77 | the chunks are those of the consecutive groups of `k` words, blank groups dropped |
| Captions.GroupsCount | main.py:69-77 | there are ceil(n / k) groups |
| Captions.GroupAt | main.py:70 | group `j` is `words[j*k .. min(j*k+k, n)]` |
| Captions.GroupsPartition | main.py:69-77 | the groups concatenate back to the words |
| Captions.ChunkCountBound | main.py:67-78 | at most ceil(n / k) chunks |
| Captions.ChunkCountNonBlank | main.py:75-76 | when every word has visible text, exactly ceil(n / k) chunks |
| Captions.ChunkAtNonBlank | main.py:73-76 | chunk `j` has the stripped words of group `j` joined by spaces, the start of its first word and the end of its last word |
| Captions.ChunkIsGroupChunk | main.py:73-76 | when every word has visible text (so no group is dropped), chunk `j` is made from group `j` |
| Captions.ChunkTexts | main.py:73-75 | every chunk's text is non-empty and trimmed |
| Captions.ChunkTextsJoin | main.py:73-76 | joining the chunk texts gives the stripped words joined by spaces |
| Subtitles.RoundTenth | main.py:95 | Python's `round` of n/10: within half a unit, ties to even |
| Subtitles.RoundTenthUnique | main.py:95 | that rounding is the only value with those properties |
| Subtitles.ClockOf | main.py:93-98 | minutes and seconds are below 60; centiseconds are at most 100 |
| Subtitles.ClockWholeSeconds | main.py:96-98 | h, m, s together are the whole seconds of the clamped time |
| Subtitles.ClockAccuracy | main.py:93-99 | the clock is within 5 ms of the clamped time |
| Subtitles.CentisecondsOverflow | main.py:95-99 | centiseconds reach 100, not carrying into the seconds, exactly when the fraction is 0.995 s or more |
| Subtitles.TsNoCarryExample | main.py:93-99 | 59.996 s is written `0:00:59.100` |
| Subtitles.Ts | main.py:93-99 | no contract of its own; Subtitles.TsChars, Subtitles.TsLacks, Subtitles.TsRoundTrip, Subtitles.TsReadBack and Subtitles.TsNoCarryExample state what it writes |
| Subtitles.TsChars | main.py:99 | a timestamp holds only digits, `:` and `.` |
| Subtitles.TsLacks | main.py:99 | a timestamp has no comma and no newline |
| Subtitles.TsRoundTrip | main.py:93-99 | parsing `ts(t)` gives back its clock |
| Subtitles.TsReadBack | main.py:93-99 | parsing `ts(t)` succeeds within 5 ms of the clamped time |
| Subtitles.DialogueLine | main.py:104 | no contract of its own; Subtitles.FieldsJoin, Subtitles.ReadDialogue and Subtitles.DialogueLineEnds state what it writes |
| Subtitles.Document | main.py:80-104 | no contract of its own; Subtitles.MakeAss produces it and Subtitles.EventsReadBack reads its events back |
| Subtitles.EventsSnoc | main.py:103-104 | one more chunk appends exactly its Dialogue line |
| Subtitles.WriteEvents | main.py:103-104 | the write loop appends the Dialogue lines of all chunks, in order |
| Subtitles.MakeAss | main.py:80-104 | the file's content is the fixed header followed by one Dialogue line per chunk |
| Subtitles.FieldsJoin | main.py:104 | a Dialogue line is `Dialogue: ` and its ten fields joined by commas, then a newline |
| Subtitles.ReadDialogue | main.py:104 | a Dialogue line reads back as the chunk's start, end and text |
| Subtitles.DialogueLineEnds | main.py:104 | a line for newline-free text ends in its only newline |
| Subtitles.EventsReadBack | main.py:101-104 | when no text has a newline, the events section reads back as exactly one event per chunk, in order |
| Filtergraph.SafeTitle | main.py:188-193 | no contract of its own; Filtergraph.SafeTitleIsEscape, Filtergraph.EscapeLength, Filtergraph.ReadEscaped and Filtergraph.TrailingBackslashEscapesQuote state what it gives |
| Filtergraph.ReplaceChar | main.py:190-192 | if the replacement lacks the character, so does the result |
| Filtergraph.SafeTitleIsEscape | main.py:188-193 | the three chained `replace` calls equal a single pass that backslash-escapes `:`, `'` and `"` |
| Filtergraph.EscapeLength | main.py:188-193 | escaping adds one character per special character |
| Filtergraph.ReadEscaped | main.py:188-203 | an escaped headline not ending in a backslash reads back from inside the quotes, up to the closing quote |
| Filtergraph.TrailingBackslashEscapesQuote | main.py:188-195 | every headline ending in a backslash escapes the closing quote, so the quoted value has no end |
| Filtergraph.Draw | main.py:194-203 | no contract of its own; Filtergraph.DrawTextReadBack and Filtergraph.DrawStart state what it builds |
| Filtergraph.DrawTextReadBack | main.py:194-203 | the headline can be read back from the drawtext filter |
| Filtergraph.DrawStart | main.py:195 | the filter starts with `drawtext=` |
| Filtergraph.ReadFiltersCaptioned | main.py:207-211 | the subtitles filter reads back as the caption path, followed by the drawtext filter |
| Filtergraph.Vf | main.py:207-216 | no contract of its own; Filtergraph.VfRoundTrip states what it builds |
| Filtergraph.VfRoundTrip | main.py:207-216 | the `-vf` chain reads back as scale and crop, the subtitles file when present, and the drawtext filter |
| Request.BearerSplit | main.py:127-128 | for a Bearer header, `split(" ", 1)` yields the scheme and everything after the first space |
| Request.AuthToken | main.py:124-128 | no contract of its own; Request.BodyAuthWins, Request.BearerAccepted, Request.MissingCredentialRefused and Request.FalsyCredential state which credential it yields |
| Request.BodyAuthWins | main.py:124-131 | a truthy `auth` in the body decides alone: accepted iff it equals the secret |
| Request.BearerAccepted | main.py:124-131 | with no truthy `auth`, a `Bearer <token>` header in any case is accepted iff the stripped token equals the secret |
| Request.MissingCredentialRefused | main.py:124-131 | no `auth` and no Bearer header is refused, whatever the secret |
| Request.FalsyCredential | main.py:124-131 | a falsy `auth` and no Bearer header pass only for an empty `auth` string and an empty secret |
| Request.SaysTrue | main.py:144 | no contract of its own; Request.ReadJob and Request.Admit state that `has_captions` is on iff it holds |
| Request.Rewrite | main.py:134-139 | the body keeps every key, gains `raw_url` from `video_url` only when it is missing, and gains the defaults only where absent |
| Request.ReadJob | main.py:142-150 | reading succeeds iff `video_id`, `raw_url` and object-shaped settings are present; `has_captions` is true iff it prints as "true"; each setting is the value given or, key by key, its default |
| Request.Admit | main.py:124-150 | Unauthorized iff the credential fails; otherwise admitted iff readable, with the alias, the defaults, the `has_captions` reading and each setting as given or defaulted key by key |
| Pipeline.Truncate | main.py:267 | the result is the message's first `n` characters, or the whole message when it is shorter |
| Pipeline.FirstFailing | main.py:153-234 | the index of the first stage that raises, or the plan's length when none does |
| Pipeline.Attempt | main.py:153-234 | a stage is recorded as run, and raises with its message exactly when the world says so |
| Pipeline.Fail | main.py:258-286 | the except clause: the failure notice, the directory removed, then 500 with the message |
| Pipeline.Try | main.py:153-286 | either the stage runs cleanly or the whole outcome is the failure outcome at that stage |
| Pipeline.PlanFacts | main.py:154-241 | the stages in order: download, audio, transcription, silence trimming with the job's `pause_trim_ms`, the caption file when written, render with the filter chain, normalise, and opening the file when Zapier is set |
| Pipeline.Expected | main.py:151-286 | no contract of its own; Pipeline.OkIffNothingRaises, Pipeline.SuccessNotice, Pipeline.FailureNotice, Pipeline.WorkdirRemovedLast and Pipeline.FailedDownload state what it is |
| Pipeline.FailurePosts | main.py:261-281 | no contract of its own; Pipeline.FailurePostsShape states it |
| Pipeline.SuccessPosts | main.py:236-254 | no contract of its own; Pipeline.SuccessNotice states it is what a successful run posts |
| Pipeline.Prepare | main.py:152-174 | steps 1 to 4, with the headline picked from the stripped transcript |
| Pipeline.Finish | main.py:176-256 | steps 5 to 9 complete the expected outcome |
| Pipeline.RunJob | main.py:151-286 | running the try/except/finally gives exactly the expected response and effects |
| Pipeline.Process | main.py:123-286 | 401 "Bad auth" with no effects iff unauthorized; a missing key gives 500 with no effects; otherwise the expected outcome of the admitted job |
| Pipeline.OutcomePosts | main.py:236-283 | the notices posted are the success notices on success, else the failure notice |
| Pipeline.OkIffNothingRaises | main.py:153-258 | success iff no stage raises; otherwise 500 with a raising stage's message, in full |
| Pipeline.SuccessNotice | main.py:236-256 | on success the only notice is READY with the headline, to Zapier iff it is configured |
| Pipeline.FailurePostsShape | main.py:261-281 | one failure notice iff a URL is set, to Zapier in preference to Base44, message cut to 800 characters |
| Pipeline.FailureNotice | main.py:258-283 | on failure the response is 500 and the posts are exactly the failure notice for its message |
| Pipeline.OutcomeBracketed | main.py:151-153 | the directory is made first and removed last, never in between |
| Pipeline.WorkdirRemovedLast | main.py:285-286 | the finally clause: for every job, the directory is removed last |
| Pipeline.OutcomeFirstRaises | main.py:153-156 | when the first stage raises nothing else runs |
| Pipeline.FailedDownload | main.py:154-156 | a failed download gives 500, the failure notice and the removal, and nothing else |
| Pipeline.StepsCaptions | main.py:182-185 | a caption step appears among the stages iff the captions part has one |
| Pipeline.CaptionsIff | main.py:182-185 | the caption file is written iff captions are on and at least one word was kept |
| Pipeline.CaptionPathLacksQuote | main.py:184 | the caption path has no single quote when the working directory has none |
| Pipeline.RenderReadBack | main.py:182-216 | the render stage's chain reads back with the caption file present iff captions are written |

## Left out

- FastAPI, CORS, the `/` and OPTIONS routes, and JSON/form body parsing (the 400 "Bad payload") are not modelled. The body arrives parsed as a map of JSON values.
- `download_file`, `run` and ffmpeg, the speech model and its lazy loader, and the HTTP posts are not modelled. They are external. Which stage raises, and with what message, is an input (`World.failures`).
- The posts' own success or failure is not an input, because main.py swallows every exception from them.
- `tempfile.mkdtemp` and `shutil.rmtree` are the `MakeWorkdir` and `RemoveWorkdir` effects. The directory's name is an input.
- ffmpeg's own parsing of the filter string is not modelled. `Filtergraph.ReadVf` is this model's reader, written to the quoting rules main.py relies on.
- Request.ReadJob: the `int()` and `float()` conversions of the settings are not modelled. A non-numeric setting makes main.py answer 500 before `mkdtemp`, with no notice. The model keeps the raw values (or the defaults).
- Request.ReadJob: `lufs` and `peak_db` are read but unused by main.py; the model reads them and nothing uses them.
- Times are integer milliseconds, and Python's `round` is round-half-to-even on the exact decimal. Binary floating-point drift is not modelled.
- Python's `float()`, float addition and `str()` on the headline window's settings are not modelled. `World.window` stands for them, and the filter chain is built from `World.window(job.hookStart, job.hookDuration)`.
- The silence stage records the job's `pause_trim_ms`. The `silenceremove` option text built from it (`pause_trim_ms/1000.0`) is not modelled.
- Hook.HookPrefersTrigger: trigger words match case-insensitively in ASCII only; `re.I` also folds non-ASCII letters. `\b` counts only ASCII letters, digits and `_` as word characters.
- Text.Lower: ASCII lower-casing only. It is exact for the comparisons with "true" and "bearer ".
- Subtitles.ClockOf: `ts` prints a rounded centisecond count of 100 as `.100` and does not carry it into the seconds (Subtitles.TsNoCarryExample, Subtitles.CentisecondsOverflow). The model does the same.
- Pipeline.RunJob: the caption step records the chunks it writes, not the text. That text is Subtitles.Document of those chunks, which Subtitles.MakeAss produces.
- Filtergraph.ReadEscaped: requires a headline that does not end in a backslash. main.py does not escape backslashes, so such a headline escapes the closing quote (Filtergraph.TrailingBackslashEscapesQuote).
- Pipeline.RenderReadBack: requires a working directory whose path has no single quote. main.py does not escape the caption path.
- Logging (`print`, `traceback`) is not modelled.
