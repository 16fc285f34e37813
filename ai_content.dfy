/**
 * The four generators of lib/openai.ts (`generateIdeas`, `breakMilestones`,
 * `getMilestoneHelp`, `generatePortfolioBlurb`). They share one protocol:
 * a deterministic cache key, a cache hit that short-circuits, a call to the
 * completion service, a parse of its text (direct JSON, else the first
 * fenced block), a cache write, and a fixed fallback payload on failure.
 * The completion service and `JSON.parse` are parameters of the model.
 */
module AiContent {
  import opened Common
  import opened Text
  import opened AiCache

  /** One generation request; each constructor is one of the four generators. */
  datatype Request =
    | Ideas(skills: seq<string>, goal: string, weeks: int)
    | Milestones(projectTitle: string)
    | Help(milestoneTitle: string, projectTitle: string)
    | Blurb(projectTitle: string)

  /** What the completion service did: threw an error with a message, or answered with optional content. */
  datatype Completion = Threw(message: string) | Answered(content: Option<string>)

  /** `AIResponse`: `error` is absent on success, `cached` is absent (false) unless the cache answered. */
  datatype AIResponse = AIResponse(success: bool, data: Json, error: Option<string>, cached: bool)

  const NoResponse: string := "No response from OpenAI"
  const InvalidJson: string := "Invalid JSON response from OpenAI"

  /** The cache key of a request. */
  function CacheKey(req: Request): string
  {
    match req
    case Ideas(skills, goal, weeks) => "ideas_" + Join(skills, ",") + "_" + goal + "_" + IntToString(weeks)
    case Milestones(title) => "milestones_" + title
    case Help(milestone, project) => "help_" + project + "_" + milestone
    case Blurb(title) => "blurb_" + title
  }

  // The fixed text of the four prompt templates, between their parameters.
  const IdeasPrompt0: string := "You are a product coach. Student skills: "
  const IdeasPrompt1: string := ". Goal: "
  const IdeasPrompt2: string := ". Time: "
  const IdeasPrompt3: string :=
    " weeks. Suggest 3 recruiter-ready project ideas. For each: 1-line problem, 1-line solution, "
    + "tech stack, 1 measurable outcome. Return as JSON array with fields: problem, solution, "
    + "techStack (array), outcome."
  const MilestonesPrompt0: string := "Break the project '"
  const MilestonesPrompt1: string :=
    "' into 5 milestones with deliverables and acceptance criteria; each milestone completable in "
    + "5\U{2013}10 hours. Return as JSON array with fields: title, description, deliverables (array), "
    + "acceptanceCriteria (array), estHours."
  const HelpPrompt0: string := "For milestone '"
  const HelpPrompt1: string := "' of project '"
  const HelpPrompt2: string :=
    "', give a 5-step implementation checklist and one short starter code snippet or CLI command. "
    + "Return as JSON with fields: steps (array of strings), starterCode (string)."
  const BlurbPrompt0: string := "Write a 120\U{2013}150 word recruiter-friendly portfolio blurb for '"
  const BlurbPrompt1: string :=
    "' describing problem, approach, tech stack, impact metric. Return as JSON with field: blurb (string)."

  /** The prompt template of each generator. */
  function Prompt(req: Request): string
  {
    match req
    case Ideas(skills, goal, weeks) =>
      IdeasPrompt0 + Join(skills, ", ") + IdeasPrompt1 + goal + IdeasPrompt2 + IntToString(weeks) + IdeasPrompt3
    case Milestones(title) => MilestonesPrompt0 + title + MilestonesPrompt1
    case Help(milestone, project) => HelpPrompt0 + milestone + HelpPrompt1 + project + HelpPrompt2
    case Blurb(title) => BlurbPrompt0 + title + BlurbPrompt1
  }

  /** The payload each generator returns with `success: false`. */
  function Fallback(req: Request): Json
  {
    match req
    case Ideas(_, _, _) =>
      JArr([JObj([
        ("problem", JStr("Build a personal productivity dashboard")),
        ("solution", JStr("Create a web app to track tasks and goals")),
        ("techStack", JArr([JStr("Next.js"), JStr("TypeScript"), JStr("Tailwind CSS")])),
        ("outcome", JStr("Complete MVP in 4 weeks"))])])
    case Milestones(_) => JArr([])
    case Help(_, _) => JObj([("steps", JArr([])), ("starterCode", JStr(""))])
    case Blurb(_) => JObj([("blurb", JStr(""))])
  }

  /** The error text used when the caught error has an empty message. */
  function DefaultError(req: Request): string
  {
    match req
    case Ideas(_, _, _) => "Failed to generate ideas"
    case Milestones(_) => "Failed to break milestones"
    case Help(_, _) => "Failed to get milestone help"
    case Blurb(_) => "Failed to generate blurb"
  }

  // ---------------------------------------------------------------------------
  // Fenced-block extraction: the first match of /```(?:json)?\s*([\s\S]*?)\s*```/

  /** Three backticks start at index `i`. */
  predicate FenceAt(s: string, i: int)
  {
    0 <= i && i + 3 <= |s| && s[i] == '`' && s[i + 1] == '`' && s[i + 2] == '`'
  }

  /** The first index at or after `from` where three backticks start. */
  function FirstFence(s: string, from: nat): (r: Option<nat>)
    decreases |s| - from
    ensures r.Some? ==> from <= r.value && FenceAt(s, r.value)
    ensures r.Some? ==> forall j | from <= j < r.value :: !FenceAt(s, j)
    ensures r.None? ==> forall j | from <= j :: !FenceAt(s, j)
  {
    if from + 3 > |s| then None
    else if FenceAt(s, from) then Some(from)
    else FirstFence(s, from + 1)
  }

  /** The first index at or after `i` that holds no white space (or the end of `s`). */
  function SkipSpace(s: string, i: nat): (r: nat)
    requires i <= |s|
    decreases |s| - i
    ensures i <= r <= |s|
    ensures r == |s| || !IsSpace(s[r])
    ensures forall j | i <= j < r :: IsSpace(s[j])
  {
    if i < |s| && IsSpace(s[i]) then SkipSpace(s, i + 1) else i
  }

  /** `\s*```` matches at index `i`. */
  predicate CloserAt(s: string, i: nat)
    requires i <= |s|
  {
    FenceAt(s, SkipSpace(s, i))
  }

  /** The shortest lazy capture: the first index at or after `i` where `\s*```` matches. */
  function CaptureEnd(s: string, i: nat): (r: Option<nat>)
    requires i <= |s|
    decreases |s| - i
    ensures r.Some? ==> i <= r.value <= |s| && CloserAt(s, r.value)
    ensures r.Some? ==> forall j | i <= j < r.value :: !CloserAt(s, j)
    ensures r.None? ==> forall j | i <= j <= |s| :: !CloserAt(s, j)
  {
    if CloserAt(s, i) then Some(i)
    else if i == |s| then None
    else CaptureEnd(s, i + 1)
  }

  /** The capture group of the first fenced block of `s`, if any. */
  function ExtractFenced(s: string): Option<string>
  {
    match FirstFence(s, 0)
    case None => None
    case Some(p) =>
      var afterTag := if p + 7 <= |s| && s[p + 3..p + 7] == "json" then p + 7 else p + 3;
      var start := SkipSpace(s, afterTag);
      match CaptureEnd(s, start)
      case None => None
      case Some(e) => Some(s[start..e])
  }

  predicate AllSpace(s: string)
  {
    forall i | 0 <= i < |s| :: IsSpace(s[i])
  }

  /** The first fence, located by index: no backtick before `p` and a fence at `p`. */
  lemma FirstFenceAt(s: string, p: nat)
    requires FenceAt(s, p)
    requires forall j | 0 <= j < p :: s[j] != '`'
    ensures FirstFence(s, 0) == Some(p)
  {
  }

  /** White space from `i` up to a non-space character at `k` (or the end) is what SkipSpace skips. */
  lemma SkipSpaceTo(s: string, i: nat, k: nat)
    requires i <= k <= |s|
    requires forall j | i <= j < k :: IsSpace(s[j])
    requires k == |s| || !IsSpace(s[k])
    ensures SkipSpace(s, i) == k
  {
  }

  /** The lazy capture stops at `end` when no backtick comes before it and the text ends in a non-space. */
  lemma CaptureEndAt(s: string, start: nat, end: nat)
    requires start <= end <= |s|
    requires forall j | start <= j < end :: s[j] != '`'
    requires start < end ==> !IsSpace(s[end - 1])
    requires CloserAt(s, end)
    ensures CaptureEnd(s, start) == Some(end)
  {
    forall j | start <= j < end
      ensures !CloserAt(s, j)
    {
      var k := SkipSpace(s, j);
      assert k <= end - 1;
    }
  }

  /** The block read off by index: fence and tag at `p`, the body in `start..end`, the closing fence at `close`. */
  lemma FencedLayout(s: string, p: nat, start: nat, end: nat, close: nat)
    requires p + 7 <= start <= end <= close && close + 3 <= |s|
    requires forall j | 0 <= j < p :: s[j] != '`'
    requires s[p..p + 7] == "```json"
    requires forall j | p + 7 <= j < start :: IsSpace(s[j])
    requires forall j | start <= j < end :: s[j] != '`'
    requires start < end ==> !IsSpace(s[start]) && !IsSpace(s[end - 1])
    requires forall j | end <= j < close :: IsSpace(s[j])
    requires s[close..close + 3] == "```"
    ensures ExtractFenced(s) == Some(s[start..end])
  {
    assert s[p] == '`' && s[p + 1] == '`' && s[p + 2] == '`';
    FirstFenceAt(s, p);
    assert s[p + 3..p + 7] == "json";
    assert s[close] == '`' && s[close + 1] == '`' && s[close + 2] == '`';
    assert FenceAt(s, close) && !IsSpace(s[close]);
    SkipSpaceTo(s, end, close);
    if start == end {
      SkipSpaceTo(s, p + 7, close);
      assert CaptureEnd(s, close) == Some(close);
      assert s[close..close] == s[start..end];
    } else {
      SkipSpaceTo(s, p + 7, start);
      CaptureEndAt(s, start, end);
    }
  }

  /**
   * A block written as "```json", white space, a body, white space and "```"
   * yields the body, when nothing before it has a backtick and the body has
   * none and no white space at its ends.
   */
  lemma FencedBlockYieldsBody(pre: string, ws1: string, body: string, ws2: string, post: string)
    requires '`' !in pre && '`' !in body
    requires AllSpace(ws1) && AllSpace(ws2) && Trimmed(body)
    ensures ExtractFenced(pre + "```json" + ws1 + body + ws2 + "```" + post) == Some(body)
  {
    var s := pre + "```json" + ws1 + body + ws2 + "```" + post;
    var p := |pre|;
    var start := p + 7 + |ws1|;
    var end := start + |body|;
    var close := end + |ws2|;
    assert s[..p] == pre;
    assert s[p..p + 7] == "```json";
    assert s[p + 7..start] == ws1;
    assert s[start..end] == body;
    assert s[end..close] == ws2;
    assert s[close..close + 3] == "```";
    forall j | 0 <= j < p ensures s[j] != '`' { assert s[j] == pre[j]; }
    forall j | p + 7 <= j < start ensures IsSpace(s[j]) { assert s[j] == ws1[j - p - 7]; }
    forall j | start <= j < end ensures s[j] != '`' { assert s[j] == body[j - start]; }
    forall j | end <= j < close ensures IsSpace(s[j]) { assert s[j] == ws2[j - end]; }
    FencedLayout(s, p, start, end, close);
  }

  /** Text with no three backticks in a row has no fenced block. */
  lemma NoFenceNoBlock(s: string)
    requires forall i | 0 <= i :: !FenceAt(s, i)
    ensures ExtractFenced(s) == None
  {
  }

  /** An opening fence with nothing that closes it yields no block. */
  lemma UnclosedFenceNoBlock(pre: string, rest: string)
    requires '`' !in pre && '`' !in rest
    ensures ExtractFenced(pre + "```" + rest) == None
  {
    var s := pre + "```" + rest;
    var p := |pre|;
    assert forall j | 0 <= j < p :: s[j] == pre[j];
    assert forall j | p + 3 <= j < |s| :: s[j] == rest[j - p - 3];
    assert FenceAt(s, p);
    assert FirstFence(s, 0) == Some(p);
    forall j | p + 3 <= j <= |s|
      ensures !CloserAt(s, j)
    {
      var k := SkipSpace(s, j);
      assert k == |s| || s[k] == rest[k - p - 3];
    }
  }

  // ---------------------------------------------------------------------------
  // Parsing the completion and running the protocol

  /**
   * The completion text to data: direct `JSON.parse`, else `JSON.parse` of
   * the first fenced block; `parse` stands for `JSON.parse` and its error
   * carries the library's message.
   */
  function ParseCompletion(content: Option<string>, parse: string -> Result<Json, string>): (r: Result<Json, string>)
    ensures content.None? || content == Some("") ==> r == Err(NoResponse)
    ensures content.Some? && content.value != "" && parse(content.value).Ok? ==> r == parse(content.value)
    ensures content.Some? && content.value != "" && parse(content.value).Err? && ExtractFenced(content.value).None?
            ==> r == Err(InvalidJson)
    ensures content.Some? && content.value != "" && parse(content.value).Err? && ExtractFenced(content.value).Some?
            ==> r == parse(ExtractFenced(content.value).value)
    ensures r.Ok? ==>
              && content.Some?
              && (|| r == parse(content.value)
                  || (ExtractFenced(content.value).Some? && r == parse(ExtractFenced(content.value).value)))
  {
    match content
    case None => Err(NoResponse)
    case Some(text) =>
      if text == "" then Err(NoResponse)
      else match parse(text)
        case Ok(data) => Ok(data)
        case Err(_) =>
          match ExtractFenced(text)
          case Some(inner) => parse(inner)
          case None => Err(InvalidJson)
  }

  /** Text the parser rejects as it stands, wrapped in a json fence, is parsed from its body. */
  lemma FencedCompletionParsesBody(parse: string -> Result<Json, string>, pre: string, body: string, post: string)
    requires '`' !in pre && '`' !in body && Trimmed(body)
    requires parse(pre + "```json\n" + body + "\n```" + post).Err?
    ensures ParseCompletion(Some(pre + "```json\n" + body + "\n```" + post), parse) == parse(body)
  {
    assert pre + "```json\n" + body + "\n```" + post == pre + "```json" + "\n" + body + "\n" + "```" + post;
    FencedBlockYieldsBody(pre, "\n", body, "\n", post);
  }

  /** The outcome of the `try` block up to the cache write. */
  function Attempt(completion: Completion, parse: string -> Result<Json, string>): Result<Json, string>
  {
    match completion
    case Threw(m) => Err(m)
    case Answered(content) => ParseCompletion(content, parse)
  }

  /** A read of the cache that counts as a hit: the lookup succeeded and the payload is truthy. */
  function CacheHit(rows: map<string, Entry>, key: string, now: int, lookupFailed: bool): (r: Option<Json>)
    ensures r.Some? ==> !lookupFailed && Lookup(rows, key, now) == r && Truthy(r.value)
  {
    if lookupFailed then None
    else match Lookup(rows, key, now)
      case Some(v) => if Truthy(v) then Some(v) else None
      case None => None
  }

  /** What one generator call returns, whether it called the completion service, and the cache it leaves. */
  datatype Run = Run(response: AIResponse, asked: bool, rows: map<string, Entry>)

  /** The protocol shared by the four generators, as a function of the cache table it starts from. */
  function Protocol(rows: map<string, Entry>, req: Request, now: int, lookupFailed: bool,
                    completion: Completion, parse: string -> Result<Json, string>, createdAt: int): Run
  {
    var key := CacheKey(req);
    match CacheHit(rows, key, now, lookupFailed)
    case Some(v) => Run(AIResponse(true, v, None, true), false, rows)
    case None =>
      var read := if lookupFailed then rows else Evict(rows, key, now);
      match Attempt(completion, parse)
      case Ok(data) => Run(AIResponse(true, data, None, false), true, Upsert(read, key, Prompt(req), data, None, createdAt))
      case Err(m) => Run(AIResponse(false, Fallback(req), Some(Message(m, DefaultError(req))), false), true, read)
  }

  /**
   * One generator call. `asked` says whether the completion service was
   * called; `createdAt` is the timestamp the store gives a written row.
   */
  method Generate(cache: Table, req: Request, now: int, lookupFailed: bool,
                  completion: Completion, parse: string -> Result<Json, string>, createdAt: int)
    returns (r: AIResponse, asked: bool)
    modifies cache
    ensures Run(r, asked, cache.rows) == Protocol(old(cache.rows), req, now, lookupFailed, completion, parse, createdAt)
  {
    var key := CacheKey(req);
    var cached := cache.Get(key, now, lookupFailed);
    if cached.Some? && Truthy(cached.value) {
      return AIResponse(true, cached.value, None, true), false;
    }
    asked := true;
    var attempt := Attempt(completion, parse);
    match attempt {
      case Ok(data) =>
        var prompt := Prompt(req);
        cache.Put(key, prompt, data, None, createdAt);
        r := AIResponse(true, data, None, false);
      case Err(m) =>
        r := AIResponse(false, Fallback(req), Some(Message(m, DefaultError(req))), false);
    }
  }

  /** A cache hit answers with the stored payload, tagged as cached, without calling the service or writing. */
  lemma HitShortCircuits(rows: map<string, Entry>, req: Request, now: int, completion: Completion,
                         parse: string -> Result<Json, string>, createdAt: int)
    requires var key := CacheKey(req); key in rows && !Expired(rows[key], now) && Truthy(rows[key].response)
    ensures var run := Protocol(rows, req, now, false, completion, parse, createdAt);
            && run.response == AIResponse(true, rows[CacheKey(req)].response, None, true)
            && !run.asked && run.rows == rows
  {
  }

  /** A successful generation is written under the request's key with its prompt, and returned uncached. */
  lemma SuccessIsCached(rows: map<string, Entry>, req: Request, now: int, lookupFailed: bool,
                        completion: Completion, parse: string -> Result<Json, string>, createdAt: int)
    requires CacheHit(rows, CacheKey(req), now, lookupFailed).None?
    requires Attempt(completion, parse).Ok?
    ensures var run := Protocol(rows, req, now, lookupFailed, completion, parse, createdAt);
            var data := Attempt(completion, parse).value;
            && run.asked
            && run.response == AIResponse(true, data, None, false)
            && CacheKey(req) in run.rows
            && run.rows[CacheKey(req)] == Entry(Prompt(req), data, createdAt, Some(DefaultTtl))
            && Lookup(run.rows, CacheKey(req), createdAt) == Some(data)
            && forall k | k in rows && k != CacheKey(req) :: k in run.rows && run.rows[k] == rows[k]
  {
  }

  /** A failed generation returns the generator's fixed fallback and a non-empty error, and writes nothing. */
  lemma FailureFallsBack(rows: map<string, Entry>, req: Request, now: int, lookupFailed: bool,
                         completion: Completion, parse: string -> Result<Json, string>, createdAt: int)
    requires CacheHit(rows, CacheKey(req), now, lookupFailed).None?
    requires Attempt(completion, parse).Err?
    ensures var run := Protocol(rows, req, now, lookupFailed, completion, parse, createdAt);
            && run.asked && !run.response.success && !run.response.cached
            && run.response.data == Fallback(req)
            && run.response.error.Some? && run.response.error.value != ""
            && run.rows == (if lookupFailed then rows else Evict(rows, CacheKey(req), now))
  {
  }

  /** Asking twice within the ttl: the second call is answered by the cache with the first call's data. */
  lemma SecondCallIsCached(rows: map<string, Entry>, req: Request, now: int, later: int,
                           completion: Completion, completion2: Completion,
                           parse: string -> Result<Json, string>, createdAt: int)
    requires CacheHit(rows, CacheKey(req), now, false).None?
    requires Attempt(completion, parse).Ok? && Truthy(Attempt(completion, parse).value)
    requires 0 <= later - createdAt <= DefaultTtl
    ensures var first := Protocol(rows, req, now, false, completion, parse, createdAt);
            var second := Protocol(first.rows, req, later, false, completion2, parse, createdAt);
            && second.response == AIResponse(true, first.response.data, None, true)
            && !second.asked && second.rows == first.rows
  {
  }

  // ---------------------------------------------------------------------------
  // Properties of keys and fallbacks

  /** Requests of two different generators never share a cache key. */
  lemma KeysOfDifferentGeneratorsDiffer(a: Request, b: Request)
    requires a.Ideas? != b.Ideas? || a.Milestones? != b.Milestones? || a.Help? != b.Help?
    ensures CacheKey(a) != CacheKey(b)
  {
    assert CacheKey(a)[0] != CacheKey(b)[0];
  }

  /** Milestone and blurb keys determine the project title. */
  lemma TitleKeysAreInjective(a: Request, b: Request)
    requires (a.Milestones? && b.Milestones?) || (a.Blurb? && b.Blurb?)
    requires CacheKey(a) == CacheKey(b)
    ensures a == b
  {
    var n := if a.Milestones? then |"milestones_"| else |"blurb_"|;
    assert a.projectTitle == CacheKey(a)[n..];
    assert b.projectTitle == CacheKey(b)[n..];
  }

  /** Help keys are not injective: an underscore in a title lets two requests share a key. */
  lemma HelpKeysCanCollide()
    ensures CacheKey(Help("x", "a_b")) == CacheKey(Help("b_x", "a"))
    ensures Help("x", "a_b") != Help("b_x", "a")
  {
  }

  /** Neither are idea keys: a comma inside one skill reads like two skills. */
  lemma IdeaKeysCanCollide()
    ensures CacheKey(Ideas(["a,b"], "g", 2)) == CacheKey(Ideas(["a", "b"], "g", 2))
  {
  }

  /** Only the idea generator falls back to content; the other three fall back to empty shapes. */
  lemma FallbackShapes(req: Request)
    ensures req.Ideas? ==> Fallback(req).JArr? && |Fallback(req).items| == 1
    ensures req.Milestones? ==> Fallback(req) == JArr([])
    ensures req.Help? ==> Fallback(req) == JObj([("steps", JArr([])), ("starterCode", JStr(""))])
    ensures req.Blurb? ==> Fallback(req) == JObj([("blurb", JStr(""))])
    ensures Truthy(Fallback(req))
  {
  }
}
