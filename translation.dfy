/**
 * The batch translation engine (backend/translation.go). `Translate` makes one call to the chat
 * service, then up to `RetryCount` retry rounds on the entries whose translation is still blank,
 * merging non-blank retry results back by id. `ProcessBatch` cuts its input into batches of
 * `BatchSize`, translates each once and gathers the results of the batches that succeeded.
 *
 * The outside world of one `Translate` call is a `Service`: the rate limiter's wait and the chat
 * service, both indexed by the call number (0 for the initial call, 1 to 3 for the retries) so
 * that a retry may be answered differently, and the JSON decoding of a reply.
 */
module Translation {
  import opened Wrappers

  datatype TextToTranslate = TextToTranslate(id: int, sourceText: string, translation: string)

  const RetryCount: nat := 3
  const BatchSize: nat := 20

  /** A chat completion: the call failed, or the choices it returned. */
  datatype Reply = CallFailed | Choices(contents: seq<string>)

  datatype Service = Service(
    wait: nat -> bool,
    chat: (nat, string) -> Reply,
    parse: string -> Option<seq<TextToTranslate>>)

  datatype TranslateError = RateLimited | ChatFailed | NoChoices | BadJson

  // ---------------------------------------------------------------------------------------
  // The prompt (translation.go:133-144)

  function DigitChar(d: nat): char
    requires d < 10
  {
    (('0' as int) + d) as char
  }

  function Digits(n: nat): string
    decreases n
  {
    if n < 10 then [DigitChar(n)] else Digits(n / 10) + [DigitChar(n % 10)]
  }

  /** Go's decimal formatting of an `int`. */
  function Decimal(n: int): string
  {
    if n < 0 then "-" + Digits(-n) else Digits(n)
  }

  /** One entry as `fmt.Sprintf("%+v\n", text)` prints it. */
  function Entry(t: TextToTranslate): string
  {
    "{ID:" + Decimal(t.id) + " SourceText:" + t.sourceText + " Translation:" + t.translation + "}\n"
  }

  function Entries(ts: seq<TextToTranslate>): string
  {
    if ts == [] then "" else Entries(ts[..|ts| - 1]) + Entry(ts[|ts| - 1])
  }

  function Header(sourceLang: string, targetLang: string): string
  {
    "Translate the following data from " + sourceLang + " to " + targetLang
      + ": use `SourceText` value as input " + " and put output value to `Translation`.\n"
  }

  const Footer: string :=
    "\nOutput format should be ARRAY of JSON. Output format should be \n"
    + "[{\"id\": 1, \"source_text\": \"\", \"translation\": \"\"}, {\"id\": 2, \"source_text\": \"\", \"translation\": \"\"}] "
    + "\nDO NOT INCLUDE ```json"

  /** The entries whose translation is blank, in their order. */
  function Blanks(ts: seq<TextToTranslate>): seq<TextToTranslate>
  {
    if ts == [] then []
    else Blanks(ts[..|ts| - 1]) + (if ts[|ts| - 1].translation == "" then [ts[|ts| - 1]] else [])
  }

  /** The prompt of a call on `texts`: only the entries with a blank translation are listed. */
  function Prompt(texts: seq<TextToTranslate>, sourceLang: string, targetLang: string): string
  {
    Header(sourceLang, targetLang) + Entries(Blanks(texts)) + Footer
  }

  /**
   * translation.go:133-144: the prompt is built entry by entry, skipping every entry that
   * already has a translation.
   */
  method BuildPrompt(texts: seq<TextToTranslate>, sourceLang: string, targetLang: string) returns (prompt: string)
    ensures prompt == Header(sourceLang, targetLang) + Entries(Blanks(texts)) + Footer
  {
    var listing := "";
    var i := 0;
    while i < |texts|
      invariant 0 <= i <= |texts|
      invariant listing == Entries(Blanks(texts[..i]))
    {
      var text := texts[i];
      BlanksStep(texts, i);
      if text.translation == "" {
        EntriesAppend(Blanks(texts[..i]), text);
        listing := listing + Entry(text);
      }
      i := i + 1;
    }
    assert texts[..i] == texts;
    prompt := Header(sourceLang, targetLang) + listing + Footer;
  }

  lemma BlanksStep(ts: seq<TextToTranslate>, i: nat)
    requires i < |ts|
    ensures ts[i].translation == "" ==> Blanks(ts[..i + 1]) == Blanks(ts[..i]) + [ts[i]]
    ensures ts[i].translation != "" ==> Blanks(ts[..i + 1]) == Blanks(ts[..i])
  {
    assert ts[..i + 1][..i] == ts[..i];
    assert Blanks(ts[..i]) + [] == Blanks(ts[..i]);
  }

  lemma EntriesAppend(ts: seq<TextToTranslate>, t: TextToTranslate)
    ensures Entries(ts + [t]) == Entries(ts) + Entry(t)
  {
    assert (ts + [t])[..|ts|] == ts;
  }

  /** The outcome of call `k` on `texts` (translation.go:146-177). */
  function Perform(texts: seq<TextToTranslate>, sourceLang: string, targetLang: string, svc: Service, k: nat)
    : Result<seq<TextToTranslate>, TranslateError>
  {
    Outcome(svc.chat(k, Prompt(texts, sourceLang, targetLang)), svc.parse)
  }

  /** What a reply amounts to once its first choice is decoded. */
  function Outcome(reply: Reply, parse: string -> Option<seq<TextToTranslate>>): Result<seq<TextToTranslate>, TranslateError>
  {
    match reply
    case CallFailed => Err(ChatFailed)
    case Choices(contents) =>
      if |contents| == 0 then Err(NoChoices)
      else match parse(contents[0])
        case None => Err(BadJson)
        case Some(ts) => Ok(ts)
  }

  /**
   * `performTranslation`: a failed call, a reply with no choices and a first choice that does
   * not decode are errors; otherwise the decoded entries are returned as they came.
   */
  method PerformTranslation(texts: seq<TextToTranslate>, sourceLang: string, targetLang: string, svc: Service, k: nat)
    returns (r: Result<seq<TextToTranslate>, TranslateError>)
    ensures r == Perform(texts, sourceLang, targetLang, svc, k)
    ensures svc.chat(k, Prompt(texts, sourceLang, targetLang)) == CallFailed ==> r == Err(ChatFailed)
    ensures svc.chat(k, Prompt(texts, sourceLang, targetLang)) == Choices([]) ==> r == Err(NoChoices)
    ensures r.Ok? ==>
      var reply := svc.chat(k, Prompt(texts, sourceLang, targetLang));
      reply.Choices? && |reply.contents| > 0 && svc.parse(reply.contents[0]) == Some(r.value)
  {
    var prompt := BuildPrompt(texts, sourceLang, targetLang);
    assert prompt == Prompt(texts, sourceLang, targetLang);
    var resp := svc.chat(k, prompt);
    if resp.CallFailed? {
      return Err(ChatFailed);
    }
    if |resp.contents| == 0 {
      return Err(NoChoices);
    }
    var parsed := svc.parse(resp.contents[0]);
    if parsed.None? {
      return Err(BadJson);
    }
    return Ok(parsed.value);
  }

  // ---------------------------------------------------------------------------------------
  // Merging retry results (translation.go:110-123)

  /** The retry results keyed by id, non-blank translations only; a later entry wins. */
  function RetryMap(rs: seq<TextToTranslate>): map<int, string>
  {
    if rs == [] then map[]
    else
      var m := RetryMap(rs[..|rs| - 1]);
      var last := rs[|rs| - 1];
      if last.translation != "" then m[last.id := last.translation] else m
  }

  function MergeAt(t: TextToTranslate, m: map<int, string>): TextToTranslate
  {
    if t.id in m then t.(translation := m[t.id]) else t
  }

  function Merge(ts: seq<TextToTranslate>, m: map<int, string>): seq<TextToTranslate>
  {
    seq(|ts|, i requires 0 <= i < |ts| => MergeAt(ts[i], m))
  }

  /** Some retry result carries `id` with a non-blank translation. */
  predicate Answered(rs: seq<TextToTranslate>, id: int)
  {
    exists j :: 0 <= j < |rs| && rs[j].id == id && rs[j].translation != ""
  }

  /**
   * The map holds exactly the ids answered by a non-blank retry result, each with the
   * translation of the last such result.
   */
  lemma {:induction false} RetryMapSpec(rs: seq<TextToTranslate>)
    ensures forall id :: id in RetryMap(rs) <==> Answered(rs, id)
    ensures forall id :: id in RetryMap(rs) ==>
      exists j :: (0 <= j < |rs| && rs[j].id == id && rs[j].translation == RetryMap(rs)[id] != ""
        && forall j' :: j < j' < |rs| && rs[j'].id == id ==> rs[j'].translation == "")
  {
    if rs != [] {
      var init := rs[..|rs| - 1];
      var last := rs[|rs| - 1];
      RetryMapSpec(init);
      forall id
        ensures id in RetryMap(rs) <==> Answered(rs, id)
      {
        if Answered(init, id) {
          var j :| 0 <= j < |init| && init[j].id == id && init[j].translation != "";
          assert rs[j] == init[j];
        }
        if Answered(rs, id) && !(last.id == id && last.translation != "") {
          var j :| 0 <= j < |rs| && rs[j].id == id && rs[j].translation != "";
          assert j < |init| && init[j] == rs[j];
        }
      }
      forall id | id in RetryMap(rs)
        ensures exists j :: (0 <= j < |rs| && rs[j].id == id && rs[j].translation == RetryMap(rs)[id] != ""
          && forall j' :: j < j' < |rs| && rs[j'].id == id ==> rs[j'].translation == "")
      {
        if last.id == id && last.translation != "" {
          assert rs[|rs| - 1].translation == RetryMap(rs)[id];
        } else {
          var j :| 0 <= j < |init| && init[j].id == id && init[j].translation == RetryMap(init)[id] != ""
            && forall j' :: j < j' < |init| && init[j'].id == id ==> init[j'].translation == "";
          assert rs[j] == init[j];
          forall j' | j < j' < |rs| && rs[j'].id == id
            ensures rs[j'].translation == ""
          {
            if j' < |init| {
              assert rs[j'] == init[j'];
            }
          }
        }
      }
    }
  }

  /**
   * After a merge every entry keeps its id and source text; an entry takes a new translation
   * exactly when a retry result with its id came back non-blank, and then it takes that
   * (the last such) translation, so a translation is never blanked by a merge.
   */
  lemma MergeSpec(ts: seq<TextToTranslate>, rs: seq<TextToTranslate>)
    ensures |Merge(ts, RetryMap(rs))| == |ts|
    ensures forall i :: 0 <= i < |ts| ==>
      Merge(ts, RetryMap(rs))[i].id == ts[i].id && Merge(ts, RetryMap(rs))[i].sourceText == ts[i].sourceText
    ensures forall i :: 0 <= i < |ts| && !Answered(rs, ts[i].id) ==> Merge(ts, RetryMap(rs))[i] == ts[i]
    ensures forall i :: 0 <= i < |ts| && Answered(rs, ts[i].id) ==>
      exists j :: 0 <= j < |rs| && rs[j].id == ts[i].id && Merge(ts, RetryMap(rs))[i].translation == rs[j].translation != ""
    ensures forall i :: 0 <= i < |ts| && ts[i].translation != "" ==> Merge(ts, RetryMap(rs))[i].translation != ""
  {
    RetryMapSpec(rs);
  }

  /** `Blanks` is empty exactly when every entry has a translation. */
  lemma {:induction false} BlanksEmpty(ts: seq<TextToTranslate>)
    ensures Blanks(ts) == [] <==> forall i :: 0 <= i < |ts| ==> ts[i].translation != ""
  {
    if ts != [] {
      var init := ts[..|ts| - 1];
      BlanksEmpty(init);
      if Blanks(ts) == [] {
        assert Blanks(init) == [];
        forall i | 0 <= i < |ts|
          ensures ts[i].translation != ""
        {
          if i < |init| {
            assert ts[i] == init[i];
          }
        }
      }
    }
  }

  /** `Blanks` keeps exactly the entries with a blank translation, and no more of them. */
  lemma {:induction false} BlanksMembers(ts: seq<TextToTranslate>)
    ensures forall t :: t in Blanks(ts) <==> t in ts && t.translation == ""
    ensures |Blanks(ts)| <= |ts|
  {
    if ts != [] {
      var init := ts[..|ts| - 1];
      BlanksMembers(init);
      assert ts == init + [ts[|ts| - 1]];
    }
  }

  /** translation.go:83-90 */
  method CollectBlanks(ts: seq<TextToTranslate>) returns (blanks: seq<TextToTranslate>)
    ensures blanks == Blanks(ts)
  {
    blanks := [];
    var i := 0;
    while i < |ts|
      invariant 0 <= i <= |ts|
      invariant blanks == Blanks(ts[..i])
    {
      assert ts[..i + 1][..i] == ts[..i];
      if ts[i].translation == "" {
        blanks := blanks + [ts[i]];
      }
      i := i + 1;
    }
    assert ts[..i] == ts;
  }

  /** translation.go:111-116 */
  method BuildRetryMap(rs: seq<TextToTranslate>) returns (m: map<int, string>)
    ensures m == RetryMap(rs)
  {
    m := map[];
    var i := 0;
    while i < |rs|
      invariant 0 <= i <= |rs|
      invariant m == RetryMap(rs[..i])
    {
      assert rs[..i + 1][..i] == rs[..i];
      if rs[i].translation != "" {
        m := m[rs[i].id := rs[i].translation];
      }
      i := i + 1;
    }
    assert rs[..i] == rs;
  }

  /** translation.go:119-123: the entries are updated in place. */
  method MergeRetries(ts: seq<TextToTranslate>, m: map<int, string>) returns (merged: seq<TextToTranslate>)
    ensures merged == Merge(ts, m)
  {
    merged := ts;
    var i := 0;
    while i < |merged|
      invariant 0 <= i <= |merged| == |ts|
      invariant forall k :: 0 <= k < i ==> merged[k] == MergeAt(ts[k], m)
      invariant forall k :: i <= k < |ts| ==> merged[k] == ts[k]
    {
      if merged[i].id in m {
        merged := merged[i := merged[i].(translation := m[merged[i].id])];
      }
      i := i + 1;
    }
  }

  // ---------------------------------------------------------------------------------------
  // translate (translation.go:65-127)

  /** The result of a `translate` call and the number of chat calls it made. */
  datatype Run = Run(result: Result<seq<TextToTranslate>, TranslateError>, calls: nat)

  /** The entries after a retry round whose call came out as `retried`. */
  function Advance(ts: seq<TextToTranslate>, retried: Result<seq<TextToTranslate>, TranslateError>): seq<TextToTranslate>
  {
    match retried
    case Err(_) => ts
    case Ok(rs) => Merge(ts, RetryMap(rs))
  }

  /** A call of `performTranslation` on some entries, numbered. */
  type Call = (seq<TextToTranslate>, nat) -> Result<seq<TextToTranslate>, TranslateError>

  function Caller(sourceLang: string, targetLang: string, svc: Service): Call
  {
    (texts: seq<TextToTranslate>, k: nat) => Perform(texts, sourceLang, targetLang, svc, k)
  }

  /**
   * The retry rounds from round `attempt` on, starting from the entries `ts`: a round with no
   * blank entry ends the loop, a refused wait is an error, a failed call leaves the entries as
   * they are.
   */
  function Retries(ts: seq<TextToTranslate>, attempt: nat, wait: nat -> bool, call: Call): Run
    requires attempt <= RetryCount
    decreases RetryCount - attempt
  {
    if attempt == RetryCount then Run(Ok(ts), 0)
    else if Blanks(ts) == [] then Run(Ok(ts), 0)
    else if !wait(attempt + 1) then Run(Err(RateLimited), 0)
    else
      var rest := Retries(Advance(ts, call(Blanks(ts), attempt + 1)), attempt + 1, wait, call);
      Run(rest.result, rest.calls + 1)
  }

  function TranslateRun(texts: seq<TextToTranslate>, sourceLang: string, targetLang: string, svc: Service): Run
  {
    if texts == [] then Run(Ok([]), 0)
    else if !svc.wait(0) then Run(Err(RateLimited), 0)
    else match Perform(texts, sourceLang, targetLang, svc, 0)
      case Err(e) => Run(Err(e), 1)
      case Ok(ts) =>
        var rest := Retries(ts, 0, svc.wait, Caller(sourceLang, targetLang, svc));
        Run(rest.result, rest.calls + 1)
  }

  /**
   * `translate`: an empty input makes no call; a refused wait or a failed initial call is an
   * error; a failed retry is skipped; at most 1 + RetryCount chat calls are made.
   */
  method Translate(texts: seq<TextToTranslate>, sourceLang: string, targetLang: string, svc: Service)
    returns (r: Result<seq<TextToTranslate>, TranslateError>, calls: nat)
    ensures Run(r, calls) == TranslateRun(texts, sourceLang, targetLang, svc)
    ensures calls <= 1 + RetryCount
    ensures texts == [] ==> r == Ok([]) && calls == 0
    ensures texts != [] && !svc.wait(0) ==> r == Err(RateLimited)
    ensures texts != [] && svc.wait(0) && Perform(texts, sourceLang, targetLang, svc, 0).Err? ==>
      r == Perform(texts, sourceLang, targetLang, svc, 0) && calls == 1
  {
    if |texts| == 0 {
      return Ok([]), 0;
    }
    if !svc.wait(0) {
      return Err(RateLimited), 0;
    }
    var first := PerformTranslation(texts, sourceLang, targetLang, svc, 0);
    if first.Err? {
      return Err(first.error), 1;
    }
    var retryCalls;
    r, retryCalls := RetryBlanks(first.value, svc.wait, Caller(sourceLang, targetLang, svc));
    calls := retryCalls + 1;
  }

  /**
   * translation.go:81-126: the retry rounds after a successful initial call, written over the
   * rate limiter's wait and the call each round makes (`performTranslation` in `Translate`).
   */
  method RetryBlanks(ts: seq<TextToTranslate>, wait: nat -> bool, call: Call)
    returns (r: Result<seq<TextToTranslate>, TranslateError>, calls: nat)
    ensures Run(r, calls) == Retries(ts, 0, wait, call)
    ensures calls <= RetryCount
  {
    var translations := ts;
    calls := 0;
    var attempt := 0;
    ghost var goal := Retries(ts, attempt, wait, call);
    while attempt < RetryCount
      invariant 0 <= attempt <= RetryCount
      invariant calls == attempt
      invariant goal.calls == calls + Retries(translations, attempt, wait, call).calls
      invariant goal.result == Retries(translations, attempt, wait, call).result
    {
      var blanks := CollectBlanks(translations);
      if |blanks| == 0 {
        break;
      }
      if !wait(attempt + 1) {
        return Err(RateLimited), calls;
      }
      var retried := call(blanks, attempt + 1);
      calls := calls + 1;
      if retried.Ok? {
        var m := BuildRetryMap(retried.value);
        translations := MergeRetries(translations, m);
      }
      attempt := attempt + 1;
    }
    r := Ok(translations);
  }

  /** The retry rounds from round `attempt` make at most `RetryCount - attempt` calls. */
  lemma {:induction false} RetriesCalls(ts: seq<TextToTranslate>, attempt: nat, wait: nat -> bool, call: Call)
    requires attempt <= RetryCount
    ensures Retries(ts, attempt, wait, call).calls <= RetryCount - attempt
    decreases RetryCount - attempt
  {
    if attempt < RetryCount && Blanks(ts) != [] && wait(attempt + 1) {
      RetriesCalls(Advance(ts, call(Blanks(ts), attempt + 1)), attempt + 1, wait, call);
    }
  }

  /** A `translate` call makes at most one initial call and `RetryCount` retries. */
  lemma TranslateCalls(texts: seq<TextToTranslate>, sourceLang: string, targetLang: string, svc: Service)
    ensures TranslateRun(texts, sourceLang, targetLang, svc).calls <= 1 + RetryCount
    ensures TranslateRun(texts, sourceLang, targetLang, svc).calls == 0 <==> texts == [] || !svc.wait(0)
  {
    var p := Perform(texts, sourceLang, targetLang, svc, 0);
    if p.Ok? {
      RetriesCalls(p.value, 0, svc.wait, Caller(sourceLang, targetLang, svc));
    }
  }

  /** Two entry lists with the same ids and source texts, where no translation was blanked. */
  predicate Refines(ts: seq<TextToTranslate>, out: seq<TextToTranslate>)
  {
    |out| == |ts|
    && (forall i :: 0 <= i < |ts| ==> out[i].id == ts[i].id && out[i].sourceText == ts[i].sourceText)
    && (forall i :: 0 <= i < |ts| && ts[i].translation != "" ==> out[i].translation != "")
  }

  /**
   * The retry rounds keep the entries of the initial reply: same length, ids and source texts,
   * and a translation once present is never blanked.
   */
  lemma {:induction false} RetriesRefine(ts: seq<TextToTranslate>, attempt: nat, wait: nat -> bool, call: Call)
    requires attempt <= RetryCount
    ensures Retries(ts, attempt, wait, call).result.Ok? ==> Refines(ts, Retries(ts, attempt, wait, call).result.value)
    decreases RetryCount - attempt
  {
    if attempt < RetryCount && Blanks(ts) != [] && wait(attempt + 1) {
      var retried := call(Blanks(ts), attempt + 1);
      var next := Advance(ts, retried);
      RetriesRefine(next, attempt + 1, wait, call);
      if retried.Ok? {
        MergeSpec(ts, retried.value);
      }
      var out := Retries(ts, attempt, wait, call).result;
      if out.Ok? {
        assert Refines(next, out.value);
      }
    }
  }

  /**
   * Blank translations are only returned after every retry round was spent: an `Ok` result
   * with a blank entry used all `RetryCount - attempt` remaining rounds.
   */
  lemma {:induction false} RetriesExhausted(ts: seq<TextToTranslate>, attempt: nat, wait: nat -> bool, call: Call)
    requires attempt <= RetryCount
    ensures var run := Retries(ts, attempt, wait, call);
      run.result.Ok? && Blanks(run.result.value) != [] ==> run.calls == RetryCount - attempt
    decreases RetryCount - attempt
  {
    if attempt < RetryCount && Blanks(ts) != [] && wait(attempt + 1) {
      RetriesExhausted(Advance(ts, call(Blanks(ts), attempt + 1)), attempt + 1, wait, call);
    }
  }

  /**
   * When the initial reply is complete, `translate` returns it after one call; when the first
   * retry answers every blank entry with a non-blank translation, the result has no blank entry.
   */
  lemma FirstRetryCompletes(texts: seq<TextToTranslate>, sourceLang: string, targetLang: string, svc: Service)
    requires texts != [] && svc.wait(0) && Perform(texts, sourceLang, targetLang, svc, 0).Ok?
    requires var ts := Perform(texts, sourceLang, targetLang, svc, 0).value;
      Blanks(ts) != [] && svc.wait(1) && Perform(Blanks(ts), sourceLang, targetLang, svc, 1).Ok?
      && forall i :: 0 <= i < |ts| && ts[i].translation == "" ==>
        Answered(Perform(Blanks(ts), sourceLang, targetLang, svc, 1).value, ts[i].id)
    ensures TranslateRun(texts, sourceLang, targetLang, svc).calls == 2
    ensures TranslateRun(texts, sourceLang, targetLang, svc).result.Ok?
    ensures Blanks(TranslateRun(texts, sourceLang, targetLang, svc).result.value) == []
  {
    var ts := Perform(texts, sourceLang, targetLang, svc, 0).value;
    var rs := Perform(Blanks(ts), sourceLang, targetLang, svc, 1).value;
    var call := Caller(sourceLang, targetLang, svc);
    assert call(Blanks(ts), 1) == Ok(rs);
    var next := Merge(ts, RetryMap(rs));
    MergeSpec(ts, rs);
    assert forall i :: 0 <= i < |next| ==> next[i].translation != "";
    BlanksEmpty(next);
    assert Retries(next, 1, svc.wait, call) == Run(Ok(next), 0);
  }

  /** A complete initial reply is returned as it came, after one call. */
  lemma CompleteReplyReturned(texts: seq<TextToTranslate>, sourceLang: string, targetLang: string, svc: Service)
    requires texts != [] && svc.wait(0) && Perform(texts, sourceLang, targetLang, svc, 0).Ok?
    requires forall i :: 0 <= i < |Perform(texts, sourceLang, targetLang, svc, 0).value| ==>
      Perform(texts, sourceLang, targetLang, svc, 0).value[i].translation != ""
    ensures TranslateRun(texts, sourceLang, targetLang, svc) == Run(Perform(texts, sourceLang, targetLang, svc, 0), 1)
  {
    BlanksEmpty(Perform(texts, sourceLang, targetLang, svc, 0).value);
  }

  // ---------------------------------------------------------------------------------------
  // Batches (translation.go:180-243)

  /** The input cut into consecutive batches of `BatchSize`, the last one possibly shorter. */
  function Chunks(texts: seq<TextToTranslate>): seq<seq<TextToTranslate>>
    decreases |texts|
  {
    if texts == [] then []
    else if |texts| <= BatchSize then [texts]
    else [texts[..BatchSize]] + Chunks(texts[BatchSize..])
  }

  function Flatten(batches: seq<seq<TextToTranslate>>): seq<TextToTranslate>
  {
    if batches == [] then [] else batches[0] + Flatten(batches[1..])
  }

  /**
   * The batches put back together are the input; each holds 1 to `BatchSize` entries, all but
   * the last exactly `BatchSize`; there are ceil(n / BatchSize) of them.
   */
  lemma {:induction false} ChunksSpec(texts: seq<TextToTranslate>)
    ensures Flatten(Chunks(texts)) == texts
    ensures forall b :: 0 <= b < |Chunks(texts)| ==> 1 <= |Chunks(texts)[b]| <= BatchSize
    ensures forall b :: 0 <= b < |Chunks(texts)| - 1 ==> |Chunks(texts)[b]| == BatchSize
    ensures |Chunks(texts)| == (|texts| + BatchSize - 1) / BatchSize
    decreases |texts|
  {
    if |texts| > BatchSize {
      var rest := texts[BatchSize..];
      ChunksSpec(rest);
      assert Chunks(texts)[1..] == Chunks(rest);
      assert texts[..BatchSize] + rest == texts;
    }
  }

  lemma ChunksStep(texts: seq<TextToTranslate>)
    requires |texts| >= BatchSize
    ensures Chunks(texts) == [texts[..BatchSize]] + Chunks(texts[BatchSize..])
  {
    if |texts| == BatchSize {
      assert texts[..BatchSize] == texts;
      assert texts[BatchSize..] == [];
    }
  }

  /** translation.go:188-202: the batching loop. */
  method MakeBatches(texts: seq<TextToTranslate>) returns (batches: seq<seq<TextToTranslate>>)
    ensures batches == Chunks(texts)
  {
    batches := [];
    var current: seq<TextToTranslate> := [];
    ghost var start := 0;
    var i := 0;
    while i < |texts|
      invariant 0 <= start <= i <= |texts|
      invariant current == texts[start..i] && |current| < BatchSize
      invariant Chunks(texts) == batches + Chunks(texts[start..])
    {
      current := current + [texts[i]];
      i := i + 1;
      if |current| >= BatchSize {
        BatchBoundary(texts, start, current);
        batches := batches + [current];
        current := [];
        start := i;
      }
    }
    if |current| > 0 {
      assert texts[start..] == current;
      batches := batches + [current];
    } else {
      assert texts[start..] == [];
    }
  }

  lemma BatchBoundary(texts: seq<TextToTranslate>, start: nat, current: seq<TextToTranslate>)
    requires start + BatchSize <= |texts| && current == texts[start..start + BatchSize]
    ensures Chunks(texts[start..]) == [current] + Chunks(texts[start + BatchSize..])
  {
    ChunksStep(texts[start..]);
    assert texts[start..][..BatchSize] == current;
    assert texts[start..][BatchSize..] == texts[start + BatchSize..];
  }

  /** What batches `0 .. |batches| - 1` contribute: the result of each that succeeded. */
  function Outputs(batches: seq<seq<TextToTranslate>>, sourceLang: string, targetLang: string, services: nat -> Service)
    : seq<TextToTranslate>
  {
    if batches == [] then []
    else
      var k := |batches| - 1;
      Outputs(batches[..k], sourceLang, targetLang, services)
        + match TranslateRun(batches[k], sourceLang, targetLang, services(k)).result
          case Ok(out) => out
          case Err(_) => []
  }

  /**
   * `processBatch`: every batch is translated once, the results of the batches that succeeded
   * are gathered and those of failed batches are dropped. Batch `k` meets the service
   * `services(k)`; the order in which the workers finish is not modelled, so the result is
   * stated up to order.
   */
  method ProcessBatch(texts: seq<TextToTranslate>, sourceLang: string, targetLang: string, services: nat -> Service)
    returns (results: seq<TextToTranslate>, ghost submitted: seq<seq<TextToTranslate>>)
    ensures submitted == Chunks(texts)
    ensures multiset(results) == multiset(Outputs(Chunks(texts), sourceLang, targetLang, services))
  {
    var batches := MakeBatches(texts);
    submitted := batches;
    results := [];
    var k := 0;
    while k < |batches|
      invariant 0 <= k <= |batches|
      invariant results == Outputs(batches[..k], sourceLang, targetLang, services)
    {
      assert batches[..k + 1][..k] == batches[..k];
      var translations, _ := Translate(batches[k], sourceLang, targetLang, services(k));
      if translations.Ok? {
        results := results + translations.value;
      }
      k := k + 1;
    }
    assert batches[..k] == batches;
  }
}
