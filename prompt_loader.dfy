/** The prompt loader of src/utils/promptLoader.ts: step keys, the file a
    key maps to, the checks a fetched prompt must pass, the five-minute
    cache, the per-key error counts and the fallback prompts, and the
    `{{key}}` interpolation. The fetch itself is a parameter: a function
    from the URL to what the server answered. */
module PromptLoading {
  import opened Common

  // ---------------------------------------------------------------------
  // normalizeStepKey

  /** A step as loadPrompt and clearCache receive it: a number or a key. */
  datatype Step = StepNumber(n: int) | StepKey(key: string)

  /** A JavaScript integer in a template literal: its decimal digits, after
      a `-` when it is negative. */
  function IntToString(n: int): (r: string)
    ensures r != [] && (r[0] == '-' <==> n < 0)
    ensures n >= 0 ==> r == NatToString(n)
  {
    if n < 0 then "-" + NatToString(-n) else NatToString(n)
  }

  /** normalizeStepKey. */
  function NormalizeStepKey(step: Step): string
  {
    match step
    case StepKey(key) => if key == "workshop" then "stepworkshop" else key
    case StepNumber(n) => "step" + IntToString(n)
  }

  /** A numbered step and its written-out key share one cache entry, and so
      do 'workshop' and 'stepworkshop'; any other key is kept as it is. */
  lemma NormalizedSpellings(n: int, key: string)
    ensures NormalizeStepKey(StepNumber(n)) == NormalizeStepKey(StepKey("step" + IntToString(n)))
    ensures NormalizeStepKey(StepKey("workshop")) == NormalizeStepKey(StepKey("stepworkshop")) == "stepworkshop"
    ensures key != "workshop" ==> NormalizeStepKey(StepKey(key)) == key
  {
    assert ("step" + IntToString(n))[0] == 's';
  }

  /** A normalized key is never 'workshop', and normalizing it again
      changes nothing. */
  lemma NormalizeIdempotent(step: Step)
    ensures NormalizeStepKey(step) != "workshop"
    ensures NormalizeStepKey(StepKey(NormalizeStepKey(step))) == NormalizeStepKey(step)
  {
    if step.StepNumber? {
      assert NormalizeStepKey(step)[0] == 's';
    }
  }

  /** Different step numbers get different keys. */
  lemma NumberKeysDistinct(m: int, n: int)
    requires m != n
    ensures NormalizeStepKey(StepNumber(m)) != NormalizeStepKey(StepNumber(n))
  {
    var a := IntToString(m);
    var b := IntToString(n);
    if "step" + a == "step" + b {
      assert a == ("step" + a)[4..] == ("step" + b)[4..] == b;
      if m < 0 && n < 0 {
        assert a[1..] == NatToString(-m) && b[1..] == NatToString(-n);
        DigitsRoundTrip(-m);
        DigitsRoundTrip(-n);
      } else if m >= 0 && n >= 0 {
        DigitsRoundTrip(m);
        DigitsRoundTrip(n);
      }
    }
  }

  // ---------------------------------------------------------------------
  // The step file table, the server's answer

  const StepFileMap: map<string, string> := map[
    "step0" := "step0.md",
    "step1" := "step1.md",
    "step2" := "step2.md",
    "step3" := "step3.md",
    "step4a_claude_diagnosis" := "step4a_claude_diagnosis.md",
    "step4a1_culture_diagnosis" := "step4a1_culture_diagnosis.md",
    "step4a2_theory_analysis" := "step4a2_theory_analysis.md",
    "step4a3_bias_analysis" := "step4a3_bias_analysis.md",
    "step4b_claude_strategy" := "step4b_claude_strategy.md",
    "stepworkshop" := "workshop.md",
    "workshop" := "workshop.md",
    "workshop_analysis" := "workshop_analysis.md"]

  const BaseUrl: string := "/prompts"
  const CacheDuration: int := 5 * 60 * 1000
  const MaxRetryCount: nat := 3

  /** What fetch(url) gives: a rejection with its message, or a response
      whose missing content-type header reads as "". */
  datatype Answer =
    | NetworkError(message: string)
    | Response(ok: bool, status: nat, statusText: string, contentType: string, body: string)

  function PromptUrl(filename: string): string
  {
    BaseUrl + "/" + filename
  }

  // ---------------------------------------------------------------------
  // containsHtmlTags

  const TagNames: seq<string> := ["html", "head", "body", "div", "script", "title"]

  /** `/<name[^>]*>/i` matches at `i` of the lower-cased text: "<name"
      there, and a '>' somewhere after it. */
  predicate OpenTagAt(lower: string, name: string, i: int)
  {
    OccursAt(lower, "<" + name, i) && '>' in lower[i + |name| + 1..]
  }

  /** `/<!doctype\s+html/i` matches from `i` of the lower-cased text, its
      "html" starting at `j`. */
  predicate DoctypeAt(lower: string, i: int, j: int)
  {
    OccursAt(lower, "<!doctype", i) && i + 9 < j && OccursAt(lower, "html", j)
    && forall k | i + 9 <= k < j :: IsJsSpace(lower[k])
  }

  /** One of the tag patterns for `names` matches the lower-cased text. */
  predicate AnyTagOpens(lower: string, names: seq<string>)
  {
    if names == [] then false
    else (exists i | 0 <= i <= |lower| :: OpenTagAt(lower, names[0], i)) || AnyTagOpens(lower, names[1..])
  }

  predicate HasDoctype(lower: string)
  {
    exists i, j | 0 <= i < j <= |lower| :: DoctypeAt(lower, i, j)
  }

  /** containsHtmlTags. The `i` flag of these patterns folds ASCII letters
      only, so lower-casing the ASCII letters of the text matches the same
      texts. */
  predicate ContainsHtmlTags(text: string)
  {
    var lower := AsciiLowerString(text);
    AnyTagOpens(lower, TagNames) || HasDoctype(lower)
  }

  /** Every tag pattern starts with '<', so a text without '<' has none. */
  lemma NoAngleNoTags(text: string)
    requires '<' !in text
    ensures !ContainsHtmlTags(text)
  {
    var lower := AsciiLowerString(text);
    forall i | 0 <= i < |lower|
      ensures lower[i] != '<'
    {
      assert text[i] in text;
    }
    NoAngleNoOpenTag(lower, TagNames);
    forall i, j | 0 <= i < j <= |lower|
      ensures !DoctypeAt(lower, i, j)
    {
      if i < |lower| {
        assert lower[i] != '<';
      }
    }
  }

  lemma {:induction false} NoAngleNoOpenTag(lower: string, names: seq<string>)
    requires forall i | 0 <= i < |lower| :: lower[i] != '<'
    ensures !AnyTagOpens(lower, names)
  {
    if names != [] {
      NoAngleNoOpenTag(lower, names[1..]);
      forall i | 0 <= i <= |lower|
        ensures !OpenTagAt(lower, names[0], i)
      {
        if i < |lower| {
          assert lower[i] != '<';
        }
      }
    }
  }

  /** Case does not matter: upper-casing a text finds the same tags. */
  lemma TagsIgnoreCase(text: string)
    ensures ContainsHtmlTags(AsciiUpperString(text)) == ContainsHtmlTags(text)
  {
    assert AsciiLowerString(AsciiUpperString(text)) == AsciiLowerString(text);
  }

  /** The head of a Vite error page is detected. */
  lemma DoctypeDetected(rest: string)
    ensures ContainsHtmlTags("<!DOCTYPE html>" + rest)
  {
    var text := "<!DOCTYPE html>" + rest;
    var lower := AsciiLowerString(text);
    assert lower[..9] == "<!doctype";
    assert lower[10..14] == "html";
    assert DoctypeAt(lower, 0, 10);
  }

  // ---------------------------------------------------------------------
  // validatePrompt

  /** The issues validatePrompt reports; the encoding check never fails on
      a sequence of Unicode scalar values and has no issue here. */
  datatype Issue = Empty | TooShort(length: nat) | HtmlTags | NoHeader

  datatype Validation = Validation(isValid: bool, issues: seq<Issue>)

  /** JavaScript's `length`: UTF-16 code units, two for a character
      outside the Basic Multilingual Plane. */
  function Utf16Length(s: string): (r: nat)
    ensures |s| <= r <= 2 * |s|
  {
    if s == [] then 0
    else Utf16Length(s[..|s| - 1]) + (if s[|s| - 1] as int >= 0x1_0000 then 2 else 1)
  }

  /** The issues of a non-blank prompt of `length` code units, in the
      order they are checked. */
  function IssuesOf(length: nat, hasTags: bool, hasHeader: bool): (r: seq<Issue>)
    ensures Empty !in r
    ensures TooShort(length) in r <==> length < 50
    ensures HtmlTags in r <==> hasTags
    ensures NoHeader in r <==> !hasHeader
    ensures r == [] <==> length >= 50 && !hasTags && hasHeader
  {
    var tooShort := if length < 50 then [TooShort(length)] else [];
    var tags := if hasTags then [HtmlTags] else [];
    var header := if hasHeader then [] else [NoHeader];
    assert HtmlTags !in tooShort && NoHeader !in tooShort + tags;
    tooShort + tags + header
  }

  function Issues(content: string): seq<Issue>
  {
    IssuesOf(Utf16Length(content), ContainsHtmlTags(content), '#' in content)
  }

  /** validatePrompt. */
  function ValidatePrompt(content: string): (r: Validation)
    ensures r.isValid <==> r.issues == []
    ensures AllSpace(JsSpaces, content) ==> r.issues == [Empty]
  {
    TrimEmptyIffAllSpace(content, JsSpaces);
    if JsTrim(content) == [] then Validation(false, [Empty])
    else
      var issues := Issues(content);
      Validation(issues == [], issues)
  }

  /** A prompt that is not blank is checked for each issue independently:
      length, HTML tags and a header. */
  lemma ValidateIssues(content: string)
    requires !AllSpace(JsSpaces, content)
    ensures var issues := ValidatePrompt(content).issues;
            && Empty !in issues
            && (TooShort(Utf16Length(content)) in issues <==> Utf16Length(content) < 50)
            && (HtmlTags in issues <==> ContainsHtmlTags(content))
            && (NoHeader in issues <==> '#' !in content)
  {
    TrimEmptyIffAllSpace(content, JsSpaces);
  }

  /** A prompt is valid exactly when it has 50 code units, no HTML tag and
      a '#'; the blank check is implied by the last. */
  lemma ValidIff(content: string)
    ensures ValidatePrompt(content).isValid
            <==> Utf16Length(content) >= 50 && !ContainsHtmlTags(content) && '#' in content
  {
    TrimEmptyIffAllSpace(content, JsSpaces);
    if '#' in content {
      var i :| 0 <= i < |content| && content[i] == '#';
      assert !IsSpace(JsSpaces, content[i]);
    }
  }

  function IssueText(issue: Issue): string
  {
    match issue
    case Empty => "프롬프트 내용이 비어있습니다"
    case TooShort(n) => "프롬프트 내용이 너무 짧습니다 (현재 " + NatToString(n) + "자, 50자 미만)"
    case HtmlTags => "HTML 태그가 포함되어 있습니다 (에러 페이지 가능성)"
    case NoHeader => "마크다운 헤더가 없습니다"
  }

  function IssueTexts(issues: seq<Issue>): (r: seq<string>)
    ensures |r| == |issues|
  {
    if issues == [] then [] else [IssueText(issues[0])] + IssueTexts(issues[1..])
  }

  // ---------------------------------------------------------------------
  // fetchPromptFile

  /** What fetchPromptFile resolves to, or the message it throws. */
  datatype Fetched = Fetched(content: string) | Failed(message: string)

  /** fetchPromptFile, given what the server answers for each URL. */
  function FetchPromptFile(stepKey: string, fetch: string -> Answer): (r: Fetched)
    ensures r.Fetched? <==>
              && stepKey in StepFileMap
              && var answer := fetch(PromptUrl(StepFileMap[stepKey]));
              && answer.Response? && answer.ok && !Contains(answer.contentType, "text/html")
              && ValidatePrompt(answer.body).isValid
    ensures r.Fetched? ==> r.content == fetch(PromptUrl(StepFileMap[stepKey])).body
    ensures r.Fetched? ==> !ContainsHtmlTags(r.content) && Utf16Length(r.content) >= 50 && '#' in r.content
  {
    if stepKey !in StepFileMap then
      Failed("매핑되지 않은 stepKey이거나 파일이 존재하지 않습니다: " + stepKey)
    else
      var filename := StepFileMap[stepKey];
      var where := stepKey + " (" + filename + ")";
      match fetch(PromptUrl(filename))
      case NetworkError(message) => Failed(message)
      case Response(ok, status, statusText, contentType, body) =>
        ValidIff(body);
        TrimEmptyIffAllSpace(body, JsSpaces);
        if !ok then
          Failed("프롬프트 파일 로딩 실패: " + NatToString(status) + " " + statusText + " (" + filename + ")")
        else if Contains(contentType, "text/html") then
          Failed("HTML 에러 페이지 감지됨 (Vite 404 에러): " + where)
        else if ContainsHtmlTags(body) then
          Failed("응답 내용에 HTML 태그 감지됨 (Vite 에러 페이지): " + where)
        else if JsTrim(body) == [] then
          Failed("프롬프트 파일이 비어있습니다: " + where)
        else
          var validation := ValidatePrompt(body);
          if !validation.isValid then
            Failed("프롬프트 검증 실패: " + where + " - " + Join(IssueTexts(validation.issues), ", "))
          else Fetched(body)
  }

  /** No file is mapped for step 4, so loading it always fails. */
  lemma Step4NeverFetched(fetch: string -> Answer)
    ensures FetchPromptFile(NormalizeStepKey(StepNumber(4)), fetch).Failed?
  {
    assert NormalizeStepKey(StepNumber(4)) == "step4";
    assert forall k | k in StepFileMap && |k| == 5 :: k[4] != '4';
  }

  // ---------------------------------------------------------------------
  // The message loadPrompt reports, and the fallbacks

  const HtmlPageMarker: string := "HTML 에러 페이지 감지됨"
  const HtmlTagMarker: string := "HTML 태그 감지됨"
  const FileMissingNotice: string := "파일을 찾을 수 없어 기본 프롬프트를 사용합니다: "
  const RepeatedNote: string := " (여러 번 실패하여 기본 프롬프트를 사용합니다)"

  /** The error loadPrompt reports for a failure with `message`, the
      `errorCount`-th for its key. */
  function UserMessage(message: string, stepKey: string, errorCount: nat): string
  {
    var friendly :=
      if Contains(message, HtmlPageMarker) || Contains(message, HtmlTagMarker) then FileMissingNotice + stepKey
      else message;
    if errorCount >= MaxRetryCount then friendly + RepeatedNote else friendly
  }

  /** A response served as text/html is reported as a missing file, and
      from the third failure on with the repeated-failure note. */
  lemma HtmlAnswerReported(stepKey: string, fetch: string -> Answer, errorCount: nat)
    requires stepKey in StepFileMap
    requires var answer := fetch(PromptUrl(StepFileMap[stepKey]));
             answer.Response? && answer.ok && Contains(answer.contentType, "text/html")
    ensures var r := FetchPromptFile(stepKey, fetch);
            && r.Failed?
            && UserMessage(r.message, stepKey, errorCount)
               == FileMissingNotice + stepKey + (if errorCount >= 3 then RepeatedNote else "")
  {
    var r := FetchPromptFile(stepKey, fetch);
    assert r.message[..|HtmlPageMarker|] == HtmlPageMarker;
    assert OccursAt(r.message, HtmlPageMarker, 0);
  }

  /** The keys getFallbackPrompt has a text for. */
  const FallbackKeys: set<string> := {
    "step0", "step1", "step2", "step3", "step4", "step4a_claude_diagnosis",
    "step4a1_culture_diagnosis", "step4a2_theory_analysis", "step4a3_bias_analysis",
    "step4b_claude_strategy", "stepworkshop", "workshop", "workshop_analysis"}

  /** The text for a key that has none of its own. */
  function DefaultFallback(stepKey: string): string
  {
    "# " + AsciiUpperString(stepKey) + "\n기본 프롬프트 내용을 로딩할 수 없습니다.\n관리자에게 문의해주세요."
  }

  /** getFallbackPrompt over the table of fallback texts `fallbacks`. */
  function FallbackPrompt(fallbacks: map<string, string>, stepKey: string): (r: string)
    ensures r != []
    ensures stepKey in fallbacks && fallbacks[stepKey] != [] ==> r == fallbacks[stepKey]
    ensures stepKey !in fallbacks ==> |r| > 2 + |stepKey| && r[..2] == "# " && r[2..2 + |stepKey|] == AsciiUpperString(stepKey)
  {
    if stepKey in fallbacks && fallbacks[stepKey] != [] then fallbacks[stepKey]
    else DefaultFallback(stepKey)
  }

  /** The table getFallbackPrompt holds: a non-empty text for each of its
      keys. */
  predicate FallbackTable(fallbacks: map<string, string>)
  {
    fallbacks.Keys == FallbackKeys && forall k | k in fallbacks :: fallbacks[k] != []
  }

  // ---------------------------------------------------------------------
  // The cache and the error counts

  datatype PromptData = PromptData(content: string, loadedAt: int, step: string)

  datatype LoadResult = LoadResult(success: bool, content: string, error: Option<string>, fallbackUsed: bool)

  /** The entry getCachedPrompt returns at time `now`: present and at most
      five minutes old. */
  function Lookup(cache: map<string, PromptData>, stepKey: string, now: int): (r: Option<PromptData>)
    ensures r.Some? <==> stepKey in cache && now - cache[stepKey].loadedAt <= CacheDuration
  {
    if stepKey in cache && now - cache[stepKey].loadedAt <= CacheDuration then Some(cache[stepKey]) else None
  }

  /** The cache after getCachedPrompt: an expired entry for the key is
      dropped. */
  function Swept(cache: map<string, PromptData>, stepKey: string, now: int): (r: map<string, PromptData>)
    ensures stepKey in r <==> Lookup(cache, stepKey, now).Some?
    ensures forall k | k != stepKey :: (k in r <==> k in cache) && (k in r ==> r[k] == cache[k])
  {
    if stepKey in cache && now - cache[stepKey].loadedAt > CacheDuration then cache - {stepKey} else cache
  }

  function CountOf(errorCounts: map<string, nat>, stepKey: string): nat
  {
    if stepKey in errorCounts then errorCounts[stepKey] else 0
  }

  /** What loadPrompt does for a normalized key when fetchPromptFile would
      give `fetched`: its result, then the new cache and error counts. The
      lookup reads the clock as `now`; a fetched prompt is stored with the
      second clock reading `storedAt`, taken after the fetch returned. */
  function Load(cache: map<string, PromptData>, errorCounts: map<string, nat>,
                fallbacks: map<string, string>, stepKey: string, now: int, storedAt: int,
                fetched: Fetched): (LoadResult, map<string, PromptData>, map<string, nat>)
  {
    var hit := Lookup(cache, stepKey, now);
    var swept := Swept(cache, stepKey, now);
    if hit.Some? then (LoadResult(true, hit.value.content, None, false), swept, errorCounts)
    else
      match fetched
      case Fetched(content) =>
        (LoadResult(true, content, None, false), swept[stepKey := PromptData(content, storedAt, stepKey)],
         errorCounts - {stepKey})
      case Failed(message) =>
        var count := CountOf(errorCounts, stepKey) + 1;
        (LoadResult(false, FallbackPrompt(fallbacks, stepKey), Some(UserMessage(message, stepKey, count)), true),
         swept, errorCounts[stepKey := count])
  }

  /** A load succeeds exactly when the cache holds a fresh entry or the
      file is fetched; a hit leaves the entry and the counts alone, a
      fetched file is cached at `storedAt` and its key's error count reset,
      and other keys keep their entries and counts. */
  lemma LoadSuccess(cache: map<string, PromptData>, errorCounts: map<string, nat>,
                    fallbacks: map<string, string>, stepKey: string, now: int, storedAt: int, fetched: Fetched)
    ensures var (r, cache', counts') := Load(cache, errorCounts, fallbacks, stepKey, now, storedAt, fetched);
            && (r.success <==> Lookup(cache, stepKey, now).Some? || fetched.Fetched?)
            && (r.success ==> r.error.None? && !r.fallbackUsed && stepKey in cache'
                              && cache'[stepKey].content == r.content)
            && (Lookup(cache, stepKey, now).Some? ==> cache'[stepKey] == cache[stepKey] && counts' == errorCounts)
            && (Lookup(cache, stepKey, now).None? && r.success ==>
                  cache'[stepKey] == PromptData(r.content, storedAt, stepKey) && stepKey !in counts')
            && (forall k | k != stepKey :: (k in cache' <==> k in cache) && (k in cache' ==> cache'[k] == cache[k]))
            && (forall k | k != stepKey :: (k in counts' <==> k in errorCounts) && (k in counts' ==> counts'[k] == errorCounts[k]))
  {
  }

  /** A fetched prompt stays served for five minutes counted from the
      clock reading taken after the fetch, not from the lookup's. */
  lemma FetchedEntryLifetime(cache: map<string, PromptData>, errorCounts: map<string, nat>,
                             fallbacks: map<string, string>, stepKey: string, now: int, storedAt: int,
                             fetched: Fetched, later: int)
    requires Lookup(cache, stepKey, now).None? && fetched.Fetched?
    ensures var (_, cache', _) := Load(cache, errorCounts, fallbacks, stepKey, now, storedAt, fetched);
            Lookup(cache', stepKey, later).Some? <==> later - storedAt <= CacheDuration
  {
  }

  /** A failed load reports the failure, serves the fallback text, counts
      one more failure for the key and leaves the cache as the lookup left
      it. */
  lemma LoadFailure(cache: map<string, PromptData>, errorCounts: map<string, nat>,
                    fallbacks: map<string, string>, stepKey: string, now: int, storedAt: int, fetched: Fetched)
    ensures var (r, cache', counts') := Load(cache, errorCounts, fallbacks, stepKey, now, storedAt, fetched);
            !r.success ==>
              && r.fallbackUsed && r.error.Some? && r.content == FallbackPrompt(fallbacks, stepKey)
              && counts'[stepKey] == CountOf(errorCounts, stepKey) + 1
              && cache' == Swept(cache, stepKey, now) && stepKey !in cache'
              && (counts'[stepKey] >= MaxRetryCount ==> EndsWith(r.error.value, RepeatedNote))
  {
  }

  /** After a fetched load, loading the same key again within five minutes
      of storing it is served from the cache, whatever the server would
      answer then. */
  lemma ReloadServedFromCache(cache: map<string, PromptData>, errorCounts: map<string, nat>,
                              fallbacks: map<string, string>, stepKey: string, now: int, storedAt: int,
                              later: int, storedAt': int, fetched: Fetched, fetched': Fetched)
    requires Lookup(cache, stepKey, now).None? && fetched.Fetched?
    requires storedAt <= later <= storedAt + CacheDuration
    ensures var (r, cache', counts') := Load(cache, errorCounts, fallbacks, stepKey, now, storedAt, fetched);
            var (r2, cache2, counts2) := Load(cache', counts', fallbacks, stepKey, later, storedAt', fetched');
            r2 == r && r2.success && cache2 == cache' && counts2 == counts'
  {
  }

  /** Three failures in a row for a key bring the repeated-failure note. */
  lemma ThirdFailureNoted(fallbacks: map<string, string>, stepKey: string, t1: int, t2: int, t3: int,
                          fetched: Fetched)
    requires fetched.Failed?
    ensures var (_, c1, n1) := Load(map[], map[], fallbacks, stepKey, t1, t1, fetched);
            var (_, c2, n2) := Load(c1, n1, fallbacks, stepKey, t2, t2, fetched);
            var (r3, _, n3) := Load(c2, n2, fallbacks, stepKey, t3, t3, fetched);
            !r3.success && n3[stepKey] == 3 && EndsWith(r3.error.value, RepeatedNote)
  {
  }

  // ---------------------------------------------------------------------
  // interpolateVariables

  /** The placeholder `{{key}}`. */
  function Placeholder(key: string): (r: string)
    ensures r != [] && r[0] == '{'
  {
    "{{" + key + "}}"
  }

  /** The prompt after the first |variables| substitutions, each replacing
      every occurrence of its placeholder in what the earlier ones left. */
  function Interpolated(content: string, variables: seq<(string, string)>): string
  {
    if variables == [] then content
    else
      var (key, value) := variables[|variables| - 1];
      ReplaceAll(Interpolated(content, variables[..|variables| - 1]), Placeholder(key), value)
  }

  /** interpolateVariables, the variables in the order Object.entries
      lists them. */
  method InterpolateVariables(content: string, variables: seq<(string, string)>) returns (result: string)
    ensures result == Interpolated(content, variables)
  {
    result := content;
    for i := 0 to |variables|
      invariant result == Interpolated(content, variables[..i])
    {
      var (key, value) := variables[i];
      assert variables[..i + 1][..i] == variables[..i];
      result := ReplaceAll(result, Placeholder(key), value);
    }
    assert variables[..|variables|] == variables;
  }

  /** A text without the first character of `p` does not contain `p`. */
  lemma FirstCharAbsent(s: string, p: string)
    requires p != [] && p[0] !in s
    ensures !Contains(s, p)
  {
    forall i | 0 <= i <= |s| - |p|
      ensures !OccursAt(s, p, i)
    {
      assert s[i] in s;
      assert s[i..i + |p|][0] == s[i];
    }
  }

  /** Every placeholder starts with '{', so a prompt without '{' is left as
      it is. */
  lemma {:induction false} NoBraceUnchanged(content: string, variables: seq<(string, string)>)
    requires '{' !in content
    ensures Interpolated(content, variables) == content
  {
    if variables != [] {
      NoBraceUnchanged(content, variables[..|variables| - 1]);
      var p := Placeholder(variables[|variables| - 1].0);
      FirstCharAbsent(content, p);
      ReplaceAbsent(content, p, variables[|variables| - 1].1);
    }
  }

  /** A single variable fills its one placeholder. */
  lemma FillsPlaceholder(before: string, key: string, value: string, after: string)
    requires '{' !in before && '{' !in after
    ensures Interpolated(before + Placeholder(key) + after, [(key, value)]) == before + value + after
  {
    var p := Placeholder(key);
    var s := before + p + after;
    assert [(key, value)][..0] == [];
    assert OccursAt(s, p, |before|) by {
      assert s[|before|..|before| + |p|] == p;
    }
    forall j | 0 <= j < |before|
      ensures !OccursAt(s, p, j)
    {
      assert s[j] == before[j] && before[j] in before;
      assert s[j..j + |p|][0] == s[j];
    }
    var found := IndexOfFrom(s, p, 0);
    assert found == Some(|before|);
    assert s[|before| + |p|..] == after;
    FirstCharAbsent(after, p);
    ReplaceAbsent(after, p, value);
    assert s[..|before|] == before;
  }

  // ---------------------------------------------------------------------
  // PromptLoader

  class PromptLoader {
    var cache: map<string, PromptData>
    var errorCounts: map<string, nat>
    /** The fallback texts of getFallbackPrompt, by key. */
    const fallbacks: map<string, string>

    /** Each cache entry records its own key, and only keys that failed
        have a count. */
    ghost predicate Valid()
      reads this
    {
      FallbackTable(fallbacks)
      && (forall k | k in cache :: cache[k].step == k)
      && (forall k | k in errorCounts :: errorCounts[k] > 0)
    }

    constructor(fallbackTexts: map<string, string>)
      requires FallbackTable(fallbackTexts)
      ensures Valid() && cache == map[] && errorCounts == map[] && fallbacks == fallbackTexts
    {
      cache := map[];
      errorCounts := map[];
      fallbacks := fallbackTexts;
    }

    /** incrementErrorCount. */
    method IncrementErrorCount(stepKey: string) returns (count: nat)
      modifies this
      ensures count == CountOf(old(errorCounts), stepKey) + 1
      ensures errorCounts == old(errorCounts)[stepKey := count] && cache == old(cache)
    {
      count := CountOf(errorCounts, stepKey) + 1;
      errorCounts := errorCounts[stepKey := count];
    }

    /** resetErrorCount. */
    method ResetErrorCount(stepKey: string)
      modifies this
      ensures errorCounts == old(errorCounts) - {stepKey} && cache == old(cache)
    {
      errorCounts := errorCounts - {stepKey};
    }

    /** getCachedPrompt at time `now`. */
    method GetCachedPrompt(stepKey: string, now: int) returns (r: Option<PromptData>)
      modifies this
      ensures r == Lookup(old(cache), stepKey, now)
      ensures cache == Swept(old(cache), stepKey, now) && errorCounts == old(errorCounts)
    {
      if stepKey !in cache {
        return None;
      }
      var cached := cache[stepKey];
      if now - cached.loadedAt > CacheDuration {
        cache := cache - {stepKey};
        return None;
      }
      r := Some(cached);
    }

    /** setCachedPrompt at time `now`. */
    method SetCachedPrompt(stepKey: string, content: string, now: int)
      modifies this
      ensures cache == old(cache)[stepKey := PromptData(content, now, stepKey)]
      ensures errorCounts == old(errorCounts)
    {
      cache := cache[stepKey := PromptData(content, now, stepKey)];
    }

    /** loadPrompt, the server answering `fetch`: the cache lookup reads the
        clock as `now`, and the clock read after the awaited fetch, when a
        fetched prompt is stored, gives `storedAt`. */
    method LoadPrompt(step: Step, now: int, storedAt: int, fetch: string -> Answer) returns (r: LoadResult)
      requires Valid()
      modifies this
      ensures Valid()
      ensures (r, cache, errorCounts) == Load(old(cache), old(errorCounts), fallbacks, NormalizeStepKey(step), now,
                                                     storedAt, FetchPromptFile(NormalizeStepKey(step), fetch))
    {
      var stepKey := NormalizeStepKey(step);
      var cached := GetCachedPrompt(stepKey, now);
      if cached.Some? {
        return LoadResult(true, cached.value.content, None, false);
      }
      var fetched := FetchPromptFile(stepKey, fetch);
      r := Settle(stepKey, now, storedAt, fetched);
    }

    /** The rest of loadPrompt once the cache missed: cache a fetched
        prompt and reset the key's count, or count the failure and serve
        the fallback. */
    method Settle(stepKey: string, now: int, storedAt: int, fetched: Fetched) returns (r: LoadResult)
      requires Valid() && stepKey !in cache
      modifies this
      ensures Valid()
      ensures (r, cache, errorCounts) == Load(old(cache), old(errorCounts), fallbacks, stepKey, now, storedAt, fetched)
    {
      match fetched
      case Fetched(content) =>
        SetCachedPrompt(stepKey, content, storedAt);
        ResetErrorCount(stepKey);
        r := LoadResult(true, content, None, false);
      case Failed(message) =>
        var errorCount := IncrementErrorCount(stepKey);
        var userFriendlyMessage := UserMessage(message, stepKey, errorCount);
        r := LoadResult(false, FallbackPrompt(fallbacks, stepKey), Some(userFriendlyMessage), true);
    }

    /** clearCache: one step's entry and count, or everything. */
    method ClearCache(step: Option<Step>)
      requires Valid()
      modifies this
      ensures Valid()
      ensures step.Some? ==> cache == old(cache) - {NormalizeStepKey(step.value)}
                             && errorCounts == old(errorCounts) - {NormalizeStepKey(step.value)}
      ensures step.None? ==> cache == map[] && errorCounts == map[]
    {
      if step.Some? {
        var normalizedKey := NormalizeStepKey(step.value);
        cache := cache - {normalizedKey};
        ResetErrorCount(normalizedKey);
      } else {
        cache := map[];
        errorCounts := map[];
      }
    }
  }
}
