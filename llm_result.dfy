/** Reading the JSON an LLM returned, as the Dashboard's parsedResult does
    (frontend/src/components/Dashboard.jsx): the text is parsed as it is,
    else with a Markdown code fence removed, else the first balanced
    `{...}` found in it is parsed. */
module LlmResult {
  import opened Common

  const Fence: string := "```"

  // ---------------------------------------------------------------------
  // stripCodeFence

  /** `^```(?:json|JSON)?\s*` removed from a text that starts with the fence. */
  function DropOpeningFence(s: string): (r: string)
    requires StartsWith(s, Fence)
    ensures |r| <= |s| - 3
  {
    var afterFence := s[3..];
    var afterTag := if StartsWith(afterFence, "json") || StartsWith(afterFence, "JSON") then afterFence[4..] else afterFence;
    TrimStart(afterTag, JsSpaces)
  }

  /** `\s*```\s*$` removed: a closing fence, the white space around it, and
      nothing when the text (white space aside) does not end with one. */
  function DropClosingFence(s: string): (r: string)
    ensures |r| <= |s|
  {
    var t := TrimEnd(s, JsSpaces);
    if EndsWith(t, Fence) then TrimEnd(t[..|t| - 3], JsSpaces) else s
  }

  /** stripCodeFence. */
  function StripCodeFence(txt: string): (r: string)
    ensures !StartsWith(JsTrim(txt), Fence) ==> r == txt
    ensures StartsWith(JsTrim(txt), Fence) ==> |r| <= |txt| - 3
  {
    var trimmed := JsTrim(txt);
    if StartsWith(trimmed, Fence) then JsTrim(DropClosingFence(DropOpeningFence(trimmed))) else txt
  }

  /** A trimmed text wrapped in a fence, tagged json, JSON or not at all,
      comes back out unchanged. */
  lemma FenceRoundTrip(body: string, tag: string)
    requires tag == "" || tag == "json" || tag == "JSON"
    requires JsTrim(body) == body
    ensures StripCodeFence(Fence + tag + "\n" + body + "\n" + Fence) == body
  {
    var afterTag := "\n" + body + "\n" + Fence;
    var txt := Fence + (tag + afterTag);
    assert Fence + tag + "\n" + body + "\n" + Fence == txt;
    FencedEdges(txt);
    OpeningFence(tag, afterTag);
    BodyAfterBreak(body);
    ClosingFence(body);
  }

  /** The opening fence and its tag go, then the white space after them. */
  lemma OpeningFence(tag: string, afterTag: string)
    requires tag == "" || tag == "json" || tag == "JSON"
    requires afterTag != [] && afterTag[0] == '\n'
    ensures DropOpeningFence(Fence + (tag + afterTag)) == TrimStart(afterTag, JsSpaces)
  {
    var txt := Fence + (tag + afterTag);
    assert txt[3..] == tag + afterTag;
    if tag == "" {
      assert tag + afterTag == afterTag;
      assert !StartsWith(afterTag, "json") && !StartsWith(afterTag, "JSON") by {
        assert afterTag[0] != "json"[0] && afterTag[0] != "JSON"[0];
      }
    } else {
      assert StartsWith(tag + afterTag, tag);
      assert (tag + afterTag)[4..] == afterTag;
    }
  }

  /** What follows the opening line: the body and the closing fence, or the
      closing fence alone when the body is empty. */
  lemma BodyAfterBreak(body: string)
    requires JsTrim(body) == body
    ensures TrimStart("\n" + body + "\n" + Fence, JsSpaces)
            == if body == [] then Fence else body + "\n" + Fence
  {
    var inner := body + "\n" + Fence;
    assert ("\n" + body + "\n" + Fence)[1..] == inner;
    TrimmedEdges(body);
    if body == [] {
      assert inner[1..] == Fence;
      assert TrimStart(Fence, JsSpaces) == Fence;
    } else {
      assert inner[0] == body[0];
    }
  }

  /** A text that starts and ends with the fence has no white space to trim. */
  lemma FencedEdges(txt: string)
    requires StartsWith(txt, Fence) && EndsWith(txt, Fence)
    ensures JsTrim(txt) == txt
  {
    assert txt[0] == Fence[0];
    assert txt[|txt| - 1] == txt[|txt| - 3..][2];
  }

  /** A trimmed text neither starts nor ends with white space. */
  lemma TrimmedEdges(s: string)
    requires JsTrim(s) == s
    ensures TrimStart(s, JsSpaces) == s && TrimEnd(s, JsSpaces) == s
    ensures s != [] ==> !IsJsSpace(s[0]) && !IsJsSpace(s[|s| - 1])
  {
    TrimStartShape(s, JsSpaces);
    TrimEndShape(s, JsSpaces);
  }

  /** The closing fence and the line break before it go, leaving the body. */
  lemma ClosingFence(body: string)
    requires JsTrim(body) == body
    ensures JsTrim(DropClosingFence(if body == [] then Fence else body + "\n" + Fence)) == body
  {
    if body == [] {
      assert DropClosingFence(Fence) == [];
      return;
    }
    TrimmedEdges(body);
    var s := body + "\n" + Fence;
    assert TrimEnd(s, JsSpaces) == s;
    assert EndsWith(s, Fence);
    assert s[..|s| - 3] == body + "\n";
    assert TrimEnd(body + "\n", JsSpaces) == TrimEnd(body, JsSpaces) by {
      assert (body + "\n")[..|body|] == body;
    }
  }

  // ---------------------------------------------------------------------
  // extractFirstJsonObject

  /** The scanner's variables (inStr, esc, depth, start), or the bounds of
      the object it returned. */
  datatype Scan = Scanning(inStr: bool, esc: bool, depth: int, start: int) | Found(lo: int, hi: int)

  const Initial: Scan := Scanning(false, false, 0, -1)

  /** One iteration of the loop on character `ch` at index `i`. With
      `guarded` a closing brace at depth 0 is skipped; without it, it is
      counted as the source counts it, driving the depth below zero. */
  function Advance(st: Scan, ch: char, i: int, guarded: bool): Scan
    requires st.Scanning?
  {
    if st.inStr then
      if st.esc then st.(esc := false)
      else if ch == '\\' then st.(esc := true)
      else if ch == '"' then st.(inStr := false)
      else st
    else if ch == '"' then st.(inStr := true)
    else if ch == '{' then st.(start := if st.depth == 0 then i else st.start, depth := st.depth + 1)
    else if ch == '}' then
      if guarded && st.depth == 0 then st
      else if st.depth - 1 == 0 && st.start != -1 then Found(st.start, i + 1)
      else st.(depth := st.depth - 1)
    else st
  }

  /** The scan after the first `n` characters; a returned object and an
      object under way lie inside what has been read. */
  function ScanTo(txt: string, n: nat, guarded: bool): (r: Scan)
    requires n <= |txt|
    ensures r.Found? ==> 0 <= r.lo < r.hi <= n
    ensures r.Scanning? ==> -1 <= r.start < n
  {
    if n == 0 then Initial
    else
      var prev := ScanTo(txt, n - 1, guarded);
      if prev.Found? then prev else Advance(prev, txt[n - 1], n - 1, guarded)
  }

  /** What the scan keeps true: outside a string no escape is pending; an
      object under way has its opening brace at `start` and a positive
      depth, and with `guarded` the depth is never negative. */
  predicate Consistent(txt: string, st: Scan, guarded: bool)
  {
    match st
    case Found(lo, hi) => 0 <= lo < hi <= |txt| && txt[lo] == '{' && txt[hi - 1] == '}'
    case Scanning(inStr, esc, depth, start) =>
      (!inStr ==> !esc) && -1 <= start < |txt|
      && (start != -1 ==> txt[start] == '{' && depth > 0)
      && (guarded ==> depth >= 0 && (depth == 0 <==> start == -1))
  }

  lemma {:induction false} ScanConsistent(txt: string, n: nat, guarded: bool)
    requires n <= |txt|
    ensures Consistent(txt, ScanTo(txt, n, guarded), guarded)
  {
    if n > 0 {
      ScanConsistent(txt, n - 1, guarded);
    }
  }

  /** The result of the scan: the object found, or ''. */
  function Extracted(txt: string, guarded: bool): (r: string)
    ensures r == [] || (r[0] == '{' && r[|r| - 1] == '}')
  {
    ScanConsistent(txt, |txt|, guarded);
    match ScanTo(txt, |txt|, guarded)
    case Found(lo, hi) => txt[lo..hi]
    case Scanning(_, _, _, _) => []
  }

  /** extractFirstJsonObject as written: a stray `}` before the object
      drives the depth below zero. */
  function ExtractAsWritten(txt: string): (r: string)
    ensures r == [] || (r[0] == '{' && r[|r| - 1] == '}')
  {
    Extracted(txt, false)
  }

  /** extractFirstJsonObject with the depth kept at zero or above. */
  method ExtractFirstJsonObject(txt: string) returns (r: string)
    ensures r == Extracted(txt, true)
  {
    var inStr := false;
    var esc := false;
    var depth := 0;
    var start := -1;
    for i := 0 to |txt|
      invariant ScanTo(txt, i, true) == Scanning(inStr, esc, depth, start)
    {
      var ch := txt[i];
      if inStr {
        if esc { esc := false; continue; }
        if ch == '\\' { esc := true; continue; }
        if ch == '"' { inStr := false; }
        continue;
      } else {
        if ch == '"' { inStr := true; continue; }
        if ch == '{' {
          if depth == 0 { start := i; }
          depth := depth + 1;
        } else if ch == '}' && depth > 0 {
          depth := depth - 1;
          if depth == 0 && start != -1 {
            FoundStays(txt, i + 1, |txt|, true);
            return txt[start..i + 1];
          }
        }
      }
    }
    r := [];
  }

  /** Once found, the object stays found. */
  lemma {:induction false} FoundStays(txt: string, n: nat, m: nat, guarded: bool)
    requires n <= m <= |txt| && ScanTo(txt, n, guarded).Found?
    ensures ScanTo(txt, m, guarded) == ScanTo(txt, n, guarded)
    decreases m - n
  {
    if n < m {
      FoundStays(txt, n, m - 1, guarded);
    }
  }

  /** A stray `}` before the object hides it from the source's scan; the
      guarded scan finds it. */
  lemma StrayBraceHidesObject()
    ensures ExtractAsWritten("}{}") == []
    ensures Extracted("}{}", true) == "{}"
  {
    var t := "}{}";
    assert ScanTo(t, 1, false) == Scanning(false, false, -1, -1);
    assert ScanTo(t, 2, false) == Scanning(false, false, 0, -1);
    assert ScanTo(t, 3, false) == Scanning(false, false, -1, -1);
    assert ScanTo(t, 1, true) == Initial;
    assert ScanTo(t, 2, true) == Scanning(false, false, 1, 1);
    assert ScanTo(t, 3, true) == Found(1, 3);
    assert t[1..3] == "{}";
  }

  /** txt[i..j] is the inside of a JSON string: characters other than `"`
      and `\\`, and escapes `\\` followed by any character. */
  predicate StringBodyAt(txt: string, i: nat, j: nat)
    requires i <= j <= |txt|
    decreases j - i
  {
    i == j
    || (txt[i] == '\\' && i + 2 <= j && StringBodyAt(txt, i + 2, j))
    || (txt[i] != '\\' && txt[i] != '"' && StringBodyAt(txt, i + 1, j))
  }

  /** Inside a string nothing counts: braces and escaped quotes leave the
      scan as it was. */
  lemma {:induction false} SkipsString(txt: string, i: nat, j: nat, guarded: bool)
    requires i <= j <= |txt| && StringBodyAt(txt, i, j)
    requires ScanTo(txt, i, guarded).Scanning? && ScanTo(txt, i, guarded).inStr && !ScanTo(txt, i, guarded).esc
    ensures ScanTo(txt, j, guarded) == ScanTo(txt, i, guarded)
    decreases j - i
  {
    if i < j {
      if txt[i] == '\\' && i + 2 <= j && StringBodyAt(txt, i + 2, j) {
        assert ScanTo(txt, i + 1, guarded) == ScanTo(txt, i, guarded).(esc := true);
        assert ScanTo(txt, i + 2, guarded) == ScanTo(txt, i, guarded);
        SkipsString(txt, i + 2, j, guarded);
      } else {
        assert ScanTo(txt, i + 1, guarded) == ScanTo(txt, i, guarded);
        SkipsString(txt, i + 1, j, guarded);
      }
    }
  }

  /** An object holding one string comes back whole, whatever braces the
      string holds. */
  lemma BracesInStringIgnored(txt: string, guarded: bool)
    requires |txt| >= 4 && txt[0] == '{' && txt[1] == '"' && txt[|txt| - 2] == '"' && txt[|txt| - 1] == '}'
    requires StringBodyAt(txt, 2, |txt| - 2)
    ensures Extracted(txt, guarded) == txt
  {
    assert ScanTo(txt, 1, guarded) == Scanning(false, false, 1, 0);
    assert ScanTo(txt, 2, guarded) == Scanning(true, false, 1, 0);
    SkipsString(txt, 2, |txt| - 2, guarded);
    assert ScanTo(txt, |txt| - 1, guarded) == Scanning(false, false, 1, 0);
    assert ScanTo(txt, |txt|, guarded) == Found(0, |txt|);
    assert txt[0..|txt|] == txt;
  }

  /** A scan state read relative to index `lo`. */
  function Shift(st: Scan, lo: int): Scan
  {
    match st
    case Found(a, b) => Found(a - lo, b - lo)
    case Scanning(inStr, esc, depth, start) => Scanning(inStr, esc, depth, if start == -1 then -1 else start - lo)
  }

  /** The scan of a text depends only on the characters it has read. */
  lemma {:induction false} ScanPrefix(a: string, b: string, k: nat, guarded: bool)
    requires k <= |a| && k <= |b| && a[..k] == b[..k]
    ensures ScanTo(a, k, guarded) == ScanTo(b, k, guarded)
  {
    if k > 0 {
      assert a[..k - 1] == a[..k][..k - 1] && b[..k - 1] == b[..k][..k - 1];
      assert a[k - 1] == a[..k][k - 1] && b[k - 1] == b[..k][k - 1];
      ScanPrefix(a, b, k - 1, guarded);
    }
  }

  /** One step commutes with reading the state relative to `lo`. */
  lemma AdvanceShift(st: Scan, ch: char, i: int, lo: nat, guarded: bool)
    requires st.Scanning? && (st.start == -1 || st.start >= lo) && i >= lo
    ensures Advance(Shift(st, lo), ch, i - lo, guarded) == Shift(Advance(st, ch, i, guarded), lo)
  {
  }

  /** Scanning from `lo`, where the scan is back at its initial state, is
      the same scan read relative to `lo`. */
  lemma {:induction false} ScanFrom(txt: string, lo: nat, k: nat, guarded: bool)
    requires lo + k <= |txt| && ScanTo(txt, lo, guarded) == Initial
    ensures ScanTo(txt[lo..], k, guarded) == Shift(ScanTo(txt, lo + k, guarded), lo)
    ensures ScanTo(txt, lo + k, guarded).Scanning? ==> ScanTo(txt, lo + k, guarded).start == -1 || ScanTo(txt, lo + k, guarded).start >= lo
  {
    if k > 0 {
      ScanFrom(txt, lo, k - 1, guarded);
      ScanFromStep(txt, lo, k, guarded);
    }
  }

  /** One step of ScanFrom. */
  lemma ScanFromStep(txt: string, lo: nat, k: nat, guarded: bool)
    requires 0 < k && lo + k <= |txt|
    requires ScanTo(txt[lo..], k - 1, guarded) == Shift(ScanTo(txt, lo + k - 1, guarded), lo)
    requires ScanTo(txt, lo + k - 1, guarded).Scanning? ==> ScanTo(txt, lo + k - 1, guarded).start == -1 || ScanTo(txt, lo + k - 1, guarded).start >= lo
    ensures ScanTo(txt[lo..], k, guarded) == Shift(ScanTo(txt, lo + k, guarded), lo)
    ensures ScanTo(txt, lo + k, guarded).Scanning? ==> ScanTo(txt, lo + k, guarded).start == -1 || ScanTo(txt, lo + k, guarded).start >= lo
  {
    var rest := txt[lo..];
    var prev := ScanTo(txt, lo + k - 1, guarded);
    var ch := rest[k - 1];
    assert ch == txt[lo + k - 1];
    if prev.Scanning? {
      AdvanceShift(prev, ch, lo + k - 1, lo, guarded);
    }
  }

  /** Where a scan in progress opened its object, the scan was at its
      initial state. */
  lemma {:induction false} StartOrigin(txt: string, n: nat, guarded: bool)
    requires n <= |txt| && ScanTo(txt, n, guarded).Scanning? && ScanTo(txt, n, guarded).start != -1
    ensures ScanTo(txt, ScanTo(txt, n, guarded).start, guarded) == Initial
  {
    var prev := ScanTo(txt, n - 1, guarded);
    ScanConsistent(txt, n - 1, guarded);
    if prev.start == ScanTo(txt, n, guarded).start {
      StartOrigin(txt, n - 1, guarded);
    }
  }

  /** A found object was found on reading its closing brace, by a scan
      that had opened it. */
  lemma {:induction false} FoundOrigin(txt: string, n: nat, guarded: bool)
    requires n <= |txt| && ScanTo(txt, n, guarded).Found?
    ensures var f := ScanTo(txt, n, guarded);
            ScanTo(txt, f.hi, guarded) == f && ScanTo(txt, f.hi - 1, guarded).Scanning?
            && ScanTo(txt, f.hi - 1, guarded).start == f.lo
  {
    if ScanTo(txt, n - 1, guarded).Found? {
      FoundOrigin(txt, n - 1, guarded);
    }
  }

  /** The scan was at its initial state where the found object opens, and
      had found it on reading its closing brace. */
  lemma FoundBounds(txt: string, guarded: bool)
    requires ScanTo(txt, |txt|, guarded).Found?
    ensures var f := ScanTo(txt, |txt|, guarded);
            ScanTo(txt, f.lo, guarded) == Initial && ScanTo(txt, f.hi, guarded) == f
  {
    var f := ScanTo(txt, |txt|, guarded);
    FoundOrigin(txt, |txt|, guarded);
    StartOrigin(txt, f.hi - 1, guarded);
  }

  /** An object found from the initial state, scanned on its own, is
      found whole. */
  lemma FoundAlone(txt: string, lo: nat, hi: nat, guarded: bool)
    requires lo < hi <= |txt|
    requires ScanTo(txt, lo, guarded) == Initial && ScanTo(txt, hi, guarded) == Found(lo, hi)
    ensures ScanTo(txt[lo..hi], hi - lo, guarded) == Found(0, hi - lo)
  {
    var k := hi - lo;
    ScanFrom(txt, lo, k, guarded);
    var sub := txt[lo..hi];
    assert sub[..k] == txt[lo..][..k];
    ScanPrefix(sub, txt[lo..], k, guarded);
  }

  /** Extracting again from the extracted object gives it back. */
  lemma ExtractIdempotent(txt: string, guarded: bool)
    ensures Extracted(Extracted(txt, guarded), guarded) == Extracted(txt, guarded)
  {
    var f := ScanTo(txt, |txt|, guarded);
    if f.Found? {
      FoundBounds(txt, guarded);
      FoundAlone(txt, f.lo, f.hi, guarded);
      var sub := txt[f.lo..f.hi];
      assert Extracted(txt, guarded) == sub;
      assert |sub| == f.hi - f.lo;
      assert ScanTo(sub, |sub|, guarded) == Found(0, |sub|);
      assert sub[0..|sub|] == sub;
    }
  }

  // ---------------------------------------------------------------------
  // parsedResult

  /** parsedResult, for a JSON parser `parse` that yields None where
      JSON.parse throws: the text as it is, else without its code fence,
      else the first object in it; None (with the error message shown)
      when all three fail, and None without a message for an empty text. */
  function ParsedResult<J>(llm: string, parse: string -> Option<J>): (r: Option<J>)
    ensures llm == [] ==> r.None?
    ensures r.Some? ==> r == parse(llm) || r == parse(StripCodeFence(llm)) || r == parse(Extracted(llm, true))
  {
    if llm == [] then None
    else if parse(llm).Some? then parse(llm)
    else if parse(StripCodeFence(llm)).Some? then parse(StripCodeFence(llm))
    else
      var obj := Extracted(llm, true);
      if obj != [] then parse(obj) else None
  }

  /** The error message is shown exactly when a non-empty text yields nothing. */
  predicate ShowsJsonError<J>(llm: string, parse: string -> Option<J>)
  {
    llm != [] && ParsedResult(llm, parse).None?
  }

  /** JSON the LLM wrapped in a code fence is still read (a JSON parser
      rejects the fenced text itself, which starts with a backtick). */
  lemma FencedJsonRead<J>(body: string, tag: string, parse: string -> Option<J>)
    requires tag == "" || tag == "json" || tag == "JSON"
    requires JsTrim(body) == body && parse(body).Some?
    requires parse(Fence + tag + "\n" + body + "\n" + Fence).None?
    ensures ParsedResult(Fence + tag + "\n" + body + "\n" + Fence, parse) == parse(body)
  {
    FenceRoundTrip(body, tag);
  }
}
