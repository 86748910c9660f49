/** The culture-map text parser of src/utils/parser.ts: every non-blank line
    of a language model's answer is either a note line
    `[type](sentiment) content (저자: …, 이론: …, 연도: …)` or a connection
    line `[연결] [type](sentiment) content → [type](sentiment) content (간접)`.
    Notes come first; connections are resolved against the notes' contents
    afterwards. The two regular expressions are written out as functions
    that follow a backtracking engine's order of attempts. */
module CultureMapParser {
  import opened Common

  datatype Sentiment = Positive | Negative | Neutral

  /** PerceptionIntensity: 집중 (focus), 관심 (interest), 언급 (mention). */
  datatype Intensity = Focus | Interest | Mention

  datatype Basis = Basis(author: string, theory: string, year: string)

  datatype Point = Point(x: int, y: int)

  /** NoteData as the parser builds it. Identifiers are the sequence numbers
      of the calls to the uuid generator. */
  datatype Note = Note(
    id: nat, text: string, position: Point, width: nat, height: nat,
    noteType: string, sentiment: Sentiment, intensity: Intensity,
    basis: Option<Basis>, layer: nat)

  datatype Relation = Direct | Indirect

  datatype Connection = Connection(id: nat, sourceId: nat, targetId: nat, isPositive: bool, relation: Relation)

  // ---------------------------------------------------------------------
  // Type tags

  const FocusSuffix: string := "_집중"
  const InterestSuffix: string := "_관심"
  const MentionSuffix: string := "_언급"

  function SuffixOf(i: Intensity): string
  {
    match i
    case Focus => FocusSuffix
    case Interest => InterestSuffix
    case Mention => MentionSuffix
  }

  /** extractPerceptionIntensity: the intensity named by the tag's suffix,
      mention when there is none. */
  function ExtractIntensity(t: string): (r: Intensity)
    ensures r != Mention ==> EndsWith(t, SuffixOf(r))
  {
    if EndsWith(t, FocusSuffix) then Focus
    else if EndsWith(t, InterestSuffix) then Interest
    else Mention
  }

  /** normalizeType: drops one intensity suffix, trims, and widens the
      aliases 유형 and 무형 to the lever names. */
  function NormalizeType(t: string): string
  {
    var bare := if EndsWith(t, FocusSuffix) || EndsWith(t, InterestSuffix) || EndsWith(t, MentionSuffix)
                then t[..|t| - 3] else t;
    var trimmed := JsTrim(bare);
    if trimmed == "유형" then "유형_레버"
    else if trimmed == "무형" then "무형_레버"
    else trimmed
  }

  /** The four layer names, in layer order. */
  const LayerNames: seq<string> := ["결과", "행동", "유형_레버", "무형_레버"]

  /** layerNameToIndex, reading only the table's own entries. */
  function LayerIndex(name: string): (r: Option<nat>)
    ensures r.Some? ==> r.value < 4
  {
    if name == "결과" then Some(0)
    else if name == "행동" then Some(1)
    else if name == "유형_레버" || name == "유형" then Some(2)
    else if name == "무형_레버" || name == "무형" then Some(3)
    else None
  }

  /** What `layerNameToIndex[name]` reads on the object literal as written:
      one of its own entries, a member inherited from Object.prototype, or
      `undefined`. */
  datatype Lookup = OwnEntry(index: nat) | InheritedMember | Undefined

  function LayerLookupAsWritten(name: string): (r: Lookup)
    ensures r.OwnEntry? <==> LayerIndex(name).Some?
    ensures r.OwnEntry? ==> r.index == LayerIndex(name).value
    ensures r.InheritedMember? <==> name in InheritedNames
  {
    match LayerIndex(name)
    case Some(i) => OwnEntry(i)
    case None => if name in InheritedNames then InheritedMember else Undefined
  }

  /** A tag built from a layer name (or alias) and an intensity suffix reads
      back as that layer's canonical name and that intensity; without a
      suffix it reads back as mention. */
  lemma TagRoundTrip(name: string, i: Intensity)
    requires LayerIndex(name).Some?
    ensures NormalizeType(name + SuffixOf(i)) == LayerNames[LayerIndex(name).value]
    ensures ExtractIntensity(name + SuffixOf(i)) == i
    ensures NormalizeType(name) == LayerNames[LayerIndex(name).value]
    ensures ExtractIntensity(name) == Mention
  {
    var t := name + SuffixOf(i);
    assert t[..|t| - 3] == name;
    assert t[|t| - 3..] == SuffixOf(i);
    TrimOfWord(name);
  }

  /** A layer name has no white space and no intensity suffix. */
  lemma TrimOfWord(name: string)
    requires LayerIndex(name).Some?
    ensures JsTrim(name) == name
    ensures !EndsWith(name, FocusSuffix) && !EndsWith(name, InterestSuffix) && !EndsWith(name, MentionSuffix)
  {
    TrimStartShape(name, JsSpaces);
    TrimEndShape(TrimStart(name, JsSpaces), JsSpaces);
    assert !IsSpace(JsSpaces, name[0]);
    assert !IsSpace(JsSpaces, name[|name| - 1]);
  }

  /** Only one suffix is stripped: a doubled suffix leaves a tag that names
      no layer. */
  lemma OneSuffixOnly()
    ensures NormalizeType("결과_집중_집중") == "결과_집중"
    ensures LayerIndex(NormalizeType("결과_집중_집중")).None?
  {
    var t := "결과_집중_집중";
    assert t[..|t| - 3] == "결과_집중";
    assert EndsWith(t, FocusSuffix);
    var b := "결과_집중";
    assert TrimStart(b, JsSpaces) == b;
    assert TrimEnd(b, JsSpaces) == b;
  }

  /** Sentiment of a note: positive if the text says 긍정, otherwise negative
      if it says 부정, otherwise neutral. */
  function SentimentOf(s: string): Sentiment
  {
    if Contains(s, "긍정") then Positive
    else if Contains(s, "부정") then Negative
    else Neutral
  }

  // ---------------------------------------------------------------------
  // Pieces of the regular expressions

  /** Index of the first `c` in `s` at or after `i`. */
  function CharFrom(s: string, c: char, i: nat): (r: Option<nat>)
    ensures r.Some? ==> i <= r.value < |s|
    decreases |s| - i
  {
    if i >= |s| then None
    else if s[i] == c then Some(i)
    else CharFrom(s, c, i + 1)
  }

  /** The first `c` at or after `i` is found, and no earlier one. */
  lemma {:induction false} CharFromFirst(s: string, c: char, i: nat)
    ensures CharFrom(s, c, i).Some? ==> s[CharFrom(s, c, i).value] == c
    ensures forall j | i <= j < |s| && s[j] == c :: CharFrom(s, c, i).Some? && CharFrom(s, c, i).value <= j
    decreases |s| - i
  {
    if i < |s| && s[i] != c {
      CharFromFirst(s, c, i + 1);
    }
  }

  /** End of the longest run of `\s` characters from `i` (a greedy `\s*`,
      which never gives characters back in these patterns unless a lazy
      group follows it). */
  function SkipSpaces(s: string, i: nat): (r: nat)
    requires i <= |s|
    ensures i <= r <= |s|
    decreases |s| - i
  {
    if i < |s| && IsJsSpace(s[i]) then SkipSpaces(s, i + 1) else i
  }

  /** `\[([^\]]+)\]` or `\(([^)]+)\)` at `i`: the class excludes the closer,
      so the group runs to the first closer and must not be empty. Gives
      the group and the position after the closer. */
  function Delimited(s: string, i: nat, open: char, close: char): (r: Option<(string, nat)>)
    ensures r.Some? ==> i + 3 <= r.value.1 <= |s| && |r.value.0| > 0
  {
    if i < |s| && s[i] == open then
      match CharFrom(s, close, i + 1)
      case Some(j) => if j > i + 1 then Some((s[i + 1..j], j + 1)) else None
      case None => None
    else None
  }

  /** A lazy `.*?` that has consumed `s[start..t]`: the first end from `t`
      on that `cont` accepts, extending only over characters `.` matches. */
  function Lazy<X>(s: string, t: nat, cont: nat -> Option<X>): (r: Option<(nat, X)>)
    requires t <= |s|
    ensures r.Some? ==> t <= r.value.0 <= |s| && cont(r.value.0) == Some(r.value.1)
    decreases |s| - t
  {
    match cont(t)
    case Some(x) => Some((t, x))
    case None => if t < |s| && !IsLineTerminator(s[t]) then Lazy(s, t + 1, cont) else None
  }

  /** `\s*` followed by a lazy group (`.*?`, or `.+?` when `nonEmpty`),
      the group starting at `start`: the engine first lets `\s*` take the
      whole white-space run, then gives it back one character at a time
      down to `lo`. Gives the group's bounds and what `cont` accepted. */
  function SpacesThenLazy<X>(s: string, lo: nat, start: nat, nonEmpty: bool, cont: nat -> Option<X>): (r: Option<(nat, nat, X)>)
    requires lo <= start <= |s|
    ensures r.Some? ==> lo <= r.value.0 <= r.value.1 <= |s| && cont(r.value.1) == Some(r.value.2)
    ensures r.Some? && nonEmpty ==> r.value.0 < r.value.1
    decreases start - lo
  {
    var attempt :=
      if !nonEmpty then Lazy(s, start, cont)
      else if start < |s| && !IsLineTerminator(s[start]) then Lazy(s, start + 1, cont)
      else None;
    match attempt
    case Some((t, x)) => Some((start, t, x))
    case None => if start > lo then SpacesThenLazy(s, lo, start - 1, nonEmpty, cont) else None
  }

  // ---------------------------------------------------------------------
  // The note pattern
  // ^\[(type)\]\s*\((sentiment)\)\s*(content.*?)\s*(?:\((metadata(?:저자|이론|연도):.*?)\))?$

  datatype NodeGroups = NodeGroups(nodeType: string, sentiment: string, content: string, metadata: Option<string>)

  predicate IsMetadataKey(k: string)
  {
    k == "저자:" || k == "이론:" || k == "연도:"
  }

  /** `\((metadata)\)$` at `u`: the lazy `.*?` can only stop at the final
      `)`, since `$` must follow it. */
  function MetadataGroup(s: string, u: nat): (r: Option<string>)
  {
    if u + 5 <= |s| && s[u] == '(' && s[|s| - 1] == ')' && IsMetadataKey(s[u + 1..u + 4])
       && NoTerminator(s[u + 4..|s| - 1])
    then Some(s[u + 1..|s| - 1])
    else None
  }

  /** What may follow the content: `\s*`, then the metadata group if it
      matches, then the end of the line. */
  function NodeTail(s: string, t: nat): (r: Option<Option<string>>)
    requires t <= |s|
  {
    var u := SkipSpaces(s, t);
    var m := MetadataGroup(s, u);
    if m.Some? then Some(m)
    else if u == |s| then Some(None)
    else None
  }

  /** The rest of the note pattern after the content, as the lazy content
      group's continuation. */
  function NodeRest(s: string): nat -> Option<Option<string>>
  {
    (t: nat) => if t <= |s| then NodeTail(s, t) else None
  }

  /** The note pattern applied to a whole line. */
  function NodeMatch(s: string): (r: Option<NodeGroups>)
  {
    match Delimited(s, 0, '[', ']')
    case None => None
    case Some((nodeType, c)) =>
      match Delimited(s, SkipSpaces(s, c), '(', ')')
      case None => None
      case Some((sentiment, e)) =>
        match SpacesThenLazy(s, e, SkipSpaces(s, e), false, NodeRest(s))
        case None => None
        case Some((b, t, meta)) => Some(NodeGroups(nodeType, sentiment, s[b..t], meta))
  }

  // ---------------------------------------------------------------------
  // The theory basis inside the metadata: /저자:\s*([^,]+)/ and its kin

  /** End of the longest run from `i` of characters outside `stop`. */
  function RunEnd(s: string, i: nat, stop: set<char>): (r: nat)
    requires i <= |s|
    ensures i <= r <= |s|
    decreases |s| - i
  {
    if i < |s| && s[i] !in stop then RunEnd(s, i + 1, stop) else i
  }

  /** `key\s*([^stop]+)` matched at `k`: the group is the run after the
      white space; when that run is empty, `\s*` gives back its last
      character, which becomes the group. */
  function CaptureAt(s: string, key: string, k: nat, stop: set<char>): Option<string>
    requires k + |key| <= |s|
  {
    if s[k..k + |key|] != key then None
    else
      var a := k + |key|;
      var b := SkipSpaces(s, a);
      if b < |s| && s[b] !in stop then Some(s[b..RunEnd(s, b, stop)])
      else if b > a then Some(s[b - 1..b])
      else None
  }

  /** The leftmost match of `key\s*([^stop]+)` at or after `k`. */
  function CaptureFrom(s: string, key: string, k: nat, stop: set<char>): Option<string>
    decreases |s| - k
  {
    if k + |key| > |s| then None
    else
      var here := CaptureAt(s, key, k, stop);
      if here.Some? then here else CaptureFrom(s, key, k + 1, stop)
  }

  /** The basis is kept only when author, theory and year all match. */
  function BasisOf(metadata: Option<string>): (r: Option<Basis>)
    ensures r.Some? ==> metadata.Some?
  {
    match metadata
    case None => None
    case Some(m) =>
      var author := CaptureFrom(m, "저자:", 0, {','});
      var theory := CaptureFrom(m, "이론:", 0, {','});
      var year := CaptureFrom(m, "연도:", 0, {',', ')'});
      if author.Some? && theory.Some? && year.Some? then
        Some(Basis(JsTrim(author.value), JsTrim(theory.value), JsTrim(year.value)))
      else None
  }

  // ---------------------------------------------------------------------
  // Note lines

  const DirectTag: string := "[연결]"
  const IndirectTag: string := "[간접연결]"

  /** Lines set aside for the connection pass. */
  predicate IsConnectionLine(line: string)
  {
    StartsWith(line, DirectTag) || StartsWith(line, IndirectTag)
  }

  /** The note a matched line makes, with identifier `id`: none when the
      type names no layer or the content is blank. */
  function NoteOf(line: string, id: nat): (r: Option<Note>)
  {
    match NodeMatch(line)
    case None => None
    case Some(g) =>
      var normalized := NormalizeType(g.nodeType);
      var content := JsTrim(g.content);
      match LayerIndex(normalized)
      case None => None
      case Some(index) =>
        if content == [] then None
        else Some(Note(id, content, Point(0, 0), 200, 120, normalized, SentimentOf(g.sentiment),
                       ExtractIntensity(g.nodeType), BasisOf(g.metadata), index + 1))
  }

  /** A note line gives a note exactly when the pattern matches, the type
      names a layer and the content is not blank; the note's layer is that
      layer's number and its type that layer's canonical name. */
  lemma NoteOfRule(line: string, id: nat)
    ensures NoteOf(line, id).Some? <==>
              NodeMatch(line).Some? && LayerIndex(NormalizeType(NodeMatch(line).value.nodeType)).Some?
              && JsTrim(NodeMatch(line).value.content) != []
    ensures NoteOf(line, id).Some? ==>
              var n := NoteOf(line, id).value;
              1 <= n.layer <= 4 && n.noteType == LayerNames[n.layer - 1] && n.text != [] && n.id == id
              && n.position == Point(0, 0) && n.width == 200 && n.height == 120
  {
    if NoteOf(line, id).Some? {
      var g := NodeMatch(line).value;
      var normalized := NormalizeType(g.nodeType);
      var index := LayerIndex(normalized).value;
      CanonicalName(normalized);
    }
  }

  /** The source keeps a matched note unless the lookup reads `undefined`
      or the content is blank. */
  predicate KeptAsWritten(line: string)
  {
    match NodeMatch(line)
    case None => false
    case Some(g) => !LayerLookupAsWritten(NormalizeType(g.nodeType)).Undefined? && JsTrim(g.content) != []
  }

  /** CharFrom stops at the first `c`. */
  lemma {:induction false} CharFromAt(s: string, c: char, i: nat, j: nat)
    requires i <= j < |s| && s[j] == c
    requires forall k | i <= k < j :: s[k] != c
    ensures CharFrom(s, c, i) == Some(j)
    decreases j - i
  {
    if i < j {
      CharFromAt(s, c, i + 1, j);
    }
  }

  /** A note line whose tag names a member every object inherits. */
  const ConstructorLine: string := "[constructor](긍정) x"

  lemma ConstructorLineChars()
    ensures |ConstructorLine| == 19
    ensures ConstructorLine[0] == '[' && ConstructorLine[12] == ']' && ConstructorLine[1..12] == "constructor"
    ensures ConstructorLine[13] == '(' && ConstructorLine[16] == ')' && ConstructorLine[14..16] == "긍정"
    ensures ConstructorLine[17] == ' ' && ConstructorLine[18..19] == "x"
    ensures forall k | 1 <= k < 12 :: ConstructorLine[k] != ']'
  {
  }

  lemma ConstructorLineType()
    ensures Delimited(ConstructorLine, 0, '[', ']') == Some(("constructor", 13))
  {
    ConstructorLineChars();
    CharFromAt(ConstructorLine, ']', 1, 12);
  }

  lemma ConstructorLineSentiment()
    ensures Delimited(ConstructorLine, 13, '(', ')') == Some(("긍정", 17))
  {
    ConstructorLineChars();
    CharFromAt(ConstructorLine, ')', 14, 16);
  }

  lemma ConstructorLineContent()
    ensures SpacesThenLazy(ConstructorLine, 17, 18, false, NodeRest(ConstructorLine)) == Some((18, 19, None))
  {
    var s := ConstructorLine;
    var cont := NodeRest(s);
    assert cont(18) == None;
    assert cont(19) == Some(None);
    assert Lazy(s, 19, cont) == Some((19, None));
    assert Lazy(s, 18, cont) == Some((19, None));
  }

  lemma ConstructorLineMatch()
    ensures NodeMatch(ConstructorLine) == Some(NodeGroups("constructor", "긍정", "x", None))
  {
    var s := ConstructorLine;
    ConstructorLineType();
    ConstructorLineSentiment();
    ConstructorLineContent();
    assert SkipSpaces(s, 13) == 13;
    assert SkipSpaces(s, 17) == 18;
    assert s[18..19] == "x";
  }

  /** A matched line whose tag normalises to an inherited name and whose
      content is not blank is kept as written and dropped by the corrected
      lookup. */
  lemma InheritedKept(line: string, g: NodeGroups)
    requires NodeMatch(line) == Some(g)
    requires LayerLookupAsWritten(NormalizeType(g.nodeType)).InheritedMember? && JsTrim(g.content) != []
    ensures KeptAsWritten(line) && NoteOf(line, 0).None?
  {
  }

  /** "constructor" is a bare word and "x" a non-blank content. */
  lemma ConstructorGroupsInherited()
    ensures LayerLookupAsWritten(NormalizeType("constructor")).InheritedMember? && JsTrim("x") != []
  {
    assert TrimStart("constructor", JsSpaces) == "constructor";
    assert TrimEnd("constructor", JsSpaces) == "constructor";
    assert TrimStart("x", JsSpaces) == "x" && TrimEnd("x", JsSpaces) == "x";
  }

  /** A tag naming an inherited member is kept by the lookup as written,
      with no layer number, while the corrected lookup drops the line. */
  lemma InheritedTagKept()
    ensures KeptAsWritten(ConstructorLine)
    ensures NoteOf(ConstructorLine, 0).None?
  {
    ConstructorLineMatch();
    ConstructorGroupsInherited();
    InheritedKept(ConstructorLine, NodeGroups("constructor", "긍정", "x", None));
  }

  /** The normalised type of a kept note is a canonical layer name. */
  lemma CanonicalName(t: string)
    requires LayerIndex(t).Some?
    requires t != "유형" && t != "무형"
    ensures t == LayerNames[LayerIndex(t).value]
  {
  }

  /** Normalisation never leaves an alias behind. */
  lemma NormalizeNoAlias(t: string)
    ensures NormalizeType(t) != "유형" && NormalizeType(t) != "무형"
  {
  }

  // ---------------------------------------------------------------------
  // The connection pattern
  // \[(간접)?연결\]\s*\[T\]\s*\(S\)\s*(source.+?)\s*→\s*\[T\]\s*\(S\)\s*(target.+?)(?:\s*\((직접|간접)\))?$

  datatype ConnGroups = ConnGroups(source: string, target: string, relation: Option<string>)

  /** `(?:\s*\((직접|간접)\))?$` at `t`: the group if it reaches the end of
      the line, otherwise the end of the line itself. */
  function ConnTail(s: string, t: nat): (r: Option<Option<string>>)
    requires t <= |s|
  {
    var u := SkipSpaces(s, t);
    if s[u..] == "(직접)" then Some(Some("직접"))
    else if s[u..] == "(간접)" then Some(Some("간접"))
    else if t == |s| then Some(None)
    else None
  }

  /** A relation group read by the tail is the line's last characters. */
  lemma ConnTailEnds(s: string, t: nat)
    requires t <= |s|
    ensures ConnTail(s, t) == Some(Some("간접")) ==> EndsWith(s, "(간접)")
    ensures ConnTail(s, t) == Some(Some("직접")) ==> EndsWith(s, "(직접)")
    ensures ConnTail(s, t) == Some(None) ==> t == |s|
  {
  }

  /** `\[T\]\s*\(S\)` at `i` (after its leading `\s*`): the position after
      the sentiment's closing parenthesis. */
  function Side(s: string, i: nat): (r: Option<nat>)
    ensures r.Some? ==> i < r.value <= |s|
  {
    match Delimited(s, i, '[', ']')
    case None => None
    case Some((_, c)) =>
      match Delimited(s, SkipSpaces(s, c), '(', ')')
      case None => None
      case Some((_, e)) => Some(e)
  }

  /** Everything after the source content: `\s*→\s*`, the target side, its
      content and the tail. Gives the target group's bounds and the
      relation group. */
  function AfterSource(s: string, t: nat): (r: Option<(nat, nat, Option<string>)>)
    requires t <= |s|
    ensures r.Some? ==> r.value.0 < r.value.1 <= |s| && ConnTail(s, r.value.1) == Some(r.value.2)
  {
    var u := SkipSpaces(s, t);
    if u < |s| && s[u] == '→' then
      match Side(s, SkipSpaces(s, u + 1))
      case None => None
      case Some(e) =>
        SpacesThenLazy(s, e, SkipSpaces(s, e), true, (t2: nat) => if t2 <= |s| then ConnTail(s, t2) else None)
    else None
  }

  /** `\[(간접)?연결\]\s*\[T\]\s*\(S\)` at `k`: the position after the
      source's sentiment. */
  function ConnStart(s: string, k: nat): (r: Option<nat>)
    requires k <= |s|
    ensures r.Some? ==> r.value <= |s|
  {
    var rest := s[k..];
    if StartsWith(rest, IndirectTag) then Side(s, SkipSpaces(s, k + |IndirectTag|))
    else if StartsWith(rest, DirectTag) then Side(s, SkipSpaces(s, k + |DirectTag|))
    else None
  }

  /** From the end of the source side: `\s*`, the lazy source content and
      everything after it. Gives the source bounds, the target bounds and
      the relation group. */
  function SourceAndTarget(s: string, e: nat): Option<(nat, nat, (nat, nat, Option<string>))>
    requires e <= |s|
  {
    SpacesThenLazy(s, e, SkipSpaces(s, e), true, (t: nat) => if t <= |s| then AfterSource(s, t) else None)
  }

  /** The bounds found are inside the line, and a relation group read is
      the line's last characters. */
  lemma SourceAndTargetEnds(s: string, e: nat)
    requires e <= |s|
    ensures var r := SourceAndTarget(s, e);
            r.Some? ==>
              var (b, t, (b2, t2, rel)) := r.value;
              b <= t <= |s| && b2 <= t2 <= |s|
              && (rel == Some("간접") ==> EndsWith(s, "(간접)"))
  {
    var r := SourceAndTarget(s, e);
    if r.Some? {
      var (b, t, x) := r.value;
      assert AfterSource(s, t) == Some(x);
      ConnTailEnds(s, x.1);
    }
  }

  /** The connection pattern tried at position `k`. */
  function ConnAt(s: string, k: nat): Option<ConnGroups>
    requires k <= |s|
  {
    match ConnStart(s, k)
    case None => None
    case Some(e) =>
      match SourceAndTarget(s, e)
      case None => None
      case Some((b, t, (b2, t2, rel))) =>
        SourceAndTargetEnds(s, e);
        Some(ConnGroups(s[b..t], s[b2..t2], rel))
  }

  /** A relation group read at `k` is the line's last characters. */
  lemma ConnAtEnds(s: string, k: nat)
    requires k <= |s|
    ensures var r := ConnAt(s, k);
            r.Some? && r.value.relation == Some("간접") ==> EndsWith(s, "(간접)")
  {
    if ConnStart(s, k).Some? {
      SourceAndTargetEnds(s, ConnStart(s, k).value);
    }
  }

  /** `line.match(connectionRegex)`: the leftmost position where the
      pattern matches (the pattern has no `^`). */
  function ConnMatch(s: string, k: nat): Option<ConnGroups>
    requires k <= |s|
    decreases |s| - k
  {
    var here := ConnAt(s, k);
    if here.Some? then here
    else if k < |s| then ConnMatch(s, k + 1)
    else None
  }

  /** Wherever the leftmost match starts, a relation group it reads is the
      line's last characters. */
  lemma {:induction false} ConnMatchEnds(s: string, k: nat)
    requires k <= |s|
    ensures var r := ConnMatch(s, k);
            r.Some? && r.value.relation == Some("간접") ==> EndsWith(s, "(간접)")
    decreases |s| - k
  {
    ConnAtEnds(s, k);
    if ConnAt(s, k).None? && k < |s| {
      ConnMatchEnds(s, k + 1);
    }
  }

  /** The connection a pending line makes, with identifier `id`, given the
      map from note contents to note identifiers. */
  function ConnectionOf(line: string, ids: map<string, nat>, id: nat): Option<Connection>
  {
    match ConnMatch(line, 0)
    case None => None
    case Some(g) => ConnectionFrom(line, g, ids, id)
  }

  /** The connection the groups `g` of `line` make: only when both trimmed
      contents name notes. */
  function ConnectionFrom(line: string, g: ConnGroups, ids: map<string, nat>, id: nat): Option<Connection>
  {
    var source := JsTrim(g.source);
    var target := JsTrim(g.target);
    if source in ids && target in ids then
      var indirect := StartsWith(line, IndirectTag) || g.relation == Some("간접");
      Some(Connection(id, ids[source], ids[target], true, if indirect then Indirect else Direct))
    else None
  }

  /** A connection is indirect only when the line starts with [간접연결]
      or ends with (간접). */
  lemma ConnectionIndirect(line: string, ids: map<string, nat>, id: nat)
    ensures var r := ConnectionOf(line, ids, id);
            r.Some? && r.value.relation == Indirect ==> StartsWith(line, IndirectTag) || EndsWith(line, "(간접)")
  {
    var m := ConnMatch(line, 0);
    if m.Some? {
      ConnMatchEnds(line, 0);
      ConnectionFromRule(line, m.value, ids, id);
    }
  }

  /** A connection is positive and joins the notes named by its two
      trimmed contents; it is indirect exactly when the line starts with
      [간접연결] or its relation group reads 간접. */
  lemma ConnectionFromRule(line: string, g: ConnGroups, ids: map<string, nat>, id: nat)
    ensures var r := ConnectionFrom(line, g, ids, id);
            r.Some? <==> JsTrim(g.source) in ids && JsTrim(g.target) in ids
    ensures var r := ConnectionFrom(line, g, ids, id);
            r.Some? ==>
              r.value.id == id && r.value.isPositive
              && r.value.sourceId == ids[JsTrim(g.source)] && r.value.targetId == ids[JsTrim(g.target)]
              && (r.value.relation == Indirect <==> StartsWith(line, IndirectTag) || g.relation == Some("간접"))
  {
  }

  // ---------------------------------------------------------------------
  // parseAIOutput

  /** The lines of `text.split('\n')` that are not blank after trim. */
  function NonBlank(lines: seq<string>): (r: seq<string>)
    ensures |r| <= |lines|
  {
    if lines == [] then []
    else
      var prev := NonBlank(lines[..|lines| - 1]);
      var last := lines[|lines| - 1];
      if JsTrim(last) != [] then prev + [last] else prev
  }

  // The two passes are written over the line functions they apply
  // (`NoteOf` and `ConnectionOf` in parseAIOutput), so that their proofs
  // never look inside the regular expressions.

  /** Turns one line into a note numbered with the given identifier. */
  type NoteParser = (string, nat) -> Option<Note>

  /** Turns one pending line into a connection against the content map,
      numbered with the given identifier. */
  type ConnectionResolver = (string, map<string, nat>, nat) -> Option<Connection>

  /** Notes of the first pass over `lines`, numbered from `firstId`. */
  function NotesOf(lines: seq<string>, firstId: nat, parse: NoteParser): seq<Note>
    decreases |lines|, 1
  {
    if lines == [] then []
    else
      var prev := NotesOf(lines[..|lines| - 1], firstId, parse);
      if IsConnectionLine(lines[|lines| - 1]) then prev
      else match LastNote(lines, firstId, parse)
        case None => prev
        case Some(n) => prev + [n]
  }

  /** The note the last of `lines` makes, numbered after the notes of the
      lines before it. */
  function LastNote(lines: seq<string>, firstId: nat, parse: NoteParser): Option<Note>
    requires lines != []
    decreases |lines|, 0
  {
    parse(lines[|lines| - 1], firstId + |NotesOf(lines[..|lines| - 1], firstId, parse)|)
  }

  /** The lines set aside for the second pass, in order. */
  function PendingOf(lines: seq<string>): seq<string>
  {
    if lines == [] then []
    else
      var prev := PendingOf(lines[..|lines| - 1]);
      var last := lines[|lines| - 1];
      if IsConnectionLine(last) then prev + [last] else prev
  }

  /** noteContentToIdMap after the first pass: a later note with the same
      content overwrites an earlier one. */
  function ContentIds(notes: seq<Note>): map<string, nat>
  {
    if notes == [] then map[]
    else ContentIds(notes[..|notes| - 1])[notes[|notes| - 1].text := notes[|notes| - 1].id]
  }

  /** Connections of the second pass, numbered from `nextId`. */
  function ConnectionsOf(pending: seq<string>, ids: map<string, nat>, nextId: nat, resolve: ConnectionResolver): seq<Connection>
    decreases |pending|, 1
  {
    if pending == [] then []
    else
      var prev := ConnectionsOf(pending[..|pending| - 1], ids, nextId, resolve);
      match LastConnection(pending, ids, nextId, resolve)
      case None => prev
      case Some(c) => prev + [c]
  }

  /** The connection the last pending line makes, numbered after the
      connections of the lines before it. */
  function LastConnection(pending: seq<string>, ids: map<string, nat>, nextId: nat, resolve: ConnectionResolver): Option<Connection>
    requires pending != []
    decreases |pending|, 0
  {
    resolve(pending[|pending| - 1], ids, nextId + |ConnectionsOf(pending[..|pending| - 1], ids, nextId, resolve)|)
  }

  /** The first pass: a connection line is set aside; a note line adds its
      note, drawing the next identifier, and records the note's content. */
  method FirstPass(lines: seq<string>, firstId: nat, parse: NoteParser)
    returns (notes: seq<Note>, contentToId: map<string, nat>, pending: seq<string>)
    ensures notes == NotesOf(lines, firstId, parse) && contentToId == ContentIds(notes)
    ensures pending == PendingOf(lines)
  {
    notes := [];
    contentToId := map[];
    pending := [];
    var i := 0;
    while i < |lines|
      invariant 0 <= i <= |lines|
      invariant notes == NotesOf(lines[..i], firstId, parse) && contentToId == ContentIds(notes)
      invariant pending == PendingOf(lines[..i])
    {
      var line := lines[i];
      assert lines[..i + 1][..i] == lines[..i] && lines[..i + 1][i] == line;
      if IsConnectionLine(line) {
        pending := pending + [line];
      } else {
        var note := parse(line, firstId + |notes|);
        assert LastNote(lines[..i + 1], firstId, parse) == note;
        if note.Some? {
          ghost var before := notes;
          notes := notes + [note.value];
          assert notes[..|notes| - 1] == before;
          contentToId := contentToId[note.value.text := note.value.id];
        }
      }
      i := i + 1;
    }
    assert lines[..|lines|] == lines;
  }

  /** The second pass: every pending line whose two contents name notes
      adds a connection, drawing the next identifier. */
  method SecondPass(pending: seq<string>, ids: map<string, nat>, nextId: nat, resolve: ConnectionResolver)
    returns (connections: seq<Connection>)
    ensures connections == ConnectionsOf(pending, ids, nextId, resolve)
  {
    connections := [];
    var j := 0;
    while j < |pending|
      invariant 0 <= j <= |pending|
      invariant connections == ConnectionsOf(pending[..j], ids, nextId, resolve)
    {
      var line := pending[j];
      assert pending[..j + 1][..j] == pending[..j] && pending[..j + 1][j] == line;
      var c := resolve(line, ids, nextId + |connections|);
      assert LastConnection(pending[..j + 1], ids, nextId, resolve) == c;
      if c.Some? {
        connections := connections + [c.value];
      }
      j := j + 1;
    }
    assert pending[..|pending|] == pending;
  }

  /** The lines parseAIOutput reads: those of `text.split('\n')` that are not blank. */
  function InputLines(text: string): seq<string>
  {
    NonBlank(Split(text, '\n'))
  }

  /** parseAIOutput. `firstId` is the number of the first uuid drawn; every
      note and then every connection draws the next one. */
  method ParseAIOutput(text: string, firstId: nat) returns (notes: seq<Note>, connections: seq<Connection>)
    ensures notes == NotesOf(InputLines(text), firstId, NoteOf)
    ensures connections == ConnectionsOf(PendingOf(InputLines(text)), ContentIds(notes), firstId + |notes|, ConnectionOf)
  {
    var lines := NonBlank(Split(text, '\n'));
    var contentToId, pending;
    notes, contentToId, pending := FirstPass(lines, firstId, NoteOf);
    connections := SecondPass(pending, contentToId, firstId + |notes|, ConnectionOf);
  }

  // ---------------------------------------------------------------------
  // Properties of the result

  /** A note numbered `id`, on a layer in 1..4 named by its type, with
      non-blank text. */
  predicate WellFormedNote(n: Note, id: nat)
  {
    n.id == id && 1 <= n.layer <= 4 && n.noteType == LayerNames[n.layer - 1] && n.text != []
  }

  /** Every note a parser makes is well formed. */
  ghost predicate WellFormedParser(parse: NoteParser)
  {
    forall line, id :: parse(line, id).Some? ==> WellFormedNote(parse(line, id).value, id)
  }

  /** The note pattern's parser makes only well-formed notes. */
  lemma NoteOfWellFormed()
    ensures WellFormedParser(NoteOf)
  {
    forall line, id | NoteOf(line, id).Some?
      ensures WellFormedNote(NoteOf(line, id).value, id)
    {
      NoteOfRule(line, id);
    }
  }

  /** Notes numbered from `firstId`, each well formed. */
  predicate NumberedNotes(notes: seq<Note>, firstId: nat)
  {
    forall k | 0 <= k < |notes| :: WellFormedNote(notes[k], firstId + k)
  }

  /** Every note of the first pass has the next identifier, a layer in
      1..4 whose canonical name is its type, and non-blank text; there are
      at most as many notes as lines. */
  lemma {:induction false} NotesShape(lines: seq<string>, firstId: nat, parse: NoteParser)
    requires WellFormedParser(parse)
    ensures |NotesOf(lines, firstId, parse)| <= |lines|
    ensures NumberedNotes(NotesOf(lines, firstId, parse), firstId)
  {
    if lines != [] {
      NotesShape(lines[..|lines| - 1], firstId, parse);
      if !IsConnectionLine(lines[|lines| - 1]) {
        assert LastNote(lines, firstId, parse) == parse(lines[|lines| - 1], firstId + |NotesOf(lines[..|lines| - 1], firstId, parse)|);
      }
    }
  }

  /** The content map holds exactly the notes' contents, each mapped to the
      identifier of the last note with that content. */
  lemma {:induction false} ContentIdsLast(notes: seq<Note>, c: string)
    ensures c in ContentIds(notes) <==> exists k | 0 <= k < |notes| :: notes[k].text == c
    ensures c in ContentIds(notes) ==>
              exists k | 0 <= k < |notes| :: notes[k].text == c && ContentIds(notes)[c] == notes[k].id
                && forall k' | k < k' < |notes| :: notes[k'].text != c
  {
    if notes != [] {
      var n := |notes| - 1;
      ContentIdsLast(notes[..n], c);
      if notes[n].text != c {
        if c in ContentIds(notes) {
          var k :| 0 <= k < n && notes[..n][k].text == c && ContentIds(notes[..n])[c] == notes[..n][k].id
                   && forall k' | k < k' < n :: notes[..n][k'].text != c;
          assert notes[k].text == c && ContentIds(notes)[c] == notes[k].id;
        }
        if exists k | 0 <= k < |notes| :: notes[k].text == c {
          var k :| 0 <= k < |notes| && notes[k].text == c;
          assert notes[..n][k].text == c;
        }
      }
    }
  }

  /** Every identifier in the content map is a note's. */
  lemma ContentIdsAreNoteIds(notes: seq<Note>, c: string)
    requires c in ContentIds(notes)
    ensures exists a | 0 <= a < |notes| :: notes[a].id == ContentIds(notes)[c]
  {
    ContentIdsLast(notes, c);
  }

  /** A connection numbered `id` that joins two of `notes`. */
  predicate JoinsAt(c: Connection, notes: seq<Note>, id: nat)
  {
    c.id == id && c.isPositive
    && (exists a | 0 <= a < |notes| :: notes[a].id == c.sourceId)
    && (exists b | 0 <= b < |notes| :: notes[b].id == c.targetId)
  }

  /** Every connection a resolver makes against the notes' content map
      joins two of the notes. */
  ghost predicate JoiningResolver(resolve: ConnectionResolver, notes: seq<Note>)
  {
    forall line, id :: resolve(line, ContentIds(notes), id).Some? ==>
      JoinsAt(resolve(line, ContentIds(notes), id).value, notes, id)
  }

  /** The connection pattern's resolver only joins notes. */
  lemma ConnectionOfJoins(notes: seq<Note>)
    ensures JoiningResolver(ConnectionOf, notes)
  {
    var ids := ContentIds(notes);
    forall line, id | ConnectionOf(line, ids, id).Some?
      ensures JoinsAt(ConnectionOf(line, ids, id).value, notes, id)
    {
      var g := ConnMatch(line, 0).value;
      ConnectionFromRule(line, g, ids, id);
      ContentIdsAreNoteIds(notes, JsTrim(g.source));
      ContentIdsAreNoteIds(notes, JsTrim(g.target));
    }
  }

  /** Connections numbered from `nextId`, each joining two of `notes`. */
  predicate JoinsNotes(cs: seq<Connection>, notes: seq<Note>, nextId: nat)
  {
    forall k | 0 <= k < |cs| :: JoinsAt(cs[k], notes, nextId + k)
  }

  /** Every connection joins two notes of the first pass, and connections
      are numbered from `nextId` in order; there are at most as many
      connections as pending lines. */
  lemma {:induction false} ConnectionsShape(pending: seq<string>, notes: seq<Note>, nextId: nat, resolve: ConnectionResolver)
    requires JoiningResolver(resolve, notes)
    ensures var cs := ConnectionsOf(pending, ContentIds(notes), nextId, resolve);
            |cs| <= |pending| && JoinsNotes(cs, notes, nextId)
  {
    if pending != [] {
      var ids := ContentIds(notes);
      ConnectionsShape(pending[..|pending| - 1], notes, nextId, resolve);
      assert LastConnection(pending, ids, nextId, resolve)
          == resolve(pending[|pending| - 1], ids, nextId + |ConnectionsOf(pending[..|pending| - 1], ids, nextId, resolve)|);
    }
  }

  /** parseAIOutput's result on its input lines: notes numbered first, with layers in 1..4 and
      canonical types, then connections numbered after them that only join
      those notes. */
  lemma ParseShape(lines: seq<string>, firstId: nat)
    ensures var notes := NotesOf(lines, firstId, NoteOf);
            NumberedNotes(notes, firstId)
            && JoinsNotes(ConnectionsOf(PendingOf(lines), ContentIds(notes), firstId + |notes|, ConnectionOf),
                          notes, firstId + |notes|)
  {
    var notes := NotesOf(lines, firstId, NoteOf);
    NoteOfWellFormed();
    NotesShape(lines, firstId, NoteOf);
    ConnectionOfJoins(notes);
    ConnectionsShape(PendingOf(lines), notes, firstId + |notes|, ConnectionOf);
  }
}
