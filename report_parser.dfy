/** The report parser of src/utils/intelligentParser.ts: turns the
    markdown-like text a language model writes into headings, paragraphs,
    thematic breaks and lists, with `**bold**` runs inside paragraphs and
    list items. Its regular expressions are written out as functions. */
module ReportParser {
  import opened Common

  datatype Inline = Text(content: string) | Bold(content: string)

  datatype ListItem = ListItem(content: seq<Inline>)

  datatype ReportElement =
    | Heading(level: nat, text: string)
    | Paragraph(inlines: seq<Inline>)
    | ThematicBreak
    | List(ordered: bool, items: seq<ListItem>)

  const Stars: string := "**"

  // ---------------------------------------------------------------------
  // Inline: the global regular expression `(\*\*.+?\*\*)`

  /** A `**` marker starts at `i`. */
  predicate StarsAt(t: string, i: nat)
  {
    i + 1 < |t| && t[i] == '*' && t[i + 1] == '*'
  }

  /** The first `**` marker at or after `i`. */
  function NextStars(t: string, i: nat): (r: Option<nat>)
    ensures r.Some? ==> i <= r.value && StarsAt(t, r.value)
    decreases |t| - i
  {
    if i + 1 >= |t| then None
    else if StarsAt(t, i) then Some(i)
    else NextStars(t, i + 1)
  }

  /** NextStars finds the first marker: none lies before it, and when it
      finds none there is none at all. */
  lemma {:induction false} NextStarsFirst(t: string, i: nat)
    ensures NextStars(t, i).Some? ==> forall k | i <= k < NextStars(t, i).value :: !StarsAt(t, k)
    ensures NextStars(t, i).None? ==> forall k | i <= k :: !StarsAt(t, k)
    decreases |t| - i
  {
    if i + 1 < |t| && !StarsAt(t, i) {
      NextStarsFirst(t, i + 1);
    }
  }

  /** The closing marker of the match of `\*\*.+?\*\*` that starts at `p`:
      the lazy `.+?` stops at the first `**` at least one character on,
      and `.` refuses line terminators. */
  function CloseAt(t: string, p: nat): (r: Option<nat>)
    ensures r.Some? ==> p + 3 <= r.value && StarsAt(t, p) && StarsAt(t, r.value)
  {
    if !StarsAt(t, p) then None
    else match NextStars(t, p + 3)
      case None => None
      case Some(q) => if NoTerminator(t[p + 2..q]) then Some(q) else None
  }

  /** CloseAt is the lazy match: its body has no line terminator, no
      shorter match exists, and when it finds none, every later `**` is
      cut off by a line terminator. */
  lemma CloseAtShortest(t: string, p: nat)
    ensures CloseAt(t, p).Some? ==> NoTerminator(t[p + 2..CloseAt(t, p).value])
    ensures CloseAt(t, p).Some? ==> forall q | p + 3 <= q < CloseAt(t, p).value :: !StarsAt(t, q)
    ensures CloseAt(t, p).None? && StarsAt(t, p) ==>
              forall q | p + 3 <= q && StarsAt(t, q) :: !NoTerminator(t[p + 2..q])
  {
    NextStarsFirst(t, p + 3);
    if StarsAt(t, p) && NextStars(t, p + 3).Some? {
      var q := NextStars(t, p + 3).value;
      if !NoTerminator(t[p + 2..q]) {
        var i :| 0 <= i < q - (p + 2) && IsLineTerminator(t[p + 2..q][i]);
        forall q' | q <= q' && StarsAt(t, q') ensures !NoTerminator(t[p + 2..q']) {
          assert t[p + 2..q'][i] == t[p + 2..q][i];
        }
      }
    }
  }

  /** `regex.exec` from `from`: the leftmost match at or after it. */
  function FindBold(t: string, from: nat): (r: Option<(nat, nat)>)
    ensures r.Some? ==> from <= r.value.0 && r.value.0 + 3 <= r.value.1 && r.value.1 + 2 <= |t|
    decreases |t| - from
  {
    if from >= |t| then None
    else match CloseAt(t, from)
      case Some(q) => Some((from, q))
      case None => FindBold(t, from + 1)
  }

  /** What FindBold finds is a match: `**` at both ends, the lazy body between. */
  lemma {:induction false} FindBoldIsMatch(t: string, from: nat)
    ensures FindBold(t, from).Some? ==> CloseAt(t, FindBold(t, from).value.0) == Some(FindBold(t, from).value.1)
    decreases |t| - from
  {
    if from < |t| && CloseAt(t, from).None? {
      FindBoldIsMatch(t, from + 1);
    }
  }

  /** FindBold is the leftmost match. */
  lemma {:induction false} FindBoldLeftmost(t: string, from: nat)
    ensures FindBold(t, from).Some? ==> forall k | from <= k < FindBold(t, from).value.0 :: CloseAt(t, k).None?
    ensures FindBold(t, from).None? ==> forall k | from <= k :: CloseAt(t, k).None?
    decreases |t| - from
  {
    if from < |t| {
      var c := CloseAt(t, from);
      if c.None? {
        FindBoldLeftmost(t, from + 1);
        forall k | from <= k && (FindBold(t, from).None? || k < FindBold(t, from).value.0)
          ensures CloseAt(t, k).None?
        {
          if k > from {
            assert from + 1 <= k;
          }
        }
      }
    } else {
      forall k | from <= k ensures CloseAt(t, k).None? {
        assert !StarsAt(t, k);
      }
    }
  }

  /** What one match contributes: the text before it, if any, and the
      match without its markers. */
  function MatchPieces(t: string, from: nat, p: nat, q: nat): seq<Inline>
    requires from <= p <= p + 2 <= q <= |t|
  {
    (if p > from then [Text(t[from..p])] else []) + [Bold(t[p + 2..q])]
  }

  /** The pieces parseInline pushes from position `from` on: the text
      before each match, the match without its markers, and the rest. */
  function Segments(t: string, from: nat): (r: seq<Inline>)
    requires from <= |t|
    ensures |r| == 0 <==> from == |t|
    decreases |t| - from
  {
    match FindBold(t, from)
    case None => if from < |t| then [Text(t[from..])] else []
    case Some((p, q)) => MatchPieces(t, from, p, q) + Segments(t, q + 2)
  }

  /** The whole result of parseInline: a lone empty text for the empty input. */
  function InlineSpec(t: string): seq<Inline>
  {
    if t == [] then [Text(t)] else Segments(t, 0)
  }

  lemma SegmentsAtMatch(t: string, from: nat, p: nat, q: nat)
    requires from <= |t| && FindBold(t, from) == Some((p, q))
    ensures from <= p && p + 3 <= q && q + 2 <= |t|
    ensures Segments(t, from) == MatchPieces(t, from, p, q) + Segments(t, q + 2)
  {
    SegmentsUnfold(t, from);
  }

  lemma SegmentsUnfold(t: string, from: nat)
    requires from <= |t| && FindBold(t, from).Some?
    ensures Segments(t, from) ==
      MatchPieces(t, from, FindBold(t, from).value.0, FindBold(t, from).value.1) + Segments(t, FindBold(t, from).value.1 + 2)
  {
  }

  lemma SegmentsNoMatch(t: string, from: nat)
    requires from <= |t| && FindBold(t, from).None?
    ensures Segments(t, from) == if from < |t| then [Text(t[from..])] else []
  {
  }

  /** Every piece is non-empty, and a bold piece never spans a line terminator. */
  predicate ProperPieces(xs: seq<Inline>)
  {
    forall k | 0 <= k < |xs| :: xs[k].content != [] && (xs[k].Bold? ==> NoTerminator(xs[k].content))
  }

  lemma ProperAppend(a: seq<Inline>, b: seq<Inline>)
    requires ProperPieces(a) && ProperPieces(b)
    ensures ProperPieces(a + b)
  {
    forall k | |a| <= k < |a + b| ensures (a + b)[k] == b[k - |a|] {
    }
  }

  /** The pieces of one match are proper. */
  lemma ProperMatch(t: string, from: nat)
    requires from <= |t| && FindBold(t, from).Some?
    ensures var (p, q) := FindBold(t, from).value; ProperPieces(MatchPieces(t, from, p, q))
  {
    var (p, q) := FindBold(t, from).value;
    FindBoldIsMatch(t, from);
    CloseAtShortest(t, p);
    var pre: seq<Inline> := if p > from then [Text(t[from..p])] else [];
    assert ProperPieces([Bold(t[p + 2..q])]);
    ProperAppend(pre, [Bold(t[p + 2..q])]);
  }

  lemma {:induction false} SegmentsShape(t: string, from: nat)
    requires from <= |t|
    ensures ProperPieces(Segments(t, from))
    decreases |t| - from
  {
    match FindBold(t, from)
    case None =>
    case Some((p, q)) =>
      SegmentsAtMatch(t, from, p, q);
      ProperMatch(t, from);
      SegmentsShape(t, q + 2);
      ProperAppend(MatchPieces(t, from, p, q), Segments(t, q + 2));
  }

  /** The markdown an inline sequence stands for: bold pieces re-wrapped in `**`. */
  function Render(xs: seq<Inline>): string
  {
    if xs == [] then [] else Piece(xs[0]) + Render(xs[1..])
  }

  function Piece(x: Inline): string
  {
    match x
    case Text(c) => c
    case Bold(c) => Stars + c + Stars
  }

  lemma RenderAppend(a: seq<Inline>, b: seq<Inline>)
    ensures Render(a + b) == Render(a) + Render(b)
  {
    if a != [] {
      assert (a + b)[0] == a[0];
      assert (a + b)[1..] == a[1..] + b;
      RenderAppend(a[1..], b);
      assert Render(a + b) == Piece(a[0]) + Render(a[1..] + b);
    } else {
      assert a + b == b;
    }
  }

  lemma RenderSingle(x: Inline)
    ensures Render([x]) == Piece(x)
  {
    assert [x][1..] == [];
  }

  /** Both ends of what FindBold finds are `**` markers. */
  lemma FindBoldStars(t: string, from: nat)
    requires FindBold(t, from).Some?
    ensures StarsAt(t, FindBold(t, from).value.0) && StarsAt(t, FindBold(t, from).value.1)
  {
    FindBoldIsMatch(t, from);
  }

  /** The input around a match at `p` closing at `q`, cut into its parts. */
  lemma CutAtMatch(t: string, from: nat, p: nat, q: nat)
    requires from <= p && p + 3 <= q && StarsAt(t, p) && StarsAt(t, q)
    ensures t[from..] == t[from..p] + (Stars + t[p + 2..q] + Stars) + t[q + 2..]
  {
    assert t[p..p + 2] == Stars && t[q..q + 2] == Stars;
    assert t[from..] == t[from..p] + t[p..p + 2] + t[p + 2..q] + t[q..q + 2] + t[q + 2..];
  }

  /** Rendering a bold piece between two rendered runs. */
  lemma RenderAround(pre: seq<Inline>, c: string, rest: seq<Inline>, a: string, b: string)
    requires Render(pre) == a && Render(rest) == b
    ensures Render(pre + [Bold(c)] + rest) == a + (Stars + c + Stars) + b
  {
    RenderSingle(Bold(c));
    RenderAppend(pre + [Bold(c)], rest);
    RenderAppend(pre, [Bold(c)]);
  }

  /** The text before a match renders back to itself. */
  lemma RenderBefore(t: string, from: nat, p: nat)
    requires from <= p <= |t|
    ensures Render(if p > from then [Text(t[from..p])] else []) == t[from..p]
  {
    if p > from {
      RenderSingle(Text(t[from..p]));
    }
  }

  /** The pieces around one match render back to the input from `from` on. */
  lemma RenderCut(t: string, from: nat, p: nat, q: nat, pre: seq<Inline>, rest: seq<Inline>)
    requires from <= p && p + 3 <= q && StarsAt(t, p) && StarsAt(t, q)
    requires Render(pre) == t[from..p] && Render(rest) == t[q + 2..]
    ensures Render(pre + [Bold(t[p + 2..q])] + rest) == t[from..]
  {
    RenderAround(pre, t[p + 2..q], rest, t[from..p], t[q + 2..]);
    CutAtMatch(t, from, p, q);
  }

  /** One match rendered: the text before it, the re-wrapped bold piece and
      the rendering of the rest give back the input from `from` on. */
  lemma RenderAtMatch(t: string, from: nat, p: nat, q: nat)
    requires from <= |t| && FindBold(t, from) == Some((p, q))
    requires q + 2 <= |t| && Render(Segments(t, q + 2)) == t[q + 2..]
    ensures Render(Segments(t, from)) == t[from..]
  {
    SegmentsAtMatch(t, from, p, q);
    FindBoldStars(t, from);
    RenderBefore(t, from, p);
    RenderCut(t, from, p, q, if p > from then [Text(t[from..p])] else [], Segments(t, q + 2));
  }

  /** With no match left, the rest of the input is one text piece. */
  lemma RenderNoMatch(t: string, from: nat)
    requires from <= |t| && FindBold(t, from).None?
    ensures Render(Segments(t, from)) == t[from..]
  {
    SegmentsNoMatch(t, from);
    if from < |t| {
      RenderSingle(Text(t[from..]));
    }
  }

  lemma {:induction false} SegmentsRender(t: string, from: nat)
    requires from <= |t|
    ensures Render(Segments(t, from)) == t[from..]
    decreases |t| - from
  {
    match FindBold(t, from)
    case None => RenderNoMatch(t, from);
    case Some((p, q)) =>
      SegmentsRender(t, q + 2);
      RenderAtMatch(t, from, p, q);
  }

  /** The pieces of parseInline, bold ones re-wrapped, give back its input;
      the result is never empty. */
  lemma InlineRoundTrip(t: string)
    ensures InlineSpec(t) != []
    ensures Render(InlineSpec(t)) == t
  {
    SegmentsRender(t, 0);
  }

  /** `pushed` followed by the pieces from `from` on. */
  function PushAll(t: string, from: nat, pushed: seq<Inline>): seq<Inline>
    requires from <= |t|
    decreases |t| - from
  {
    match FindBold(t, from)
    case None => pushed + (if from < |t| then [Text(t[from..])] else [])
    case Some((p, q)) => PushAll(t, q + 2, pushed + MatchPieces(t, from, p, q))
  }

  lemma AppendAssoc<T>(a: seq<T>, b: seq<T>, c: seq<T>)
    ensures a + (b + c) == (a + b) + c
  {
  }

  lemma Regroup<T>(x: seq<T>, pushed: seq<T>, m: seq<T>, rest: seq<T>, whole: seq<T>)
    requires x == (pushed + m) + rest && whole == m + rest
    ensures x == pushed + whole
  {
  }

  lemma {:induction false} PushAllSegments(t: string, from: nat, pushed: seq<Inline>)
    requires from <= |t|
    ensures PushAll(t, from, pushed) == pushed + Segments(t, from)
    decreases |t| - from
  {
    match FindBold(t, from)
    case None =>
    case Some((p, q)) =>
      SegmentsAtMatch(t, from, p, q);
      PushAllSegments(t, q + 2, pushed + MatchPieces(t, from, p, q));
      Regroup(PushAll(t, q + 2, pushed + MatchPieces(t, from, p, q)), pushed,
              MatchPieces(t, from, p, q), Segments(t, q + 2), Segments(t, from));
  }

  /** One round of the `regex.exec` loop. */
  lemma PushAllStep(t: string, from: nat, pushed: seq<Inline>)
    requires from <= |t| && FindBold(t, from).Some?
    ensures var (p, q) := FindBold(t, from).value;
            PushAll(t, from, pushed) == PushAll(t, q + 2, pushed + MatchPieces(t, from, p, q))
  {
  }

  /** The end of parseInline: with no match left, the rest of the text and
      the fallback for an empty result give InlineSpec. */
  lemma InlineFinish(t: string, last: nat, elements: seq<Inline>)
    requires last <= |t| && FindBold(t, last).None?
    requires PushAll(t, last, elements) == PushAll(t, 0, [])
    ensures var e := elements + (if last < |t| then [Text(t[last..])] else []);
            (if e != [] then e else [Text(t)]) == InlineSpec(t)
  {
    PushAllSegments(t, 0, []);
    assert [] + Segments(t, 0) == Segments(t, 0);
  }

  /** parseInline: the `regex.exec` loop. Each match pushes the text
      before it, when there is any, and then the bold piece. */
  method ParseInline(t: string) returns (r: seq<Inline>)
    ensures r == InlineSpec(t)
  {
    ghost var whole := PushAll(t, 0, []);
    var elements: seq<Inline> := [];
    var last := 0;
    while true
      invariant 0 <= last <= |t|
      invariant PushAll(t, last, elements) == whole
      decreases |t| - last
    {
      var m := FindBold(t, last);
      if m.None? {
        break;
      }
      PushAllStep(t, last, elements);
      var (p, q) := m.value;
      elements := elements + MatchPieces(t, last, p, q);
      last := q + 2;
    }
    InlineFinish(t, last, elements);
    if last < |t| {
      elements := elements + [Text(t[last..])];
    }
    r := if elements != [] then elements else [Text(t)];
  }
  // ---------------------------------------------------------------------
  // Pre-processing

  predicate IsHexDigit(c: char)
  {
    '0' <= c <= '9' || 'a' <= c <= 'f' || 'A' <= c <= 'F'
  }

  const NodeTagOpen: string := "(노드: "

  /** The length of the longest prefix of hexadecimal digits. */
  function HexRun(s: string): (r: nat)
    ensures r <= |s| && AllChars(s[..r], IsHexDigit)
    ensures r < |s| ==> !IsHexDigit(s[r])
  {
    if s != [] && IsHexDigit(s[0]) then 1 + HexRun(s[1..]) else 0
  }

  /** The length of a `\(노드: [a-fA-F0-9]+\)` match at the start of `s`, or 0. */
  function NodeTagLength(s: string): (r: nat)
    ensures r <= |s|
    ensures r > 0 ==> StartsWith(s, NodeTagOpen) && s[r - 1] == ')'
  {
    if !StartsWith(s, NodeTagOpen) then 0
    else
      var h := HexRun(s[|NodeTagOpen|..]);
      if h > 0 && |NodeTagOpen| + h < |s| && s[|NodeTagOpen| + h] == ')' then |NodeTagOpen| + h + 1 else 0
  }

  /** `text.replace(/\(노드: [a-fA-F0-9]+\)/g, '')`. */
  function RemoveNodeTags(s: string): (r: string)
    ensures |r| <= |s|
    ensures '(' !in s ==> r == s
    decreases |s|
  {
    if s == [] then []
    else if NodeTagLength(s) > 0 then RemoveNodeTags(s[NodeTagLength(s)..])
    else [s[0]] + RemoveNodeTags(s[1..])
  }

  /** `text.replace(/\\([*`])/g, '$1')`: a backslash before `*` or a
      backquote is dropped. */
  function Unescape(s: string): (r: string)
    ensures |r| <= |s|
    ensures '\\' !in s ==> r == s
    decreases |s|
  {
    if |s| >= 2 && s[0] == '\\' && (s[1] == '*' || s[1] == '`') then [s[1]] + Unescape(s[2..])
    else if s == [] then []
    else [s[0]] + Unescape(s[1..])
  }

  /** The lines the main loop walks. */
  function Lines(text: string): seq<string>
  {
    Split(Unescape(RemoveNodeTags(text)), '\n')
  }

  // ---------------------------------------------------------------------
  // Line classification (on trimmed lines)

  function Hashes(k: nat): (r: string)
    ensures |r| == k && forall i | 0 <= i < k :: r[i] == '#'
  {
    if k == 0 then [] else Hashes(k - 1) + ['#']
  }

  /** `k` hash signs and a space: the start of a level-`k` heading. */
  function HeadingMarker(k: nat): string
  {
    Hashes(k) + [' ']
  }

  /** A line that starts with the level-`j` marker has a space at `j`, so
      it cannot start with a longer marker, which has a '#' there. */
  lemma MarkersExclusive(line: string, j: nat, k: nat)
    requires j < k
    requires StartsWith(line, HeadingMarker(j))
    ensures !StartsWith(line, HeadingMarker(k))
  {
    assert HeadingMarker(j)[j] == ' ';
    assert HeadingMarker(k)[j] == '#';
    assert line[j] == ' ';
  }

  /** The heading a `#` line gives: "#### " to "# " are tried in that
      order, and the rest of the line is trimmed. */
  function HeadingOf(line: string): (r: Option<ReportElement>)
    ensures r.Some? ==> r.value.Heading? && 1 <= r.value.level <= 4
                        && StartsWith(line, HeadingMarker(r.value.level))
                        && r.value.text == JsTrim(line[r.value.level + 1..])
  {
    if StartsWith(line, HeadingMarker(4)) then Some(Heading(4, JsTrim(line[5..])))
    else if StartsWith(line, HeadingMarker(3)) then Some(Heading(3, JsTrim(line[4..])))
    else if StartsWith(line, HeadingMarker(2)) then Some(Heading(2, JsTrim(line[3..])))
    else if StartsWith(line, HeadingMarker(1)) then Some(Heading(1, JsTrim(line[2..])))
    else None
  }

  /** A line yields a heading exactly when it starts with one to four '#'
      and a space, and the level is that number of '#'. */
  lemma HeadingLevelExact(line: string)
    ensures HeadingOf(line).Some? ==>
              forall k | 1 <= k <= 4 && StartsWith(line, HeadingMarker(k)) :: k == HeadingOf(line).value.level
    ensures HeadingOf(line).None? <==> forall k | 1 <= k <= 4 :: !StartsWith(line, HeadingMarker(k))
  {
    forall j, k | 1 <= j < k <= 4 && StartsWith(line, HeadingMarker(j))
      ensures !StartsWith(line, HeadingMarker(k))
    {
      MarkersExclusive(line, j, k);
    }
  }

  predicate AllDashes(s: string)
  {
    forall i | 0 <= i < |s| :: s[i] == '-'
  }

  predicate AllStars(s: string)
  {
    forall i | 0 <= i < |s| :: s[i] == '*'
  }

  /** `^(-{3,}|\*{3,})$`. */
  predicate IsThematicBreak(line: string)
  {
    |line| >= 3 && (AllDashes(line) || AllStars(line))
  }

  /** The length of `[-*]` or `->` at the start of `line` when whitespace
      follows (the `^([-*]|->)\s+` of an unordered item), else 0. */
  function UnorderedMarker(line: string): (r: nat)
    ensures r <= |line|
  {
    if |line| >= 2 && (line[0] == '-' || line[0] == '*') && IsJsSpace(line[1]) then 1
    else if |line| >= 3 && line[0] == '-' && line[1] == '>' && IsJsSpace(line[2]) then 2
    else 0
  }

  /** An unordered marker is `-` or `*`, or `->`, and white space follows it. */
  lemma UnorderedMarkerShape(line: string)
    ensures var r := UnorderedMarker(line);
            r <= 2 && (r > 0 ==> r < |line| && (line[0] == '-' || line[0] == '*') && IsJsSpace(line[r]))
  {
  }

  /** The length of the leading run of decimal digits. */
  function DigitRun(s: string): (r: nat)
    ensures r <= |s|
  {
    if s != [] && IsAsciiDigit(s[0]) then 1 + DigitRun(s[1..]) else 0
  }

  /** DigitRun stops at the first character that is no digit. */
  lemma {:induction false} DigitRunShape(s: string)
    ensures forall i | 0 <= i < DigitRun(s) :: IsAsciiDigit(s[i])
    ensures DigitRun(s) < |s| ==> !IsAsciiDigit(s[DigitRun(s)])
  {
    if s != [] && IsAsciiDigit(s[0]) {
      DigitRunShape(s[1..]);
      forall i | 1 <= i < DigitRun(s) ensures IsAsciiDigit(s[i]) {
        assert s[1..][i - 1] == s[i];
      }
    }
  }

  /** The length of the digits and the dot of `^(\d+)\.\s+` when whitespace
      follows, else 0. */
  function OrderedMarker(line: string): (r: nat)
    ensures r <= |line|
  {
    var d := DigitRun(line);
    if d > 0 && d + 1 < |line| && line[d] == '.' && IsJsSpace(line[d + 1]) then d + 1 else 0
  }

  /** An ordered marker is digits and a dot, and white space follows it. */
  lemma OrderedMarkerShape(line: string)
    ensures var r := OrderedMarker(line);
            r > 0 ==> 2 <= r < |line| && IsAsciiDigit(line[0]) && line[r - 1] == '.' && IsJsSpace(line[r])
  {
    DigitRunShape(line);
  }

  /** The longest prefix free of line terminators (what a greedy `.*` takes). */
  function UntilTerminator(s: string): (r: string)
    ensures |r| <= |s|
  {
    if s == [] || IsLineTerminator(s[0]) then [] else [s[0]] + UntilTerminator(s[1..])
  }

  /** UntilTerminator keeps a prefix with no line terminator, stopping only
      at one or at the end. */
  lemma {:induction false} UntilTerminatorShape(s: string)
    ensures var r := UntilTerminator(s);
            r <= s && NoTerminator(r) && (|r| < |s| ==> IsLineTerminator(s[|r|]))
  {
    if s != [] && !IsLineTerminator(s[0]) {
      UntilTerminatorShape(s[1..]);
      var r := UntilTerminator(s);
      var r' := UntilTerminator(s[1..]);
      assert r == [s[0]] + r';
      forall i | 1 <= i < |r| ensures !IsLineTerminator(r[i]) {
        assert r[i] == r'[i - 1];
      }
      if |r| < |s| {
        assert s[|r|] == s[1..][|r'|];
      }
    }
  }

  /** Group 2 of an item pattern: after the greedy `\s+`, the greedy `.*`. */
  function ItemText(afterMarker: string): string
  {
    UntilTerminator(TrimStart(afterMarker, JsSpaces))
  }

  /** The text of `line` as an item of the given kind, if it is one. */
  function ItemOf(line: string, ordered: bool): Option<string>
  {
    if ordered then (if OrderedMarker(line) > 0 then Some(ItemText(line[OrderedMarker(line)..])) else None)
    else (if UnorderedMarker(line) > 0 then Some(ItemText(line[UnorderedMarker(line)..])) else None)
  }

  /** An item line is neither blank nor a '#' line, and never a thematic
      break: the marker is followed by whitespace. */
  lemma ItemLineShape(line: string, ordered: bool)
    requires ItemOf(line, ordered).Some?
    ensures line != [] && line[0] != '#' && !IsThematicBreak(line)
  {
    UnorderedMarkerShape(line);
    OrderedMarkerShape(line);
    var m := if ordered then OrderedMarker(line) else UnorderedMarker(line);
    assert IsJsSpace(line[m]);
  }

  /** What each line is as an item of the given kind. */
  function ItemKinds(lines: seq<string>, ordered: bool): (r: seq<Option<string>>)
    ensures |r| == |lines|
  {
    if lines == [] then [] else [ItemOf(lines[0], ordered)] + ItemKinds(lines[1..], ordered)
  }

  lemma {:induction false} ItemKindAt(lines: seq<string>, ordered: bool, k: nat)
    requires k < |lines|
    ensures ItemKinds(lines, ordered)[k] == ItemOf(lines[k], ordered)
  {
    if k > 0 {
      ItemKindAt(lines[1..], ordered, k - 1);
    }
  }

  /** The leading run of item lines: the texts up to the first line that is
      no item. */
  function ItemRun(kinds: seq<Option<string>>): (r: seq<string>)
    ensures |r| <= |kinds|
    ensures |r| < |kinds| ==> kinds[|r|].None?
  {
    if kinds == [] || kinds[0].None? then [] else [kinds[0].value] + ItemRun(kinds[1..])
  }

  /** The item texts of the list that starts at `lines[0]` (trimmed lines):
      consecutive lines of the same kind, up to the first blank or
      mismatched line. */
  function ListRun(lines: seq<string>, ordered: bool): seq<string>
  {
    ItemRun(ItemKinds(lines, ordered))
  }

  /** The run holds the text of each item line in order, and it is never
      empty when the first line is an item. */
  lemma {:induction false} ItemRunIsMaximal(kinds: seq<Option<string>>)
    ensures kinds != [] && kinds[0].Some? ==> 1 <= |ItemRun(kinds)|
    ensures forall k | 0 <= k < |ItemRun(kinds)| :: kinds[k] == Some(ItemRun(kinds)[k])
  {
    if kinds != [] && kinds[0].Some? {
      var r := ItemRun(kinds);
      ItemRunIsMaximal(kinds[1..]);
      forall k | 1 <= k < |r|
        ensures kinds[k] == Some(r[k])
      {
        assert kinds[1..][k - 1] == kinds[k];
      }
    }
  }

  /** A list's items are the maximal run of lines of its kind: the list
      holds the text of each item line in order, it is never empty when the
      first line is an item, and the line after it is blank or of another
      kind. */
  lemma ListIsMaximalRun(lines: seq<string>, ordered: bool)
    ensures lines != [] && ItemOf(lines[0], ordered).Some? ==> 1 <= |ListRun(lines, ordered)|
    ensures forall k | 0 <= k < |ListRun(lines, ordered)| ::
              ItemOf(lines[k], ordered) == Some(ListRun(lines, ordered)[k])
    ensures |ListRun(lines, ordered)| < |lines| ==> ItemOf(lines[|ListRun(lines, ordered)|], ordered).None?
  {
    var r := ListRun(lines, ordered);
    ItemRunIsMaximal(ItemKinds(lines, ordered));
    forall k | 0 <= k < |r|
      ensures ItemOf(lines[k], ordered) == Some(r[k])
    {
      ItemKindAt(lines, ordered, k);
    }
    if lines != [] {
      ItemKindAt(lines, ordered, 0);
    }
    if |r| < |lines| {
      ItemKindAt(lines, ordered, |r|);
    }
  }

  // ---------------------------------------------------------------------
  // Blocks

  /** Every line trimmed, as the main loop reads them. */
  function TrimAll(lines: seq<string>): (r: seq<string>)
    ensures |r| == |lines| && forall k | 0 <= k < |lines| :: r[k] == JsTrim(lines[k])
  {
    seq(|lines|, k requires 0 <= k < |lines| => JsTrim(lines[k]))
  }

  /** An element as the line loop decides it, before the inline text of a
      paragraph or of list items is parsed. */
  datatype Block =
    | Whole(element: ReportElement)
    | ParagraphText(text: string)
    | ListTexts(ordered: bool, texts: seq<string>)

  /** The list items of the given texts, each parsed inline. */
  function Items(texts: seq<string>): (r: seq<ListItem>)
    ensures |r| == |texts|
  {
    if texts == [] then []
    else Items(texts[..|texts| - 1]) + [ListItem(InlineSpec(texts[|texts| - 1]))]
  }

  function Elaborate(b: Block): ReportElement
  {
    match b
    case Whole(e) => e
    case ParagraphText(t) => Paragraph(InlineSpec(t))
    case ListTexts(o, ts) => List(o, Items(ts))
  }

  function Elaborated(bs: seq<Block>): (r: seq<ReportElement>)
    ensures |r| == |bs|
  {
    if bs == [] then [] else Elaborated(bs[..|bs| - 1]) + [Elaborate(bs[|bs| - 1])]
  }

  /** One round of the line loop on the remaining (trimmed) lines: the
      block it adds, if any, and how many lines it consumes. */
  function NextBlock(lines: seq<string>): (r: (seq<Block>, nat))
    requires lines != []
    ensures |r.0| <= 1 <= r.1 <= |lines|
  {
    var line := lines[0];
    if line == [] then ([], 1)
    else if StartsWith(line, "#") then
      (match HeadingOf(line) case Some(h) => [Whole(h)] case None => [], 1)
    else if IsThematicBreak(line) then ([Whole(ThematicBreak)], 1)
    else if OrderedMarker(line) > 0 || UnorderedMarker(line) > 0 then
      var ordered := OrderedMarker(line) > 0;
      var texts := ListRun(lines, ordered);
      ListIsMaximalRun(lines, ordered);
      ([ListTexts(ordered, texts)], |texts|)
    else ([ParagraphText(line)], 1)
  }

  /** What the line loop decides from the remaining (trimmed) lines. */
  function Blocks(lines: seq<string>): (r: seq<Block>)
    ensures |r| <= |lines|
    decreases |lines|
  {
    if lines == [] then []
    else NextBlock(lines).0 + Blocks(lines[NextBlock(lines).1..])
  }

  /** parseIntelligent's result. */
  function Report(text: string): seq<ReportElement>
  {
    Elaborated(Blocks(TrimAll(Lines(text))))
  }

  /** The number of input lines a block stands for. */
  function LinesOf(b: Block): nat
  {
    if b.ListTexts? then |b.texts| else 1
  }

  function TotalLines(bs: seq<Block>): nat
  {
    if bs == [] then 0 else LinesOf(bs[0]) + TotalLines(bs[1..])
  }

  /** A trimmed line that yields part of an element: not blank, and not a
      '#' line that is no heading. */
  predicate Productive(line: string)
  {
    line != [] && !(StartsWith(line, "#") && HeadingOf(line).None?)
  }

  function ProductiveCount(lines: seq<string>): nat
  {
    if lines == [] then 0 else (if Productive(lines[0]) then 1 else 0) + ProductiveCount(lines[1..])
  }

  lemma TotalLinesCons(b: Block, bs: seq<Block>)
    ensures TotalLines([b] + bs) == LinesOf(b) + TotalLines(bs)
  {
    assert ([b] + bs)[1..] == bs;
  }

  lemma {:induction false} ProductiveRun(lines: seq<string>, ordered: bool, n: nat)
    requires n <= |lines|
    requires forall k | 0 <= k < n :: ItemOf(lines[k], ordered).Some?
    ensures ProductiveCount(lines) == n + ProductiveCount(lines[n..])
  {
    if n > 0 {
      ItemLineShape(lines[0], ordered);
      assert Productive(lines[0]);
      ProductiveRun(lines[1..], ordered, n - 1);
      assert lines[1..][n - 1..] == lines[n..];
    }
  }

  lemma TotalLinesAppend(a: seq<Block>, b: seq<Block>)
    requires |a| <= 1
    ensures TotalLines(a + b) == TotalLines(a) + TotalLines(b)
  {
    if a == [] {
      assert a + b == b;
    } else {
      TotalLinesCons(a[0], b);
      TotalLinesCons(a[0], []);
      assert a == [a[0]];
    }
  }

  /** The lines one round consumes hold as many productive lines as the
      block it adds stands for. */
  lemma NextBlockCount(lines: seq<string>)
    requires lines != []
    ensures TotalLines(NextBlock(lines).0) + ProductiveCount(lines[NextBlock(lines).1..]) == ProductiveCount(lines)
  {
    var line := lines[0];
    if line != [] && !StartsWith(line, "#") && !IsThematicBreak(line)
       && (OrderedMarker(line) > 0 || UnorderedMarker(line) > 0) {
      var ordered := OrderedMarker(line) > 0;
      var texts := ListRun(lines, ordered);
      ListIsMaximalRun(lines, ordered);
      ProductiveRun(lines, ordered, |texts|);
      TotalLinesCons(ListTexts(ordered, texts), []);
    } else {
      var bs := NextBlock(lines).0;
      if bs != [] {
        TotalLinesCons(bs[0], []);
        assert bs == [bs[0]];
      }
    }
  }

  /** Every productive line is consumed exactly once: the blocks account
      for exactly the non-blank lines, less the '#' lines that are no
      heading, each list item standing for its own line. */
  lemma {:induction false} BlocksConsumeEachLine(lines: seq<string>)
    ensures TotalLines(Blocks(lines)) == ProductiveCount(lines)
    decreases |lines|
  {
    if lines != [] {
      var step := NextBlock(lines);
      BlocksConsumeEachLine(lines[step.1..]);
      TotalLinesAppend(step.0, Blocks(lines[step.1..]));
      NextBlockCount(lines);
    }
  }

  lemma ItemsSnoc(texts: seq<string>, c: string)
    ensures Items(texts + [c]) == Items(texts) + [ListItem(InlineSpec(c))]
  {
    assert (texts + [c])[..|texts|] == texts;
  }

  lemma ElaboratedSingle(b: Block)
    ensures Elaborated([]) == [] && Elaborated([b]) == [Elaborate(b)]
  {
    assert [b][..0] == [];
  }

  lemma {:induction false} ElaboratedAppend(a: seq<Block>, b: seq<Block>)
    ensures Elaborated(a + b) == Elaborated(a) + Elaborated(b)
    decreases |b|
  {
    if b == [] {
      assert a + b == a;
    } else {
      var n := |b| - 1;
      ElaboratedAppend(a, b[..n]);
      assert (a + b)[..|a + b| - 1] == a + b[..n];
      assert (a + b)[|a + b| - 1] == b[n];
    }
  }

  /** The item texts the inner loop of parseIntelligent gathers from line
      `j` of the untrimmed lines on. */
  function GatheredFrom(raw: seq<string>, j: nat, ordered: bool): seq<string>
    requires j <= |raw|
    decreases |raw| - j
  {
    if j == |raw| then []
    else match ItemOf(JsTrim(raw[j]), ordered)
      case None => []
      case Some(x) => [x] + GatheredFrom(raw, j + 1, ordered)
  }

  /** Gathering from line `j` yields the list run of the trimmed lines
      from `j` on. */
  lemma {:induction false} GatheredIsListRun(raw: seq<string>, j: nat, ordered: bool)
    requires j <= |raw|
    ensures GatheredFrom(raw, j, ordered) == ListRun(TrimAll(raw)[j..], ordered)
    decreases |raw| - j
  {
    if j < |raw| {
      var lines := TrimAll(raw)[j..];
      assert lines[0] == JsTrim(raw[j]);
      assert lines[1..] == TrimAll(raw)[j + 1..];
      var kinds := ItemKinds(lines, ordered);
      assert kinds[0] == ItemOf(JsTrim(raw[j]), ordered);
      assert kinds[1..] == ItemKinds(lines[1..], ordered);
      GatheredIsListRun(raw, j + 1, ordered);
    }
  }

  /** One item gathered: the texts so far, followed by those still to
      come, stay the whole run. */
  lemma GatherStep(texts: seq<string>, x: string, rest: seq<string>, whole: seq<string>)
    requires texts + ([x] + rest) == whole
    ensures (texts + [x]) + rest == whole
  {
    AppendAssoc(texts, [x], rest);
  }

  /** The inner loop of parseIntelligent that gathers one list. */
  method GatherList(raw: seq<string>, start: nat, ordered: bool) returns (items: seq<ListItem>, next: nat)
    requires start <= |raw|
    ensures next - start == |GatheredFrom(raw, start, ordered)| && next <= |raw|
    ensures items == Items(GatheredFrom(raw, start, ordered))
  {
    ghost var whole := GatheredFrom(raw, start, ordered);
    ghost var texts: seq<string> := [];
    items := [];
    next := start;
    while next < |raw|
      invariant start <= next <= |raw|
      invariant texts + GatheredFrom(raw, next, ordered) == whole
      invariant |texts| == next - start
      invariant items == Items(texts)
    {
      var item := ItemOf(JsTrim(raw[next]), ordered);
      if item.None? {
        break;
      }
      GatherStep(texts, item.value, GatheredFrom(raw, next + 1, ordered), whole);
      var content := ParseInline(item.value);
      ItemsSnoc(texts, item.value);
      items := items + [ListItem(content)];
      texts := texts + [item.value];
      next := next + 1;
    }
    assert texts == whole;
  }

  /** One block decided: the blocks so far, followed by those of the lines
      still to come, stay the whole result. */
  lemma BlockStep(done: seq<Block>, b: seq<Block>, rest: seq<Block>, whole: seq<Block>)
    requires done + (b + rest) == whole
    ensures (done + b) + rest == whole
  {
    AppendAssoc(done, b, rest);
  }

  lemma DropDrop<T>(s: seq<T>, i: nat, n: nat)
    requires i + n <= |s|
    ensures s[i..][n..] == s[i + n..]
  {
  }

  /** One round of parseIntelligent's `while` loop at line `i`: the
      elements it pushes and the index it continues from. */
  method ParseRound(raw: seq<string>, i: nat) returns (added: seq<ReportElement>, next: nat)
    requires i < |raw|
    ensures added == Elaborated(NextBlock(TrimAll(raw)[i..]).0)
    ensures next == i + NextBlock(TrimAll(raw)[i..]).1
  {
    ghost var lines := TrimAll(raw);
    ghost var step := NextBlock(lines[i..]);
    var line := JsTrim(raw[i]);
    assert lines[i..][0] == line;
    if line == [] {
      added, next := [], i + 1;
      assert step == ([], 1);
    } else if StartsWith(line, "#") {
      var h := HeadingOf(line);
      if h.Some? {
        added := [h.value];
        assert step == ([Whole(h.value)], 1);
        ElaboratedSingle(Whole(h.value));
      } else {
        added := [];
        assert step == ([], 1);
      }
      next := i + 1;
    } else if IsThematicBreak(line) {
      added, next := [ThematicBreak], i + 1;
      assert step == ([Whole(ThematicBreak)], 1);
      ElaboratedSingle(Whole(ThematicBreak));
    } else if OrderedMarker(line) > 0 || UnorderedMarker(line) > 0 {
      var ordered := OrderedMarker(line) > 0;
      var items;
      items, next := GatherList(raw, i, ordered);
      GatheredIsListRun(raw, i, ordered);
      added := [List(ordered, items)];
      ghost var texts := ListRun(lines[i..], ordered);
      assert step == ([ListTexts(ordered, texts)], |texts|);
      ElaboratedSingle(ListTexts(ordered, texts));
    } else {
      var inlines := ParseInline(line);
      added, next := [Paragraph(inlines)], i + 1;
      assert step == ([ParagraphText(line)], 1);
      ElaboratedSingle(ParagraphText(line));
    }
  }

  lemma BlocksUnfold(lines: seq<string>)
    requires lines != []
    ensures Blocks(lines) == NextBlock(lines).0 + Blocks(lines[NextBlock(lines).1..])
  {
  }

  /** The `while` loop of parseIntelligent over the lines with index `i`. */
  method ParseLines(raw: seq<string>) returns (elements: seq<ReportElement>)
    ensures elements == Elaborated(Blocks(TrimAll(raw)))
  {
    ghost var lines := TrimAll(raw);
    ghost var whole := Blocks(lines);
    ghost var done: seq<Block> := [];
    elements := [];
    var i := 0;
    while i < |raw|
      invariant 0 <= i <= |raw| == |lines|
      invariant done + Blocks(lines[i..]) == whole
      invariant elements == Elaborated(done)
    {
      ghost var step := NextBlock(lines[i..]);
      var added, next := ParseRound(raw, i);
      BlocksUnfold(lines[i..]);
      DropDrop(lines, i, step.1);
      BlockStep(done, step.0, Blocks(lines[next..]), whole);
      ElaboratedAppend(done, step.0);
      elements := elements + added;
      done := done + step.0;
      i := next;
    }
    assert lines[i..] == [];
    assert done + [] == done;
  }

  /** parseIntelligent: the noise removal, the split into lines, and the loop. */
  method ParseIntelligent(text: string) returns (elements: seq<ReportElement>)
    ensures elements == Report(text)
  {
    var raw := Lines(text);
    elements := ParseLines(raw);
  }
}
