/** The prompt builder of backend/modules/prompt_generator.py: element ids
    are normalised to the 유형_N / 무형_N form, a spirit is looked up by id,
    and the analysis prompt is assembled line by line, with the sections
    that depend on the payload and on the spirit's element lists. */
module PromptGenerator {
  import opened Common

  // ---------------------------------------------------------------------
  // _normalize_element_id

  /** A JSON value where an element id is expected: a string, a number or
      null (any other JSON value is left out). */
  datatype IdValue = IdText(text: string) | IdNumber(n: int) | IdNull

  const Tangible: string := "유형"
  const Intangible: string := "무형"

  /** The text after `strip()` and the replacement of '-' and ' ' by '_'. */
  function Cleaned(s: string): string
  {
    ReplaceChar(ReplaceChar(PyStrip(s), '-', "_"), ' ', "_")
  }

  /** `s.replace(p, p + '_', 1)` when `s` starts with `p` but not with
      `p + '_'`: the first occurrence of `p` is then the leading one. */
  function InsertUnderscore(s: string, p: string): string
  {
    if StartsWith(s, p) && !StartsWith(s, p + "_") then p + "_" + s[|p|..] else s
  }

  /** The 유형 rule, then the 무형 rule. */
  function Prefixed(s: string): string
  {
    InsertUnderscore(InsertUnderscore(s, Tangible), Intangible)
  }

  /** What _normalize_element_id returns for a string: the cleaned and
      prefixed text with every run of underscores shortened to one, which is
      where `while '__' in s: s = s.replace('__', '_')` stops. */
  function NormalizedText(s: string): string
  {
    SqueezeUnderscores(Prefixed(Cleaned(s)), false)
  }

  function NormalizedId(eid: IdValue): IdValue
  {
    if eid.IdText? then IdText(NormalizedText(eid.text)) else eid
  }

  /** _normalize_element_id: strings are cleaned, prefixed and squeezed by
      the source's loop; other values are returned unchanged. */
  method NormalizeElementId(eid: IdValue) returns (r: IdValue)
    ensures !eid.IdText? ==> r == eid
    ensures eid.IdText? ==> r == IdText(NormalizedText(eid.text))
  {
    if !eid.IdText? {
      return eid;
    }
    var s := ReplaceChar(ReplaceChar(PyStrip(eid.text), '-', "_"), ' ', "_");
    if StartsWith(s, Tangible) && !StartsWith(s, Tangible + "_") {
      s := Tangible + "_" + s[|Tangible|..];
    }
    if StartsWith(s, Intangible) && !StartsWith(s, Intangible + "_") {
      s := Intangible + "_" + s[|Intangible|..];
    }
    ghost var prefixed := s;
    while Contains(s, "__")
      invariant SqueezeUnderscores(s, false) == SqueezeUnderscores(prefixed, false)
      decreases |s|
    {
      SqueezeAfterReplace(s, false);
      ReplaceShortens(s, "__", "_");
      s := ReplaceAll(s, "__", "_");
    }
    NoDoubleIffNotContains(s);
    SqueezeKeeps(s, false);
    r := IdText(s);
  }

  /** A normalised id has no '-', no ' ' and no "__". */
  lemma NormalizedShape(s: string)
    ensures var r := NormalizedText(s);
            '-' !in r && ' ' !in r && !Contains(r, "__")
  {
    var c := Cleaned(s);
    assert '-' !in c && ' ' !in c;
    var p := Prefixed(c);
    assert forall x | x in p :: x in c || x in Tangible + "_" || x in Intangible + "_";
    NoDoubleIffNotContains(NormalizedText(s));
  }

  /** Squeezing a prefix `p` + "_" whose `p` holds no underscore keeps it. */
  lemma SqueezePrefix(p: string, rest: string)
    requires '_' !in p
    ensures StartsWith(SqueezeUnderscores(p + "_" + rest, false), p + "_")
  {
    var head := p + "_";
    assert NoDoubleUnderscore(head) by {
      forall i | 0 <= i < |head| - 1 ensures head[i] != '_' {
        assert head[i] == p[i];
      }
    }
    SqueezeKeeps(head, false);
    SqueezeAppend(head, rest, false);
  }

  /** A 유형 or 무형 prefix comes out as 유형_ or 무형_. */
  lemma PrefixGetsUnderscore(s: string)
    ensures StartsWith(Cleaned(s), Tangible) ==> StartsWith(NormalizedText(s), Tangible + "_")
    ensures StartsWith(Cleaned(s), Intangible) ==> StartsWith(NormalizedText(s), Intangible + "_")
  {
    var c := Cleaned(s);
    if StartsWith(c, Tangible) {
      var t := InsertUnderscore(c, Tangible);
      assert StartsWith(t, Tangible + "_") && t[0] != Intangible[0];
      assert t == Tangible + "_" + t[3..];
      SqueezePrefix(Tangible, t[3..]);
    } else if StartsWith(c, Intangible) {
      var t := InsertUnderscore(c, Intangible);
      assert InsertUnderscore(c, Tangible) == c;
      assert t == Intangible + "_" + t[3..];
      SqueezePrefix(Intangible, t[3..]);
    }
  }

  /** `p` + `sep` + `digits` for a 유형/무형 prefix, a separator among
      nothing, ' ', '-' and '_', and decimal digits. */
  predicate SpelledId(s: string, p: string, sep: string, digits: string)
  {
    (p == Tangible || p == Intangible)
    && (sep == "" || sep == " " || sep == "-" || sep == "_")
    && digits != [] && AllChars(digits, IsAsciiDigit)
    && s == p + sep + digits
  }

  /** Stripping leaves such a spelling alone: it starts with a syllable
      and ends with a digit. */
  lemma SpelledStripped(s: string, p: string, sep: string, digits: string)
    requires SpelledId(s, p, sep, digits)
    ensures PyStrip(s) == s
  {
    assert s[0] == p[0];
    assert s[|s| - 1] == digits[|digits| - 1];
    TrimKeeps(s, PySpaces);
  }

  /** Replacing '-' and ' ' by '_' turns the separator into "" or "_". */
  lemma SpelledCleaned(s: string, p: string, sep: string, digits: string)
    requires SpelledId(s, p, sep, digits)
    ensures Cleaned(s) == p + (if sep == "" then "" else "_") + digits
  {
    SpelledStripped(s, p, sep, digits);
    assert '-' !in p && ' ' !in p;
    assert '-' !in digits && ' ' !in digits by {
      forall i | 0 <= i < |digits| ensures digits[i] != '-' && digits[i] != ' ' {
        assert IsAsciiDigit(digits[i]);
      }
    }
    var sep1 := ReplaceChar(sep, '-', "_");
    ReplaceInMiddle(p, sep, digits, '-', "_");
    ReplaceInMiddle(p, sep1, digits, ' ', "_");
    SeparatorCleaned(sep);
  }

  lemma SeparatorCleaned(sep: string)
    requires sep == "" || sep == " " || sep == "-" || sep == "_"
    ensures ReplaceChar(ReplaceChar(sep, '-', "_"), ' ', "_") == (if sep == "" then "" else "_")
  {
  }

  /** ReplaceChar changes only the middle of a text whose ends lack `a`. */
  lemma ReplaceInMiddle(x: string, mid: string, y: string, a: char, b: string)
    requires a !in x && a !in y
    ensures ReplaceChar(x + mid + y, a, b) == x + ReplaceChar(mid, a, b) + y
  {
    ReplaceCharAbsent(x, a, b);
    ReplaceCharAbsent(y, a, b);
    ReplaceCharAppend(x + mid, y, a, b);
    ReplaceCharAppend(x, mid, a, b);
  }

  /** The prefix rules give `p` + "_" + digits. */
  lemma SpelledPrefixed(p: string, under: string, digits: string)
    requires p == Tangible || p == Intangible
    requires under == "" || under == "_"
    requires digits != [] && AllChars(digits, IsAsciiDigit)
    ensures Prefixed(p + under + digits) == p + "_" + digits
  {
    var s := p + under + digits;
    var t := p + "_" + digits;
    assert digits[0] != '_' by {
      assert IsAsciiDigit(digits[0]);
    }
    assert s[..2] == p && s[2..] == under + digits;
    assert StartsWith(t, p + "_") by {
      assert t[..3] == p + "_";
    }
    if p == Tangible {
      assert InsertUnderscore(s, Tangible) == t;
      assert t[0] != Intangible[0];
    } else {
      assert s[0] != Tangible[0];
      assert InsertUnderscore(s, Tangible) == s;
      assert InsertUnderscore(s, Intangible) == t;
    }
  }

  /** "유형_7" has no adjacent underscores. */
  lemma CanonicalNoDouble(p: string, digits: string)
    requires p == Tangible || p == Intangible
    requires AllChars(digits, IsAsciiDigit)
    ensures NoDoubleUnderscore(p + "_" + digits)
  {
    var s := p + "_" + digits;
    forall i | 0 <= i < |s| - 1 ensures !(s[i] == '_' && s[i + 1] == '_') {
      if i >= 2 {
        assert s[i + 1] == digits[i - 2];
        assert IsAsciiDigit(digits[i - 2]);
      } else {
        assert s[i] == p[i];
      }
    }
  }

  /** The spellings 유형1, 무형 4, 유형-2 and 유형_5 all come out in the
      form 유형_N / 무형_N with the same digits; in particular an id
      already of that form is returned unchanged. */
  lemma SpelledNormalized(s: string, p: string, sep: string, digits: string)
    requires SpelledId(s, p, sep, digits)
    ensures NormalizedText(s) == p + "_" + digits
  {
    SpelledCleaned(s, p, sep, digits);
    SpelledPrefixed(p, if sep == "" then "" else "_", digits);
    CanonicalNoDouble(p, digits);
    SqueezeKeeps(p + "_" + digits, false);
  }

  // ---------------------------------------------------------------------
  // get_spirit_by_id

  /** An element of a spirit: its id (a missing id reads as "") and name. */
  datatype Element = Element(id: IdValue, name: string)

  /** A spirit of the bundled data. A missing name or description reads as
      "", a missing or empty element list as []. */
  datatype Spirit = Spirit(id: Option<string>, name: string, description: string,
                           tangible: seq<Element>, intangible: seq<Element>)

  /** get_spirit_by_id: the first spirit whose id equals `spiritId`. */
  method GetSpiritById(spirits: seq<Spirit>, spiritId: string) returns (r: Option<Spirit>)
    ensures r.None? <==> forall i | 0 <= i < |spirits| :: spirits[i].id != Some(spiritId)
    ensures r.Some? ==> exists i | 0 <= i < |spirits| ::
              spirits[i] == r.value && spirits[i].id == Some(spiritId)
              && forall j | 0 <= j < i :: spirits[j].id != Some(spiritId)
  {
    for i := 0 to |spirits|
      invariant forall j | 0 <= j < i :: spirits[j].id != Some(spiritId)
    {
      if spirits[i].id == Some(spiritId) {
        return Some(spirits[i]);
      }
    }
    return None;
  }

  // ---------------------------------------------------------------------
  // build_prompt

  /** A payload field: absent, JSON null, or a string. */
  datatype Field = Absent | Null | Text(s: string)

  datatype Payload = Payload(activityName: Field, coreText: Field, teamLeaderObservation: Field,
                             outcomes: Field, outputs: Field, factors: Field, keyLearning: Field)

  /** `(payload.get(k) or "").strip()`. */
  function FieldText(f: Field): string
  {
    if f.Text? then PyStrip(f.s) else ""
  }

  datatype DetailKind = Outcomes | Outputs | Factors | KeyLearning

  /** The lines of the prompt. Lines that carry a value hold it; each fixed
      block of wording is one constructor. */
  datatype Line =
    | Blank
    | Goal
    | TargetHeading          // [분석 대상 활동]
    | DetailHeading          // [Change Agent 활동 상세 정보]
    | DefinitionHeading      // [동암정신 정의]
    | ElementsHeading        // [분석 대상 요소 - 유형/무형 요소만]
    | InstructionsHeading    // [분석 지시사항]
    | OutputHeading          // [출력 형식]
    | MappingHeading         // [JSON 스키마 - 정확한 element_id 매핑 필수]
    | SchemaHeading          // [JSON 스키마]
    | ActivityName(name: string)
    | CoreActivity(text: string)
    | LeaderObservation(text: string)
    | Detail(kind: DetailKind, text: string)
    | SpiritName(name: string)
    | SpiritDescription(description: string)
    | ElementsIntro
    | TangibleHeading
    | TangibleFallback
    | IntangibleHeading
    | IntangibleFallback
    | ElementName(name: string)
    | CaInstructions
    | LeaderInstructions
    | EfficacyInstructions
    | OutputRules
    | MappingIntro
    | Mapping(elementId: string, name: string)
    | TangibleMappingFallback
    | IntangibleMappingFallback
    | Schema

  /** Python's `str()` of an id in an f-string. */
  function IdString(v: IdValue): string
  {
    match v
    case IdText(t) => t
    case IdNumber(n) => if n < 0 then "-" + NatToString(-n) else NatToString(n)
    case IdNull => "None"
  }

  /** `- {name}` for each element, in order. */
  function NameLines(es: seq<Element>): (r: seq<Line>)
    ensures |r| == |es|
  {
    if es == [] then [] else NameLines(es[..|es| - 1]) + [ElementName(es[|es| - 1].name)]
  }

  /** `{normalised id}: {name}` for each element, in order. */
  function MappingLines(es: seq<Element>, norm: IdValue -> IdValue): (r: seq<Line>)
    ensures |r| == |es|
  {
    if es == [] then [] else MappingLines(es[..|es| - 1], norm) + [Mapping(IdString(norm(es[|es| - 1].id)), es[|es| - 1].name)]
  }

  /** The k-th name line names the k-th element. */
  lemma {:induction false} NameLinesAt(es: seq<Element>)
    ensures forall k | 0 <= k < |es| :: NameLines(es)[k] == ElementName(es[k].name)
  {
    if es != [] {
      NameLinesAt(es[..|es| - 1]);
    }
  }

  /** The k-th mapping line maps the k-th element's normalised id to its
      name. */
  lemma {:induction false} MappingLinesAt(es: seq<Element>, norm: IdValue -> IdValue)
    ensures forall k | 0 <= k < |es| :: MappingLines(es, norm)[k] == Mapping(IdString(norm(es[k].id)), es[k].name)
  {
    if es != [] {
      MappingLinesAt(es[..|es| - 1], norm);
    }
  }

  function Optional(present: bool, line: Line): seq<Line>
  {
    if present then [line] else []
  }

  /** [분석 대상 활동]: the activity name when non-empty, the CA's own
      activity, and the leader observation when non-empty. */
  function TargetSection(activity: string, core: string, leader: string): seq<Line>
  {
    [Goal, Blank, TargetHeading]
    + Optional(activity != "", ActivityName(activity))
    + [CoreActivity(core)]
    + Optional(leader != "", LeaderObservation(leader))
    + [Blank]
  }

  /** The detail section, present when any detail field is non-empty. */
  function DetailSection(outcomes: string, outputs: string, factors: string, keyLearning: string): seq<Line>
  {
    if outcomes == "" && outputs == "" && factors == "" && keyLearning == "" then []
    else
      [DetailHeading]
      + Optional(outcomes != "", Detail(Outcomes, outcomes))
      + Optional(outputs != "", Detail(Outputs, outputs))
      + Optional(factors != "", Detail(Factors, factors))
      + Optional(keyLearning != "", Detail(KeyLearning, keyLearning))
      + [Blank]
  }

  /** The spirit's definition and its element lists, or the fixed lists
      when the spirit has none. */
  function SpiritSection(s: Spirit): seq<Line>
  {
    [DefinitionHeading, SpiritName(s.name), SpiritDescription(s.description), Blank,
     ElementsHeading, ElementsIntro, Blank]
    + (if s.tangible != [] then [TangibleHeading] + NameLines(s.tangible) else [TangibleFallback])
    + [Blank]
    + (if s.intangible != [] then [IntangibleHeading] + NameLines(s.intangible) else [IntangibleFallback])
    + [Blank]
  }

  /** The instructions, with the leader part only when there is an
      observation, and the output rules. */
  function InstructionSection(leader: bool): seq<Line>
  {
    [InstructionsHeading, CaInstructions]
    + Optional(leader, LeaderInstructions)
    + [EfficacyInstructions, Blank, OutputHeading, OutputRules, Blank,
       MappingHeading, MappingIntro]
  }

  /** The element-id mapping, or the fixed mappings, then the schema. */
  function MappingSection(s: Spirit): seq<Line>
  {
    (if s.tangible != [] then MappingLines(s.tangible, NormalizedId) else [TangibleMappingFallback])
    + (if s.intangible != [] then MappingLines(s.intangible, NormalizedId) else [IntangibleMappingFallback])
    + [Blank, SchemaHeading, Schema]
  }

  /** The payload's fields after `.strip()`. */
  datatype Texts = Texts(activity: string, core: string, leader: string,
                         outcomes: string, outputs: string, factors: string, keyLearning: string)

  function Stripped(p: Payload): Texts
  {
    Texts(FieldText(p.activityName), FieldText(p.coreText), FieldText(p.teamLeaderObservation),
          FieldText(p.outcomes), FieldText(p.outputs), FieldText(p.factors), FieldText(p.keyLearning))
  }

  /** The lines of the prompt for the stripped payload fields. */
  function PromptLines(t: Texts, s: Spirit): seq<Line>
  {
    TargetSection(t.activity, t.core, t.leader)
    + DetailSection(t.outcomes, t.outputs, t.factors, t.keyLearning)
    + SpiritSection(s)
    + InstructionSection(t.leader != "")
    + MappingSection(s)
  }

  // Properties of the prompt

  /** Name lines and mapping lines are nothing else. */
  lemma ElementLinesOnly(es: seq<Element>)
    ensures forall l | l in NameLines(es) :: l.ElementName?
    ensures forall l | l in MappingLines(es, NormalizedId) :: l.Mapping?
  {
    NameLinesAt(es);
    MappingLinesAt(es, NormalizedId);
  }

  /** What each section can hold. */
  lemma TargetMembers(activity: string, core: string, leader: string, x: Line)
    ensures x in TargetSection(activity, core, leader)
            <==> x == Goal || x == Blank || x == TargetHeading
                 || (activity != "" && x == ActivityName(activity)) || x == CoreActivity(core)
                 || (leader != "" && x == LeaderObservation(leader))
  {
  }

  lemma DetailMembers(o: string, u: string, f: string, k: string, x: Line)
    ensures x in DetailSection(o, u, f, k)
            <==> (o != "" || u != "" || f != "" || k != "")
                 && (x == DetailHeading || x == Blank
                     || (o != "" && x == Detail(Outcomes, o)) || (u != "" && x == Detail(Outputs, u))
                     || (f != "" && x == Detail(Factors, f)) || (k != "" && x == Detail(KeyLearning, k)))
  {
  }

  lemma SpiritMembers(s: Spirit, x: Line)
    ensures x in SpiritSection(s)
            <==> x == DefinitionHeading || x == SpiritName(s.name) || x == SpiritDescription(s.description)
                 || x == Blank || x == ElementsHeading || x == ElementsIntro
                 || (s.tangible != [] && (x == TangibleHeading || x in NameLines(s.tangible)))
                 || (s.tangible == [] && x == TangibleFallback)
                 || (s.intangible != [] && (x == IntangibleHeading || x in NameLines(s.intangible)))
                 || (s.intangible == [] && x == IntangibleFallback)
  {
  }

  lemma InstructionMembers(leader: bool, x: Line)
    ensures x in InstructionSection(leader)
            <==> x == InstructionsHeading || x == CaInstructions || (leader && x == LeaderInstructions)
                 || x == EfficacyInstructions || x == Blank || x == OutputHeading || x == OutputRules
                 || x == MappingHeading || x == MappingIntro
  {
  }

  lemma MappingMembers(s: Spirit, x: Line)
    ensures x in MappingSection(s)
            <==> (s.tangible != [] && x in MappingLines(s.tangible, NormalizedId))
                 || (s.tangible == [] && x == TangibleMappingFallback)
                 || (s.intangible != [] && x in MappingLines(s.intangible, NormalizedId))
                 || (s.intangible == [] && x == IntangibleMappingFallback)
                 || x == Blank || x == SchemaHeading || x == Schema
  {
  }

  /** All that is known of a line of the prompt, section by section. */
  lemma Members(t: Texts, s: Spirit, x: Line)
    ensures var leader := t.leader;
            x in PromptLines(t, s)
            <==> x in TargetSection(t.activity, t.core, leader)
                 || x in DetailSection(t.outcomes, t.outputs, t.factors, t.keyLearning)
                 || x in SpiritSection(s) || x in InstructionSection(leader != "") || x in MappingSection(s)
    ensures x in NameLines(s.tangible) ==> x.ElementName?
    ensures x in NameLines(s.intangible) ==> x.ElementName?
    ensures x in MappingLines(s.tangible, NormalizedId) ==> x.Mapping?
    ensures x in MappingLines(s.intangible, NormalizedId) ==> x.Mapping?
  {
    ElementLinesOnly(s.tangible);
    ElementLinesOnly(s.intangible);
  }

  /** The leader lines come from the target and instruction sections
      only. */
  lemma OnlyInTargetOrInstructions(t: Texts, s: Spirit, x: Line)
    requires x == LeaderInstructions || x.LeaderObservation?
    ensures x in PromptLines(t, s) <==> x in TargetSection(t.activity, t.core, t.leader) || x in InstructionSection(t.leader != "")
  {
    Members(t, s, x);
    DetailMembers(t.outcomes, t.outputs, t.factors, t.keyLearning, x);
    SpiritMembers(s, x);
    MappingMembers(s, x);
  }

  /** The leader observation line and the leader instructions appear
      exactly when the stripped observation is non-empty, and the line holds
      that observation. */
  lemma LeaderLinesIff(t: Texts, s: Spirit)
    ensures var lines := PromptLines(t, s);
            (LeaderInstructions in lines <==> t.leader != "")
            && (LeaderObservation(t.leader) in lines <==> t.leader != "")
            && (forall text :: LeaderObservation(text) in lines ==> text == t.leader)
  {
    OnlyInTargetOrInstructions(t, s, LeaderInstructions);
    TargetMembers(t.activity, t.core, t.leader, LeaderInstructions);
    InstructionMembers(t.leader != "", LeaderInstructions);
    OnlyInTargetOrInstructions(t, s, LeaderObservation(t.leader));
    TargetMembers(t.activity, t.core, t.leader, LeaderObservation(t.leader));
    InstructionMembers(t.leader != "", LeaderObservation(t.leader));
    forall text | LeaderObservation(text) in PromptLines(t, s)
      ensures text == t.leader
    {
      OnlyInTargetOrInstructions(t, s, LeaderObservation(text));
      TargetMembers(t.activity, t.core, t.leader, LeaderObservation(text));
      InstructionMembers(t.leader != "", LeaderObservation(text));
    }
  }

  /** The activity-name line appears exactly when the stripped activity
      name is non-empty, and it holds that name. */
  lemma ActivityNameIff(t: Texts, s: Spirit)
    ensures var lines := PromptLines(t, s);
            (ActivityName(t.activity) in lines <==> t.activity != "")
            && (forall text :: ActivityName(text) in lines ==> text == t.activity)
  {
    forall text
      ensures ActivityName(text) in PromptLines(t, s) <==> t.activity != "" && text == t.activity
    {
      var x := ActivityName(text);
      Members(t, s, x);
      TargetMembers(t.activity, t.core, t.leader, x);
      DetailMembers(t.outcomes, t.outputs, t.factors, t.keyLearning, x);
      SpiritMembers(s, x);
      InstructionMembers(t.leader != "", x);
      MappingMembers(s, x);
    }
  }

  /** The detail heading and detail lines come from the detail section
      only. */
  lemma OnlyInDetail(t: Texts, s: Spirit, x: Line)
    requires x == DetailHeading || x.Detail?
    ensures x in PromptLines(t, s) <==> x in DetailSection(t.outcomes, t.outputs, t.factors, t.keyLearning)
  {
    Members(t, s, x);
    TargetMembers(t.activity, t.core, t.leader, x);
    SpiritMembers(s, x);
    InstructionMembers(t.leader != "", x);
    MappingMembers(s, x);
  }

  /** The detail section appears exactly when some detail field is
      non-empty after strip, and it lists exactly the non-empty ones. */
  lemma DetailSectionIff(t: Texts, s: Spirit)
    ensures var lines := PromptLines(t, s);
            (DetailHeading in lines <==> t.outcomes != "" || t.outputs != "" || t.factors != "" || t.keyLearning != "")
            && (Detail(Outcomes, t.outcomes) in lines <==> t.outcomes != "")
            && (Detail(Outputs, t.outputs) in lines <==> t.outputs != "")
            && (Detail(Factors, t.factors) in lines <==> t.factors != "")
            && (Detail(KeyLearning, t.keyLearning) in lines <==> t.keyLearning != "")
            && (forall kind, text :: Detail(kind, text) in lines ==> text != "")
  {
    var o, u, f, k := t.outcomes, t.outputs, t.factors, t.keyLearning;
    OnlyInDetail(t, s, DetailHeading);
    DetailMembers(o, u, f, k, DetailHeading);
    OnlyInDetail(t, s, Detail(Outcomes, o));
    DetailMembers(o, u, f, k, Detail(Outcomes, o));
    OnlyInDetail(t, s, Detail(Outputs, u));
    DetailMembers(o, u, f, k, Detail(Outputs, u));
    OnlyInDetail(t, s, Detail(Factors, f));
    DetailMembers(o, u, f, k, Detail(Factors, f));
    OnlyInDetail(t, s, Detail(KeyLearning, k));
    DetailMembers(o, u, f, k, Detail(KeyLearning, k));
    forall kind, text | Detail(kind, text) in PromptLines(t, s)
      ensures text != ""
    {
      OnlyInDetail(t, s, Detail(kind, text));
      DetailMembers(o, u, f, k, Detail(kind, text));
    }
  }

  /** The fallback lines come from the spirit and mapping sections only. */
  lemma OnlyInSpiritOrMapping(t: Texts, s: Spirit, x: Line)
    requires x == TangibleFallback || x == TangibleMappingFallback || x == IntangibleFallback || x == IntangibleMappingFallback
    ensures x in PromptLines(t, s) <==> x in SpiritSection(s) || x in MappingSection(s)
  {
    Members(t, s, x);
    TargetMembers(t.activity, t.core, t.leader, x);
    DetailMembers(t.outcomes, t.outputs, t.factors, t.keyLearning, x);
    InstructionMembers(t.leader != "", x);
  }

  /** One fallback line is in the prompt when its kind of element list is
      empty. */
  lemma FallbackLine(t: Texts, s: Spirit, x: Line)
    requires x == TangibleFallback || x == TangibleMappingFallback || x == IntangibleFallback || x == IntangibleMappingFallback
    ensures x in PromptLines(t, s)
            <==> if x == TangibleFallback || x == TangibleMappingFallback then s.tangible == [] else s.intangible == []
  {
    ElementLinesOnly(s.tangible);
    ElementLinesOnly(s.intangible);
    OnlyInSpiritOrMapping(t, s, x);
    SpiritMembers(s, x);
    MappingMembers(s, x);
  }

  /** The fixed element lists and mappings stand in exactly when the
      spirit has no elements of that kind. */
  lemma FallbackIff(t: Texts, s: Spirit)
    ensures var lines := PromptLines(t, s);
            (TangibleFallback in lines <==> s.tangible == [])
            && (TangibleMappingFallback in lines <==> s.tangible == [])
            && (IntangibleFallback in lines <==> s.intangible == [])
            && (IntangibleMappingFallback in lines <==> s.intangible == [])
  {
    FallbackLine(t, s, TangibleFallback);
    FallbackLine(t, s, TangibleMappingFallback);
    FallbackLine(t, s, IntangibleFallback);
    FallbackLine(t, s, IntangibleMappingFallback);
  }

  /** Mapping lines come from the element lists only. */
  lemma OnlyInMappings(t: Texts, s: Spirit, x: Line)
    requires x.Mapping?
    ensures x in PromptLines(t, s)
            <==> x in MappingLines(s.tangible, NormalizedId) || x in MappingLines(s.intangible, NormalizedId)
  {
    Members(t, s, x);
    TargetMembers(t.activity, t.core, t.leader, x);
    DetailMembers(t.outcomes, t.outputs, t.factors, t.keyLearning, x);
    SpiritMembers(s, x);
    InstructionMembers(t.leader != "", x);
    MappingMembers(s, x);
  }

  /** The mapping line of one element, for an id normaliser `norm`. */
  function MappingOf(e: Element, norm: IdValue -> IdValue): Line
  {
    Mapping(IdString(norm(e.id)), e.name)
  }

  /** The mapping lines of two element lists are those of their elements. */
  lemma MappingLinesOfElements(ts: seq<Element>, us: seq<Element>, norm: IdValue -> IdValue)
    ensures forall e | e in ts + us :: MappingOf(e, norm) in MappingLines(ts, norm) + MappingLines(us, norm)
    ensures forall m | m in MappingLines(ts, norm) + MappingLines(us, norm) :: exists e | e in ts + us :: m == MappingOf(e, norm)
  {
    MappingLinesAt(ts, norm);
    MappingLinesAt(us, norm);
    forall e | e in ts + us
      ensures MappingOf(e, norm) in MappingLines(ts, norm) + MappingLines(us, norm)
    {
      if e in ts {
        var i :| 0 <= i < |ts| && ts[i] == e;
        assert MappingLines(ts, norm)[i] == MappingOf(e, norm);
      } else {
        var i :| 0 <= i < |us| && us[i] == e;
        assert MappingLines(us, norm)[i] == MappingOf(e, norm);
      }
    }
    forall m | m in MappingLines(ts, norm) + MappingLines(us, norm)
      ensures exists e | e in ts + us :: m == MappingOf(e, norm)
    {
      if m in MappingLines(ts, norm) {
        var i :| 0 <= i < |ts| && MappingLines(ts, norm)[i] == m;
        assert ts[i] in ts + us;
      } else {
        var i :| 0 <= i < |us| && MappingLines(us, norm)[i] == m;
        assert us[i] in ts + us;
      }
    }
  }

  /** Every element of the spirit gets a mapping line with its normalised
      id, and every mapping line comes from an element. */
  lemma MappingsFromElements(t: Texts, s: Spirit)
    ensures var lines := PromptLines(t, s);
            (forall e | e in s.tangible + s.intangible :: MappingOf(e, NormalizedId) in lines)
            && (forall m | m in lines && m.Mapping? :: exists e | e in s.tangible + s.intangible :: m == MappingOf(e, NormalizedId))
  {
    var both := MappingLines(s.tangible, NormalizedId) + MappingLines(s.intangible, NormalizedId);
    MappingLinesOfElements(s.tangible, s.intangible, NormalizedId);
    forall m: Line | m.Mapping?
      ensures m in PromptLines(t, s) <==> m in both
    {
      OnlyInMappings(t, s, m);
    }
    ElementLinesOnly(s.tangible);
    ElementLinesOnly(s.intangible);
  }

  /** The mapping line of an element with a text id carries that id
      normalised: no '-', no ' ' and no "__". */
  lemma MappingIdNormalized(e: Element)
    requires e.id.IdText?
    ensures var m := MappingOf(e, NormalizedId);
            m.elementId == NormalizedText(e.id.text)
            && '-' !in m.elementId && ' ' !in m.elementId && !Contains(m.elementId, "__")
  {
    NormalizedShape(e.id.text);
  }

  /** `for element in es: lines.append(f"- {element['name']}")`. */
  method AppendNames(lines: seq<Line>, es: seq<Element>) returns (out: seq<Line>)
    ensures out == lines + NameLines(es)
  {
    out := lines;
    for i := 0 to |es|
      invariant out == lines + NameLines(es[..i])
    {
      assert es[..i + 1][..i] == es[..i];
      out := out + [ElementName(es[i].name)];
    }
    assert es[..|es|] == es;
  }

  /** The mapping loop: each element's id normalised, then its name. */
  method AppendMappings(lines: seq<Line>, es: seq<Element>) returns (out: seq<Line>)
    ensures out == lines + MappingLines(es, NormalizedId)
  {
    out := lines;
    for i := 0 to |es|
      invariant out == lines + MappingLines(es[..i], NormalizedId)
    {
      assert es[..i + 1][..i] == es[..i];
      var eid := NormalizeElementId(es[i].id);
      out := out + [Mapping(IdString(eid), es[i].name)];
    }
    assert es[..|es|] == es;
  }

  /** The detail block of build_prompt. */
  method AppendDetails(lines: seq<Line>, outcomes: string, outputs: string, factors: string, keyLearning: string)
    returns (out: seq<Line>)
    ensures out == lines + DetailSection(outcomes, outputs, factors, keyLearning)
  {
    var section: seq<Line> := [];
    if outcomes != "" || outputs != "" || factors != "" || keyLearning != "" {
      section := [DetailHeading];
      if outcomes != "" {
        section := section + [Detail(Outcomes, outcomes)];
      }
      assert section == [DetailHeading] + Optional(outcomes != "", Detail(Outcomes, outcomes));
      ghost var s1 := section;
      if outputs != "" {
        section := section + [Detail(Outputs, outputs)];
      }
      assert section == s1 + Optional(outputs != "", Detail(Outputs, outputs));
      ghost var s2 := section;
      if factors != "" {
        section := section + [Detail(Factors, factors)];
      }
      assert section == s2 + Optional(factors != "", Detail(Factors, factors));
      ghost var s3 := section;
      if keyLearning != "" {
        section := section + [Detail(KeyLearning, keyLearning)];
      }
      assert section == s3 + Optional(keyLearning != "", Detail(KeyLearning, keyLearning));
      section := section + [Blank];
    }
    out := lines + section;
  }

  /** The definition of the spirit and its element lists. */
  method AppendSpirit(lines: seq<Line>, s: Spirit) returns (out: seq<Line>)
    ensures out == lines + SpiritSection(s)
  {
    var section: seq<Line> := [DefinitionHeading, SpiritName(s.name), SpiritDescription(s.description), Blank,
                               ElementsHeading, ElementsIntro, Blank];
    ghost var head := section;
    if s.tangible != [] {
      section := AppendNames(section + [TangibleHeading], s.tangible);
    } else {
      section := section + [TangibleFallback];
    }
    assert section == head + (if s.tangible != [] then [TangibleHeading] + NameLines(s.tangible) else [TangibleFallback]);
    section := section + [Blank];
    ghost var middle := section;
    if s.intangible != [] {
      section := AppendNames(section + [IntangibleHeading], s.intangible);
    } else {
      section := section + [IntangibleFallback];
    }
    assert section == middle + (if s.intangible != [] then [IntangibleHeading] + NameLines(s.intangible) else [IntangibleFallback]);
    section := section + [Blank];
    out := lines + section;
  }

  /** The instructions and output rules. */
  method AppendInstructions(lines: seq<Line>, hasLeader: bool) returns (out: seq<Line>)
    ensures out == lines + InstructionSection(hasLeader)
  {
    var section: seq<Line> := [InstructionsHeading, CaInstructions];
    if hasLeader {
      section := section + [LeaderInstructions];
    }
    section := section + [EfficacyInstructions, Blank, OutputHeading, OutputRules, Blank,
                          MappingHeading, MappingIntro];
    out := lines + section;
  }

  /** The element-id mapping and the schema. */
  method AppendMappingSection(lines: seq<Line>, s: Spirit) returns (out: seq<Line>)
    ensures out == lines + MappingSection(s)
  {
    var section: seq<Line>;
    if s.tangible != [] {
      section := AppendMappings([], s.tangible);
    } else {
      section := [TangibleMappingFallback];
    }
    ghost var head := section;
    assert head == (if s.tangible != [] then MappingLines(s.tangible, NormalizedId) else [TangibleMappingFallback]);
    if s.intangible != [] {
      section := AppendMappings(section, s.intangible);
    } else {
      section := section + [IntangibleMappingFallback];
    }
    assert section == head + (if s.intangible != [] then MappingLines(s.intangible, NormalizedId) else [IntangibleMappingFallback]);
    section := section + [Blank, SchemaHeading, Schema];
    out := lines + section;
  }

  /** build_prompt, as the list of lines joined by "\n". `.strip()` on a
      null activityName raises, which is None here. */
  method BuildPrompt(p: Payload, s: Spirit) returns (r: Option<seq<Line>>)
    ensures p.activityName.Null? <==> r.None?
    ensures r.Some? ==> r.value == PromptLines(Stripped(p), s)
  {
    if p.activityName.Null? {
      return None;
    }
    var activityName := FieldText(p.activityName);
    var coreText := FieldText(p.coreText);
    var leader := FieldText(p.teamLeaderObservation);
    var hasLeader := leader != "";

    var lines: seq<Line> := [Goal, Blank, TargetHeading];
    if activityName != "" {
      lines := lines + [ActivityName(activityName)];
    }
    lines := lines + [CoreActivity(coreText)];
    if hasLeader {
      lines := lines + [LeaderObservation(leader)];
    }
    lines := lines + [Blank];
    assert lines == TargetSection(activityName, coreText, leader);

    lines := AppendDetails(lines, FieldText(p.outcomes), FieldText(p.outputs), FieldText(p.factors), FieldText(p.keyLearning));
    lines := AppendSpirit(lines, s);
    lines := AppendInstructions(lines, hasLeader);
    lines := AppendMappingSection(lines, s);
    r := Some(lines);
  }
}
