/** The spreadsheet importer of backend/modules/tools/xlsx_to_spirits.py:
    element ids written in cells are normalised to 유형_N / 무형_N, a cell
    listing several ids is split into them, and the behaviours and elements
    read from one sheet are merged into the matching spirit of the spirits
    document. */
module XlsxToSpirits {
  import opened Common
  import PromptGenerator

  const Tangible: string := "유형"
  const Intangible: string := "무형"

  // ---------------------------------------------------------------------
  // normalize_element_id

  /** The character itself when it is a digit, else nothing. */
  function DigitOf(c: char): string
  {
    if IsAsciiDigit(c) then [c] else []
  }

  /** The decimal digits of `s`, in order (the `isdigit` filter). */
  function Digits(s: string): (r: string)
    ensures |r| <= |s|
  {
    if s == [] then [] else DigitOf(s[0]) + Digits(s[1..])
  }

  /** Digits keeps exactly the digits of `s`. */
  lemma {:induction false} DigitsMembers(s: string)
    ensures forall c :: c in Digits(s) <==> c in s && IsAsciiDigit(c)
  {
    if s != [] {
      DigitsMembers(s[1..]);
      assert s == [s[0]] + s[1..];
    }
  }

  /** Digits keeps their order: it works piece by piece. */
  lemma {:induction false} DigitsAppend(a: string, b: string)
    ensures Digits(a + b) == Digits(a) + Digits(b)
  {
    if a == [] {
      assert a + b == b;
    } else {
      var x, t := a[0], a[1..];
      calc {
        Digits(a + b);
        { assert (a + b)[0] == x && (a + b)[1..] == t + b; }
        DigitOf(x) + Digits(t + b);
        { DigitsAppend(t, b); }
        DigitOf(x) + (Digits(t) + Digits(b));
        (DigitOf(x) + Digits(t)) + Digits(b);
        Digits(a) + Digits(b);
      }
    }
  }

  /** A string of digits is its own digits. */
  lemma {:induction false} DigitsOfDigits(s: string)
    requires AllChars(s, IsAsciiDigit)
    ensures Digits(s) == s
  {
    if s != [] {
      DigitsOfDigits(s[1..]);
      assert s == [s[0]] + s[1..];
    }
  }

  /** normalize_element_id: empty input is returned as it is; otherwise the
      stripped id, where one starting with 유형 or 무형 and holding digits
      becomes that prefix, '_' and all its digits. */
  function NormalizeXlsxId(raw: string): (r: string)
  {
    if raw == [] then raw
    else
      var s := PyStrip(raw);
      if StartsWith(s, Tangible) then
        var digits := Digits(s);
        if digits != [] then Tangible + "_" + digits else s
      else if StartsWith(s, Intangible) then
        var digits := Digits(s);
        if digits != [] then Intangible + "_" + digits else s
      else s
  }

  /** A 유형/무형 id holding digits becomes the prefix, '_' and exactly the
      digits of the id, in order; one without digits comes back stripped;
      anything else comes back stripped, and empty input as it is. */
  lemma NormalizeXlsxIdCases(raw: string)
    ensures var s := PyStrip(raw);
            var r := NormalizeXlsxId(raw);
            (raw == [] ==> r == [])
            && (forall p | p == Tangible || p == Intangible ::
                  StartsWith(s, p) ==>
                    (Digits(s) != [] ==> r == p + "_" + Digits(s))
                    && (Digits(s) == [] ==> r == s))
            && (!StartsWith(s, Tangible) && !StartsWith(s, Intangible) ==> r == s)
  {
    var s := PyStrip(raw);
    if raw == [] {
      TrimEmptyIffAllSpace(raw, PySpaces);
    }
  }

  /** The digits taken from "유형 1-2" are every digit of it, in order. */
  lemma EveryDigitKept()
    ensures NormalizeXlsxId("유형 1-2") == "유형_12"
  {
    var s := "유형 1-2";
    TrimKeeps(s, PySpaces);
    assert StartsWith(s, Tangible);
    assert s == "유형 " + "1-2";
    NoDigits("유형 ");
    DigitsAppend("유형 ", "1-2");
    assert "1-2"[1..] == "-2" && "-2"[1..] == "2" && "2"[1..] == [];
    assert Digits("1-2") == "12";
  }

  /** Every character of Digits(s) is a digit. */
  lemma DigitsAreDigits(s: string)
    ensures AllChars(Digits(s), IsAsciiDigit)
  {
    DigitsMembers(s);
    assert forall i | 0 <= i < |Digits(s)| :: Digits(s)[i] in Digits(s);
  }

  /** A text without digits has no digits to keep. */
  lemma NoDigits(s: string)
    requires forall i | 0 <= i < |s| :: !IsAsciiDigit(s[i])
    ensures Digits(s) == []
  {
    DigitsMembers(s);
    if Digits(s) != [] {
      assert Digits(s)[0] in Digits(s);
    }
  }

  /** The normalised form of a 유형/무형 id: prefix, '_' and digits. */
  lemma CanonicalDigits(p: string, digits: string)
    requires p == Tangible || p == Intangible
    requires digits != [] && AllChars(digits, IsAsciiDigit)
    ensures PyStrip(p + "_" + digits) == p + "_" + digits
    ensures Digits(p + "_" + digits) == digits
  {
    var s := p + "_" + digits;
    TrimKeeps(s, PySpaces);
    NoDigits(p + "_");
    DigitsAppend(p + "_", digits);
    DigitsOfDigits(digits);
  }

  /** Normalising twice gives what normalising once gives. */
  lemma NormalizeXlsxIdIdempotent(raw: string)
    ensures NormalizeXlsxId(NormalizeXlsxId(raw)) == NormalizeXlsxId(raw)
  {
    var s := PyStrip(raw);
    var r := NormalizeXlsxId(raw);
    TrimIdempotent(raw, PySpaces);
    if raw != [] && (StartsWith(s, Tangible) || StartsWith(s, Intangible)) && Digits(s) != [] {
      var p := if StartsWith(s, Tangible) then Tangible else Intangible;
      assert r == p + "_" + Digits(s);
      DigitsAreDigits(s);
      CanonicalDigits(p, Digits(s));
    }
  }

  /** The digits of a spelled id are the digits after its prefix. */
  lemma SpelledDigits(p: string, sep: string, digits: string)
    requires p == Tangible || p == Intangible
    requires sep == "" || sep == " " || sep == "-" || sep == "_"
    requires AllChars(digits, IsAsciiDigit)
    ensures Digits(p + sep + digits) == digits
  {
    NoDigits(p + sep);
    DigitsAppend(p + sep, digits);
    DigitsOfDigits(digits);
  }

  /** This normaliser maps 유형1, 유형 1, 유형-1 and 유형_1 (and the same for
      무형) to 유형_1. */
  lemma SpelledXlsxId(s: string, p: string, sep: string, digits: string)
    requires PromptGenerator.SpelledId(s, p, sep, digits)
    ensures NormalizeXlsxId(s) == p + "_" + digits
  {
    PromptGenerator.SpelledStripped(s, p, sep, digits);
    SpelledDigits(p, sep, digits);
    assert StartsWith(s, p);
  }

  /** On those spellings this normaliser agrees with the prompt generator's. */
  lemma AgreesWithPromptNormalizer(s: string, p: string, sep: string, digits: string)
    requires PromptGenerator.SpelledId(s, p, sep, digits)
    ensures NormalizeXlsxId(s) == PromptGenerator.NormalizedText(s)
  {
    SpelledXlsxId(s, p, sep, digits);
    PromptGenerator.SpelledNormalized(s, p, sep, digits);
  }

  // ---------------------------------------------------------------------
  // split_ids

  /** The pieces of a stripped cell between commas, spaces and U+3000. */
  function Pieces(s: string): (r: seq<string>)
  {
    Split(ReplaceChar(ReplaceChar(s, ' ', ","), '\U{3000}', ","), ',')
  }

  /** The pieces, each stripped, without the empty ones. */
  function Kept(pieces: seq<string>): (r: seq<string>)
    ensures |r| <= |pieces|
    ensures forall k | 0 <= k < |r| :: r[k] != [] && PyStrip(r[k]) == r[k]
  {
    if pieces == [] then []
    else
      var p := PyStrip(pieces[0]);
      TrimIdempotent(pieces[0], PySpaces);
      (if p != [] then [p] else []) + Kept(pieces[1..])
  }

  function NormalizeAll(ids: seq<string>): (r: seq<string>)
    ensures |r| == |ids|
    ensures forall k | 0 <= k < |ids| :: r[k] == NormalizeXlsxId(ids[k])
  {
    if ids == [] then [] else [NormalizeXlsxId(ids[0])] + NormalizeAll(ids[1..])
  }

  /** split_ids: no cell or a blank one gives no ids. */
  function SplitIds(cell: Option<string>): (r: seq<string>)
  {
    match cell
    case None => []
    case Some(c) =>
      var s := PyStrip(c);
      if s == [] then [] else NormalizeAll(Kept(Pieces(s)))
  }

  /** No ids come from a missing or blank cell. */
  lemma SplitIdsBlank(cell: Option<string>)
    requires cell.None? || AllSpace(PySpaces, cell.value)
    ensures SplitIds(cell) == []
  {
    if cell.Some? {
      TrimEmptyIffAllSpace(cell.value, PySpaces);
    }
  }

  /** A piece of a cell: no separator inside, no white space at either end. */
  predicate IdToken(t: string)
  {
    t != [] && ',' !in t && ' ' !in t && '\U{3000}' !in t
    && !IsPySpace(t[0]) && !IsPySpace(t[|t| - 1])
  }

  /** Stripping drops white space only, so a stripped piece stays free of
      the separators. */
  lemma {:induction false} StripKeepsOut(s: string, c: char)
    requires c !in s
    ensures c !in PyStrip(s)
  {
    var t := TrimStart(s, PySpaces);
    TrimStartShape(s, PySpaces);
    TrimEndShape(t, PySpaces);
  }

  /** The kept pieces of separator-free pieces are separator free. */
  lemma {:induction false} KeptFree(pieces: seq<string>, c: char)
    requires forall k | 0 <= k < |pieces| :: c !in pieces[k]
    ensures forall k | 0 <= k < |Kept(pieces)| :: c !in Kept(pieces)[k]
  {
    if pieces != [] {
      KeptFree(pieces[1..], c);
      StripKeepsOut(pieces[0], c);
    }
  }

  /** A stripped, separator-free id normalises to one of the same kind. */
  lemma NormalizedToken(t: string)
    requires t != [] && PyStrip(t) == t && ',' !in t && ' ' !in t && '\U{3000}' !in t
    ensures var r := NormalizeXlsxId(t);
            r != [] && ',' !in r && ' ' !in r && '\U{3000}' !in r
  {
    var r := NormalizeXlsxId(t);
    if (StartsWith(t, Tangible) || StartsWith(t, Intangible)) && Digits(t) != [] {
      var p := if StartsWith(t, Tangible) then Tangible else Intangible;
      assert r == p + "_" + Digits(t);
      DigitsMembers(t);
      assert forall c | c in r :: c in p + "_" || c in Digits(t);
    }
  }

  /** Every id split_ids gives is non-empty, holds none of the separators,
      and is already normalised. */
  lemma SplitIdsShape(cell: Option<string>)
    ensures forall k | 0 <= k < |SplitIds(cell)| ::
              var id := SplitIds(cell)[k];
              id != [] && ',' !in id && ' ' !in id && '\U{3000}' !in id
              && NormalizeXlsxId(id) == id
  {
    if cell.Some? && PyStrip(cell.value) != [] {
      var s := PyStrip(cell.value);
      var pieces := Pieces(s);
      var once := ReplaceChar(s, ' ', ",");
      var twice := ReplaceChar(once, '\U{3000}', ",");
      assert forall c | c in twice :: c in once || c == ',';
      assert forall c | c in once :: c in s || c == ',';
      forall k | 0 <= k < |pieces|
        ensures ',' !in pieces[k] && ' ' !in pieces[k] && '\U{3000}' !in pieces[k]
      {
        assert forall c | c in pieces[k] :: c in twice by {
          SplitPieceMembers(twice, ',', k);
        }
      }
      KeptFree(pieces, ',');
      KeptFree(pieces, ' ');
      KeptFree(pieces, '\U{3000}');
      var kept := Kept(pieces);
      forall k | 0 <= k < |kept|
        ensures var id := NormalizeXlsxId(kept[k]);
                id != [] && ',' !in id && ' ' !in id && '\U{3000}' !in id && NormalizeXlsxId(id) == id
      {
        NormalizedToken(kept[k]);
        NormalizeXlsxIdIdempotent(kept[k]);
      }
    }
  }

  /** Every character of a piece of `s` is a character of `s`. */
  lemma {:induction false} SplitPieceMembers(s: string, sep: char, k: nat)
    requires k < |Split(s, sep)|
    ensures forall c | c in Split(s, sep)[k] :: c in s
  {
    if s != [] {
      var rest := Split(s[1..], sep);
      if s[0] == sep {
        if k > 0 {
          SplitPieceMembers(s[1..], sep, k - 1);
        }
      } else if k == 0 {
        SplitPieceMembers(s[1..], sep, 0);
        assert forall c | c in [s[0]] + rest[0] :: c == s[0] || c in rest[0];
      } else {
        SplitPieceMembers(s[1..], sep, k);
      }
    }
  }

  /** split_ids undoes listing ids with commas, spaces or U+3000 between
      them: it gives back each id, normalised. */
  lemma SplitIdsJoin(ids: seq<string>, sep: char)
    requires sep == ',' || sep == ' ' || sep == '\U{3000}'
    requires forall k | 0 <= k < |ids| :: IdToken(ids[k])
    ensures SplitIds(Some(Join(ids, [sep]))) == NormalizeAll(ids)
  {
    if ids != [] {
      JoinStripped(ids, sep);
      PiecesJoin(ids, sep);
      KeptTokens(ids);
    }
  }

  /** A listing of tokens has no white space at either end. */
  lemma JoinStripped(ids: seq<string>, sep: char)
    requires ids != []
    requires forall k | 0 <= k < |ids| :: IdToken(ids[k])
    ensures var cell := Join(ids, [sep]); cell != [] && PyStrip(cell) == cell
  {
    var cell := Join(ids, [sep]);
    JoinEnds(ids, [sep]);
    var last := ids[|ids| - 1];
    assert !IsPySpace(cell[0]) && !IsPySpace(cell[|cell| - 1]) by {
      assert IdToken(ids[0]) && IdToken(last);
    }
    TrimKeeps(cell, PySpaces);
  }

  /** A listing of tokens falls apart into those tokens. */
  lemma PiecesJoin(ids: seq<string>, sep: char)
    requires ids != []
    requires sep == ',' || sep == ' ' || sep == '\U{3000}'
    requires forall k | 0 <= k < |ids| :: IdToken(ids[k])
    ensures Pieces(Join(ids, [sep])) == ids
  {
    ReplaceCharJoin(ids, [sep], ' ', ",");
    var sep1 := ReplaceChar([sep], ' ', ",");
    assert sep1 == [sep] || sep1 == ",";
    ReplaceCharJoin(ids, sep1, '\U{3000}', ",");
    assert ReplaceChar(sep1, '\U{3000}', ",") == ",";
    JoinSplit(ids, ',');
  }

  /** Tokens are kept as they are. */
  lemma {:induction false} KeptTokens(ids: seq<string>)
    requires forall k | 0 <= k < |ids| :: IdToken(ids[k])
    ensures Kept(ids) == ids
  {
    if ids != [] {
      KeptTokens(ids[1..]);
      TrimKeeps(ids[0], PySpaces);
      assert [ids[0]] + ids[1..] == ids;
    }
  }

  // ---------------------------------------------------------------------
  // Behavior / Element and their dictionaries

  /** A Behavior or an Element read from the sheet. */
  datatype Entry = Entry(id: string, name: string, connected: Option<seq<string>>)

  /** Its dictionary: `connected` is None where the key is absent. */
  datatype EntryDict = EntryDict(id: string, name: string, connected: Option<seq<string>>)

  /** to_dict: the connected_elements key is written only for a non-empty list. */
  function ToDict(e: Entry): (d: EntryDict)
    ensures d.id == e.id && d.name == e.name
    ensures d.connected.Some? <==> e.connected.Some? && e.connected.value != []
  {
    EntryDict(e.id, e.name, if e.connected.Some? && e.connected.value != [] then e.connected else None)
  }

  /** Reading a dictionary back with `get`. */
  function FromDict(d: EntryDict): (e: Entry)
  {
    Entry(d.id, d.name, d.connected)
  }

  /** The dictionary keeps everything but an empty connection list, which
      reads back as a missing one. */
  lemma DictRoundTrip(e: Entry)
    ensures e.connected != Some([]) ==> FromDict(ToDict(e)) == e
    ensures e.connected == Some([]) ==> FromDict(ToDict(e)) == e.(connected := None)
  {
  }

  function Dicts(es: seq<Entry>): (r: seq<EntryDict>)
    ensures |r| == |es|
    ensures forall k | 0 <= k < |es| :: r[k] == ToDict(es[k])
  {
    if es == [] then [] else [ToDict(es[0])] + Dicts(es[1..])
  }

  // ---------------------------------------------------------------------
  // merge_into_json

  /** The sheet names the importer recognises, in lookup order, with the
      spirit each names. */
  const NameToId: seq<(string, string)> := [
    ("불우재", "spirit_01"),
    ("숭조위선", "spirit_02"),
    ("불굴의 도전정신과 개척정신", "spirit_03"),
    ("미래를 예측하는 통찰", "spirit_04"),
    ("미풍양속의 계승", "spirit_05"),
    ("상생적 공존공영의 인화정신", "spirit_06"),
    ("환경을 중시하는 사회적 책임경영", "spirit_07")]

  /** The spirit of the first entry from `from` on whose name the sheet
      name contains. */
  function KeyTarget(sheetName: string, from: nat): (r: Option<string>)
    requires from <= |NameToId|
    ensures r.Some? <==> exists k | from <= k < |NameToId| :: Contains(sheetName, NameToId[k].0)
    ensures r.Some? ==> exists k | from <= k < |NameToId| ::
              Contains(sheetName, NameToId[k].0) && r.value == NameToId[k].1
              && forall j | from <= j < k :: !Contains(sheetName, NameToId[j].0)
    decreases |NameToId| - from
  {
    if from == |NameToId| then None
    else if Contains(sheetName, NameToId[from].0) then Some(NameToId[from].1)
    else KeyTarget(sheetName, from + 1)
  }

  /** The id of the spirit a sheet merges into: the first recognised name
      the sheet name contains, else the sheet name itself when it starts
      with "spirit_". */
  function SheetTarget(sheetName: string): (r: Option<string>)
  {
    var k := KeyTarget(sheetName, 0);
    if k.Some? then k
    else if StartsWith(sheetName, "spirit_") then Some(sheetName)
    else None
  }

  /** Every target is a spirit id, and a sheet is unmatched exactly when
      it contains no recognised name and does not start with "spirit_". */
  lemma SheetTargetShape(sheetName: string)
    ensures var r := SheetTarget(sheetName);
            (r.Some? ==> StartsWith(r.value, "spirit_"))
            && (r.None? <==> (forall k | 0 <= k < |NameToId| :: !Contains(sheetName, NameToId[k].0))
                              && !StartsWith(sheetName, "spirit_"))
  {
    var r := KeyTarget(sheetName, 0);
    if r.Some? {
      var k :| 0 <= k < |NameToId| && Contains(sheetName, NameToId[k].0) && r.value == NameToId[k].1;
      assert StartsWith(NameToId[k].1, "spirit_");
    }
  }

  /** A sheet named after a spirit merges into that spirit. */
  lemma SheetTargetExample()
    ensures SheetTarget("1. 불우재") == Some("spirit_01")
  {
    assert OccursAt("1. 불우재", "불우재", 3);
  }

  /** The first loop of merge_into_json. */
  method FindTargetId(sheetName: string) returns (r: Option<string>)
    ensures r == SheetTarget(sheetName)
  {
    r := None;
    var i := 0;
    while i < |NameToId|
      invariant 0 <= i <= |NameToId|
      invariant KeyTarget(sheetName, 0) == KeyTarget(sheetName, i)
    {
      var (k, v) := NameToId[i];
      if Contains(sheetName, k) {
        r := Some(v);
        return;
      }
      i := i + 1;
    }
    if StartsWith(sheetName, "spirit_") {
      r := Some(sheetName);
    }
  }

  /** The position of the first spirit with id `id`. */
  function FirstWithId(ids: seq<Option<string>>, id: string): (r: Option<nat>)
    ensures r.Some? ==> r.value < |ids| && ids[r.value] == Some(id)
                        && forall j | 0 <= j < r.value :: ids[j] != Some(id)
    ensures r.None? ==> forall j | 0 <= j < |ids| :: ids[j] != Some(id)
  {
    if ids == [] then None
    else if ids[0] == Some(id) then Some(0)
    else
      var r := FirstWithId(ids[1..], id);
      if r.Some? then Some(r.value + 1) else None
  }

  /** One entry of the document's spirits list: merge_into_json rewrites
      its three lists in place. */
  class SpiritEntry {
    const id: Option<string>
    var behaviors: Option<seq<EntryDict>>
    var tangibleElements: Option<seq<EntryDict>>
    var intangibleElements: Option<seq<EntryDict>>

    constructor (id: Option<string>, behaviors: Option<seq<EntryDict>>,
                 tangibleElements: Option<seq<EntryDict>>, intangibleElements: Option<seq<EntryDict>>)
      ensures this.id == id && this.behaviors == behaviors
      ensures this.tangibleElements == tangibleElements && this.intangibleElements == intangibleElements
    {
      this.id := id;
      this.behaviors := behaviors;
      this.tangibleElements := tangibleElements;
      this.intangibleElements := intangibleElements;
    }
  }

  function Ids(spirits: seq<SpiritEntry>): (r: seq<Option<string>>)
    ensures |r| == |spirits|
    ensures forall k | 0 <= k < |spirits| :: r[k] == spirits[k].id
  {
    if spirits == [] then [] else [spirits[0].id] + Ids(spirits[1..])
  }

  /** The position of the spirit a sheet merges into, if any. */
  function MergeTarget(spirits: seq<SpiritEntry>, sheetName: string): (r: Option<nat>)
    ensures r.Some? ==> r.value < |spirits|
  {
    var t := SheetTarget(sheetName);
    if t.None? then None else FirstWithId(Ids(spirits), t.value)
  }

  /** The second loop of merge_into_json: the first spirit with id `id`. */
  method FindSpirit(spirits: seq<SpiritEntry>, id: string) returns (found: Option<nat>)
    ensures found == FirstWithId(Ids(spirits), id)
  {
    found := None;
    var i := 0;
    while i < |spirits|
      invariant 0 <= i <= |spirits|
      invariant forall j | 0 <= j < i :: spirits[j].id != Some(id)
    {
      if spirits[i].id == Some(id) {
        found := Some(i);
        return;
      }
      i := i + 1;
    }
  }

  /** A list the merge writes: the new one when it is non-empty, else the old one. */
  function Merged(old_: Option<seq<EntryDict>>, es: seq<Entry>): Option<seq<EntryDict>>
  {
    if es != [] then Some(Dicts(es)) else old_
  }

  /** merge_into_json: the spirit the sheet names gets each non-empty list
      the sheet gave it; every other entry, and every list of that spirit
      the sheet left empty, is unchanged. */
  method MergeIntoJson(spirits: seq<SpiritEntry>, sheetName: string,
                       behaviors: seq<Entry>, tangible: seq<Entry>, intangible: seq<Entry>)
    modifies spirits
    ensures MergeTarget(spirits, sheetName).None? ==> forall s | s in spirits :: unchanged(s)
    ensures MergeTarget(spirits, sheetName).Some? ==>
              var s := spirits[MergeTarget(spirits, sheetName).value];
              (forall o | o in spirits && o != s :: unchanged(o))
              && s.behaviors == Merged(old(s.behaviors), behaviors)
              && s.tangibleElements == Merged(old(s.tangibleElements), tangible)
              && s.intangibleElements == Merged(old(s.intangibleElements), intangible)
  {
    var targetId := FindTargetId(sheetName);
    if targetId.None? {
      return;
    }
    var found := FindSpirit(spirits, targetId.value);
    if found.None? {
      return;
    }
    var spirit := spirits[found.value];
    if behaviors != [] {
      spirit.behaviors := Some(Dicts(behaviors));
    }
    if tangible != [] {
      spirit.tangibleElements := Some(Dicts(tangible));
    }
    if intangible != [] {
      spirit.intangibleElements := Some(Dicts(intangible));
    }
  }
}
