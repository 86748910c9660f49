/** The second spreadsheet importer, backend/modules/import_spirits_from_excel.py:
    ids written as 유형N / 무형 -N are normalised to 유형_N / 무형_N with the
    number parsed (so leading zeros go), the rows of a sheet become
    behaviours, tangible and intangible elements with their connections,
    and each list keeps the first item of every id. */
module SpiritImport {
  import opened Common
  import XlsxToSpirits

  const Tangible: string := "유형"
  const Intangible: string := "무형"
  const Action: string := "행동"

  // ---------------------------------------------------------------------
  // The two regular expressions of norm_id

  /** `\s*-?\s*`: white space with at most one '-' in it. */
  predicate IsSeparator(a: string)
  {
    (forall i | 0 <= i < |a| :: IsPySpace(a[i]) || a[i] == '-')
    && (forall i, j | 0 <= i < j < |a| :: !(a[i] == '-' && a[j] == '-'))
  }

  /** Where the run of digits that ends `s` begins. */
  function DigitRunStart(s: string): (i: nat)
    ensures i <= |s|
    ensures AllChars(s[i..], IsAsciiDigit)
    ensures i > 0 ==> !IsAsciiDigit(s[i - 1])
  {
    if s == [] || !IsAsciiDigit(s[|s| - 1]) then |s|
    else
      var i := DigitRunStart(s[..|s| - 1]);
      assert s[i..] == s[..|s| - 1][i..] + [s[|s| - 1]];
      i
  }

  /** `^p\s*-?\s*([0-9]+)$`: the digits group when `v` matches. */
  function NumberAfter(v: string, p: string): (r: Option<string>)
    ensures r.Some? ==> r.value != [] && AllChars(r.value, IsAsciiDigit)
  {
    if !StartsWith(v, p) then None
    else
      var rest := v[|p|..];
      var i := DigitRunStart(rest);
      if i < |rest| && IsSeparator(rest[..i]) then Some(rest[i..]) else None
  }

  /** A match splits `v` into the prefix, a separator and the digits. */
  lemma NumberAfterSplits(v: string, p: string)
    requires NumberAfter(v, p).Some?
    ensures var d := NumberAfter(v, p).value;
            |p| + |d| <= |v|
            && v == p + v[|p|..|v| - |d|] + d && IsSeparator(v[|p|..|v| - |d|])
  {
    var rest := v[|p|..];
    var i := DigitRunStart(rest);
    assert rest[..i] == v[|p|..|v| - |rest[i..]|];
    assert v == p + rest[..i] + rest[i..];
  }

  /** The digit run of a separator followed by digits starts after the separator. */
  lemma {:induction false} DigitRunAfterSeparator(a: string, d: string)
    requires a == [] || !IsAsciiDigit(a[|a| - 1])
    requires AllChars(d, IsAsciiDigit)
    ensures DigitRunStart(a + d) == |a|
  {
    if d == [] {
      assert a + d == a;
    } else {
      var init := d[..|d| - 1];
      DigitRunAfterSeparator(a, init);
      assert (a + d)[..|a + d| - 1] == a + init;
    }
  }

  /** Every prefix, separator and digits spelling matches, with those digits. */
  lemma NumberAfterMatches(p: string, a: string, d: string)
    requires IsSeparator(a) && d != [] && AllChars(d, IsAsciiDigit)
    ensures NumberAfter(p + a + d, p) == Some(d)
  {
    var v := p + a + d;
    assert v[|p|..] == a + d;
    if a != [] {
      assert IsPySpace(a[|a| - 1]) || a[|a| - 1] == '-';
    }
    DigitRunAfterSeparator(a, d);
    assert (a + d)[..|a|] == a && (a + d)[|a|..] == d;
  }

  /** `^(유형|무형)_[0-9]+$` with the prefix `p`. */
  predicate CanonicalWith(v: string, p: string)
  {
    |v| > |p| + 1 && StartsWith(v, p + "_") && AllChars(v[|p| + 1..], IsAsciiDigit)
  }

  /** `^(유형|무형)_[0-9]+$`. */
  predicate Canonical(v: string)
  {
    CanonicalWith(v, Tangible) || CanonicalWith(v, Intangible)
  }

  /** `int(digits)` written back in decimal. */
  function IntText(d: string): (r: string)
    requires AllChars(d, IsAsciiDigit)
    ensures r != [] && AllChars(r, IsAsciiDigit)
  {
    NatToString(DigitsToNat(d))
  }

  // ---------------------------------------------------------------------
  // norm_id

  /** norm_id: empty input as it is; otherwise the stripped id, where a
      canonical one is kept and a numbered 유형/무형 one is rewritten as
      prefix, '_' and its number. */
  function NormId(value: string): (r: string)
  {
    if value == [] then value
    else
      var v := PyStrip(value);
      if Canonical(v) then v
      else if NumberAfter(v, Tangible).Some? then Tangible + "_" + IntText(NumberAfter(v, Tangible).value)
      else if NumberAfter(v, Intangible).Some? then Intangible + "_" + IntText(NumberAfter(v, Intangible).value)
      else v
  }

  /** A canonical id has no white space at either end. */
  lemma CanonicalStripped(v: string)
    requires Canonical(v)
    ensures PyStrip(v) == v
  {
    var p := if CanonicalWith(v, Tangible) then Tangible else Intangible;
    assert v[0] == p[0];
    assert v[|v| - 1] == v[|p| + 1..][|v| - |p| - 2];
    TrimKeeps(v, PySpaces);
  }

  /** norm_id returns an id of the form 유형_N / 무형_N unchanged. */
  lemma NormIdKeepsCanonical(v: string)
    requires Canonical(v)
    ensures NormId(v) == v
  {
    CanonicalStripped(v);
  }

  /** A prefix followed by digits is canonical. */
  lemma CanonicalFromParts(p: string, digits: string)
    requires p == Tangible || p == Intangible
    requires digits != [] && AllChars(digits, IsAsciiDigit)
    ensures Canonical(p + "_" + digits)
  {
    var v := p + "_" + digits;
    assert v[|p| + 1..] == digits;
  }

  /** A numbered spelling has no white space at either end. */
  lemma NumberedStripped(p: string, a: string, d: string)
    requires p == Tangible || p == Intangible
    requires d != [] && AllChars(d, IsAsciiDigit)
    ensures PyStrip(p + a + d) == p + a + d
  {
    var v := p + a + d;
    assert v[0] == p[0];
    assert v[|v| - 1] == d[|d| - 1];
    TrimKeeps(v, PySpaces);
  }

  /** A numbered spelling is not canonical: what follows the prefix is a
      separator character or a digit, never '_'. */
  lemma NumberedNotCanonical(p: string, a: string, d: string)
    requires p == Tangible || p == Intangible
    requires IsSeparator(a) && d != [] && AllChars(d, IsAsciiDigit)
    ensures !Canonical(p + a + d)
  {
    var v := p + a + d;
    assert v[|p|] == (a + d)[0];
    if a != [] {
      assert v[|p|] == a[0];
    }
  }

  /** norm_id rewrites 유형 / 무형, an optional '-' among white space, and
      digits as the prefix, '_' and the number the digits spell. */
  lemma NormIdNumbered(p: string, a: string, d: string)
    requires p == Tangible || p == Intangible
    requires IsSeparator(a) && d != [] && AllChars(d, IsAsciiDigit)
    ensures NormId(p + a + d) == p + "_" + IntText(d)
    ensures Canonical(NormId(p + a + d))
  {
    var v := p + a + d;
    NumberedStripped(p, a, d);
    NumberedNotCanonical(p, a, d);
    NumberAfterMatches(p, a, d);
    if p == Intangible {
      assert !StartsWith(v, Tangible) by {
        assert v[0] == p[0];
      }
    }
    CanonicalFromParts(p, IntText(d));
  }

  /** "유형 -07" becomes "유형_7". */
  lemma NormIdExample()
    ensures NormId("유형 -07") == "유형_7"
  {
    assert IsSeparator(" -");
    assert AllChars("07", IsAsciiDigit);
    NormIdNumbered(Tangible, " -", "07");
    assert "유형 -07" == Tangible + " -" + "07";
    assert "07"[..1] == "0";
    assert DigitsToNat("07") == 7;
  }

  /** norm_id changes a non-empty id beyond stripping it only when the id
      matches the numbered pattern, and then the result is canonical. */
  lemma NormIdOnlyRewritesNumbered(value: string)
    requires value != []
    ensures var v := PyStrip(value);
            NormId(value) == v
            || ((NumberAfter(v, Tangible).Some? || NumberAfter(v, Intangible).Some?)
                && Canonical(NormId(value)))
  {
    var v := PyStrip(value);
    if !Canonical(v) {
      if NumberAfter(v, Tangible).Some? {
        CanonicalFromParts(Tangible, IntText(NumberAfter(v, Tangible).value));
      } else if NumberAfter(v, Intangible).Some? {
        CanonicalFromParts(Intangible, IntText(NumberAfter(v, Intangible).value));
      }
    }
  }

  /** Normalising twice gives what normalising once gives. */
  lemma NormIdIdempotent(value: string)
    ensures NormId(NormId(value)) == NormId(value)
  {
    if value != [] {
      var v := PyStrip(value);
      TrimIdempotent(value, PySpaces);
      NormIdOnlyRewritesNumbered(value);
      if NormId(value) != v {
        NormIdKeepsCanonical(NormId(value));
      }
    }
  }

  /** The two importers disagree on leading zeros: this one parses the
      number, the other keeps every digit. */
  lemma LeadingZerosDiffer()
    ensures NormId("유형 07") == "유형_7"
    ensures XlsxToSpirits.NormalizeXlsxId("유형 07") == "유형_07"
  {
    assert IsSeparator(" ");
    assert AllChars("07", IsAsciiDigit);
    NormIdNumbered(Tangible, " ", "07");
    assert "유형 07" == Tangible + " " + "07";
    assert "07"[..1] == "0";
    assert DigitsToNat("07") == 7;
    XlsxToSpirits.SpelledDigits(Tangible, " ", "07");
    TrimKeeps("유형 07", PySpaces);
  }

  // ---------------------------------------------------------------------
  // Connection tokens

  /** `^(행동|유형|무형)\s*-?\s*([0-9]+)$` on a stripped cell: the token is the
      prefix, '_' and the number. */
  function ConnectionToken(s: string): (r: Option<string>)
  {
    if NumberAfter(s, Action).Some? then Some(Action + "_" + IntText(NumberAfter(s, Action).value))
    else if NumberAfter(s, Tangible).Some? then Some(Tangible + "_" + IntText(NumberAfter(s, Tangible).value))
    else if NumberAfter(s, Intangible).Some? then Some(Intangible + "_" + IntText(NumberAfter(s, Intangible).value))
    else None
  }

  /** A token: 행동_N, 유형_N or 무형_N. */
  predicate IsToken(t: string)
  {
    CanonicalWith(t, Action) || Canonical(t)
  }

  /** Every token has the canonical form, so the norm_id applied to the
      유형/무형 tokens of a behaviour changes none of them. */
  lemma TokenShape(s: string)
    requires ConnectionToken(s).Some?
    ensures IsToken(ConnectionToken(s).value)
    ensures var t := ConnectionToken(s).value;
            StartsWith(t, Tangible) || StartsWith(t, Intangible) ==> NormId(t) == t
  {
    var t := ConnectionToken(s).value;
    var p := if NumberAfter(s, Action).Some? then Action
             else if NumberAfter(s, Tangible).Some? then Tangible else Intangible;
    var d := NumberAfter(s, p).value;
    assert t == p + "_" + IntText(d);
    assert t[|p| + 1..] == IntText(d);
    if StartsWith(t, Tangible) || StartsWith(t, Intangible) {
      assert p != Action by {
        assert t[0] == p[0];
      }
      NormIdKeepsCanonical(t);
    }
  }

  /** The tokens of a row's connection cells, in column order; empty cells
      and cells that are not tokens are skipped. */
  function Connections(cells: seq<string>): (r: seq<string>)
    ensures |r| <= |cells|
  {
    if cells == [] then []
    else
      var prev := Connections(cells[..|cells| - 1]);
      var s := PyStrip(cells[|cells| - 1]);
      var t := ConnectionToken(s);
      if cells[|cells| - 1] != [] && t.Some? then prev + [t.value] else prev
  }

  /** The inner loop of parse_sheet over a row's connection cells. */
  method CollectConnections(cells: seq<string>) returns (connections: seq<string>)
    ensures connections == Connections(cells)
  {
    connections := [];
    for i := 0 to |cells|
      invariant connections == Connections(cells[..i])
    {
      assert cells[..i + 1][..i] == cells[..i];
      var val := cells[i];
      if val == [] {
        continue;
      }
      var sval := PyStrip(val);
      var m := ConnectionToken(sval);
      if m.Some? {
        connections := connections + [m.value];
      }
    }
    assert cells[..|cells|] == cells;
  }

  /** Every connection is a token. */
  lemma {:induction false} ConnectionsAreTokens(cells: seq<string>)
    ensures forall k | 0 <= k < |Connections(cells)| :: IsToken(Connections(cells)[k])
  {
    if cells != [] {
      ConnectionsAreTokens(cells[..|cells| - 1]);
      var s := PyStrip(cells[|cells| - 1]);
      if ConnectionToken(s).Some? {
        TokenShape(s);
      }
    }
  }

  /** The connection cells as written: the slice from the first connection
      column takes nine cells, one more than the eight connection columns. */
  const ConnectionSliceAsWritten: nat := 9
  /** The eight connection columns. */
  const ConnectionColumns: nat := 8

  /** `row[first - 1 : first - 1 + width]`, clamped as a Python slice is. */
  function Window(cells: seq<string>, firstConnCol: nat, width: nat): (r: seq<string>)
    requires firstConnCol >= 1
    ensures |r| <= width
  {
    var lo := if firstConnCol - 1 <= |cells| then firstConnCol - 1 else |cells|;
    var hi := if firstConnCol - 1 + width <= |cells| then firstConnCol - 1 + width else |cells|;
    cells[lo..hi]
  }

  /** A row whose ninth cell after the first connection column holds a
      token: the slice as written reads it as a connection, the eight
      connection columns do not. */
  lemma NinthCellRead()
    ensures var cells := ["행동1", "text", "", "", "", "", "", "", "", "유형3"];
            Connections(Window(cells, 2, ConnectionSliceAsWritten)) == ["유형_3"]
            && Connections(Window(cells, 2, ConnectionColumns)) == []
  {
    var cells := ["행동1", "text", "", "", "", "", "", "", "", "유형3"];
    var mid := ["text", "", "", "", "", "", "", ""];
    assert cells == ["행동1"] + mid + ["유형3"];
    var w9 := Window(cells, 2, ConnectionSliceAsWritten);
    var w8 := Window(cells, 2, ConnectionColumns);
    assert w8 == mid;
    assert w9 == w8 + ["유형3"];
    EmptyCells(w8);
    TokenExample();
    assert w9[..|w9| - 1] == w8;
  }

  /** The cell "유형3" is the token 유형_3. */
  lemma TokenExample()
    ensures ConnectionToken(PyStrip("유형3")) == Some("유형_3")
  {
    TrimKeeps("유형3", PySpaces);
    assert AllChars("3", IsAsciiDigit);
    assert "3"[..0] == [] && DigitsToNat("3") == 3;
    assert NatToString(3) == "3";
    NumberAfterMatches(Tangible, "", "3");
    assert "유형3" == Tangible + "" + "3";
    assert !StartsWith("유형3", Action) by {
      assert "유형3"[0] != Action[0];
    }
    assert PyStrip("유형3") == "유형3";
    assert NumberAfter("유형3", Action).None?;
    assert NumberAfter("유형3", Tangible) == Some("3");
    assert IntText("3") == "3";
    assert Tangible + "_" + "3" == "유형_3";
  }

  /** Cells that are empty or hold no token give no connections. */
  lemma {:induction false} NoTokenCells(w: seq<string>)
    requires forall k | 0 <= k < |w| :: w[k] == [] || ConnectionToken(PyStrip(w[k])).None?
    ensures Connections(w) == []
  {
    if w != [] {
      NoTokenCells(w[..|w| - 1]);
    }
  }

  /** "text" and empty cells give no connections. */
  lemma EmptyCells(w: seq<string>)
    requires w == ["text", "", "", "", "", "", "", ""]
    ensures Connections(w) == []
  {
    var t := "text";
    assert t[0] == 't';
    assert !StartsWith(t, Action) && !StartsWith(t, Tangible) && !StartsWith(t, Intangible);
    TrimKeeps(t, PySpaces);
    NoTokenCells(w);
  }

  // ---------------------------------------------------------------------
  // Rows

  /** A behaviour or element as parse_sheet writes it. */
  datatype Item = Item(id: string, name: string, connected: seq<string>)

  /** The three lists parse_sheet builds. */
  datatype Parsed = Parsed(behaviors: seq<Item>, tangible: seq<Item>, intangible: seq<Item>)

  /** The id of an element row: the numbered pattern for its own prefix,
      else norm_id of the kind. */
  function ElementId(kind: string, p: string): (r: string)
  {
    var m := NumberAfter(kind, p);
    if m.Some? then p + "_" + IntText(m.value) else NormId(kind)
  }

  /** A behaviour's connections: norm_id on the 유형/무형 ones. */
  function BehaviorConnections(connections: seq<string>): (r: seq<string>)
    ensures |r| == |connections|
    ensures forall k | 0 <= k < |r| ::
              r[k] == (if StartsWith(connections[k], Tangible) || StartsWith(connections[k], Intangible)
                       then NormId(connections[k]) else connections[k])
  {
    if connections == [] then []
    else
      var c := connections[0];
      [if StartsWith(c, Tangible) || StartsWith(c, Intangible) then NormId(c) else c]
      + BehaviorConnections(connections[1..])
  }

  /** A tangible element's connections: the 무형_ tokens, in order. */
  function IntangibleTokens(connections: seq<string>): (r: seq<string>)
    ensures forall k | 0 <= k < |r| :: StartsWith(r[k], "무형_")
    ensures forall k | 0 <= k < |r| :: r[k] in connections
    ensures forall c | c in connections && StartsWith(c, "무형_") :: c in r
  {
    if connections == [] then []
    else
      var rest := IntangibleTokens(connections[1..]);
      if StartsWith(connections[0], "무형_") then [connections[0]] + rest else rest
  }

  /** One row of the scan, given the connections read from its cells. */
  function Step(acc: Parsed, kind: string, text: string, connections: seq<string>): (r: Parsed)
  {
    if kind == [] && text == [] then acc
    else if StartsWith(kind, Action) then
      var m := NumberAfter(kind, Action);
      var id := if m.Some? then Action + "_" + IntText(m.value)
                else Action + "_" + NatToString(|acc.behaviors| + 1);
      acc.(behaviors := acc.behaviors + [Item(id, text, BehaviorConnections(connections))])
    else if StartsWith(kind, Tangible) then
      acc.(tangible := acc.tangible + [Item(ElementId(kind, Tangible), text, IntangibleTokens(connections))])
    else if StartsWith(kind, Intangible) then
      acc.(intangible := acc.intangible + [Item(ElementId(kind, Intangible), text, [])])
    else acc
  }

  /** A sheet row: its kind cell, its text cell, and all its cells. */
  datatype Row = Row(cells: seq<string>)

  predicate WellFormed(rows: seq<Row>)
  {
    forall i | 0 <= i < |rows| :: |rows[i].cells| >= 2
  }

  /** The lists after scanning `rows` in order. */
  function Scan(rows: seq<Row>, firstConnCol: nat): (r: Parsed)
    requires WellFormed(rows) && firstConnCol >= 1
  {
    if rows == [] then Parsed([], [], [])
    else
      var row := rows[|rows| - 1].cells;
      Step(Scan(rows[..|rows| - 1], firstConnCol), PyStrip(row[0]), PyStrip(row[1]),
           Connections(Window(row, firstConnCol, ConnectionColumns)))
  }

  /** Tangible elements connect only to 무형_ tokens, intangible elements to
      nothing, and behaviours only to tokens. */
  predicate ParsedShape(p: Parsed)
  {
    (forall i | 0 <= i < |p.tangible| ::
       forall k | 0 <= k < |p.tangible[i].connected| :: StartsWith(p.tangible[i].connected[k], "무형_"))
    && (forall i | 0 <= i < |p.intangible| :: p.intangible[i].connected == [])
    && (forall i | 0 <= i < |p.behaviors| ::
          forall k | 0 <= k < |p.behaviors[i].connected| :: IsToken(p.behaviors[i].connected[k]))
  }

  /** A behaviour row keeps its tokens as they are. */
  lemma BehaviorTokensKept(connections: seq<string>)
    requires forall k | 0 <= k < |connections| :: IsToken(connections[k])
    ensures BehaviorConnections(connections) == connections
  {
    forall k | 0 <= k < |connections|
      ensures BehaviorConnections(connections)[k] == connections[k]
    {
      if StartsWith(connections[k], Tangible) || StartsWith(connections[k], Intangible) {
        assert Canonical(connections[k]);
        NormIdKeepsCanonical(connections[k]);
      }
    }
  }

  /** Each row keeps the shape. */
  lemma StepShape(acc: Parsed, kind: string, text: string, connections: seq<string>)
    requires ParsedShape(acc)
    requires forall k | 0 <= k < |connections| :: IsToken(connections[k])
    ensures ParsedShape(Step(acc, kind, text, connections))
  {
    BehaviorTokensKept(connections);
  }

  /** The shape holds after every row. */
  lemma {:induction false} ScanShape(rows: seq<Row>, firstConnCol: nat)
    requires WellFormed(rows) && firstConnCol >= 1
    ensures ParsedShape(Scan(rows, firstConnCol))
  {
    if rows != [] {
      var row := rows[|rows| - 1].cells;
      ScanShape(rows[..|rows| - 1], firstConnCol);
      var w := Window(row, firstConnCol, ConnectionColumns);
      ConnectionsAreTokens(w);
      StepShape(Scan(rows[..|rows| - 1], firstConnCol), PyStrip(row[0]), PyStrip(row[1]), Connections(w));
    }
  }

  // ---------------------------------------------------------------------
  // dedup

  /** The ids of `items`. */
  function Keys(items: seq<Item>): set<string>
  {
    set k | 0 <= k < |items| :: items[k].id
  }

  /** Appending an item adds its id. */
  lemma KeysSnoc(items: seq<Item>, x: Item)
    ensures Keys(items + [x]) == Keys(items) + {x.id}
  {
    var all := items + [x];
    forall id | id in Keys(all) ensures id in Keys(items) + {x.id} {
      var k :| 0 <= k < |all| && all[k].id == id;
      if k < |items| {
        assert all[k] == items[k];
      }
    }
    forall id | id in Keys(items) ensures id in Keys(all) {
      var k :| 0 <= k < |items| && items[k].id == id;
      assert all[k] == items[k];
    }
    assert all[|items|] == x;
  }

  /** The first item of every id, in input order. */
  function Deduped(items: seq<Item>): (r: seq<Item>)
  {
    if items == [] then []
    else
      var init := items[..|items| - 1];
      var last := items[|items| - 1];
      if last.id in Keys(init) then Deduped(init) else Deduped(init) + [last]
  }

  /** dedup: a seen set of ids and the items whose id was new. */
  method Dedup(items: seq<Item>) returns (out: seq<Item>)
    ensures out == Deduped(items)
  {
    var seen: set<string> := {};
    out := [];
    for i := 0 to |items|
      invariant seen == Keys(items[..i])
      invariant out == Deduped(items[..i])
    {
      assert items[..i + 1][..i] == items[..i];
      var it := items[i];
      var k := it.id;
      if k in seen {
        continue;
      }
      seen := seen + {k};
      out := out + [it];
    }
    assert items[..|items|] == items;
  }

  /** The position of the first item with id `id`. */
  function FirstIndex(items: seq<Item>, id: string): (r: nat)
    requires id in Keys(items)
    ensures r < |items| && items[r].id == id
    ensures forall j | 0 <= j < r :: items[j].id != id
  {
    if items[0].id == id then 0
    else
      assert id in Keys(items[1..]) by {
        var k :| 0 <= k < |items| && items[k].id == id;
        assert items[1..][k - 1] == items[k];
      }
      1 + FirstIndex(items[1..], id)
  }

  /** The first occurrence in a prefix is the first occurrence overall. */
  lemma FirstIndexPrefix(items: seq<Item>, n: nat, id: string)
    requires n <= |items| && id in Keys(items[..n])
    ensures id in Keys(items) && FirstIndex(items[..n], id) == FirstIndex(items, id)
  {
    var i := FirstIndex(items[..n], id);
    assert items[i] == items[..n][i];
  }

  /** Deduplicating keeps every id of the input. */
  lemma {:induction false} DedupedKeys(items: seq<Item>)
    ensures Keys(Deduped(items)) == Keys(items)
  {
    if items != [] {
      var init := items[..|items| - 1];
      var last := items[|items| - 1];
      DedupedKeys(init);
      assert items == init + [last];
      KeysSnoc(init, last);
      if last.id !in Keys(init) {
        KeysSnoc(Deduped(init), last);
      }
    }
  }

  /** No two items of the result share an id. */
  lemma {:induction false} DedupedDistinct(items: seq<Item>)
    ensures forall a, b | 0 <= a < b < |Deduped(items)| :: Deduped(items)[a].id != Deduped(items)[b].id
  {
    if items != [] {
      var init := items[..|items| - 1];
      DedupedDistinct(init);
      DedupedKeys(init);
    }
  }

  /** Each item of the result is the first item of the input with its id. */
  lemma {:induction false} DedupedFirst(items: seq<Item>)
    ensures forall a | 0 <= a < |Deduped(items)| ::
              Deduped(items)[a].id in Keys(items)
              && Deduped(items)[a] == items[FirstIndex(items, Deduped(items)[a].id)]
  {
    if items != [] {
      var init := items[..|items| - 1];
      var last := items[|items| - 1];
      DedupedFirst(init);
      var r0 := Deduped(init);
      forall a | 0 <= a < |r0|
        ensures r0[a].id in Keys(items) && r0[a] == items[FirstIndex(items, r0[a].id)]
      {
        assert r0[a].id in Keys(init);
        FirstIndexPrefix(items, |items| - 1, r0[a].id);
        assert init[FirstIndex(init, r0[a].id)] == items[FirstIndex(init, r0[a].id)];
      }
      if last.id !in Keys(init) {
        LastIsFirst(items);
      }
    }
  }

  /** An item whose id is new is the first item with that id. */
  lemma LastIsFirst(items: seq<Item>)
    requires items != [] && items[|items| - 1].id !in Keys(items[..|items| - 1])
    ensures FirstIndex(items, items[|items| - 1].id) == |items| - 1
  {
    var init := items[..|items| - 1];
    var id := items[|items| - 1].id;
    forall j | 0 <= j < |items| - 1 ensures items[j].id != id {
      assert init[j] == items[j];
    }
    var f := FirstIndex(items, id);
    assert !(f < |items| - 1);
  }

  /** The result keeps the input order. */
  lemma {:induction false} DedupedOrder(items: seq<Item>)
    ensures forall a | 0 <= a < |Deduped(items)| :: Deduped(items)[a].id in Keys(items)
    ensures forall a, b | 0 <= a < b < |Deduped(items)| ::
              Deduped(items)[a].id in Keys(items) && Deduped(items)[b].id in Keys(items)
              && FirstIndex(items, Deduped(items)[a].id) < FirstIndex(items, Deduped(items)[b].id)
  {
    if items != [] {
      var init := items[..|items| - 1];
      var last := items[|items| - 1];
      DedupedOrder(init);
      var r0 := Deduped(init);
      forall a | 0 <= a < |r0|
        ensures r0[a].id in Keys(items) && FirstIndex(items, r0[a].id) == FirstIndex(init, r0[a].id)
      {
        assert r0[a].id in Keys(init);
        FirstIndexPrefix(items, |items| - 1, r0[a].id);
      }
      if last.id !in Keys(init) {
        LastIsFirst(items);
      }
    }
  }

  /** Deduplicating keeps items of the input only. */
  lemma {:induction false} DedupedFromItems(items: seq<Item>)
    ensures forall a | 0 <= a < |Deduped(items)| :: Deduped(items)[a] in items
  {
    if items != [] {
      DedupedFromItems(items[..|items| - 1]);
    }
  }

  // ---------------------------------------------------------------------
  // parse_sheet

  /** The lists parse_sheet returns: the scan, each list deduplicated. */
  function ParsedSheet(rows: seq<Row>, firstConnCol: nat): (r: Parsed)
    requires WellFormed(rows) && firstConnCol >= 1
  {
    var s := Scan(rows, firstConnCol);
    Parsed(Deduped(s.behaviors), Deduped(s.tangible), Deduped(s.intangible))
  }

  /** Deduplication keeps the shape. */
  lemma ParsedSheetShape(rows: seq<Row>, firstConnCol: nat)
    requires WellFormed(rows) && firstConnCol >= 1
    ensures ParsedShape(ParsedSheet(rows, firstConnCol))
  {
    var s := Scan(rows, firstConnCol);
    ScanShape(rows, firstConnCol);
    DedupedFromItems(s.behaviors);
    DedupedFromItems(s.tangible);
    DedupedFromItems(s.intangible);
  }

  /** parse_sheet after the header scan, which gives the first connection
      column: the rows are read in order, then each list is deduplicated. */
  method ParseSheet(rows: seq<Row>, firstConnCol: nat) returns (parsed: Parsed)
    requires WellFormed(rows) && firstConnCol >= 1
    ensures parsed == ParsedSheet(rows, firstConnCol)
  {
    var acc := Parsed([], [], []);
    for i := 0 to |rows|
      invariant acc == Scan(rows[..i], firstConnCol)
    {
      assert rows[..i + 1][..i] == rows[..i];
      var row := rows[i].cells;
      var kind := PyStrip(row[0]);
      var text := PyStrip(row[1]);
      var connections := CollectConnections(Window(row, firstConnCol, ConnectionColumns));
      acc := Step(acc, kind, text, connections);
    }
    assert rows[..|rows|] == rows;
    var behaviors := Dedup(acc.behaviors);
    var tangible := Dedup(acc.tangible);
    var intangible := Dedup(acc.intangible);
    parsed := Parsed(behaviors, tangible, intangible);
  }
}
