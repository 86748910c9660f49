/** The culture-map layouter of src/utils/layout.ts: notes are grouped by
    layer in the order 결과, 행동, 유형_레버, 무형_레버, a note of any other
    type joining 행동, and the k-th note of a layer is placed at
    x = 100 + k * 350 on that layer's row. Connections pass through. */
module Layout {
  import opened Common
  import opened CultureMapParser

  const PaddingX: int := 100
  const PaddingY: int := 150
  const AvgNoteWidth: int := 250
  const AvgNoteHeight: int := 150

  /** layerTops: the row of each layer, in layer order. */
  function LayerTop(layer: nat): (r: int)
    requires layer < 4
    ensures r == 150 + 300 * layer
  {
    PaddingY + layer * (AvgNoteHeight + PaddingY)
  }

  /** The column of the k-th note of a layer. */
  function Column(k: nat): (r: int)
    ensures r == 100 + 350 * k
  {
    PaddingX + k * (AvgNoteWidth + PaddingX)
  }

  /** The position of `t` in `names`, or |names| when it is absent. */
  function IndexIn(t: string, names: seq<string>): (r: nat)
    ensures r <= |names|
    ensures r < |names| <==> t in names
    ensures r < |names| ==> names[r] == t
  {
    if names == [] then 0
    else if names[0] == t then 0
    else 1 + IndexIn(t, names[1..])
  }

  /** The layer whose bucket a note of type `t` joins: the bucket named by
      the type, or 행동 for a type no bucket is named after. */
  function Bucket(t: string): (r: nat)
    ensures r < 4
    ensures t in LayerNames ==> LayerNames[r] == t
    ensures t !in LayerNames ==> r == 1
  {
    var i := IndexIn(t, LayerNames);
    if i < 4 then i else 1
  }

  /** The bucket as the source finds it: `layerType in nodesByLayer` also
      holds for the members every object inherits, and pushing onto one of
      those throws (None). */
  function BucketAsWritten(t: string): (r: Option<nat>)
    ensures r.None? <==> t in InheritedNames
    ensures r.Some? ==> r.value == Bucket(t)
  {
    if t in InheritedNames then None else Some(Bucket(t))
  }

  /** A note whose type names an inherited member makes the layout throw,
      where a note of any other unknown type joins 행동. */
  lemma InheritedTypeThrows()
    ensures BucketAsWritten("constructor").None?
    ensures BucketAsWritten("기타") == Some(1)
  {
  }

  /** The notes of bucket `b`, in input order. */
  function Members(notes: seq<Note>, b: nat): (r: seq<Note>)
    ensures |r| <= |notes|
  {
    if notes == [] then []
    else
      var prev := Members(notes[..|notes| - 1], b);
      var last := notes[|notes| - 1];
      if Bucket(last.noteType) == b then prev + [last] else prev
  }

  /** The note `n` placed as the k-th note of layer `b`. */
  function PlaceAt(n: Note, k: nat, b: nat): Note
    requires b < 4
  {
    n.(position := Point(Column(k), LayerTop(b)))
  }

  /** The notes of one layer, placed left to right. */
  function Placed(ms: seq<Note>, b: nat): (r: seq<Note>)
    requires b < 4
    ensures |r| == |ms|
    ensures forall k | 0 <= k < |ms| :: r[k] == PlaceAt(ms[k], k, b)
  {
    if ms == [] then []
    else Placed(ms[..|ms| - 1], b) + [PlaceAt(ms[|ms| - 1], |ms| - 1, b)]
  }

  /** The placed notes of the first `b` layers. */
  function LayoutUpTo(notes: seq<Note>, b: nat): seq<Note>
    requires b <= 4
  {
    if b == 0 then [] else LayoutUpTo(notes, b - 1) + Placed(Members(notes, b - 1), b - 1)
  }

  /** The first forEach of getLayoutedElements: each note is pushed onto
      its layer's bucket. */
  method GroupByLayer(notes: seq<Note>) returns (byLayer: seq<seq<Note>>)
    ensures |byLayer| == 4
    ensures forall b | 0 <= b < 4 :: byLayer[b] == Members(notes, b)
  {
    byLayer := [[], [], [], []];
    for i := 0 to |notes|
      invariant |byLayer| == 4
      invariant forall b | 0 <= b < 4 :: byLayer[b] == Members(notes[..i], b)
    {
      assert notes[..i + 1][..i] == notes[..i];
      var b := Bucket(notes[i].noteType);
      byLayer := byLayer[b := byLayer[b] + [notes[i]]];
    }
    assert notes[..|notes|] == notes;
  }

  /** The inner forEach: the notes of layer `b`, placed left to right. */
  method PlaceLayer(layerNodes: seq<Note>, b: nat) returns (placed: seq<Note>)
    requires b < 4
    ensures placed == Placed(layerNodes, b)
  {
    placed := [];
    for k := 0 to |layerNodes|
      invariant placed == Placed(layerNodes[..k], b)
    {
      assert layerNodes[..k + 1][..k] == layerNodes[..k];
      placed := placed + [layerNodes[k].(position := Point(PaddingX + k * (AvgNoteWidth + PaddingX), LayerTop(b)))];
    }
    assert layerNodes[..|layerNodes|] == layerNodes;
  }

  /** getLayoutedElements. */
  method GetLayoutedElements(notes: seq<Note>, connections: seq<Connection>)
    returns (nodes: seq<Note>, conns: seq<Connection>)
    ensures nodes == LayoutUpTo(notes, 4)
    ensures conns == connections
  {
    var byLayer := GroupByLayer(notes);
    nodes := [];
    for b := 0 to 4
      invariant nodes == LayoutUpTo(notes, b)
    {
      var placed := PlaceLayer(byLayer[b], b);
      nodes := nodes + placed;
    }
    conns := connections;
  }

  // ---------------------------------------------------------------------
  // Properties

  /** Every note falls in exactly one bucket, so the buckets together hold
      the input notes, each once. */
  lemma {:induction false} MembersPartition(notes: seq<Note>)
    ensures multiset(Members(notes, 0)) + multiset(Members(notes, 1))
            + multiset(Members(notes, 2)) + multiset(Members(notes, 3)) == multiset(notes)
  {
    if notes != [] {
      var prefix := notes[..|notes| - 1];
      MembersPartition(prefix);
      assert notes == prefix + [notes[|notes| - 1]];
    }
  }

  /** The first `b` layers take as many slots as their buckets hold. */
  lemma {:induction false} LayoutUpToLength(notes: seq<Note>, b: nat)
    requires b <= 4
    ensures |LayoutUpTo(notes, b)| == (if b > 0 then |Members(notes, 0)| else 0)
              + (if b > 1 then |Members(notes, 1)| else 0)
              + (if b > 2 then |Members(notes, 2)| else 0)
              + (if b > 3 then |Members(notes, 3)| else 0)
  {
    if b > 0 {
      LayoutUpToLength(notes, b - 1);
    }
  }

  /** The layout has exactly as many nodes as there are notes. */
  lemma LayoutKeepsCount(notes: seq<Note>)
    ensures |LayoutUpTo(notes, 4)| == |notes|
  {
    LayoutUpToLength(notes, 4);
    MembersPartition(notes);
    assert |multiset(notes)| == |notes|;
  }

  /** Laying out more layers only appends. */
  lemma {:induction false} LayoutPrefix(notes: seq<Note>, b: nat, c: nat)
    requires b <= c <= 4
    ensures LayoutUpTo(notes, b) <= LayoutUpTo(notes, c)
    decreases c - b
  {
    if b < c {
      LayoutPrefix(notes, b, c - 1);
    }
  }

  /** The k-th note of layer `b`'s bucket sits right after the earlier
      layers, at column k of row b, with its other fields unchanged. */
  lemma LayoutAt(notes: seq<Note>, b: nat, k: nat)
    requires b < 4 && k < |Members(notes, b)|
    ensures var i := |LayoutUpTo(notes, b)| + k;
            i < |LayoutUpTo(notes, 4)|
            && LayoutUpTo(notes, 4)[i] == Members(notes, b)[k].(position := Point(100 + 350 * k, 150 + 300 * b))
  {
    LayoutPlacedAt(notes, b, k);
    PlaceAtPosition(Members(notes, b)[k], k, b);
  }

  /** The k-th note of layer `b`'s bucket, placed, sits right after the
      earlier layers. */
  lemma LayoutPlacedAt(notes: seq<Note>, b: nat, k: nat)
    requires b < 4 && k < |Members(notes, b)|
    ensures var i := |LayoutUpTo(notes, b)| + k;
            i < |LayoutUpTo(notes, 4)| && LayoutUpTo(notes, 4)[i] == PlaceAt(Members(notes, b)[k], k, b)
  {
    LayoutPlacedWithin(notes, b, k, 4);
  }

  /** The same within the first `c` layers, for any `c` above `b`. */
  lemma {:induction false} LayoutPlacedWithin(notes: seq<Note>, b: nat, k: nat, c: nat)
    requires b < c <= 4 && k < |Members(notes, b)|
    ensures var i := |LayoutUpTo(notes, b)| + k;
            i < |LayoutUpTo(notes, c)| && LayoutUpTo(notes, c)[i] == PlaceAt(Members(notes, b)[k], k, b)
    decreases c
  {
    var i := |LayoutUpTo(notes, b)| + k;
    if c == b + 1 {
      var layer := Placed(Members(notes, b), b);
      assert layer[k] == PlaceAt(Members(notes, b)[k], k, b);
      IndexAfter(LayoutUpTo(notes, b), layer, k);
    } else {
      LayoutPlacedWithin(notes, b, k, c - 1);
      IndexBefore(LayoutUpTo(notes, c - 1), Placed(Members(notes, c - 1), c - 1), i);
    }
  }

  /** Appending keeps the elements of the front. */
  lemma IndexBefore(front: seq<Note>, back: seq<Note>, i: nat)
    requires i < |front|
    ensures (front + back)[i] == front[i]
  {
  }

  /** The k-th element of the back of a concatenation. */
  lemma IndexAfter(front: seq<Note>, back: seq<Note>, k: nat)
    requires k < |back|
    ensures |front| + k < |front + back| && (front + back)[|front| + k] == back[k]
  {
  }

  /** Placing sets the position to column k of row b. */
  lemma PlaceAtPosition(n: Note, k: nat, b: nat)
    requires b < 4
    ensures PlaceAt(n, k, b) == n.(position := Point(100 + 350 * k, 150 + 300 * b))
  {
  }

  /** Every member of bucket `b` has a type whose bucket is `b`. */
  lemma {:induction false} MembersInBucket(notes: seq<Note>, b: nat)
    ensures forall k | 0 <= k < |Members(notes, b)| :: Bucket(Members(notes, b)[k].noteType) == b
  {
    if notes != [] {
      MembersInBucket(notes[..|notes| - 1], b);
    }
  }

  /** Nodes ordered by layer. */
  predicate LayerOrdered(nodes: seq<Note>)
  {
    forall i, j | 0 <= i < j < |nodes| :: Bucket(nodes[i].noteType) <= Bucket(nodes[j].noteType)
  }

  /** Every node of `nodes` lies in a layer below `b`. */
  predicate AllBelow(nodes: seq<Note>, b: nat)
  {
    forall i | 0 <= i < |nodes| :: Bucket(nodes[i].noteType) < b
  }

  /** Every node of `nodes` lies in layer `b`. */
  predicate AllIn(nodes: seq<Note>, b: nat)
  {
    forall i | 0 <= i < |nodes| :: Bucket(nodes[i].noteType) == b
  }

  /** Appending one whole layer after the layers below it keeps the order. */
  lemma AppendLayer(front: seq<Note>, layer: seq<Note>, b: nat)
    requires LayerOrdered(front) && AllBelow(front, b) && AllIn(layer, b)
    ensures LayerOrdered(front + layer) && AllBelow(front + layer, b + 1)
  {
    var all := front + layer;
    forall i | 0 <= i < |all|
      ensures Bucket(all[i].noteType) == (if i < |front| then Bucket(front[i].noteType) else b)
    {
      if i >= |front| {
        assert all[i] == layer[i - |front|];
      }
    }
  }

  /** Placing the notes of bucket `b` keeps them in layer `b`. */
  lemma PlacedInBucket(notes: seq<Note>, b: nat)
    requires b < 4
    ensures AllIn(Placed(Members(notes, b), b), b)
  {
    MembersInBucket(notes, b);
  }

  /** The layout of the first `b` layers is ordered by layer and holds
      only nodes of those layers. */
  lemma {:induction false} LayoutUpToOrdered(notes: seq<Note>, b: nat)
    requires b <= 4
    ensures LayerOrdered(LayoutUpTo(notes, b)) && AllBelow(LayoutUpTo(notes, b), b)
  {
    if b > 0 {
      LayoutUpToOrdered(notes, b - 1);
      PlacedInBucket(notes, b - 1);
      AppendLayer(LayoutUpTo(notes, b - 1), Placed(Members(notes, b - 1), b - 1), b - 1);
    }
  }

  /** The layout lists the layers in order: 결과, 행동, 유형_레버, 무형_레버. */
  lemma LayoutInLayerOrder(notes: seq<Note>)
    ensures LayerOrdered(LayoutUpTo(notes, 4))
  {
    LayoutUpToOrdered(notes, 4);
  }
}
