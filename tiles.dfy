/**
 * Tile records, grid layers and the nine-cell neighbourhood query of the
 * tile map (`NEIGHBOR_OFFSETS`, `tiles_around`, `physics_rects_around`).
 */
module Tiles {
  import opened TileKeys

  /** A pixel or grid position: the `pos` of a tile record. */
  type Pos = (int, int)

  /** A tile record `{type, pos, variant, flip}`; `kind` is its `type` tag. */
  datatype Tile = Tile(kind: string, pos: Pos, variant: int, flip: (bool, bool))

  /** An axis-aligned rectangle `(x, y, w, h)`, as `pygame.Rect` is built. */
  datatype Rect = Rect(x: int, y: int, w: int, h: int)

  /**
   * A grid layer: a dictionary from cell keys to tiles. `order` is the
   * dictionary's iteration (insertion) order, which extraction follows.
   */
  datatype Layer = Layer(order: seq<string>, cells: map<string, Tile>) {
    /** The order lists every key of the dictionary exactly once. */
    ghost predicate WellFormed() {
      && (forall i, j :: 0 <= i < j < |order| ==> order[i] != order[j])
      && (forall k :: k in cells <==> k in order)
    }
  }

  const EmptyLayer: Layer := Layer([], map[])

  /** The nine probed offsets, in the order the query visits them. */
  const NeighborOffsets: seq<(int, int)> :=
    [(-1, 0), (-1, -1), (0, -1), (1, -1), (1, 0), (0, 0), (-1, 1), (0, 1), (1, 1)]

  /** Python's floor division `a // b`; Dafny's `/` rounds differently for b < 0. */
  function FloorDiv(a: int, b: int): (q: int)
    requires b != 0
    ensures b > 0 ==> q * b <= a < q * b + b
    ensures b < 0 ==> q * b + b < a <= q * b
  {
    if b > 0 then a / b else (-a) / (-b)
  }

  /** The grid cell containing pixel position `pos`. */
  function TileLoc(pos: Pos, ts: int): (int, int)
    requires ts != 0
  {
    (FloorDiv(pos.0, ts), FloorDiv(pos.1, ts))
  }

  /** The key probed for offset `off` around cell `loc`. */
  function CellKey(loc: (int, int), off: (int, int)): string {
    Key(loc.0 + off.0, loc.1 + off.1)
  }

  /** The nine keys probed around `loc`, in offset order. */
  function NeighborKeys(loc: (int, int)): (ks: seq<string>)
    ensures |ks| == |NeighborOffsets|
  {
    seq(|NeighborOffsets|, i requires 0 <= i < |NeighborOffsets| => CellKey(loc, NeighborOffsets[i]))
  }

  /**
   * The tiles stored under `keys`, probed in turn; keys that hold no tile
   * contribute nothing.
   */
  function Lookups(cells: map<string, Tile>, keys: seq<string>): (r: seq<Tile>)
    ensures |r| <= |keys|
    decreases |keys|
  {
    if keys == [] then []
    else
      var k := keys[|keys| - 1];
      Lookups(cells, keys[..|keys| - 1]) + (if k in cells then [cells[k]] else [])
  }

  /** One probe step: the next key of `keys` probed. */
  lemma LookupsStep(cells: map<string, Tile>, keys: seq<string>, i: nat)
    requires i < |keys|
    ensures Lookups(cells, keys[..i + 1]) == Lookups(cells, keys[..i]) + (if keys[i] in cells then [cells[keys[i]]] else [])
  {
    assert keys[..i + 1][..i] == keys[..i];
  }

  /**
   * The positions, in `keys`, of the keys that hold a tile, in increasing
   * order: an independent description of which probes succeed.
   */
  function PresentIndices(cells: map<string, Tile>, keys: seq<string>): (idx: seq<nat>)
    ensures |idx| == |Lookups(cells, keys)|
    ensures forall j :: 0 <= j < |idx| ==> idx[j] < |keys|
    decreases |keys|
  {
    if keys == [] then []
    else
      var n := |keys| - 1;
      PresentIndices(cells, keys[..n]) + (if keys[n] in cells then [n] else [])
  }

  /** The j-th tile found is the one stored under the j-th present key. */
  lemma {:induction false} LookupsAt(cells: map<string, Tile>, keys: seq<string>, j: nat)
    requires j < |Lookups(cells, keys)|
    ensures keys[PresentIndices(cells, keys)[j]] in cells
    ensures Lookups(cells, keys)[j] == cells[keys[PresentIndices(cells, keys)[j]]]
    decreases |keys|
  {
    var n := |keys| - 1;
    var front := keys[..n];
    if j < |Lookups(cells, front)| {
      LookupsAt(cells, front, j);
      assert front[PresentIndices(cells, front)[j]] == keys[PresentIndices(cells, front)[j]];
    }
  }

  /** Tiles are found in probe order. */
  lemma {:induction false} PresentIndicesIncreasing(cells: map<string, Tile>, keys: seq<string>)
    ensures forall j1, j2 :: 0 <= j1 < j2 < |PresentIndices(cells, keys)| ==>
      PresentIndices(cells, keys)[j1] < PresentIndices(cells, keys)[j2]
    decreases |keys|
  {
    if keys != [] {
      PresentIndicesIncreasing(cells, keys[..|keys| - 1]);
    }
  }

  /** Every key that holds a tile is found: nothing present is skipped. */
  lemma {:induction false} PresentIndicesComplete(cells: map<string, Tile>, keys: seq<string>, i: nat)
    requires i < |keys| && keys[i] in cells
    ensures i in PresentIndices(cells, keys)
    decreases |keys|
  {
    var n := |keys| - 1;
    if i < n {
      assert keys[..n][i] == keys[i];
      PresentIndicesComplete(cells, keys[..n], i);
    }
  }

  /** Distinct offsets around one cell probe distinct keys. */
  lemma CellKeysDistinct(loc: (int, int), a: (int, int), b: (int, int))
    requires a != b
    ensures CellKey(loc, a) != CellKey(loc, b)
  {
    if CellKey(loc, a) == CellKey(loc, b) {
      KeyInjective(loc.0 + a.0, loc.1 + a.1, loc.0 + b.0, loc.1 + b.1);
      assert false;
    }
  }

  /** Around any cell the nine probed keys are pairwise distinct. */
  lemma NeighborKeysDistinct(loc: (int, int))
    ensures forall i, j :: 0 <= i < j < |NeighborOffsets| ==> NeighborKeys(loc)[i] != NeighborKeys(loc)[j]
  {
    var offs := NeighborOffsets;
    assert forall i, j :: 0 <= i < j < |offs| ==> offs[i] != offs[j];
    forall i, j | 0 <= i < j < |offs|
      ensures NeighborKeys(loc)[i] != NeighborKeys(loc)[j]
    {
      CellKeysDistinct(loc, offs[i], offs[j]);
    }
  }

  /** The collision square of a solid tile, from its own stored `pos`. */
  function TileRect(t: Tile, ts: int): Rect {
    Rect(t.pos.0 * ts, t.pos.1 * ts, ts, ts)
  }
}
