/**
 * What `extract(tile_id, keep)` computes and leaves behind, as functions
 * of the three tile collections, and the laws those functions obey.
 * Sequence functions recurse on the last element, the way the scans append.
 */
module Extraction {
  import opened Tiles

  /** The tiles of `s` whose type is `id`, in order (the off-grid matches). */
  function Matching(s: seq<Tile>, id: string): (r: seq<Tile>)
    ensures |r| <= |s|
    decreases |s|
  {
    if s == [] then []
    else Matching(s[..|s| - 1], id) + (if s[|s| - 1].kind == id then [s[|s| - 1]] else [])
  }

  /** The tiles of `s` whose type is not `id`, in order (what a drain leaves). */
  function Rest(s: seq<Tile>, id: string): (r: seq<Tile>)
    ensures |r| <= |s|
    decreases |s|
  {
    if s == [] then []
    else Rest(s[..|s| - 1], id) + (if s[|s| - 1].kind != id then [s[|s| - 1]] else [])
  }

  /** Python's `list.remove(x)`: drop the first element equal to `x`. */
  function RemoveFirst(s: seq<Tile>, x: Tile): (r: seq<Tile>)
    requires x in s
    ensures |r| == |s| - 1
  {
    if s[0] == x then s[1..] else [s[0]] + RemoveFirst(s[1..], x)
  }

  /** A grid tile as returned by extraction: its grid `pos` scaled to pixels. */
  function Scaled(t: Tile, ts: int): Tile {
    t.(pos := (t.pos.0 * ts, t.pos.1 * ts))
  }

  /** The keys, in `keys` order, whose tile has type `id`. */
  function MatchingKeys(keys: seq<string>, cells: map<string, Tile>, id: string): (r: seq<string>)
    ensures |r| <= |keys|
    decreases |keys|
  {
    if keys == [] then []
    else
      var k := keys[|keys| - 1];
      MatchingKeys(keys[..|keys| - 1], cells, id) + (if k in cells && cells[k].kind == id then [k] else [])
  }

  /** The scaled copies of the tiles of type `id`, in `keys` order (the grid matches). */
  function GridMatches(keys: seq<string>, cells: map<string, Tile>, id: string, ts: int): seq<Tile>
    decreases |keys|
  {
    if keys == [] then []
    else
      var k := keys[|keys| - 1];
      GridMatches(keys[..|keys| - 1], cells, id, ts)
        + (if k in cells && cells[k].kind == id then [Scaled(cells[k], ts)] else [])
  }

  /** `keys` without the members of `gone`, in order (`dict.pop` leaves the rest in order). */
  function DropKeys(keys: seq<string>, gone: set<string>): (r: seq<string>)
    ensures |r| <= |keys|
    decreases |keys|
  {
    if keys == [] then []
    else
      var k := keys[|keys| - 1];
      DropKeys(keys[..|keys| - 1], gone) + (if k in gone then [] else [k])
  }

  function Elems(s: seq<string>): set<string> {
    set k | k in s
  }

  /** The keys of a layer whose tile has type `id`. */
  function MatchKeySet(l: Layer, id: string): set<string> {
    set k | k in l.cells && l.cells[k].kind == id
  }

  /** A layer with every tile of type `id` popped. */
  function Drain(l: Layer, id: string): Layer {
    var gone := MatchKeySet(l, id);
    Layer(DropKeys(l.order, gone), l.cells - gone)
  }

  /** A dictionary `pop(k)`: the key leaves both the order and the map. */
  function Pop(l: Layer, k: string): Layer {
    Layer(DropKeys(l.order, {k}), l.cells - {k})
  }

  /** The whole result of `extract`: off-grid matches, then solid, then decorative. */
  function ExtractResult(offgrid: seq<Tile>, solid: Layer, tile: Layer, id: string, ts: int): seq<Tile> {
    Matching(offgrid, id) + GridMatches(solid.order, solid.cells, id, ts) + GridMatches(tile.order, tile.cells, id, ts)
  }

  // ---------------------------------------------------------------------
  // One step of each scan: the last element appended
  // ---------------------------------------------------------------------

  lemma MatchingSnoc(s: seq<Tile>, x: Tile, id: string)
    ensures Matching(s + [x], id) == Matching(s, id) + (if x.kind == id then [x] else [])
  {
  }

  lemma RestSnoc(s: seq<Tile>, x: Tile, id: string)
    ensures Rest(s + [x], id) == Rest(s, id) + (if x.kind != id then [x] else [])
  {
  }

  lemma MatchingKeysSnoc(keys: seq<string>, k: string, cells: map<string, Tile>, id: string)
    ensures MatchingKeys(keys + [k], cells, id)
         == MatchingKeys(keys, cells, id) + (if k in cells && cells[k].kind == id then [k] else [])
  {
  }

  lemma GridMatchesSnoc(keys: seq<string>, k: string, cells: map<string, Tile>, id: string, ts: int)
    ensures GridMatches(keys + [k], cells, id, ts)
         == GridMatches(keys, cells, id, ts) + (if k in cells && cells[k].kind == id then [Scaled(cells[k], ts)] else [])
  {
  }

  lemma DropKeysSnoc(keys: seq<string>, k: string, gone: set<string>)
    ensures DropKeys(keys + [k], gone) == DropKeys(keys, gone) + (if k in gone then [] else [k])
  {
  }

  predicate Distinct(s: seq<string>) {
    forall i, j :: 0 <= i < j < |s| ==> s[i] != s[j]
  }

  lemma DistinctSnoc(s: seq<string>, x: string)
    ensures Distinct(s + [x]) <==> Distinct(s) && x !in s
  {
    var t := s + [x];
    if Distinct(t) {
      forall i, j | 0 <= i < j < |s| ensures s[i] != s[j] {
        assert s[i] == t[i] && s[j] == t[j];
      }
      forall i | 0 <= i < |s| ensures s[i] != x {
        assert t[i] == s[i] && t[|s|] == x;
      }
    }
  }

  // ---------------------------------------------------------------------
  // Off-grid list: matches and rest
  // ---------------------------------------------------------------------

  /** Every off-grid match has the requested type. */
  lemma {:induction false} MatchingKinds(s: seq<Tile>, id: string)
    ensures forall t :: t in Matching(s, id) ==> t.kind == id
    decreases |s|
  {
    if s != [] {
      MatchingKinds(s[..|s| - 1], id);
    }
  }

  /** Nothing the drain leaves has the drained type. */
  lemma {:induction false} RestKinds(s: seq<Tile>, id: string)
    ensures forall t :: t in Rest(s, id) ==> t.kind != id
    decreases |s|
  {
    if s != [] {
      RestKinds(s[..|s| - 1], id);
    }
  }

  /** Matches and rest split the list: together they are a permutation of it. */
  lemma {:induction false} MatchingRestPartition(s: seq<Tile>, id: string)
    ensures multiset(Matching(s, id)) + multiset(Rest(s, id)) == multiset(s)
    decreases |s|
  {
    if s != [] {
      var n := |s| - 1;
      MatchingRestPartition(s[..n], id);
      assert s == s[..n] + [s[n]];
    }
  }

  /** The rest keeps relative order: filtering distributes over concatenation. */
  lemma {:induction false} RestAppend(a: seq<Tile>, b: seq<Tile>, id: string)
    ensures Rest(a + b, id) == Rest(a, id) + Rest(b, id)
    decreases |b|
  {
    if b != [] {
      var n := |b| - 1;
      assert b == b[..n] + [b[n]];
      assert a + b == (a + b[..n]) + [b[n]];
      RestAppend(a, b[..n], id);
      RestSnoc(a + b[..n], b[n], id);
      RestSnoc(b[..n], b[n], id);
      var t := if b[n].kind != id then [b[n]] else [];
      assert (Rest(a, id) + Rest(b[..n], id)) + t == Rest(a, id) + (Rest(b[..n], id) + t);
    } else {
      assert a + b == a;
    }
  }

  /** A list with nothing of type `id` is left exactly as it was. */
  lemma {:induction false} RestOfUnmatched(s: seq<Tile>, id: string)
    requires forall i :: 0 <= i < |s| ==> s[i].kind != id
    ensures Rest(s, id) == s
    decreases |s|
  {
    if s != [] {
      var n := |s| - 1;
      RestOfUnmatched(s[..n], id);
      assert s == s[..n] + [s[n]];
      RestSnoc(s[..n], s[n], id);
    }
  }

  lemma {:induction false} MatchingAppend(a: seq<Tile>, b: seq<Tile>, id: string)
    ensures Matching(a + b, id) == Matching(a, id) + Matching(b, id)
    decreases |b|
  {
    if b != [] {
      var n := |b| - 1;
      assert b == b[..n] + [b[n]];
      assert a + b == (a + b[..n]) + [b[n]];
      MatchingAppend(a, b[..n], id);
      MatchingSnoc(a + b[..n], b[n], id);
      MatchingSnoc(b[..n], b[n], id);
      var t := if b[n].kind == id then [b[n]] else [];
      assert (Matching(a, id) + Matching(b[..n], id)) + t == Matching(a, id) + (Matching(b[..n], id) + t);
    } else {
      assert a + b == a;
    }
  }

  /** Draining a drained list finds nothing. */
  lemma {:induction false} MatchingOfRest(s: seq<Tile>, id: string)
    ensures Matching(Rest(s, id), id) == []
    decreases |s|
  {
    if s != [] {
      var n := |s| - 1;
      MatchingOfRest(s[..n], id);
      var tail := if s[n].kind != id then [s[n]] else [];
      MatchingAppend(Rest(s[..n], id), tail, id);
      if tail != [] {
        MatchingSnoc([], s[n], id);
      }
    }
  }

  /** Draining another type keeps every match of `id`, in order. */
  lemma {:induction false} MatchingOfOtherRest(s: seq<Tile>, id: string, other: string)
    requires id != other
    ensures Matching(Rest(s, other), id) == Matching(s, id)
    decreases |s|
  {
    if s != [] {
      var n := |s| - 1;
      MatchingOfOtherRest(s[..n], id, other);
      var tail := if s[n].kind != other then [s[n]] else [];
      MatchingAppend(Rest(s[..n], other), tail, id);
      if tail != [] {
        MatchingSnoc([], s[n], id);
      }
    }
  }

  /** Removing an element that lies past a prefix leaves the prefix alone. */
  lemma {:induction false} RemoveFirstPastPrefix(a: seq<Tile>, b: seq<Tile>, x: Tile)
    requires x !in a && x in b
    ensures RemoveFirst(a + b, x) == a + RemoveFirst(b, x)
    decreases |a|
  {
    if a != [] {
      assert (a + b)[0] == a[0] && (a + b)[1..] == a[1..] + b;
      RemoveFirstPastPrefix(a[1..], b, x);
      assert a == [a[0]] + a[1..];
      assert [a[0]] + (a[1..] + RemoveFirst(b, x)) == ([a[0]] + a[1..]) + RemoveFirst(b, x);
    } else {
      assert a + b == b;
    }
  }

  /**
   * One step of the off-grid drain over a snapshot `s`: with the first `i`
   * tiles drained and the rest untouched, removing a match `s[i]` with
   * `list.remove` (or skipping a non-match) advances the drain by one tile.
   */
  lemma RemoveStep(s: seq<Tile>, i: nat, id: string)
    requires i < |s|
    ensures s[i].kind == id ==>
      && s[i] in Rest(s[..i], id) + s[i..]
      && RemoveFirst(Rest(s[..i], id) + s[i..], s[i]) == Rest(s[..i + 1], id) + s[i + 1..]
    ensures s[i].kind != id ==> Rest(s[..i], id) + s[i..] == Rest(s[..i + 1], id) + s[i + 1..]
  {
    var t := s[i];
    var done := Rest(s[..i], id);
    assert s[..i + 1] == s[..i] + [t];
    RestSnoc(s[..i], t, id);
    if t.kind == id {
      assert Rest(s[..i + 1], id) == done;
      RestKinds(s[..i], id);
      assert t !in done;
      assert s[i..][0] == t && s[i..][1..] == s[i + 1..];
      assert RemoveFirst(s[i..], t) == s[i + 1..];
      RemoveFirstPastPrefix(done, s[i..], t);
    } else {
      assert s[i..] == [t] + s[i + 1..];
      assert (done + [t]) + s[i + 1..] == done + ([t] + s[i + 1..]);
    }
  }

  // ---------------------------------------------------------------------
  // Grid layers: matched keys, scaled matches, drained layers
  // ---------------------------------------------------------------------

  /** The j-th grid match is the j-th matching key's tile, scaled to pixels. */
  lemma {:induction false} GridMatchesAt(keys: seq<string>, cells: map<string, Tile>, id: string, ts: int)
    ensures |GridMatches(keys, cells, id, ts)| == |MatchingKeys(keys, cells, id)|
    ensures forall j :: 0 <= j < |MatchingKeys(keys, cells, id)| ==>
      var k := MatchingKeys(keys, cells, id)[j];
      && k in cells && cells[k].kind == id
      && GridMatches(keys, cells, id, ts)[j] == Scaled(cells[k], ts)
    decreases |keys|
  {
    if keys != [] {
      GridMatchesAt(keys[..|keys| - 1], cells, id, ts);
    }
  }

  /** The matched keys are exactly the keys in `keys` whose tile has type `id`. */
  lemma {:induction false} MatchingKeysMembers(keys: seq<string>, cells: map<string, Tile>, id: string)
    ensures forall k :: k in MatchingKeys(keys, cells, id) <==> k in keys && k in cells && cells[k].kind == id
    decreases |keys|
  {
    if keys != [] {
      var n := |keys| - 1;
      MatchingKeysMembers(keys[..n], cells, id);
      assert keys == keys[..n] + [keys[n]];
      MatchingKeysSnoc(keys[..n], keys[n], cells, id);
    }
  }

  /** Distinct keys give distinct matched keys. */
  lemma {:induction false} MatchingKeysDistinct(keys: seq<string>, cells: map<string, Tile>, id: string)
    requires Distinct(keys)
    ensures Distinct(MatchingKeys(keys, cells, id))
    decreases |keys|
  {
    if keys != [] {
      var n := |keys| - 1;
      assert keys == keys[..n] + [keys[n]];
      DistinctSnoc(keys[..n], keys[n]);
      MatchingKeysDistinct(keys[..n], cells, id);
      MatchingKeysMembers(keys[..n], cells, id);
      MatchingKeysSnoc(keys[..n], keys[n], cells, id);
      DistinctSnoc(MatchingKeys(keys[..n], cells, id), keys[n]);
    }
  }

  /** A sequence without repeats has as many elements as its set. */
  lemma {:induction false} DistinctCard(s: seq<string>)
    requires Distinct(s)
    ensures |Elems(s)| == |s|
    decreases |s|
  {
    if s != [] {
      var n := |s| - 1;
      assert s == s[..n] + [s[n]];
      DistinctSnoc(s[..n], s[n]);
      DistinctCard(s[..n]);
      assert Elems(s) == Elems(s[..n]) + {s[n]};
    }
  }

  /** Over a well-formed layer, the scan visits exactly the matching keys, once each. */
  lemma MatchingKeysOfLayer(l: Layer, id: string)
    requires l.WellFormed()
    ensures Elems(MatchingKeys(l.order, l.cells, id)) == MatchKeySet(l, id)
    ensures |MatchingKeys(l.order, l.cells, id)| == |MatchKeySet(l, id)|
  {
    MatchingKeysMembers(l.order, l.cells, id);
    MatchingKeysDistinct(l.order, l.cells, id);
    DistinctCard(MatchingKeys(l.order, l.cells, id));
  }

  /** The dropped keys leave the order, and the rest stay, without repeats. */
  lemma {:induction false} DropKeysMembers(keys: seq<string>, gone: set<string>)
    ensures forall k :: k in DropKeys(keys, gone) <==> k in keys && k !in gone
    ensures Distinct(keys) ==> Distinct(DropKeys(keys, gone))
    decreases |keys|
  {
    if keys != [] {
      var n := |keys| - 1;
      DropKeysMembers(keys[..n], gone);
      assert keys == keys[..n] + [keys[n]];
      DropKeysSnoc(keys[..n], keys[n], gone);
      DistinctSnoc(keys[..n], keys[n]);
      DistinctSnoc(DropKeys(keys[..n], gone), keys[n]);
    }
  }

  lemma {:induction false} DropKeysAppend(a: seq<string>, b: seq<string>, gone: set<string>)
    ensures DropKeys(a + b, gone) == DropKeys(a, gone) + DropKeys(b, gone)
    decreases |b|
  {
    if b != [] {
      var n := |b| - 1;
      assert b == b[..n] + [b[n]];
      assert a + b == (a + b[..n]) + [b[n]];
      DropKeysAppend(a, b[..n], gone);
      DropKeysSnoc(a + b[..n], b[n], gone);
      DropKeysSnoc(b[..n], b[n], gone);
      var t := if b[n] in gone then [] else [b[n]];
      assert (DropKeys(a, gone) + DropKeys(b[..n], gone)) + t == DropKeys(a, gone) + (DropKeys(b[..n], gone) + t);
    } else {
      assert a + b == a;
    }
  }

  /** Dropping one key after a set of keys is dropping their union. */
  lemma {:induction false} DropKeysTwice(keys: seq<string>, gone: set<string>, k: string)
    ensures DropKeys(DropKeys(keys, gone), {k}) == DropKeys(keys, gone + {k})
    decreases |keys|
  {
    if keys != [] {
      var n := |keys| - 1;
      assert keys == keys[..n] + [keys[n]];
      DropKeysTwice(keys[..n], gone, k);
      DropKeysSnoc(keys[..n], keys[n], gone);
      DropKeysSnoc(keys[..n], keys[n], gone + {k});
      var front := DropKeys(keys[..n], gone);
      var last := if keys[n] in gone then [] else [keys[n]];
      DropKeysAppend(front, last, {k});
      if last != [] {
        DropKeysSnoc([], keys[n], {k});
      }
    }
  }

  /** Popping the next noted key from a partly drained layer drains one key more. */
  lemma PopStep(l: Layer, gone: seq<string>, j: nat)
    requires j < |gone|
    ensures Pop(Layer(DropKeys(l.order, Elems(gone[..j])), l.cells - Elems(gone[..j])), gone[j])
         == Layer(DropKeys(l.order, Elems(gone[..j + 1])), l.cells - Elems(gone[..j + 1]))
  {
    var before := Elems(gone[..j]);
    assert gone[..j + 1] == gone[..j] + [gone[j]];
    assert Elems(gone[..j + 1]) == before + {gone[j]};
    DropKeysTwice(l.order, before, gone[j]);
    assert (l.cells - before) - {gone[j]} == l.cells - (before + {gone[j]});
  }

  lemma {:induction false} DropNothing(keys: seq<string>)
    ensures DropKeys(keys, {}) == keys
    decreases |keys|
  {
    if keys != [] {
      var n := |keys| - 1;
      DropNothing(keys[..n]);
      assert keys == keys[..n] + [keys[n]];
      DropKeysSnoc(keys[..n], keys[n], {});
    }
  }

  /**
   * Draining a layer removes exactly the keys whose tile has type `id`,
   * leaves every other entry as it was, and keeps the layer well formed.
   */
  lemma DrainExactly(l: Layer, id: string)
    ensures forall k :: k in Drain(l, id).cells <==> k in l.cells && l.cells[k].kind != id
    ensures forall k :: k in Drain(l, id).cells ==> Drain(l, id).cells[k] == l.cells[k]
    ensures l.WellFormed() ==> Drain(l, id).WellFormed()
  {
    var gone := MatchKeySet(l, id);
    DropKeysMembers(l.order, gone);
    if l.WellFormed() {
      assert Distinct(l.order);
    }
  }

  /** A scan over cells that hold no tile of type `id` finds nothing. */
  lemma {:induction false} GridMatchesNone(keys: seq<string>, cells: map<string, Tile>, id: string, ts: int)
    requires forall k :: k in cells ==> cells[k].kind != id
    ensures GridMatches(keys, cells, id, ts) == []
    decreases |keys|
  {
    if keys != [] {
      GridMatchesNone(keys[..|keys| - 1], cells, id, ts);
    }
  }

  /** Dropping keys that hold no tile of type `id` does not change the matches of `id`. */
  lemma {:induction false} GridMatchesIgnoreDropped(keys: seq<string>, cells: map<string, Tile>, gone: set<string>, id: string, ts: int)
    requires forall k :: k in gone && k in cells ==> cells[k].kind != id
    ensures GridMatches(DropKeys(keys, gone), cells - gone, id, ts) == GridMatches(keys, cells, id, ts)
    decreases |keys|
  {
    if keys != [] {
      var n := |keys| - 1;
      var k := keys[n];
      assert keys == keys[..n] + [k];
      GridMatchesIgnoreDropped(keys[..n], cells, gone, id, ts);
      DropKeysSnoc(keys[..n], k, gone);
      GridMatchesSnoc(keys[..n], k, cells, id, ts);
      var front := DropKeys(keys[..n], gone);
      if k !in gone {
        GridMatchesSnoc(front, k, cells - gone, id, ts);
        assert (k in cells - gone) == (k in cells);
      } else {
        assert DropKeys(keys, gone) == front;
      }
    }
  }

  // ---------------------------------------------------------------------
  // The properties of extract as a whole
  // ---------------------------------------------------------------------

  /** Every record `extract(id)` returns has type `id`. */
  lemma ExtractKinds(offgrid: seq<Tile>, solid: Layer, tile: Layer, id: string, ts: int)
    ensures forall t :: t in ExtractResult(offgrid, solid, tile, id, ts) ==> t.kind == id
  {
    MatchingKinds(offgrid, id);
    GridMatchesAt(solid.order, solid.cells, id, ts);
    GridMatchesAt(tile.order, tile.cells, id, ts);
    var g1, g2 := GridMatches(solid.order, solid.cells, id, ts), GridMatches(tile.order, tile.cells, id, ts);
    assert forall j :: 0 <= j < |g1| ==> g1[j].kind == id;
    assert forall j :: 0 <= j < |g2| ==> g2[j].kind == id;
  }

  /** The number of records is the number of matches in the three collections. */
  lemma ExtractCount(offgrid: seq<Tile>, solid: Layer, tile: Layer, id: string, ts: int)
    requires solid.WellFormed() && tile.WellFormed()
    ensures |ExtractResult(offgrid, solid, tile, id, ts)|
         == |Matching(offgrid, id)| + |MatchKeySet(solid, id)| + |MatchKeySet(tile, id)|
  {
    GridMatchesAt(solid.order, solid.cells, id, ts);
    GridMatchesAt(tile.order, tile.cells, id, ts);
    MatchingKeysOfLayer(solid, id);
    MatchingKeysOfLayer(tile, id);
  }

  /** After a drain of `id`, extracting `id` again returns nothing. */
  lemma ExtractAfterDrain(offgrid: seq<Tile>, solid: Layer, tile: Layer, id: string, ts: int)
    ensures ExtractResult(Rest(offgrid, id), Drain(solid, id), Drain(tile, id), id, ts) == []
  {
    MatchingOfRest(offgrid, id);
    DrainExactly(solid, id);
    DrainExactly(tile, id);
    GridMatchesNone(Drain(solid, id).order, Drain(solid, id).cells, id, ts);
    GridMatchesNone(Drain(tile, id).order, Drain(tile, id).cells, id, ts);
  }

  /** Draining one type leaves the extraction of any other type unchanged. */
  lemma ExtractAfterOtherDrain(offgrid: seq<Tile>, solid: Layer, tile: Layer, id: string, other: string, ts: int)
    requires id != other
    ensures ExtractResult(Rest(offgrid, other), Drain(solid, other), Drain(tile, other), id, ts)
         == ExtractResult(offgrid, solid, tile, id, ts)
  {
    MatchingOfOtherRest(offgrid, id, other);
    GridMatchesIgnoreDropped(solid.order, solid.cells, MatchKeySet(solid, other), id, ts);
    GridMatchesIgnoreDropped(tile.order, tile.cells, MatchKeySet(tile, other), id, ts);
  }
}
