/**
 * The tile store `TileMap`: its fields, the neighbourhood queries, the
 * extraction of tiles by type, and loading a level document.
 */
module TileStore {
  import opened Wrappers
  import opened Tiles
  import opened Extraction
  import opened LevelDocument

  /** The state of a freshly built tile map (an unset position reads as the origin, an unset portal as absent). */
  const Blank: Level := Level("", (0, 0, 0), 0, EmptyLayer, EmptyLayer, [], Origin, None)

  class TileMap {
    var mapType: string
    var background: Color
    var solidTile: Layer
    var tile: Layer
    var tileSize: int
    var offgridTiles: seq<Tile>
    var playerPos: Pos
    var portalPos: Option<Coords>

    /** Both grid layers are dictionaries. */
    ghost predicate Valid()
      reads this
    {
      solidTile.WellFormed() && tile.WellFormed()
    }

    /** All the fields, as one value. */
    function Snapshot(): Level
      reads this
    {
      Level(mapType, background, tileSize, solidTile, tile, offgridTiles, playerPos, portalPos)
    }

    constructor ()
      ensures Valid()
      ensures Snapshot() == Blank
    {
      mapType := "";
      background := (0, 0, 0);
      solidTile := EmptyLayer;
      tile := EmptyLayer;
      tileSize := 0;
      offgridTiles := [];
      playerPos := Origin;
      portalPos := None;
    }

    /**
     * The tiles stored in the nine cells around the cell holding `pos`,
     * probed in offset order, from the solid layer or the decorative one.
     */
    method TilesAround(pos: Pos, solid: bool) returns (tiles: seq<Tile>)
      requires tileSize != 0
      ensures tiles == Lookups((if solid then solidTile else tile).cells, NeighborKeys(TileLoc(pos, tileSize)))
      ensures |tiles| <= |NeighborOffsets|
    {
      var tileDict := if solid then solidTile.cells else tile.cells;
      tiles := [];
      var tileLoc := (FloorDiv(pos.0, tileSize), FloorDiv(pos.1, tileSize));
      ghost var keys := NeighborKeys(tileLoc);
      for i := 0 to |NeighborOffsets|
        invariant tiles == Lookups(tileDict, keys[..i])
      {
        var offset := NeighborOffsets[i];
        var checkLoc := CellKey(tileLoc, offset);
        LookupsStep(tileDict, keys, i);
        if checkLoc in tileDict {
          tiles := tiles + [tileDict[checkLoc]];
        }
      }
      assert keys[..|NeighborOffsets|] == keys;
    }

    /** One collision square per solid neighbour, in the same order, built from the tile's stored `pos`. */
    method PhysicsRectsAround(pos: Pos) returns (rects: seq<Rect>)
      requires tileSize != 0
      ensures var near := Lookups(solidTile.cells, NeighborKeys(TileLoc(pos, tileSize)));
              |rects| == |near| && forall j :: 0 <= j < |rects| ==> rects[j] == TileRect(near[j], tileSize)
    {
      var near := TilesAround(pos, true);
      rects := [];
      for i := 0 to |near|
        invariant |rects| == i
        invariant forall j :: 0 <= j < i ==> rects[j] == TileRect(near[j], tileSize)
      {
        var t := near[i];
        rects := rects + [Rect(t.pos.0 * tileSize, t.pos.1 * tileSize, tileSize, tileSize)];
      }
    }

    /**
     * The records of type `id` from the off-grid list, then the solid
     * layer, then the decorative layer (grid positions scaled to pixels);
     * unless `keep`, the matches are also removed from the store.
     */
    method Extract(id: string, keep: bool) returns (matches: seq<Tile>)
      requires Valid()
      modifies this
      ensures Valid()
      ensures matches == ExtractResult(old(offgridTiles), old(solidTile), old(tile), id, tileSize)
      ensures offgridTiles == if keep then old(offgridTiles) else Rest(old(offgridTiles), id)
      ensures solidTile == if keep then old(solidTile) else Drain(old(solidTile), id)
      ensures tile == if keep then old(tile) else Drain(old(tile), id)
      ensures mapType == old(mapType) && background == old(background) && tileSize == old(tileSize)
      ensures playerPos == old(playerPos) && portalPos == old(portalPos)
    {
      var solidFound, tileFound;
      matches, offgridTiles := ExtractOffgrid(offgridTiles, id, keep);
      solidFound, solidTile := ExtractGrid(solidTile, id, keep, tileSize);
      matches := matches + solidFound;
      tileFound, tile := ExtractGrid(tile, id, keep, tileSize);
      matches := matches + tileFound;
      if !keep {
        DrainExactly(old(solidTile), id);
        DrainExactly(old(tile), id);
      }
    }

    /**
     * Reads the fields of a level document in order, stopping with an
     * error at the first one that cannot be read; the fields already
     * assigned keep their new value.
     */
    method Load(doc: Document) returns (err: Option<LoadError>)
      requires doc.Valid()
      requires Valid()
      modifies this
      ensures Valid()
      ensures err == Decode(doc).ErrorOf()
      ensures Snapshot() == Overwrite(old(Snapshot()), doc)
    {
      if doc.mapType.None? { return Some(MissingKey("map_type")); }
      mapType := doc.mapType.value;
      if doc.background.None? { return Some(MissingKey("background")); }
      background := doc.background.value;
      if doc.tileSize.None? { return Some(MissingKey("tile_size")); }
      tileSize := doc.tileSize.value;
      if doc.solidTile.None? { return Some(MissingKey("solid_tile")); }
      solidTile := doc.solidTile.value;
      if doc.tile.None? { return Some(MissingKey("tile")); }
      tile := doc.tile.value;
      if doc.offgrid.None? { return Some(MissingKey("offgrid")); }
      offgridTiles := doc.offgrid.value;
      playerPos := doc.player.GetOr(Origin);
      match doc.portalPos {
        case None =>
          portalPos := None;
        case Some(NotAnObject) =>
          return Some(PortalNotAnObject);
        case Some(PortalObject(p)) =>
          portalPos := Some(p.GetOr((Some(0), Some(0))));
      }
      err := None;
    }
  }

  /**
   * The off-grid phase of `extract`: scan a snapshot of the list, collect
   * each match, and unless `keep` remove it from the live list with
   * `list.remove`, which drops the first equal element.
   */
  method ExtractOffgrid(tiles: seq<Tile>, id: string, keep: bool) returns (found: seq<Tile>, rest: seq<Tile>)
    ensures found == Matching(tiles, id)
    ensures rest == if keep then tiles else Rest(tiles, id)
  {
    found, rest := [], tiles;
    for i := 0 to |tiles|
      invariant found == Matching(tiles[..i], id)
      invariant rest == if keep then tiles else Rest(tiles[..i], id) + tiles[i..]
    {
      var t := tiles[i];
      assert tiles[..i + 1] == tiles[..i] + [t];
      MatchingSnoc(tiles[..i], t, id);
      RemoveStep(tiles, i, id);
      if t.kind == id {
        found := found + [t];
        if !keep {
          rest := RemoveFirst(rest, t);
        }
      }
    }
    assert tiles[..|tiles|] == tiles;
  }

  /**
   * The phase of `extract` for one grid layer: scan it, then pop the
   * keys the scan noted.
   */
  method ExtractGrid(layer: Layer, id: string, keep: bool, ts: int) returns (found: seq<Tile>, rest: Layer)
    requires layer.WellFormed()
    ensures found == GridMatches(layer.order, layer.cells, id, ts)
    ensures rest == if keep then layer else Drain(layer, id)
  {
    var delete;
    found, delete := ScanLayer(layer, id, keep, ts);
    rest := PopKeys(layer, delete);
    if !keep {
      MatchingKeysOfLayer(layer, id);
      assert Elems(delete) == MatchKeySet(layer, id);
    } else {
      assert Elems(delete) == {};
      DropNothing(layer.order);
      assert layer.cells - {} == layer.cells;
    }
  }

  /**
   * The scan over one grid layer in key order: each match is collected
   * with its position scaled by `ts` and, unless `keep`, its key noted.
   */
  method ScanLayer(layer: Layer, id: string, keep: bool, ts: int) returns (found: seq<Tile>, delete: seq<string>)
    requires layer.WellFormed()
    ensures found == GridMatches(layer.order, layer.cells, id, ts)
    ensures delete == if keep then [] else MatchingKeys(layer.order, layer.cells, id)
  {
    found, delete := [], [];
    for j := 0 to |layer.order|
      invariant found == GridMatches(layer.order[..j], layer.cells, id, ts)
      invariant delete == if keep then [] else MatchingKeys(layer.order[..j], layer.cells, id)
    {
      var loc := layer.order[j];
      assert layer.order[..j + 1] == layer.order[..j] + [loc];
      GridMatchesSnoc(layer.order[..j], loc, layer.cells, id, ts);
      MatchingKeysSnoc(layer.order[..j], loc, layer.cells, id);
      var t := layer.cells[loc];
      if t.kind == id {
        found := found + [Scaled(t, ts)];
        if !keep {
          delete := delete + [loc];
        }
      }
    }
    assert layer.order[..|layer.order|] == layer.order;
  }

  /** Pops each noted key from the layer in turn. */
  method PopKeys(layer: Layer, delete: seq<string>) returns (rest: Layer)
    ensures rest == Layer(DropKeys(layer.order, Elems(delete)), layer.cells - Elems(delete))
  {
    rest := layer;
    DropNothing(layer.order);
    assert Elems(delete[..0]) == {};
    assert layer.cells - {} == layer.cells;
    for j := 0 to |delete|
      invariant rest == Layer(DropKeys(layer.order, Elems(delete[..j])), layer.cells - Elems(delete[..j]))
    {
      PopStep(layer, delete, j);
      rest := Pop(rest, delete[j]);
    }
    assert delete[..|delete|] == delete;
  }
}
