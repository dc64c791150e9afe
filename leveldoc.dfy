/**
 * The level document read by `TileMap.load`, seen as an abstract key/value
 * record (JSON parsing is not modelled), and the rules by which `load`
 * turns it into tile-map state: the required keys, the `player` default,
 * and the `portal_pos` presence test.
 */
module LevelDocument {
  import opened Wrappers
  import opened Tiles

  /** An RGB background colour. */
  type Color = (int, int, int)

  /** A portal position; either coordinate may be JSON `null`. */
  type Coords = (Option<int>, Option<int>)

  /** The value under `portal_pos`: an object, possibly without `pos`, or anything else. */
  datatype PortalField = PortalObject(pos: Option<Coords>) | NotAnObject

  /** A level file's top-level object; `None` marks an absent key. */
  datatype Document = Document(
    mapType: Option<string>,
    background: Option<Color>,
    tileSize: Option<int>,
    solidTile: Option<Layer>,
    tile: Option<Layer>,
    offgrid: Option<seq<Tile>>,
    player: Option<Pos>,
    portalPos: Option<PortalField>)
  {
    /** Dictionaries read from a file are always well formed. */
    ghost predicate Valid() {
      && (solidTile.Some? ==> solidTile.value.WellFormed())
      && (tile.Some? ==> tile.value.WellFormed())
    }
  }

  /** The state a successful load leaves in a tile map. */
  datatype Level = Level(
    mapType: string,
    background: Color,
    tileSize: int,
    solid: Layer,
    tile: Layer,
    offgrid: seq<Tile>,
    playerPos: Pos,
    portalPos: Option<Coords>)

  /** What `load` raises: a `KeyError` for a required key, or a failed `.get` on `portal_pos`. */
  datatype LoadError = MissingKey(key: string) | PortalNotAnObject

  /** The keys `load` reads with `map_data[...]`, in the order it reads them. */
  const RequiredKeys: seq<string> := ["map_type", "background", "tile_size", "solid_tile", "tile", "offgrid"]

  /** Whether the i-th required key is present. */
  predicate Has(doc: Document, i: nat) {
    if i == 0 then doc.mapType.Some?
    else if i == 1 then doc.background.Some?
    else if i == 2 then doc.tileSize.Some?
    else if i == 3 then doc.solidTile.Some?
    else if i == 4 then doc.tile.Some?
    else if i == 5 then doc.offgrid.Some?
    else false
  }

  /** The index of the first absent required key at or after `i` (6 when all are present). */
  function FirstMissingFrom(doc: Document, i: nat): (n: nat)
    requires i <= |RequiredKeys|
    ensures i <= n <= |RequiredKeys|
    ensures forall j :: i <= j < n ==> Has(doc, j)
    ensures n < |RequiredKeys| ==> !Has(doc, n)
    decreases |RequiredKeys| - i
  {
    if i == |RequiredKeys| || !Has(doc, i) then i else FirstMissingFrom(doc, i + 1)
  }

  function FirstMissing(doc: Document): nat {
    FirstMissingFrom(doc, 0)
  }

  const Origin: Pos := (0, 0)

  /**
   * `load` as a decode: the required keys in order, `player` defaulting to
   * the origin, and a portal exactly when the key `portal_pos` is present.
   */
  function Decode(doc: Document): (r: Result<Level, LoadError>)
    ensures r.Success? && doc.player.None? ==> r.value.playerPos == Origin
    ensures r.Success? ==> (r.value.portalPos.None? <==> doc.portalPos.None?)
    ensures r.Success? && doc.portalPos == Some(PortalObject(None)) ==> r.value.portalPos == Some((Some(0), Some(0)))
    ensures r.Success? && doc.player.Some? ==> r.value.playerPos == doc.player.value
    ensures r.Success? && doc.portalPos.Some? && doc.portalPos.value.PortalObject? && doc.portalPos.value.pos.Some? ==>
              r.value.portalPos == Some(doc.portalPos.value.pos.value)
  {
    if doc.mapType.None? then Failure(MissingKey("map_type"))
    else if doc.background.None? then Failure(MissingKey("background"))
    else if doc.tileSize.None? then Failure(MissingKey("tile_size"))
    else if doc.solidTile.None? then Failure(MissingKey("solid_tile"))
    else if doc.tile.None? then Failure(MissingKey("tile"))
    else if doc.offgrid.None? then Failure(MissingKey("offgrid"))
    else
      var playerPos := doc.player.GetOr(Origin);
      var level := Level(doc.mapType.value, doc.background.value, doc.tileSize.value,
                         doc.solidTile.value, doc.tile.value, doc.offgrid.value, playerPos, None);
      match doc.portalPos
      case None => Success(level)
      case Some(NotAnObject) => Failure(PortalNotAnObject)
      case Some(PortalObject(p)) => Success(level.(portalPos := Some(p.GetOr((Some(0), Some(0))))))
  }

  /**
   * A load fails exactly when a required key is missing, naming the first
   * one in reading order, or when `portal_pos` is not an object.
   */
  lemma DecodeErrors(doc: Document)
    ensures Decode(doc).Success? <==> FirstMissing(doc) == |RequiredKeys| && doc.portalPos != Some(NotAnObject)
    ensures FirstMissing(doc) < |RequiredKeys| ==> Decode(doc) == Failure(MissingKey(RequiredKeys[FirstMissing(doc)]))
    ensures FirstMissing(doc) == |RequiredKeys| && doc.portalPos == Some(NotAnObject) ==> Decode(doc) == Failure(PortalNotAnObject)
  {
  }

  /**
   * The state `load` leaves behind when it starts from `prev`: it assigns
   * the fields one by one in reading order and stops at the first key it
   * cannot read, so the fields already assigned keep their new value.
   */
  function Overwrite(prev: Level, doc: Document): Level {
    if doc.mapType.None? then prev else
    var s1 := prev.(mapType := doc.mapType.value);
    if doc.background.None? then s1 else
    var s2 := s1.(background := doc.background.value);
    if doc.tileSize.None? then s2 else
    var s3 := s2.(tileSize := doc.tileSize.value);
    if doc.solidTile.None? then s3 else
    var s4 := s3.(solid := doc.solidTile.value);
    if doc.tile.None? then s4 else
    var s5 := s4.(tile := doc.tile.value);
    if doc.offgrid.None? then s5 else
    var s6 := s5.(offgrid := doc.offgrid.value, playerPos := doc.player.GetOr(Origin));
    match doc.portalPos
    case None => s6.(portalPos := None)
    case Some(NotAnObject) => s6
    case Some(PortalObject(p)) => s6.(portalPos := Some(p.GetOr((Some(0), Some(0)))))
  }

  /** When the load succeeds, whatever the previous state, it is the decoded level. */
  lemma OverwriteComplete(prev: Level, doc: Document)
    requires Decode(doc).Success?
    ensures Overwrite(prev, doc) == Decode(doc).value
  {
  }

  /**
   * Field by field, a load takes the document's value exactly for the
   * required keys before the first missing one; the player and the portal
   * are assigned only once all required keys are read, and a portal value
   * that is not an object leaves the previous portal in place.
   */
  lemma OverwriteFields(prev: Level, doc: Document)
    ensures var n, r := FirstMissing(doc), Overwrite(prev, doc);
      && r.mapType == (if n > 0 then doc.mapType.value else prev.mapType)
      && r.background == (if n > 1 then doc.background.value else prev.background)
      && r.tileSize == (if n > 2 then doc.tileSize.value else prev.tileSize)
      && r.solid == (if n > 3 then doc.solidTile.value else prev.solid)
      && r.tile == (if n > 4 then doc.tile.value else prev.tile)
      && r.offgrid == (if n > 5 then doc.offgrid.value else prev.offgrid)
      && r.playerPos == (if n > 5 then doc.player.GetOr(Origin) else prev.playerPos)
      && r.portalPos == (if n > 5 && doc.portalPos != Some(NotAnObject) then Decode(doc).value.portalPos else prev.portalPos)
  {
  }

  /** A load that stops at the very first key leaves the state as it was. */
  lemma OverwriteNothing(prev: Level, doc: Document)
    requires FirstMissing(doc) == 0
    ensures Overwrite(prev, doc) == prev
  {
  }
}
