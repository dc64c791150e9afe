/**
 * The level controller `Game`: the level list and the current index, the
 * active tile map, the block and spike records handed to their managers,
 * the player, and the portal that advances to the next level.
 */
module LevelController {
  import opened Wrappers
  import opened Tiles
  import opened Extraction
  import opened LevelDocument
  import opened TileStore

  /** The level ids, in play order. */
  const Levels: seq<string> := ["title", "level1", "level2", "level3"]

  /** The player sprite, seen as its spawn point and its current collision rectangle. */
  datatype Player = Player(spawn: Pos, rect: Rect)

  /** Why loading a level stopped: no file at the path, or a document `load` rejects. */
  datatype GameError = FileNotFound(path: string) | Malformed(cause: LoadError)

  /** The file holding level `mapId`. */
  function LevelPath(mapId: string): string {
    "data/maps/" + mapId + ".json"
  }

  /** The index after `i` in a list of `n` levels, wrapping past the last. */
  function NextIndex(i: int, n: int): (r: int)
    requires n > 0
    ensures 0 <= r < n
    ensures 0 <= i < n - 1 ==> r == i + 1
    ensures i == n - 1 ==> r == 0
  {
    (i + 1) % n
  }

  /** The index reached from `i` after `k` level switches. */
  function Advance(i: int, n: int, k: nat): int
    requires n > 0
  {
    if k == 0 then i else NextIndex(Advance(i, n, k - 1), n)
  }

  /** Within one round of switches the index climbs and wraps past the last level once. */
  lemma {:induction false} AdvanceWithinRound(i: int, n: int, k: nat)
    requires 0 <= i < n && k <= n
    ensures Advance(i, n, k) == if i + k < n then i + k else i + k - n
  {
    if k > 0 {
      AdvanceWithinRound(i, n, k - 1);
    }
  }

  /** Switching once per level returns to the level one started from, and not sooner. */
  lemma SwitchCycle(i: int, n: int)
    requires 0 <= i < n
    ensures Advance(i, n, n) == i
    ensures forall k :: 0 < k < n ==> Advance(i, n, k) != i
  {
    AdvanceWithinRound(i, n, n);
    forall k | 0 < k < n
      ensures Advance(i, n, k) != i
    {
      AdvanceWithinRound(i, n, k);
    }
  }

  /** With the four levels, the last one wraps to the title. */
  lemma LastLevelWraps()
    ensures NextIndex(3, |Levels|) == 0
    ensures Levels[NextIndex(3, |Levels|)] == "title"
  {
  }

  /**
   * `colliderect`, taken to be strict overlap on both axes (an assumption
   * about the graphics library, whose code is not part of this model).
   */
  predicate Collide(a: Rect, b: Rect) {
    && a.x < b.x + b.w && b.x < a.x + a.w
    && a.y < b.y + b.h && b.y < a.y + a.h
  }

  /** The portal's square: grid coordinates scaled by the tile size. */
  function PortalRect(px: int, py: int, ts: int): (r: Rect)
    ensures r.w == r.h == ts
  {
    Rect(px * ts, py * ts, ts, ts)
  }

  /** Whether the pixel (x, y) lies in the rectangle (left and top edges inclusive). */
  predicate Inside(r: Rect, x: int, y: int) {
    r.x <= x < r.x + r.w && r.y <= y < r.y + r.h
  }

  lemma ScaleMonotone(a: int, b: int, ts: int)
    requires a <= b && ts > 0
    ensures a * ts <= b * ts
  {
    assert b * ts - a * ts == (b - a) * ts;
  }

  /** Along one axis, the pixels of grid cell p are exactly those whose cell index is p. */
  lemma CellAxis(p: int, ts: int, x: int)
    requires ts > 0
    ensures p * ts <= x < p * ts + ts <==> FloorDiv(x, ts) == p
  {
    var q := FloorDiv(x, ts);
    if q < p {
      ScaleMonotone(q + 1, p, ts);
      assert (q + 1) * ts == q * ts + ts;
    } else if q > p {
      ScaleMonotone(p + 1, q, ts);
      assert (p + 1) * ts == p * ts + ts;
    }
  }

  /**
   * For a positive tile size the portal square covers exactly the pixels
   * whose grid cell is the portal's cell.
   */
  lemma PortalRectIsCell(px: int, py: int, ts: int, x: int, y: int)
    requires ts > 0
    ensures Inside(PortalRect(px, py, ts), x, y) <==> TileLoc((x, y), ts) == (px, py)
  {
    CellAxis(px, ts, x);
    CellAxis(py, ts, y);
  }

  /** A cell of size 16 at grid (2, 3) covers pixels from (32, 48). */
  lemma PortalRectExample()
    ensures PortalRect(2, 3, 16) == Rect(32, 48, 16, 16)
    ensures Collide(Rect(33, 49, 10, 10), PortalRect(2, 3, 16))
    ensures !Collide(Rect(48, 48, 10, 10), PortalRect(2, 3, 16))
  {
  }

  /**
   * Whether the portal check switches level: there is a player, the portal
   * is set with both coordinates, and the player's rectangle meets the
   * portal's square.
   */
  predicate PortalTriggered(player: Option<Player>, portal: Option<Coords>, ts: int)
  {
    && player.Some? && portal.Some?
    && portal.value.0.Some? && portal.value.1.Some?
    && Collide(player.value.rect, PortalRect(portal.value.0.value, portal.value.1.value, ts))
  }

  /** The check never fires without a player, without a portal, or with an incomplete portal. */
  lemma PortalGuards(player: Option<Player>, portal: Option<Coords>, ts: int)
    ensures player.None? ==> !PortalTriggered(player, portal, ts)
    ensures portal.None? ==> !PortalTriggered(player, portal, ts)
    ensures portal.Some? && (portal.value.0.None? || portal.value.1.None?) ==> !PortalTriggered(player, portal, ts)
  {
  }

  /** The records `extract(id)` returns from a freshly loaded level. */
  function Extracted(level: Level, id: string): seq<Tile> {
    ExtractResult(level.offgrid, level.solid, level.tile, id, level.tileSize)
  }

  /** A loaded level once every record of type `id` has been drained from it. */
  function Drained(level: Level, id: string): Level {
    level.(offgrid := Rest(level.offgrid, id), solid := Drain(level.solid, id), tile := Drain(level.tile, id))
  }

  /** Draining the spikes leaves the blocks in the store: they can be extracted again, unchanged. */
  lemma BlocksSurviveSpikeDrain(level: Level)
    ensures Extracted(Drained(level, "spike"), "block") == Extracted(level, "block")
  {
    ExtractAfterOtherDrain(level.offgrid, level.solid, level.tile, "block", "spike", level.tileSize);
  }

  /** After draining the spikes none is left to extract. */
  lemma SpikesGoneAfterDrain(level: Level)
    ensures Extracted(Drained(level, "spike"), "spike") == []
  {
    ExtractAfterDrain(level.offgrid, level.solid, level.tile, "spike", level.tileSize);
  }

  /** The player built for a spawn point, its rectangle of size `size` placed there. */
  function Spawned(pos: Pos, size: (int, int)): (p: Player)
    ensures p.spawn == pos && p.rect.x == pos.0 && p.rect.y == pos.1
  {
    Player(pos, Rect(pos.0, pos.1, size.0, size.1))
  }

  class Game {
    const levels: seq<string>
    /** The level files, by path: what reading the file at a path would give. */
    const files: map<string, Document>
    /** The width and height of the player's collision rectangle. */
    const playerSize: (int, int)

    var currentLevelIndex: int
    var tilemap: TileMap?
    /** The block records handed to the block manager (`None` before any level). */
    var blocks: Option<seq<Tile>>
    /** The spike records handed to the spike manager (`None` before any level). */
    var spikes: Option<seq<Tile>>
    var player: Option<Player>
    var portalPos: Option<Coords>

    ghost predicate Valid()
      reads this, tilemap
    {
      && |levels| > 0
      && 0 <= currentLevelIndex < |levels|
      && (forall p :: p in files ==> files[p].Valid())
      && (tilemap != null ==> tilemap.Valid())
      && (player.Some? || portalPos.Some? ==> tilemap != null)
    }

    constructor (files: map<string, Document>, playerSize: (int, int))
      requires forall p :: p in files ==> files[p].Valid()
      ensures Valid()
      ensures this.files == files && this.playerSize == playerSize
      ensures levels == Levels && currentLevelIndex == 0
      ensures tilemap == null && blocks.None? && spikes.None? && player.None? && portalPos.None?
    {
      this.files := files;
      this.playerSize := playerSize;
      levels := Levels;
      currentLevelIndex := 0;
      tilemap := null;
      blocks := None;
      spikes := None;
      player := None;
      portalPos := None;
    }

    /** The block and spike records, the player and the portal are as they were. */
    twostate predicate EntitiesUnchanged()
      reads this
    {
      blocks == old(blocks) && spikes == old(spikes) && player == old(player) && portalPos == old(portalPos)
    }

    /**
     * The outcome of loading level `mapId` into a fresh tile map. A missing
     * file or a rejected document stops the load with the tile map as far
     * as it got and everything else as it was. A successful load hands the
     * blocks over and keeps them in the store, hands the spikes over and
     * drains them, and keeps a player and a portal only on a normal map.
     */
    twostate predicate LoadedLevel(mapId: string, new err: Option<GameError>)
      reads this, tilemap
    {
      && tilemap != null && fresh(tilemap)
      && var path := LevelPath(mapId);
      if path !in files then
        && err == Some(FileNotFound(path))
        && tilemap.Snapshot() == Blank
        && EntitiesUnchanged()
      else
        var doc := files[path];
        match Decode(doc)
        case Failure(e) =>
          && err == Some(Malformed(e))
          && tilemap.Snapshot() == Overwrite(Blank, doc)
          && EntitiesUnchanged()
        case Success(level) =>
          && err.None?
          && tilemap.Snapshot() == Drained(level, "spike")
          && blocks == Some(Extracted(level, "block"))
          && spikes == Some(Extracted(level, "spike"))
          && if level.mapType == "normal" then
               player == Some(Spawned(level.playerPos, playerSize)) && portalPos == level.portalPos
             else
               player.None? && portalPos.None?
    }

    method LoadLevel(mapId: string) returns (err: Option<GameError>)
      requires Valid()
      modifies this
      ensures Valid()
      ensures currentLevelIndex == old(currentLevelIndex)
      ensures LoadedLevel(mapId, err)
    {
      var store := new TileMap();
      tilemap := store;
      var path := LevelPath(mapId);
      if path !in files {
        return Some(FileNotFound(path));
      }
      var doc := files[path];
      var loadErr := store.Load(doc);
      if loadErr.Some? {
        return Some(Malformed(loadErr.value));
      }
      OverwriteComplete(Blank, doc);
      HandOver(store, Decode(doc).value);
      err := None;
    }

    /**
     * The rest of `load_level` once the document is loaded: the blocks are
     * extracted and kept, the spikes extracted and drained, and a player
     * and portal set up on a normal map only.
     */
    method HandOver(store: TileMap, ghost level: Level)
      requires store == tilemap && store.Valid() && store.Snapshot() == level
      modifies this, store
      ensures tilemap == store && store.Valid()
      ensures currentLevelIndex == old(currentLevelIndex)
      ensures store.Snapshot() == Drained(level, "spike")
      ensures blocks == Some(Extracted(level, "block"))
      ensures spikes == Some(Extracted(level, "spike"))
      ensures if level.mapType == "normal" then
                player == Some(Spawned(level.playerPos, playerSize)) && portalPos == level.portalPos
              else
                player.None? && portalPos.None?
    {
      var blockTiles := store.Extract("block", true);
      blocks := Some(blockTiles);
      var spikeTiles := store.Extract("spike", false);
      spikes := Some(spikeTiles);
      if store.mapType == "normal" {
        player := Some(Spawned(store.playerPos, playerSize));
        portalPos := store.portalPos;
      } else {
        player := None;
        portalPos := None;
      }
    }

    method SwitchLevel() returns (err: Option<GameError>)
      requires Valid()
      modifies this
      ensures Valid()
      ensures currentLevelIndex == NextIndex(old(currentLevelIndex), |levels|)
      ensures LoadedLevel(levels[currentLevelIndex], err)
    {
      currentLevelIndex := (currentLevelIndex + 1) % |levels|;
      err := LoadLevel(levels[currentLevelIndex]);
    }

    method ResetLevel() returns (err: Option<GameError>)
      requires Valid()
      modifies this
      ensures Valid()
      ensures currentLevelIndex == 0
      ensures LoadedLevel(levels[0], err)
    {
      currentLevelIndex := 0;
      err := LoadLevel(levels[currentLevelIndex]);
    }

    method ResetGame() returns (err: Option<GameError>)
      requires Valid()
      modifies this
      ensures Valid()
      ensures currentLevelIndex == 0
      ensures LoadedLevel(levels[0], err)
    {
      currentLevelIndex := 0;
      err := LoadLevel(levels[currentLevelIndex]);
    }

    /** Whether the portal check would switch level now. */
    predicate PortalHit()
      reads this, tilemap
    {
      tilemap != null && PortalTriggered(player, portalPos, tilemap.tileSize)
    }

    /** Switches to the next level exactly when the player meets a fully set portal. */
    method CheckPortal() returns (err: Option<GameError>)
      requires Valid()
      modifies this
      ensures Valid()
      ensures !old(PortalHit()) ==> err.None? && unchanged(this)
      ensures old(PortalHit()) ==>
        && currentLevelIndex == NextIndex(old(currentLevelIndex), |levels|)
        && LoadedLevel(levels[currentLevelIndex], err)
    {
      err := None;
      if player.Some? && portalPos.Some? {
        var (portalX, portalY) := portalPos.value;
        if portalX.None? || portalY.None? {
          return;
        }
        var playerRect := player.value.rect;
        var ts := tilemap.tileSize;
        var portalRect := Rect(portalX.value * ts, portalY.value * ts, ts, ts);
        if Collide(playerRect, portalRect) {
          err := SwitchLevel();
        }
      }
    }
  }
}
