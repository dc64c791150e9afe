# I-wanna-pygame: tile store and level controller

This project models the two parts of the platformer *I-wanna-pygame* that
hold its game logic, apart from drawing and input.

- **The tile store, `TileMap`** (`scripts/tilemap.py`). It holds:
  - two grid layers, `solid_tile` and `tile`. Each is a dictionary from the
    cell key `"x;y"` to a tile record `{type, pos, variant, flip}`;
  - an ordered list of off-grid tiles;
  - a tile size.

  It answers three kinds of request:
  - the nine-cell neighbourhood queries `tiles_around` and
    `physics_rects_around`;
  - `extract(id, keep)`, which copies every record of one type and, unless
    `keep`, removes it from the store;
  - `load`, which fills the level fields from a level document.
- **The level controller, `Game`** (`main.py`). It keeps:
  - a list of level ids and the current index;
  - the active tile map;
  - the block and spike records handed to their managers;
  - the player and the portal.

  `load_level` builds a fresh tile map for a level. `switch_level`
  advances the index, wrapping round. `reset_level` and `reset_game` go
  back to the first level. `check_portal` switches level when the player
  touches the portal.

## Modules

| file | module | contents |
|---|---|---|
| `wrappers.dfy` | `Wrappers` | `Option` (Python `None`, `dict.get` defaults) and `Result` (a raised exception). |
| `tilekeys.dfy` | `TileKeys` | The cell key `str(x) + ';' + str(y)`, built from a decimal `str` of integers, and the proof that it is injective. |
| `tiles.dfy` | `Tiles` | Tile records and grid layers, with the dictionary's insertion order kept explicitly. Also Python floor division, the nine neighbour offsets, and the probe specification `Lookups`. |
| `extraction.dfy` | `Extraction` | Functions for what `extract` returns and what it leaves behind, and the laws they obey. |
| `leveldoc.dfy` | `LevelDocument` | The level document as an abstract record. `Decode` gives its result or error, and `Overwrite` gives the fields a partial load has assigned. |
| `tilemap.dfy` | `TileStore` | The class `TileMap`, with the loops of `tiles_around`, `physics_rects_around` and `extract`, and the field-by-field `load`. |
| `game.dfy` | `LevelController` | The class `Game`, its level-switching arithmetic and the portal test. |

Decisions the model makes:

- **Grid layer.** A layer is a value `Layer(order, cells)`.
  - `order` is the dictionary's iteration order, so the order of grid matches is stated exactly.
  - `WellFormed` says that `order` lists each key of `cells` exactly once.
  - The store never checks that a tile's `pos` agrees with its key, and neither does the model.
  - A layer may hold keys that no probe can find.
- **Cell key.** The key is the real string `str(x) + ';' + str(y)`. `TileKeys.KeyInjective` proves that two cells share a key only if they are the same cell.
- **Position division.** `pos // tile_size` is Python floor division, written out (`Tiles.FloorDiv`). It is correct for negative positions and for a negative tile size. The only precondition is `tile_size != 0`: the source raises `ZeroDivisionError` on 0, but accepts any other size.
- **Off-grid removal.** The source calls `list.remove(tile)`, which removes the first element *equal* to `tile`. `Extraction.RemoveStep` and `TileStore.ExtractOffgrid` prove that this repeated first-equal removal leaves exactly the order-preserving filter `Rest`, even when the list contains duplicate records.
- **Level files.** Reading a file is abstracted as `Game.files`, a map from path to document. A path that is absent models a missing file.
- **Player.** The player is abstracted to its spawn point and its current collision rectangle. The rectangle is created at the spawn point with size `playerSize`.

Four behaviours of the code that the model follows as written:

- `load_level` extracts spikes with the default `keep=False` (`main.py:67`), so spikes are removed from the tile store. Only blocks are extracted with `keep=True` (`main.py:63`).
- `load` is not atomic. It assigns the fields one by one and raises `KeyError` at the first missing required key (`scripts/tilemap.py:115-120`). The fields read before that key keep their new values. `LevelDocument.Overwrite` models exactly that state.
- `load_level` assigns the fresh `TileMap` before it loads (`main.py:59-60`). A failed load therefore leaves the new, partly filled tile map in place. The player, portal, blocks and spikes of the previous level stay. On a failure `Game.LoadedLevel` states that pair of facts.
- `switch_level` advances the index before loading (`main.py:79-81`), so the index moves even when the load fails.

## Model

| member | source | states |
|---|---|---|
| TileKeys.NatToString | scripts/tilemap.py:27 | Python's `str` of a natural: its decimal digits, most significant first; see NatToStringShape and NatToStringInjective |
| TileKeys.IntToString | scripts/tilemap.py:27 | Python's `str` of an integer: a `-` before the digits of a negative number; see IntToStringShape and IntToStringInjective |
| TileKeys.Key | scripts/tilemap.py:27 | the cell key `str(x) + ';' + str(y)`; see KeyInjective |
| TileKeys.NatToStringShape | scripts/tilemap.py:27 | `str(n)` of a natural is a non-empty run of decimal digits, with a single digit exactly when n < 10 |
| TileKeys.IntToStringShape | scripts/tilemap.py:27 | `str(i)` is never empty and never contains the separator `;`; it starts with `-` exactly for negative i |
| TileKeys.NatToStringInjective | scripts/tilemap.py:27 | distinct naturals have distinct decimal strings |
| TileKeys.IntToStringInjective | scripts/tilemap.py:27 | distinct integers have distinct `str` forms |
| TileKeys.SeparatorAfterPrefix | scripts/tilemap.py:27 | in `a + ';' + b`, where `a` has no `;`, the first `;` is the one just after `a` |
| TileKeys.SplitAtSeparator | scripts/tilemap.py:27 | a `;`-joined pair whose left parts contain no `;` splits back into the same two parts |
| TileKeys.KeyInjective | scripts/tilemap.py:27 | two cells share a key `str(x);str(y)` only if they are the same cell |
| Tiles.TileLoc | scripts/tilemap.py:25 | the cell holding a pixel position, `pos // tile_size` on each axis; see FloorDiv and PortalRectIsCell |
| Tiles.CellKey | scripts/tilemap.py:27 | the key probed for one offset around a cell; see CellKeysDistinct |
| Tiles.FloorDiv | scripts/tilemap.py:25 | the quotient is Python's floor division: for b > 0, `q*b <= a < q*b + b`; for b < 0 the mirrored bounds |
| Tiles.NeighborKeys | scripts/tilemap.py:26-27 | exactly one probe key per neighbour offset |
| Tiles.Lookups | scripts/tilemap.py:26-30 | probing finds at most one tile per key |
| Tiles.LookupsStep | scripts/tilemap.py:28-29 | each probe appends the stored tile when the key is present and nothing otherwise |
| Tiles.PresentIndices | scripts/tilemap.py:28 | the indices of the keys that hold a tile; each is a valid key index, and there is one per tile found |
| Tiles.LookupsAt | scripts/tilemap.py:28-29 | the j-th tile found is the entry stored under the j-th present key, so no tile is synthesised |
| Tiles.PresentIndicesIncreasing | scripts/tilemap.py:26-29 | tiles are found in probe order |
| Tiles.PresentIndicesComplete | scripts/tilemap.py:28-29 | every probed key that holds a tile contributes that tile |
| Tiles.CellKeysDistinct | scripts/tilemap.py:27 | two different offsets around one cell probe different keys |
| Tiles.NeighborKeysDistinct | scripts/tilemap.py:26-27 | the nine probed keys around any cell are pairwise distinct |
| Tiles.TileRect | scripts/tilemap.py:36-37 | the collision square `(pos[0]*ts, pos[1]*ts, ts, ts)` of a tile, from its stored `pos`; see TileStore.TileMap.PhysicsRectsAround |
| Extraction.Matching | scripts/tilemap.py:42-44 | the off-grid matches are no more numerous than the list |
| Extraction.Rest | scripts/tilemap.py:45-46 | what the off-grid drain leaves is no longer than the list |
| Extraction.RemoveFirst | scripts/tilemap.py:46 | `list.remove` of an element present shortens the list by one |
| Extraction.MatchingKeys | scripts/tilemap.py:49-57 | the keys the scan notes for deletion are at most the keys scanned |
| Extraction.DropKeys | scripts/tilemap.py:58-59 | popping keys never lengthens the key order |
| Extraction.Scaled | scripts/tilemap.py:52-55 | a copy of a grid tile with its `pos` multiplied by the tile size; see GridMatchesAt |
| Extraction.GridMatches | scripts/tilemap.py:49-55 | the scaled copies of the tiles of type `id`, in dictionary order; see GridMatchesAt, GridMatchesNone and GridMatchesIgnoreDropped |
| Extraction.Pop | scripts/tilemap.py:59 | `pop(k)`: the key leaves both the order and the dictionary; see PopStep |
| Extraction.Drain | scripts/tilemap.py:56-59 | the layer with every key of a tile of type `id` popped; see DrainExactly |
| Extraction.ExtractResult | scripts/tilemap.py:40-74 | what `extract` returns: off-grid matches, then solid, then decorative; see ExtractKinds, ExtractCount, ExtractAfterDrain and ExtractAfterOtherDrain |
| Extraction.MatchingKinds | scripts/tilemap.py:43-44 | every off-grid match has the requested type |
| Extraction.RestKinds | scripts/tilemap.py:45-46 | nothing left after an off-grid drain has the drained type |
| Extraction.MatchingRestPartition | scripts/tilemap.py:42-46 | the matches and the remainder together are a permutation of the off-grid list |
| Extraction.RestAppend | scripts/tilemap.py:45-46 | the drain keeps relative order: it distributes over concatenation |
| Extraction.MatchingAppend | scripts/tilemap.py:42-44 | matching distributes over concatenation |
| Extraction.RestOfUnmatched | scripts/tilemap.py:45-46 | a list with no tile of the type is left exactly as it was |
| Extraction.MatchingOfRest | scripts/tilemap.py:42-46 | after an off-grid drain, a second extraction of the same type finds nothing there |
| Extraction.MatchingOfOtherRest | scripts/tilemap.py:42-46 | draining one type keeps every off-grid match of another type, in order |
| Extraction.RemoveFirstPastPrefix | scripts/tilemap.py:46 | `remove` of an element absent from a prefix leaves that prefix alone |
| Extraction.RemoveStep | scripts/tilemap.py:42-46 | one step of the drain over the snapshot: removing the i-th match (or skipping a non-match) extends the drained prefix by one tile |
| Extraction.GridMatchesAt | scripts/tilemap.py:49-55 | the j-th grid match is the j-th matching key's stored tile, of the requested type, with `pos` multiplied by the tile size and every other field kept |
| Extraction.MatchingKeysMembers | scripts/tilemap.py:49-57 | a key is noted exactly when it is scanned and its tile has the type |
| Extraction.MatchingKeysDistinct | scripts/tilemap.py:49-57 | the noted keys have no repeats |
| Extraction.MatchingKeysOfLayer | scripts/tilemap.py:48-59 | over a dictionary, the noted keys are exactly the keys whose tile has the type, each once |
| Extraction.DropKeysMembers | scripts/tilemap.py:58-59 | popping removes exactly the popped keys from the order, and the order stays repeat-free |
| Extraction.DropKeysAppend | scripts/tilemap.py:58-59 | popping distributes over concatenated orders |
| Extraction.DropKeysTwice | scripts/tilemap.py:58-59 | popping one more key after a set of keys is popping their union |
| Extraction.PopStep | scripts/tilemap.py:58-59 | popping the next noted key advances the drained layer by that key |
| Extraction.DropNothing | scripts/tilemap.py:58-59 | popping no keys leaves the order unchanged |
| Extraction.DrainExactly | scripts/tilemap.py:56-59 | a drained layer keeps exactly the keys whose tile has another type, with their tiles unchanged, and stays a well-formed dictionary |
| Extraction.GridMatchesNone | scripts/tilemap.py:49-55 | a layer with no tile of the type yields no grid matches |
| Extraction.GridMatchesIgnoreDropped | scripts/tilemap.py:49-59 | removing keys whose tiles have another type does not change the grid matches |
| Extraction.ExtractKinds | scripts/tilemap.py:40-74 | every record `extract(id)` returns has type `id` |
| Extraction.ExtractCount | scripts/tilemap.py:40-74 | the number of records is the off-grid matches plus the matching keys of the solid layer plus those of the decorative layer |
| Extraction.ExtractAfterDrain | scripts/tilemap.py:40-74 | after a drain of `id`, extracting `id` again returns an empty sequence |
| Extraction.ExtractAfterOtherDrain | scripts/tilemap.py:40-74 | draining one type leaves the extraction of any other type unchanged |
| LevelDocument.FirstMissingFrom | scripts/tilemap.py:115-120 | the first absent required key in reading order: all keys before it are present, and it is absent |
| LevelDocument.Decode | scripts/tilemap.py:115-126 | on success: a present `player` is kept and an absent one defaults to `(0, 0)`; the portal is `None` exactly when `portal_pos` is absent; a `portal_pos` object with `pos` gives that `pos`, and one without `pos` gives `(0, 0)` |
| LevelDocument.DecodeErrors | scripts/tilemap.py:115-124 | loading fails exactly when a required key is missing, and the error names the first missing key; otherwise it fails exactly when `portal_pos` is not an object |
| LevelDocument.Overwrite | scripts/tilemap.py:115-126 | the fields a load assigns, one by one in reading order, up to the first key it cannot read; see OverwriteComplete, OverwriteFields and OverwriteNothing |
| LevelDocument.OverwriteComplete | scripts/tilemap.py:115-126 | whatever the previous state, a successful load leaves exactly the decoded level |
| LevelDocument.OverwriteFields | scripts/tilemap.py:115-126 | after a partial load, the fields before the first missing key hold the document's values and the rest keep their old values; player and portal change only once every required key is read |
| LevelDocument.OverwriteNothing | scripts/tilemap.py:115 | a load that fails on `map_type` changes nothing |
| TileStore.TileMap.constructor | scripts/tilemap.py:10-19 | a new tile map is empty, with both layers well formed |
| TileStore.TileMap.TilesAround | scripts/tilemap.py:22-30 | the result is the probe of the nine keys around `pos // tile_size`, in offset order, from `solid_tile` when `solid` holds and from `tile` otherwise; at most nine tiles; the store is not changed |
| TileStore.TileMap.PhysicsRectsAround | scripts/tilemap.py:32-38 | one rectangle per solid neighbour, in the same order: `(pos[0]*ts, pos[1]*ts, ts, ts)` from the tile's own stored `pos` |
| TileStore.TileMap.Extract | scripts/tilemap.py:40-74 | returns the off-grid matches, then the solid ones, then the decorative ones. With `keep`, all three collections are unchanged. Without it, each is drained of `id`. No other field changes |
| TileStore.TileMap.Load | scripts/tilemap.py:112-126 | the error is the decoded one, and the new state is the previous state overwritten up to the point where the load stopped |
| TileStore.ExtractOffgrid | scripts/tilemap.py:41-46 | scanning a snapshot and calling `remove` on each match returns the matches and leaves the order-preserving filter, or the list unchanged with `keep` |
| TileStore.ExtractGrid | scripts/tilemap.py:48-59 | one layer's scaled matches in key order (the decorative layer, lines 61-72, runs the same code); the layer drained of `id`, or unchanged with `keep` |
| TileStore.ScanLayer | scripts/tilemap.py:48-57 | the scan's scaled matches and, unless `keep`, exactly the keys of the matches, in order |
| TileStore.PopKeys | scripts/tilemap.py:58-59 | popping the noted keys removes them from both the order and the dictionary |
| LevelController.LevelPath | main.py:60 | the level file path `data/maps/<map_id>.json`; Game.LoadLevel reports it as missing when no file is stored under it |
| LevelController.NextIndex | main.py:79 | `(i + 1) % n` stays in `[0, n)`; it is `i + 1` below the last index and wraps the last index to 0 |
| LevelController.AdvanceWithinRound | main.py:79 | within one round of switches, the index climbs and wraps past the end at most once |
| LevelController.SwitchCycle | main.py:79 | n switches from any level return to it, and no fewer do |
| LevelController.LastLevelWraps | main.py:79 | with the four levels of `main.py:44`, index 3 wraps to the title level |
| LevelController.PortalRect | main.py:126-129 | the portal square `(px*ts, py*ts, ts, ts)`; see PortalRectIsCell |
| LevelController.PortalRectIsCell | main.py:126-129 | for a positive tile size, the portal square `(px*ts, py*ts, ts, ts)` covers a pixel exactly when that pixel's grid cell, `pos // ts` as in `tiles_around`, is the portal's cell `(px, py)` |
| LevelController.PortalRectExample | main.py:126-130 | tile size 16 and portal (2, 3) give `(32, 48, 16, 16)`, which a player at (33, 49) touches and one at (48, 48) does not |
| LevelController.PortalTriggered | main.py:118-130 | the portal fires when a player and a portal exist, both portal coordinates are set, and the rectangles overlap; see PortalGuards and Game.CheckPortal |
| LevelController.PortalGuards | main.py:118-123 | the check never fires without a player, without a portal, or with a portal coordinate unset |
| LevelController.BlocksSurviveSpikeDrain | main.py:63-67 | draining the spikes leaves the blocks in the store, so the block extraction is unchanged |
| LevelController.SpikesGoneAfterDrain | main.py:67 | after load the store holds no spikes |
| LevelController.Game.constructor | main.py:44-50 | the four levels, index 0, no tile map, no block or spike managers, no player and no portal |
| LevelController.Game.LoadLevel | main.py:58-75 | always builds a fresh tile map and leaves the index alone. A missing file or a rejected document leaves the fresh map as loaded so far, with the entities unchanged. On success: the blocks are extracted and kept; the spikes are extracted and drained; a player and the portal exist on a `normal` map only |
| LevelController.Game.HandOver | main.py:62-75 | the part of `load_level` after a successful load: block and spike hand-over and the player and portal rule |
| LevelController.Game.SwitchLevel | main.py:78-81 | the index becomes `(i + 1) % len(levels)`, and `levels[index]` is loaded |
| LevelController.Game.ResetLevel | main.py:83-86 | the index becomes 0, and `levels[0]` is loaded |
| LevelController.Game.ResetGame | main.py:52-55 | the index becomes 0, and `levels[0]` is loaded |
| LevelController.Game.CheckPortal | main.py:117-131 | nothing changes unless there is a player, the portal and both its coordinates are set, and the player's rectangle meets `(px*ts, py*ts, ts, ts)`; exactly then the game switches to the next level, with no guard against firing twice |

## Left out

- Reading and writing files and JSON are left out. A level document is an abstract record with an absent-or-present value per key, and the files are a map from path to document.
- `TileMap.save` is left out. It only builds a record for `json.dump`. A save-then-load round trip does not hold: `save` always writes `portal_pos` as a tuple or `None`, and `load` then calls `.get` on it. The model reports that call as the error `PortalNotAnObject`.
- `room_to` is left out: the current `load` never assigns it.
- The back-reference `TileMap.game` is left out.
- The initial `player_pos = ()` and `portal_pos = ()` of a new tile map read as `(0, 0)` and `None`. Neither value is observable before `load`.
- JSON values of the wrong shape are left out: a `pos` that is not a pair, `pos: null`, `player: null`, or non-integer coordinates. Positions are integers, so the float floor of `int(pos // tile_size)` is not modelled.
- Aliasing is not captured. `tile.copy()` on off-grid matches is shallow, so the returned record's `pos` list is shared with the store, and `self.portal_pos = self.tilemap.portal_pos` shares a value. The model works on values.
- pygame is not modelled: initialisation, display, assets, sounds, the event loop, rendering, `stop`, and the `print` diagnostics.
- The internals of `PlayerSprite`, `SpikeManage`, `BlockManage` and the loaders in `scripts/utils` are left out; their source is not part of this model.
  - The block and spike managers are modelled as the lists of records handed to them.
  - The player is its spawn point plus a rectangle of size `playerSize` placed at the spawn. Its movement between checks is not modelled, and `check_portal` reads whatever rectangle the player has.
- LevelController.Spawned: `PlayerSprite(self, pos)` is not part of this model. The player is assumed to be created at the spawn point with a rectangle of size `playerSize` placed there.
- LevelController.Collide: `colliderect` is a foreign call. It is assumed to be the strict overlap of the two rectangles on both axes. pygame's own treatment of zero-size or negative-size rectangles is not modelled.
- The commented-out earlier versions of `load`, `check_portal` and `run` are dead code and are not modelled.
- Dictionary order: the order of the grid layers is kept as the insertion order given in the document. How JSON parsing produces that order is not modelled.
