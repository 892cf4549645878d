# Tile-map addressing of td-amethyst

This project models, in Dafny, how the tower-defence game td-amethyst addresses
the cells of a level map (`MapData` in `src/map.rs`). A level has a list of
layers. Each layer has a stored `id`, a `name` and a flat `data` vector of `u32`
raw tile values. The map also records `height`, `width`, `tileheight` and
`tilewidth`.

- **Layer lookup.** Logical layer `z` is the first layer, in list order, whose
  stored id is `z + 1`. Its position in the list plays no part. `get_layer`
  does this with an iterator `find`. `get_mut_layer` does it with a `for` loop
  that hands out the layer for writing. When no layer matches, both print a
  message and exit the process with code 1.
- **Cell index.** Cell `(x, y)` sits at flat index `y * height + x`. The row
  stride is `height`; `width` is never read.
- **Reading.** A raw value of 0 means an empty cell (`None`). Any other raw
  value `r` is tile `r - 1`. An index past the end of `data` panics.
- **Writing.** `change_id_on_point` stores the new value as it is, with no
  offset, in the resolved layer's vector.
- **Rendering.** `BlockTile::sprite` is the tile map's callback and returns
  exactly what the read returns.

`Map.Layer` and `Map.MapData` are classes. `Layer.data` is an `array<u32>`
whose cells the write overwrites in place. `GetLayer`, `XYToIndex` and
`GetIdInPoint` are functions. `GetMutLayer` is a method with the source's loop.
`ChangeIdOnPoint` is a method that may modify only the one resolved vector.
Ending the process is modelled as an error value. `LayerNotFound` stands for
the exit with code 1. `IndexOutOfBounds` stands for the vector-index panic.

The model follows the code as written, including where a reader might expect otherwise:

- The flat index uses `height` as the row stride (`src/map.rs:65`), not `width`.
  This matches `initialise_map` (`src/map.rs:97`), which gives the tile map
  `height` as its x-extent and `width` as its y-extent. So, within that extent,
  the index is one-to-one (`XYToIndexInjective`) and stays in bounds
  (`SpriteDefinedOnWellFormedMap`).
- Layers are resolved with the ascending rule `id == index + 1`
  (`src/map.rs:46`, `src/map.rs:55`). The descending rule is not used.
- The level-info wave scheduler is not in the source: `LevelInfo` has only
  fields (`src/map.rs:35-41`).

## Model

| member | source | states |
|---|---|---|
| `Map.FirstWithId` | src/map.rs:55 | the front-to-back search stops at the first layer whose id matches, and finds nothing only when no layer matches |
| `Map.MapData.GetLayer` | src/map.rs:54-62 | the result is the first layer in list order with id `layerIndex + 1`; it fails with `LayerNotFound(layerIndex)` exactly when no layer carries that id |
| `Map.MapData.GetMutLayer` | src/map.rs:44-52 | the loop hands out the same layer as `GetLayer`, and fails in exactly the same cases |
| `Map.GetLayerIgnoresOrder` | src/map.rs:54-56 | when ids are unique, any reordering of the layer list gives the same lookup result, since lookup goes by id and not by position |
| `Map.MapData.XYToIndex` | src/map.rs:64-66 | reads only `height`; the index is at least `x`; when `x < height`, dividing by `height` gives back `y` and the remainder gives back `x` |
| `Map.XYToIndexIgnoresWidth` | src/map.rs:64-66 | two maps with the same `height` give every cell the same index, whatever their widths |
| `Map.XYToIndexInjective` | src/map.rs:64-66 | two cells with columns below `height` never share a flat index |
| `Map.MapData.GetIdInPoint` | src/map.rs:68-74 | fails with `LayerNotFound` when the layer is missing and with `IndexOutOfBounds` when the index is past the data; succeeds exactly when the layer exists and the index is in bounds, and then gives `None` exactly when the raw cell is 0, and `Some(t)` with `t + 1` equal to the raw value |
| `Map.MapData.ChangeIdOnPoint` | src/map.rs:76-79 | same failures as the read; on success the resolved layer's vector equals the old one with only the cell at `XYToIndex(x, y)` set to the literal new value; no other layer and no map field changes; reading the point back gives `None` for 0 and `Some(v - 1)` otherwise; every read of another cell gives the same answer as before |
| `Map.BlockTile.Sprite` | src/map.rs:85-87 | the sprite of a point is the read path's answer for that point on the current map |
| `Map.SpriteDefinedOnWellFormedMap` | src/map.rs:95-100 | on a level whose layers all hold `width * height` cells and whose ids cover 1 to the layer count, every point of the tile map's extent (x below `height`, y below `width`, z below the layer count) yields a sprite; neither the exit nor the panic can happen |
| `Map.Layer.constructor` | src/map.rs:17-22 | a layer holds the given id, name and cells in a fresh vector |
| `Map.MapData.constructor` | src/map.rs:24-33 | a map holds the given layers and dimensions, and each layer owns its own vector |

## Left out

- `initialise_map` (`src/map.rs:94-111`): it creates an engine `TileMap` entity with a floating-point translation. This is engine wiring. Only the extent it passes to the tile map is used, as the hypothesis of `SpriteDefinedOnWellFormedMap`.
- `BlockTile::tint` (`src/map.rs:89-91`): it returns a constant floating-point colour.
- Reading `MapData` and `LevelInfo` from JSON (`src/map.rs:17-41`): this is library I/O. The constructors take the decoded values instead.
- `LevelInfo` and the wave and spawn logic: `LevelInfo` has no behaviour in `src/map.rs`, and the helpers that `src/unit.rs` calls on it are not part of this model.
- `src/unit.rs`, `src/main.rs`, `src/utils.rs`, `src/camera.rs`, `src/states/play.rs`, `src/ui/menu.rs`: these do entity creation, asset loading, camera, input and UI work on the engine.
- The engine's resource registry: `BlockTile::sprite` fetches the map with `world.fetch::<MapData>()` (`src/map.rs:86`), which panics when no `MapData` resource is present. `Sprite` takes the map as a parameter instead, so that fetch and its failure are not modelled.
- The printed messages ("Failed to get layer …", "Failed to get mut layer …") and the exit itself: both become the `LayerNotFound` error value.
- `u32` overflow in `layer_index + 1` and in `y * height + x`: a debug build panics and a release build wraps. Every member excludes it with a precondition (`InRange`, or `layerIndex + 1 < U32_BOUND`) instead of modelling either behaviour.
- Mutable-borrow exclusivity: Rust's ownership guarantees that each layer owns its vector. `Valid` states this as an assumption of `ChangeIdOnPoint`, and the model does not derive it.
