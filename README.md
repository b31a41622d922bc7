# Moss: map conversion and scene population

Moss is a small voxel game built on the Urho3D engine. Two pieces of it carry
logic of their own, and this project models both and proves their properties.

- **The map converter** (`Maps/parse.js`) compacts a MagicaVoxel palette. A
  MagicaVoxel model is decoded into its voxels (`XYZI`: `x`, `y`, `z` and a
  colour index `c`) and its colour table (`RGBA`). The converter collects the
  distinct colour indices in order of first occurrence. It rewrites every
  voxel's colour as that colour's position in the list (`indexOf`). It emits the
  colour-table entries of the listed colours as the map's palette.
  - `DistinctColors` is the `reduce` loop, written as a `while` loop.
  - `Remap` and `CompactPalette` are the two `map` expressions.
  - `Convert` is the whole conversion.
  - A colour index that the colour table does not cover reads as JavaScript
    `undefined`, which is modelled as `None`.
- **The scene builder** (`src/main.cpp`, `Main::CreateScene`) builds the
  scene. The engine's scene graph is modelled as class `Scene`: a list of
  scene components and an ordered list of child nodes. A node records its
  name, position and components, and the caller refers to it by its position
  in the list. `Main.CreateScene` adds the octree, a directional light at
  (0, 100, 0) and the zone. It then creates one "Box" child per block of the
  map file, at ten times the block's grid coordinates, with the cube model and
  material. The camera comes last. The result is tied to the specification
  function `SceneChildren`, and the lemmas about that function state what the
  scene looks like.

`MapFormat` holds the shapes shared by both programs: a voxel/block, a
colour-table entry, the decoded model and the map file. `MapPipeline` connects
the two programs: converting a model and placing its blocks puts cubes exactly
where the voxels are.

## Model

| member | source | states |
|---|---|---|
| `Palette.IndexOf` | Maps/parse.js:25 | The result is -1 exactly when the value is absent. Otherwise it is an in-range position holding the value, and no earlier position holds it. |
| `Palette.DistinctColors` | Maps/parse.js:14-18 | The colours listed are exactly those of the voxels, with no duplicates. They are ordered by first occurrence: keys (`IndexOf` in the voxel colours) strictly increase along the list. There are at most as many colours as voxels. |
| `Palette.ListingUnique` | Maps/parse.js:14-18 | Any two lists that list the voxel colours by first occurrence are equal, so `DistinctColors`' contract fixes its result completely. |
| `Palette.FirstOccurrenceAt` | Maps/parse.js:16 | A colour not seen before position `i` has `indexOf` equal to `i`. So the colour the loop appends is first met exactly there. |
| `Palette.Remap` | Maps/parse.js:21-26 | Blocks have the voxels' length and order, and each keeps its `x`, `y`, `z`. A colour present in the list becomes its first position in the list, which leads back to it. An absent colour becomes -1. |
| `Palette.RemapRoundTrip` | Maps/parse.js:25 | With the converter's colour list, no block colour is -1. Every block colour is a valid list position, and `colors[blocks[j].c] == XYZI[j].c`. |
| `Palette.EveryColorUsed` | Maps/parse.js:14-26 | Every position of the colour list is the new colour of some block. |
| `Palette.Lookup` | Maps/parse.js:27 | JavaScript indexing `RGBA[index]`: an entry exactly when the index is inside the colour table, and then the entry at that index; otherwise `undefined`. |
| `Palette.CompactPalette` | Maps/parse.js:27 | The palette has one entry per listed colour. An entry is the colour-table entry when the index is in range and `undefined` otherwise. |
| `Palette.PaletteRoundTrip` | Maps/parse.js:25-27 | Looking up a block's new colour in the palette gives the colour-table entry of the voxel's original colour. |
| `Palette.Convert` | Maps/parse.js:14-28 | The map file has one block per voxel, in order, with coordinates unchanged. Every block colour indexes the palette, and the entry there is the colour-table entry of the original colour. Every palette entry is used by some block. Two voxels get the same block colour exactly when they had the same colour. The output is the remap and palette of a colour list that lists the voxel colours by first occurrence, so by `ListingUnique` it is fully determined. The palette is no longer than the voxel list. Empty input gives empty blocks and palette. |
| `SceneBuilder.Scene.constructor` | src/main.cpp:40 | A new scene has no components and no children. |
| `SceneBuilder.Scene.CreateComponent` | src/main.cpp:44 | Appends the component to the scene and leaves the children unchanged. |
| `SceneBuilder.Scene.CreateChild` | src/main.cpp:46 | Appends a child with the given name, at the origin and without components, and returns its position. Nothing else changes. |
| `SceneBuilder.Scene.SetPosition` | src/main.cpp:88 | Changes the position of that one child only. |
| `SceneBuilder.Scene.CreateNodeComponent` | src/main.cpp:89-91 | Appends a component to that one child only. |
| `SceneBuilder.Main.constructor` | src/main.h:11-35 | A new application has no scene and no camera node yet. |
| `SceneBuilder.Main.CreateScene` | src/main.cpp:36-139 | Leaves a fresh scene whose only component is the octree and whose children are `SceneChildren(blocks)`. The camera node is the child after the last box. |
| `SceneBuilder.GridToWorld` | src/main.cpp:88 | The position of a block's cube lies on the 10-unit grid, and dividing it by 10 gives back the block's grid cell. So distinct cells get distinct positions. |
| `SceneBuilder.OneBoxPerBlock` | src/main.cpp:84-87 | The scene holds exactly as many children named "Box" as there are blocks. |
| `SceneBuilder.SceneLayout` | src/main.cpp:46-131 | The children are, in order: the directional light, the zone, one box per block in block order, then the camera. Box `i` is at ten times block `i`'s coordinates and carries `Models/cube.obj.mdl` with `Materials/cube.xml`. |
| `SceneBuilder.DuplicatesKept` | src/main.cpp:84-92 | Two blocks in the same cell are not merged. Each yields its own box, and the two boxes are identical. |
| `SceneBuilder.ColorIgnored` | src/main.cpp:88 | Only `x`, `y`, `z` of a block matter. Block lists that agree on coordinates give the same scene, whatever their `c`. |
| `MapPipeline.ConvertedMapPlacesVoxels` | Maps/parse.js:21-26 | The scene built from the converted blocks equals the scene built from the voxels, so renumbering colours moves no cube. |

## Left out

- Directory listing, file reading and writing, and the asynchronous callbacks of the converter (Maps/parse.js:5-12, 30-36). The decoded model is an input and the map file object is the output. Every model is written to the same `file.json`, so with several models the last write wins; that is I/O ordering and is not modelled. The stray `null, 2` arguments (passed to `writeFileSync`, not to `JSON.stringify`) only concern formatting.
- The MagicaVoxel parser (`parse-magica-voxel`) is not part of this model. Whether `RGBA` is indexed from 0 or 1 relative to `XYZI[].c` is decided there. The model indexes the colour table directly and yields `None` (JavaScript `undefined`) outside it. Colour-table entries are kept as opaque records of four integers.
- `console.log` calls (Maps/parse.js:13, 15).
- `includes` and `indexOf` are modelled for integer colour indices only, where their JavaScript equality semantics agree.
- Engine lifecycle and rendering: `Setup`, `Start`, `Stop`, `SetupViewport`, `SubscribeToEvents` and `HandleUpdate` (src/main.cpp:7-34, 141-165) are thin calls into Urho3D.
- Loading the map file through the resource cache and the JSON reader (src/main.cpp:79-82). `CreateScene` takes the already parsed block list. Behaviour on missing or malformed fields follows the engine's JSON defaults, which are not visible here.
- The resource cache lookups of the model and the material (src/main.cpp:90-91). They are modelled as the resource paths.
- The float settings of the light and the zone: the light direction (src/main.cpp:47) and range (src/main.cpp:51), and the zone's bounding box, ambient colour and fog (src/main.cpp:59-63). The `Light` component of type `LIGHT_DIRECTIONAL` (src/main.cpp:49-50) is modelled as the component `DirectionalLight`, and the `Zone` component (src/main.cpp:57) as `Zone`. The light's integer position is kept.
- `SceneBuilder.GridToWorld` uses unbounded integers. The 32-bit `int` product `GetInt() * 10` overflows, with undefined behaviour in C++, for coordinates beyond about ±214 million. MagicaVoxel coordinates are bytes, so this cannot arise from converted maps. The exact conversion of the product to a float `Vector3` is not modelled either.
- Node identity: the engine hands out node pointers, while the model refers to a child by its position in the child list. Aliasing between node handles is therefore not modelled.
- `MoveCamera` (src/main.cpp:167-194) is out of scope. It is float yaw and pitch accumulation, quaternion construction and keyboard and mouse polling, and `yaw_`/`pitch_` start uninitialised (src/main.h:37-39). The pitch clamp to [-90, 90] is float-only.
- Commented-out experimental code (src/main.cpp:65-77, 94-128, 133-138).
