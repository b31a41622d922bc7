/**
 The data exchanged between the map converter and the game: a MagicaVoxel model
 as the voxel parser decodes it, and the JSON map file the converter writes and
 the scene builder reads back.
 */
module MapFormat {
  import opened Wrappers

  /** One voxel (an `XYZI` entry) or one map block: grid coordinates and a colour index. */
  datatype Voxel = Voxel(x: int, y: int, z: int, c: int)

  /** One entry of the MagicaVoxel colour table (`RGBA`). */
  datatype Rgba = Rgba(r: int, g: int, b: int, a: int)

  /** What the MagicaVoxel parser hands to the converter: the voxels and the colour table. */
  datatype Decoded = Decoded(xyzi: seq<Voxel>, rgba: seq<Rgba>)

  /**
   The object the converter serialises to the map file: the blocks, whose `c` is an
   index into `colors`, and the compacted palette. A `None` entry is a colour index
   the colour table has no entry for (JavaScript `undefined`, written as `null`).
   */
  datatype MapFile = MapFile(blocks: seq<Voxel>, colors: seq<Option<Rgba>>)

  /** True when two voxels sit at the same grid cell, whatever their colours. */
  predicate SameCell(a: Voxel, b: Voxel)
  {
    a.x == b.x && a.y == b.y && a.z == b.z
  }
}
