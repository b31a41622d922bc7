/**
 The converter's output feeds the game: the map file's blocks are what
 `CreateScene` places. Renumbering colours does not move any cube.
 */
module MapPipeline {
  import opened MapFormat
  import Palette
  import SceneBuilder

  /**
   The scene built from the converted blocks is the scene built from the voxels
   themselves: every voxel becomes a cube at ten times its grid coordinates.
   */
  lemma {:induction false} ConvertedMapPlacesVoxels(xyzi: seq<Voxel>, colors: seq<int>)
    ensures SceneBuilder.SceneChildren(Palette.Remap(xyzi, colors)) == SceneBuilder.SceneChildren(xyzi)
  {
    SceneBuilder.ColorIgnored(Palette.Remap(xyzi, colors), xyzi);
  }
}
