/**
 Scene construction of the example application (src/main.cpp, `Main::CreateScene`).
 The engine's scene graph is abstracted as the scene's own components and an
 ordered list of child nodes; `CreateChild` appends a node and hands back its
 position in that list, through which the caller then sets the node's position
 and attaches components. The map file's blocks become one cube per block.
 */
module SceneBuilder {
  import opened Wrappers
  import opened MapFormat

  /** A world position. Block positions are integers scaled before any float conversion. */
  datatype Vec3 = Vec3(x: int, y: int, z: int)

  /** The components this scene uses; float settings (range, fog, colours) are not modelled. */
  datatype Component =
    | Octree
    | DirectionalLight
    | Zone
    | StaticModel(model: string, material: string)
    | Camera

  /** A child node of the scene: its name, position and attached components. */
  datatype Node = Node(name: string, position: Vec3, components: seq<Component>)

  /** World units per grid cell. */
  const GridScale: int := 10
  const CubeModel: string := "Models/cube.obj.mdl"
  const CubeMaterial: string := "Materials/cube.xml"
  const Origin: Vec3 := Vec3(0, 0, 0)
  const LightPosition: Vec3 := Vec3(0, 100, 0)

  /** The engine's scene: its own components and its children in creation order. */
  class Scene {
    var components: seq<Component>
    var children: seq<Node>

    constructor ()
      ensures components == [] && children == []
    {
      components := [];
      children := [];
    }

    /** Attaches a component to the scene itself. */
    method CreateComponent(c: Component)
      modifies this
      ensures components == old(components) + [c]
      ensures children == old(children)
    {
      components := components + [c];
    }

    /** Appends a child named `name` at the origin with no components; returns its handle. */
    method CreateChild(name: string) returns (node: nat)
      modifies this
      ensures node == |old(children)|
      ensures children == old(children) + [Node(name, Origin, [])]
      ensures components == old(components)
    {
      node := |children|;
      children := children + [Node(name, Origin, [])];
    }

    /** Moves one child; every other child and the scene components stay as they were. */
    method SetPosition(node: nat, p: Vec3)
      requires node < |children|
      modifies this
      ensures children == old(children)[node := old(children)[node].(position := p)]
      ensures components == old(components)
    {
      children := children[node := children[node].(position := p)];
    }

    /** Attaches a component to one child; nothing else changes. */
    method CreateNodeComponent(node: nat, c: Component)
      requires node < |children|
      modifies this
      ensures children == old(children)[node := old(children)[node].(components := old(children)[node].components + [c])]
      ensures components == old(components)
    {
      children := children[node := children[node].(components := children[node].components + [c])];
    }
  }

  /**
   Where the cube for a block goes: its grid coordinates times the grid scale.
   The position lies on the 10-unit grid, and dividing it by 10 recovers the
   block's grid cell, so distinct cells get distinct positions.
   */
  function GridToWorld(b: Voxel): (p: Vec3)
    ensures p.x % 10 == 0 && p.y % 10 == 0 && p.z % 10 == 0
    ensures p.x / 10 == b.x && p.y / 10 == b.y && p.z / 10 == b.z
  {
    Vec3(b.x * GridScale, b.y * GridScale, b.z * GridScale)
  }

  /** The node the block loop leaves behind for one block. */
  function BoxNode(b: Voxel): Node
  {
    Node("Box", GridToWorld(b), [StaticModel(CubeModel, CubeMaterial)])
  }

  /** The boxes for a block list, one per block and in the same order. */
  function Boxes(blocks: seq<Voxel>): (boxes: seq<Node>)
    ensures |boxes| == |blocks|
  {
    seq(|blocks|, i requires 0 <= i < |blocks| => BoxNode(blocks[i]))
  }

  /** The light and the zone, created before any block. */
  function LeadingChildren(): seq<Node>
  {
    [Node("DirectionalLight", LightPosition, [DirectionalLight]), Node("Zone", Origin, [Zone])]
  }

  /** The whole child list `CreateScene` builds for a block list. */
  function SceneChildren(blocks: seq<Voxel>): seq<Node>
  {
    LeadingChildren() + Boxes(blocks) + [Node("Camera", Origin, [Camera])]
  }

  /** The application object: the scene it owns and the handle of its camera node. */
  class Main {
    var scene: Scene?
    var cameraNode: Option<nat>

    constructor ()
      ensures scene == null && cameraNode == None
    {
      scene := null;
      cameraNode := None;
    }

    /**
     Builds the scene from the already parsed block list of the map file: octree,
     light, zone, one box per block, then the camera.
     */
    method CreateScene(blocks: seq<Voxel>)
      modifies this
      ensures scene != null && fresh(scene)
      ensures scene.components == [Octree]
      ensures scene.children == SceneChildren(blocks)
      ensures cameraNode == Some(|blocks| + 2)
    {
      var s := new Scene();
      scene := s;
      s.CreateComponent(Octree);

      var lightNode := s.CreateChild("DirectionalLight");
      s.SetPosition(lightNode, LightPosition);
      AppendToEmpty(DirectionalLight);
      s.CreateNodeComponent(lightNode, DirectionalLight);
      assert s.children == LeadingChildren()[..1];

      var zoneNode := s.CreateChild("Zone");
      AppendToEmpty(Zone);
      s.CreateNodeComponent(zoneNode, Zone);
      assert s.children == LeadingChildren();
      assert Boxes(blocks[..0]) == [];

      var i := 0;
      while i < |blocks|
        invariant 0 <= i <= |blocks|
        invariant scene == s
        invariant s.components == [Octree]
        invariant s.children == LeadingChildren() + Boxes(blocks[..i])
      {
        ghost var before := s.children;
        var boxNode := s.CreateChild("Box");
        s.SetPosition(boxNode, GridToWorld(blocks[i]));
        AppendToEmpty(StaticModel(CubeModel, CubeMaterial));
        s.CreateNodeComponent(boxNode, StaticModel(CubeModel, CubeMaterial));
        assert s.children == before + [BoxNode(blocks[i])];
        assert Boxes(blocks[..i + 1]) == Boxes(blocks[..i]) + [BoxNode(blocks[i])];
        i := i + 1;
      }
      assert blocks[..i] == blocks;

      ghost var before := s.children;
      var cam := s.CreateChild("Camera");
      AppendToEmpty(Camera);
      s.CreateNodeComponent(cam, Camera);
      assert s.children == before + [Node("Camera", Origin, [Camera])];
      cameraNode := Some(cam);
    }
  }

  /** Appending a component to an empty component list gives the one-element list. */
  lemma AppendToEmpty(c: Component)
    ensures [] + [c] == [c]
  {
  }

  /** Number of nodes in `nodes` named `name`. */
  function CountNamed(nodes: seq<Node>, name: string): (n: nat)
    ensures n <= |nodes|
  {
    if nodes == [] then 0
    else CountNamed(nodes[..|nodes| - 1], name) + (if nodes[|nodes| - 1].name == name then 1 else 0)
  }

  lemma {:induction false} CountNamedAppend(xs: seq<Node>, ys: seq<Node>, name: string)
    ensures CountNamed(xs + ys, name) == CountNamed(xs, name) + CountNamed(ys, name)
    decreases |ys|
  {
    if ys == [] {
      assert xs + ys == xs;
    } else {
      var ys' := ys[..|ys| - 1];
      assert (xs + ys)[..|xs + ys| - 1] == xs + ys';
      CountNamedAppend(xs, ys', name);
    }
  }

  lemma {:induction false} CountBoxes(blocks: seq<Voxel>)
    ensures CountNamed(Boxes(blocks), "Box") == |blocks|
    decreases |blocks|
  {
    if blocks != [] {
      var init := blocks[..|blocks| - 1];
      assert Boxes(blocks)[..|blocks| - 1] == Boxes(init);
      CountBoxes(init);
    }
  }

  /** Exactly one "Box" child is created per block. */
  lemma {:induction false} OneBoxPerBlock(blocks: seq<Voxel>)
    ensures CountNamed(SceneChildren(blocks), "Box") == |blocks|
  {
    var camera := [Node("Camera", Origin, [Camera])];
    CountNamedAppend(LeadingChildren() + Boxes(blocks), camera, "Box");
    CountNamedAppend(LeadingChildren(), Boxes(blocks), "Box");
    CountBoxes(blocks);
    assert CountNamed(LeadingChildren(), "Box") == 0 by {
      assert LeadingChildren()[..1] == [LeadingChildren()[0]];
      assert [LeadingChildren()[0]][..0] == [];
    }
    assert camera[..0] == [];
  }

  /**
   The scene's children in creation order: the light, the zone, the box of each
   block in block order, the camera; each box sits at ten times its block's grid
   coordinates and carries the cube model and material.
   */
  lemma SceneLayout(blocks: seq<Voxel>)
    ensures |SceneChildren(blocks)| == |blocks| + 3
    ensures SceneChildren(blocks)[0].name == "DirectionalLight"
    ensures SceneChildren(blocks)[1].name == "Zone"
    ensures SceneChildren(blocks)[|blocks| + 2].name == "Camera"
    ensures forall i :: 0 <= i < |blocks| ==>
              var n := SceneChildren(blocks)[i + 2];
              && n.name == "Box"
              && n.position == Vec3(blocks[i].x * 10, blocks[i].y * 10, blocks[i].z * 10)
              && n.components == [StaticModel("Models/cube.obj.mdl", "Materials/cube.xml")]
  {
  }

  /** Equal blocks are not merged: each yields its own box at the same position. */
  lemma DuplicatesKept(blocks: seq<Voxel>, i: int, j: int)
    requires 0 <= i < j < |blocks| && SameCell(blocks[i], blocks[j])
    ensures SceneChildren(blocks)[i + 2] == SceneChildren(blocks)[j + 2]
    ensures SceneChildren(blocks)[i + 2].name == "Box"
  {
  }

  /** Only the coordinates of a block matter; its colour index is ignored. */
  lemma {:induction false} ColorIgnored(a: seq<Voxel>, b: seq<Voxel>)
    requires |a| == |b|
    requires forall i :: 0 <= i < |a| ==> SameCell(a[i], b[i])
    ensures SceneChildren(a) == SceneChildren(b)
  {
    assert Boxes(a) == Boxes(b);
  }
}
