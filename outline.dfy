/**
 * The main-world side of the plugin (src/lib.rs; src/mod.rs holds an older
 * copy of the same items): the `MeshOutline` component, its extraction into
 * the render world, and the two systems that copy an outline from an entity
 * onto every mesh below it in the hierarchy.
 *
 * Entities are numbered `0 .. n-1`; the hierarchy is given by each entity's
 * parent, and every parent is numbered before its children, which keeps the
 * hierarchy acyclic.
 */
module Outline {

  import opened Wrappers
  import opened Float32
  import opened Linear
  import opened Entities

  /** The `MeshOutline` component. `scaledWidth` is the width after screen-size scaling. */
  datatype MeshOutline = MeshOutline(highlight: F32, width: F32, scaledWidth: F32, id: F32)

  /**
   * `MeshOutline::new`. The id is a random `f32` drawn from `[0, 1)`; the
   * draw is a parameter here.
   */
  function NewOutline(width: F32, randomId: real): (o: MeshOutline)
    requires 0.0 <= randomId < 1.0
    ensures o.highlight == Finite(0.0) && o.width == width && o.scaledWidth == o.width
    ensures o.id.Finite? && 0.0 <= o.id.value < 1.0
  {
    MeshOutline(Finite(0.0), width, width, Finite(randomId))
  }

  /** The render-world copy of an outlined mesh. */
  datatype ExtractedOutline = ExtractedOutline(highlight: F32, width: F32, id: F32, worldFromLocal: Rows3<F32>)

  /**
   * `MeshOutline::extract_component`, run for every entity with a mesh, an
   * outline and a global transform: it always produces a copy. The copy
   * carries the screen-scaled width, not the authored one, and the transform
   * as the rows of its 3x4 matrix.
   */
  function ExtractComponent(outline: MeshOutline, transform: Affine3A<F32>): (r: Option<ExtractedOutline>)
    ensures r.Some?
    ensures r.value.highlight == outline.highlight && r.value.id == outline.id
    ensures r.value.width == outline.scaledWidth
    ensures r.value.worldFromLocal.x.w == transform.translation.x
    ensures r.value.worldFromLocal.y.w == transform.translation.y
    ensures r.value.worldFromLocal.z.w == transform.translation.z
    ensures forall row, col | 0 <= row < 3 && 0 <= col < 3 ::
      RowEntry(r.value.worldFromLocal, row, col) == Entry(transform.matrix3, row, col)
  {
    Some(ExtractedOutline(outline.highlight, outline.scaledWidth, outline.id, ToTranspose(transform)))
  }

  /** Entry `col` (0..3) of row `row` (0..3) of an uploaded transform. */
  function RowEntry<T>(rows: Rows3<T>, row: nat, col: nat): T
    requires row < 3 && col < 3
  {
    var v := if row == 0 then rows.x else if row == 1 then rows.y else rows.z;
    if col == 0 then v.x else if col == 1 then v.y else v.z
  }

  /**
   * A newly made outline that has not been scaled yet is extracted with the
   * width it was made with, highlight 0 and its id.
   */
  lemma ExtractNewOutline(width: F32, randomId: real, transform: Affine3A<F32>)
    requires 0.0 <= randomId < 1.0
    ensures var r := ExtractComponent(NewOutline(width, randomId), transform);
      r.Some? && r.value.width == width && r.value.highlight == Finite(0.0) && r.value.id == Finite(randomId)
  {
  }

  /**
   * What the component extraction yields this frame, by main-world entity:
   * the query matches entities with an outline and a global transform, and
   * its filter keeps only those with a mesh.
   */
  function ExtractAll(hasMesh: seq<bool>, outlines: seq<Option<MeshOutline>>, transforms: seq<Option<Affine3A<F32>>>): (r: map<Entity, ExtractedOutline>)
    requires |outlines| == |hasMesh| && |transforms| == |hasMesh|
    ensures forall e: Entity :: e in r <==> e < |hasMesh| && hasMesh[e] && outlines[e].Some? && transforms[e].Some?
    ensures forall e | e in r ::
      && r[e].width == outlines[e].value.scaledWidth
      && r[e].highlight == outlines[e].value.highlight
      && r[e].id == outlines[e].value.id
  {
    map e | 0 <= e < |hasMesh| && hasMesh[e] && outlines[e].Some? && transforms[e].Some? ::
      ExtractComponent(outlines[e].value, transforms[e].value).value
  }

  // ---------------------------------------------------------------------------
  // Hierarchy

  /** The parts of the world the propagation systems read: `ChildOf` and `Mesh3d`. */
  datatype Scene = Scene(parent: seq<Option<Entity>>, hasMesh: seq<bool>)
  {
    ghost predicate Valid()
    {
      && |hasMesh| == |parent|
      && forall e | 0 <= e < |parent| :: parent[e].Some? ==> parent[e].value < e
    }

    function Size(): nat
    {
      |parent|
    }
  }

  /** `d` lies strictly below `a` in the hierarchy. */
  predicate DescendantOf(scene: Scene, a: Entity, d: Entity)
    requires scene.Valid() && d < scene.Size()
    decreases d
  {
    scene.parent[d].Some? && (scene.parent[d].value == a || DescendantOf(scene, a, scene.parent[d].value))
  }

  /** An entity is numbered after everything above it; in particular it is not its own descendant. */
  lemma {:induction false} DescendantsComeLater(scene: Scene, a: Entity, d: Entity)
    requires scene.Valid() && d < scene.Size() && DescendantOf(scene, a, d)
    ensures a < d
    decreases d
  {
    var p := scene.parent[d].value;
    if p != a {
      DescendantsComeLater(scene, a, p);
    }
  }

  /** The descendants of `a` below `n`, in increasing order (`Children::iter_descendants`). */
  function DescendantsBelow(scene: Scene, a: Entity, n: nat): (ds: seq<Entity>)
    requires scene.Valid() && n <= scene.Size()
    ensures forall d: Entity :: d in ds <==> d < n && DescendantOf(scene, a, d)
    ensures forall i, j | 0 <= i < j < |ds| :: ds[i] < ds[j]
  {
    if n == 0 then []
    else
      var earlier := DescendantsBelow(scene, a, n - 1);
      if DescendantOf(scene, a, n - 1) then
        assert forall i | 0 <= i < |earlier| :: earlier[i] in earlier;
        earlier + [n - 1]
      else earlier
  }

  function Descendants(scene: Scene, a: Entity): (ds: seq<Entity>)
    requires scene.Valid()
    ensures forall d: Entity :: d in ds <==> d < scene.Size() && DescendantOf(scene, a, d)
  {
    DescendantsBelow(scene, a, scene.Size())
  }

  /** The outlines after `root`'s outline is inserted on every mesh below it. */
  function Spread(scene: Scene, outlines: seq<Option<MeshOutline>>, root: Entity, outline: MeshOutline): (r: seq<Option<MeshOutline>>)
    requires scene.Valid() && |outlines| == scene.Size()
    ensures |r| == |outlines|
  {
    seq(|outlines|, i requires 0 <= i < |outlines| =>
      if scene.hasMesh[i] && DescendantOf(scene, root, i) then Some(outline) else outlines[i])
  }

  /** The outlines after `apply_recursively` runs for the scene instance `target`. */
  function SceneReady(scene: Scene, outlines: seq<Option<MeshOutline>>, target: Entity): (r: seq<Option<MeshOutline>>)
    requires scene.Valid() && |outlines| == scene.Size()
    ensures |r| == |outlines|
  {
    if target < |outlines| && outlines[target].Some? then Spread(scene, outlines, target, outlines[target].value)
    else outlines
  }

  /**
   * The outlines after `propagate_outline_changes` runs for the changed
   * entities `changed`, in query order. Commands are deferred, so every
   * outline copied is the one `snapshot` held when the system ran; a mesh
   * below several changed entities ends with the outline of the last.
   */
  function Propagated(scene: Scene, snapshot: seq<Option<MeshOutline>>, changed: seq<Entity>): (r: seq<Option<MeshOutline>>)
    requires scene.Valid() && |snapshot| == scene.Size()
    ensures |r| == |snapshot|
  {
    if changed == [] then snapshot
    else
      var earlier := Propagated(scene, snapshot, changed[..|changed| - 1]);
      var e := changed[|changed| - 1];
      if e < |snapshot| && snapshot[e].Some? then Spread(scene, earlier, e, snapshot[e].value) else earlier
  }

  /** `e` is a changed entity whose outline the propagation copies onto `i`. */
  predicate Covers(scene: Scene, snapshot: seq<Option<MeshOutline>>, e: Entity, i: Entity)
    requires scene.Valid() && |snapshot| == scene.Size() && i < scene.Size()
  {
    e < |snapshot| && snapshot[e].Some? && scene.hasMesh[i] && DescendantOf(scene, e, i)
  }

  /** One step of the propagation: the last changed entity overwrites what it covers. */
  lemma PropagatedStep(scene: Scene, snapshot: seq<Option<MeshOutline>>, changed: seq<Entity>, i: Entity)
    requires scene.Valid() && |snapshot| == scene.Size() && i < scene.Size() && changed != []
    ensures var e := changed[|changed| - 1];
      Propagated(scene, snapshot, changed)[i] ==
        if Covers(scene, snapshot, e, i) then snapshot[e]
        else Propagated(scene, snapshot, changed[..|changed| - 1])[i]
  {
  }

  /** An entity that no changed entity covers keeps its outline. */
  lemma {:induction false} PropagatedUncovered(scene: Scene, snapshot: seq<Option<MeshOutline>>, changed: seq<Entity>, i: Entity)
    requires scene.Valid() && |snapshot| == scene.Size() && i < scene.Size()
    requires forall k | 0 <= k < |changed| :: !Covers(scene, snapshot, changed[k], i)
    ensures Propagated(scene, snapshot, changed)[i] == snapshot[i]
    decreases |changed|
  {
    if changed != [] {
      var n := |changed| - 1;
      var earlier := changed[..n];
      assert forall k | 0 <= k < n :: earlier[k] == changed[k];
      PropagatedUncovered(scene, snapshot, earlier, i);
      PropagatedStep(scene, snapshot, changed, i);
    }
  }

  /**
   * An entity that changed entities cover ends with the snapshot outline of
   * the last of them: later changes win.
   */
  lemma {:induction false} PropagatedLastWins(scene: Scene, snapshot: seq<Option<MeshOutline>>, changed: seq<Entity>, i: Entity, k: nat)
    requires scene.Valid() && |snapshot| == scene.Size() && i < scene.Size()
    requires k < |changed| && Covers(scene, snapshot, changed[k], i)
    requires forall l | k < l < |changed| :: !Covers(scene, snapshot, changed[l], i)
    ensures Propagated(scene, snapshot, changed)[i] == snapshot[changed[k]]
    decreases |changed|
  {
    var n := |changed| - 1;
    PropagatedStep(scene, snapshot, changed, i);
    if k < n {
      var earlier := changed[..n];
      assert forall l | k <= l < n :: earlier[l] == changed[l];
      PropagatedLastWins(scene, snapshot, earlier, i, k);
    }
  }

  /** Only meshes below some changed entity with an outline can change. */
  lemma PropagatedTouchesOnlyMeshDescendants(scene: Scene, snapshot: seq<Option<MeshOutline>>, changed: seq<Entity>, i: Entity)
    requires scene.Valid() && |snapshot| == scene.Size() && i < scene.Size()
    requires Propagated(scene, snapshot, changed)[i] != snapshot[i]
    ensures scene.hasMesh[i]
    ensures exists k | 0 <= k < |changed| :: changed[k] < |snapshot| && snapshot[changed[k]].Some? && DescendantOf(scene, changed[k], i)
  {
    if forall k | 0 <= k < |changed| :: !Covers(scene, snapshot, changed[k], i) {
      PropagatedUncovered(scene, snapshot, changed, i);
    }
  }

  /** Propagating one changed entity does what the scene-ready observer does for it. */
  lemma PropagateOneIsSceneReady(scene: Scene, outlines: seq<Option<MeshOutline>>, e: Entity)
    requires scene.Valid() && |outlines| == scene.Size()
    ensures Propagated(scene, outlines, [e]) == SceneReady(scene, outlines, e)
  {
    assert [e][..0] == [];
  }

  /**
   * The scene root keeps its own outline, so running the observer a second
   * time changes nothing.
   */
  lemma SceneReadyIdempotent(scene: Scene, outlines: seq<Option<MeshOutline>>, target: Entity)
    requires scene.Valid() && |outlines| == scene.Size()
    ensures target < |outlines| ==> SceneReady(scene, outlines, target)[target] == outlines[target]
    ensures SceneReady(scene, SceneReady(scene, outlines, target), target) == SceneReady(scene, outlines, target)
  {
    if target < |outlines| && DescendantOf(scene, target, target) {
      DescendantsComeLater(scene, target, target);
    }
  }

  // ---------------------------------------------------------------------------
  // The main world

  /** The `MeshOutline` components of a scene; the systems insert them through deferred commands. */
  class World {
    const scene: Scene
    var outlines: seq<Option<MeshOutline>>

    ghost predicate Valid()
      reads this
    {
      scene.Valid() && |outlines| == scene.Size()
    }

    constructor (scene: Scene, outlines: seq<Option<MeshOutline>>)
      requires scene.Valid() && |outlines| == scene.Size()
      ensures Valid() && this.scene == scene && this.outlines == outlines
    {
      this.scene := scene;
      this.outlines := outlines;
    }

    /** The inner loop of both systems: insert `outline` on every mesh below `root`. */
    method InsertOnMeshDescendants(root: Entity, outline: MeshOutline)
      requires Valid()
      modifies this
      ensures Valid() && outlines == Spread(scene, old(outlines), root, outline)
    {
      var descendants := Descendants(scene, root);
      ghost var before := outlines;
      for k := 0 to |descendants|
        invariant Valid()
        invariant forall i | 0 <= i < |outlines| ::
          outlines[i] == if i in descendants[..k] && scene.hasMesh[i] then Some(outline) else before[i]
      {
        var child := descendants[k];
        assert child in descendants;
        if scene.hasMesh[child] {
          outlines := outlines[child := Some(outline)];
        }
        assert descendants[..k + 1] == descendants[..k] + [child];
      }
      assert descendants[..|descendants|] == descendants;
    }

    /**
     * `apply_recursively`, the observer of `SceneInstanceReady` on `target`:
     * nothing happens unless the target has an outline.
     */
    method ApplyRecursively(target: Entity)
      requires Valid()
      modifies this
      ensures Valid() && outlines == SceneReady(scene, old(outlines), target)
    {
      if target >= |outlines| || outlines[target].None? {
        return;
      }
      var outline := outlines[target].value;
      InsertOnMeshDescendants(target, outline);
    }

    /** `propagate_outline_changes`: `changed` lists the entities whose outline changed, in query order. */
    method PropagateOutlineChanges(changed: seq<Entity>)
      requires Valid()
      modifies this
      ensures Valid() && outlines == Propagated(scene, old(outlines), changed)
    {
      var snapshot := outlines;
      for j := 0 to |changed|
        invariant Valid()
        invariant outlines == Propagated(scene, snapshot, changed[..j])
      {
        var e := changed[j];
        assert changed[..j + 1][..j] == changed[..j];
        if e < |snapshot| && snapshot[e].Some? {
          InsertOnMeshDescendants(e, snapshot[e].value);
        }
      }
      assert changed[..|changed|] == changed;
    }
  }

  // ---------------------------------------------------------------------------
  // The render world

  /** `MapOfQuery(q)`: the map `q` builds when its entries are inserted in order. */
  function MapOfQuery(query: seq<(Entity, ExtractedOutline)>): map<Entity, ExtractedOutline>
  {
    if query == [] then map[]
    else MapOfQuery(query[..|query| - 1])[query[|query| - 1].0 := query[|query| - 1].1]
  }

  /** The map holds exactly the queried entities. */
  lemma {:induction false} MapOfQueryKeys(query: seq<(Entity, ExtractedOutline)>)
    ensures forall e :: e in MapOfQuery(query) <==> exists i | 0 <= i < |query| :: query[i].0 == e
  {
    if query != [] {
      var n := |query| - 1;
      MapOfQueryKeys(query[..n]);
      forall e | e in MapOfQuery(query)
        ensures exists i | 0 <= i < |query| :: query[i].0 == e
      {
        if e != query[n].0 {
          var earlier := query[..n];
          assert e in MapOfQuery(earlier);
          var i :| 0 <= i < |earlier| && earlier[i].0 == e;
          assert query[i].0 == e;
        }
      }
      forall e | exists i | 0 <= i < |query| :: query[i].0 == e
        ensures e in MapOfQuery(query)
      {
        var i :| 0 <= i < |query| && query[i].0 == e;
        if i < n {
          assert query[..n][i].0 == e;
        }
      }
    }
  }

  /**
   * Each entity maps to the outline of its last query row (its only one,
   * since the query yields each entity once).
   */
  lemma {:induction false} MapOfQueryLastWins(query: seq<(Entity, ExtractedOutline)>)
    ensures forall i | 0 <= i < |query| && (forall j | i < j < |query| :: query[j].0 != query[i].0) ::
      query[i].0 in MapOfQuery(query) && MapOfQuery(query)[query[i].0] == query[i].1
  {
    if query != [] {
      var n := |query| - 1;
      MapOfQueryLastWins(query[..n]);
      forall i | 0 <= i < |query| && (forall j | i < j < |query| :: query[j].0 != query[i].0)
        ensures query[i].0 in MapOfQuery(query) && MapOfQuery(query)[query[i].0] == query[i].1
      {
        if i < n {
          assert query[..n][i] == query[i];
          assert forall j | i < j < n :: query[..n][j] == query[j];
        }
      }
    }
  }

  /**
   * When the query lists the entries of `extracted`, each entity once, the
   * rebuilt map is `extracted` exactly: no entity is missing and none is left
   * over from an earlier frame.
   */
  lemma BatchMirrorsQuery(query: seq<(Entity, ExtractedOutline)>, extracted: map<Entity, ExtractedOutline>)
    requires forall i | 0 <= i < |query| :: query[i].0 in extracted && query[i].1 == extracted[query[i].0]
    requires forall e | e in extracted :: exists i | 0 <= i < |query| :: query[i].0 == e
    requires forall i, j | 0 <= i < j < |query| :: query[i].0 != query[j].0
    ensures MapOfQuery(query) == extracted
  {
    MapOfQueryKeys(query);
    MapOfQueryLastWins(query);
    forall e | e in extracted
      ensures e in MapOfQuery(query) && MapOfQuery(query)[e] == extracted[e]
    {
      var i :| 0 <= i < |query| && query[i].0 == e;
    }
  }

  /** The `ExtractedOutlines` resource, keyed by main-world entity. */
  class ExtractedOutlines {
    var entries: map<Entity, ExtractedOutline>

    constructor ()
      ensures entries == map[]
    {
      entries := map[];
    }

    /**
     * `extract_outlines_for_batch`: the map is rebuilt from this frame's
     * extracted outlines, so entities that lost their outline drop out.
     */
    method ExtractForBatch(query: seq<(Entity, ExtractedOutline)>)
      modifies this
      ensures entries == MapOfQuery(query)
    {
      entries := map[];
      for j := 0 to |query|
        invariant entries == MapOfQuery(query[..j])
      {
        assert query[..j + 1][..j] == query[..j];
        entries := entries[query[j].0 := query[j].1];
      }
      assert query[..|query|] == query;
    }
  }
}
