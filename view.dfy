/**
 * Per-frame extraction of outline cameras (src/view.rs): which views get an
 * outline phase this frame, the view uniform each live camera receives, and
 * the packing of the camera's rotation/scale into `[Vec4; 2]` plus `f32`.
 */
module View {

  import opened Wrappers
  import opened Float32
  import opened Linear
  import opened Entities

  /** Bevy's key for a view that persists across frames. */
  datatype RetainedViewEntity = RetainedViewEntity(mainEntity: Entity, auxiliaryEntity: Option<Entity>, subviewIndex: nat)

  /** `RetainedViewEntity::new(main_entity, None, 0)`. */
  function ViewKey(mainEntity: Entity): RetainedViewEntity
  {
    RetainedViewEntity(mainEntity, None, 0)
  }

  /** Distinct cameras give distinct view keys. */
  lemma ViewKeyInjective(a: Entity, b: Entity)
    ensures ViewKey(a) == ViewKey(b) <==> a == b
  {
  }

  // ---------------------------------------------------------------------------
  // transpose_3x3

  /** The two `Vec4`s and the trailing scalar of a packed 3x3 matrix. */
  datatype Packed3x3<T> = Packed3x3(a0: Vec4<T>, a1: Vec4<T>, b: T)

  /**
   * `transpose_3x3`: the nine entries of the transposed linear part, axis by
   * axis, spread over two `Vec4`s and one scalar. The translation is ignored.
   * The packed values are the matrix's entries in row-major order, each
   * exactly once: a permutation of its column-major storage.
   */
  function Transpose3x3<T>(m: Affine3A<T>): (p: Packed3x3<T>)
    ensures PackedEntries(p) == Entries(m.matrix3)
  {
    var t := Transpose(m.matrix3);
    Packed3x3(Vec4(t.xAxis.x, t.xAxis.y, t.xAxis.z, t.yAxis.x),
              Vec4(t.yAxis.y, t.yAxis.z, t.zAxis.x, t.zAxis.y),
              t.zAxis.z)
  }

  /** Reads a packed matrix back, as the shader does. */
  function Unpack3x3<T>(p: Packed3x3<T>): Mat3<T>
  {
    Mat3(Vec3(p.a0.x, p.a0.y, p.a0.z),
         Vec3(p.a0.w, p.a1.x, p.a1.y),
         Vec3(p.a1.z, p.a1.w, p.b))
  }

  /** The nine packed values in order. */
  function PackedEntries<T>(p: Packed3x3<T>): seq<T>
  {
    [p.a0.x, p.a0.y, p.a0.z, p.a0.w, p.a1.x, p.a1.y, p.a1.z, p.a1.w, p.b]
  }

  /** The nine entries of a matrix, row by row. */
  function Entries<T>(m: Mat3<T>): (s: seq<T>)
    ensures |s| == 9
    ensures forall i | 0 <= i < 9 :: s[i] == Entry(m, i / 3, i % 3)
  {
    [m.xAxis.x, m.yAxis.x, m.zAxis.x,
     m.xAxis.y, m.yAxis.y, m.zAxis.y,
     m.xAxis.z, m.yAxis.z, m.zAxis.z]
  }

  /**
   * Unpacking recovers the transposed matrix, and transposing once more the
   * original linear part: the packing loses nothing.
   */
  lemma Transpose3x3RoundTrip<T>(m: Affine3A<T>)
    ensures Unpack3x3(Transpose3x3(m)) == Transpose(m.matrix3)
    ensures Transpose(Unpack3x3(Transpose3x3(m))) == m.matrix3
  {
  }

  /** Every packed value of a matrix is read back in place: packing is onto. */
  lemma Unpack3x3RoundTrip<T>(p: Packed3x3<T>, translation: Vec3<T>)
    ensures Transpose3x3(Affine3A(Transpose(Unpack3x3(p)), translation)) == p
  {
  }

  // ---------------------------------------------------------------------------
  // extract_outline_view_uniforms

  /** What the extraction reads of a 3D camera in the main world. */
  datatype Camera = Camera(
    mainEntity: Entity,
    renderEntity: Entity,
    isActive: bool,
    logicalViewportSize: Option<Vec2<F32>>,
    transform: Affine3A<F32>)

  /**
   * The outline view uniform. `clip_from_world`, `aspect` and `scale` are
   * float formulas over the projection and the viewport size; the model keeps
   * the viewport size they are computed from.
   */
  datatype OutlineViewUniform = OutlineViewUniform(
    worldFromViewA: (Vec4<F32>, Vec4<F32>),
    worldFromViewB: F32,
    viewportSize: Vec2<F32>)

  /** A camera gets an outline view this frame. */
  predicate IsLive(c: Camera)
  {
    c.isActive && c.logicalViewportSize.Some?
  }

  function ViewUniformFor(c: Camera): OutlineViewUniform
    requires IsLive(c)
  {
    var p := Transpose3x3(c.transform);
    OutlineViewUniform((p.a0, p.a1), p.b, c.logicalViewportSize.value)
  }

  /** The query yields each camera entity once, each with its own render entity. */
  predicate DistinctCameras(cameras: seq<Camera>)
  {
    forall i, j | 0 <= i < j < |cameras| ::
      cameras[i].mainEntity != cameras[j].mainEntity && cameras[i].renderEntity != cameras[j].renderEntity
  }

  /** The keys of the views that get an outline phase this frame. */
  function LiveViews(cameras: seq<Camera>): set<RetainedViewEntity>
  {
    if cameras == [] then {}
    else
      var c := cameras[|cameras| - 1];
      LiveViews(cameras[..|cameras| - 1]) + if IsLive(c) then {ViewKey(c.mainEntity)} else {}
  }

  /** The uniforms inserted this frame, by render entity. */
  function NewViewUniforms(cameras: seq<Camera>): map<Entity, OutlineViewUniform>
  {
    if cameras == [] then map[]
    else
      var c := cameras[|cameras| - 1];
      var earlier := NewViewUniforms(cameras[..|cameras| - 1]);
      if IsLive(c) then earlier[c.renderEntity := ViewUniformFor(c)] else earlier
  }

  /** A view key is live iff some active camera with a viewport size has that main entity. */
  lemma {:induction false} LiveViewsExactly(cameras: seq<Camera>)
    ensures forall k :: k in LiveViews(cameras) <==>
      exists i :: 0 <= i < |cameras| && IsLive(cameras[i]) && k == ViewKey(cameras[i].mainEntity)
  {
    if cameras != [] {
      var n := |cameras| - 1;
      var init := cameras[..n];
      LiveViewsExactly(init);
      forall k ensures k in LiveViews(cameras) <==>
        exists i :: 0 <= i < |cameras| && IsLive(cameras[i]) && k == ViewKey(cameras[i].mainEntity)
      {
        if exists i :: 0 <= i < |cameras| && IsLive(cameras[i]) && k == ViewKey(cameras[i].mainEntity) {
          var i :| 0 <= i < |cameras| && IsLive(cameras[i]) && k == ViewKey(cameras[i].mainEntity);
          if i < n {
            assert init[i] == cameras[i];
          }
        }
        if k in LiveViews(init) {
          var i :| 0 <= i < |init| && IsLive(init[i]) && k == ViewKey(init[i].mainEntity);
          assert init[i] == cameras[i];
        }
      }
    }
  }

  /**
   * A render entity gets a new uniform iff it belongs to an active camera
   * with a viewport size, and that uniform is the camera's own.
   */
  lemma {:induction false} NewViewUniformsExactly(cameras: seq<Camera>)
    requires DistinctCameras(cameras)
    ensures forall e :: e in NewViewUniforms(cameras) <==>
      exists i :: 0 <= i < |cameras| && IsLive(cameras[i]) && e == cameras[i].renderEntity
    ensures forall i | 0 <= i < |cameras| && IsLive(cameras[i]) ::
      NewViewUniforms(cameras)[cameras[i].renderEntity] == ViewUniformFor(cameras[i])
  {
    if cameras != [] {
      var n := |cameras| - 1;
      var init := cameras[..n];
      DistinctPrefix(cameras, n);
      NewViewUniformsExactly(init);
      forall e ensures e in NewViewUniforms(cameras) <==>
        exists i :: 0 <= i < |cameras| && IsLive(cameras[i]) && e == cameras[i].renderEntity
      {
        if exists i :: 0 <= i < |cameras| && IsLive(cameras[i]) && e == cameras[i].renderEntity {
          var i :| 0 <= i < |cameras| && IsLive(cameras[i]) && e == cameras[i].renderEntity;
          if i < n {
            assert init[i] == cameras[i];
          }
        }
        if e in NewViewUniforms(init) {
          var i :| 0 <= i < |init| && IsLive(init[i]) && e == init[i].renderEntity;
          assert init[i] == cameras[i];
        }
      }
      forall i | 0 <= i < |cameras| && IsLive(cameras[i])
        ensures NewViewUniforms(cameras)[cameras[i].renderEntity] == ViewUniformFor(cameras[i])
      {
        if i < n {
          assert init[i] == cameras[i];
          assert cameras[i].renderEntity != cameras[n].renderEntity;
        }
      }
    }
  }

  lemma DistinctPrefix(cameras: seq<Camera>, n: nat)
    requires DistinctCameras(cameras) && n <= |cameras|
    ensures DistinctCameras(cameras[..n])
  {
    var init := cameras[..n];
    forall i, j | 0 <= i < j < |init|
      ensures init[i].mainEntity != init[j].mainEntity && init[i].renderEntity != init[j].renderEntity
    {
      assert init[i] == cameras[i] && init[j] == cameras[j];
    }
  }

  /** No camera before the `i`-th in the query produced its view key. */
  lemma FreshViewKey(cameras: seq<Camera>, i: nat)
    requires DistinctCameras(cameras) && i < |cameras|
    ensures ViewKey(cameras[i].mainEntity) !in LiveViews(cameras[..i])
  {
    var init := cameras[..i];
    LiveViewsExactly(init);
    forall j | 0 <= j < |init| && IsLive(init[j])
      ensures ViewKey(init[j].mainEntity) != ViewKey(cameras[i].mainEntity)
    {
      assert init[j] == cameras[j];
    }
  }

  /**
   * A camera that is inactive or has no logical viewport size adds no view
   * key and no uniform.
   */
  lemma SkippedCameraGetsNothing(cameras: seq<Camera>, i: nat)
    requires DistinctCameras(cameras) && i < |cameras| && !IsLive(cameras[i])
    ensures ViewKey(cameras[i].mainEntity) !in LiveViews(cameras)
    ensures cameras[i].renderEntity !in NewViewUniforms(cameras)
  {
    LiveViewsExactly(cameras);
    NewViewUniformsExactly(cameras);
    forall j | 0 <= j < |cameras| && IsLive(cameras[j])
      ensures cameras[j].mainEntity != cameras[i].mainEntity
      ensures cameras[j].renderEntity != cameras[i].renderEntity
    {
      assert j != i;
    }
  }

  /** One more camera in the query adds at most its own key and its own uniform. */
  lemma ExtractStep(cameras: seq<Camera>, i: nat)
    requires i < |cameras|
    ensures LiveViews(cameras[..i + 1]) ==
      LiveViews(cameras[..i]) + if IsLive(cameras[i]) then {ViewKey(cameras[i].mainEntity)} else {}
    ensures NewViewUniforms(cameras[..i + 1]) ==
      if IsLive(cameras[i]) then NewViewUniforms(cameras[..i])[cameras[i].renderEntity := ViewUniformFor(cameras[i])]
      else NewViewUniforms(cameras[..i])
  {
    assert (cameras[..i + 1])[..i] == cameras[..i];
  }

  /** Inserting into an override is inserting into its right-hand side. */
  lemma OverrideUpdate<K, V>(a: map<K, V>, b: map<K, V>, k: K, v: V)
    ensures (a + b)[k := v] == a + b[k := v]
  {
  }

  /**
   * The render-world state the extraction touches: the `Local` live-entity
   * set, the binned outline phases keyed by view, and the view uniforms
   * inserted on render entities. `P` is the phase type, which is Bevy's.
   */
  class OutlineViews<P> {
    var liveEntities: set<RetainedViewEntity>
    var phases: map<RetainedViewEntity, P>
    var viewUniforms: map<Entity, OutlineViewUniform>

    constructor ()
      ensures liveEntities == {} && phases == map[] && viewUniforms == map[]
    {
      liveEntities := {};
      phases := map[];
      viewUniforms := map[];
    }

    /**
     * `extract_outline_view_uniforms`. `prepareForNewFrame` stands for
     * `ViewBinnedRenderPhases::prepare_for_new_frame` on one view: given the
     * view's phase if it has one, it returns the phase to keep.
     */
    method ExtractOutlineViewUniforms(cameras: seq<Camera>, prepareForNewFrame: Option<P> -> P)
      requires DistinctCameras(cameras)
      modifies this
      ensures liveEntities == LiveViews(cameras)
      ensures phases.Keys == LiveViews(cameras)
      ensures forall k | k in phases ::
        phases[k] == prepareForNewFrame(if k in old(phases) then Some(old(phases)[k]) else None)
      ensures viewUniforms == old(viewUniforms) + NewViewUniforms(cameras)
    {
      liveEntities := {};
      ghost var oldPhases := phases;
      for i := 0 to |cameras|
        invariant liveEntities == LiveViews(cameras[..i])
        invariant phases.Keys == oldPhases.Keys + liveEntities
        invariant forall k | k in liveEntities ::
          phases[k] == prepareForNewFrame(if k in oldPhases then Some(oldPhases[k]) else None)
        invariant forall k | k in phases && k !in liveEntities :: phases[k] == oldPhases[k]
        invariant viewUniforms == old(viewUniforms) + NewViewUniforms(cameras[..i])
      {
        var camera := cameras[i];
        ExtractStep(cameras, i);
        if !camera.isActive {
          continue;
        }
        if camera.logicalViewportSize.Some? {
          viewUniforms := viewUniforms[camera.renderEntity := ViewUniformFor(camera)];
          OverrideUpdate(old(viewUniforms), NewViewUniforms(cameras[..i]), camera.renderEntity, ViewUniformFor(camera));
          var key := ViewKey(camera.mainEntity);
          FreshViewKey(cameras, i);
          phases := phases[key := prepareForNewFrame(if key in phases then Some(phases[key]) else None)];
          liveEntities := liveEntities + {key};
        }
      }
      assert cameras[..|cameras|] == cameras;
      phases := map k | k in liveEntities :: phases[k];
    }
  }
}
