/**
 * Per-mesh outline bind groups (src/render.rs): each frame one uniform
 * buffer and bind group is built for every extracted outline, and the draw
 * command binds the group of the mesh being drawn, skipping meshes that
 * have none.
 */
module Render {

  import opened Wrappers
  import opened Float32
  import opened Linear
  import opened Entities

  /** The extracted outline as this file reads it. */
  datatype ExtractedOutline = ExtractedOutline(
    intensity: F32, width: F32, id: F32, priority: F32, color: Vec4<F32>, worldFromLocal: Rows3<F32>)

  /** The uniform block uploaded for one outlined mesh. */
  datatype OutlineUniform = OutlineUniform(
    intensity: F32, width: F32, id: F32, priority: F32, outlineColor: Vec4<F32>,
    instanceIndex: nat, worldFromLocal: Rows3<F32>)

  /** A bind group over one uniform buffer. */
  datatype BindGroup = BindGroup(binding: nat, uniform: OutlineUniform)

  /**
   * The uniform for one outline: instance index 0, and the outline can be
   * read back from it unchanged.
   */
  function UniformFor(outline: ExtractedOutline): (u: OutlineUniform)
    ensures u.instanceIndex == 0
    ensures OutlineOf(u) == outline
  {
    OutlineUniform(outline.intensity, outline.width, outline.id, outline.priority, outline.color, 0, outline.worldFromLocal)
  }

  /** The bind group `prepare_outline_bind_groups` builds for one outline: its buffer at binding 0. */
  function BindGroupFor(outline: ExtractedOutline): BindGroup
  {
    BindGroup(0, UniformFor(outline))
  }

  /** The bind groups after preparing `extracted`. */
  function PreparedGroups(extracted: map<Entity, ExtractedOutline>): map<Entity, BindGroup>
  {
    map e | e in extracted :: BindGroupFor(extracted[e])
  }

  /**
   * Every extracted outline gets a group and nothing else does, and the
   * group's uniform carries the outline unchanged, with instance index 0;
   * the outline can be read back from its group.
   */
  lemma PreparedGroupsCarryOutlines(extracted: map<Entity, ExtractedOutline>)
    ensures PreparedGroups(extracted).Keys == extracted.Keys
    ensures forall e | e in extracted ::
      var g := PreparedGroups(extracted)[e];
      && g.binding == 0
      && g.uniform.instanceIndex == 0
      && OutlineOf(g.uniform) == extracted[e]
  {
  }

  /** The outline a uniform was made from. */
  function OutlineOf(u: OutlineUniform): ExtractedOutline
  {
    ExtractedOutline(u.intensity, u.width, u.id, u.priority, u.outlineColor, u.worldFromLocal)
  }

  /**
   * The uniforms `prepare_outline_bind_groups` can build are exactly those
   * with instance index 0, each built from its read-back outline.
   */
  lemma UniformsAreInstanceZero(u: OutlineUniform)
    ensures (exists o :: UniformFor(o) == u) <==> u.instanceIndex == 0
    ensures u.instanceIndex == 0 ==> UniformFor(OutlineOf(u)) == u
  {
    if u.instanceIndex == 0 {
      assert UniformFor(OutlineOf(u)) == u;
    }
  }

  /** The `OutlineBindGroups` resource. */
  class OutlineBindGroups {
    var groups: map<Entity, BindGroup>

    constructor ()
      ensures groups == map[]
    {
      groups := map[];
    }

    /**
     * `prepare_outline_bind_groups`: the groups are rebuilt from scratch, one
     * per extracted outline, in the map's iteration order.
     */
    method Prepare(extracted: map<Entity, ExtractedOutline>)
      modifies this
      ensures groups == PreparedGroups(extracted)
    {
      groups := map[];
      var pending := extracted.Keys;
      while pending != {}
        invariant pending <= extracted.Keys
        invariant groups.Keys == extracted.Keys - pending
        invariant forall e | e in groups :: groups[e] == BindGroupFor(extracted[e])
        decreases pending
      {
        var e :| e in pending;
        groups := groups[e := BindGroupFor(extracted[e])];
        pending := pending - {e};
      }
    }
  }

  datatype RenderCommandResult = Success | Skip | Failure

  /** The bind groups set on a render pass, by group index. */
  class TrackedRenderPass {
    var bindGroups: map<nat, BindGroup>

    constructor ()
      ensures bindGroups == map[]
    {
      bindGroups := map[];
    }

    method SetBindGroup(index: nat, group: BindGroup)
      modifies this
      ensures bindGroups == old(bindGroups)[index := group]
    {
      bindGroups := bindGroups[index := group];
    }
  }

  /**
   * `SetOutlineBindGroup::<I>::render` for a mesh drawn on behalf of
   * `mainEntity`: its group goes to index `I` when it exists; otherwise the
   * draw is skipped for this frame and the pass is left alone. It never fails.
   */
  method SetOutlineBindGroup(index: nat, mainEntity: Entity, resource: OutlineBindGroups, pass: TrackedRenderPass)
    returns (r: RenderCommandResult)
    modifies pass
    ensures r != Failure
    ensures r == Success <==> mainEntity in resource.groups
    ensures r == Success ==> pass.bindGroups == old(pass.bindGroups)[index := resource.groups[mainEntity]]
    ensures r == Skip ==> pass.bindGroups == old(pass.bindGroups)
  {
    if mainEntity in resource.groups {
      pass.SetBindGroup(index, resource.groups[mainEntity]);
      r := Success;
    } else {
      r := Skip;
    }
  }

  /**
   * What the draw command does with prepared groups: it binds the uniform
   * of exactly the extracted outline for `mainEntity`, and skips every mesh
   * whose outline was not extracted this frame.
   */
  function DrawOutcome(extracted: map<Entity, ExtractedOutline>, mainEntity: Entity): (r: Option<OutlineUniform>)
    ensures r.Some? <==> mainEntity in extracted
    ensures r.Some? ==> r.value == UniformFor(extracted[mainEntity])
  {
    var groups := PreparedGroups(extracted);
    if mainEntity in groups then Some(groups[mainEntity].uniform) else None
  }
}
