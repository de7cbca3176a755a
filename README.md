# bevy_mesh_outline, CPU side, in Dafny

This project models the CPU-side orchestration of `bevy_mesh_outline`, a Bevy
plugin that draws outlines around meshes with a jump-flood algorithm. It does
not model the shaders. It covers five parts:

- **The outline render-graph node** (`OutlineMaskNode::run`), in `mask_node.dfy`
  with the pass schedule in `flood_schedule.dfy`. Per view and frame, the node:
  - checks a ladder of resources and returns `Ok` at the first one missing;
  - clears the two ping-pong flood textures, the outline colour storage and
    the outline depth;
  - seeds one flood texture with the mask pass;
  - runs `passes` jump-flood rounds, flipping the textures before each round;
  - composes the flooded texture over the scene.

  GPU work is recorded as a log of abstract commands. A replay semantics
  (`Replay`) tracks what each flood texture holds, as the history of passes
  that wrote it.
- **The main-world component and systems** of `src/lib.rs`, in `outline.dfy`:
  - `MeshOutline::new` and the component extraction;
  - the per-frame `ExtractedOutlines` rebuild;
  - the two systems that copy an outline onto every mesh below an entity:
    the scene-ready observer and the change propagation.

  `src/mod.rs` is an older copy of the same module. Its versions of these
  items behave identically (`or_return_quiet!` there is the `let … else
  return` of `src/lib.rs`), so they are modelled once and the table cites
  `src/lib.rs`.
- **Per-mesh bind groups** (`src/render.rs`), in `render.dfy`: the per-frame
  rebuild of `OutlineBindGroups`, and the draw command that binds a mesh's
  group or skips the mesh.
- **View extraction** (`src/view.rs`), in `view.dfy`:
  - the live-view set;
  - phase preparation and `retain`;
  - the per-camera view uniform;
  - the `transpose_3x3` packing, over a generic element type.
- **Support modules:**
  - `float32.dfy`: the `f32` behaviour the code depends on, namely NaN, the
    infinities, `ceil`, and Rust's saturating float-to-`u32` cast.
  - `linear.dfy`: glam's column-major matrices and `Affine3::to_transpose`.
  - `wrappers.dfy`: `Option`.
  - `entities.dfy`: Bevy's `Entity`, as a number.

Each imperative operation is a method on a class holding the state the source
mutates:
- `FloodTextures`, `RenderContext`, `World`, `ExtractedOutlines`,
  `OutlineBindGroups`, `TrackedRenderPass` and `OutlineViews`;
- each method's `ensures` ties the new state to a specification function;
- lemmas prove the promised properties about those functions.

Design decisions:
- **`flip()`:** its body is not part of this model. It is taken to swap the
  `input` and `output` textures, as its use implies.
- **Two `ExtractedOutline` records:** the source is inconsistent here.
  `ExtractedOutline` in `src/lib.rs:148-153` has `highlight, width, id,
  world_from_local`. `src/render.rs:58-66` reads `intensity, priority, color`
  from it and sets `instance_index` and `world_from_local` on an
  `OutlineUniform` that `src/uniforms.rs:12-18` does not declare. So
  `Outline.ExtractedOutline` follows `lib.rs`, and `Render.ExtractedOutline`
  / `Render.OutlineUniform` carry the fields `render.rs` uses.
- **Entities and hierarchy:** entities are numbers, and the hierarchy is an
  arena in which every parent is numbered before its children.
  `Children::iter_descendants` is the ascending list of descendants. Its
  order does not matter, because every descendant receives the same outline.
- **Deferred commands:** Bevy applies `Commands` after the system runs. So
  propagation reads every outline from the state at the start of the system,
  and later inserts overwrite earlier ones.

## Model

| member | source | states |
|---|---|---|
| Float32.SaturatingToU32 | src/mask_node.rs:166 | `as u32` on an `f32`: the result is at most `u32::MAX`; it truncates in range, saturates above the range, and gives 0 for NaN, negatives and minus infinity |
| FloodSchedule.FloodPasses | src/mask_node.rs:163-172 | the round count is 0 exactly when the width is not positive (NaN included), and never more than 32 |
| FloodSchedule.PassesForCeilSpec | src/mask_node.rs:165-169 | for `c = ceil(2w)` as `u32`: `passes = ceil_log2(c/2+1) + 1` and `1 <= passes <= 32`; `next_power_of_two` stays at or below `2^31`, so it cannot overflow; the largest step `2^(passes-1)` reaches `c/2+1`; when `passes >= 2`, `2^(passes-2)` does not (minimality) |
| Float32.IsPositive | src/mask_node.rs:165 | `w > 0.0` holds exactly for the widths whose `(w * 2.0).ceil() as u32` is non-zero; NaN is not positive |
| Float32.Double | src/mask_node.rs:166 | doubling keeps NaN and the infinities, and halving a doubled finite value gives it back |
| Float32.Ceil | src/mask_node.rs:166 | `ceil` gives the least integer not below a finite value and keeps NaN and the infinities |
| FloodSchedule.CeilDoubled | src/mask_node.rs:166 | `(w * 2.0).ceil() as u32` is non-zero iff the width is positive, lies in `[2w, 2w+1)` while that fits a `u32`, and is `u32::MAX` for larger widths and plus infinity |
| FloodSchedule.NextPowerOfTwo | src/mask_node.rs:167 | `next_power_of_two(n)` is `2^ceil_log2(n)`, the least power of two not below `n` |
| FloodSchedule.TrailingZeros | src/mask_node.rs:168 | `trailing_zeros(x)` is the `t` with `2^t` dividing `x` and an odd quotient |
| FloodSchedule.TrailingZerosOfPow2 | src/mask_node.rs:168 | `trailing_zeros(2^k) = k` |
| FloodSchedule.CeilLog2Bounds | src/mask_node.rs:166-168 | `2^ceil_log2(n) >= n`, and `2^(ceil_log2(n)-1) < n` when `n >= 2` |
| FloodSchedule.NonPositiveWidthRunsNoRound | src/mask_node.rs:165-172 | zero, negative, NaN and minus-infinity widths run no round |
| FloodSchedule.LargestStepCoversWidth | src/mask_node.rs:165-169 | for a positive width whose double fits a `u32`, the largest step `2^(passes-1)` is wider than the outline; with one round fewer, the largest step would not reach `ceil(2w)/2 + 1` (minimal against that bound, not against the width itself) |
| FloodSchedule.SaturatedWidthRunsAllRounds | src/mask_node.rs:166 | a width whose double saturates the cast (or plus infinity) runs all 32 rounds |
| FloodSchedule.FloodPassesMonotone | src/mask_node.rs:165-172 | a wider outline never gets fewer rounds |
| FloodSchedule.RoundSizesSchedule | src/mask_node.rs:174 | the rounds use the step indices `passes-1` down to 0, each below `passes` exactly once, strictly decreasing |
| FloodSchedule.TenPixelOutline | src/mask_node.rs:165-174 | a 10-pixel outline runs 5 rounds with step indices 4, 3, 2, 1, 0 |
| MaskNode.FloodTextures.Clone | src/mask_node.rs:77 | the clone has the same two textures in the same roles |
| MaskNode.FloodTextures.Flip | src/mask_node.rs:175 | the textures trade roles and stay distinct |
| MaskNode.RenderContext.Clear | src/mask_node.rs:84-100 | `clear_texture` appends one clear of the given texture to the encoder's commands |
| MaskNode.RenderContext.DrawMask | src/mask_node.rs:102-145 | the mask pass appends one pass with its colour target, colour clear, depth target, depth clear and viewport |
| MaskNode.RenderContext.JumpFlood | src/mask_node.rs:176-183 | a flood round is recorded with distinct input and output, the outline depth, the colour storage and its step index |
| MaskNode.RenderContext.Compose | src/mask_node.rs:207-218 | the composite pass appends one pass with its bind-group entries, at group 0, drawing 3 vertices and 1 instance |
| MaskNode.ExitOf | src/mask_node.rs:60-157 | `run` stops at the first missing resource in source order: every earlier check passed and the one it stops at failed; it completes only when all are present |
| MaskNode.Run | src/mask_node.rs:36-221 | `run` always returns `Ok` (given the `PipelineCache` resource); it records exactly `NodeCommands` (nothing on an early exit, the clears and the mask pass when compose is unavailable, and otherwise those plus the flood rounds and the compose pass) and logs exactly `NodeLog` |
| MaskNode.ClearAndMask | src/mask_node.rs:84-145 | input, output, colour storage and outline depth are cleared; then the mask pass writes `output`, with a colour clear of (-1,-1,-1,0), a depth clear of 0 and the camera viewport |
| MaskNode.FloodAndCompose | src/mask_node.rs:174-218 | each of the `passes` rounds flips, then reads `input` and writes `output`; then compose binds the final `output` |
| MaskNode.FloodRoundsPingPong | src/mask_node.rs:174-183 | round `i` reads the slot after `i` flips and writes the slot after `i+1` flips, with the `i`-th step index |
| MaskNode.FloodRoundsCarryResult | src/mask_node.rs:174-183 | replayed, the rounds leave the starting content, flooded with every step index in order, in the slot the last round wrote |
| MaskNode.ComposeReadsLatest | src/mask_node.rs:174-218 | for every round count, 0 included: the texture compose binds is the one written last, and it holds the mask output flooded by every scheduled round; the compose pass is bind group 0, 3 vertices and 1 instance |
| MaskNode.RoundsPingPong | src/mask_node.rs:174-183 | in the node's log, each flood round reads what the step before wrote (the mask target for the first round), writes the other texture, and uses step indices `passes-1` down to 0 |
| MaskNode.NoWidthComposesMask | src/mask_node.rs:165-198 | with a non-positive width there is no round and no flip, and compose samples the mask target |
| MaskNode.MaskPassClearsFirst | src/mask_node.rs:84-131 | once the mask pass runs, the four outline textures are cleared before it; it clears its colour target to the seed sentinel and the depth to 0 |
| MaskNode.EarlyExitIssuesNothing | src/mask_node.rs:60-80 | a missing phases resource, view phase, jump-flood pass or prepass depth ends the node before any clear or pass |
| MaskNode.MissingComposeStopsAfterMask | src/mask_node.rs:147-157 | without a compose pipeline, or before it is compiled, the node stops after the mask pass, with no flood round and no compose |
| MaskNode.SizeMismatchOnlyWarns | src/mask_node.rs:51-58 | a texture-size mismatch logs a warning first and changes no command |
| Linear.ToTranspose | src/lib.rs:168 | `to_transpose` lays out the affine transform as three rows of `[matrix row, translation]` |
| Outline.NewOutline | src/lib.rs:136-144 | a new outline has highlight 0, `scaled_width = width`, and an id in `[0, 1)` |
| Outline.ExtractComponent | src/lib.rs:161-170 | extraction always yields `Some`; highlight and id are copied, the width is the scaled width, and the transform is uploaded entry by entry as rows |
| Outline.ExtractNewOutline | src/lib.rs:136-170 | an unscaled new outline is extracted with the width it was made with, highlight 0 and its id |
| Outline.ExtractAll | src/lib.rs:155-160 | exactly the entities with a mesh, an outline and a transform are extracted, each with its outline's scaled width, highlight and id |
| Outline.DescendantsComeLater | src/lib.rs:183 | an entity lies after everything above it, so it is never its own descendant |
| Outline.Descendants | src/lib.rs:183 | the descendant list holds exactly the entities below the root |
| Outline.World.InsertOnMeshDescendants | src/lib.rs:183-187 | the root's outline is inserted on every mesh below it, and on nothing else |
| Outline.World.ApplyRecursively | src/lib.rs:173-189 | with no outline on the scene root nothing changes; otherwise exactly the mesh descendants get the root's outline |
| Outline.SceneReadyIdempotent | src/lib.rs:173-189 | the scene root keeps its own outline, so a second run changes nothing |
| Outline.World.PropagateOutlineChanges | src/lib.rs:209-222 | the outlines become `Propagated` from the state at the start of the system, over the changed entities in query order |
| Outline.PropagatedStep | src/lib.rs:214-220 | one changed entity overwrites exactly the meshes it covers |
| Outline.PropagatedUncovered | src/lib.rs:214-220 | an entity that is not a mesh below some changed entity with an outline keeps its outline |
| Outline.PropagatedLastWins | src/lib.rs:214-220 | a covered mesh ends with the outline of the last changed entity that covers it, as that entity held it when the system ran |
| Outline.PropagatedTouchesOnlyMeshDescendants | src/lib.rs:214-220 | only meshes below a changed entity with an outline can change |
| Outline.PropagateOneIsSceneReady | src/lib.rs:173-222 | propagating one changed entity does what the scene-ready observer does for it |
| Outline.ExtractedOutlines.ExtractForBatch | src/lib.rs:194-202 | the map is rebuilt from this frame's query alone |
| Outline.MapOfQueryKeys | src/lib.rs:198-201 | the rebuilt map's keys are exactly the queried entities |
| Outline.MapOfQueryLastWins | src/lib.rs:198-201 | each queried entity maps to the outline of its last (only) query row |
| Outline.BatchMirrorsQuery | src/lib.rs:194-202 | when the query lists each extracted entity once, the rebuilt map equals the extraction exactly, with no stale keys |
| Render.OutlineBindGroups.Prepare | src/render.rs:48-86 | the groups are rebuilt from scratch from `ExtractedOutlines` alone, so rebuilding twice gives the same map |
| Render.PreparedGroupsCarryOutlines | src/render.rs:54-85 | the group keys are exactly the extracted keys; each group is binding 0 over a uniform that carries the outline unchanged, with instance index 0 |
| Render.UniformFor | src/render.rs:58-66 | the uniform has instance index 0, and the outline can be read back from it unchanged |
| Render.UniformsAreInstanceZero | src/render.rs:58-66 | a uniform is built from some outline iff its instance index is 0, and then from its read-back outline |
| Render.SetOutlineBindGroup | src/render.rs:26-42 | the command never fails; it returns `Success` iff the mesh's main entity has a group, binding that group at index `I`; otherwise it returns `Skip` and the pass is unchanged |
| Render.DrawOutcome | src/render.rs:35-42 | after preparation a mesh is drawn with exactly its extracted outline's uniform, and skipped iff it has none |
| Linear.Transpose | src/view.rs:29 | transposition swaps row and column of every entry |
| View.Transpose3x3RoundTrip | src/view.rs:28-37 | unpacking recovers the transposed matrix, and transposing back recovers the linear part |
| View.Unpack3x3RoundTrip | src/view.rs:28-37 | every packing is the packing of the matrix it unpacks to |
| View.Transpose3x3 | src/view.rs:28-37 | the nine packed values are the matrix's entries in row-major order, each exactly once |
| View.ViewKeyInjective | src/view.rs:55 | distinct cameras give distinct view keys |
| View.LiveViewsExactly | src/view.rs:39-62 | a view key is live iff some active camera with a logical viewport size has that main entity |
| View.NewViewUniformsExactly | src/view.rs:44-53 | a render entity gets a uniform iff its camera is active and has a viewport size, and the uniform is that camera's own |
| View.FreshViewKey | src/view.rs:55-61 | no earlier camera in the query produced a live camera's key |
| View.SkippedCameraGetsNothing | src/view.rs:40-44 | an inactive camera, or one without a viewport size, adds no view key and no uniform |
| View.OutlineViews.ExtractOutlineViewUniforms | src/view.rs:20-65 | the live set is exactly this frame's live views; the phase map keeps exactly those views, each prepared for the new frame from its previous phase; uniforms are inserted for the live cameras' render entities |

## Left out

- The jump-flood propagation, its distance and tie-break rules, and the compose blending: these are shader code, with `JumpFloodPass`, `FloodTextures` and the mask phase defined in files that are not part of this model. A flood round is an abstract command, and a texture's content is the history of passes over it.
- MaskNode.FloodTextures.Flip: it is taken to swap `input` and `output`, and the accessors `input()` and `output()` (src/mask_node.rs:178-179) are taken to return those two fields, which the clears, the mask target and compose also read (src/mask_node.rs:84-103, 198); `flip()` and the accessors are not part of this model. If `flip()` toggled a flag that only the accessors read, compose would sample the wrong texture after an odd number of rounds, so MaskNode.ComposeReadsLatest rests on both assumptions.
- MaskNode.Run: `world.resource::<PipelineCache>()` (src/mask_node.rs:151) panics when that resource is missing; the model takes it to exist, so "`run` always returns `Ok`" holds under that assumption.
- `view_target.post_process_write()` (src/mask_node.rs:159) is modelled only as the `PostProcessSource` binding; the swap of the view's main textures is Bevy's.
- MaskNode.Run: the texture size check compares one size per flood-texture set; `FloodTextures` holds one size for both textures.
- `scale_outline_to_screen_size` (src/mod.rs:256-307): floating-point numerics over the camera projection and the window size.
- View.OutlineViews.ExtractOutlineViewUniforms: `clip_from_world`, `aspect` and `scale` are float formulas over the projection, an inverse matrix and the viewport size; the uniform keeps the viewport size instead.
- Outline.NewOutline: the random id is a parameter constrained to `[0, 1)`; the random number generator is not modelled.
- f32 rounding: finite values are exact reals. For the round count this loses nothing: doubling and `ceil` are exact on every f32 (an overflow of `w * 2.0` to infinity saturates the cast just as the exact value does), so FloodSchedule.FloodPasses is exact for every f32 width. Rounding matters only in the float formulas listed above, which the model leaves out.
- Linear.ToTranspose and the `Affine3::from(&transform.affine())` conversion are Bevy/glam behaviour taken as the row layout they document.
- `ViewBinnedRenderPhases::prepare_for_new_frame` is a function parameter, because its effect on a phase is Bevy's.
- ECS scheduling, system ordering and change detection: the changed entities and the query results are given as sequences in iteration order.
- `iter_descendants` order: breadth-first in Bevy, ascending here; every descendant receives the same outline, so the result does not depend on it.
- GPU resources (buffers, bind-group layouts, pipelines, samplers) are values, not device objects; buffer contents and usage flags are not modelled.
- `src/mask_pipeline.rs`, `src/queue.rs`, `src/compose.rs`, `src/uniforms.rs` and `examples/intersecting.rs`: pipeline specialisation, phase queuing, compose pipeline setup, derive-generated GPU layouts and a demo scene; none of them holds logic beyond Bevy plumbing.
