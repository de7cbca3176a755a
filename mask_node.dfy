/**
 * The outline render-graph node (src/mask_node.rs, `OutlineMaskNode::run`):
 * per view and frame it clears the outline textures, runs the mask pass into
 * one of two ping-pong textures, runs the jump-flood rounds back and forth
 * between the two, and composes the flooded result over the scene.
 *
 * GPU work is recorded as an abstract command log. What a pass computes per
 * pixel lives in shaders and is not modelled: a texture's content is tracked
 * only as the history of passes that produced it (`Image`).
 */
module MaskNode {

  import opened Wrappers
  import opened Float32
  import opened FloodSchedule
  import View

  /** The two physical textures the flood ping-pongs between. */
  datatype Slot = SlotA | SlotB

  function Other(s: Slot): (o: Slot)
    ensures o != s
  {
    if s == SlotA then SlotB else SlotA
  }

  /** The textures the node clears, writes or samples. */
  datatype Texture = FloodTexture(slot: Slot) | OutlineColorStorage | OutlineDepth | GlobalDepth

  /** One entry of the compose bind group. */
  datatype Binding = PostProcessSource | FloodSampler | TextureView(texture: Texture)

  datatype Rgba = Rgba(r: real, g: real, b: real, a: real)

  /** The mask pass clears its colour target to this "no seed here" value. */
  const SEED_SENTINEL: Rgba := Rgba(-1.0, -1.0, -1.0, 0.0)

  /** The mask pass clears the outline depth to this value. */
  const OUTLINE_DEPTH_CLEAR: real := 0.0

  /** The camera's viewport in physical pixels. */
  datatype Viewport = Viewport(x: nat, y: nat, width: nat, height: nat)

  datatype Command =
    | ClearTexture(texture: Texture)
      /** Render the view's outline phase into `colorTarget`, depth-tested against `depthTarget`. */
    | MaskPass(colorTarget: Texture, colorClear: Rgba, depthTarget: Texture, depthClear: real, viewport: Option<Viewport>)
      /** `JumpFloodPass::execute`: one flood round with step index `size`. */
    | FloodRound(input: Slot, output: Slot, depth: Texture, colors: Texture, size: nat)
      /** The full-screen compose pass: bind group 0 and a draw call. */
    | ComposePass(bindings: seq<Binding>, bindGroupIndex: nat, vertexCount: nat, instanceCount: nat)

  datatype Warning = TextureSizeMismatch | NoOutlinePhases | NoViewPhase | NoComposePipeline

  /** What the node writes to the log. */
  datatype Diagnostic = Warn(warning: Warning) | PhaseRenderError

  datatype NodeRunResult = Ok | Err(message: string)

  datatype Size = Size(width: nat, height: nat)

  /** What `run` finds in the world and in the view's components this frame. */
  datatype ViewFrame = ViewFrame(
    physicalTargetSize: Option<Size>,
    outlinePhases: Option<set<View.RetainedViewEntity>>,  // the views of `ViewBinnedRenderPhases`, if the resource exists
    retainedView: View.RetainedViewEntity,
    jumpFloodPass: bool,                                // `JumpFloodPass::new(world)` is `Some`
    prepassDepth: bool,                                 // the view has a prepass depth texture
    viewport: Option<Viewport>,
    phaseRenderOk: bool,                                // rendering the outline phase returns `Ok`
    composePipeline: bool,                              // the `ComposeOutputPipeline` resource exists
    composePipelineReady: bool,                         // the pipeline cache has compiled it
    floodWidth: F32)                                    // `FloodSettings::width`

  /**
   * `FloodTextures`: which physical texture is `input` and which is `output`.
   * The accessors `input()` and `output()` read these same two fields.
   */
  class FloodTextures {
    var input: Slot
    var output: Slot
    const size: Size

    ghost predicate Valid()
      reads this
    {
      input != output
    }

    constructor (input: Slot, size: Size)
      ensures Valid() && this.input == input && output == Other(input) && this.size == size
    {
      this.input := input;
      output := Other(input);
      this.size := size;
    }

    /** `clone()`: a second handle on the same two textures. */
    constructor Clone(from: FloodTextures)
      requires from.Valid()
      ensures Valid() && input == from.input && output == from.output && size == from.size
    {
      input := from.input;
      output := from.output;
      size := from.size;
    }

    /** `flip()`: the textures trade roles. */
    method Flip()
      requires Valid()
      modifies this
      ensures Valid() && input == old(output) && output == old(input)
    {
      input, output := output, input;
    }
  }

  /** The command encoder: every call appends its command to the log. */
  class RenderContext {
    var commands: seq<Command>

    constructor ()
      ensures commands == []
    {
      commands := [];
    }

    method Clear(texture: Texture)
      modifies this
      ensures commands == old(commands) + [ClearTexture(texture)]
    {
      commands := commands + [ClearTexture(texture)];
    }

    method DrawMask(colorTarget: Texture, colorClear: Rgba, depthTarget: Texture, depthClear: real, viewport: Option<Viewport>)
      modifies this
      ensures commands == old(commands) + [MaskPass(colorTarget, colorClear, depthTarget, depthClear, viewport)]
    {
      commands := commands + [MaskPass(colorTarget, colorClear, depthTarget, depthClear, viewport)];
    }

    /** A texture cannot be sampled and written by the same pass. */
    method JumpFlood(input: Slot, output: Slot, size: nat)
      requires input != output
      modifies this
      ensures commands == old(commands) + [FloodRound(input, output, OutlineDepth, OutlineColorStorage, size)]
    {
      commands := commands + [FloodRound(input, output, OutlineDepth, OutlineColorStorage, size)];
    }

    method Compose(bindings: seq<Binding>)
      modifies this
      ensures commands == old(commands) + [ComposePass(bindings, 0, 3, 1)]
    {
      commands := commands + [ComposePass(bindings, 0, 3, 1)];
    }
  }

  // ---------------------------------------------------------------------------
  // What `run` issues, as functions of the frame

  /** Where `run` stops: the first missing resource in the order it checks them, or the end. */
  datatype Exit =
    | MissingPhases
    | MissingViewPhase
    | MissingJumpFloodPass
    | MissingPrepassDepth
    | MissingComposePipeline
    | ComposePipelineNotReady
    | Completed

  /** The position of each check in `run`, in the order the source makes them. */
  function Stage(exit: Exit): nat
  {
    match exit
    case MissingPhases => 0
    case MissingViewPhase => 1
    case MissingJumpFloodPass => 2
    case MissingPrepassDepth => 3
    case MissingComposePipeline => 4
    case ComposePipelineNotReady => 5
    case Completed => 6
  }

  /** The thing the check at `exit` looks for is there (the end is always reached). */
  predicate Available(frame: ViewFrame, exit: Exit)
  {
    match exit
    case MissingPhases => frame.outlinePhases.Some?
    case MissingViewPhase => frame.outlinePhases.Some? && frame.retainedView in frame.outlinePhases.value
    case MissingJumpFloodPass => frame.jumpFloodPass
    case MissingPrepassDepth => frame.prepassDepth
    case MissingComposePipeline => frame.composePipeline
    case ComposePipelineNotReady => frame.composePipelineReady
    case Completed => true
  }

  /**
   * `run` stops at the first check whose resource is missing: every earlier
   * check passed, and the one it stops at failed.
   */
  function ExitOf(frame: ViewFrame): (exit: Exit)
    ensures exit.Completed? || !Available(frame, exit)
    ensures Stage(exit) > 0 ==> Available(frame, MissingPhases)
    ensures Stage(exit) > 1 ==> Available(frame, MissingViewPhase)
    ensures Stage(exit) > 2 ==> Available(frame, MissingJumpFloodPass)
    ensures Stage(exit) > 3 ==> Available(frame, MissingPrepassDepth)
    ensures Stage(exit) > 4 ==> Available(frame, MissingComposePipeline)
    ensures Stage(exit) > 5 ==> Available(frame, ComposePipelineNotReady)
  {
    if frame.outlinePhases.None? then MissingPhases
    else if frame.retainedView !in frame.outlinePhases.value then MissingViewPhase
    else if !frame.jumpFloodPass then MissingJumpFloodPass
    else if !frame.prepassDepth then MissingPrepassDepth
    else if !frame.composePipeline then MissingComposePipeline
    else if !frame.composePipelineReady then ComposePipelineNotReady
    else Completed
  }

  /** The mask pass runs once every resource it needs is there. */
  predicate ReachesMask(exit: Exit)
  {
    exit.MissingComposePipeline? || exit.ComposePipelineNotReady? || exit.Completed?
  }

  /** The four clears, then the mask pass into the `output` texture. */
  function MaskCommands(output: Slot, viewport: Option<Viewport>): seq<Command>
  {
    [ClearTexture(FloodTexture(Other(output))),
     ClearTexture(FloodTexture(output)),
     ClearTexture(OutlineColorStorage),
     ClearTexture(OutlineDepth),
     MaskPass(FloodTexture(output), SEED_SENTINEL, OutlineDepth, OUTLINE_DEPTH_CLEAR, viewport)]
  }

  /** Flood rounds, each reading the texture the previous step wrote (`last` first). */
  function FloodRounds(last: Slot, sizes: seq<nat>): seq<Command>
    decreases |sizes|
  {
    if sizes == [] then []
    else [FloodRound(last, Other(last), OutlineDepth, OutlineColorStorage, sizes[0])] + FloodRounds(Other(last), sizes[1..])
  }

  /** The `output` texture after `flips` flips. */
  function SlotAfter(output: Slot, flips: nat): Slot
  {
    if flips % 2 == 0 then output else Other(output)
  }

  /** The compose bind group: scene, sampler, outline colours, flood result, scene depth, outline depth. */
  function ComposeBindings(flooded: Slot): seq<Binding>
  {
    [PostProcessSource, FloodSampler, TextureView(OutlineColorStorage),
     TextureView(FloodTexture(flooded)), TextureView(GlobalDepth), TextureView(OutlineDepth)]
  }

  /** The commands `run` records for `frame`, the textures' `output` being `output`. */
  function NodeCommands(frame: ViewFrame, output: Slot): seq<Command>
  {
    var exit := ExitOf(frame);
    if !ReachesMask(exit) then []
    else if !exit.Completed? then MaskCommands(output, frame.viewport)
    else CompletedCommands(output, frame.viewport, FloodPasses(frame.floodWidth))
  }

  /** The commands of a run that reaches the compose pass, with `passes` flood rounds. */
  function CompletedCommands(output: Slot, viewport: Option<Viewport>, passes: nat): seq<Command>
  {
    MaskCommands(output, viewport) + FloodAndComposeCommands(output, passes)
  }

  /** The flood rounds, starting from the mask target `output`, then the compose pass. */
  function FloodAndComposeCommands(output: Slot, passes: nat): seq<Command>
  {
    FloodRounds(output, RoundSizes(passes)) + [ComposePass(ComposeBindings(SlotAfter(output, passes)), 0, 3, 1)]
  }

  predicate SizeMismatch(frame: ViewFrame, textureSize: Size)
  {
    frame.physicalTargetSize.Some? && frame.physicalTargetSize.value != textureSize
  }

  /** What `run` logs for `frame`: the size warning, then what the resource checks log. */
  function NodeLog(frame: ViewFrame, textureSize: Size): seq<Diagnostic>
  {
    (if SizeMismatch(frame, textureSize) then [Warn(TextureSizeMismatch)] else []) + ViewLog(frame)
  }

  /** What `run` logs after the size check. */
  function ViewLog(frame: ViewFrame): seq<Diagnostic>
  {
    match ExitOf(frame)
    case MissingPhases => [Warn(NoOutlinePhases)]
    case MissingViewPhase => [Warn(NoViewPhase)]
    case MissingJumpFloodPass => []
    case MissingPrepassDepth => []
    case MissingComposePipeline =>
      (if frame.phaseRenderOk then [] else [PhaseRenderError]) + [Warn(NoComposePipeline)]
    case _ => if frame.phaseRenderOk then [] else [PhaseRenderError]
  }

  // ---------------------------------------------------------------------------
  // The node

  /**
   * `OutlineMaskNode::run`. It never fails: every missing resource it looks
   * up with `get_resource` ends the node with `Ok`. The `PipelineCache`
   * resource, without which `world.resource` would panic, is taken to exist.
   * The view's `FloodTextures` component is only cloned, never changed.
   */
  method Run(frame: ViewFrame, textures: FloodTextures, ctx: RenderContext) returns (r: NodeRunResult, log: seq<Diagnostic>)
    requires textures.Valid()
    modifies ctx
    ensures r == Ok
    ensures ctx.commands == old(ctx.commands) + NodeCommands(frame, textures.output)
    ensures log == NodeLog(frame, textures.size)
  {
    r := Ok;
    log := [];
    if frame.physicalTargetSize.Some? {
      var targetSize := frame.physicalTargetSize.value;
      if textures.size.width != targetSize.width || textures.size.height != targetSize.height {
        log := log + [Warn(TextureSizeMismatch)];
      }
    }
    ghost var sizeLog := log;

    if frame.outlinePhases.None? {
      log := log + [Warn(NoOutlinePhases)];
      return;
    }
    if frame.retainedView !in frame.outlinePhases.value {
      log := log + [Warn(NoViewPhase)];
      return;
    }
    if !frame.jumpFloodPass {
      return;
    }
    var flood := new FloodTextures.Clone(textures);
    if !frame.prepassDepth {
      return;
    }

    ghost var before := ctx.commands;
    ClearAndMask(flood, frame.viewport, ctx);
    if !frame.phaseRenderOk {
      log := log + [PhaseRenderError];
    }
    ConcatAssociative(sizeLog, if frame.phaseRenderOk then [] else [PhaseRenderError], [Warn(NoComposePipeline)]);

    if !frame.composePipeline {
      log := log + [Warn(NoComposePipeline)];
      return;
    }
    if !frame.composePipelineReady {
      return;
    }

    var passes := FloodPasses(frame.floodWidth);
    FloodAndCompose(flood, passes, ctx);
    ConcatAssociative(before, MaskCommands(textures.output, frame.viewport), FloodAndComposeCommands(textures.output, passes));
  }

  lemma ConcatAssociative<T>(a: seq<T>, b: seq<T>, c: seq<T>)
    ensures (a + b) + c == a + (b + c)
  {
  }

  /**
   * The clears of both flood textures, the outline colours and the outline
   * depth, then the mask pass that seeds the `output` texture.
   */
  method ClearAndMask(flood: FloodTextures, viewport: Option<Viewport>, ctx: RenderContext)
    requires flood.Valid()
    modifies ctx
    ensures ctx.commands == old(ctx.commands) + MaskCommands(flood.output, viewport)
  {
    ctx.Clear(FloodTexture(flood.input));
    ctx.Clear(FloodTexture(flood.output));
    ctx.Clear(OutlineColorStorage);
    ctx.Clear(OutlineDepth);
    ctx.DrawMask(FloodTexture(flood.output), SEED_SENTINEL, OutlineDepth, OUTLINE_DEPTH_CLEAR, viewport);
  }

  /**
   * The tail of `run` once every resource is there: `passes` flood rounds
   * with step indices `passes - 1` down to 0, flipping the textures before
   * each, then the compose pass over the last `output`.
   */
  method FloodAndCompose(flood: FloodTextures, passes: nat, ctx: RenderContext)
    requires flood.Valid()
    modifies flood, ctx
    ensures ctx.commands == old(ctx.commands) + FloodAndComposeCommands(old(flood.output), passes)
  {
    ghost var start := flood.output;
    ghost var prefix := ctx.commands;
    ghost var sizes := RoundSizes(passes);
    RoundSizesSchedule(passes);
    var size: nat := passes;
    while size > 0
      invariant size <= passes && |sizes| == passes
      invariant flood.Valid() && flood.output == SlotAfter(start, passes - size)
      invariant ctx.commands == prefix + FloodRounds(start, sizes[..passes - size])
    {
      size := size - 1;
      flood.Flip();
      FloodRoundsAppend(start, sizes[..passes - size - 1], size);
      assert sizes[..passes - size] == sizes[..passes - size - 1] + [size];
      ctx.JumpFlood(flood.input, flood.output, size);
    }
    assert sizes[..passes] == sizes;
    ctx.Compose([PostProcessSource, FloodSampler, TextureView(OutlineColorStorage),
                 TextureView(FloodTexture(flood.output)), TextureView(GlobalDepth), TextureView(OutlineDepth)]);
  }

  // ---------------------------------------------------------------------------
  // Properties of the command log

  lemma {:induction false} FloodRoundsAppend(last: Slot, sizes: seq<nat>, size: nat)
    ensures FloodRounds(last, sizes + [size]) ==
      FloodRounds(last, sizes) + [FloodRound(SlotAfter(last, |sizes|), SlotAfter(last, |sizes| + 1), OutlineDepth, OutlineColorStorage, size)]
    decreases |sizes|
  {
    if sizes != [] {
      assert (sizes + [size])[1..] == sizes[1..] + [size];
      FloodRoundsAppend(Other(last), sizes[1..], size);
    }
  }

  /**
   * Round `i` reads the texture round `i - 1` wrote (the mask target for the
   * first round), writes the other one, and uses the `i`-th step index.
   */
  lemma SlotAfterOther(last: Slot, flips: nat)
    requires flips >= 1
    ensures SlotAfter(Other(last), flips - 1) == SlotAfter(last, flips)
  {
    if flips % 2 == 0 {
      assert (flips - 1) % 2 == 1;
      assert Other(Other(last)) == last;
    } else {
      assert (flips - 1) % 2 == 0;
    }
  }

  lemma {:induction false} FloodRoundsPingPong(last: Slot, sizes: seq<nat>)
    ensures |FloodRounds(last, sizes)| == |sizes|
    ensures forall i | 0 <= i < |sizes| ::
      FloodRounds(last, sizes)[i] == FloodRound(SlotAfter(last, i), SlotAfter(last, i + 1), OutlineDepth, OutlineColorStorage, sizes[i])
    decreases |sizes|
  {
    if sizes != [] {
      FloodRoundsPingPong(Other(last), sizes[1..]);
      forall i | 1 <= i < |sizes|
        ensures FloodRounds(last, sizes)[i] == FloodRound(SlotAfter(last, i), SlotAfter(last, i + 1), OutlineDepth, OutlineColorStorage, sizes[i])
      {
        assert FloodRounds(last, sizes)[i] == FloodRounds(Other(last), sizes[1..])[i - 1];
        SlotAfterOther(last, i);
        SlotAfterOther(last, i + 1);
      }
    }
  }

  /** A texture's content, as the sequence of passes that produced it. */
  datatype Image = Undefined | Cleared | Seeded | Flooded(from: Image, size: nat)

  /** The content of the two flood textures. */
  datatype FloodState = FloodState(a: Image, b: Image)
  {
    function Get(s: Slot): Image
    {
      if s == SlotA then a else b
    }

    function Set(s: Slot, image: Image): (st: FloodState)
      ensures st.Get(s) == image && st.Get(Other(s)) == Get(Other(s))
    {
      if s == SlotA then FloodState(image, b) else FloodState(a, image)
    }
  }

  /** What executing one command does to the flood textures. */
  function Step(c: Command, st: FloodState): FloodState
  {
    match c
    case ClearTexture(FloodTexture(s)) => st.Set(s, Cleared)
    case MaskPass(FloodTexture(s), _, _, _, _) => st.Set(s, Seeded)
    case FloodRound(input, output, _, _, size) => st.Set(output, Flooded(st.Get(input), size))
    case _ => st
  }

  /** Executing a log in order. */
  function Replay(commands: seq<Command>, st: FloodState): FloodState
  {
    if commands == [] then st else Replay(commands[1..], Step(commands[0], st))
  }

  /** `image` after flood rounds with the step indices `sizes`, in order. */
  function Flood(image: Image, sizes: seq<nat>): Image
    decreases |sizes|
  {
    if sizes == [] then image else Flood(Flooded(image, sizes[0]), sizes[1..])
  }

  lemma {:induction false} ReplayConcat(first: seq<Command>, second: seq<Command>, st: FloodState)
    ensures Replay(first + second, st) == Replay(second, Replay(first, st))
  {
    if first == [] {
      assert first + second == second;
    } else {
      assert (first + second)[1..] == first[1..] + second;
      ReplayConcat(first[1..], second, Step(first[0], st));
    }
  }

  /**
   * After the rounds, the texture the last round wrote (the starting one when
   * there are no rounds) holds the starting content flooded with every step
   * index, in order.
   */
  lemma {:induction false} FloodRoundsCarryResult(last: Slot, sizes: seq<nat>, st: FloodState)
    ensures Replay(FloodRounds(last, sizes), st).Get(SlotAfter(last, |sizes|)) == Flood(st.Get(last), sizes)
    decreases |sizes|
  {
    if sizes != [] {
      var st1 := Step(FloodRounds(last, sizes)[0], st);
      assert st1.Get(Other(last)) == Flooded(st.Get(last), sizes[0]);
      FloodRoundsCarryResult(Other(last), sizes[1..], st1);
      SlotAfterOther(last, |sizes|);
    }
  }

  /** The colour target of the last mask pass or flood round in a log. */
  function LastWritten(commands: seq<Command>): Option<Texture>
  {
    if commands == [] then None
    else
      match commands[|commands| - 1]
      case MaskPass(target, _, _, _, _) => Some(target)
      case FloodRound(_, output, _, _, _) => Some(FloodTexture(output))
      case _ => LastWritten(commands[..|commands| - 1])
  }

  lemma {:induction false} LastWrittenOfRounds(prefix: seq<Command>, last: Slot, sizes: seq<nat>)
    requires LastWritten(prefix) == Some(FloodTexture(last))
    ensures LastWritten(prefix + FloodRounds(last, sizes)) == Some(FloodTexture(SlotAfter(last, |sizes|)))
    decreases |sizes|
  {
    if sizes == [] {
      assert prefix + FloodRounds(last, sizes) == prefix;
    } else {
      var n := |sizes| - 1;
      FloodRoundsAppend(last, sizes[..n], sizes[n]);
      assert sizes == sizes[..n] + [sizes[n]];
      var rounds := FloodRounds(last, sizes[..n]);
      LastWrittenOfRounds(prefix, last, sizes[..n]);
      var all := prefix + FloodRounds(last, sizes);
      assert all == (prefix + rounds) + [all[|all| - 1]];
      assert all[..|all| - 1] == prefix + rounds;
    }
  }

  /**
   * The compose pass samples the texture written last, and that texture
   * holds the mask output flooded with every scheduled round: for any round
   * count, including none. The bind group has the six entries in the order
   * the compose shader expects, and the pass draws one full-screen triangle.
   */
  lemma ComposeReadsLatest(output: Slot, viewport: Option<Viewport>, passes: nat, st: FloodState)
    ensures var commands := CompletedCommands(output, viewport, passes);
      && |commands| == 5 + passes + 1
      && commands[|commands| - 1] == ComposePass(ComposeBindings(SlotAfter(output, passes)), 0, 3, 1)
      && LastWritten(commands[..|commands| - 1]) == Some(FloodTexture(SlotAfter(output, passes)))
      && Replay(commands[..|commands| - 1], st).Get(SlotAfter(output, passes)) == Flood(Seeded, RoundSizes(passes))
  {
    var mask := MaskCommands(output, viewport);
    var rounds := FloodRounds(output, RoundSizes(passes));
    var commands := CompletedCommands(output, viewport, passes);
    RoundSizesSchedule(passes);
    FloodRoundsPingPong(output, RoundSizes(passes));
    assert commands[..|commands| - 1] == mask + rounds;
    assert LastWritten(mask) == Some(FloodTexture(output));
    LastWrittenOfRounds(mask, output, RoundSizes(passes));
    ReplayConcat(mask, rounds, st);
    ReplayConcat(mask[..4], [mask[4]], st);
    assert mask == mask[..4] + [mask[4]];
    var afterMask := Replay(mask, st);
    assert afterMask == Step(mask[4], Replay(mask[..4], st));
    FloodRoundsCarryResult(output, RoundSizes(passes), afterMask);
  }

  /**
   * Round `i` reads the texture the step before it wrote (the mask target
   * for the first round) and writes the other one, so no round samples its
   * own target; the rounds use the step indices `passes - 1` down to 0.
   */
  lemma RoundsPingPong(output: Slot, viewport: Option<Viewport>, passes: nat)
    ensures var commands := CompletedCommands(output, viewport, passes);
      && |commands| == 5 + passes + 1
      && forall i | 5 <= i < 5 + passes ::
        commands[i] == FloodRound(SlotAfter(output, i - 5), SlotAfter(output, i - 4), OutlineDepth, OutlineColorStorage, passes - 1 - (i - 5))
  {
    var rounds := FloodRounds(output, RoundSizes(passes));
    RoundSizesSchedule(passes);
    FloodRoundsPingPong(output, RoundSizes(passes));
    var commands := CompletedCommands(output, viewport, passes);
    assert commands == MaskCommands(output, viewport) + rounds + [commands[|commands| - 1]];
    forall i | 5 <= i < 5 + passes
      ensures commands[i] == rounds[i - 5]
    {
    }
  }

  /**
   * A zero, negative or NaN width runs no flood round: compose samples the
   * texture the mask pass wrote.
   */
  lemma NoWidthComposesMask(frame: ViewFrame, output: Slot)
    requires ExitOf(frame).Completed? && !IsPositive(frame.floodWidth)
    ensures NodeCommands(frame, output) ==
      MaskCommands(output, frame.viewport) + [ComposePass(ComposeBindings(output), 0, 3, 1)]
  {
  }

  /**
   * A missing phases resource, view phase, jump-flood pass or prepass depth
   * ends the node before any clear or pass.
   */
  lemma EarlyExitIssuesNothing(frame: ViewFrame, output: Slot)
    requires frame.outlinePhases.None? || frame.retainedView !in frame.outlinePhases.value
      || !frame.jumpFloodPass || !frame.prepassDepth
    ensures NodeCommands(frame, output) == []
  {
  }

  /**
   * Without a compose pipeline, or before it is compiled, the node stops
   * after the mask pass: the textures are cleared and seeded, nothing is
   * flooded or composed.
   */
  lemma MissingComposeStopsAfterMask(frame: ViewFrame, output: Slot)
    requires !frame.outlinePhases.None? && frame.retainedView in frame.outlinePhases.value
      && frame.jumpFloodPass && frame.prepassDepth
    requires !frame.composePipeline || !frame.composePipelineReady
    ensures NodeCommands(frame, output) == MaskCommands(output, frame.viewport)
    ensures forall c | c in NodeCommands(frame, output) :: !c.FloodRound? && !c.ComposePass?
  {
  }

  /**
   * Once the mask pass runs, the four outline textures are cleared first; the
   * mask pass clears its colour target to the seed sentinel and the outline
   * depth to 0.
   */
  lemma MaskPassClearsFirst(frame: ViewFrame, output: Slot)
    requires ReachesMask(ExitOf(frame))
    ensures var commands := NodeCommands(frame, output);
      && |commands| >= 5
      && (set i | 0 <= i < 4 :: commands[i]) ==
         {ClearTexture(FloodTexture(SlotA)), ClearTexture(FloodTexture(SlotB)),
          ClearTexture(OutlineColorStorage), ClearTexture(OutlineDepth)}
      && commands[4] == MaskPass(FloodTexture(output), Rgba(-1.0, -1.0, -1.0, 0.0), OutlineDepth, 0.0, frame.viewport)
  {
    var commands := NodeCommands(frame, output);
    var mask := MaskCommands(output, frame.viewport);
    assert |commands| >= 5 && commands[..5] == mask by {
      if ExitOf(frame).Completed? {
        assert commands == mask + FloodAndComposeCommands(output, FloodPasses(frame.floodWidth));
      } else {
        assert commands == mask;
      }
    }
    assert (set i | 0 <= i < 4 :: commands[i]) == {mask[0], mask[1], mask[2], mask[3]};
  }

  /** A texture-size mismatch is logged and nothing else changes. */
  lemma SizeMismatchOnlyWarns(frame: ViewFrame, textureSize: Size, output: Slot)
    requires SizeMismatch(frame, textureSize)
    ensures NodeLog(frame, textureSize)[0] == Warn(TextureSizeMismatch)
    ensures NodeCommands(frame, output) == NodeCommands(frame.(physicalTargetSize := None), output)
  {
  }
}
