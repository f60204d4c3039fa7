/**
  The per-frame render schedule of RainSnow.cpp: the two passes of shadow
  mapping (depth from the light into an off-screen target, then the lit pass
  from the camera) and RenderObjects, written as pure functions that return the
  log of GL commands they issue.  Matrices are opaque; a small interpreter of
  the GL state those commands touch (Exec, Draws) is the reference against
  which the schedule's properties are stated: what state each draw call sees.
*/
module Pipeline {
  import opened Wrappers

  const SHADOW_WIDTH: int := 1024
  const SHADOW_HEIGHT: int := 1024
  /** Texture unit reserved for the shadow map in the lit pass. */
  const SHADOW_UNIT: nat := 2
  /** UV repetitions of the ground plane's texture. */
  const PLANE_REPEAT: real := 80.0

  /** The render_passes enum. */
  datatype Pass = ShadowMap | Render

  datatype Object = Plane | Lamp | Bench | Tree

  datatype Framebuffer = DefaultFramebuffer | DepthMapFbo
  datatype Program = ShadowShader | IlluminationShader
  datatype ClearMask = DepthBit | ColorAndDepthBits
  /** The two sampler uniforms: "tex" (diffuse texture) and "shadowMap". */
  datatype Sampler = TexSampler | ShadowMapSampler

  /** The per-draw uniforms RenderObjects writes: the samplers, "repeat" and the model (with normal) matrix. */
  datatype UniformName = SamplerUniform(sampler: Sampler) | RepeatUniform | ModelUniform

  /**
    The uniforms each program declares: the lit program all of them; the shadow
    program, which only transforms vertices into light space, only the model
    matrix.  glGetUniformLocation gives -1 for a name the program lacks, and a
    glUniform call on location -1 has no effect.
  */
  predicate Declares(p: Program, u: UniformName) {
    p == IlluminationShader || u == ModelUniform
  }

  datatype Vec3 = Vec3(x: real, y: real, z: real)

  /** translate, then (optionally) rotate about Y by an angle in degrees, then scale. */
  datatype Transform = Transform(translate: Vec3, rotateY: Option<real>, scale: Vec3)

  /** The GL calls of the render loop, with opaque matrix uploads. */
  datatype Command =
    | UseProgram(program: Program)
    | SetLightSpaceMatrix                 // lightSpaceMatrix uniform
    | SetLightingUniforms                 // projection, view, lightSpace, lightVector, Kd, alpha, F0
    | Viewport(width: int, height: int)
    | BindFramebuffer(framebuffer: Framebuffer)
    | Clear(mask: ClearMask)
    | PolygonMode(wireframe: bool)        // GL_LINE when true, GL_FILL otherwise
    | SelectSubroutine(name: string)
    | ActiveTexture(unit: nat)
    | BindTexture(texture: int)
    | SetSampler(sampler: Sampler, unit: nat)
    | SetRepeat(repeat: real)
    | SetModel(transform: Transform)      // modelMatrix and normalMatrix uniforms
    | Draw(obj: Object)

  // ---------------------------------------------------------------------------
  // The reference: the GL state the commands change

  datatype GlState = GlState(
    program: Option<Program>,
    framebuffer: Framebuffer,
    viewport: (int, int),
    cleared: Option<ClearMask>,           // last clear since the framebuffer was bound
    wireframe: bool,
    subroutine: Option<string>,           // subroutine uniform, reset whenever a program is installed
    activeUnit: nat,
    bound: map<nat, int>,                 // texture bound to each unit
    samplers: map<(Program, Sampler), nat>,  // unit each program's sampler uniform names
    repeat: map<Program, real>,           // each program's "repeat" uniform
    model: map<Program, Transform>)       // each program's model matrix

  function Step(s: GlState, c: Command): GlState {
    match c
    case UseProgram(p) => s.(program := Some(p), subroutine := None)
    case SetLightSpaceMatrix => s
    case SetLightingUniforms => s
    case Viewport(w, h) => s.(viewport := (w, h))
    case BindFramebuffer(fb) => s.(framebuffer := fb, cleared := None)
    case Clear(mask) => s.(cleared := Some(mask))
    case PolygonMode(w) => s.(wireframe := w)
    case SelectSubroutine(name) => s.(subroutine := Some(name))
    case ActiveTexture(u) => s.(activeUnit := u)
    case BindTexture(t) => s.(bound := s.bound[s.activeUnit := t])
    case SetSampler(smp, u) =>
      if s.program.Some? && Declares(s.program.value, SamplerUniform(smp))
      then s.(samplers := s.samplers[(s.program.value, smp) := u]) else s
    case SetRepeat(r) =>
      if s.program.Some? && Declares(s.program.value, RepeatUniform)
      then s.(repeat := s.repeat[s.program.value := r]) else s
    case SetModel(t) =>
      if s.program.Some? && Declares(s.program.value, ModelUniform)
      then s.(model := s.model[s.program.value := t]) else s
    case Draw(_) => s
  }

  /** The state after running a log from position k to its end. */
  function RunFrom(s: GlState, log: seq<Command>, k: nat): GlState
    decreases |log| - k
  {
    if k >= |log| then s else RunFrom(Step(s, log[k]), log, k + 1)
  }

  /** The state after running a log. */
  function Exec(s: GlState, log: seq<Command>): GlState {
    RunFrom(s, log, 0)
  }

  /** A draw call together with the state it draws with. */
  datatype DrawCall = DrawCall(obj: Object, state: GlState)

  /** The draw calls of a log from position k to its end, in order. */
  function DrawsFrom(s: GlState, log: seq<Command>, k: nat): seq<DrawCall>
    decreases |log| - k
  {
    if k >= |log| then []
    else (if log[k].Draw? then [DrawCall(log[k].obj, s)] else []) + DrawsFrom(Step(s, log[k]), log, k + 1)
  }

  /** The draw calls of a log, in order. */
  function Draws(s: GlState, log: seq<Command>): seq<DrawCall> {
    DrawsFrom(s, log, 0)
  }

  // ---------------------------------------------------------------------------
  // The fixed scene, as the lit pass should see it

  const DrawOrder: seq<Object> := [Plane, Lamp, Bench, Tree]

  /** The texture unit of each object. */
  function UnitOf(o: Object): nat {
    match o
    case Plane => 1
    case Lamp => 0
    case Bench => 0
    case Tree => 3
  }

  /** The position in textureID of each object's texture. */
  function TextureOf(o: Object): nat {
    match o
    case Plane => 1
    case Lamp => 0
    case Bench => 0
    case Tree => 2
  }

  function RepeatOf(o: Object, repeat: real): real {
    if o == Plane then PLANE_REPEAT else repeat
  }

  function Uniform(k: real): Vec3 {
    Vec3(k, k, k)
  }

  function TransformOf(o: Object, orientationY: real): Transform {
    match o
    case Plane => Transform(Vec3(0.0, -1.0, 0.0), None, Vec3(10.0, 1.0, 10.0))
    case Lamp => Transform(Vec3(-3.0, -1.0, 3.0), Some(orientationY), Uniform(0.25))
    case Bench => Transform(Vec3(0.0, -1.0, 0.0), Some(orientationY), Uniform(0.01))
    case Tree => Transform(Vec3(5.0, -1.0, 5.0), Some(orientationY), Uniform(1.5))
  }

  /** The texture bound to a unit, if any. */
  function BoundTo(s: GlState, unit: nat): Option<int> {
    if unit in s.bound then Some(s.bound[unit]) else None
  }

  /** The unit program p's sampler uniform names, if it has been set. */
  function StoredSampler(s: GlState, p: Program, smp: Sampler): Option<nat> {
    if (p, smp) in s.samplers then Some(s.samplers[(p, smp)]) else None
  }

  /** The unit the running program samples through `smp`: none unless it declares that sampler. */
  function SamplerUnit(s: GlState, smp: Sampler): Option<nat> {
    if s.program.Some? && Declares(s.program.value, SamplerUniform(smp)) then StoredSampler(s, s.program.value, smp)
    else None
  }

  /** The running program's "repeat", if it declares and has it. */
  function RepeatValue(s: GlState): Option<real> {
    if s.program.Some? && Declares(s.program.value, RepeatUniform) && s.program.value in s.repeat
    then Some(s.repeat[s.program.value]) else None
  }

  /** The running program's model matrix, if it has one. */
  function ModelValue(s: GlState): Option<Transform> {
    if s.program.Some? && s.program.value in s.model then Some(s.model[s.program.value]) else None
  }

  /** The draw samples texture `texture` through "tex", on unit `unit`. */
  predicate SamplesTexture(s: GlState, unit: nat, texture: int) {
    SamplerUnit(s, TexSampler) == Some(unit) && BoundTo(s, unit) == Some(texture)
  }

  /** The draw samples the depth map through "shadowMap", on the reserved unit. */
  predicate SamplesShadowMap(s: GlState, depthMap: int) {
    SamplerUnit(s, ShadowMapSampler) == Some(SHADOW_UNIT) && BoundTo(s, SHADOW_UNIT) == Some(depthMap)
  }

  /**
    What a draw of `o` must see: under any program its transform; under the lit
    program also its texture on its unit and its repeat factor.
  */
  predicate ObjectSetUp(d: DrawCall, textureID: seq<int>, repeat: real, orientationY: real)
    requires |textureID| >= 3
  {
    (d.state.program.Some? ==> ModelValue(d.state) == Some(TransformOf(d.obj, orientationY)))
    && (d.state.program == Some(IlluminationShader) ==>
          SamplesTexture(d.state, UnitOf(d.obj), textureID[TextureOf(d.obj)])
          && RepeatValue(d.state) == Some(RepeatOf(d.obj, repeat)))
  }

  /** The parts of the state RenderObjects does not touch. */
  predicate SameTarget(a: GlState, b: GlState) {
    a.program == b.program && a.framebuffer == b.framebuffer && a.viewport == b.viewport
    && a.cleared == b.cleared && a.wireframe == b.wireframe && a.subroutine == b.subroutine
  }

  // ---------------------------------------------------------------------------
  // RenderObjects

  /** One object: activate its unit, bind its texture, set "tex" and "repeat", upload its matrices, draw. */
  function ObjectBlock(o: Object, unit: nat, texture: int, repeat: real, t: Transform): seq<Command> {
    [ActiveTexture(unit), BindTexture(texture), SetSampler(TexSampler, unit), SetRepeat(repeat), SetModel(t), Draw(o)]
  }

  /** In the RENDER pass only: the depth map on unit 2, and "shadowMap" set to 2. */
  function ShadowMapBinding(pass: Pass, depthMap: int): seq<Command> {
    if pass == Render then [ActiveTexture(SHADOW_UNIT), BindTexture(depthMap), SetSampler(ShadowMapSampler, SHADOW_UNIT)]
    else []
  }

  /** The block of one object, with its unit, texture, repeat factor and transform from the scene table. */
  function ObjectCommands(o: Object, textureID: seq<int>, repeat: real, orientationY: real): seq<Command>
    requires |textureID| >= 3
  {
    ObjectBlock(o, UnitOf(o), textureID[TextureOf(o)], RepeatOf(o, repeat), TransformOf(o, orientationY))
  }

  /** The blocks of a list of objects, one after the other. */
  function Blocks(objs: seq<Object>, textureID: seq<int>, repeat: real, orientationY: real): (r: seq<Command>)
    requires |textureID| >= 3
    ensures |r| == 6 * |objs|
    decreases |objs|
  {
    if objs == [] then []
    else ObjectCommands(objs[0], textureID, repeat, orientationY) + Blocks(objs[1..], textureID, repeat, orientationY)
  }

  /** The commands of RenderObjects for one pass: the shadow-map binding, then the objects of DrawOrder. */
  function RenderObjects(pass: Pass, depthMap: int, textureID: seq<int>, repeat: real, orientationY: real): (r: seq<Command>)
    requires |textureID| >= 3
    ensures |r| == 24 + (if pass == Render then 3 else 0)
  {
    ShadowMapBinding(pass, depthMap) + Blocks(DrawOrder, textureID, repeat, orientationY)
  }

  // ---------------------------------------------------------------------------
  // The two passes of one frame

  /** The set-up of step 1: shadow program, light matrix, depth-map viewport, depth-map FBO, depth-only clear. */
  function DepthPassSetUp(): seq<Command> {
    [UseProgram(ShadowShader), SetLightSpaceMatrix, Viewport(SHADOW_WIDTH, SHADOW_HEIGHT),
     BindFramebuffer(DepthMapFbo), Clear(DepthBit)]
  }

  /** Step 1: the scene from the light, into the depth-map FBO. */
  function DepthPass(depthMap: int, textureID: seq<int>, repeat: real, orientationY: real): seq<Command>
    requires |textureID| >= 3
  {
    DepthPassSetUp() + RenderObjects(ShadowMap, depthMap, textureID, repeat, orientationY)
  }

  /** The set-up of step 2: default framebuffer, full clear, polygon mode, window viewport, lit program, variant. */
  function LitPassSetUp(variant: string, wireframe: bool, width: int, height: int): seq<Command> {
    [BindFramebuffer(DefaultFramebuffer), Clear(ColorAndDepthBits), PolygonMode(wireframe),
     Viewport(width, height), UseProgram(IlluminationShader), SelectSubroutine(variant), SetLightingUniforms]
  }

  /** Step 2: the scene from the camera, into the default framebuffer, with the selected variant. */
  function LitPass(variant: string, wireframe: bool, width: int, height: int,
                   depthMap: int, textureID: seq<int>, repeat: real, orientationY: real): seq<Command>
    requires |textureID| >= 3
  {
    LitPassSetUp(variant, wireframe, width, height) + RenderObjects(Render, depthMap, textureID, repeat, orientationY)
  }

  /** One iteration of the render loop: the depth pass, then the lit pass with shaders[current]. */
  function FrameLog(shaders: seq<string>, current: nat, wireframe: bool, width: int, height: int,
                    depthMap: int, textureID: seq<int>, repeat: real, orientationY: real): seq<Command>
    requires current < |shaders| && |textureID| >= 3
  {
    DepthPass(depthMap, textureID, repeat, orientationY)
    + LitPass(shaders[current], wireframe, width, height, depthMap, textureID, repeat, orientationY)
  }

  // ---------------------------------------------------------------------------
  // Lemmas about the interpreter

  /** Running `a + b` from position |a| + j is running `b` from position j. */
  lemma {:induction false} RunShifted(s: GlState, a: seq<Command>, b: seq<Command>, j: nat)
    requires j <= |b|
    ensures RunFrom(s, a + b, |a| + j) == RunFrom(s, b, j)
    ensures DrawsFrom(s, a + b, |a| + j) == DrawsFrom(s, b, j)
    decreases |b| - j
  {
    if j < |b| {
      assert (a + b)[|a| + j] == b[j];
      RunShifted(Step(s, b[j]), a, b, j + 1);
    }
  }

  /** Running `a + b` from a position inside `a`: the rest of `a`, then all of `b`. */
  lemma {:induction false} RunAppendFrom(s: GlState, a: seq<Command>, b: seq<Command>, k: nat)
    requires k <= |a|
    ensures RunFrom(s, a + b, k) == RunFrom(RunFrom(s, a, k), b, 0)
    ensures DrawsFrom(s, a + b, k) == DrawsFrom(s, a, k) + DrawsFrom(RunFrom(s, a, k), b, 0)
    decreases |a| - k
  {
    if k < |a| {
      assert (a + b)[k] == a[k];
      RunAppendFrom(Step(s, a[k]), a, b, k + 1);
    } else {
      RunShifted(s, a, b, 0);
    }
  }

  /** Running two logs one after the other is running the first, then the second from where it left off. */
  lemma ExecAppend(s: GlState, a: seq<Command>, b: seq<Command>)
    ensures Exec(s, a + b) == Exec(Exec(s, a), b)
    ensures Draws(s, a + b) == Draws(s, a) + Draws(Exec(s, a), b)
  {
    RunAppendFrom(s, a, b, 0);
  }

  /** The state left by one object's block. */
  function AfterBlock(s: GlState, unit: nat, texture: int, repeat: real, t: Transform): GlState {
    WriteUniforms(s.(activeUnit := unit, bound := s.bound[unit := texture]), unit, repeat, t)
  }

  /** "tex", "repeat" and the model written to the running program, each only if the program declares it. */
  function WriteUniforms(s: GlState, unit: nat, repeat: real, t: Transform): GlState {
    if s.program.None? then s
    else
      var p := s.program.value;
      s.(samplers := if Declares(p, SamplerUniform(TexSampler)) then s.samplers[(p, TexSampler) := unit] else s.samplers,
         repeat := if Declares(p, RepeatUniform) then s.repeat[p := repeat] else s.repeat,
         model := if Declares(p, ModelUniform) then s.model[p := t] else s.model)
  }

  /** A log without a draw command draws nothing from any position. */
  lemma {:induction false} DrawFreeFrom(s: GlState, log: seq<Command>, k: nat)
    requires forall i :: 0 <= i < |log| ==> !log[i].Draw?
    ensures DrawsFrom(s, log, k) == []
    decreases |log| - k
  {
    if k < |log| {
      DrawFreeFrom(Step(s, log[k]), log, k + 1);
    }
  }

  /** The state one object's block leaves: its unit active, its texture bound, "tex", "repeat" and the model set. */
  lemma ObjectBlockRuns(s: GlState, o: Object, unit: nat, texture: int, repeat: real, t: Transform)
    ensures Exec(s, ObjectBlock(o, unit, texture, repeat, t)) == AfterBlock(s, unit, texture, repeat, t)
  {
    var b := ObjectBlock(o, unit, texture, repeat, t);
    var s2 := s.(activeUnit := unit, bound := s.bound[unit := texture]);
    assert RunFrom(s, b, 0) == RunFrom(s2, b, 2);
    var s3 := Step(s2, b[2]);
    var s4 := Step(s3, b[3]);
    var s5 := Step(s4, b[4]);
    assert RunFrom(s2, b, 2) == RunFrom(s3, b, 3);
    assert RunFrom(s3, b, 3) == RunFrom(s4, b, 4);
    assert RunFrom(s4, b, 4) == RunFrom(s5, b, 5);
    assert RunFrom(s5, b, 5) == s5;
    BlockUniforms(s2, unit, repeat, t);
  }

  /** The uniform writes of an object block ("tex", "repeat", model) reach the running program's declared uniforms. */
  lemma BlockUniforms(s: GlState, unit: nat, repeat: real, t: Transform)
    ensures Step(Step(Step(s, SetSampler(TexSampler, unit)), SetRepeat(repeat)), SetModel(t))
      == WriteUniforms(s, unit, repeat, t)
  {
    match s.program
    case None =>
    case Some(ShadowShader) => ShadowBlockUniforms(s, unit, repeat, t);
    case Some(IlluminationShader) => LitBlockUniforms(s, unit, repeat, t);
  }

  /** The shadow program declares only the model: "tex" and "repeat" go nowhere. */
  lemma ShadowBlockUniforms(s: GlState, unit: nat, repeat: real, t: Transform)
    requires s.program == Some(ShadowShader)
    ensures Step(Step(Step(s, SetSampler(TexSampler, unit)), SetRepeat(repeat)), SetModel(t))
      == s.(model := s.model[ShadowShader := t])
  {
    assert Step(s, SetSampler(TexSampler, unit)) == s;
    assert Step(s, SetRepeat(repeat)) == s;
  }

  /** The lit program declares all three. */
  lemma LitBlockUniforms(s: GlState, unit: nat, repeat: real, t: Transform)
    requires s.program == Some(IlluminationShader)
    ensures Step(Step(Step(s, SetSampler(TexSampler, unit)), SetRepeat(repeat)), SetModel(t))
      == s.(samplers := s.samplers[(IlluminationShader, TexSampler) := unit],
            repeat := s.repeat[IlluminationShader := repeat], model := s.model[IlluminationShader := t])
  {
    var s1 := s.(samplers := s.samplers[(IlluminationShader, TexSampler) := unit]);
    assert Step(s, SetSampler(TexSampler, unit)) == s1;
    var s2 := s1.(repeat := s.repeat[IlluminationShader := repeat]);
    assert Step(s1, SetRepeat(repeat)) == s2;
  }

  /** One object's block draws that object once, with the state the block has set up. */
  lemma ObjectBlockDraws(s: GlState, o: Object, unit: nat, texture: int, repeat: real, t: Transform)
    ensures Draws(s, ObjectBlock(o, unit, texture, repeat, t)) == [DrawCall(o, AfterBlock(s, unit, texture, repeat, t))]
  {
    var b := ObjectBlock(o, unit, texture, repeat, t);
    var s2 := s.(activeUnit := unit, bound := s.bound[unit := texture]);
    assert DrawsFrom(s, b, 0) == DrawsFrom(s2, b, 2);
    var s3 := Step(s2, b[2]);
    var s4 := Step(s3, b[3]);
    var s5 := Step(s4, b[4]);
    assert DrawsFrom(s2, b, 2) == DrawsFrom(s3, b, 3);
    assert DrawsFrom(s3, b, 3) == DrawsFrom(s4, b, 4);
    assert DrawsFrom(s4, b, 4) == DrawsFrom(s5, b, 5);
    assert DrawsFrom(s5, b, 5) == [DrawCall(o, s5)] + DrawsFrom(s5, b, 6);
    BlockUniforms(s2, unit, repeat, t);
  }

  /** The shadow-map binding of a state: the unit each program's "shadowMap" names and the texture on unit 2. */
  predicate SameShadowBinding(a: GlState, b: GlState) {
    StoredSampler(a, ShadowShader, ShadowMapSampler) == StoredSampler(b, ShadowShader, ShadowMapSampler)
    && StoredSampler(a, IlluminationShader, ShadowMapSampler) == StoredSampler(b, IlluminationShader, ShadowMapSampler)
    && BoundTo(a, SHADOW_UNIT) == BoundTo(b, SHADOW_UNIT)
  }

  /** The state RenderObjects leaves after its shadow-map preamble. */
  function AfterBinding(s: GlState, pass: Pass, depthMap: int): GlState {
    if pass == Render then
      s.(activeUnit := SHADOW_UNIT, bound := s.bound[SHADOW_UNIT := depthMap],
         samplers := if s.program.Some? && Declares(s.program.value, SamplerUniform(ShadowMapSampler))
                     then s.samplers[(s.program.value, ShadowMapSampler) := SHADOW_UNIT] else s.samplers)
    else s
  }

  lemma ShadowMapBindingRuns(s: GlState, pass: Pass, depthMap: int)
    ensures Exec(s, ShadowMapBinding(pass, depthMap)) == AfterBinding(s, pass, depthMap)
    ensures Draws(s, ShadowMapBinding(pass, depthMap)) == []
  {
    var b := ShadowMapBinding(pass, depthMap);
    DrawFreeFrom(s, b, 0);
    if pass == Render {
      var s2 := Step(Step(s, b[0]), b[1]);
      assert RunFrom(s, b, 0) == RunFrom(s2, b, 2);
    }
  }

  /** The shadow map's unit is none of the objects' units. */
  lemma ShadowUnitIsReserved(o: Object)
    ensures UnitOf(o) != SHADOW_UNIT
  {
  }

  /** The scene table gives back the four blocks RenderObjects spells out, with their literal constants. */
  lemma RenderObjectsAsWritten(pass: Pass, depthMap: int, textureID: seq<int>, repeat: real, orientationY: real)
    requires |textureID| >= 3
    ensures RenderObjects(pass, depthMap, textureID, repeat, orientationY) ==
      ShadowMapBinding(pass, depthMap)
      + (ObjectBlock(Plane, 1, textureID[1], 80.0,
           Transform(Vec3(0.0, -1.0, 0.0), None, Vec3(10.0, 1.0, 10.0)))
      + (ObjectBlock(Lamp, 0, textureID[0], repeat,
           Transform(Vec3(-3.0, -1.0, 3.0), Some(orientationY), Vec3(0.25, 0.25, 0.25)))
      + (ObjectBlock(Bench, 0, textureID[0], repeat,
           Transform(Vec3(0.0, -1.0, 0.0), Some(orientationY), Vec3(0.01, 0.01, 0.01)))
      + ObjectBlock(Tree, 3, textureID[2], repeat,
           Transform(Vec3(5.0, -1.0, 5.0), Some(orientationY), Vec3(1.5, 1.5, 1.5))))))
  {
    var tree := ObjectCommands(Tree, textureID, repeat, orientationY);
    assert DrawOrder[1..] == [Lamp, Bench, Tree] && [Lamp, Bench, Tree][1..] == [Bench, Tree];
    assert [Bench, Tree][1..] == [Tree] && [Tree][1..] == [];
    assert Blocks([Tree], textureID, repeat, orientationY) == tree + [] == tree;
  }

  /** No object block touches the "shadowMap" sampler. */
  lemma {:induction false} BlocksLeaveShadowSampler(objs: seq<Object>, textureID: seq<int>, repeat: real, orientationY: real)
    requires |textureID| >= 3
    ensures forall c :: c in Blocks(objs, textureID, repeat, orientationY) ==>
      !(c.SetSampler? && c.sampler == ShadowMapSampler)
    decreases |objs|
  {
    if objs != [] {
      BlocksLeaveShadowSampler(objs[1..], textureID, repeat, orientationY);
    }
  }

  /** Only the RENDER pass sets "shadowMap"; the SHADOWMAP pass issues no command for it. */
  lemma ShadowMapSetOnlyInRender(pass: Pass, depthMap: int, textureID: seq<int>, repeat: real, orientationY: real)
    requires |textureID| >= 3
    ensures var r := RenderObjects(pass, depthMap, textureID, repeat, orientationY);
      (SetSampler(ShadowMapSampler, SHADOW_UNIT) in r <==> pass == Render)
      && forall c :: c in r && c.SetSampler? && c.sampler == ShadowMapSampler ==> pass == Render
  {
    BlocksLeaveShadowSampler(DrawOrder, textureID, repeat, orientationY);
  }

  /** The blocks of a list of objects draw those objects in order, each with its own texture on its own unit, its repeat factor and its transform. */
  lemma {:induction false} BlocksDraw(s: GlState, objs: seq<Object>, textureID: seq<int>, repeat: real,
                                      orientationY: real)
    requires |textureID| >= 3
    ensures var d := Draws(s, Blocks(objs, textureID, repeat, orientationY));
      |d| == |objs|
      && forall i :: 0 <= i < |d| ==> d[i].obj == objs[i] && ObjectSetUp(d[i], textureID, repeat, orientationY)
    decreases |objs|
  {
    if objs != [] {
      var o := objs[0];
      var block := ObjectCommands(o, textureID, repeat, orientationY);
      var rest := Blocks(objs[1..], textureID, repeat, orientationY);
      var s1 := AfterBlock(s, UnitOf(o), textureID[TextureOf(o)], RepeatOf(o, repeat), TransformOf(o, orientationY));
      ObjectBlockRuns(s, o, UnitOf(o), textureID[TextureOf(o)], RepeatOf(o, repeat), TransformOf(o, orientationY));
      ObjectBlockDraws(s, o, UnitOf(o), textureID[TextureOf(o)], RepeatOf(o, repeat), TransformOf(o, orientationY));
      ExecAppend(s, block, rest);
      BlocksDraw(s1, objs[1..], textureID, repeat, orientationY);
      var later := Draws(s1, rest);
      var d := Draws(s, block + rest);
      assert d == [DrawCall(o, s1)] + later;
      forall i | 0 <= i < |d|
        ensures d[i].obj == objs[i] && ObjectSetUp(d[i], textureID, repeat, orientationY)
      {
        if i > 0 {
          assert d[i] == later[i - 1];
        }
      }
    }
  }

  /**
    The object blocks leave the render target and the shadow-map binding as they
    found them, at every draw and at the end: whatever target `t` and binding `b`
    the starting state shares, every later state shares too.
  */
  lemma {:induction false} BlocksKeepTarget(s: GlState, objs: seq<Object>, textureID: seq<int>, repeat: real,
                                            orientationY: real, t: GlState, b: GlState)
    requires |textureID| >= 3 && SameTarget(s, t) && SameShadowBinding(s, b)
    ensures var d := Draws(s, Blocks(objs, textureID, repeat, orientationY));
      forall i :: 0 <= i < |d| ==> SameTarget(d[i].state, t) && SameShadowBinding(d[i].state, b)
    ensures var st := Exec(s, Blocks(objs, textureID, repeat, orientationY));
      SameTarget(st, t) && SameShadowBinding(st, b)
    decreases |objs|
  {
    if objs != [] {
      var o := objs[0];
      var block := ObjectCommands(o, textureID, repeat, orientationY);
      var rest := Blocks(objs[1..], textureID, repeat, orientationY);
      var s1 := AfterBlock(s, UnitOf(o), textureID[TextureOf(o)], RepeatOf(o, repeat), TransformOf(o, orientationY));
      ObjectBlockRuns(s, o, UnitOf(o), textureID[TextureOf(o)], RepeatOf(o, repeat), TransformOf(o, orientationY));
      ObjectBlockDraws(s, o, UnitOf(o), textureID[TextureOf(o)], RepeatOf(o, repeat), TransformOf(o, orientationY));
      ShadowUnitIsReserved(o);
      ExecAppend(s, block, rest);
      BlocksKeepTarget(s1, objs[1..], textureID, repeat, orientationY, t, b);
      var later := Draws(s1, rest);
      var d := Draws(s, block + rest);
      assert d == [DrawCall(o, s1)] + later;
      forall i | 0 <= i < |d|
        ensures SameTarget(d[i].state, t) && SameShadowBinding(d[i].state, b)
      {
        if i > 0 {
          assert d[i] == later[i - 1];
        }
      }
    }
  }

  /** The draws of the scene: the objects of DrawOrder in order, each set up as ObjectSetUp says for the program it runs under. */
  predicate DrawsScene(d: seq<DrawCall>, textureID: seq<int>, repeat: real, orientationY: real)
    requires |textureID| >= 3
  {
    |d| == |DrawOrder|
    && forall i :: 0 <= i < |d| ==> d[i].obj == DrawOrder[i] && ObjectSetUp(d[i], textureID, repeat, orientationY)
  }

  /** In the SHADOWMAP pass, RenderObjects is the object blocks alone, run from the state it finds. */
  lemma ShadowMapPassDraws(s: GlState, depthMap: int, textureID: seq<int>, repeat: real, orientationY: real)
    requires |textureID| >= 3
    ensures var d := Draws(s, RenderObjects(ShadowMap, depthMap, textureID, repeat, orientationY));
      DrawsScene(d, textureID, repeat, orientationY)
      && forall i :: 0 <= i < |d| ==> SameTarget(d[i].state, s) && SameShadowBinding(d[i].state, s)
    ensures var st := Exec(s, RenderObjects(ShadowMap, depthMap, textureID, repeat, orientationY));
      SameTarget(st, s) && SameShadowBinding(st, s)
  {
    var blocks := Blocks(DrawOrder, textureID, repeat, orientationY);
    assert RenderObjects(ShadowMap, depthMap, textureID, repeat, orientationY) == blocks;
    BlocksDraw(s, DrawOrder, textureID, repeat, orientationY);
    BlocksKeepTarget(s, DrawOrder, textureID, repeat, orientationY, s, s);
  }

  /** In the RENDER pass, RenderObjects binds the depth map first, and under the lit program every draw then samples it. */
  lemma RenderPassDraws(s: GlState, depthMap: int, textureID: seq<int>, repeat: real, orientationY: real)
    requires |textureID| >= 3
    ensures var d := Draws(s, RenderObjects(Render, depthMap, textureID, repeat, orientationY));
      DrawsScene(d, textureID, repeat, orientationY)
      && (forall i :: 0 <= i < |d| ==> SameTarget(d[i].state, s))
      && (s.program == Some(IlluminationShader) ==> forall i :: 0 <= i < |d| ==> SamplesShadowMap(d[i].state, depthMap))
    ensures SameTarget(Exec(s, RenderObjects(Render, depthMap, textureID, repeat, orientationY)), s)
  {
    var binding := ShadowMapBinding(Render, depthMap);
    var blocks := Blocks(DrawOrder, textureID, repeat, orientationY);
    var s0 := AfterBinding(s, Render, depthMap);
    ShadowMapBindingRuns(s, Render, depthMap);
    ExecAppend(s, binding, blocks);
    BlocksDraw(s0, DrawOrder, textureID, repeat, orientationY);
    BlocksKeepTarget(s0, DrawOrder, textureID, repeat, orientationY, s, s0);
    var d := Draws(s0, blocks);
    assert Draws(s, binding + blocks) == d;
    if s.program == Some(IlluminationShader) {
      forall i | 0 <= i < |d|
        ensures SamplesShadowMap(d[i].state, depthMap)
      {
        assert SameShadowBinding(d[i].state, s0) && SameTarget(d[i].state, s);
      }
    }
  }

  /**
    RenderObjects draws plane, lamp, bench and tree in this order, each with its
    transform and, under the lit program, its own texture on its own unit and its
    repeat factor; in the RENDER pass under the lit program every draw also
    samples the depth map on unit 2, and in the SHADOWMAP pass the shadow-map
    binding is left as it was.  Program,
    framebuffer, viewport, clear, polygon mode and subroutine are left alone.
  */
  lemma RenderObjectsDraws(s: GlState, pass: Pass, depthMap: int, textureID: seq<int>,
                           repeat: real, orientationY: real)
    requires |textureID| >= 3
    ensures var d := Draws(s, RenderObjects(pass, depthMap, textureID, repeat, orientationY));
      DrawsScene(d, textureID, repeat, orientationY)
      && (forall i :: 0 <= i < |d| ==> SameTarget(d[i].state, s))
      && (pass == Render && s.program == Some(IlluminationShader) ==>
            forall i :: 0 <= i < |d| ==> SamplesShadowMap(d[i].state, depthMap))
      && (pass == ShadowMap ==> forall i :: 0 <= i < |d| ==> SameShadowBinding(d[i].state, s))
    ensures SameTarget(Exec(s, RenderObjects(pass, depthMap, textureID, repeat, orientationY)), s)
    ensures pass == ShadowMap ==>
      SameShadowBinding(Exec(s, RenderObjects(pass, depthMap, textureID, repeat, orientationY)), s)
  {
    if pass == ShadowMap {
      ShadowMapPassDraws(s, depthMap, textureID, repeat, orientationY);
    } else {
      RenderPassDraws(s, depthMap, textureID, repeat, orientationY);
    }
  }

  // ---------------------------------------------------------------------------
  // Lemmas about a whole frame

  /**
    A draw of the depth pass: shadow program, which samples no texture and has
    no subroutine selected, into the cleared depth-map FBO, at the depth map's size.
  */
  predicate InDepthPass(st: GlState) {
    st.program == Some(ShadowShader) && st.subroutine == None
    && SamplerUnit(st, TexSampler) == None && SamplerUnit(st, ShadowMapSampler) == None
    && st.framebuffer == DepthMapFbo
    && st.viewport == (SHADOW_WIDTH, SHADOW_HEIGHT) && st.cleared == Some(DepthBit)
  }

  /** A draw of the lit pass: lit program and selected variant into the cleared default framebuffer. */
  predicate InLitPass(st: GlState, variant: string, wireframe: bool, width: int, height: int) {
    st.program == Some(IlluminationShader) && st.subroutine == Some(variant)
    && st.framebuffer == DefaultFramebuffer && st.viewport == (width, height)
    && st.cleared == Some(ColorAndDepthBits) && st.wireframe == wireframe
  }

  /** A state with the target of a depth-pass state is a depth-pass state, with the same polygon mode. */
  lemma DepthPassKept(a: GlState, b: GlState)
    requires InDepthPass(a) && SameTarget(b, a)
    ensures InDepthPass(b) && b.wireframe == a.wireframe
  {
  }

  /** Likewise for the lit pass. */
  lemma LitPassKept(a: GlState, b: GlState, variant: string, wireframe: bool, width: int, height: int)
    requires InLitPass(a, variant, wireframe, width, height) && SameTarget(b, a)
    ensures InLitPass(b, variant, wireframe, width, height)
  {
  }

  /** Every draw is a depth-pass draw, with polygon mode `wireframe`. */
  predicate AllInDepthPass(d: seq<DrawCall>, wireframe: bool) {
    forall i :: 0 <= i < |d| ==> InDepthPass(d[i].state) && d[i].state.wireframe == wireframe
  }

  /** Every draw is a lit-pass draw with the variant, sampling the depth map. */
  predicate AllInLitPass(d: seq<DrawCall>, variant: string, wireframe: bool, width: int, height: int, depthMap: int) {
    forall i :: 0 <= i < |d| ==>
      InLitPass(d[i].state, variant, wireframe, width, height) && SamplesShadowMap(d[i].state, depthMap)
  }

  lemma DepthPassSetUpRuns(s: GlState)
    ensures Draws(s, DepthPassSetUp()) == []
    ensures var st := Exec(s, DepthPassSetUp());
      InDepthPass(st) && st.wireframe == s.wireframe && SameShadowBinding(st, s)
  {
    var b := DepthPassSetUp();
    DrawFreeFrom(s, b, 0);
    var s2 := Step(Step(s, b[0]), b[1]);
    var s4 := Step(Step(s2, b[2]), b[3]);
    assert RunFrom(s, b, 0) == RunFrom(s2, b, 2);
    assert RunFrom(s2, b, 2) == RunFrom(s4, b, 4);
    assert RunFrom(s4, b, 4) == Step(s4, b[4]);
  }

  lemma LitPassSetUpRuns(s: GlState, variant: string, wireframe: bool, width: int, height: int)
    ensures Draws(s, LitPassSetUp(variant, wireframe, width, height)) == []
    ensures var st := Exec(s, LitPassSetUp(variant, wireframe, width, height));
      InLitPass(st, variant, wireframe, width, height) && SameShadowBinding(st, s)
  {
    var b := LitPassSetUp(variant, wireframe, width, height);
    DrawFreeFrom(s, b, 0);
    var s2 := Step(Step(s, b[0]), b[1]);
    var s4 := Step(Step(s2, b[2]), b[3]);
    var s6 := Step(Step(s4, b[4]), b[5]);
    assert RunFrom(s, b, 0) == RunFrom(s2, b, 2);
    assert RunFrom(s2, b, 2) == RunFrom(s4, b, 4);
    assert RunFrom(s4, b, 4) == RunFrom(s6, b, 6);
    assert RunFrom(s6, b, 6) == Step(s6, b[6]);
  }

  /** The depth pass draws the four objects into the cleared depth map, with the polygon mode it found. */
  lemma DepthPassDraws(s: GlState, depthMap: int, textureID: seq<int>, repeat: real, orientationY: real)
    requires |textureID| >= 3
    ensures var d := Draws(s, DepthPass(depthMap, textureID, repeat, orientationY));
      DrawsScene(d, textureID, repeat, orientationY) && AllInDepthPass(d, s.wireframe)
  {
    DepthPassSetUpRuns(s);
    var s1 := Exec(s, DepthPassSetUp());
    var objects := RenderObjects(ShadowMap, depthMap, textureID, repeat, orientationY);
    ShadowMapPassDraws(s1, depthMap, textureID, repeat, orientationY);
    ExecAppend(s, DepthPassSetUp(), objects);
    var d := Draws(s, DepthPass(depthMap, textureID, repeat, orientationY));
    assert d == Draws(s1, objects);
    forall i | 0 <= i < |d|
      ensures InDepthPass(d[i].state) && d[i].state.wireframe == s.wireframe
    {
      DepthPassKept(s1, d[i].state);
    }
  }

  /** The lit pass draws the four objects with the variant, into the cleared default framebuffer, sampling the depth map. */
  lemma LitPassDraws(s: GlState, variant: string, wireframe: bool, width: int, height: int,
                     depthMap: int, textureID: seq<int>, repeat: real, orientationY: real)
    requires |textureID| >= 3
    ensures var d := Draws(s, LitPass(variant, wireframe, width, height, depthMap, textureID, repeat, orientationY));
      DrawsScene(d, textureID, repeat, orientationY) && AllInLitPass(d, variant, wireframe, width, height, depthMap)
    ensures Exec(s, LitPass(variant, wireframe, width, height, depthMap, textureID, repeat, orientationY)).wireframe
      == wireframe
  {
    var setUp := LitPassSetUp(variant, wireframe, width, height);
    LitPassSetUpRuns(s, variant, wireframe, width, height);
    var s1 := Exec(s, setUp);
    var objects := RenderObjects(Render, depthMap, textureID, repeat, orientationY);
    RenderPassDraws(s1, depthMap, textureID, repeat, orientationY);
    ExecAppend(s, setUp, objects);
    var d := Draws(s, LitPass(variant, wireframe, width, height, depthMap, textureID, repeat, orientationY));
    assert d == Draws(s1, objects);
    forall i | 0 <= i < |d|
      ensures InLitPass(d[i].state, variant, wireframe, width, height) && SamplesShadowMap(d[i].state, depthMap)
    {
      LitPassKept(s1, d[i].state, variant, wireframe, width, height);
    }
  }

  /**
    One frame draws the four objects twice: first all four in the depth pass
    (shadow program, depth-map FBO cleared of depth only, 1024x1024 viewport),
    then all four in the lit pass (lit program running shaders[current], default
    framebuffer cleared of colour and depth, window viewport, depth map sampled
    on unit 2).  Every draw has its object's texture, repeat and transform.  The
    depth pass runs with the polygon mode left by the previous frame; the frame
    leaves the mode set from `wireframe`.
  */
  lemma FrameDraws(s: GlState, shaders: seq<string>, current: nat, wireframe: bool, width: int, height: int,
                   depthMap: int, textureID: seq<int>, repeat: real, orientationY: real)
    requires current < |shaders| && |textureID| >= 3
    ensures var d := Draws(s, FrameLog(shaders, current, wireframe, width, height, depthMap, textureID, repeat, orientationY));
      var n := |DrawOrder|;
      |d| == 2 * n
      && DrawsScene(d[..n], textureID, repeat, orientationY) && AllInDepthPass(d[..n], s.wireframe)
      && DrawsScene(d[n..], textureID, repeat, orientationY)
      && AllInLitPass(d[n..], shaders[current], wireframe, width, height, depthMap)
    ensures Exec(s, FrameLog(shaders, current, wireframe, width, height, depthMap, textureID, repeat, orientationY)).wireframe
      == wireframe
  {
    var depth := DepthPass(depthMap, textureID, repeat, orientationY);
    var lit := LitPass(shaders[current], wireframe, width, height, depthMap, textureID, repeat, orientationY);
    DepthPassDraws(s, depthMap, textureID, repeat, orientationY);
    LitPassDraws(Exec(s, depth), shaders[current], wireframe, width, height, depthMap, textureID, repeat, orientationY);
    ExecAppend(s, depth, lit);
    var first := Draws(s, depth);
    var d := first + Draws(Exec(s, depth), lit);
    assert d[..|first|] == first && d[|first|..] == Draws(Exec(s, depth), lit);
  }

  /** The depth pass of a frame runs with the polygon mode the previous frame's lit pass set. */
  lemma NextDepthPassInheritsPolygonMode(s: GlState, shaders: seq<string>, current: nat, wireframe: bool,
                                         width: int, height: int, depthMap: int, textureID: seq<int>,
                                         repeat: real, orientationY: real,
                                         current': nat, wireframe': bool)
    requires current < |shaders| && current' < |shaders| && |textureID| >= 3
    ensures var s' := Exec(s, FrameLog(shaders, current, wireframe, width, height, depthMap, textureID, repeat, orientationY));
      var d := Draws(s', FrameLog(shaders, current', wireframe', width, height, depthMap, textureID, repeat, orientationY));
      |d| == 2 * |DrawOrder| && AllInDepthPass(d[..|DrawOrder|], wireframe)
  {
    FrameDraws(s, shaders, current, wireframe, width, height, depthMap, textureID, repeat, orientationY);
    var s' := Exec(s, FrameLog(shaders, current, wireframe, width, height, depthMap, textureID, repeat, orientationY));
    FrameDraws(s', shaders, current', wireframe', width, height, depthMap, textureID, repeat, orientationY);
  }
}
