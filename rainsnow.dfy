/**
  The globals of RainSnow.cpp that its GLFW callbacks update, and the
  callbacks themselves, as a class whose methods are proved against the
  functions of module Input; and the body of the render loop, proved against
  the schedule of module Pipeline.
*/
module RainSnow {
  import opened Wrappers
  import opened Input
  import Pipeline

  /** orientationY is never changed in this program, so the objects are drawn with a rotation of 0 degrees. */
  const ORIENTATION_Y: real := 0.0

  /** What the render loop draws with: the window size, the depth-map texture, the three textures and the repeat factor. */
  datatype RenderSetup = RenderSetup(width: int, height: int, depthMap: int, textureID: seq<int>, repeat: real)

  /** What one frame hands on: the camera moves, the mouse offsets, the lines printed and the GL commands issued. */
  datatype FrameOutput = FrameOutput(moves: seq<CameraCommand>, offsets: seq<Offset>, printed: seq<string>,
                                     log: seq<Pipeline.Command>)

  /**
    The outputs of one frame that starts from the controls `before`: the offsets
    and lines its events produce, the camera moves for the keys held after them,
    and the two passes drawn with the variant and wireframe flag they leave.
  */
  function FrameOutputs(shaders: seq<string>, before: Controls, input: FrameInput, setup: RenderSetup): FrameOutput
    requires |before.keys| == KEY_COUNT && before.variant < |shaders| && ValidEvents(input.events)
    requires |setup.textureID| >= 3
  {
    var after := ControlsAfter(before, |shaders|, input.events);
    FrameOutput(CameraMoves(after.keys, input.deltaTime), MouseAfter(before.mouse, input.events).1,
                Announcements(shaders, input.events),
                Pipeline.FrameLog(shaders, after.variant, after.wireframe, setup.width, setup.height,
                                  setup.depthMap, setup.textureID, setup.repeat, ORIENTATION_Y))
  }

  /** Frame j's outputs, from the controls the j frames before it left; none past the last frame. */
  function FrameOutputAt(shaders: seq<string>, start: Controls, frames: seq<FrameInput>, setup: RenderSetup)
    : nat -> FrameOutput
  {
    (j: nat) =>
      if |start.keys| == KEY_COUNT && start.variant < |shaders| && FramesValid(frames) && j < |frames|
         && |setup.textureID| >= 3
      then FrameOutputs(shaders, StateThrough(start, |shaders|, frames, j), frames[j], setup)
      else FrameOutput([], [], [], [])
  }

  /** The outputs of the first n frames. */
  function OutputsOf(shaders: seq<string>, start: Controls, frames: seq<FrameInput>, setup: RenderSetup, n: nat)
    : seq<FrameOutput>
  {
    PerFrame(FrameOutputAt(shaders, start, frames, setup), n)
  }

  /** Output j is the one frame j produces from the state the j frames before it left. */
  lemma OutputOfFrame(shaders: seq<string>, start: Controls, frames: seq<FrameInput>, setup: RenderSetup, n: nat, j: nat)
    requires |start.keys| == KEY_COUNT && start.variant < |shaders| && FramesValid(frames) && j < n <= |frames|
    requires |setup.textureID| >= 3
    ensures OutputsOf(shaders, start, frames, setup, n)[j]
      == FrameOutputs(shaders, StateThrough(start, |shaders|, frames, j), frames[j], setup)
  {
    PerFrameAt(FrameOutputAt(shaders, start, frames, setup), n, j);
  }

  /**
    Where the render loop stands after n frames that began from the controls
    `start`: the controls c and the outputs those frames produce; the frames
    before the last left the close flag clear.
  */
  ghost predicate RunAt(shaders: seq<string>, start: Controls, frames: seq<FrameInput>, setup: RenderSetup,
                        n: nat, c: Controls, outputs: seq<FrameOutput>)
    requires |start.keys| == KEY_COUNT && start.variant < |shaders| && FramesValid(frames)
    requires |setup.textureID| >= 3
  {
    n <= |frames|
    && c == StateThrough(start, |shaders|, frames, n)
    && outputs == OutputsOf(shaders, start, frames, setup, n)
    && (n > 0 ==> !StateThrough(start, |shaders|, frames, n - 1).close)
  }

  /** One more frame, run while the close flag is clear, keeps RunAt. */
  lemma RunOneMore(shaders: seq<string>, start: Controls, frames: seq<FrameInput>, setup: RenderSetup,
                   n: nat, c: Controls, outputs: seq<FrameOutput>)
    requires |start.keys| == KEY_COUNT && start.variant < |shaders| && FramesValid(frames)
    requires |setup.textureID| >= 3
    requires RunAt(shaders, start, frames, setup, n, c, outputs) && n < |frames| && !c.close
    ensures c.variant < |shaders|
    ensures RunAt(shaders, start, frames, setup, n + 1, ControlsAfter(c, |shaders|, frames[n].events),
                  outputs + [FrameOutputs(shaders, c, frames[n], setup)])
  {
  }

  /** The start of main once SetupShader has run: the initial controller, then PrintCurrentShader(current_subroutine). */
  method Startup(shaders: seq<string>) returns (c: Controller, line: string)
    requires |shaders| > 0
    ensures fresh(c) && fresh(c.keys) && c.Valid()
    ensures c.shaders == shaders && c.currentSubroutine == 0
    ensures !c.wireframe && !c.closeRequested
    ensures forall k :: 0 <= k < KEY_COUNT ==> !c.keys[k]
    ensures c.Tracker() == InitialMouse
    ensures line == ShaderMessage(shaders, 0)
  {
    c := new Controller(shaders);
    line := c.PrintCurrentShader(c.currentSubroutine);
  }

  class Controller {
    /** The subroutine names SetupShader found, in the order the driver reported them. */
    const shaders: seq<string>
    /** current_subroutine */
    var currentSubroutine: nat
    var wireframe: bool
    /** glfwSetWindowShouldClose(window, GL_TRUE) has been called. */
    var closeRequested: bool
    /** keys[1024]: which keys are held. */
    const keys: array<bool>
    var firstMouse: bool
    var lastX: real
    var lastY: real

    /** The selected variant is always a position of the (non-empty) variant list. */
    ghost predicate Valid()
      reads this
    {
      keys.Length == KEY_COUNT && |shaders| > 0 && currentSubroutine < |shaders|
    }

    /** The mouse tracker held in firstMouse, lastX and lastY. */
    function Tracker(): Mouse
      reads this
    {
      Mouse(firstMouse, lastX, lastY)
    }

    /** The controller state held in the fields and in keys[]. */
    ghost function State(): Controls
      reads this, keys
    {
      Controls(currentSubroutine, wireframe, closeRequested, keys[..], Tracker())
    }

    /** The state at program start, once SetupShader has filled the variant list. */
    constructor (shaders: seq<string>)
      requires |shaders| > 0
      ensures Valid() && fresh(keys)
      ensures this.shaders == shaders && currentSubroutine == 0
      ensures !wireframe && !closeRequested
      ensures forall k :: 0 <= k < KEY_COUNT ==> !keys[k]
      ensures Tracker() == InitialMouse
    {
      this.shaders := shaders;
      currentSubroutine := 0;
      wireframe := false;
      closeRequested := false;
      keys := new bool[KEY_COUNT](_ => false);
      firstMouse := true;
      lastX, lastY := 0.0, 0.0;
    }

    /** PrintCurrentShader: the line naming the variant at `subroutine`, which must exist. */
    method PrintCurrentShader(subroutine: nat) returns (line: string)
      requires subroutine < |shaders|
      ensures line == ShaderMessage(shaders, subroutine)
    {
      line := MESSAGE_PREFIX + shaders[subroutine];
    }

    /** key_callback: ESC, L, the number keys, then the keys[] table. Returns the line printed, if any. */
    method KeyCallback(key: int, action: Action) returns (printed: Option<string>)
      requires Valid() && 0 <= key < KEY_COUNT
      modifies this, keys
      ensures Valid()
      ensures currentSubroutine == SelectVariant(old(currentSubroutine), |shaders|, key, action)
      ensures wireframe == Toggle(old(wireframe), KEY_L, key, action)
      ensures closeRequested == RequestClose(old(closeRequested), key, action)
      ensures keys[..] == KeysAfter(old(keys[..]), key, action)
      ensures Tracker() == old(Tracker())
      ensures printed == if Accepted(|shaders|, key, action) then Some(ShaderMessage(shaders, currentSubroutine)) else None
    {
      if key == KEY_ESCAPE && action == Press {
        closeRequested := true;
      }
      if key == KEY_L && action == Press {
        wireframe := !wireframe;
      }
      printed := None;
      if KEY_1 <= key <= KEY_9 && action == Press {
        var newSubroutine := key - ('0' as int) - 1;
        if newSubroutine < |shaders| {
          currentSubroutine := newSubroutine;
          var line := PrintCurrentShader(currentSubroutine);
          printed := Some(line);
        }
      }
      if action == Press {
        keys[key] := true;
      } else if action == Release {
        keys[key] := false;
      }
    }

    /** mouse_callback: returns the offset passed to Camera::ProcessMouseMovement. */
    method MouseCallback(x: real, y: real) returns (offset: Offset)
      modifies this
      ensures (Tracker(), offset) == MouseStep(old(Tracker()), x, y)
      ensures currentSubroutine == old(currentSubroutine) && wireframe == old(wireframe)
      ensures closeRequested == old(closeRequested)
    {
      if firstMouse {
        lastX := x;
        lastY := y;
        firstMouse := false;
      }
      offset := Offset(x - lastX, lastY - y);
      lastX := x;
      lastY := y;
    }

    /** apply_camera_movements: one command per held key among W, S, A, D, in that order. */
    method ApplyCameraMovements(deltaTime: real) returns (moves: seq<CameraCommand>)
      requires Valid()
      ensures moves == CameraMoves(keys[..], deltaTime)
    {
      ghost var held := keys[..];
      moves := [];
      if keys[KEY_W] {
        moves := moves + [ProcessKeyboard(Forward, deltaTime)];
      }
      assert moves == MoveIf(held[KEY_W], Forward, deltaTime);
      if keys[KEY_S] {
        moves := moves + [ProcessKeyboard(Backward, deltaTime)];
      }
      assert moves == MoveIf(held[KEY_W], Forward, deltaTime) + MoveIf(held[KEY_S], Backward, deltaTime);
      if keys[KEY_A] {
        moves := moves + [ProcessKeyboard(Left, deltaTime)];
      }
      assert moves == MoveIf(held[KEY_W], Forward, deltaTime) + MoveIf(held[KEY_S], Backward, deltaTime)
        + MoveIf(held[KEY_A], Left, deltaTime);
      if keys[KEY_D] {
        moves := moves + [ProcessKeyboard(Right, deltaTime)];
      }
    }

    /** The callback glfwPollEvents calls for one event: the offset and the line it produces, if any. */
    method HandleEvent(e: Event) returns (offsets: seq<Offset>, printed: seq<string>)
      requires Valid() && (e.KeyEvent? ==> 0 <= e.key < KEY_COUNT)
      modifies this, keys
      ensures Valid()
      ensures State() == ControlsStep(old(State()), |shaders|, e)
      ensures offsets == MouseEventStep(old(Tracker()), e).1
      ensures printed == AnnouncementStep(shaders, e)
    {
      match e {
        case KeyEvent(key, action) =>
          var line := KeyCallback(key, action);
          offsets := [];
          printed := if line.Some? then [line.value] else [];
        case CursorEvent(x, y) =>
          var offset := MouseCallback(x, y);
          offsets, printed := [offset], [];
        case WindowClose =>
          closeRequested := true;
          offsets, printed := [], [];
      }
    }

    /** glfwPollEvents: each event goes to its callback, in order. */
    method PollEvents(events: seq<Event>) returns (offsets: seq<Offset>, printed: seq<string>)
      requires Valid() && ValidEvents(events)
      modifies this, keys
      ensures Valid()
      ensures State() == ControlsAfter(old(State()), |shaders|, events)
      ensures offsets == MouseAfter(old(Tracker()), events).1
      ensures printed == Announcements(shaders, events)
    {
      offsets, printed := [], [];
      ghost var state0 := State();
      ghost var done: seq<Event> := [];
      var i := 0;
      while i < |events|
        invariant 0 <= i <= |events| && done == events[..i] && Valid() && ValidEvents(done)
        invariant PolledAt(shaders, state0, done, State(), offsets, printed)
      {
        var e := events[i];
        PolledOneMore(shaders, state0, done, e, State(), offsets, printed);
        var eventOffsets, eventPrinted := HandleEvent(e);
        offsets, printed := offsets + eventOffsets, printed + eventPrinted;
        done := done + [e];
        i := i + 1;
      }
      assert done == events;
    }

    /** The two render passes of one iteration of the render loop, with the current variant and wireframe flag. */
    method RenderFrame(width: int, height: int, depthMap: int, textureID: seq<int>, repeat: real)
      returns (log: seq<Pipeline.Command>)
      requires Valid() && |textureID| >= 3
      ensures log == Pipeline.FrameLog(shaders, currentSubroutine, wireframe, width, height,
                                       depthMap, textureID, repeat, ORIENTATION_Y)
    {
      log := Pipeline.DepthPass(depthMap, textureID, repeat, ORIENTATION_Y);
      log := log + Pipeline.LitPass(shaders[currentSubroutine], wireframe, width, height,
                                    depthMap, textureID, repeat, ORIENTATION_Y);
    }

    /** One iteration of the render loop: poll events, move the camera, render both passes. */
    method Frame(input: FrameInput, width: int, height: int, depthMap: int, textureID: seq<int>, repeat: real)
      returns (moves: seq<CameraCommand>, offsets: seq<Offset>, printed: seq<string>, log: seq<Pipeline.Command>)
      requires Valid() && ValidEvents(input.events) && |textureID| >= 3
      modifies this, keys
      ensures Valid()
      ensures State() == ControlsAfter(old(State()), |shaders|, input.events)
      ensures closeRequested == CloseAfter(old(closeRequested), input.events)
      ensures offsets == MouseAfter(old(Tracker()), input.events).1
      ensures printed == Announcements(shaders, input.events)
      ensures moves == CameraMoves(keys[..], input.deltaTime)
      ensures log == Pipeline.FrameLog(shaders, currentSubroutine, wireframe, width, height,
                                       depthMap, textureID, repeat, ORIENTATION_Y)
      ensures FrameOutput(moves, offsets, printed, log)
        == FrameOutputs(shaders, old(State()), input, RenderSetup(width, height, depthMap, textureID, repeat))
    {
      ControlsAfterParts(State(), |shaders|, input.events);
      offsets, printed := PollEvents(input.events);
      moves := ApplyCameraMovements(input.deltaTime);
      log := RenderFrame(width, height, depthMap, textureID, repeat);
    }

    /**
      The render loop: frames run while the window has not been asked to close.
      The frame whose events ask to close the window is still rendered in full;
      no later one is (FramesRunStopsAtClose).
      The controls are those of all the events of the frames that ran, in order,
      and each frame's outputs are those of its events from the state the frames
      before it left.
    */
    method Run(frames: seq<FrameInput>, width: int, height: int, depthMap: int, textureID: seq<int>, repeat: real)
      returns (rendered: nat, outputs: seq<FrameOutput>)
      requires Valid() && |textureID| >= 3 && FramesValid(frames)
      modifies this, keys
      ensures Valid()
      ensures rendered == if old(closeRequested) then 0 else FramesRun(frames)
      ensures closeRequested == (old(closeRequested) || (rendered > 0 && HasCloseRequest(frames[rendered - 1].events)))
      ensures State() == StateThrough(old(State()), |shaders|, frames, rendered)
      ensures State() == ControlsAfter(old(State()), |shaders|, EventsThrough(frames, rendered))
      ensures outputs == OutputsOf(shaders, old(State()), frames, RenderSetup(width, height, depthMap, textureID, repeat), rendered)
    {
      ghost var state0 := State();
      rendered, outputs := LoopWhileOpen(frames, width, height, depthMap, textureID, repeat);
      RunStops(state0, |shaders|, frames, rendered);
      StateThroughIsReplay(state0, |shaders|, frames, rendered);
    }

    /** The while loop of main: one frame at a time while the close flag is clear, keeping RunAt. */
    method LoopWhileOpen(frames: seq<FrameInput>, width: int, height: int, depthMap: int, textureID: seq<int>, repeat: real)
      returns (rendered: nat, outputs: seq<FrameOutput>)
      requires Valid() && |textureID| >= 3 && FramesValid(frames)
      modifies this, keys
      ensures Valid() && (rendered == |frames| || closeRequested)
      ensures RunAt(shaders, old(State()), frames, RenderSetup(width, height, depthMap, textureID, repeat),
                    rendered, State(), outputs)
    {
      ghost var state0 := State();
      ghost var setup := RenderSetup(width, height, depthMap, textureID, repeat);
      rendered, outputs := 0, [];
      while rendered < |frames| && !closeRequested
        invariant Valid()
        invariant RunAt(shaders, state0, frames, setup, rendered, State(), outputs)
      {
        RunOneMore(shaders, state0, frames, setup, rendered, State(), outputs);
        var moves, offsets, printed, log := Frame(frames[rendered], width, height, depthMap, textureID, repeat);
        outputs := outputs + [FrameOutput(moves, offsets, printed, log)];
        rendered := rendered + 1;
      }
    }
  }
}
