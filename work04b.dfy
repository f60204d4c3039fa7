/**
  The globals of work04b.cpp that its GLFW callbacks update: the same
  controller as RainSnow.cpp's plus the P key, which starts and stops the
  animated rotation, and the per-frame update of the rotation angle that the
  spinning flag gates.
*/
module Work04b {
  import opened Wrappers
  import opened Input

  /** spin_speed: degrees per second. */
  const SPIN_SPEED: real := 30.0

  /** orientationY after one frame: advanced by deltaTime * spin_speed while spinning, kept otherwise. */
  function SpinStep(orientation: real, spinning: bool, deltaTime: real): (r: real)
    ensures spinning ==> r - orientation == deltaTime * SPIN_SPEED
    ensures !spinning ==> r == orientation
  {
    if spinning then orientation + deltaTime * SPIN_SPEED else orientation
  }

  /** The sum of the frames' delta times. */
  function TotalTime(frames: seq<FrameInput>): real
    decreases |frames|
  {
    if frames == [] then 0.0 else TotalTime(frames[..|frames| - 1]) + frames[|frames| - 1].deltaTime
  }

  /** orientationY and spinning after a sequence of frames: each frame's events first, then the spin update. */
  function SpinAcross(orientation: real, spinning: bool, frames: seq<FrameInput>): (r: (real, bool))
    decreases |frames|
  {
    if frames == [] then (orientation, spinning)
    else
      var prev := SpinAcross(orientation, spinning, frames[..|frames| - 1]);
      var last := frames[|frames| - 1];
      var sp := ToggleAfter(prev.1, KEY_P, last.events);
      (SpinStep(prev.0, sp, last.deltaTime), sp)
  }

  /**
    Without a press of P, the spinning flag never changes; the angle then grows
    by spin_speed times the elapsed time if spinning, and stays put if not.
  */
  lemma {:induction false} SpinWithoutToggle(orientation: real, spinning: bool, frames: seq<FrameInput>)
    requires forall j :: 0 <= j < |frames| ==> Presses(KEY_P, frames[j].events) == 0
    ensures SpinAcross(orientation, spinning, frames)
      == (orientation + (if spinning then SPIN_SPEED * TotalTime(frames) else 0.0), spinning)
    decreases |frames|
  {
    if frames != [] {
      var init := frames[..|frames| - 1];
      SpinWithoutToggle(orientation, spinning, init);
      ToggleParity(spinning, KEY_P, frames[|frames| - 1].events);
    }
  }

  /** What one frame hands on: the camera moves, the mouse offsets and the lines printed. */
  datatype FrameOutput = FrameOutput(moves: seq<CameraCommand>, offsets: seq<Offset>, printed: seq<string>)

  /**
    The outputs of one frame that starts from the controls `before`: the offsets
    and lines its events produce, and the camera moves for the keys held after them.
  */
  function FrameOutputs(shaders: seq<string>, before: Controls, input: FrameInput): FrameOutput
    requires |before.keys| == KEY_COUNT && ValidEvents(input.events)
  {
    var after := ControlsAfter(before, |shaders|, input.events);
    FrameOutput(CameraMoves(after.keys, input.deltaTime), MouseAfter(before.mouse, input.events).1,
                Announcements(shaders, input.events))
  }

  /** Frame j's outputs, from the controls the j frames before it left; none past the last frame. */
  function FrameOutputAt(shaders: seq<string>, start: Controls, frames: seq<FrameInput>): nat -> FrameOutput {
    (j: nat) =>
      if |start.keys| == KEY_COUNT && FramesValid(frames) && j < |frames|
      then FrameOutputs(shaders, StateThrough(start, |shaders|, frames, j), frames[j])
      else FrameOutput([], [], [])
  }

  /** The outputs of the first n frames. */
  function OutputsOf(shaders: seq<string>, start: Controls, frames: seq<FrameInput>, n: nat): seq<FrameOutput> {
    PerFrame(FrameOutputAt(shaders, start, frames), n)
  }

  /** Output j is the one frame j produces from the state the j frames before it left. */
  lemma OutputOfFrame(shaders: seq<string>, start: Controls, frames: seq<FrameInput>, n: nat, j: nat)
    requires |start.keys| == KEY_COUNT && FramesValid(frames) && j < n <= |frames|
    ensures OutputsOf(shaders, start, frames, n)[j]
      == FrameOutputs(shaders, StateThrough(start, |shaders|, frames, j), frames[j])
  {
    PerFrameAt(FrameOutputAt(shaders, start, frames), n, j);
  }

  lemma SpinOneMore(spin0: (real, bool), frames: seq<FrameInput>, n: nat)
    requires n < |frames|
    ensures SpinAcross(spin0.0, spin0.1, frames[..n + 1])
      == SpinAcross(SpinAcross(spin0.0, spin0.1, frames[..n]).0, SpinAcross(spin0.0, spin0.1, frames[..n]).1, [frames[n]])
  {
    assert frames[..n + 1][..n] == frames[..n];
    assert [frames[n]][..0] == [];
  }

  /**
    Where the render loop stands after n frames that began from the controls
    `start` and the angle and flag `spin0`: the controls c, the angle and flag
    `spin` and the outputs those frames produce; the frames before the last
    left the close flag clear.
  */
  ghost predicate RunAt(shaders: seq<string>, start: Controls, spin0: (real, bool), frames: seq<FrameInput>,
                        n: nat, c: Controls, spin: (real, bool), outputs: seq<FrameOutput>)
    requires |start.keys| == KEY_COUNT && FramesValid(frames)
  {
    n <= |frames|
    && c == StateThrough(start, |shaders|, frames, n)
    && spin == SpinAcross(spin0.0, spin0.1, frames[..n])
    && outputs == OutputsOf(shaders, start, frames, n)
    && (n > 0 ==> !StateThrough(start, |shaders|, frames, n - 1).close)
  }

  /** One more frame, run while the close flag is clear, keeps RunAt. */
  lemma RunOneMore(shaders: seq<string>, start: Controls, spin0: (real, bool), frames: seq<FrameInput>,
                   n: nat, c: Controls, spin: (real, bool), outputs: seq<FrameOutput>)
    requires |start.keys| == KEY_COUNT && FramesValid(frames)
    requires RunAt(shaders, start, spin0, frames, n, c, spin, outputs) && n < |frames| && !c.close
    ensures RunAt(shaders, start, spin0, frames, n + 1, ControlsAfter(c, |shaders|, frames[n].events),
                  SpinAcross(spin.0, spin.1, [frames[n]]), outputs + [FrameOutputs(shaders, c, frames[n])])
  {
    SpinOneMore(spin0, frames, n);
  }

  /** The start of main once SetupShader has run: the initial controller, then PrintCurrentShader(current_subroutine). */
  method Startup(shaders: seq<string>) returns (c: Controller, line: string)
    requires |shaders| > 0
    ensures fresh(c) && fresh(c.keys) && c.Valid()
    ensures c.shaders == shaders && c.currentSubroutine == 0
    ensures c.spinning && !c.wireframe && !c.closeRequested && c.orientationY == 0.0
    ensures forall k :: 0 <= k < KEY_COUNT ==> !c.keys[k]
    ensures c.Tracker() == InitialMouse
    ensures line == ShaderMessage(shaders, 0)
  {
    c := new Controller(shaders);
    line := c.PrintCurrentShader(c.currentSubroutine);
  }

  class Controller {
    /** The subroutine names SetupShader found, in the order the driver reported them. */
    const shaders: seq<string>
    /** current_subroutine */
    var currentSubroutine: nat
    var spinning: bool
    var wireframe: bool
    /** glfwSetWindowShouldClose(window, GL_TRUE) has been called. */
    var closeRequested: bool
    /** keys[1024]: which keys are held. */
    const keys: array<bool>
    var firstMouse: bool
    var lastX: real
    var lastY: real
    /** Rotation angle of the bunny about Y, in degrees. */
    var orientationY: real

    /** The selected variant is always a position of the (non-empty) variant list. */
    ghost predicate Valid()
      reads this
    {
      keys.Length == KEY_COUNT && |shaders| > 0 && currentSubroutine < |shaders|
    }

    /** The mouse tracker held in firstMouse, lastX and lastY. */
    function Tracker(): Mouse
      reads this
    {
      Mouse(firstMouse, lastX, lastY)
    }

    /** The controller state held in the fields and in keys[], besides the spinning flag and the angle. */
    ghost function State(): Controls
      reads this, keys
    {
      Controls(currentSubroutine, wireframe, closeRequested, keys[..], Tracker())
    }

    /** The state at program start, once SetupShader has filled the variant list: spinning is on. */
    constructor (shaders: seq<string>)
      requires |shaders| > 0
      ensures Valid() && fresh(keys)
      ensures this.shaders == shaders && currentSubroutine == 0
      ensures spinning && !wireframe && !closeRequested && orientationY == 0.0
      ensures forall k :: 0 <= k < KEY_COUNT ==> !keys[k]
      ensures Tracker() == InitialMouse
    {
      this.shaders := shaders;
      currentSubroutine := 0;
      spinning := true;
      wireframe := false;
      closeRequested := false;
      keys := new bool[KEY_COUNT](_ => false);
      firstMouse := true;
      lastX, lastY := 0.0, 0.0;
      orientationY := 0.0;
    }

    /** PrintCurrentShader: the line naming the variant at `subroutine`, which must exist. */
    method PrintCurrentShader(subroutine: nat) returns (line: string)
      requires subroutine < |shaders|
      ensures line == ShaderMessage(shaders, subroutine)
    {
      line := MESSAGE_PREFIX + shaders[subroutine];
    }

    /** key_callback: ESC, P, L, the number keys, then the keys[] table. Returns the line printed, if any. */
    method KeyCallback(key: int, action: Action) returns (printed: Option<string>)
      requires Valid() && 0 <= key < KEY_COUNT
      modifies this, keys
      ensures Valid()
      ensures currentSubroutine == SelectVariant(old(currentSubroutine), |shaders|, key, action)
      ensures spinning == Toggle(old(spinning), KEY_P, key, action)
      ensures wireframe == Toggle(old(wireframe), KEY_L, key, action)
      ensures closeRequested == RequestClose(old(closeRequested), key, action)
      ensures keys[..] == KeysAfter(old(keys[..]), key, action)
      ensures Tracker() == old(Tracker()) && orientationY == old(orientationY)
      ensures printed == if Accepted(|shaders|, key, action) then Some(ShaderMessage(shaders, currentSubroutine)) else None
    {
      if key == KEY_ESCAPE && action == Press {
        closeRequested := true;
      }
      if key == KEY_P && action == Press {
        spinning := !spinning;
      }
      if key == KEY_L && action == Press {
        wireframe := !wireframe;
      }
      printed := None;
      if KEY_1 <= key <= KEY_9 && action == Press {
        var newSubroutine := key - ('0' as int) - 1;
        if newSubroutine < |shaders| {
          currentSubroutine := newSubroutine;
          var line := PrintCurrentShader(currentSubroutine);
          printed := Some(line);
        }
      }
      if action == Press {
        keys[key] := true;
      } else if action == Release {
        keys[key] := false;
      }
    }

    /** apply_camera_movements: one command per held key among W, S, A, D, in that order. */
    method ApplyCameraMovements(deltaTime: real) returns (moves: seq<CameraCommand>)
      requires Valid()
      ensures moves == CameraMoves(keys[..], deltaTime)
    {
      ghost var held := keys[..];
      moves := [];
      if keys[KEY_W] {
        moves := moves + [ProcessKeyboard(Forward, deltaTime)];
      }
      assert moves == MoveIf(held[KEY_W], Forward, deltaTime);
      if keys[KEY_S] {
        moves := moves + [ProcessKeyboard(Backward, deltaTime)];
      }
      assert moves == MoveIf(held[KEY_W], Forward, deltaTime) + MoveIf(held[KEY_S], Backward, deltaTime);
      if keys[KEY_A] {
        moves := moves + [ProcessKeyboard(Left, deltaTime)];
      }
      assert moves == MoveIf(held[KEY_W], Forward, deltaTime) + MoveIf(held[KEY_S], Backward, deltaTime)
        + MoveIf(held[KEY_A], Left, deltaTime);
      if keys[KEY_D] {
        moves := moves + [ProcessKeyboard(Right, deltaTime)];
      }
    }

    /** mouse_callback: returns the offset passed to Camera::ProcessMouseMovement. */
    method MouseCallback(x: real, y: real) returns (offset: Offset)
      modifies this
      ensures (Tracker(), offset) == MouseStep(old(Tracker()), x, y)
      ensures currentSubroutine == old(currentSubroutine) && spinning == old(spinning)
      ensures wireframe == old(wireframe) && closeRequested == old(closeRequested)
      ensures orientationY == old(orientationY)
    {
      if firstMouse {
        lastX := x;
        lastY := y;
        firstMouse := false;
      }
      offset := Offset(x - lastX, lastY - y);
      lastX := x;
      lastY := y;
    }

    /** The callback glfwPollEvents calls for one event: the offset and the line it produces, if any. */
    method HandleEvent(e: Event) returns (offsets: seq<Offset>, printed: seq<string>)
      requires Valid() && (e.KeyEvent? ==> 0 <= e.key < KEY_COUNT)
      modifies this, keys
      ensures Valid()
      ensures State() == ControlsStep(old(State()), |shaders|, e)
      ensures spinning == ToggleStep(old(spinning), KEY_P, e) && orientationY == old(orientationY)
      ensures offsets == MouseEventStep(old(Tracker()), e).1
      ensures printed == AnnouncementStep(shaders, e)
    {
      match e {
        case KeyEvent(key, action) =>
          var line := KeyCallback(key, action);
          offsets := [];
          printed := if line.Some? then [line.value] else [];
        case CursorEvent(x, y) =>
          var offset := MouseCallback(x, y);
          offsets, printed := [offset], [];
        case WindowClose =>
          closeRequested := true;
          offsets, printed := [], [];
      }
    }

    /** glfwPollEvents: each event goes to its callback, in order. */
    method PollEvents(events: seq<Event>) returns (offsets: seq<Offset>, printed: seq<string>)
      requires Valid() && ValidEvents(events)
      modifies this, keys
      ensures Valid()
      ensures State() == ControlsAfter(old(State()), |shaders|, events)
      ensures spinning == ToggleAfter(old(spinning), KEY_P, events) && orientationY == old(orientationY)
      ensures offsets == MouseAfter(old(Tracker()), events).1
      ensures printed == Announcements(shaders, events)
    {
      offsets, printed := [], [];
      ghost var state0, spinning0, orientation0 := State(), spinning, orientationY;
      ghost var done: seq<Event> := [];
      var i := 0;
      while i < |events|
        invariant 0 <= i <= |events| && done == events[..i] && Valid() && ValidEvents(done)
        invariant PolledAt(shaders, state0, done, State(), offsets, printed)
        invariant spinning == ToggleAfter(spinning0, KEY_P, done) && orientationY == orientation0
      {
        var e := events[i];
        PolledOneMore(shaders, state0, done, e, State(), offsets, printed);
        ToggleOneMore(done, e, spinning0, KEY_P);
        var eventOffsets, eventPrinted := HandleEvent(e);
        offsets, printed := offsets + eventOffsets, printed + eventPrinted;
        done := done + [e];
        i := i + 1;
      }
      assert done == events;
    }

    /** The animated rotation of the render loop: orientationY += deltaTime * spin_speed while spinning. */
    method AdvanceSpin(deltaTime: real)
      modifies this
      ensures orientationY == SpinStep(old(orientationY), spinning, deltaTime)
      ensures spinning == old(spinning) && currentSubroutine == old(currentSubroutine)
      ensures wireframe == old(wireframe) && closeRequested == old(closeRequested)
      ensures Tracker() == old(Tracker())
    {
      if spinning {
        orientationY := orientationY + deltaTime * SPIN_SPEED;
      }
    }

    /** One iteration of the render loop: poll events, move the camera, advance the rotation. */
    method Frame(input: FrameInput) returns (moves: seq<CameraCommand>, offsets: seq<Offset>, printed: seq<string>)
      requires Valid() && ValidEvents(input.events)
      modifies this, keys
      ensures Valid()
      ensures State() == ControlsAfter(old(State()), |shaders|, input.events)
      ensures closeRequested == CloseAfter(old(closeRequested), input.events)
      ensures offsets == MouseAfter(old(Tracker()), input.events).1
      ensures printed == Announcements(shaders, input.events)
      ensures moves == CameraMoves(keys[..], input.deltaTime)
      ensures (orientationY, spinning) == SpinAcross(old(orientationY), old(spinning), [input])
      ensures FrameOutput(moves, offsets, printed) == FrameOutputs(shaders, old(State()), input)
    {
      ControlsAfterParts(State(), |shaders|, input.events);
      offsets, printed := PollEvents(input.events);
      moves := ApplyCameraMovements(input.deltaTime);
      AdvanceSpin(input.deltaTime);
      assert [input][..0] == [];
    }

    /**
      The render loop: frames run while the window has not been asked to close.
      The frame whose events ask to close the window still runs in full; no
      later one does (FramesRunStopsAtClose).
      The controls are those of all the events of the frames that ran, in order;
      each frame's outputs are those of its events from the state the frames
      before it left; the angle and the spinning flag follow SpinAcross.
    */
    method Run(frames: seq<FrameInput>) returns (rendered: nat, outputs: seq<FrameOutput>)
      requires Valid() && FramesValid(frames)
      modifies this, keys
      ensures Valid()
      ensures rendered == if old(closeRequested) then 0 else FramesRun(frames)
      ensures closeRequested == (old(closeRequested) || (rendered > 0 && HasCloseRequest(frames[rendered - 1].events)))
      ensures State() == StateThrough(old(State()), |shaders|, frames, rendered)
      ensures State() == ControlsAfter(old(State()), |shaders|, EventsThrough(frames, rendered))
      ensures (orientationY, spinning) == SpinAcross(old(orientationY), old(spinning), frames[..rendered])
      ensures outputs == OutputsOf(shaders, old(State()), frames, rendered)
    {
      ghost var state0, spin0 := State(), (orientationY, spinning);
      rendered, outputs := LoopWhileOpen(frames);
      RunStops(state0, |shaders|, frames, rendered);
      StateThroughIsReplay(state0, |shaders|, frames, rendered);
    }

    /** The while loop of main: one frame at a time while the close flag is clear, keeping RunAt. */
    method LoopWhileOpen(frames: seq<FrameInput>) returns (rendered: nat, outputs: seq<FrameOutput>)
      requires Valid() && FramesValid(frames)
      modifies this, keys
      ensures Valid() && (rendered == |frames| || closeRequested)
      ensures RunAt(shaders, old(State()), (old(orientationY), old(spinning)), frames, rendered, State(), (orientationY, spinning), outputs)
    {
      ghost var state0, spin0 := State(), (orientationY, spinning);
      rendered, outputs := 0, [];
      assert frames[..0] == [];
      while rendered < |frames| && !closeRequested
        invariant Valid()
        invariant RunAt(shaders, state0, spin0, frames, rendered, State(), (orientationY, spinning), outputs)
      {
        RunOneMore(shaders, state0, spin0, frames, rendered, State(), (orientationY, spinning), outputs);
        var moves, offsets, printed := Frame(frames[rendered]);
        outputs := outputs + [FrameOutput(moves, offsets, printed)];
        rendered := rendered + 1;
      }
    }
  }
}
