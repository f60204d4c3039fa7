/**
  The input/state controller shared by both programs: what one GLFW key or
  cursor event does to the controller's state, stated as pure functions over
  values, together with their replays over a sequence of events.  The classes in
  rainsnow.dfy and work04b.dfy hold the same state in mutable fields and are
  proved against these functions.
*/
module Input {
  import opened Wrappers

  // GLFW key codes used by the callbacks.
  const KEY_COUNT: int := 1024      // size of the keys[] array
  const KEY_ESCAPE: int := 256
  const KEY_L: int := 76
  const KEY_P: int := 80
  const KEY_W: int := 87
  const KEY_S: int := 83
  const KEY_A: int := 65
  const KEY_D: int := 68
  const KEY_1: int := 49
  const KEY_9: int := 57

  /** GLFW_RELEASE (0), GLFW_PRESS (1), GLFW_REPEAT (2). */
  datatype Action = Release | Press | Repeat

  /**
    One event processed by glfwPollEvents: a key or cursor event for the
    registered callbacks, or the window system's request to close the window,
    which sets the window's close flag without any callback.
  */
  datatype Event = KeyEvent(key: int, action: Action) | CursorEvent(x: real, y: real) | WindowClose

  /** The events glfwPollEvents delivers in one iteration of the render loop, and the frame's delta time. */
  datatype FrameInput = FrameInput(events: seq<Event>, deltaTime: real)

  /** An event that makes glfwWindowShouldClose true: a press of ESC, or closing the window. */
  predicate AsksToClose(e: Event) {
    e == KeyEvent(KEY_ESCAPE, Press) || e == WindowClose
  }

  /** Some event asks to close the window. */
  predicate HasCloseRequest(events: seq<Event>) {
    exists i :: 0 <= i < |events| && AsksToClose(events[i])
  }

  /** A key event may only carry a key that indexes keys[]. */
  predicate ValidEvents(events: seq<Event>) {
    forall i :: 0 <= i < |events| && events[i].KeyEvent? ==> 0 <= events[i].key < KEY_COUNT
  }

  // ---------------------------------------------------------------------------
  // Shader-variant selection by number key

  /** The key that selects the variant at position i. */
  function KeyForVariant(i: nat): int {
    KEY_1 + i
  }

  /** The index key - '0' - 1 computed for the keys '1' to '9'; no index for any other key. */
  function VariantForKey(key: int): (r: Option<nat>)
    ensures r.Some? <==> KEY_1 <= key <= KEY_9
    ensures r.Some? ==> r.value < 9 && KeyForVariant(r.value) == key
  {
    if KEY_1 <= key <= KEY_9 then Some(key - ('0' as int) - 1) else None
  }

  /** A press of a number key whose index is a position of the variant list. */
  predicate Accepted(count: nat, key: int, action: Action) {
    action == Press && VariantForKey(key).Some? && VariantForKey(key).value < count
  }

  /** The current variant index after one key event, with `count` variants. */
  function SelectVariant(current: nat, count: nat, key: int, action: Action): (r: nat)
    ensures Accepted(count, key, action) ==> KeyForVariant(r) == key && r < count
    ensures !Accepted(count, key, action) ==> r == current
    ensures current < count ==> r < count
  {
    if Accepted(count, key, action) then VariantForKey(key).value else current
  }

  /** The text PrintCurrentShader prints before the variant's name. */
  const MESSAGE_PREFIX: string := "Current shader subroutine: "

  /** The line PrintCurrentShader writes for position i: the prefix, then the name at i. */
  function ShaderMessage(shaders: seq<string>, i: nat): (line: string)
    requires i < |shaders|
    ensures |line| == |MESSAGE_PREFIX| + |shaders[i]|
    ensures line[..|MESSAGE_PREFIX|] == MESSAGE_PREFIX && line[|MESSAGE_PREFIX|..] == shaders[i]
  {
    MESSAGE_PREFIX + shaders[i]
  }

  // ---------------------------------------------------------------------------
  // Flags toggled or set by a single key press

  /** A flag flipped by each press of `target` (L for wireframe, P for spinning). */
  function Toggle(flag: bool, target: int, key: int, action: Action): (r: bool)
    ensures r != flag <==> key == target && action == Press
  {
    if key == target && action == Press then !flag else flag
  }

  /** The window-should-close request: set by a press of ESC and never cleared. */
  function RequestClose(close: bool, key: int, action: Action): (r: bool)
    ensures close ==> r
    ensures r != close <==> !close && key == KEY_ESCAPE && action == Press
  {
    close || (key == KEY_ESCAPE && action == Press)
  }

  // ---------------------------------------------------------------------------
  // The keys[] table

  /** keys[] after one key event: set on press, cleared on release, kept on repeat. */
  function KeysAfter(keys: seq<bool>, key: int, action: Action): (r: seq<bool>)
    requires 0 <= key < |keys|
    ensures |r| == |keys|
    ensures action == Press ==> r[key]
    ensures action == Release ==> !r[key]
    ensures action == Repeat ==> r[key] == keys[key]
    ensures forall j :: 0 <= j < |keys| && j != key ==> r[j] == keys[j]
  {
    match action
    case Press => keys[key := true]
    case Release => keys[key := false]
    case Repeat => keys
  }

  // ---------------------------------------------------------------------------
  // Mouse tracking

  /** firstMouse, lastX and lastY. */
  datatype Mouse = Mouse(first: bool, lastX: real, lastY: real)

  /** The offset handed to the camera. */
  datatype Offset = Offset(dx: real, dy: real)

  /** The globals at program start: firstMouse is true, lastX and lastY are zero. */
  const InitialMouse: Mouse := Mouse(true, 0.0, 0.0)

  /** One cursor event: the new tracker state and the offset passed to the camera. */
  function MouseStep(m: Mouse, x: real, y: real): (r: (Mouse, Offset))
    ensures r.0 == Mouse(false, x, y)
    ensures m.first ==> r.1 == Offset(0.0, 0.0)
    ensures !m.first ==> x == m.lastX + r.1.dx && y == m.lastY - r.1.dy
  {
    var lx := if m.first then x else m.lastX;
    var ly := if m.first then y else m.lastY;
    (Mouse(false, x, y), Offset(x - lx, ly - y))
  }

  // ---------------------------------------------------------------------------
  // Camera movement from held keys

  datatype Movement = Forward | Backward | Left | Right

  /** Camera::ProcessKeyboard(direction, deltaTime), the only call the camera receives from the keys. */
  datatype CameraCommand = ProcessKeyboard(direction: Movement, deltaTime: real)

  /** The key that drives each movement. */
  function MovementKey(m: Movement): int {
    match m
    case Forward => KEY_W
    case Backward => KEY_S
    case Left => KEY_A
    case Right => KEY_D
  }

  /** The position of each movement in the order the source tests the keys. */
  function Rank(m: Movement): nat {
    match m
    case Forward => 0
    case Backward => 1
    case Left => 2
    case Right => 3
  }

  function MoveIf(held: bool, m: Movement, deltaTime: real): seq<CameraCommand> {
    if held then [ProcessKeyboard(m, deltaTime)] else []
  }

  /** The commands issued for the held keys W, S, A and D. */
  function CameraMoves(keys: seq<bool>, deltaTime: real): (r: seq<CameraCommand>)
    requires |keys| == KEY_COUNT
    ensures |r| <= 4
  {
    MoveIf(keys[KEY_W], Forward, deltaTime)
    + MoveIf(keys[KEY_S], Backward, deltaTime)
    + MoveIf(keys[KEY_A], Left, deltaTime)
    + MoveIf(keys[KEY_D], Right, deltaTime)
  }

  // ---------------------------------------------------------------------------
  // Replays over a sequence of events (folds over the last event)

  function Prefix(events: seq<Event>): seq<Event>
    requires events != []
  {
    events[..|events| - 1]
  }

  function LastOf(events: seq<Event>): Event
    requires events != []
  {
    events[|events| - 1]
  }

  // One event, as the dispatch to key_callback or mouse_callback sees it.

  function VariantStep(current: nat, count: nat, e: Event): nat {
    if e.KeyEvent? then SelectVariant(current, count, e.key, e.action) else current
  }

  function ToggleStep(flag: bool, target: int, e: Event): bool {
    if e.KeyEvent? then Toggle(flag, target, e.key, e.action) else flag
  }

  function CloseStep(close: bool, e: Event): bool {
    match e
    case KeyEvent(key, action) => RequestClose(close, key, action)
    case CursorEvent(_, _) => close
    case WindowClose => true
  }

  function KeysStep(keys: seq<bool>, e: Event): seq<bool>
    requires e.KeyEvent? ==> 0 <= e.key < |keys|
  {
    if e.KeyEvent? then KeysAfter(keys, e.key, e.action) else keys
  }

  /** The tracker after one event, and the offset it hands to the camera if it is a cursor event. */
  function MouseEventStep(m: Mouse, e: Event): (Mouse, seq<Offset>) {
    if e.CursorEvent? then (MouseStep(m, e.x, e.y).0, [MouseStep(m, e.x, e.y).1]) else (m, [])
  }

  /** The line printed for one event: the new variant's name after an accepted selection. */
  function AnnouncementStep(shaders: seq<string>, e: Event): seq<string> {
    if e.KeyEvent? && Accepted(|shaders|, e.key, e.action)
    then [ShaderMessage(shaders, VariantForKey(e.key).value)] else []
  }

  /** The variant index after a sequence of events: always a valid position if it started as one. */
  function VariantAfter(current: nat, count: nat, events: seq<Event>): nat
    decreases |events|
  {
    if events == [] then current
    else VariantStep(VariantAfter(current, count, Prefix(events)), count, LastOf(events))
  }

  /** The lines PrintCurrentShader prints during a sequence of events: one per accepted selection. */
  function Announcements(shaders: seq<string>, events: seq<Event>): (r: seq<string>)
    ensures |r| <= |events|
    decreases |events|
  {
    if events == [] then []
    else Announcements(shaders, Prefix(events)) + AnnouncementStep(shaders, LastOf(events))
  }

  /** An event that selects a variant: an accepted press of a number key. */
  predicate Selects(count: nat, e: Event) {
    e.KeyEvent? && Accepted(count, e.key, e.action)
  }

  /** The number of selections among the events. */
  function Selections(count: nat, events: seq<Event>): nat
    decreases |events|
  {
    if events == [] then 0
    else Selections(count, Prefix(events)) + (if Selects(count, LastOf(events)) then 1 else 0)
  }

  /** A flag toggled by `target` after a sequence of events. */
  function ToggleAfter(flag: bool, target: int, events: seq<Event>): bool
    decreases |events|
  {
    if events == [] then flag
    else ToggleStep(ToggleAfter(flag, target, Prefix(events)), target, LastOf(events))
  }

  /** The number of presses of `target` in a sequence of events. */
  function Presses(target: int, events: seq<Event>): nat
    decreases |events|
  {
    if events == [] then 0
    else Presses(target, Prefix(events)) + (if LastOf(events) == KeyEvent(target, Press) then 1 else 0)
  }

  function Odd(n: nat): bool {
    n % 2 == 1
  }

  /** The close request after a sequence of events: set exactly when it was set or ESC was pressed. */
  function CloseAfter(close: bool, events: seq<Event>): bool
    decreases |events|
  {
    if events == [] then close
    else CloseStep(CloseAfter(close, Prefix(events)), LastOf(events))
  }

  /** keys[] after a sequence of events. */
  function KeysAfterAll(keys: seq<bool>, events: seq<Event>): (r: seq<bool>)
    requires |keys| == KEY_COUNT && ValidEvents(events)
    ensures |r| == KEY_COUNT
    decreases |events|
  {
    if events == [] then keys
    else KeysStep(KeysAfterAll(keys, Prefix(events)), LastOf(events))
  }

  /** The state of key k given by the last press or release of k, or `initial` if there is none. */
  function LastEdge(initial: bool, k: int, events: seq<Event>): bool
    decreases |events|
  {
    if events == [] then initial
    else if LastOf(events) == KeyEvent(k, Press) then true
    else if LastOf(events) == KeyEvent(k, Release) then false
    else LastEdge(initial, k, Prefix(events))
  }

  /** The mouse tracker and the offsets handed to the camera, after a sequence of events. */
  function MouseAfter(m: Mouse, events: seq<Event>): (r: (Mouse, seq<Offset>))
    decreases |events|
  {
    if events == [] then (m, [])
    else
      var prev := MouseAfter(m, Prefix(events));
      var step := MouseEventStep(prev.0, LastOf(events));
      (step.0, prev.1 + step.1)
  }

  /** The controller state both programs keep: variant, wireframe flag, close request, keys[] and mouse tracker. */
  datatype Controls = Controls(variant: nat, wireframe: bool, close: bool, keys: seq<bool>, mouse: Mouse)

  /** The controller state after one event: each part takes its own step. */
  function ControlsStep(c: Controls, count: nat, e: Event): Controls
    requires |c.keys| == KEY_COUNT && (e.KeyEvent? ==> 0 <= e.key < KEY_COUNT)
  {
    Controls(VariantStep(c.variant, count, e), ToggleStep(c.wireframe, KEY_L, e), CloseStep(c.close, e),
             KeysStep(c.keys, e), MouseEventStep(c.mouse, e).0)
  }

  /** The controller state after a sequence of events, one step per event. */
  function ControlsAfter(c: Controls, count: nat, events: seq<Event>): (r: Controls)
    requires |c.keys| == KEY_COUNT && ValidEvents(events)
    ensures |r.keys| == KEY_COUNT
    ensures c.variant < count ==> r.variant < count
    decreases |events|
  {
    if events == [] then c
    else ControlsStep(ControlsAfter(c, count, Prefix(events)), count, LastOf(events))
  }

  /** Each part of the replayed controller state is the replay of that part alone. */
  lemma {:induction false} ControlsAfterParts(c: Controls, count: nat, events: seq<Event>)
    requires |c.keys| == KEY_COUNT && ValidEvents(events)
    ensures ControlsAfter(c, count, events)
      == Controls(VariantAfter(c.variant, count, events), ToggleAfter(c.wireframe, KEY_L, events),
                  CloseAfter(c.close, events), KeysAfterAll(c.keys, events), MouseAfter(c.mouse, events).0)
    decreases |events|
  {
    if events != [] {
      ControlsAfterParts(c, count, Prefix(events));
    }
  }

  /** Replaying one more event is one more step from the replay of the events before it. */
  lemma ControlsOneMore(c: Controls, count: nat, events: seq<Event>, e: Event, shaders: seq<string>)
    requires |c.keys| == KEY_COUNT && ValidEvents(events) && (e.KeyEvent? ==> 0 <= e.key < KEY_COUNT)
    ensures ValidEvents(events + [e])
    ensures ControlsAfter(c, count, events + [e]) == ControlsStep(ControlsAfter(c, count, events), count, e)
    ensures MouseAfter(c.mouse, events + [e]).1
      == MouseAfter(c.mouse, events).1 + MouseEventStep(ControlsAfter(c, count, events).mouse, e).1
    ensures Announcements(shaders, events + [e]) == Announcements(shaders, events) + AnnouncementStep(shaders, e)
  {
    assert Prefix(events + [e]) == events;
    ControlsAfterParts(c, count, events);
  }

  /** What glfwPollEvents has done after the events `done`: the controls, the mouse offsets and the lines printed. */
  ghost predicate PolledAt(shaders: seq<string>, start: Controls, done: seq<Event>,
                           c: Controls, offsets: seq<Offset>, printed: seq<string>)
    requires |start.keys| == KEY_COUNT && ValidEvents(done)
  {
    c == ControlsAfter(start, |shaders|, done)
    && offsets == MouseAfter(start.mouse, done).1
    && printed == Announcements(shaders, done)
  }

  /** Handling one more event keeps PolledAt. */
  lemma PolledOneMore(shaders: seq<string>, start: Controls, done: seq<Event>, e: Event,
                      c: Controls, offsets: seq<Offset>, printed: seq<string>)
    requires |start.keys| == KEY_COUNT && ValidEvents(done) && (e.KeyEvent? ==> 0 <= e.key < KEY_COUNT)
    requires PolledAt(shaders, start, done, c, offsets, printed)
    ensures ValidEvents(done + [e])
    ensures PolledAt(shaders, start, done + [e], ControlsStep(c, |shaders|, e),
                     offsets + MouseEventStep(c.mouse, e).1, printed + AnnouncementStep(shaders, e))
  {
    ControlsOneMore(start, |shaders|, done, e, shaders);
  }

  lemma ToggleOneMore(events: seq<Event>, e: Event, flag: bool, target: int)
    ensures ToggleAfter(flag, target, events + [e]) == ToggleStep(ToggleAfter(flag, target, events), target, e)
  {
    assert Prefix(events + [e]) == events;
  }

  function SumDx(offsets: seq<Offset>): real
    decreases |offsets|
  {
    if offsets == [] then 0.0 else SumDx(offsets[..|offsets| - 1]) + offsets[|offsets| - 1].dx
  }

  function SumDy(offsets: seq<Offset>): real
    decreases |offsets|
  {
    if offsets == [] then 0.0 else SumDy(offsets[..|offsets| - 1]) + offsets[|offsets| - 1].dy
  }

  // ---------------------------------------------------------------------------
  // Properties

  /** Each number key selects its own index. */
  lemma VariantKeyRoundTrip(i: nat)
    requires i < 9
    ensures VariantForKey(KeyForVariant(i)) == Some(i)
  {
  }

  /** Two presses of the toggle key restore the flag. */
  lemma ToggleTwiceRestores(flag: bool, target: int)
    ensures Toggle(Toggle(flag, target, target, Press), target, target, Press) == flag
  {
  }

  /** A toggled flag ends up flipped exactly when its key was pressed an odd number of times. */
  lemma {:induction false} ToggleParity(flag: bool, target: int, events: seq<Event>)
    ensures ToggleAfter(flag, target, events) == (flag != Odd(Presses(target, events)))
    decreases |events|
  {
    if events != [] {
      ToggleParity(flag, target, Prefix(events));
    }
  }

  /** keys[k] after any sequence of events is given by the last press or release of k alone. */
  lemma {:induction false} KeyIsLastEdge(keys: seq<bool>, events: seq<Event>, k: int)
    requires |keys| == KEY_COUNT && ValidEvents(events) && 0 <= k < KEY_COUNT
    ensures KeysAfterAll(keys, events)[k] == LastEdge(keys[k], k, events)
    decreases |events|
  {
    if events != [] {
      assert ValidEvents(Prefix(events));
      KeyIsLastEdge(keys, Prefix(events), k);
    }
  }

  /** After the first cursor event, the offsets handed to the camera add up to the cursor's displacement. */
  lemma {:induction false} OffsetsTelescope(m: Mouse, events: seq<Event>)
    requires !m.first
    ensures var (m', offsets) := MouseAfter(m, events);
      SumDx(offsets) == m'.lastX - m.lastX && SumDy(offsets) == m.lastY - m'.lastY
    decreases |events|
  {
    if events != [] {
      OffsetsTelescope(m, Prefix(events));
      var prev := MouseAfter(m, Prefix(events));
      var offsets := MouseAfter(m, events).1;
      if LastOf(events).CursorEvent? {
        assert !prev.0.first by { MouseNotFirst(m, Prefix(events)); }
        assert offsets[..|offsets| - 1] == prev.1;
      } else {
        assert offsets == prev.1 + [] == prev.1;
      }
    }
  }

  /** Once the tracker has seen a cursor event it never reports a first event again. */
  lemma {:induction false} MouseNotFirst(m: Mouse, events: seq<Event>)
    requires !m.first
    ensures !MouseAfter(m, events).0.first
    decreases |events|
  {
    if events != [] {
      MouseNotFirst(m, Prefix(events));
    }
  }

  /** Whatever the starting tracker, the first cursor event handed to the camera moves it by nothing. */
  lemma {:induction false} FirstOffsetIsZero(m: Mouse, events: seq<Event>)
    requires m.first
    ensures var offsets := MouseAfter(m, events).1;
      offsets != [] ==> offsets[0] == Offset(0.0, 0.0)
    ensures MouseAfter(m, events).1 == [] ==> MouseAfter(m, events).0 == m
    decreases |events|
  {
    if events != [] {
      FirstOffsetIsZero(m, Prefix(events));
    }
  }

  /** A replay keeps the variant index valid, and only ever lands on an index a number key selects. */
  lemma {:induction false} VariantAfterInRange(current: nat, count: nat, events: seq<Event>)
    ensures var r := VariantAfter(current, count, events);
      (current < count ==> r < count) && (r == current || r < 9)
    decreases |events|
  {
    if events != [] {
      VariantAfterInRange(current, count, Prefix(events));
    }
  }

  /** Without a selection among the events, the variant stays where it was. */
  lemma {:induction false} VariantKeptWithoutSelection(current: nat, count: nat, events: seq<Event>)
    requires forall i :: 0 <= i < |events| ==> !Selects(count, events[i])
    ensures VariantAfter(current, count, events) == current
    decreases |events|
  {
    if events != [] {
      var p := Prefix(events);
      assert !Selects(count, events[|events| - 1]);
      forall i | 0 <= i < |p|
        ensures !Selects(count, p[i])
      {
        assert p[i] == events[i];
      }
      VariantKeptWithoutSelection(current, count, p);
    }
  }

  /** The variant after a replay is the one picked by the last selection: the key's distance from '1'. */
  lemma {:induction false} VariantIsLastSelection(current: nat, count: nat, events: seq<Event>, i: nat)
    requires i < |events| && Selects(count, events[i])
    requires forall j :: i < j < |events| ==> !Selects(count, events[j])
    ensures VariantAfter(current, count, events) == events[i].key - KEY_1
    decreases |events|
  {
    var n := |events| - 1;
    if i < n {
      var p := Prefix(events);
      assert !Selects(count, events[n]);
      assert p[i] == events[i];
      forall j | i < j < |p|
        ensures !Selects(count, p[j])
      {
        assert p[j] == events[j];
      }
      VariantIsLastSelection(current, count, p, i);
    }
  }

  /**
    PrintCurrentShader runs once per selection, and the last line printed names
    the variant the replay ends on.
  */
  lemma {:induction false} AnnouncementsAreSelections(shaders: seq<string>, current: nat, events: seq<Event>)
    ensures |Announcements(shaders, events)| == Selections(|shaders|, events)
    ensures var lines := Announcements(shaders, events);
      lines != [] ==>
        VariantAfter(current, |shaders|, events) < |shaders|
        && lines[|lines| - 1] == ShaderMessage(shaders, VariantAfter(current, |shaders|, events))
    decreases |events|
  {
    if events != [] {
      AnnouncementsAreSelections(shaders, current, Prefix(events));
    }
  }

  /** The window is asked to close after a sequence of events exactly when it already was or an event asked to close it. */
  lemma {:induction false} CloseIffRequested(close: bool, events: seq<Event>)
    ensures CloseAfter(close, events) <==> close || HasCloseRequest(events)
    decreases |events|
  {
    if events != [] {
      var prefix := Prefix(events);
      CloseIffRequested(close, prefix);
      if HasCloseRequest(prefix) {
        var i :| 0 <= i < |prefix| && AsksToClose(prefix[i]);
        assert events[i] == prefix[i];
      }
      if AsksToClose(LastOf(events)) {
        assert AsksToClose(events[|events| - 1]);
      }
    }
  }

  // ---------------------------------------------------------------------------
  // The render loop's exit

  /**
    The number of frames the render loop runs when the window starts open: every
    frame up to and including the first whose events ask to close the window, or all of them.
  */
  function FramesRun(frames: seq<FrameInput>): (r: nat)
    ensures r <= |frames|
    decreases |frames|
  {
    if frames == [] then 0
    else if HasCloseRequest(frames[0].events) then 1
    else 1 + FramesRun(frames[1..])
  }

  /** The frames that run end at the first close request: none before it asks to close, and the loop stops right after it. */
  lemma {:induction false} FramesRunStopsAtClose(frames: seq<FrameInput>)
    ensures frames != [] ==> FramesRun(frames) > 0
    ensures forall j :: 0 <= j < FramesRun(frames) - 1 ==> !HasCloseRequest(frames[j].events)
    ensures FramesRun(frames) < |frames| ==> HasCloseRequest(frames[FramesRun(frames) - 1].events)
    decreases |frames|
  {
    if frames != [] && !HasCloseRequest(frames[0].events) {
      var rest := frames[1..];
      FramesRunStopsAtClose(rest);
      forall j | 0 <= j < FramesRun(frames) - 1
        ensures !HasCloseRequest(frames[j].events)
      {
        if j > 0 {
          assert frames[j] == rest[j - 1];
        }
      }
      if FramesRun(frames) < |frames| {
        assert frames[FramesRun(frames) - 1] == rest[FramesRun(rest) - 1];
      }
    }
  }

  /** Conversely, frames that run up to the first close request, or to the end, are FramesRun(frames) of them. */
  lemma FramesRunIsFirstClose(frames: seq<FrameInput>, n: nat)
    requires 0 < n <= |frames|
    requires forall j :: 0 <= j < n - 1 ==> !HasCloseRequest(frames[j].events)
    requires n == |frames| || HasCloseRequest(frames[n - 1].events)
    ensures n == FramesRun(frames)
  {
    FramesRunStopsAtClose(frames);
  }

  // ---------------------------------------------------------------------------
  // The state across frames

  /** Every frame's events may be replayed. */
  predicate FramesValid(frames: seq<FrameInput>) {
    forall j :: 0 <= j < |frames| ==> ValidEvents(frames[j].events)
  }

  /** The events of the first n frames, one frame after the other. */
  function EventsThrough(frames: seq<FrameInput>, n: nat): (r: seq<Event>)
    requires n <= |frames|
    ensures FramesValid(frames) ==> ValidEvents(r)
  {
    if n == 0 then [] else EventsThrough(frames, n - 1) + frames[n - 1].events
  }

  /** The controller state after the first n frames, each replaying its own events. */
  function StateThrough(c: Controls, count: nat, frames: seq<FrameInput>, n: nat): (r: Controls)
    requires |c.keys| == KEY_COUNT && FramesValid(frames) && n <= |frames|
    ensures |r.keys| == KEY_COUNT
    ensures c.variant < count ==> r.variant < count
  {
    if n == 0 then c else ControlsAfter(StateThrough(c, count, frames, n - 1), count, frames[n - 1].events)
  }

  /** The values f(0), ..., f(n - 1): what each of the first n frames produces. */
  function PerFrame<T>(f: nat -> T, n: nat): (r: seq<T>)
    ensures |r| == n
  {
    if n == 0 then [] else PerFrame(f, n - 1) + [f(n - 1)]
  }

  /** Entry j of PerFrame(f, n) is f(j). */
  lemma {:induction false} PerFrameAt<T>(f: nat -> T, n: nat, j: nat)
    requires j < n
    ensures PerFrame(f, n)[j] == f(j)
    decreases n
  {
    if j < n - 1 {
      PerFrameAt(f, n - 1, j);
    }
  }

  /** Replaying a + b is replaying b from the state a leaves. */
  lemma {:induction false} ControlsAppend(c: Controls, count: nat, a: seq<Event>, b: seq<Event>)
    requires |c.keys| == KEY_COUNT && ValidEvents(a) && ValidEvents(b)
    ensures ValidEvents(a + b)
    ensures ControlsAfter(c, count, a + b) == ControlsAfter(ControlsAfter(c, count, a), count, b)
    decreases |b|
  {
    if b == [] {
      assert a + b == a;
    } else {
      assert Prefix(a + b) == a + Prefix(b);
      assert LastOf(a + b) == LastOf(b);
      ControlsAppend(c, count, a, Prefix(b));
    }
  }

  /** Frame by frame, the state is the replay of all the frames' events in one sequence. */
  lemma {:induction false} StateThroughIsReplay(c: Controls, count: nat, frames: seq<FrameInput>, n: nat)
    requires |c.keys| == KEY_COUNT && FramesValid(frames) && n <= |frames|
    ensures StateThrough(c, count, frames, n) == ControlsAfter(c, count, EventsThrough(frames, n))
    decreases n
  {
    if n > 0 {
      StateThroughIsReplay(c, count, frames, n - 1);
      ControlsAppend(c, count, EventsThrough(frames, n - 1), frames[n - 1].events);
    }
  }

  /** The close flag after n + 1 frames: set after n frames, or asked for by frame n's events. */
  lemma CloseThroughStep(c: Controls, count: nat, frames: seq<FrameInput>, n: nat)
    requires |c.keys| == KEY_COUNT && FramesValid(frames) && n < |frames|
    ensures StateThrough(c, count, frames, n + 1).close
      == (StateThrough(c, count, frames, n).close || HasCloseRequest(frames[n].events))
  {
    ControlsAfterParts(StateThrough(c, count, frames, n), count, frames[n].events);
    CloseIffRequested(StateThrough(c, count, frames, n).close, frames[n].events);
  }

  /** While the flag is clear after n frames, it was clear at the start and none of those frames asked to close. */
  lemma {:induction false} OpenThrough(c: Controls, count: nat, frames: seq<FrameInput>, n: nat)
    requires |c.keys| == KEY_COUNT && FramesValid(frames) && n <= |frames|
    requires !StateThrough(c, count, frames, n).close
    ensures !c.close
    ensures forall j :: 0 <= j < n ==> !HasCloseRequest(frames[j].events)
    decreases n
  {
    if n > 0 {
      CloseThroughStep(c, count, frames, n - 1);
      OpenThrough(c, count, frames, n - 1);
    }
  }

  /**
    The render loop runs a frame while the close flag is clear. If it stops
    after n frames, with the flag clear before the last of them, it ran none
    when the window was closing from the start and FramesRun(frames) otherwise;
    the flag is then set exactly when it was set at the start or the last
    frame asked to close.
  */
  lemma RunStops(c: Controls, count: nat, frames: seq<FrameInput>, n: nat)
    requires |c.keys| == KEY_COUNT && FramesValid(frames) && n <= |frames|
    requires n > 0 ==> !StateThrough(c, count, frames, n - 1).close
    requires n == |frames| || StateThrough(c, count, frames, n).close
    ensures n == if c.close then 0 else FramesRun(frames)
    ensures StateThrough(c, count, frames, n).close == (c.close || (n > 0 && HasCloseRequest(frames[n - 1].events)))
  {
    if n > 0 {
      CloseThroughStep(c, count, frames, n - 1);
      OpenThrough(c, count, frames, n - 1);
      FramesRunIsFirstClose(frames, n);
    }
  }

  /** Every command carries deltaTime and ranks below `bound`, and each ranks above the one before it. */
  predicate RankedBelow(r: seq<CameraCommand>, deltaTime: real, bound: nat) {
    (forall i :: 0 <= i < |r| ==> r[i].deltaTime == deltaTime && Rank(r[i].direction) < bound)
    && (forall i :: 0 < i < |r| ==> Rank(r[i - 1].direction) < Rank(r[i].direction))
  }

  lemma MoveIfExtends(r: seq<CameraCommand>, held: bool, m: Movement, deltaTime: real)
    requires RankedBelow(r, deltaTime, Rank(m))
    ensures RankedBelow(r + MoveIf(held, m, deltaTime), deltaTime, Rank(m) + 1)
  {
    var r' := r + MoveIf(held, m, deltaTime);
    assert forall i :: 0 <= i < |r| ==> r'[i] == r[i];
  }

  /** apply_camera_movements moves the camera in exactly the directions whose key is held. */
  lemma HeldKeysMoveCamera(keys: seq<bool>, deltaTime: real)
    requires |keys| == KEY_COUNT
    ensures forall m :: ProcessKeyboard(m, deltaTime) in CameraMoves(keys, deltaTime) <==> keys[MovementKey(m)]
  {
    var w := MoveIf(keys[KEY_W], Forward, deltaTime);
    var s := MoveIf(keys[KEY_S], Backward, deltaTime);
    var a := MoveIf(keys[KEY_A], Left, deltaTime);
    var d := MoveIf(keys[KEY_D], Right, deltaTime);
    var r := CameraMoves(keys, deltaTime);
    assert r == w + s + a + d;
    forall m
      ensures ProcessKeyboard(m, deltaTime) in r <==> keys[MovementKey(m)]
    {
      var c := ProcessKeyboard(m, deltaTime);
      assert c in r <==> c in w || c in s || c in a || c in d;
    }
  }

  /** The moves for W and S, then for W, S and A, are ranked below Backward's and Left's successors. */
  lemma FirstMovesRanked(keys: seq<bool>, deltaTime: real)
    requires |keys| == KEY_COUNT
    ensures RankedBelow(MoveIf(keys[KEY_W], Forward, deltaTime) + MoveIf(keys[KEY_S], Backward, deltaTime), deltaTime, 2)
  {
    var w := MoveIf(keys[KEY_W], Forward, deltaTime);
    assert RankedBelow(w, deltaTime, 1);
    MoveIfExtends(w, keys[KEY_S], Backward, deltaTime);
  }

  /** Each move is by deltaTime, and the moves come in the order W, S, A, D, each at most once. */
  lemma CameraMovesInOrder(keys: seq<bool>, deltaTime: real)
    requires |keys| == KEY_COUNT
    ensures var r := CameraMoves(keys, deltaTime);
      (forall i :: 0 <= i < |r| ==> r[i].deltaTime == deltaTime)
      && (forall i :: 0 < i < |r| ==> Rank(r[i - 1].direction) < Rank(r[i].direction))
  {
    var ws := MoveIf(keys[KEY_W], Forward, deltaTime) + MoveIf(keys[KEY_S], Backward, deltaTime);
    FirstMovesRanked(keys, deltaTime);
    MoveIfExtends(ws, keys[KEY_A], Left, deltaTime);
    MoveIfExtends(ws + MoveIf(keys[KEY_A], Left, deltaTime), keys[KEY_D], Right, deltaTime);
  }
}
