# RainSnow: input controller and shadow-mapping render schedule

This project models two OpenGL demos from a real-time graphics course:
`bin/bin/RainSnow.cpp`, a scene lit with shadow mapping, and
`work/work04b/work04b.cpp`, a spinning model with several shader variants.
It covers the two parts of them that are plain logic rather than GPU work.

* **The input controller** is shared by both programs. Its parts:
  - `key_callback` handles ESC (close), L (wireframe), P (spinning, only in work04b), the number keys (which choose the shading subroutine) and the 1024-entry `keys[]` table.
  - `mouse_callback` tracks the cursor with `firstMouse`, `lastX` and `lastY`.
  - `apply_camera_movements` turns the held W/S/A/D keys into camera commands.
  - `PrintCurrentShader` prints the selected subroutine's name.
  - The render loop dispatches the events of each frame to these callbacks.
  - In work04b, the render loop also advances `orientationY` while spinning is on.

  Module `Input` (`input.dfy`) states what one event does to the controller state as pure functions. It also states replays of those functions over a sequence of events, and lemmas about them. Classes `RainSnow.Controller` (`rainsnow.dfy`) and `Work04b.Controller` (`work04b.dfy`) hold that state in mutable fields and a `keys` array, as the programs' globals do. Their methods are proved against the functions of `Input`.
* **The per-frame render schedule of RainSnow.cpp** covers the depth pass into the shadow-map framebuffer, then the lit pass into the window, and `RenderObjects`. Module `Pipeline` (`pipeline.dfy`) writes them as functions that return the log of GL commands they issue, with matrices left opaque. A small interpreter of the GL state that these commands change (`Exec`, `Draws`) serves as the reference. The schedule's properties are stated as the state each draw call sees:
  - which program and framebuffer are in use;
  - the viewport, the clear and the polygon mode;
  - the subroutine;
  - the texture bound to each unit and the unit each sampler uses;
  - the repeat factor and the model transform.

`RainSnow.Controller.Frame` ties the two parts together. Its `log` output is exactly `Pipeline.FrameLog` for the controller's state after the frame's events.

The render loop (`Run` in each program's module) is stated against the frames it is given:
- how many frames run;
- the controller state afterwards, as the replay of all their events;
- each frame's outputs (camera commands, mouse offsets, printed lines and, in RainSnow, the GL log), computed from the state the earlier frames left.

## Model

| member | source | states |
|---|---|---|
| Input.VariantForKey | bin/bin/RainSnow.cpp:644-652 | A key has an index exactly when it is one of GLFW_KEY_1..GLFW_KEY_9. The index `key - '0' - 1` is below 9, and the key that selects it is the original key. |
| Input.VariantKeyRoundTrip | bin/bin/RainSnow.cpp:644-652 | For every index 0..8, the index of the key that selects it is that index. |
| Input.SelectVariant | bin/bin/RainSnow.cpp:644-658 | A press of a number key whose index is below the number of shaders makes that index current. Every other event leaves `current_subroutine` unchanged. A valid index stays valid. |
| Input.VariantAfterInRange | bin/bin/RainSnow.cpp:133 | After any sequence of events, the current index is the initial index or an index below 9. It is below the number of shaders when it started below it. |
| Input.VariantKeptWithoutSelection | bin/bin/RainSnow.cpp:644-658 | Without an accepted number-key press among the events, `current_subroutine` is unchanged. |
| Input.VariantIsLastSelection | bin/bin/RainSnow.cpp:644-658 | After a sequence of events, `current_subroutine` is the index of the last accepted number key: its distance from GLFW_KEY_1. |
| Input.ShaderMessage | bin/bin/RainSnow.cpp:608-611 | The printed line is the fixed prefix followed by the name of the variant at the index. The index must be a position of the list. |
| Input.Announcements | bin/bin/RainSnow.cpp:654-657 | A sequence of events prints no more lines than it has events. What the lines are is stated by AnnouncementsAreSelections. |
| Input.AnnouncementsAreSelections | bin/bin/RainSnow.cpp:654-657 | A sequence of events prints exactly one line per accepted selection. When it prints any, the last line names the variant the sequence ends on. |
| Input.Toggle | bin/bin/RainSnow.cpp:638-639 | The flag changes exactly when the event is a press of the target key. |
| Input.ToggleTwiceRestores | work/work04b/work04b.cpp:371-376 | Two presses of P (spinning) or L (wireframe) restore the flag. |
| Input.ToggleParity | work/work04b/work04b.cpp:371-376 | After any sequence of events, the flag differs from its start exactly when the target was pressed an odd number of times. |
| Input.RequestClose | bin/bin/RainSnow.cpp:634-635 | A set request is never cleared. The request goes from unset to set exactly on a press of ESC. |
| Input.CloseIffRequested | bin/bin/RainSnow.cpp:314 | After a sequence of events, the window should close exactly when it already should, or some event asks for it: a press of ESC (bin/bin/RainSnow.cpp:634-635) or the window system's close. |
| Input.KeysAfter | bin/bin/RainSnow.cpp:665-668 | A press sets `keys[key]` and a release clears it. A repeat keeps it. Every other entry is unchanged. |
| Input.KeysAfterAll | work/work04b/work04b.cpp:402-405 | Replaying key events keeps the table at 1024 entries. |
| Input.KeyIsLastEdge | bin/bin/RainSnow.cpp:665-668 | After any sequence of events, each entry of `keys[]` is true when the last press or release of that key was a press and false when it was a release. Without either, it is the entry's initial value. |
| Input.MouseStep | bin/bin/RainSnow.cpp:673-694 | The first cursor event gives a zero offset. Later ones give `(x - lastX, lastY - y)`. After any event, `firstMouse` is false and the last position is the cursor. |
| Input.FirstOffsetIsZero | bin/bin/RainSnow.cpp:678-683 | From a tracker with `firstMouse` set, the first offset of any sequence is zero. A sequence with no cursor event leaves the tracker as it was. |
| Input.MouseNotFirst | bin/bin/RainSnow.cpp:690-691 | Once `firstMouse` is false, it stays false. |
| Input.OffsetsTelescope | work/work04b/work04b.cpp:429-445 | After the first cursor event, the offsets of a sequence sum to the total movement of the cursor. The y sum is reversed. |
| Input.CameraMoves | bin/bin/RainSnow.cpp:615-625 | At most four camera commands are issued per frame. |
| Input.HeldKeysMoveCamera | bin/bin/RainSnow.cpp:617-624 | A movement command is issued exactly when its key (W, S, A or D) is held. |
| Input.CameraMovesInOrder | work/work04b/work04b.cpp:410-420 | Every command carries the frame's deltaTime. The commands are in the order FORWARD, BACKWARD, LEFT, RIGHT, each at most once. |
| Input.ControlsAfter | bin/bin/RainSnow.cpp:629-694 | Replaying events through both callbacks keeps `keys[]` at 1024 entries. |
| Input.ControlsAfterParts | bin/bin/RainSnow.cpp:629-694 | Each part of the replayed controller state is the replay of that part's own callback logic: variant, wireframe, close request, keys[] and mouse tracker. |
| Input.ControlsStep | bin/bin/RainSnow.cpp:629-694 | One event dispatched to the callbacks. It has no contract of its own. It is characterised by ControlsAfterParts, through the replay ControlsAfter, and by the HandleEvent methods. |
| Input.PolledOneMore | bin/bin/RainSnow.cpp:323 | Dispatching one more event extends the replayed state by one step, and extends the offsets and printed lines by that event's. |
| Input.ControlsAppend | bin/bin/RainSnow.cpp:314-323 | Replaying two batches of events one after the other is replaying them as one sequence. |
| Input.EventsThrough | bin/bin/RainSnow.cpp:314-323 | The events of the first frames, in order, are all valid when every frame's are. |
| Input.StateThrough | bin/bin/RainSnow.cpp:314-323 | The state after each frame's events keeps `keys[]` at 1024 entries and keeps a valid variant valid. |
| Input.StateThroughIsReplay | bin/bin/RainSnow.cpp:314-323 | The state frame by frame is the replay of all the frames' events as one sequence. |
| Input.FramesRun | bin/bin/RainSnow.cpp:314 | The loop runs at most as many frames as there are inputs. |
| Input.FramesRunStopsAtClose | bin/bin/RainSnow.cpp:314-323 | A non-empty input runs at least one frame. No frame before the last one run asks to close. When the loop stops before the inputs run out, the last frame it ran asked to close. |
| Input.FramesRunIsFirstClose | bin/bin/RainSnow.cpp:314-323 | Conversely, a count of frames that runs up to the first close request, or to the end, is FramesRun. |
| Input.CloseThroughStep | bin/bin/RainSnow.cpp:314-323 | After one more frame, the window should close exactly when it should before, or that frame's events asked to close it. |
| Input.OpenThrough | bin/bin/RainSnow.cpp:314-323 | While the window need not close after some frames, it need not close at the start, and none of those frames asked to close. |
| Input.RunStops | bin/bin/RainSnow.cpp:314-323 | A loop that stops when the flag is set, or the inputs run out, ran no frame when the flag was set at the start and FramesRun frames otherwise. The flag is then set exactly when it was set at the start or the last frame asked to close. |
| Pipeline.ShadowUnitIsReserved | bin/bin/RainSnow.cpp:421-427 | The shadow map's unit 2 is none of the units the objects use (1, 0, 0, 3). |
| Pipeline.RenderObjects | bin/bin/RainSnow.cpp:418-519 | RenderObjects issues four blocks of six commands each. The RENDER pass adds three commands for the shadow map. |
| Pipeline.Blocks | bin/bin/RainSnow.cpp:433-519 | Each object contributes one block of six commands. |
| Pipeline.ObjectBlock | bin/bin/RainSnow.cpp:433-457 | One object's six commands. It has no contract of its own. It is characterised by ObjectBlockRuns, BlockUniforms and ObjectBlockDraws. |
| Pipeline.ShadowMapBinding | bin/bin/RainSnow.cpp:421-427 | The RENDER-only shadow-map preamble. It has no contract of its own. It is characterised by ShadowMapBindingRuns and ShadowMapSetOnlyInRender. |
| Pipeline.RenderObjectsAsWritten | bin/bin/RainSnow.cpp:418-519 | The schedule is the RENDER-only shadow-map binding, then the plane, lamp, bench and tree blocks. The blocks use units 1, 0, 0, 3, textures textureID[1], [0], [0], [2], repeat 80 for the plane and the global repeat otherwise, with their literal translations, rotations and scales. |
| Pipeline.ShadowMapSetOnlyInRender | bin/bin/RainSnow.cpp:421-427 | The "shadowMap" sampler is set to unit 2 exactly in the RENDER pass. The SHADOWMAP pass never sets it. |
| Pipeline.BlocksLeaveShadowSampler | bin/bin/RainSnow.cpp:433-519 | No object block sets the "shadowMap" sampler. |
| Pipeline.ObjectBlockRuns | bin/bin/RainSnow.cpp:433-457 | One object block leaves its unit active and its texture bound there. The running program's "tex", "repeat" and model uniforms get the block's values, each only if that program declares it. |
| Pipeline.BlockUniforms | bin/bin/RainSnow.cpp:436-455 | The three uniform writes of a block reach exactly the uniforms the running program declares. |
| Pipeline.ShadowBlockUniforms | bin/bin/RainSnow.cpp:436-455 | Under the shadow program, only the model matrix is written. "tex" and "repeat" have no effect. |
| Pipeline.LitBlockUniforms | bin/bin/RainSnow.cpp:436-455 | Under the lit program, "tex", "repeat" and the model matrix are all written to that program. |
| Pipeline.ObjectBlockDraws | bin/bin/RainSnow.cpp:433-457 | One object block draws its object once, with the state the block has set up. |
| Pipeline.ShadowMapBindingRuns | bin/bin/RainSnow.cpp:421-427 | The preamble draws nothing. In the RENDER pass, it binds the depth map to unit 2 and points the running program's "shadowMap" at unit 2 when it declares it. Otherwise it changes nothing. |
| Pipeline.BlocksDraw | bin/bin/RainSnow.cpp:433-519 | The blocks draw the listed objects in order. Under any program, each draw sees its transform. Under the lit program, it also sees its own texture on its own unit through "tex" and its repeat factor. |
| Pipeline.BlocksKeepTarget | bin/bin/RainSnow.cpp:433-519 | The blocks change neither the program, framebuffer, viewport, clear, polygon mode or subroutine, nor the shadow-map binding. This holds at every draw and at the end. |
| Pipeline.ShadowMapPassDraws | bin/bin/RainSnow.cpp:350 | In the SHADOWMAP pass, the draws are plane, lamp, bench and tree, each set up as the scene table says. They keep the target and shadow-map binding the pass found. |
| Pipeline.RenderPassDraws | bin/bin/RainSnow.cpp:400 | In the RENDER pass, the draws are plane, lamp, bench and tree, each set up as the scene table says. Under the lit program, every draw also samples the depth map on unit 2. |
| Pipeline.RenderObjectsDraws | bin/bin/RainSnow.cpp:418-519 | For both passes: the scene's four draws in order, with each object's set-up, and the target left unchanged. In SHADOWMAP the shadow-map binding is untouched. In RENDER under the lit program, every draw samples the depth map. |
| Pipeline.DepthPassSetUpRuns | bin/bin/RainSnow.cpp:339-347 | The depth pass's set-up draws nothing. It leaves the shadow program with no subroutine and no sampler declared, the 1024x1024 viewport, and the depth-map framebuffer cleared of depth only. |
| Pipeline.LitPassSetUpRuns | bin/bin/RainSnow.cpp:356-397 | The lit pass's set-up draws nothing. It leaves: framebuffer 0 cleared of color and depth, the polygon mode from `wireframe`, the window viewport, and the lit program with the selected subroutine. |
| Pipeline.DepthPassDraws | bin/bin/RainSnow.cpp:339-350 | The depth pass draws the four objects in the depth-map framebuffer at 1024x1024, after a depth-only clear, with the shadow program. That program samples no texture. |
| Pipeline.LitPassDraws | bin/bin/RainSnow.cpp:356-400 | The lit pass draws the four objects in framebuffer 0 with the window viewport, after a full clear. It uses the lit program, the selected subroutine and the polygon mode from `wireframe`, and samples the depth map. |
| Pipeline.FrameDraws | bin/bin/RainSnow.cpp:327-400 | A frame draws the scene twice: first four depth-pass draws, then four lit-pass draws with `shaders[current_subroutine]`. It leaves the polygon mode set to `wireframe`. |
| Pipeline.NextDepthPassInheritsPolygonMode | bin/bin/RainSnow.cpp:364-368 | The next frame's depth pass draws with the polygon mode the previous lit pass set. |
| Pipeline.DepthPassSetUp | bin/bin/RainSnow.cpp:339-347 | The depth pass's set-up commands. It has no contract of its own. It is characterised by DepthPassSetUpRuns. |
| Pipeline.DepthPass | bin/bin/RainSnow.cpp:339-350 | Step 1 of the frame. It has no contract of its own. It is characterised by DepthPassDraws. |
| Pipeline.LitPassSetUp | bin/bin/RainSnow.cpp:356-397 | The lit pass's set-up commands. It has no contract of its own. It is characterised by LitPassSetUpRuns. |
| Pipeline.LitPass | bin/bin/RainSnow.cpp:356-400 | Step 2 of the frame. It has no contract of its own. It is characterised by LitPassDraws. |
| Pipeline.FrameLog | bin/bin/RainSnow.cpp:327-400 | One frame's GL commands. It has no contract of its own. It is characterised by FrameDraws and NextDepthPassInheritsPolygonMode. |
| RainSnow.OutputOfFrame | bin/bin/RainSnow.cpp:314-400 | The outputs of frame j are those of its events, from the state the j frames before it left. |
| RainSnow.RunOneMore | bin/bin/RainSnow.cpp:314-400 | One more frame, run while the window need not close, extends the state and the outputs by that frame's. |
| RainSnow.Startup | bin/bin/RainSnow.cpp:259-261 | Start-up gives the initial controller and prints the line for subroutine 0. In that controller no key is held and the mouse tracker is in its first state. |
| RainSnow.Controller.constructor | bin/bin/RainSnow.cpp:133-167 | The initial globals: subroutine 0, no wireframe, no close request, no key held, `firstMouse` set with lastX = lastY = 0. The shader list must be non-empty. |
| RainSnow.Controller.PrintCurrentShader | bin/bin/RainSnow.cpp:608-611 | The line printed for an index that must be a position of the shader list. |
| RainSnow.Controller.KeyCallback | bin/bin/RainSnow.cpp:629-669 | The new subroutine, wireframe, close request and `keys[]` are those of SelectVariant, Toggle, RequestClose and KeysAfter. The mouse tracker is unchanged. A line is printed exactly for an accepted selection. The index stays valid. |
| RainSnow.Controller.MouseCallback | bin/bin/RainSnow.cpp:673-694 | The tracker and offset are those of MouseStep. Nothing else changes. |
| RainSnow.Controller.ApplyCameraMovements | bin/bin/RainSnow.cpp:615-625 | The commands are CameraMoves of the held keys. |
| RainSnow.Controller.HandleEvent | bin/bin/RainSnow.cpp:629-694 | One event moves the state one ControlsStep. The offset and printed line are that event's. The window system's close sets the close flag. |
| RainSnow.Controller.PollEvents | bin/bin/RainSnow.cpp:323 | Dispatching the frame's events leaves the state at ControlsAfter of the events. The offsets and lines are the replay's, in order. |
| RainSnow.Controller.RenderFrame | bin/bin/RainSnow.cpp:327-400 | The frame's command log is FrameLog of the current subroutine and wireframe flag. |
| RainSnow.Controller.Frame | bin/bin/RainSnow.cpp:314-400 | One loop iteration polls the events, moves the camera from the held keys, and then renders the two passes with the state after the events. Its outputs are FrameOutputs of the state before it. |
| RainSnow.Controller.Run | bin/bin/RainSnow.cpp:314-400 | The loop renders FramesRun(frames) frames, or none if close was already requested. Close is requested at the end exactly when it was before or the last frame rendered asked for it. The state is the replay of all events of the frames rendered. Each frame's outputs are computed from the state the earlier frames left. |
| RainSnow.Controller.LoopWhileOpen | bin/bin/RainSnow.cpp:314-400 | The loop stops with all frames run or the close flag set. The state and outputs are those of the frames run, and the flag was clear before the last one. |
| Work04b.SpinStep | work/work04b/work04b.cpp:240-241 | While spinning, orientationY grows by deltaTime * spin_speed. Otherwise it is unchanged. |
| Work04b.SpinAcross | work/work04b/work04b.cpp:214-241 | The angle and spinning flag across frames: each frame's P presses, then one SpinStep. It has no contract of its own. It is characterised by SpinWithoutToggle and SpinOneMore. |
| Work04b.SpinWithoutToggle | work/work04b/work04b.cpp:240-241 | With no press of P, spinning stays the same. The angle grows by the total time times spin_speed while spinning, and stays put otherwise. |
| Work04b.OutputOfFrame | work/work04b/work04b.cpp:214-241 | The outputs of frame j are those of its events, from the state the j frames before it left. |
| Work04b.SpinOneMore | work/work04b/work04b.cpp:214-241 | The angle and spinning flag after one more frame are one more SpinAcross step. |
| Work04b.RunOneMore | work/work04b/work04b.cpp:214-241 | One more frame, run while the window need not close, extends the state, the spin and the outputs by that frame's. |
| Work04b.Startup | work/work04b/work04b.cpp:196-198 | Start-up gives the initial controller, spinning with angle 0, and prints the line for subroutine 0. In that controller no key is held and the mouse tracker is in its first state. |
| Work04b.Controller.constructor | work/work04b/work04b.cpp:76-109 | The initial globals: subroutine 0, spinning on, no wireframe, angle 0, no key held, `firstMouse` set. |
| Work04b.Controller.PrintCurrentShader | work/work04b/work04b.cpp:354-357 | The line printed for an index that must be a position of the shader list. |
| Work04b.Controller.KeyCallback | work/work04b/work04b.cpp:362-406 | Like RainSnow's, and P toggles spinning. The angle and the tracker are unchanged. |
| Work04b.Controller.ApplyCameraMovements | work/work04b/work04b.cpp:410-420 | The commands are CameraMoves of the held keys. |
| Work04b.Controller.MouseCallback | work/work04b/work04b.cpp:424-445 | The tracker and offset are those of MouseStep. Nothing else changes. |
| Work04b.Controller.HandleEvent | work/work04b/work04b.cpp:362-445 | One event moves the state one ControlsStep and spinning one toggle step. The angle is unchanged. |
| Work04b.Controller.PollEvents | work/work04b/work04b.cpp:223 | Dispatching the frame's events leaves the state at ControlsAfter. Spinning ends at ToggleAfter for P, and the angle is unchanged. |
| Work04b.Controller.AdvanceSpin | work/work04b/work04b.cpp:240-241 | The angle becomes SpinStep of the old angle. Nothing else changes. |
| Work04b.Controller.Frame | work/work04b/work04b.cpp:214-241 | One loop iteration polls the events, moves the camera, and then advances the angle with the spinning flag after the events. Its outputs are FrameOutputs of the state before it. |
| Work04b.Controller.Run | work/work04b/work04b.cpp:214-241 | The loop runs FramesRun(frames) frames, or none if close was already requested. The close request, the replayed state and the per-frame outputs are as for RainSnow. Angle and spinning are SpinAcross of the frames run. |
| Work04b.Controller.LoopWhileOpen | work/work04b/work04b.cpp:214-241 | The loop stops with all frames run or the close flag set. The state, spin and outputs are those of the frames run. |

## Left out

- GL and GLFW calls are not executed. The model keeps only the calls whose effect the render schedule fixes:
  - framebuffer binding, clear, viewport, polygon mode;
  - program, subroutine, texture units and bindings, samplers;
  - the repeat uniform, the model matrix, draws.

  Window and context creation and `glfwSwapBuffers` are not modelled. Neither are uniform values other than these, nor buffer and FBO creation.
- glm matrix math (`perspective`, `lookAt`, `ortho`, `translate`, `rotate`, `scale`, `inverseTranspose`) is not modelled. A model matrix is the list of transformations, and the other matrices are opaque uploads.
- GLSL (the shading and shadow-test variants) is not part of this model.
- `SetupShader` is left out. It is GL introspection; the subroutine names it finds are a non-empty `seq<string>` parameter.
- Texture and model loading (`LoadTexture`, `Model`) are file I/O. Textures are the integer ids in `textureID`.
- The `Camera` class is not part of this model. It is only a sink: the commands `apply_camera_movements` sends, and the offsets passed to `ProcessMouseMovement`.
- `glfwGetTime` is a clock. Each frame's `deltaTime` is an input of the frame, and so are the events `glfwPollEvents` delivers.
- Floating point is modelled as exact `real` arithmetic, with no rounding of offsets, delta times or the spin angle.
- The particle code of RainSnow.cpp (`initParticles`, `normal_keys`, the commented-out code) is left out. It is unreachable from the active control flow and uses `rand()` and floats.
- include/utils/ParticleSettings.h is not part of this model. It holds no logic reachable from the core.
- Input.ValidEvents: key codes outside 0..1023, such as GLFW_KEY_UNKNOWN (-1), are excluded by precondition. `keys[key]` is indexed without a check, so such an event is undefined behaviour in the source.
- The scancode and mode arguments of `key_callback` and the window argument of the callbacks are left out. The source never reads them.
- work04b's scene is left out: its clear, its polygon-mode calls, the bunny draw (work/work04b/work04b.cpp:291) and the loading of the cube, which is never drawn (work/work04b/work04b.cpp:201). Only its controller and the spinning rotation are modelled.
- The comment above the number-key branch of `key_callback` gives the codes as 49 to 59. The code tests GLFW_KEY_1 (49) to GLFW_KEY_9 (57), and the model follows the code.
- RainSnow.Controller.PollEvents and the other event methods state the new state as one replay, `ControlsAfter`. The per-field statements (variant, wireframe, close, keys, mouse) follow from `Input.ControlsAfterParts` rather than appearing in each method's ensures. `Frame` restates the close request separately.
- Input.CameraMovesInOrder states the order as strictly increasing ranks of adjacent commands. This implies the fixed order, with each movement at most once.
- RainSnow never changes `orientationY`, so its objects are drawn with a rotation of 0 degrees. The lamp, bench and tree transforms still carry that rotation.
- Uniforms are tracked per program, and only those RenderObjects writes: "tex", "shadowMap", "repeat" and the model matrix. A write to a uniform the running program does not declare has no effect, as with location -1. Which uniforms each program declares is stated in `Pipeline.Declares`, since GLSL is not part of this model. `lightSpaceMatrix`, the view and projection matrices and the lighting uniforms are opaque commands that change nothing in the modelled state.
- The window system's request to close the window (the close button) is the `WindowClose` event. It sets the close flag without calling any callback.
- RainSnow.FrameOutputAt and Work04b.FrameOutputAt give empty outputs past the last frame and for inputs that break their preconditions. No run reads those entries.
- Input.FirstOffsetIsZero: the first offset is exactly zero only because numbers are exact reals. In the source, `lastX = xpos` narrows a double to GLfloat, so the first `xpos - lastX` can be a small rounding residual instead of 0.
