# Frame pose controller and image viewer, modelled in Dafny

This project models the two Unity scripts of the Frame-Assignment repository:

- **FramePositionController** moves a frame object between two poses captured
  at start-up: its initial pose and the pose of a separate "float" Transform.
  A flag, `isFloating`, says which pose is currently the frame's home.
  `ActivateFloat` flips the flag and moves to the other pose. `ResetPosition`,
  the handler of the frame's "unselect" event, moves back to the pose the flag
  names. Each move is a coroutine. It adds the frame time to an elapsed time
  until `resetDuration` is reached, writes an eased Lerp/Slerp pose every frame,
  and finally snaps exactly to the target. Every trigger first stops the
  running coroutine.
- **ImageViewer** checks at start-up that a quad with a Renderer is assigned.
  It then reads every `*.jpg` and then every `*.jpeg` file of the persistent
  data directory and keeps a texture for each file that decodes.
  `ShowNextImage` moves a cursor (initially -1) to the next texture, wrapping
  after the last one, and paints that texture on the quad.

Files:

- `wrappers.dfy`: `Option`.
- `frame_motion.dfy` (module `FrameMotion`): the frame controller as a state
  machine on values. `Transition` is the coroutine suspended at its
  `yield return null`. `Resume` is one run of the coroutine from its loop guard
  to the next yield or to its end. `Tick` is one engine frame. `StartMove`,
  `ResetPosition` and `ActivateFloat` are the triggers. `Run` and `Replay`
  apply sequences of frames and events, and the lemmas about them are stated here.
- `frame_controller.dfy` (module `FrameController`): the classes `Transform` and
  `FramePositionController`. The controller's methods update its fields and
  the frame's Transform in place. Each is proved to produce exactly the state
  that the matching `FrameMotion` function gives.
- `image_loading.dfy` (module `ImageLoading`): the pattern filter of the
  directory listing, `Decoded` (what loading a list of files yields), the cursor
  rule `NextIndex`, and the lemmas about them.
- `image_viewing.dfy` (module `ImageViewing`): the classes `Renderer`,
  `GameObject` and `ImageViewer`. `LoadImagesFromPersistentDataPath` is the
  `foreach` loop, proved with its invariant against `Decoded`.

How the engine is represented:

- Time is a `real`. A frame time (`Time.deltaTime`) is a non-negative real.
- `Vector3` and `Quaternion` are records of reals.
- `Vector3.Lerp`, `Quaternion.Slerp` and `AnimationCurve.Evaluate` are
  function-valued fields of `Motion`, together with `resetDuration`. Nothing is
  assumed about them.
- `StartCoroutine` runs the new coroutine at once, up to its first `yield`,
  in the frame in which it is called. So the triggers take that frame's time.
  They already write the first interpolated pose, or the final pose when
  `resetDuration <= 0`. The engine's later resumptions of the coroutine are
  `Tick`. `StopAllCoroutines` replaces the one `Option<Transition>` field.
- The directory is a `Storage` value. It holds the file names in enumeration
  order, `File.ReadAllBytes` as a function, and the search-pattern match of
  `Directory.GetFiles` as a predicate. `Texture2D.LoadImage` is a
  success/failure oracle on the file's bytes. A texture records the bytes it
  was loaded from.

In SmoothMoveToCoroutine the loop guard is tested before the frame time is
added. So the frame that crosses `resetDuration` still interpolates: it
evaluates the easing curve beyond 1, and the coroutine's last suspension, the
one just before the snap, holds an elapsed time greater than `resetDuration`.
`LastStepPassesDuration` states this. `RunAccumulates` states what holds
throughout: the elapsed time is the sum of the frame times.

## Model

| member | source | states |
|---|---|---|
| FrameMotion.Resume | Assets/Scripts/FramePositionController.cs:102-119 | the coroutine goes on exactly while elapsed < resetDuration. Then it adds the frame time to elapsed and writes the eased Lerp/Slerp pose for elapsed / resetDuration, keeping its start and target. Otherwise it ends with the frame exactly at the target |
| FrameMotion.Tick | Assets/Scripts/FramePositionController.cs:102-115 | a frame never changes the flag. With no coroutine scheduled it changes nothing. A resumed coroutine keeps its target |
| FrameMotion.StartMove | Assets/Scripts/FramePositionController.cs:96-100 | a new move starts from the frame's current pose, which may be mid-flight. It has elapsed exactly the first frame's time and heads for the requested target. It is still scheduled after its first frame iff resetDuration > 0. The flag is untouched |
| FrameMotion.ResetPosition | Assets/Scripts/FramePositionController.cs:59-70 | the flag is unchanged. The move heads for the float pose iff the flag is set, else the initial pose, and starts from the current pose |
| FrameMotion.ActivateFloat | Assets/Scripts/FramePositionController.cs:75-88 | the flag is negated. The move heads for the initial pose if the old flag was set and for the float pose otherwise, chosen by the flag and not by where the frame is |
| FrameMotion.TriggersCancel | Assets/Scripts/FramePositionController.cs:59-88 | both triggers give the same result whatever coroutine was scheduled before, because the old one is dropped |
| FrameMotion.TriggersAimAtHome | Assets/Scripts/FramePositionController.cs:59-88 | after either trigger, the frame heads for the pose that matches the flag left behind |
| FrameMotion.DoubleToggle | Assets/Scripts/FramePositionController.cs:75-88 | two ActivateFloat calls in a row restore the flag. The second move heads back to the first flag's pose and starts from the pose the first move reached, not from a captured pose |
| FrameMotion.LastStepPassesDuration | Assets/Scripts/FramePositionController.cs:102-105 | the frame that crosses resetDuration still interpolates, with the curve evaluated beyond 1, and leaves more than resetDuration elapsed. The following frame snaps to the target |
| FrameMotion.RunIdle | Assets/Scripts/FramePositionController.cs:96-120 | with no coroutine scheduled, any number of frames leaves the state as it is |
| FrameMotion.RunAccumulates | Assets/Scripts/FramePositionController.cs:100-115 | while a move is still scheduled, its start and target are unchanged and its elapsed time is the starting one plus the sum of the frame times. After at least one frame, the frame's pose is the eased interpolation for that elapsed time |
| FrameMotion.RunCompletesAtTarget | Assets/Scripts/FramePositionController.cs:117-119 | a move that ends without being cancelled leaves the frame exactly at its target, whatever the curve, Lerp and Slerp compute |
| FrameMotion.RunTerminates | Assets/Scripts/FramePositionController.cs:100-104 | if every frame lasts at least m > 0, a move with elapsed time e has ended at its target after n frames whenever (n - 1) * m >= resetDuration - e |
| FrameMotion.FlagParity | Assets/Scripts/FramePositionController.cs:75-88 | after any mix of frames, outside moves of the frame, unselects and ActivateFloat calls, the flag equals its first value XOR (an odd number of ActivateFloat calls). ResetPosition and frames never change it |
| FrameMotion.ReplayKeepsTargetsCaptured | Assets/Scripts/FramePositionController.cs:59-88 | whatever happens, the single scheduled move, if any, heads for one of the two captured poses |
| FrameController.FramePositionController.Start | Assets/Scripts/FramePositionController.cs:41-53 | the initial pose is the frame Transform's pose and the float pose is the float Transform's pose. The flag is false and no move is scheduled |
| FrameController.FramePositionController.ResumeCoroutine | Assets/Scripts/FramePositionController.cs:102-119 | the pose written to the frame's Transform and the coroutine left scheduled are exactly those given by `Resume` |
| FrameController.FramePositionController.MoveTo | Assets/Scripts/FramePositionController.cs:96-100 | it drops the scheduled move and starts a new one from the Transform's current pose, as `Resume` from elapsed 0 gives |
| FrameController.FramePositionController.ResetPosition | Assets/Scripts/FramePositionController.cs:59-70 | the new state is `FrameMotion.ResetPosition` of the old one. The captured poses are not reassigned and the scheduled target stays a captured pose |
| FrameController.FramePositionController.ActivateFloat | Assets/Scripts/FramePositionController.cs:75-88 | the new state is `FrameMotion.ActivateFloat` of the old one. The captured poses are not reassigned and the scheduled target stays a captured pose |
| FrameController.FramePositionController.Tick | Assets/Scripts/FramePositionController.cs:102-115 | the new state is `FrameMotion.Tick` of the old one. The captured poses are not reassigned |
| ImageLoading.Matching | Assets/Scripts/ImageViewController.cs:58 | `GetFiles` returns exactly the names of the directory that match the pattern, and no more names than the directory has |
| ImageLoading.Decoded | Assets/Scripts/ImageViewController.cs:60-69 | loading gives no more textures than there are files, and every texture it keeps decoded successfully |
| ImageLoading.DecodedConcat | Assets/Scripts/ImageViewController.cs:58-69 | loading a concatenation of file lists yields the textures of the first list followed by those of the second |
| ImageLoading.DecodedSnoc | Assets/Scripts/ImageViewController.cs:60-69 | one more file appends its texture exactly when it decodes, and nothing otherwise |
| ImageLoading.DecodeFailureSkipped | Assets/Scripts/ImageViewController.cs:60-69 | a file that fails to decode is skipped, and every file before and after it is loaded as if it were absent |
| ImageLoading.DecodedAll | Assets/Scripts/ImageViewController.cs:60-69 | when every file decodes, the textures correspond one to one with the files, in file order |
| ImageLoading.LoadedInPatternOrder | Assets/Scripts/ImageViewController.cs:58 | the loaded textures are those of the `*.jpg` files followed by those of the `*.jpeg` files |
| ImageLoading.NextIndex | Assets/Scripts/ImageViewController.cs:87 | from -1 or a valid index, the next index is valid. It is the index plus one, wrapping from the last index to 0 |
| ImageLoading.CursorAfter | Assets/Scripts/ImageViewController.cs:75-88 | the cursor is -1 exactly before the first call, and a valid index after it |
| ImageLoading.CursorCycles | Assets/Scripts/ImageViewController.cs:75-88 | the k-th call from the initial -1 shows index (k - 1) mod count |
| ImageLoading.ThreeFileDirectory | Assets/Scripts/ImageViewController.cs:55-89 | with `a.jpg`, `b.jpeg` and `c.txt`, only the two images load, the `.jpg` first. Counting the call the load itself makes, the cursor goes 0, 1, 0: the load shows index 0 and the next two calls show 1 and then 0 |
| ImageViewing.ImageViewer.constructor | Assets/Scripts/ImageViewController.cs:14-29 | the viewer starts with no textures, cursor -1 and no renderer |
| ImageViewing.ImageViewer.Start | Assets/Scripts/ImageViewController.cs:34-50 | without a quad, or without a Renderer on it, nothing loads and the cursor stays -1. Otherwise the textures are the decoded `*.jpg` files then the decoded `*.jpeg` files, and if there are any, index 0 is on display |
| ImageViewing.ImageViewer.LoadImagesFromPersistentDataPath | Assets/Scripts/ImageViewController.cs:55-73 | the texture list grows by exactly the decoded `*.jpg` files and then the decoded `*.jpeg` files, in order. Then the next image is shown as by `ShowNextImage` |
| ImageViewing.ImageViewer.ShowNextImage | Assets/Scripts/ImageViewController.cs:79-89 | with no textures, neither the cursor nor the quad's texture changes. Otherwise the cursor becomes (old + 1) mod count, a valid index, and the quad shows exactly the texture at that index. The list itself is unchanged |

## Left out

- Vector3.Lerp, Quaternion.Slerp and AnimationCurve.Evaluate are floating-point numerics of the engine. They are parameters about which nothing is assumed, so no property depends on their results. The only exception is that the final snap makes the end pose exact.
- Nothing bounds the interpolated poses, for example that a move never overshoots its target, because the curve and the interpolations are left uninterpreted.
- Floating-point rounding of `elapsedTime += Time.deltaTime` and of `elapsedTime / resetDuration` is left out: times are reals.
- The coroutine scheduler is left out: `StartCoroutine`, `StopAllCoroutines`, `yield return null` and the per-frame call order. It is replaced by the triggers taking the current frame's time and by `Tick`.
- Frame times are only required to be non-negative. Termination (`RunTerminates`) needs a positive lower bound on them, because with reals, ever smaller positive times need never add up to `resetDuration`.
- `GetComponent<PointableUnityEventWrapper>()` and `WhenUnselect.AddListener(ResetPosition)` are event wiring. The "unselect" event is a direct call of `ResetPosition`, and its PointerEvent argument, which is unused, is dropped.
- FrameController.FramePositionController.Start: takes both Transforms as non-null and leaves out the NullReferenceException that `Start` throws when `frameTransform` or `floatTransform` is unassigned, or when the frame has no PointableUnityEventWrapper. In that last case the poses are captured but `ResetPosition` is never wired to "unselect", whereas `Replay` always allows an `Unselect` event.
- ImageViewing.ImageViewer.Start: leaves out the exception `Directory.GetFiles` throws for a missing or unreadable directory. In the code, `Start` then stops before `ShowNextImage`, so nothing loads and no warning is logged; the model always reads a directory listing.
- `Application.persistentDataPath`, `Directory.GetFiles`, and `File.ReadAllBytes` are file-system I/O. They are the `Storage` value. The platform's search-pattern rules are an abstract predicate, and file reads never fail in the model.
- `Texture2D.LoadImage` is a JPEG decoder. It is an oracle on the bytes, and the textures of failed decodes are dropped.
- `Debug.Log`, `Debug.LogWarning` and `Debug.LogError` are logging and are left out. Renderer's material is reduced to its `mainTexture`.
- The model leaves out texture identity. Textures are values recording their bytes, so two files with equal bytes give equal textures.
- ImageViewing.ImageViewer.Start: requires that nothing has been loaded yet. The engine calls `Start` once, before anything else fills the list.
