# showcase-css spotlight controller, modelled in Dafny

`showcase(target, options)` turns an element into a mouse-following radial
"spotlight". It first checks the environment: no `window`/`document`, or a
touch-primary device, gives an inert controller. Next it reinterprets its
arguments and marks the element with `data-spotlight`. It then writes the six
DEFAULTS custom properties, the user's overrides, a composite `background`
and an `opacity`. After that, mouse moves set a target position, and a
self-rescheduling animation-frame loop eases the rendered position toward the
target. The returned controller has `setOptions` (re-applies options) and
`destroy` (tears everything down).

The model has three modules:

- `StyleMap` (style.dfy) covers the inline style as a `map<string, CssValue>`. It holds the
  DEFAULTS table, the `GRADIENT_BG` constant, the options record and the
  write rules of `applyOptions`. It also defines the style after
  construction (`ActivatedStyle`) and proves that removing the controller's
  keys undoes construction.
- `Easing` (easing.dfy) is the per-frame lerp over the reals. `EasingFrames`
  counts the frames the loop runs before it snaps. The lemmas prove that the
  loop settles in exactly that many frames, never overshoots, and moves
  strictly toward the target.
- `Showcase` (controller.dfy) has two classes. `Element` is the borrowed element: its
  style map and the attribute. `Spotlight` holds the closure state
  (`currentX/Y`, `targetX/Y`, `animating`), a count of queued animation
  frames (`pendingFrames`) and whether the listener is registered
  (`listening`). The constructor, `Tick`, `MouseMove`, `SetOptions` and
  `Destroy` update those fields step by step. `Valid()` is the invariant that
  at most one frame is ever queued.

Frames are counted, not flagged. The model can then prove that mouse events
never queue a second frame, instead of getting it from a boolean type.
`Tick` stands for the browser running a queued `tick` callback, so it
requires a queued frame and consumes it. `MouseMove` stands for the browser
dispatching to the registered listener, so it requires `listening`.

A style value is `Text(s)` for a literal string, `Pixels(x)` for the template
`` `${x}px` `` and `Numeral(n)` for `String(n)`. Which number was written is
modelled; how it is printed is not.

The model keeps these behaviours of the code as written:

- There are six DEFAULTS entries.
- The option key is `bg`.
- `setOptions` after `destroy` still writes properties (`OptionsAfterDestroy`).
- `destroy` clears `animating` but does not cancel a queued frame. That
  frame later writes `--spotlight-x`/`--spotlight-y` back onto the element
  (`LateFrameAfterDestroy`). It keeps easing while not settled, because
  `tick` never reads `animating`.
- The smoothing default applies only for null/undefined, so an explicit `0`
  is kept. With smoothing 0 an unsettled loop never moves and reschedules
  forever (`ZeroSmoothingStalls`).

## Model

| member | source | states |
|---|---|---|
| StyleMap.DefaultsWrites | src/index.js:10-17 | setting the six DEFAULTS entries in order writes exactly the six default values |
| StyleMap.EntriesMap | src/index.js:64-66 | setting a table of entries in order defines exactly the table's keys, and the last entry's value wins |
| StyleMap.ControllerKeys | src/index.js:116-125 | the properties the controller owns are exactly the six DEFAULTS keys, `background` and `opacity` |
| StyleMap.OptionWrites | src/index.js:55-61 | colour, radius and bg are written iff truthy (present, non-empty); intensity is written iff not null/undefined, as its number; nothing else is written |
| StyleMap.ActivatedStyle | src/index.js:53-70 | after construction the style holds every original key plus the eight controller keys; every key the controller does not own is unchanged |
| StyleMap.ActivatedFixedValues | src/index.js:63-70 | after construction the position properties are "50%", background is GRADIENT_BG and opacity is "var(--spotlight-intensity)" |
| StyleMap.ActivatedOptionValues | src/index.js:63-67 | after construction colour, radius, intensity and bg each hold the user's override when one was written, else the default |
| StyleMap.ZeroIntensityIsWritten | src/index.js:58-59 | intensity 0, falsy in JavaScript, is still written as the number 0 |
| StyleMap.EmptyColorIsSkipped | src/index.js:56 | an empty colour string leaves the colour property as it was |
| StyleMap.ColorOnlyUpdate | src/index.js:126-128 | `setOptions({color: c})` with non-empty c changes the colour property and no other |
| StyleMap.ClearUndoesActivation | src/index.js:116-125 | on an element without controller properties, removing the controller keys after construction restores the original style, for any options |
| StyleMap.ClearAbsorbsWrites | src/index.js:116-128 | writes to controller keys made before teardown (option updates) leave no trace after it |
| StyleMap.ClearAbsorbsUpdate | src/index.js:116-125 | a single write to a controller key (a position update) leaves no trace after teardown |
| StyleMap.ClearIdempotent | src/index.js:116-125 | removing the controller keys twice equals removing them once |
| Easing.Ease | src/index.js:95-96 | for smoothing s in (0,1] one frame shrinks the distance to the target by the factor 1 - s and lands between the old position and the target; strictly between for s in (0,1) |
| Easing.BudgetDrops | src/index.js:86-96 | a frame that does not settle lowers the bound on the remaining frames by at least one |
| Easing.EasingFrames | src/index.js:81-100 | with the target held still, the number of easing frames before the snapping frame is zero iff already settled, and is bounded by 2 (abs dx + abs dy) / s |
| Easing.GlideSettles | src/index.js:81-100 | after exactly EasingFrames easing frames both offsets are below 0.5, and after any fewer they are not, so the loop stops after finitely many frames |
| Easing.GlideIncreasesBelowTarget | src/index.js:95-99 | moving toward a target above with s in (0,1), the positions frame by frame strictly increase and stay below the target |
| Easing.GlideDecreasesAboveTarget | src/index.js:95-99 | moving toward a target below with s in (0,1), the positions frame by frame strictly decrease and stay above the target |
| Easing.ZeroSmoothingStalls | src/index.js:95-99 | with smoothing 0 the position never moves, however many frames run |
| Showcase.Resolve | src/index.js:44-51 | an element first argument is the target; a truthy non-element first argument becomes the options and the target falls back to the body; missing options become `{}` |
| Showcase.Spotlight.constructor | src/index.js:31-113 | inert exactly when window or document is missing or `(hover: none)` matches, and then the element is unchanged; otherwise the element is marked, its style is ActivatedStyle, the listener is registered; smoothing defaults to 0.15 only when absent; positions start at 0 with nothing queued |
| Showcase.Spotlight.Activate | src/index.js:53-70 | marks the element and sets its style to ActivatedStyle of the old style |
| Showcase.Spotlight.WriteDefaults | src/index.js:64-66 | the DEFAULTS loop overrides the style with the six defaults |
| Showcase.Spotlight.ApplyOptions | src/index.js:55-61 | the new style is the old style overridden by OptionWrites; the attribute is unchanged |
| Showcase.Spotlight.SetOptions | src/index.js:126-128 | applies OptionWrites to the live style, also after destroy; on a live controller a missing or null argument throws before any write; no-op, and no throw, when inert |
| Showcase.Spotlight.MouseMove | src/index.js:102-111 | the target becomes client coordinates minus the box origin; a frame is queued only if not animating, so exactly one frame is queued afterwards; keeps Valid, so a second frame is never queued; the rendered position is unchanged |
| Showcase.Spotlight.Tick | src/index.js:81-100 | consumes its frame; when both offsets are below 0.5 it snaps to the target, clears animating and queues nothing, otherwise it eases by smoothing and queues one frame; writes both position properties in pixels; one fewer easing frame remains; keeps Valid (at most one queued frame) |
| Showcase.Spotlight.Destroy | src/index.js:116-125 | unregisters the listener, clears animating and the attribute, removes exactly the controller keys; leaves the queued frame and positions alone; no-op when inert |
| Showcase.LateFrameAfterDestroy | src/index.js:95-118 | after destroy the already-queued frame writes `--spotlight-x` back onto the element |
| Showcase.OptionsAfterDestroy | src/index.js:116-128 | setOptions after destroy still writes the colour property |
| Showcase.LifecycleRestores | src/index.js:53-125 | construction, a mouse move, a frame, an option update and destroy leave an element without controller properties as it was |
| Showcase.InertLeavesElement | src/index.js:31-42 | in an inert environment construction, setOptions (with or without an argument) and destroy leave the element's style and attribute unchanged and do not throw |
| Showcase.MissingOptionsThrow | src/index.js:55-56 | on a live controller `setOptions()` throws and leaves the style as construction made it |

## Left out

- DOM platform calls are inputs or parameters, because they are foreign calls: `instanceof HTMLElement`
  (the `TargetArg` case), `getBoundingClientRect` (the `rectLeft`/`rectTop`
  parameters of `MouseMove`), `matchMedia` (`hoverNone`), the `typeof window`/`typeof document`
  checks (`hasWindow`, `hasDocument`), `addEventListener`/`removeEventListener` (`listening`).
- `requestAnimationFrame` is a count of queued frames. Its asynchronous timing and the
  browser's interleaving of events and frames are not modelled; a caller
  chooses the order by calling `MouseMove` and `Tick`.
- IEEE-754 arithmetic: positions and smoothing are reals. Rounding, NaN and
  infinities are not modelled. A NaN intensity (falsy but not null) is not representable.
- Number formatting (`${x}px`, `String(n)`) is represented by the value
  constructors `Pixels` and `Numeral`; the CSS text of GRADIENT_BG is an opaque constant.
  The constructors are distinct, so `Numeral(1.0)` differs from `Text("1")` although
  `String(1)` is `"1"`: `setOptions({intensity: 1})` on the default style changes the
  model's style but not the page's.
- CSS shorthands: the style is a flat map, so `background` is one key. In a browser
  `setProperty("background", …)` also overwrites every inline `background-*` longhand and
  `removeProperty("background")` removes them all. StyleMap.ActivatedStyle,
  StyleMap.ClearUndoesActivation and Showcase.LifecycleRestores therefore hold for an
  element without inline `background-*` properties; one with, say, `background-color: red`
  loses it.
- A missing `<body>`: the model's `body` is always an element. When the script runs
  before `<body>` exists, `document.body` is null and the call throws at the
  `setAttribute` of src/index.js:53; that error path is not modelled.
- JavaScript truthiness of arbitrary values: string options are
  `Option<string>`, truthy when present and non-empty. Intensity and smoothing
  are `Option<real>`; a non-string colour or a string intensity is not representable.
- Several controllers sharing one element, and other code writing the same
  properties, are not modelled beyond what plain aliasing of `Element`
  gives. An inert controller still records the resolved element in `el`
  but never touches it.
- Easing.EasingFrames: defined, and its convergence lemmas proved, only for smoothing in (0,1]; the source accepts any number, and values above 1 overshoot.
- Showcase.Spotlight.Tick: its "one fewer easing frame remains" clause is stated only for smoothing in (0,1].
