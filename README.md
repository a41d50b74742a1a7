# Weed detector: per-frame decision and pump notifier

The weed detector is a browser page. It runs an object-detection model on
every camera frame, draws a box around each detected weed, and switches a
pump attached to an ESP32 board through plain HTTP requests. This project
models the logic between the model's output and the pump. It does not model
the camera or the model.

- `Detection` (`detection.dfy`) models `drawResults`. The model's three
  index-aligned outputs (`boxes`, `scores`, `classes`) are scanned. An entry
  is kept when its score is strictly above 0.6 and its class is 1 (weed).
  The kept entries are folded into one boolean, `weedDetected`, and the
  notifier is called exactly once with it. `ScanDetections` is the selection
  loop. `DrawResults` is the loop followed by the call to the notifier.
- `Pump` (`pump.dfy`) models `sendPumpSignal` and its module-level
  `lastState` (`null`, then `true` or `false`). The class `PumpNotifier`
  holds `lastState`. It also holds two ghost fields: the arguments it
  received (`calls`) and the URLs it requested (`sent`). Its invariant ties
  both to pure functions of the call history, `StateAfter` and `Requests`.
  The lemmas about `Requests` therefore hold for every sequence of frame
  outcomes.

Modelling choices:

- Scores and classes are `real`. The threshold is the real 3/5. No IEEE
  double lies strictly between the double nearest 0.6 and 3/5. So for every
  double-valued score `s`, `s > 0.6` in JavaScript agrees with `s > 3/5`.
- `classes[i] === 1` past the end of `classes` compares `undefined` with 1.
  That is false, so such an entry is simply not selected. Shorter `classes`
  arrays are therefore admitted rather than excluded by a precondition.
- A selected entry with no box makes the destructuring
  `const [ymin, xmin, ymax, xmax] = boxes[i]` throw. `drawResults` then
  stops before reaching `sendPumpSignal`. The model returns `BoxMissing(i)`
  at the first such index and leaves the notifier unchanged. Shorter
  `boxes` arrays are therefore admitted rather than excluded by a
  precondition.
- `sendPumpSignal` is `async`, but everything up to the `fetch` runs before
  its first `await`: the comparison, the update of `lastState` and building
  the URL. Modelling it as a synchronous method is therefore exact. The
  outcome of the request never changes any state, because a failure is only
  logged. `SendPumpSignal` therefore ensures `lastState == Some(on)` whether
  or not the board answers.
- One might expect the frame outcomes no, no, yes to send only
  `/pump/on`. The code also sends `/pump/off` on the first frame, because
  `lastState` starts as `null`. `ThreeFrameScenario` states this.
- `lastState` records the state decided on, not the state confirmed by the
  board. `RepeatSendsNothing` has a consequence: a lost request is never
  re-sent while the frame outcome stays the same. If a `/pump/on` request
  fails, the pump stays off for as long as weed stays detected. Only a
  change of outcome sends a new request.

## Model

| member | source | states |
|---|---|---|
| Detection.ScanDetections | script.js:51-69 | The scan throws exactly when some selected entry has no box. It throws at the first such entry. Otherwise `weedDetected` is true iff some index below `scores.length` has score > 0.6 and class 1. `drawn` lists exactly the selected indices, in increasing order. |
| Detection.DrawResults | script.js:49-78 | When the scan completes, the notifier is called exactly once with the frame's outcome. Its `lastState` and request log change as `sendPumpSignal` prescribes. When the scan throws, the notifier is untouched. |
| Detection.DropUnselected | script.js:53-54 | Removing an entry that is not selected never changes whether weed is detected. |
| Detection.ExactThresholdIgnored | script.js:54 | An entry scoring exactly 0.6 has no effect on the outcome, even with class 1. |
| Detection.OtherClassIgnored | script.js:54 | An entry whose class is not 1 has no effect on the outcome, whatever its score. |
| Detection.PixelRect | script.js:56-59 | The drawn rectangle's right and bottom edges are `xmax * canvas.width` and `ymax * canvas.height`. |
| Detection.PixelRectExample | script.js:56-59 | The box (0.1, 0.2, 0.5, 0.6) gives the rectangle at (0.2 W, 0.1 H) with width 0.4 W and height 0.4 H. |
| Pump.PumpUrl | script.js:85 | The URL is the board's base address followed by exactly `/pump/on` or `/pump/off`. |
| Pump.PumpStateOf | script.js:85 | Decodes the `/pump/on` / `/pump/off` URL format. Any URL it decodes as a pump state is the URL built for that state. |
| Pump.UrlRoundTrip | script.js:85 | The URL built for a state decodes back to that state. |
| Pump.PumpUrlInjective | script.js:85 | "On" and "off" are never requested with the same URL. |
| Pump.PumpNotifier.constructor | script.js:81 | `lastState` starts as `null`, with no calls and no requests. |
| Pump.PumpNotifier.SendPumpSignal | script.js:82-92 | If the argument equals `lastState`, nothing is sent and `lastState` is unchanged. Otherwise `lastState` becomes the argument, with no rollback on failure, and exactly one request goes to the URL for that state. The invariant `sent == Requests(calls)` is kept. |
| Pump.RequestCount | script.js:83-91 | Over any sequence of calls, the number of requests equals the number of calls whose argument differs from the previous `lastState`. |
| Pump.RequestsAlternate | script.js:83-87 | No two consecutive requests issued are the same. After at least one call, the last request asks for the state of the last call. |
| Pump.RepeatSendsNothing | script.js:83 | Passing the same value twice in a row sends at most one request in total. The second call sends nothing. |
| Pump.FirstCallSends | script.js:81-83 | The first call always sends a request, for `true` and for `false` alike. |
| Pump.ThreeFrameScenario | script.js:71-87 | The frame outcomes no, no, yes give exactly the requests `/pump/off`, `/pump/on`. |

## Left out

- Camera acquisition (`setupCamera`) is not modelled. It is browser I/O.
- Model loading and inference (`loadModel`, and `detectFrame` up to the
  call of `drawResults`) are not modelled. They belong to an external
  library. The three output arrays are the inputs of `ScanDetections` and
  `DrawResults`.
- The `requestAnimationFrame` loop and the `init` startup sequence are not
  modelled. They are asynchronous scheduling. The same applies to the
  exception a missing box raises: it also ends the frame loop, which is not
  modelled.
- Canvas drawing is not modelled. This covers clearing the canvas, stroke
  and fill styles, and the label text and its position (`y > 10 ? y - 5 : 10`).
  The model states which boxes are drawn (`drawn`) and where (`PixelRect`),
  not the pixels.
- The status text set on the page is not modelled. It is a UI side effect.
- The network effect of `fetch` and the console messages are not modelled.
  A request is recorded as its URL in the ghost log `sent`. Its success or
  failure does not affect any state.
- Delivery order and lost requests are not modelled. `drawResults` does not
  await `sendPumpSignal`, so requests can be in flight together, and a
  failed request is only logged. Nothing is claimed about what the board
  receives, only about the requests issued (`sent`).
- IEEE doubles are not modelled: NaN, infinities and rounding in the pixel
  arithmetic. Coordinates and scores are reals. A box is always four numbers.
  A shorter box array would yield `undefined` coordinates, and that case is
  not represented.
- The start/stop toggle and the "pump off on stop" behaviour are not part of
  this revision of the code, so they are not modelled.
