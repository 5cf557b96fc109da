# fxpixel LED engine — a Dafny model

fxpixel drives an addressable LED strip from *timelines*: ordered lists of
steps (draw an effect, sleep, sleep a random time, fire an HTTP trigger, loop
back to the start). This project models the engine's core and proves
properties of it:

- the effect and step kinds, parsed from their API names and printed by their
  generated `String` methods (`Effect`, `Step`);
- the colour helpers and the two artists that paint a gradient or a repeating
  sequence into the pixel buffer (`Strip.Color`, `Artist`);
- the functional options that configure a strip before the driver is opened
  (`Strip`);
- the step processors, each of which writes the shared pixel buffer in place
  and emits a trace of writes, waits and animation ticks (`ProcessEffect`),
  and the trigger, which shapes an HTTP request (`ProcessTrigger`);
- the registry of playing timelines and the timeline runner, with its
  cancellation checks and its `goto loopstart` back-edge (`Process`);
- the conversion between the stored and the API form of a timeline (`Api`).

Support modules: `Strings` and `Strconv` hold the parts of Go's `strings` and
`strconv` the core uses. `Pixarray` holds the driver's pixel type and
`SetAll`. `Trace` holds what the model can observe: events, the panic kinds,
and the oracles, described next.

**Outside world.** The model replaces everything outside the process by
parameters:
- A play's context is a `Cancellation` oracle. `After(n)` means that the
  first `n` checks see the context live and every later check sees it
  cancelled.
- `rand.Intn(n)` is the oracle's next number reduced modulo `n`.
- The library animations paint the buffer on `Start` and on every
  `NextStep`. What they paint is an oracle in the environment:
  `paint(k, i)` is pixel `i` of the `k`-th frame painted during the play.
- Whether the HTTP library accepts a method and URL is a predicate.
- Whether the driver opens a strip with given options is a predicate.
- The driver's pixel-order table and its GRB constant are values.
- RFC 3339 formatting is a function.
- A wait, a write and an animation tick become trace events instead of
  happening. A tick's event does not record the frame it paints; the buffer
  does.

**Fuel.** A Loop step and a ticker loop can run forever. Each back-edge uses
one unit of an explicit `fuel` budget. A run still going when the fuel is gone
ends as `OutOfFuel` (a processor status `Exhausted`), which means "still
running".

**Panics.** Go panics become values: a failed type assertion, an index out of
range, a modulo by zero, and `rand.Intn` of a non-positive bound. They end a
play as `Crashed(fault)`.

**Imperative parts.** Each imperative core operation is a method on an `array`
or a class, proved against a function of the old state:
- the processors and artists work on `array<Pixel>`;
- `NewStripOptions` folds option closures in a loop;
- `ProcessTrigger` folds header entries into a map in a loop;
- `BackgroundProcess` is a class whose map of playing timelines its methods
  update in place;
- `ProcessSteps` is the step loop;
- `TimelineToApi` and `ApiToTimeline` are the conversion loops.

**Behaviour of the code worth knowing.**
- A header entry is split on every colon and only `splits[1]` becomes the
  value. So `"X-Foo:bar:baz"` sets `X-Foo` to `"bar"`, and `":baz"` is
  dropped.
- A play registers itself before it reads the system configuration. A
  configuration or strip error therefore leaves its entry in the registry.
- `StartTimelinePlay` calls the Fade and Lightning processors without the
  context that their Go signatures take. The model passes the play's
  context.
- The timeline's GPIO is resolved only after the strip has been opened with
  the system pin. The resolved pin is stored in a field nothing reads again,
  so a timeline cannot choose the pin of its own strip.

## Model

| member | source | states |
|---|---|---|
| Effect.FromString | internal/data/const/effect/effects.go:21-44 | the result is always one of the constants 0..8 |
| Effect.FromStringUnicodeCase | internal/data/const/effect/effects.go:24 | Go's Unicode lower-casing lets the dotted capital I and the Kelvin sign match: "SOLİD" is Solid and "\u212Anightrider" is KnightRider |
| Effect.FromStringMatches | internal/data/const/effect/effects.go:24-43 | each effect is returned exactly when the lower-cased input is its name, and Unknown exactly when the input matches no name |
| Effect.FromStringIgnoresCase | internal/data/const/effect/effects.go:24 | inputs that differ only in letter case, as lower-casing sees it, parse alike |
| Effect.FromStringRejects | internal/data/const/effect/effects.go:22-43 | "", "unknown" and "knight-rider" are Unknown; "KnightRider" is KnightRider |
| Effect.IndexTableWellFormed | internal/data/const/effect/effecttype_string.go:22-24 | the index table has 10 strictly increasing entries from 0 to the name table's length 62 |
| Effect.String | internal/data/const/effect/effecttype_string.go:26-31 | names of in-range values are at most 11 characters; out-of-range values print as the longer "EffectType(...)" form |
| Effect.StringOfConstants | internal/data/const/effect/effecttype_string.go:10-30 | each constant 0..8 prints as its own name, which pins Unknown=0 … Lightning=8 |
| Effect.StringOutOfRange | internal/data/const/effect/effecttype_string.go:27-28 | outside 0..8 the text is "EffectType(" + decimal + ")" and the decimal parses back to the value |
| Effect.StringInjective | internal/data/const/effect/effecttype_string.go:22-30 | two values that print alike are equal |
| Effect.FromStringOfString | internal/data/const/effect/effecttype_string.go:26-31 | parsing the printed name returns the effect, for every effect including Unknown |
| Step.FromString | internal/data/const/step/steptypes.go:18-35 | the result is always one of the constants 0..5 |
| Step.FromStringMatches | internal/data/const/step/steptypes.go:21-32 | each step kind is returned exactly when the lower-cased input is its name, and Unknown exactly when the input matches no name |
| Step.FromStringIgnoresCase | internal/data/const/step/steptypes.go:21 | inputs that differ only in letter case, as lower-casing sees it, parse alike |
| Step.FromStringRejects | internal/data/const/step/steptypes.go:19-34 | "" and "random-sleep" are Unknown; "RandomSleep" is RandomSleep |
| Step.FromStringUnicodeCase | internal/data/const/step/steptypes.go:21 | Go's Unicode lower-casing lets the dotted capital I match: "TRİGGER" is Trigger |
| Step.String | internal/data/const/step/steptypes.go:7 | `StepType.String` as `stringer -type=StepType` generates it: a name of 4 to 11 letters for 0..5, and a text ending in ")" of at least 11 characters for any other value |
| Step.StringOfConstants | internal/data/const/step/steptypes.go:7-15 | each constant 0..5 prints as its own name, in declaration order |
| Step.StringOutOfRange | internal/data/const/step/steptypes.go:7 | outside 0..5 the text is "StepType(" + decimal + ")" and the decimal parses back to the value |
| Step.StringInjective | internal/data/const/step/steptypes.go:7-15 | two values that print alike are equal |
| Step.FromStringOfString | internal/data/const/step/steptypes.go:7-35 | parsing the printed name returns the step kind for every kind |
| Strip.Color | internal/leds/strip.go:20-42 | a list of three or four entries is the pixel's leading channels in order; W is zero unless a fourth entry gives it; any other length gives the all-zero pixel |
| Strip.ColorOfChannels | internal/leds/strip.go:32-39 | a four-entry channel list keeps every channel, W included |
| Strip.ApplySetsOnlyItsField | internal/leds/strip.go:44-72 | each option closure sets its own field to its value and leaves every other field |
| Strip.FoldKeepsCount | internal/leds/strip.go:98-111 | no option changes the LED count passed to `NewStrip` |
| Strip.FoldKeeps | internal/leds/strip.go:44-111 | a field that no option in the list sets keeps its value through the fold |
| Strip.UnsetFieldsKeepDefaults | internal/leds/strip.go:98-111 | after the options run, the LED count is the one passed in and every field no option sets keeps its default: GRB order, 800000 Hz, DMA 10, pins [18], three colours, brightness 0 |
| Strip.FoldSnoc | internal/leds/strip.go:109-111 | running a list of options and then one more is running the longer list |
| Strip.LaterOptionWins | internal/leds/strip.go:109-111 | an option that no later option overrides decides its field, so the last option for a field wins |
| Strip.NewStripOptions | internal/leds/strip.go:98-111 | the loop yields the defaults with every option applied in list order |
| Artist.Trunc | internal/leds/artist.go:7-10 | `int(x)` truncates toward zero: never past zero and less than one away from x |
| Artist.LerpAtZero | internal/leds/artist.go:5-12 | `lerp` at t = 0 is the first colour exactly |
| Artist.LerpChannelBetween | internal/leds/artist.go:7-10 | for 0 ≤ t ≤ 1 each channel lies between the two colours' channels; at t = 1 it is the end channel, and before that it reaches the end only when both ends are equal |
| Artist.LerpBetween | internal/leds/artist.go:5-12 | for 0 ≤ t ≤ 1 every channel of the lerped pixel lies between the colours' channels; t = 1 gives the end colour, and t < 1 gives it only when the two colours are equal |
| Artist.GradientFrameBounds | internal/leds/artist.go:25-28 | pixel 0 of a gradient is the start colour and every pixel's channels lie between the two colours |
| Artist.GradientDraw | internal/leds/artist.go:22-29 | with fewer than two colours it faults on the index and leaves the buffer unchanged; otherwise pixel i becomes `lerp(c1, c2, i/N)` for every i |
| Artist.SequenceFrameStarts | internal/leds/artist.go:36-39 | pixel i is colour i for the first len(colours) pixels |
| Artist.SequenceFramePeriodic | internal/leds/artist.go:36-39 | the pattern repeats with period len(colours) |
| Artist.SequenceDraw | internal/leds/artist.go:35-40 | with no colours and N > 0 it faults on the modulo and leaves the buffer unchanged; otherwise pixel i becomes `color(colours[i mod len])` |
| Pixarray.SetAll | internal/leds/process_effect.go:35 | every pixel of the buffer becomes the given pixel |
| ProcessEffect.MetaChannelsColor | internal/leds/process_effect.go:62-67 | a meta colour turned into a four-entry list comes back through `color` with W kept |
| ProcessEffect.SolidPaintsAll | internal/leds/process_effect.go:27-43 | every pixel becomes the meta colour, one write is emitted and the call ends normally |
| ProcessEffect.ProcessSolidEffect | internal/leds/process_effect.go:14-44 | type-assertion panic on a wrong payload; otherwise the buffer and the trace are those of the Solid specification |
| ProcessEffect.GradientEffectBounds | internal/leds/process_effect.go:62-72 | a gradient step writes once; pixel 0 is the start colour and every channel lies between the two meta colours |
| ProcessEffect.ProcessGradientEffect | internal/leds/process_effect.go:47-78 | the buffer and the trace are those of the Gradient specification, with its type-assertion case |
| ProcessEffect.ColorSequence | internal/leds/process_effect.go:199-209 | the colour list has the payload's length and order, one four-entry list per colour |
| ProcessEffect.SequenceEffectColors | internal/leds/process_effect.go:199-215 | pixel i is the meta colour at i mod len, W included |
| ProcessEffect.ProcessSequenceEffect | internal/leds/process_effect.go:184-221 | the buffer and the trace are those of the Sequence specification: type-assertion and modulo-by-zero faults included |
| ProcessEffect.Halve | internal/leds/process_effect.go:123 | Go's `/ 2`, truncating toward zero for negative operands too |
| ProcessEffect.LightningSettings | internal/leds/process_effect.go:96-117 | four numbers are always drawn, whatever the payload holds, and nothing else of the environment changes |
| ProcessEffect.LightningDefaults | internal/leds/process_effect.go:96-117 | non-zero fields are kept; a zero field takes its own draw: bursts the first (below 5), spacing the second (below 5), length the third (below 100), brightness the fourth (below 128) |
| ProcessEffect.FlashPixelChannels | internal/leds/process_effect.go:120-128 | the flash pixel is R = G = 0, W = brightness, B = brightness+1 halved toward zero |
| ProcessEffect.BurstLoop | internal/leds/process_effect.go:143-178 | the burst loop never changes the buffer's length and never fails |
| ProcessEffect.BurstsUncancelled | internal/leds/process_effect.go:143-178 | never cancelled, it runs every burst: flash on, wait length, off, wait spacing (after the last burst too), and ends dark |
| ProcessEffect.BurstsCancelled | internal/leds/process_effect.go:145-175 | a cancellation seen after j whole bursts gives those j bursts' events and then, by where in the next burst it falls, a blanked strip, a strip left lit, or a full flash followed by a dark strip |
| ProcessEffect.LightningThreeBursts | internal/leds/process_effect.go:81-181 | three bursts of brightness 128 emit three flashes of Pixel(0, 0, 64, 128) |
| ProcessEffect.BurstOnce | internal/leds/process_effect.go:143-178 | one pass of the burst loop either ends it at a cancellation, with the events and strip the loop specification gives, or leaves exactly the remaining bursts to run |
| ProcessEffect.ProcessLightningEffect | internal/leds/process_effect.go:81-181 | the buffer, the trace and the oracle state are those of the Lightning specification |
| ProcessEffect.TickLoopEndsByCancellation | internal/leds/process_effect.go:249-270 | a context cancelled after k live checks sees exactly k ticks, then a dark write, and the call ends normally |
| ProcessEffect.TickLoopNeverEndsUncancelled | internal/leds/process_effect.go:249-270 | never cancelled, the ticker loop only ends when the fuel runs out, showing the animation's last frame: a zero from `NextStep` leaves only the `select` |
| ProcessEffect.PaintBuffer | internal/leds/process_effect.go:245-252 | the buffer becomes the animation's next frame, and one frame of the oracle is used |
| ProcessEffect.Animate | internal/leds/process_effect.go:236-270 | the ticker loop method matches the Start-then-tick specification on buffer, trace and oracle state |
| ProcessEffect.ProcessFadeEffect | internal/leds/process_effect.go:224-273 | type-assertion panic on a wrong payload; otherwise a fade animation to the meta colour over the step time |
| ProcessEffect.ProcessKnightRiderEffect | internal/leds/process_effect.go:276-313 | a KnightRider animation of 1000 ms and width 5 under the ticker loop |
| ProcessEffect.ProcessRainbowEffect | internal/leds/process_effect.go:316-351 | a Rainbow animation of 20000 ms under the ticker loop |
| ProcessEffect.ZipDuration | internal/leds/process_effect.go:369-372 | a zip never runs for zero time: a non-zero step time is used as it is, and 0 becomes 2000 ms |
| ProcessEffect.ProcessZipEffect | internal/leds/process_effect.go:354-405 | type-assertion panic on a wrong payload; otherwise a zip animation using that duration |
| ProcessTrigger.DefaultVerb | internal/leds/process_trigger.go:20-22 | the request always gets a non-empty method: an empty verb becomes "POST" and any other verb is kept |
| ProcessTrigger.HeaderPairPieces | internal/leds/process_trigger.go:47-49 | an entry has a key and value exactly when it contains a colon: the text before the first colon, and the text between the first and second |
| ProcessTrigger.NoColonCount | internal/leds/process_trigger.go:47 | an entry without a colon counts no separator and splits into a single piece, the entry itself, so `splits[1]` is out of range |
| ProcessTrigger.HeaderPairDropsRest | internal/leds/process_trigger.go:47-49 | for "key:value:more" the value is only "value"; the rest is dropped |
| ProcessTrigger.HeaderPairExample | internal/leds/process_trigger.go:47-49 | "X-Foo:bar:baz" sets X-Foo to "bar" |
| ProcessTrigger.SetHeadersFails | internal/leds/process_trigger.go:44-50 | the header loop panics exactly when some entry has no colon |
| ProcessTrigger.LastEntryWins | internal/leds/process_trigger.go:41-50 | the final value of a key is the one from the last entry for it, or the earlier value when no entry names it, so a custom Content-Type replaces the default |
| ProcessTrigger.TriggerOutcomes | internal/leds/process_trigger.go:14-62 | wrong payload panics; a rejected request returns before any header is processed and sends nothing; otherwise one request is sent with the defaulted verb, the URL, the body and the folded headers |
| ProcessTrigger.ProcessTrigger | internal/leds/process_trigger.go:14-62 | the header loop method returns exactly the trigger specification's status and events |
| Trace.CancelledStays | internal/leds/process.go:334-336 | once a context is seen cancelled, every later check sees it cancelled |
| Trace.LiveExactlyPolls | internal/leds/process.go:231-337 | a context cancelled after n checks is live for exactly the first n checks |
| Trace.Intn | internal/leds/process.go:265 | a draw for a positive bound lies in [0, bound) and uses one oracle number |
| Process.StepSpec | internal/leds/process.go:235-332 | a step keeps the buffer's length, never adds fuel and never completes the play by itself; a Loop step always restarts |
| Process.Turn | internal/leds/process.go:231-337 | a turn keeps the buffer's length, never adds fuel and never completes the play; at a Loop step it never goes on to the next step |
| Process.CompletedMeansNoLoop | internal/leds/process.go:228-343 | a play completes only if no step from its position to the end is a Loop step, so a timeline with a Loop step never deregisters by itself |
| Process.CancelledBeforeFirstStep | internal/leds/process.go:231-336 | a play whose context is already cancelled ends Cancelled with an empty trace |
| Process.StepDispatch | internal/leds/process.go:235-330 | Unknown steps and KnightRider, Rainbow, Zip or Unknown effects only log; Solid paints, writes and holds for the step time; a cancelled hold ends the play; Loop restarts |
| Process.RandomSleepBounds | internal/leds/process.go:263-274 | a non-positive time panics in `rand.Intn`; otherwise it waits a drawn time in [0, Time) |
| Process.FadeNeverReturnsUncancelled | internal/leds/process.go:279-280 | a Fade step gets no hold of its own, and never cancelled it keeps the play running until the fuel is gone |
| Process.BlinkForever | internal/leds/process.go:228-325 | a timeline of two Solid steps and a Loop step, never cancelled, shows the two colours in turn once plus once per unit of fuel and never completes |
| Process.ResolveGpio | internal/leds/process.go:216-219 | a valid timeline GPIO wins, even 0, and so does any non-zero one; the system pin is used exactly for a null GPIO of 0, the unset case |
| Process.RunnerStripUsesSystemPin | internal/leds/process.go:183-188 | the strip is opened on [system GPIO], the system LED count, colour count and pixel order, and the other defaults |
| Process.ResetGoesDark | internal/leds/process.go:86-107 | played uncancelled, the reset timeline writes an all-off frame, holds 1 ms and completes |
| Process.ProcessStep | internal/leds/process.go:235-332 | the step switch method changes the buffer and emits the events its specification says |
| Process.TakeTurn | internal/leds/process.go:231-337 | one turn: a cancelled context ends the play, otherwise the step runs |
| Process.LoopBody | internal/leds/process.go:228-338 | one pass of the step loop either ends the play with the outcome the runner specification gives, or moves to the next step or, after a Loop step, back to the first with one unit of fuel less |
| Process.ProcessSteps | internal/leds/process.go:228-338 | the step loop with its back-edge matches the runner specification on buffer, trace, oracle state and outcome |
| Process.CancelAll | internal/leds/process.go:118-127 | every registered cancel function is called, once per entry |
| Process.BackgroundProcess.constructor | internal/leds/process.go:57-58 | the registry starts empty |
| Process.BackgroundProcess.HandlePlay | internal/leds/process.go:64-68 | a play request starts one play and changes nothing else |
| Process.BackgroundProcess.HandleStop | internal/leds/process.go:70-109 | a present id is cancelled and removed; an absent id changes nothing; either way one reset play "Stopping_" + id starts |
| Process.BackgroundProcess.HandleStopAll | internal/leds/process.go:111-152 | every registered play is cancelled, the map is left empty and one reset play "Stopping_all" starts |
| Process.Register | internal/leds/process.go:171-173 | registering a play under a fresh handle keeps every handle unique and below the next one |
| Process.Forget | internal/leds/process.go:340-343 | removing plays from the map keeps it well formed |
| Process.DarkBuffer | internal/leds/process.go:195 | a new pixel array of the configured length is all off |
| Process.PlayOn | internal/leds/process.go:183-338 | the strip is opened with the system settings; a refused strip ends the play with no events; otherwise the outcome and events are those of the step loop on a dark buffer, with the GPIO resolved |
| Process.BackgroundProcess.StartTimelinePlay | internal/leds/process.go:162-346 | the play registers under a fresh handle (replacing any entry for its id) before reading the configuration; a missing configuration ends it with no events; otherwise it plays as `PlayOn` states; only a completed run deregisters |
| Api.MetaToApi | api/convert.go:38-130 | the payload is converted exactly when it has the record type its kind asserts, else a type-assertion panic; kinds without a payload give nil |
| Api.SequenceToApi | api/convert.go:80-93 | the sequence copy keeps length, order and every channel |
| Api.StepToApi | api/convert.go:27-35 | ID, Number, Leds and Time are copied, the kinds printed by their `String` methods |
| Api.ToApiShape | api/convert.go:14-138 | the conversion panics exactly when some step is not well typed; otherwise it copies the base fields, drops GPIO validity and keeps the steps in number and order |
| Api.TimelineToApi | api/convert.go:14-138 | the loop matches the conversion function, its panic included |
| Api.DecodeColorRoundTrip | api/convert.go:164-199 | a colour written into a Solid, Fade or Zip payload is read back unchanged from the shared `color` key |
| Api.MetaFromApi | api/convert.go:167-215 | kinds without a payload give nil; every other kind gets a payload of its own record type |
| Api.StepFromApi | api/convert.go:154-161 | the kinds are parsed with `FromString`; Leds and Time are always marked valid, with Time cut to 32 bits |
| Api.FromApi | api/convert.go:141-223 | the base fields are copied, Created is left zero, GPIO is cut to 32 bits and marked valid, and the steps keep their number and order |
| Api.ApiToTimeline | api/convert.go:141-223 | the loop matches the conversion function |
| Api.ApiTimelineOverridesGpio | api/convert.go:148 | a timeline built from the API always overrides the system GPIO, even with gpio 0 |
| Api.FromApiConvertsBack | api/convert.go:141-223 | a timeline built from the API always converts back without panicking |
| Api.MetaRoundTrip | api/convert.go:38-215 | each well-typed payload survives the trip to the API and back |
| Api.StepRoundTrip | api/convert.go:27-161 | a canonical step survives the trip to the API and back |
| Api.TimelineRoundTrip | api/convert.go:14-223 | a timeline of canonical steps with a valid GPIO comes back unchanged except that Created is reset |
| Api.ApiKindsNormalised | api/convert.go:30-157 | the trip from the API prints the kinds back by their canonical names, so "SLEEP" comes back as "Sleep" |
| Data.ToInt32 | api/convert.go:148-159 | `int32(x)` keeps x modulo 2^32 and is the identity on the int32 range |
| Strings.JoinSplit | internal/leds/process_trigger.go:47 | `strings.Split` loses nothing: joining the pieces with the separator gives the input back |
| Strings.SplitCount | internal/leds/process_trigger.go:47 | there is one more piece than there are separators |

## Left out

- Floating point: `lerp` and `Gradient.Draw` compute in float32. The model
  uses exact rationals, truncated toward zero like `int(...)`, so rounding
  of float32 products is not modelled.
- `Scale`, `GammaCorrect` and the brightness strip wrapper. They depend on
  float32 and on driver code that is not part of this model. The
  `Brightness` option is kept only as a field.
- The driver: `pixarray.NewWS281x`, `NewPixArray`, `Write` and
  `StringOrders` are foreign code. So are the Fade, KnightRider, Rainbow and
  Zip animations. What they paint is an oracle, and the `NextStep` duration
  they return is not modelled, since the loop ignores it. Write errors are
  only logged by the source; the model drops them.
- Strings.LowerChar, Strings.UpperChar: Go's Unicode case mapping is kept only
  where it produces ASCII: the ASCII letters, U+0130 and U+212A for
  lower-casing, U+0131 and U+017F for upper-casing. Other non-ASCII letters
  are left as they are. Go maps them to other non-ASCII letters, which never
  equal an ASCII name or key, so every name lookup gives the same result.
- Concurrency: the goroutines, the mutex, the request channels and the
  `select` over them. The registry is a sequential state machine; each
  request is one method call, and a spawned play is recorded and then run by
  `StartTimelinePlay` on its own. The system context shutting down the
  request loop is not modelled.
- `select` with both branches ready: Go picks one at random. In the model a
  check that sees a cancelled context always takes the cancellation branch.
- A Go panic ends the whole program. The model ends only the play, as
  `Crashed`, and leaves its registry entry in place.
- Real time and randomness: waits are events, and `rand.Seed` is not
  modelled. `rand.Intn` is an oracle.
- HTTP sending, the 10 s client timeout, the response and `http.Header`
  key canonicalisation. The header is a plain map, and sending a request is
  an event.
- `encoding/json` is modelled for typed payloads only: keys shared by two
  record types carry across, everything else decodes to the zero record. A
  payload that fails to decode is not modelled, and the logging on that path
  is dropped.
- RFC 3339 formatting of Created is a function parameter.
- Go's `int` is 64 bits wide; the model uses unbounded integers except where
  the source truncates to `int32`.
- The system configuration store: `GetSystemConfig` is a parameter
  (`None` when it fails).
- Process.RunFrom: bounded by fuel. A Loop back-edge or a tick beyond the fuel
  ends the run as `OutOfFuel`, so runs longer than the fuel are not described.
- A negative LED count: the buffer size is a natural number.
