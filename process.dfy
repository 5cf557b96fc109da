/** `process.go`: the registry of playing timelines and the timeline runner.
    The `HandleAndProcess` loop is modelled as one method per request it
    handles, run one at a time; the goroutines it starts are recorded in
    `spawned`, and each play is then run by `StartTimelinePlay` on its own. */
module Process {
  import opened Pixarray
  import opened Trace
  import Data
  import Effect
  import Step
  import Strip
  import ProcessEffect
  import ProcessTrigger

  /** The system configuration read from the database: pin, LED count, pixel
      order name and colours per pixel. */
  datatype SystemConfig = SystemConfig(GPIO: int, LEDs: nat, PixelOrder: string, NumberOfColors: int)

  /** `PlayTimelineRequest`. */
  datatype PlayRequest = PlayRequest(ProcessID: string, RequestedTimeline: Data.Timeline)

  /** A cancel function, identified by the play that created it. */
  type Handle = nat

  // ---------------------------------------------------------------- steps

  /** How a play ends. */
  datatype Outcome =
    | Completed          // fell off the end of the step list
    | Cancelled          // its context was seen cancelled
    | Crashed(fault: Fault)
    | OutOfFuel          // still running when the fuel ran out
    | ConfigError        // the system configuration could not be read
    | StripError         // the strip could not be opened

  /** What the runner does after a step. */
  datatype Next = Continue | Restart | Halt(outcome: Outcome)

  datatype Stepped = Stepped(frame: seq<Pixel>, events: seq<Event>, env: Env, next: Next)

  /** `select` on a timer of `ms` and on the context: a cancelled context ends
      the play, otherwise the wait runs out and the runner goes on. */
  function Hold(ms: int, frame: seq<Pixel>, events: seq<Event>, env: Env): (r: Stepped)
    ensures r.frame == frame && r.env.fuel == env.fuel && r.next != Halt(Completed)
  {
    var (cancelled, e1) := Poll(env);
    if cancelled then Stepped(frame, events, e1, Halt(Cancelled))
    else Stepped(frame, events + [Wait(ms)], e1, Continue)
  }

  /** A drawn effect followed by a hold of the step's time. */
  function PaintThenHold(p: ProcessEffect.Painted, ms: int, env: Env): (r: Stepped)
    ensures r.env.fuel == env.fuel && r.frame == p.frame && r.next != Halt(Completed)
  {
    if p.status.Panicked? then Stepped(p.frame, p.events, env, Halt(Crashed(p.status.fault)))
    else Hold(ms, p.frame, p.events, env)
  }

  /** The runner's view of an animation or lightning call: it goes on with the
      next step once the call returns. */
  function AfterEffect(r: ProcessEffect.Effected): (s: Stepped)
    ensures s.next != Halt(Completed)
  {
    match r.status
    case Ok => Stepped(r.frame, r.events, r.env, Continue)
    case Panicked(f) => Stepped(r.frame, r.events, r.env, Halt(Crashed(f)))
    case Exhausted => Stepped(r.frame, r.events, r.env, Halt(OutOfFuel))
  }

  /** The effect switch of the runner. */
  function EffectStep(step: Data.TimelineStep, frame: seq<Pixel>, env: Env, rng: nat -> int): (r: Stepped)
    ensures |r.frame| == |frame| && r.env.fuel <= env.fuel && r.next != Halt(Completed)
  {
    var ms := step.Time.Int32;
    if step.Effect == Effect.Fade then AfterEffect(ProcessEffect.FadeSpec(step, frame, env))
    else if step.Effect == Effect.Gradient then PaintThenHold(ProcessEffect.GradientSpec(step, frame), ms, env)
    else if step.Effect == Effect.Lightning then AfterEffect(ProcessEffect.LightningSpec(step, frame, rng, env))
    else if step.Effect == Effect.Sequence then PaintThenHold(ProcessEffect.SequenceSpec(step, frame), ms, env)
    else if step.Effect == Effect.Solid then PaintThenHold(ProcessEffect.SolidSpec(step, frame), ms, env)
    else Stepped(frame, [], env, Continue)  // KnightRider, Rainbow, Zip and others only log
  }

  /** The step switch of the runner, after the cancellation check. */
  function StepSpec(step: Data.TimelineStep, frame: seq<Pixel>, env: Env, rng: nat -> int,
                    validRequest: (string, string) -> bool): (r: Stepped)
    ensures |r.frame| == |frame| && r.env.fuel <= env.fuel && r.next != Halt(Completed)
    ensures step.Type == Step.Loop ==> r.next == Restart
  {
    if step.Type == Step.Loop then Stepped(frame, [], env, Restart)
    else if step.Type == Step.Trigger then
      var (status, events) := ProcessTrigger.TriggerSpec(step, validRequest);
      if status.Panicked? then Stepped(frame, events, env, Halt(Crashed(status.fault)))
      else Stepped(frame, events, env, Continue)
    else if step.Type == Step.Sleep then Hold(step.Time.Int32, frame, [], env)
    else if step.Type == Step.RandomSleep then
      if step.Time.Int32 <= 0 then Stepped(frame, [], env, Halt(Crashed(IntnNonPositive)))
      else
        var (ms, e1) := Intn(rng, env, step.Time.Int32);
        Hold(ms, frame, [], e1)
    else if step.Type == Step.Effect then EffectStep(step, frame, env, rng)
    else Stepped(frame, [], env, Continue)  // Unknown and unnamed step types only log
  }

  datatype Ran = Ran(frame: seq<Pixel>, events: seq<Event>, env: Env, outcome: Outcome)

  /** One turn of the step loop: the context check, then the step. A context
      seen cancelled ends the play before the step runs. */
  function Turn(step: Data.TimelineStep, frame: seq<Pixel>, env: Env, rng: nat -> int,
                validRequest: (string, string) -> bool): (r: Stepped)
    ensures |r.frame| == |frame| && r.env.fuel <= env.fuel && r.next != Halt(Completed)
    ensures step.Type == Step.Loop ==> !r.next.Continue?
  {
    var (cancelled, e1) := Poll(env);
    if cancelled then Stepped(frame, [], e1, Halt(Cancelled))
    else StepSpec(step, frame, e1, rng, validRequest)
  }

  /** The step loop from step `i`: the context is checked before every step; a
      Loop step jumps back to the first step, using one unit of fuel. */
  function RunFrom(steps: seq<Data.TimelineStep>, i: nat, frame: seq<Pixel>, env: Env, rng: nat -> int,
                   validRequest: (string, string) -> bool): (r: Ran)
    ensures |r.frame| == |frame|
    decreases env.fuel, |steps| - i, 1
  {
    if i >= |steps| then Ran(frame, [], env, Completed)
    else Resume(steps, i, Turn(steps[i], frame, env, rng, validRequest), rng, validRequest)
  }

  /** The rest of the loop once the turn at step `i` produced `s`. */
  function Resume(steps: seq<Data.TimelineStep>, i: nat, s: Stepped, rng: nat -> int,
                  validRequest: (string, string) -> bool): (r: Ran)
    requires i < |steps|
    ensures |r.frame| == |s.frame|
    decreases s.env.fuel, |steps| - i, 0
  {
    match s.next
    case Continue =>
      var rest := RunFrom(steps, i + 1, s.frame, s.env, rng, validRequest);
      rest.(events := s.events + rest.events)
    case Restart =>
      if s.env.fuel == 0 then Ran(s.frame, s.events, s.env, OutOfFuel)
      else
        var rest := RunFrom(steps, 0, s.frame, s.env.(fuel := s.env.fuel - 1), rng, validRequest);
        rest.(events := s.events + rest.events)
    case Halt(o) => Ran(s.frame, s.events, s.env, o)
  }

  /** A play completes only after running every step from `i` to the end, so no
      step there is a Loop: a timeline with a Loop step never deregisters by
      itself. */
  lemma {:induction false} CompletedMeansNoLoop(steps: seq<Data.TimelineStep>, i: nat, frame: seq<Pixel>, env: Env,
                                                rng: nat -> int, validRequest: (string, string) -> bool)
    requires RunFrom(steps, i, frame, env, rng, validRequest).outcome == Completed
    ensures forall k :: i <= k < |steps| ==> steps[k].Type != Step.Loop
    decreases env.fuel, |steps| - i
  {
    if i < |steps| {
      var s := Turn(steps[i], frame, env, rng, validRequest);
      if s.next.Continue? {
        CompletedMeansNoLoop(steps, i + 1, s.frame, s.env, rng, validRequest);
      } else if s.next.Restart? && s.env.fuel > 0 {
        CompletedMeansNoLoop(steps, 0, s.frame, s.env.(fuel := s.env.fuel - 1), rng, validRequest);
      }
    }
  }

  /** The context is checked before the first step: a play whose context is
      already cancelled emits nothing. */
  lemma CancelledBeforeFirstStep(steps: seq<Data.TimelineStep>, frame: seq<Pixel>, env: Env,
                                 rng: nat -> int, validRequest: (string, string) -> bool)
    requires |steps| > 0 && IsCancelled(env.cancel)
    ensures RunFrom(steps, 0, frame, env, rng, validRequest).outcome == Cancelled
    ensures RunFrom(steps, 0, frame, env, rng, validRequest).events == []
  {
  }

  /** Solid, Gradient and Sequence draw, write and then hold for the step's
      time; Unknown steps and the KnightRider, Rainbow and Zip effects do
      nothing but log. */
  lemma StepDispatch(step: Data.TimelineStep, frame: seq<Pixel>, env: Env, rng: nat -> int,
                     validRequest: (string, string) -> bool)
    ensures step.Type == Step.Unknown ==> StepSpec(step, frame, env, rng, validRequest) == Stepped(frame, [], env, Continue)
    ensures step.Type == Step.Effect && step.Effect in {Effect.KnightRider, Effect.Rainbow, Effect.Zip, Effect.Unknown} ==>
      StepSpec(step, frame, env, rng, validRequest) == Stepped(frame, [], env, Continue)
    ensures step.Type == Step.Effect && step.Effect == Effect.Solid && step.MetaInfo.SolidMeta? && env.cancel == Never ==>
      var f := Fill(|frame|, ProcessEffect.MetaPixel(step.MetaInfo.Color));
      StepSpec(step, frame, env, rng, validRequest) == Stepped(f, [Show(f), Wait(step.Time.Int32)], env, Continue)
    ensures step.Type == Step.Effect && step.Effect in {Effect.Solid, Effect.Gradient, Effect.Sequence} && IsCancelled(env.cancel) ==>
      StepSpec(step, frame, env, rng, validRequest).next.Halt?
    ensures step.Type == Step.Loop ==> StepSpec(step, frame, env, rng, validRequest).next == Restart
  {
  }

  /** RandomSleep panics for a non-positive time; otherwise it waits a drawn
      time below the step's time. */
  lemma RandomSleepBounds(step: Data.TimelineStep, frame: seq<Pixel>, env: Env, rng: nat -> int,
                          validRequest: (string, string) -> bool)
    requires step.Type == Step.RandomSleep
    ensures var r := StepSpec(step, frame, env, rng, validRequest);
      (step.Time.Int32 <= 0 ==> r.next == Halt(Crashed(IntnNonPositive)) && r.events == []) &&
      (step.Time.Int32 > 0 && env.cancel == Never ==>
        r.next == Continue && |r.events| == 1 && r.events[0].Wait? &&
        0 <= r.events[0].ms < step.Time.Int32 && r.env.draws == env.draws + 1)
  {
  }

  /** A Fade step gets no hold of its own, and its ticker loop ends only by
      cancellation: never cancelled, a play that reaches it runs until the fuel
      is gone. */
  lemma FadeNeverReturnsUncancelled(step: Data.TimelineStep, frame: seq<Pixel>, env: Env, rng: nat -> int,
                                    validRequest: (string, string) -> bool)
    requires step.Type == Step.Effect && step.Effect == Effect.Fade && step.MetaInfo.FadeMeta? && env.cancel == Never
    ensures StepSpec(step, frame, env, rng, validRequest).next == Halt(OutOfFuel)
  {
    var first := Paint(env, |frame|);
    ProcessEffect.TickLoopNeverEndsUncancelled(ProcessEffect.FadeAnimation(step), first.0, first.1);
  }

  /** A Solid step of the given colour and time. */
  function SolidStep(c: Data.MetaColor, ms: Data.Int32): Data.TimelineStep {
    Data.TimelineStep("", Step.Effect, Effect.Solid, Data.NullString("", false), Data.NullInt32(ms, true),
                      Data.SolidMeta(c), 0)
  }

  /** A Loop step. */
  const LoopStep: Data.TimelineStep :=
    Data.TimelineStep("", Step.Loop, Effect.Unknown, Data.NullString("", false), Data.NullInt32(0, false),
                      Data.NoMeta, 0)

  /** A timeline that shows two colours in turn and loops. */
  function Blinker(c1: Data.MetaColor, t1: Data.Int32, c2: Data.MetaColor, t2: Data.Int32): seq<Data.TimelineStep> {
    [SolidStep(c1, t1), SolidStep(c2, t2), LoopStep]
  }

  /** What one pass of `Blinker` writes and waits on a strip of `n` pixels. */
  function Blink(c1: Data.MetaColor, t1: Data.Int32, c2: Data.MetaColor, t2: Data.Int32, n: nat): seq<Event> {
    [Show(Fill(n, ProcessEffect.MetaPixel(c1))), Wait(t1), Show(Fill(n, ProcessEffect.MetaPixel(c2))), Wait(t2)]
  }

  /** Never cancelled, one pass of `Blinker` runs both Solid steps and reaches
      the Loop step with the second colour shown. */
  lemma BlinkOnce(c1: Data.MetaColor, t1: Data.Int32, c2: Data.MetaColor, t2: Data.Int32,
                  frame: seq<Pixel>, env: Env, rng: nat -> int, validRequest: (string, string) -> bool)
    requires env.cancel == Never
    ensures var steps := Blinker(c1, t1, c2, t2);
      var f2 := Fill(|frame|, ProcessEffect.MetaPixel(c2));
      var r := RunFrom(steps, 0, frame, env, rng, validRequest);
      var r2 := Resume(steps, 2, Stepped(f2, [], env, Restart), rng, validRequest);
      r == r2.(events := Blink(c1, t1, c2, t2, |frame|) + r2.events)
  {
    var steps := Blinker(c1, t1, c2, t2);
    var n := |frame|;
    var f1 := Fill(n, ProcessEffect.MetaPixel(c1));
    var f2 := Fill(n, ProcessEffect.MetaPixel(c2));
    assert Poll(env) == (false, env);
    StepDispatch(steps[0], frame, env, rng, validRequest);
    StepDispatch(steps[1], f1, env, rng, validRequest);
    StepDispatch(steps[2], f2, env, rng, validRequest);
    var s0 := Stepped(f1, [Show(f1), Wait(t1)], env, Continue);
    var s1 := Stepped(f2, [Show(f2), Wait(t2)], env, Continue);
    var s2 := Stepped(f2, [], env, Restart);
    assert Turn(steps[0], frame, env, rng, validRequest) == s0;
    assert Turn(steps[1], f1, env, rng, validRequest) == s1;
    assert Turn(steps[2], f2, env, rng, validRequest) == s2;
    var r2 := Resume(steps, 2, s2, rng, validRequest);
    assert RunFrom(steps, 2, f2, env, rng, validRequest) == r2;
    var r1 := RunFrom(steps, 1, f1, env, rng, validRequest);
    assert r1 == Resume(steps, 1, s1, rng, validRequest);
    assert r1 == r2.(events := s1.events + r2.events);
    var r0 := RunFrom(steps, 0, frame, env, rng, validRequest);
    assert r0 == Resume(steps, 0, s0, rng, validRequest);
    assert r0 == r1.(events := s0.events + r1.events);
    assert s0.events + (s1.events + r2.events) == Blink(c1, t1, c2, t2, n) + r2.events;
  }

  /** `Blinker` never cancelled keeps blinking until the fuel is gone: one
      blink, then one more per unit of fuel, and it never completes. */
  lemma {:induction false} BlinkForever(c1: Data.MetaColor, t1: Data.Int32, c2: Data.MetaColor, t2: Data.Int32,
                                        frame: seq<Pixel>, env: Env, rng: nat -> int,
                                        validRequest: (string, string) -> bool)
    requires env.cancel == Never
    ensures var r := RunFrom(Blinker(c1, t1, c2, t2), 0, frame, env, rng, validRequest);
      r.outcome == OutOfFuel && r.events == ProcessEffect.Repeat(Blink(c1, t1, c2, t2, |frame|), env.fuel + 1)
    decreases env.fuel
  {
    var steps := Blinker(c1, t1, c2, t2);
    var n := |frame|;
    var blink := Blink(c1, t1, c2, t2, n);
    var f2 := Fill(n, ProcessEffect.MetaPixel(c2));
    BlinkOnce(c1, t1, c2, t2, frame, env, rng, validRequest);
    var r2 := Resume(steps, 2, Stepped(f2, [], env, Restart), rng, validRequest);
    if env.fuel == 0 {
      assert r2 == Ran(f2, [], env, OutOfFuel);
      assert ProcessEffect.Repeat(blink, 1) == blink + [];
    } else {
      var env' := env.(fuel := env.fuel - 1);
      BlinkForever(c1, t1, c2, t2, f2, env', rng, validRequest);
      var again := RunFrom(steps, 0, f2, env', rng, validRequest);
      assert r2 == again.(events := [] + again.events);
      assert ProcessEffect.Repeat(blink, env.fuel + 1) == blink + ProcessEffect.Repeat(blink, env'.fuel + 1);
    }
  }

  // ---------------------------------------------------------------- runner

  /** The GPIO a play's step processor ends up with: the timeline's pin when
      its GPIO is marked valid or is non-zero, the system pin otherwise. */
  function ResolveGpio(systemGpio: int, gpio: Data.NullInt32): (pin: int)
    ensures gpio.Valid ==> pin == gpio.Int32
    ensures gpio.Int32 != 0 ==> pin == gpio.Int32
    ensures pin != gpio.Int32 ==> gpio == Data.NullInt32(0, false) && pin == systemGpio
    ensures gpio == Data.NullInt32(0, false) ==> pin == systemGpio
  {
    if gpio.Valid || gpio.Int32 != 0 then gpio.Int32 else systemGpio
  }

  /** The options `StartTimelinePlay` opens the strip with. */
  function RunnerOptions(cfg: SystemConfig, stringOrders: map<string, int>): seq<Strip.StripOption> {
    [Strip.WithGPIOPIn(cfg.GPIO), Strip.WithPixelOrder(stringOrders, cfg.PixelOrder),
     Strip.WithNumberOfColors(cfg.NumberOfColors)]
  }

  /** The strip is opened on the system pin, whatever the timeline says: the
      timeline's GPIO is resolved only after the strip exists, and the step
      processor's GPIO field it sets is never read again. */
  lemma RunnerStripUsesSystemPin(cfg: SystemConfig, stringOrders: map<string, int>, grb: int)
    ensures var o := Strip.Fold(Strip.DefaultOptions(cfg.LEDs, grb), RunnerOptions(cfg, stringOrders));
      o.PWMPins == [cfg.GPIO] && o.NumPixels == cfg.LEDs && o.NumColors == cfg.NumberOfColors &&
      o.OscFrequency == 800000 && o.DMAChannel == 10 && o.Brightness == 0.0 &&
      o.Order == (var key := Strip.ToUpperName(cfg.PixelOrder); if key in stringOrders then stringOrders[key] else 0)
  {
    var options := RunnerOptions(cfg, stringOrders);
    var d := Strip.DefaultOptions(cfg.LEDs, grb);
    var o1 := Strip.Apply(options[0], d);
    var o2 := Strip.Apply(options[1], o1);
    var o3 := Strip.Apply(options[2], o2);
    assert options[1..][1..][1..] == [];
    assert Strip.Fold(d, options) == Strip.Fold(o1, options[1..]) == Strip.Fold(o2, options[1..][1..]) == o3;
  }

  /** What a call of `StartTimelinePlay` shows of itself. */
  datatype Played = Played(outcome: Outcome, events: seq<Event>, options: Option<Strip.StripOptions>, gpio: int)

  /** The timeline a stop request plays to turn the strip off: one Solid step of
      colour {0, 0, 0, 0} held for 1 ms. */
  const ResetStep: Data.TimelineStep :=
    Data.TimelineStep("StopStep", Step.Effect, Effect.Solid, Data.NullString("", false), Data.NullInt32(1, true),
                      Data.SolidMeta(Data.MetaColor(0, 0, 0, 0)), 0)

  function ResetRequest(processID: string): PlayRequest {
    PlayRequest(processID, Data.Timeline("", false, Data.ZeroTime, "", Data.NullInt32(0, false), [ResetStep], []))
  }

  /** Played to the end, the reset timeline lights every pixel off, holds 1 ms
      and completes. */
  lemma ResetGoesDark(frame: seq<Pixel>, env: Env, rng: nat -> int, validRequest: (string, string) -> bool)
    requires env.cancel == Never
    ensures var r := RunFrom([ResetStep], 0, frame, env, rng, validRequest);
      r.outcome == Completed && r.frame == Fill(|frame|, Off) && r.events == [Show(Fill(|frame|, Off)), Wait(1)]
  {
    assert ProcessEffect.MetaPixel(Data.MetaColor(0, 0, 0, 0)) == Off;
    assert Poll(env) == (false, env);
    StepDispatch(ResetStep, frame, env, rng, validRequest);
    var off := Fill(|frame|, Off);
    var s := Stepped(off, [Show(off), Wait(1)], env, Continue);
    assert Turn(ResetStep, frame, env, rng, validRequest) == s;
    assert RunFrom([ResetStep], 0, frame, env, rng, validRequest) == Resume([ResetStep], 0, s, rng, validRequest);
  }

  /** The hold of a drawn step. */
  method HoldFor(ms: int, env0: Env) returns (events: seq<Event>, env: Env, next: Next)
    ensures var r := Hold(ms, [], [], env0); events == r.events && env == r.env && next == r.next
  {
    var poll := Poll(env0);
    env := poll.1;
    if poll.0 {
      return [], env, Halt(Cancelled);
    }
    return [Wait(ms)], env, Continue;
  }

  /** One step of the runner's `switch`. */
  method ProcessStep(step: Data.TimelineStep, arr: array<Pixel>, env0: Env, rng: nat -> int,
                     validRequest: (string, string) -> bool)
    returns (events: seq<Event>, env: Env, next: Next)
    modifies arr
    ensures var r := StepSpec(step, old(arr[..]), env0, rng, validRequest);
      arr[..] == r.frame && events == r.events && env == r.env && next == r.next
  {
    env := env0;
    events := [];
    next := Continue;
    if step.Type == Step.Loop {
      next := Restart;
    } else if step.Type == Step.Trigger {
      var status;
      status, events := ProcessTrigger.ProcessTrigger(step, validRequest);
      if status.Panicked? {
        next := Halt(Crashed(status.fault));
      }
    } else if step.Type == Step.Sleep {
      events, env, next := HoldFor(step.Time.Int32, env0);
    } else if step.Type == Step.RandomSleep {
      if step.Time.Int32 <= 0 {
        next := Halt(Crashed(IntnNonPositive));
      } else {
        var draw := Intn(rng, env0, step.Time.Int32);
        events, env, next := HoldFor(draw.0, draw.1);
      }
    } else if step.Type == Step.Effect {
      events, env, next := ProcessEffectStep(step, arr, env0, rng);
    }
  }

  /** The effect switch of one step. */
  method ProcessEffectStep(step: Data.TimelineStep, arr: array<Pixel>, env0: Env, rng: nat -> int)
    returns (events: seq<Event>, env: Env, next: Next)
    modifies arr
    ensures var r := EffectStep(step, old(arr[..]), env0, rng);
      arr[..] == r.frame && events == r.events && env == r.env && next == r.next
  {
    env := env0;
    events := [];
    next := Continue;
    var status := Ok;
    if step.Effect == Effect.Fade {
      events, env, status := ProcessEffect.ProcessFadeEffect(step, arr, env0);
    } else if step.Effect == Effect.Lightning {
      events, env, status := ProcessEffect.ProcessLightningEffect(step, arr, rng, env0);
    } else if step.Effect in {Effect.Gradient, Effect.Sequence, Effect.Solid} {
      if step.Effect == Effect.Gradient {
        events, status := ProcessEffect.ProcessGradientEffect(step, arr);
      } else if step.Effect == Effect.Sequence {
        events, status := ProcessEffect.ProcessSequenceEffect(step, arr);
      } else {
        events, status := ProcessEffect.ProcessSolidEffect(step, arr);
      }
      if status.Ok? {
        var held;
        held, env, next := HoldFor(step.Time.Int32, env0);
        events := events + held;
        return;
      }
    }
    match status
    case Ok =>
    case Panicked(f) => next := Halt(Crashed(f));
    case Exhausted => next := Halt(OutOfFuel);
  }

  /** One turn of the step loop: the context check, then the step. */
  method TakeTurn(step: Data.TimelineStep, arr: array<Pixel>, env0: Env, rng: nat -> int,
                  validRequest: (string, string) -> bool)
    returns (events: seq<Event>, env: Env, next: Next)
    modifies arr
    ensures Turn(step, old(arr[..]), env0, rng, validRequest) == Stepped(arr[..], events, env, next)
  {
    var poll := Poll(env0);
    env := poll.1;
    if poll.0 {
      return [], env, Halt(Cancelled);
    }
    events, env, next := ProcessStep(step, arr, env, rng, validRequest);
  }

  /** The turn at step `i` of the loop, stated as what it leaves for the rest
      of the loop to do. */
  method RunTurn(steps: seq<Data.TimelineStep>, i: nat, arr: array<Pixel>, env0: Env, rng: nat -> int,
                 validRequest: (string, string) -> bool)
    returns (events: seq<Event>, env: Env, next: Next)
    requires i < |steps|
    modifies arr
    ensures RunFrom(steps, i, old(arr[..]), env0, rng, validRequest) ==
            Resume(steps, i, Stepped(arr[..], events, env, next), rng, validRequest)
    ensures env.fuel <= env0.fuel
  {
    events, env, next := TakeTurn(steps[i], arr, env0, rng, validRequest);
  }

  /** The loop invariant of `ProcessSteps` carried over one turn: if the whole
      run is the events so far followed by the run from step `i`, and that run
      resumes after the turn `s`, then the whole run is the events so far and
      the turn's events followed by what comes after the turn. */
  lemma CarryOver(whole: Ran, before: seq<Event>, steps: seq<Data.TimelineStep>, i: nat, frame: seq<Pixel>,
                  env: Env, s: Stepped, rng: nat -> int, validRequest: (string, string) -> bool)
    requires i < |steps|
    requires var rest := RunFrom(steps, i, frame, env, rng, validRequest);
      whole == rest.(events := before + rest.events)
    requires RunFrom(steps, i, frame, env, rng, validRequest) == Resume(steps, i, s, rng, validRequest)
    ensures s.next.Halt? ==> whole == Ran(s.frame, before + s.events, s.env, s.next.outcome)
    ensures s.next.Continue? ==>
      var rest := RunFrom(steps, i + 1, s.frame, s.env, rng, validRequest);
      whole == rest.(events := (before + s.events) + rest.events)
    ensures s.next.Restart? && s.env.fuel == 0 ==> whole == Ran(s.frame, before + s.events, s.env, OutOfFuel)
    ensures s.next.Restart? && s.env.fuel > 0 ==>
      var rest := RunFrom(steps, 0, s.frame, s.env.(fuel := s.env.fuel - 1), rng, validRequest);
      whole == rest.(events := (before + s.events) + rest.events)
  {
    if s.next.Continue? {
      var rest := RunFrom(steps, i + 1, s.frame, s.env, rng, validRequest);
      assert before + (s.events + rest.events) == (before + s.events) + rest.events;
    } else if s.next.Restart? && s.env.fuel > 0 {
      var rest := RunFrom(steps, 0, s.frame, s.env.(fuel := s.env.fuel - 1), rng, validRequest);
      assert before + (s.events + rest.events) == (before + s.events) + rest.events;
    }
  }

  /** The whole run is the events emitted so far followed by the run from
      step `i` on the current buffer and environment. */
  ghost predicate Pending(whole: Ran, events: seq<Event>, steps: seq<Data.TimelineStep>, i: nat, frame: seq<Pixel>,
                    env: Env, rng: nat -> int, validRequest: (string, string) -> bool)
  {
    var rest := RunFrom(steps, i, frame, env, rng, validRequest);
    whole == rest.(events := events + rest.events)
  }

  /** One pass of the step loop's body: the turn at step `i`, then either the
      end of the play (`stop`) or the position and fuel of the next turn. */
  method LoopBody(ghost whole: Ran, events0: seq<Event>, steps: seq<Data.TimelineStep>, i0: nat, arr: array<Pixel>,
                  env0: Env, rng: nat -> int, validRequest: (string, string) -> bool)
    returns (events: seq<Event>, i: nat, env: Env, stop: Option<Outcome>)
    requires i0 < |steps| && Pending(whole, events0, steps, i0, arr[..], env0, rng, validRequest)
    modifies arr
    ensures stop.Some? ==> whole == Ran(arr[..], events, env, stop.value)
    ensures stop.None? ==>
      i <= |steps| && Pending(whole, events, steps, i, arr[..], env, rng, validRequest) &&
      (env.fuel < env0.fuel || (env.fuel == env0.fuel && i > i0))
  {
    ghost var frame0 := arr[..];
    var stepEvents, next;
    stepEvents, env, next := RunTurn(steps, i0, arr, env0, rng, validRequest);
    CarryOver(whole, events0, steps, i0, frame0, env0, Stepped(arr[..], stepEvents, env, next), rng, validRequest);
    events := events0 + stepEvents;
    i := i0;
    if next.Halt? {
      stop := Some(next.outcome);
    } else if next.Continue? {
      i := i0 + 1;
      stop := None;
    } else if env.fuel == 0 {
      stop := Some(OutOfFuel);
    } else {
      env := env.(fuel := env.fuel - 1);
      i := 0;
      stop := None;
    }
  }

  /** The step loop of `StartTimelinePlay`, `goto loopstart` included. */
  method ProcessSteps(steps: seq<Data.TimelineStep>, arr: array<Pixel>, env0: Env, rng: nat -> int,
                      validRequest: (string, string) -> bool)
    returns (events: seq<Event>, env: Env, outcome: Outcome)
    modifies arr
    ensures var r := RunFrom(steps, 0, old(arr[..]), env0, rng, validRequest);
      arr[..] == r.frame && events == r.events && env == r.env && outcome == r.outcome
  {
    ghost var whole := RunFrom(steps, 0, arr[..], env0, rng, validRequest);
    events := [];
    env := env0;
    var i := 0;
    while i < |steps|
      invariant 0 <= i <= |steps|
      invariant Pending(whole, events, steps, i, arr[..], env, rng, validRequest)
      decreases env.fuel, |steps| - i
    {
      var stop;
      events, i, env, stop := LoopBody(whole, events, steps, i, arr, env, rng, validRequest);
      if stop.Some? {
        return events, env, stop.value;
      }
    }
    outcome := Completed;
  }

  // ---------------------------------------------------------------- registry

  /** Removing a present key makes a map one entry smaller. */
  lemma RemoveOne(m: map<string, Handle>, id: string)
    requires id in m
    ensures |m - {id}| == |m| - 1
  {
    assert (m - {id}).Keys == m.Keys - {id};
  }

  /** The cancel functions of every play in `m`, each called once, in the
      (unspecified) order a map is iterated in. */
  method CancelAll(m: map<string, Handle>) returns (calls: seq<Handle>)
    ensures |calls| == |m|
    ensures forall id :: id in m ==> m[id] in calls
    ensures forall k :: 0 <= k < |calls| ==> calls[k] in m.Values
  {
    var rest := m;
    calls := [];
    while rest != map[]
      invariant forall id :: id in rest ==> id in m && rest[id] == m[id]
      invariant |calls| + |rest| == |m|
      invariant forall id :: id in m ==> id in rest || m[id] in calls
      invariant forall k :: 0 <= k < |calls| ==> calls[k] in m.Values
      decreases |rest|
    {
      var id :| id in rest;
      RemoveOne(rest, id);
      calls := calls + [rest[id]];
      rest := rest - {id};
    }
  }

  /** `pixarray.NewPixArray`: a fresh buffer of `n` pixels, all off. */
  method DarkBuffer(n: nat) returns (arr: array<Pixel>)
    ensures fresh(arr) && arr[..] == Fill(n, Off)
  {
    arr := new Pixel[n](_ => Off);
    assert arr[..] == Fill(n, Off);
  }

  /** What a play with configuration `cfg` reports: the strip options built
      from the system settings; a strip error when the driver refuses them;
      otherwise the outcome and trace of the step loop on a dark buffer of
      `cfg.LEDs` pixels, and the resolved GPIO. */
  predicate PlayedOn(played: Played, tl: Data.Timeline, cfg: SystemConfig, stripOpens: Strip.StripOptions -> bool,
                     stringOrders: map<string, int>, grb: int, env0: Env, rng: nat -> int,
                     validRequest: (string, string) -> bool)
  {
    var opts := Strip.Fold(Strip.DefaultOptions(cfg.LEDs, grb), RunnerOptions(cfg, stringOrders));
    played.options == Some(opts) &&
    (!stripOpens(opts) ==> played.outcome == StripError && played.events == []) &&
    (stripOpens(opts) ==>
      var r := RunFrom(tl.Steps, 0, Fill(cfg.LEDs, Off), env0, rng, validRequest);
      played.outcome == r.outcome && played.events == r.events &&
      played.gpio == ResolveGpio(cfg.GPIO, tl.GPIO))
  }

  /** The part of `StartTimelinePlay` after the configuration was read: open
      the strip with the system settings, resolve the GPIO and run the steps on
      a fresh dark buffer. */
  method PlayOn(tl: Data.Timeline, cfg: SystemConfig, stripOpens: Strip.StripOptions -> bool,
                stringOrders: map<string, int>, grb: int, env0: Env, rng: nat -> int,
                validRequest: (string, string) -> bool)
    returns (played: Played)
    ensures PlayedOn(played, tl, cfg, stripOpens, stringOrders, grb, env0, rng, validRequest)
  {
    var opts := Strip.NewStripOptions(cfg.LEDs, grb, RunnerOptions(cfg, stringOrders));
    if !stripOpens(opts) {
      return Played(StripError, [], Some(opts), 0);
    }
    var arr := DarkBuffer(cfg.LEDs);
    var gpio := cfg.GPIO;
    if tl.GPIO.Valid || tl.GPIO.Int32 != 0 {
      gpio := tl.GPIO.Int32;
    }
    var events, env, outcome := ProcessSteps(tl.Steps, arr, env0, rng, validRequest);
    played := Played(outcome, events, Some(opts), gpio);
  }

  /** Every handle in `m` was handed out before `next`, and no two plays
      share one. */
  ghost predicate Registry(m: map<string, Handle>, next: Handle) {
    (forall id :: id in m ==> m[id] < next) &&
    (forall a, b :: a in m && b in m && a != b ==> m[a] != m[b])
  }

  /** Registering a play under a fresh handle keeps the registry well formed. */
  lemma Register(m: map<string, Handle>, next: Handle, id: string)
    requires Registry(m, next)
    ensures Registry(m[id := next], next + 1)
  {
  }

  /** Forgetting plays keeps the registry well formed. */
  lemma Forget(m: map<string, Handle>, next: Handle, ids: set<string>)
    requires Registry(m, next)
    ensures Registry(m - ids, next)
  {
  }

  /** `BackgroundProcess` with its map of playing timelines. The cancel
      functions called so far and the plays started so far are kept as
      histories. */
  class BackgroundProcess {
    var playing: map<string, Handle>
    var spawned: seq<PlayRequest>
    var cancelled: seq<Handle>
    var nextHandle: Handle

    /** Handles in the map were handed out before and belong to one play each. */
    ghost predicate Valid()
      reads this
    {
      Registry(playing, nextHandle)
    }

    /** `HandleAndProcess` starts with an empty map. */
    constructor ()
      ensures Valid() && playing == map[] && spawned == [] && cancelled == [] && nextHandle == 0
    {
      playing := map[];
      spawned := [];
      cancelled := [];
      nextHandle := 0;
    }

    /** A play request starts a goroutine and nothing else. */
    method HandlePlay(req: PlayRequest)
      requires Valid()
      modifies this
      ensures Valid()
      ensures spawned == old(spawned) + [req]
      ensures playing == old(playing) && cancelled == old(cancelled) && nextHandle == old(nextHandle)
    {
      spawned := spawned + [req];
    }

    /** A stop request cancels and forgets the play when it is registered, and in
        every case starts the reset play "Stopping_" + id. */
    method HandleStop(id: string)
      requires Valid()
      modifies this
      ensures Valid()
      ensures id in old(playing) ==>
        playing == old(playing) - {id} && cancelled == old(cancelled) + [old(playing)[id]]
      ensures id !in old(playing) ==> playing == old(playing) && cancelled == old(cancelled)
      ensures spawned == old(spawned) + [ResetRequest("Stopping_" + id)]
      ensures nextHandle == old(nextHandle)
    {
      if id in playing {
        Forget(playing, nextHandle, {id});
        cancelled := cancelled + [playing[id]];
        playing := playing - {id};
      }
      spawned := spawned + [ResetRequest("Stopping_" + id)];
    }

    /** A stop-all request calls every registered cancel function once, empties
        the map and starts the reset play "Stopping_all". */
    method HandleStopAll()
      requires Valid()
      modifies this
      ensures Valid()
      ensures playing == map[]
      ensures |cancelled| == |old(cancelled)| + |old(playing)|
      ensures cancelled[..|old(cancelled)|] == old(cancelled)
      ensures forall id :: id in old(playing) ==> old(playing)[id] in cancelled[|old(cancelled)|..]
      ensures forall k :: |old(cancelled)| <= k < |cancelled| ==> cancelled[k] in old(playing).Values
      ensures spawned == old(spawned) + [ResetRequest("Stopping_all")]
      ensures nextHandle == old(nextHandle)
    {
      var calls := CancelAll(playing);
      cancelled := cancelled + calls;
      playing := map[];
      spawned := spawned + [ResetRequest("Stopping_all")];
    }
    /** `StartTimelinePlay`: register a fresh cancel function under the process
        id, read the configuration, open the strip, resolve the GPIO, run the
        steps on a fresh dark buffer, and deregister only when the steps ran to
        the end. The configuration (`None` when reading it fails), whether the
        driver opens a strip with given options, the order table, the driver's
        GRB constant and the oracles are parameters. */
    method StartTimelinePlay(req: PlayRequest, config: Option<SystemConfig>, stripOpens: Strip.StripOptions -> bool,
                             stringOrders: map<string, int>, grb: int, env0: Env, rng: nat -> int,
                             validRequest: (string, string) -> bool)
      returns (played: Played)
      requires Valid()
      modifies this
      ensures Valid()
      ensures nextHandle == old(nextHandle) + 1
      ensures spawned == old(spawned) && cancelled == old(cancelled)
      ensures played.outcome == Completed ==> playing == old(playing) - {req.ProcessID}
      ensures played.outcome != Completed ==> playing == old(playing)[req.ProcessID := old(nextHandle)]
      ensures config.None? ==> played == Played(ConfigError, [], None, 0)
      ensures config.Some? ==>
        PlayedOn(played, req.RequestedTimeline, config.value, stripOpens, stringOrders, grb, env0, rng, validRequest)
    {
      var handle := nextHandle;
      Register(playing, nextHandle, req.ProcessID);
      nextHandle := nextHandle + 1;
      playing := playing[req.ProcessID := handle];
      if config.None? {
        return Played(ConfigError, [], None, 0);
      }
      played := PlayOn(req.RequestedTimeline, config.value, stripOpens, stringOrders, grb, env0, rng, validRequest);
      if played.outcome == Completed {
        Forget(playing, nextHandle, {req.ProcessID});
        playing := playing - {req.ProcessID};
      }
    }
  }
}
