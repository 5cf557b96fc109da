/** `process_effect.go`: the effect processors of a step. Each one paints the
    pixel buffer in place and writes it to the strip; Lightning flashes in
    bursts, and Fade, KnightRider, Rainbow and Zip hand the buffer to a library
    animation driven by a 1 ms ticker until the context is cancelled. */
module ProcessEffect {
  import opened Pixarray
  import opened Trace
  import Data
  import Strip
  import Artist

  /** What a processor call leaves behind: the buffer, the events it emitted,
      the environment after it and how it ended. */
  datatype Effected = Effected(frame: seq<Pixel>, events: seq<Event>, env: Env, status: Status)

  /** The same for the processors that take no context: Solid, Gradient and
      Sequence neither wait nor draw random numbers. */
  datatype Painted = Painted(frame: seq<Pixel>, events: seq<Event>, status: Status)

  /** The pixel a stored colour describes, channel by channel. */
  function MetaPixel(c: Data.MetaColor): Pixel {
    Pixel(c.R, c.G, c.B, c.W)
  }

  /** The four-entry colour list `[]int{R, G, B, W}` built from a stored colour. */
  function MetaChannels(c: Data.MetaColor): seq<int> {
    [c.R, c.G, c.B, c.W]
  }

  /** A colour list built from a stored colour takes `color`'s four-entry branch,
      so the white channel survives. */
  lemma MetaChannelsColor(c: Data.MetaColor)
    ensures Strip.Color(MetaChannels(c)) == MetaPixel(c)
  {
  }

  // ---------------------------------------------------------------- Solid

  /** `ProcessSolidEffect`: every pixel becomes the meta colour, then one write. A
      payload that is not a `SolidMeta` panics in the type assertion. */
  function SolidSpec(step: Data.TimelineStep, frame: seq<Pixel>): Painted
  {
    if !step.MetaInfo.SolidMeta? then Painted(frame, [], Panicked(TypeAssertion))
    else
      var f := Fill(|frame|, MetaPixel(step.MetaInfo.Color));
      Painted(f, [Show(f)], Ok)
  }

  /** Solid lights the whole strip in the meta colour and writes it once; a
      failing write is only logged, so the call still ends normally. */
  lemma SolidPaintsAll(step: Data.TimelineStep, frame: seq<Pixel>)
    requires step.MetaInfo.SolidMeta?
    ensures var r := SolidSpec(step, frame);
      r.status == Ok && |r.frame| == |frame| &&
      (forall i :: 0 <= i < |frame| ==> r.frame[i] == MetaPixel(step.MetaInfo.Color)) &&
      r.events == [Show(r.frame)]
  {
  }

  method ProcessSolidEffect(step: Data.TimelineStep, arr: array<Pixel>) returns (events: seq<Event>, status: Status)
    modifies arr
    ensures var r := SolidSpec(step, old(arr[..]));
      arr[..] == r.frame && events == r.events && status == r.status
  {
    if !step.MetaInfo.SolidMeta? {
      return [], Panicked(TypeAssertion);
    }
    SetAll(arr, MetaPixel(step.MetaInfo.Color));
    events := [Show(arr[..])];
    status := Ok;
  }

  // ---------------------------------------------------------------- Gradient

  /** `ProcessGradientEffect`: a gradient from the start to the end colour, then
      one write. */
  function GradientSpec(step: Data.TimelineStep, frame: seq<Pixel>): Painted {
    if !step.MetaInfo.GradientMeta? then Painted(frame, [], Panicked(TypeAssertion))
    else
      var f := Artist.GradientFrame(MetaPixel(step.MetaInfo.StartColor), MetaPixel(step.MetaInfo.EndColor), |frame|);
      Painted(f, [Show(f)], Ok)
  }

  /** The gradient painted for a step starts at its start colour and keeps every
      channel between the two colours. */
  lemma GradientEffectBounds(step: Data.TimelineStep, frame: seq<Pixel>)
    requires step.MetaInfo.GradientMeta?
    ensures var r := GradientSpec(step, frame);
      var c1, c2 := MetaPixel(step.MetaInfo.StartColor), MetaPixel(step.MetaInfo.EndColor);
      r.status == Ok && |r.frame| == |frame| && r.events == [Show(r.frame)] &&
      (|frame| > 0 ==> r.frame[0] == c1) &&
      (forall i :: 0 <= i < |frame| ==>
        Artist.Between(c1.R, r.frame[i].R, c2.R) && Artist.Between(c1.G, r.frame[i].G, c2.G) &&
        Artist.Between(c1.B, r.frame[i].B, c2.B) && Artist.Between(c1.W, r.frame[i].W, c2.W))
  {
    Artist.GradientFrameBounds(MetaPixel(step.MetaInfo.StartColor), MetaPixel(step.MetaInfo.EndColor), |frame|);
  }

  method ProcessGradientEffect(step: Data.TimelineStep, arr: array<Pixel>) returns (events: seq<Event>, status: Status)
    modifies arr
    ensures var r := GradientSpec(step, old(arr[..]));
      arr[..] == r.frame && events == r.events && status == r.status
  {
    if !step.MetaInfo.GradientMeta? {
      return [], Panicked(TypeAssertion);
    }
    var meta := step.MetaInfo;
    var colors := [MetaChannels(meta.StartColor), MetaChannels(meta.EndColor)];
    MetaChannelsColor(meta.StartColor);
    MetaChannelsColor(meta.EndColor);
    status := Artist.GradientDraw(colors, arr);
    events := [Show(arr[..])];
  }

  // ---------------------------------------------------------------- Sequence

  /** The colour lists `ProcessSequenceEffect` builds: one four-entry list per
      stored colour, in the same order. */
  method ColorSequence(sequence: seq<Data.MetaColor>) returns (colorSeq: seq<seq<int>>)
    ensures |colorSeq| == |sequence|
    ensures forall i :: 0 <= i < |sequence| ==> colorSeq[i] == MetaChannels(sequence[i])
  {
    colorSeq := [];
    for i := 0 to |sequence|
      invariant |colorSeq| == i
      invariant forall k :: 0 <= k < i ==> colorSeq[k] == MetaChannels(sequence[k])
    {
      colorSeq := colorSeq + [MetaChannels(sequence[i])];
    }
  }

  function SequenceColors(sequence: seq<Data.MetaColor>): seq<seq<int>> {
    seq(|sequence|, i requires 0 <= i < |sequence| => MetaChannels(sequence[i]))
  }

  /** `ProcessSequenceEffect`: the stored colours repeated along the strip, then
      one write. With no colours and a non-empty strip the artist divides by zero. */
  function SequenceSpec(step: Data.TimelineStep, frame: seq<Pixel>): Painted {
    if !step.MetaInfo.SequenceMeta? then Painted(frame, [], Panicked(TypeAssertion))
    else if |step.MetaInfo.Sequence| == 0 && |frame| > 0 then
      Painted(frame, [], Panicked(DivideByZero))
    else
      var f := Artist.SequenceFrame(SequenceColors(step.MetaInfo.Sequence), |frame|);
      Painted(f, [Show(f)], Ok)
  }

  /** Pixel i shows stored colour i modulo the number of colours, all four
      channels included. */
  lemma SequenceEffectColors(step: Data.TimelineStep, frame: seq<Pixel>)
    requires step.MetaInfo.SequenceMeta? && |step.MetaInfo.Sequence| > 0
    ensures var r := SequenceSpec(step, frame);
      var s := step.MetaInfo.Sequence;
      r.status == Ok && |r.frame| == |frame| && r.events == [Show(r.frame)] &&
      forall i :: 0 <= i < |frame| ==> r.frame[i] == MetaPixel(s[i % |s|])
  {
    var s := step.MetaInfo.Sequence;
    forall i | 0 <= i < |frame|
      ensures SequenceSpec(step, frame).frame[i] == MetaPixel(s[i % |s|])
    {
      MetaChannelsColor(s[i % |s|]);
    }
  }

  method ProcessSequenceEffect(step: Data.TimelineStep, arr: array<Pixel>) returns (events: seq<Event>, status: Status)
    modifies arr
    ensures var r := SequenceSpec(step, old(arr[..]));
      arr[..] == r.frame && events == r.events && status == r.status
  {
    if !step.MetaInfo.SequenceMeta? {
      return [], Panicked(TypeAssertion);
    }
    var colorSeq := ColorSequence(step.MetaInfo.Sequence);
    assert colorSeq == SequenceColors(step.MetaInfo.Sequence);
    status := Artist.SequenceDraw(colorSeq, arr);
    if status != Ok {
      return [], status;
    }
    events := [Show(arr[..])];
  }

  // ---------------------------------------------------------------- Lightning

  /** Go's `x / 2` on `int`: the quotient truncated toward zero. */
  function Halve(x: int): (r: int)
    ensures x >= 0 ==> 0 <= 2 * r <= x <= 2 * r + 1
    ensures x < 0 ==> 2 * r - 1 <= x <= 2 * r <= 0
  {
    if x >= 0 then x / 2 else -((-x) / 2)
  }

  /** The burst settings after defaulting. */
  datatype Lightning = Lightning(Bursts: int, BurstSpacing: int, BurstLength: int, BurstBrightness: int)

  /** A zero field takes its default, any other value is kept. */
  function OrDefault(v: int, default: int): int {
    if v == 0 then default else v
  }

  /** The four defaults are always drawn, in the order bursts, spacing, length,
      brightness, and each replaces its field only when that field is zero. */
  function LightningSettings(meta: Data.MetaInfo, rng: nat -> int, env: Env): (s: (Lightning, Env))
    requires meta.LightningMeta?
    ensures s.1 == env.(draws := env.draws + 4)
  {
    var (dBursts, e1) := Intn(rng, env, 5);
    var (dSpacing, e2) := Intn(rng, e1, 5);
    var (dLength, e3) := Intn(rng, e2, 100);
    var (dBrightness, e4) := Intn(rng, e3, 128);
    (Lightning(OrDefault(meta.Bursts, dBursts), OrDefault(meta.BurstSpacing, dSpacing),
               OrDefault(meta.BurstLength, dLength), OrDefault(meta.BurstBrightness, dBrightness)), e4)
  }

  /** Each setting keeps a non-zero stored value; otherwise it is the draw made
      for it, in order: bursts from the first draw in [0, 5), spacing from the
      second in [0, 5), length from the third in [0, 100) and brightness from
      the fourth in [0, 128). */
  lemma LightningDefaults(meta: Data.MetaInfo, rng: nat -> int, env: Env)
    requires meta.LightningMeta?
    ensures var s := LightningSettings(meta, rng, env).0;
      (meta.Bursts != 0 ==> s.Bursts == meta.Bursts) &&
      (meta.Bursts == 0 ==> 0 <= s.Bursts < 5 && s.Bursts == rng(env.draws) % 5) &&
      (meta.BurstSpacing != 0 ==> s.BurstSpacing == meta.BurstSpacing) &&
      (meta.BurstSpacing == 0 ==> 0 <= s.BurstSpacing < 5 && s.BurstSpacing == rng(env.draws + 1) % 5) &&
      (meta.BurstLength != 0 ==> s.BurstLength == meta.BurstLength) &&
      (meta.BurstLength == 0 ==> 0 <= s.BurstLength < 100 && s.BurstLength == rng(env.draws + 2) % 100) &&
      (meta.BurstBrightness != 0 ==> s.BurstBrightness == meta.BurstBrightness) &&
      (meta.BurstBrightness == 0 ==> 0 <= s.BurstBrightness < 128 && s.BurstBrightness == rng(env.draws + 3) % 128)
  {
  }

  /** The flash pixel: blue at half the brightness (Go's truncating division of
      brightness + 1 by 2) and white at the brightness. */
  function FlashPixel(brightness: int): Pixel {
    Pixel(0, 0, Halve(brightness + 1), brightness)
  }

  /** For a non-negative brightness the blue channel is half the brightness
      rounded up; for a negative one Go truncates toward zero, so -2 gives 0
      where a floor would give -1. */
  lemma FlashPixelChannels(brightness: int)
    ensures FlashPixel(brightness).R == 0 && FlashPixel(brightness).G == 0
    ensures FlashPixel(brightness).W == brightness
    ensures brightness >= 0 ==>
      FlashPixel(brightness).B == (brightness + 1) / 2 &&
      brightness <= 2 * FlashPixel(brightness).B <= brightness + 1
    ensures FlashPixel(-2).B == 0
  {
  }

  /** The four events of a burst that is not interrupted. */
  function Burst(s: Lightning, n: nat): seq<Event> {
    [Show(Fill(n, FlashPixel(s.BurstBrightness))), Wait(s.BurstLength), Show(Fill(n, Off)), Wait(s.BurstSpacing)]
  }

  /** `k` copies of an event list, one after the other. */
  function Repeat(e: seq<Event>, k: nat): seq<Event> {
    if k == 0 then [] else e + Repeat(e, k - 1)
  }

  /** The burst loop with `remaining` iterations left, on a buffer that holds
      `frame`. Each iteration checks the context three times: before flashing
      (cancelled: blank the strip and stop), while the flash is shown (cancelled:
      stop with the flash still on) and during the spacing (cancelled: stop,
      the strip off). */
  function BurstLoop(s: Lightning, remaining: nat, frame: seq<Pixel>, env: Env): (r: Effected)
    ensures |r.frame| == |frame| && r.status == Ok && r.env.fuel == env.fuel
    decreases remaining
  {
    var n := |frame|;
    if remaining == 0 then Effected(frame, [], env, Ok)
    else
      var (top, e1) := Poll(env);
      if top then Effected(Fill(n, Off), [Show(Fill(n, Off))], e1, Ok)
      else
        var on := Fill(n, FlashPixel(s.BurstBrightness));
        var (during, e2) := Poll(e1);
        if during then Effected(on, [Show(on)], e2, Ok)
        else
          var (spacing, e3) := Poll(e2);
          if spacing then Effected(Fill(n, Off), [Show(on), Wait(s.BurstLength), Show(Fill(n, Off))], e3, Ok)
          else
            var rest := BurstLoop(s, remaining - 1, Fill(n, Off), e3);
            rest.(events := Burst(s, n) + rest.events)
  }

  /** `ProcessLightningEffect`: the type assertion, the defaults, then
      `max(Bursts, 0)` iterations of the burst loop. */
  function LightningSpec(step: Data.TimelineStep, frame: seq<Pixel>, rng: nat -> int, env: Env): (r: Effected)
    ensures |r.frame| == |frame| && r.env.fuel == env.fuel
  {
    if !step.MetaInfo.LightningMeta? then Effected(frame, [], env, Panicked(TypeAssertion))
    else
      var (s, e) := LightningSettings(step.MetaInfo, rng, env);
      BurstLoop(s, if s.Bursts < 0 then 0 else s.Bursts, frame, e)
  }

  /** Never cancelled, the loop runs every burst in full, spacing included
      after the last one, and leaves the strip dark. */
  lemma {:induction false} BurstsUncancelled(s: Lightning, k: nat, frame: seq<Pixel>, env: Env)
    requires env.cancel == Never
    ensures var r := BurstLoop(s, k, frame, env);
      r.events == Repeat(Burst(s, |frame|), k) && r.env.cancel == Never &&
      (k > 0 ==> r.frame == Fill(|frame|, Off))
    decreases k
  {
    if k > 0 {
      var e3 := env.(cancel := Never);
      BurstsUncancelled(s, k - 1, Fill(|frame|, Off), e3);
    }
  }

  /** What an interrupted burst writes, and the strip it leaves, when the
      cancellation is seen at check `phase` (0, 1 or 2) of that burst: at the
      top it blanks the strip, during the flash it stops with the flash on, and
      during the spacing the strip is already dark. */
  function Interrupted(s: Lightning, n: nat, phase: nat): (seq<Event>, seq<Pixel>) {
    var on := Fill(n, FlashPixel(s.BurstBrightness));
    if phase == 0 then ([Show(Fill(n, Off))], Fill(n, Off))
    else if phase == 1 then ([Show(on)], on)
    else ([Show(on), Wait(s.BurstLength), Show(Fill(n, Off))], Fill(n, Off))
  }

  /** A cancellation first seen at check `3 * j + phase` of the loop (j whole
      bursts done) ends it there, after `j` full bursts and the interrupted
      one. */
  lemma {:induction false} BurstsCancelled(s: Lightning, k: nat, frame: seq<Pixel>, env: Env, j: nat, phase: nat)
    requires j < k && phase < 3 && env.cancel == After(3 * j + phase)
    ensures var r := BurstLoop(s, k, frame, env);
      IsCancelled(r.env.cancel) &&
      r.events == Repeat(Burst(s, |frame|), j) + Interrupted(s, |frame|, phase).0 &&
      r.frame == Interrupted(s, |frame|, phase).1
    decreases k
  {
    BurstsCancelledOn(s, k, |frame|, frame, env, j, phase);
  }

  /** `BurstsCancelled` with the strip length named. */
  lemma {:induction false} BurstsCancelledOn(s: Lightning, k: nat, n: nat, frame: seq<Pixel>, env: Env, j: nat, phase: nat)
    requires |frame| == n && j < k && phase < 3 && env.cancel == After(3 * j + phase)
    ensures var r := BurstLoop(s, k, frame, env);
      IsCancelled(r.env.cancel) &&
      r.events == Repeat(Burst(s, n), j) + Interrupted(s, n, phase).0 &&
      r.frame == Interrupted(s, n, phase).1
    decreases k
  {
    if j == 0 {
      CancelledInFirstBurst(s, k, frame, env, phase);
    } else {
      var m := 3 * (j - 1) + phase;
      var e3 := env.(cancel := After(m));
      var dark := Fill(n, Off);
      LiveBurst(s, k, frame, env, m);
      BurstsCancelledOn(s, k - 1, n, dark, e3, j - 1, phase);
      PrependEvents(BurstLoop(s, k, frame, env), BurstLoop(s, k - 1, dark, e3), Burst(s, n),
                    Repeat(Burst(s, n), j - 1), Interrupted(s, n, phase).0);
    }
  }

  /** Events put in front of a run that ends with `done + last`. */
  lemma PrependEvents(r: Effected, rest: Effected, first: seq<Event>, done: seq<Event>, last: seq<Event>)
    requires r == rest.(events := first + rest.events) && rest.events == done + last
    ensures r.events == (first + done) + last && r.frame == rest.frame && r.env == rest.env
  {
    assert first + (done + last) == (first + done) + last;
  }

  /** With at least three live checks left, the loop runs one whole burst and
      goes on with the context three checks further. */
  lemma LiveBurst(s: Lightning, k: nat, frame: seq<Pixel>, env: Env, m: nat)
    requires 0 < k && env.cancel == After(m + 3)
    ensures var rest := BurstLoop(s, k - 1, Fill(|frame|, Off), env.(cancel := After(m)));
      BurstLoop(s, k, frame, env) == rest.(events := Burst(s, |frame|) + rest.events)
  {
  }

  /** A cancellation seen at check `phase` of the first burst. */
  lemma CancelledInFirstBurst(s: Lightning, k: nat, frame: seq<Pixel>, env: Env, phase: nat)
    requires 0 < k && phase < 3 && env.cancel == After(phase)
    ensures var r := BurstLoop(s, k, frame, env);
      IsCancelled(r.env.cancel) && r.events == Interrupted(s, |frame|, phase).0 &&
      r.frame == Interrupted(s, |frame|, phase).1
  {
  }

  /** Three fixed bursts with fixed timings, never cancelled: three flashes of
      blue 64 and white 128, each followed by 300 ms on, off and 100 ms apart. */
  lemma LightningThreeBursts(frame: seq<Pixel>, rng: nat -> int, env: Env)
    requires env.cancel == Never
    ensures var step := Data.TimelineStep("flash", 1, 8, Data.NullString("", true), Data.NullInt32(0, true),
                                          Data.LightningMeta(3, "fixed", 100, 300, 128), 0);
      var r := LightningSpec(step, frame, rng, env);
      var n := |frame|;
      var burst := [Show(Fill(n, Pixel(0, 0, 64, 128))), Wait(300), Show(Fill(n, Off)), Wait(100)];
      r.status == Ok && r.events == burst + burst + burst && r.frame == Fill(n, Off)
  {
    var step := Data.TimelineStep("flash", 1, 8, Data.NullString("", true), Data.NullInt32(0, true),
                                  Data.LightningMeta(3, "fixed", 100, 300, 128), 0);
    var (s, e) := LightningSettings(step.MetaInfo, rng, env);
    assert s == Lightning(3, 100, 300, 128);
    BurstsUncancelled(s, 3, frame, e);
    assert Repeat(Burst(s, |frame|), 3) == Burst(s, |frame|) + Burst(s, |frame|) + Burst(s, |frame|);
  }

  /** One iteration of the burst loop on the strip: the three context checks
      and the writes between them. `stop` says that a cancellation ended the
      loop. */
  method BurstOnce(s: Lightning, remaining: nat, arr: array<Pixel>, env0: Env)
    returns (events: seq<Event>, env: Env, stop: bool)
    requires remaining > 0
    modifies arr
    ensures var whole := BurstLoop(s, remaining, old(arr[..]), env0);
      if stop then whole == Effected(arr[..], events, env, Ok)
      else var rest := BurstLoop(s, remaining - 1, arr[..], env);
        whole == rest.(events := events + rest.events)
  {
    var poll := Poll(env0);
    env := poll.1;
    if poll.0 {
      SetAll(arr, Off);
      return [Show(arr[..])], env, true;
    }
    SetAll(arr, FlashPixel(s.BurstBrightness));
    events := [Show(arr[..])];
    poll := Poll(env);
    env := poll.1;
    if poll.0 {
      return events, env, true;
    }
    SetAll(arr, Off);
    events := events + [Wait(s.BurstLength), Show(arr[..])];
    poll := Poll(env);
    env := poll.1;
    if poll.0 {
      return events, env, true;
    }
    events := events + [Wait(s.BurstSpacing)];
    stop := false;
  }

  method ProcessLightningEffect(step: Data.TimelineStep, arr: array<Pixel>, rng: nat -> int, env0: Env)
    returns (events: seq<Event>, env: Env, status: Status)
    modifies arr
    ensures var r := LightningSpec(step, old(arr[..]), rng, env0);
      arr[..] == r.frame && events == r.events && env == r.env && status == r.status
  {
    if !step.MetaInfo.LightningMeta? {
      return [], env0, Panicked(TypeAssertion);
    }
    var settings := LightningSettings(step.MetaInfo, rng, env0);
    var s := settings.0;
    env := settings.1;
    var count: nat := if s.Bursts < 0 then 0 else s.Bursts;
    ghost var whole := BurstLoop(s, count, arr[..], env);
    events := [];
    status := Ok;
    var b := 0;
    while b < count
      invariant 0 <= b <= count
      invariant var rest := BurstLoop(s, count - b, arr[..], env);
        whole == rest.(events := events + rest.events)
      decreases count - b
    {
      var more, stop;
      more, env, stop := BurstOnce(s, count - b, arr, env);
      events := events + more;
      if stop {
        return;
      }
      b := b + 1;
    }
  }

  // ---------------------------------------------------------------- tick loops

  /** The ticker loop after `Start`: each turn checks the context first; a
      cancelled context blanks the strip, writes it and ends the call, a live one
      lets the animation take one `NextStep`, which paints the buffer, and
      writes it. A `NextStep` result of 0 only breaks out of the `select`, so
      nothing else ends the loop. Each tick uses one unit of fuel; when the fuel
      runs out the buffer holds the frame the animation painted last. */
  function TickLoop(a: Animation, frame: seq<Pixel>, env: Env): (r: Effected)
    ensures |r.frame| == |frame| && r.env.fuel <= env.fuel
    decreases env.fuel
  {
    var (cancelled, e1) := Poll(env);
    if cancelled then Effected(Fill(|frame|, Off), [Show(Fill(|frame|, Off))], e1, Ok)
    else if e1.fuel == 0 then Effected(frame, [], e1, Exhausted)
    else
      var (next, e2) := Paint(e1.(fuel := e1.fuel - 1), |frame|);
      var rest := TickLoop(a, next, e2);
      rest.(events := [Step(a)] + rest.events)
  }

  /** `ticks` copies of the tick event. */
  function Steps(a: Animation, ticks: nat): (r: seq<Event>)
    ensures |r| == ticks
  {
    if ticks == 0 then [] else [Step(a)] + Steps(a, ticks - 1)
  }

  /** The loop only ever ends through cancellation, and then with a dark strip;
      a context cancelled after `k` live checks sees exactly `k` ticks, each of
      which paints one frame. */
  lemma {:induction false} TickLoopEndsByCancellation(a: Animation, frame: seq<Pixel>, env: Env, k: nat)
    requires env.cancel == After(k) && env.fuel >= k
    ensures var r := TickLoop(a, frame, env);
      r.status == Ok && r.frame == Fill(|frame|, Off) &&
      r.events == Steps(a, k) + [Show(Fill(|frame|, Off))] &&
      r.env.fuel == env.fuel - k && r.env.painted == env.painted + k
    decreases k
  {
    if k > 0 {
      var (next, e2) := Paint(env.(cancel := After(k - 1), fuel := env.fuel - 1), |frame|);
      TickLoopEndsByCancellation(a, next, e2, k - 1);
    }
  }

  /** Never cancelled, the loop ticks until the fuel runs out: it never returns,
      and the buffer then shows the animation's last frame. */
  lemma {:induction false} TickLoopNeverEndsUncancelled(a: Animation, frame: seq<Pixel>, env: Env)
    requires env.cancel == Never
    ensures var r := TickLoop(a, frame, env);
      r.status == Exhausted && r.events == Steps(a, env.fuel) && r.env.fuel == 0 &&
      r.env.painted == env.painted + env.fuel &&
      (env.fuel > 0 ==> forall i :: 0 <= i < |frame| ==> r.frame[i] == env.paint(r.env.painted - 1, i))
    decreases env.fuel
  {
    if env.fuel > 0 {
      var (next, e2) := Paint(env.(fuel := env.fuel - 1), |frame|);
      TickLoopNeverEndsUncancelled(a, next, e2);
    }
  }

  /** `Start`, which paints the first frame, and then the ticker loop. */
  function AnimateSpec(a: Animation, frame: seq<Pixel>, env: Env): (r: Effected)
    ensures |r.frame| == |frame| && r.env.fuel <= env.fuel
  {
    var (first, e1) := Paint(env, |frame|);
    var r := TickLoop(a, first, e1);
    r.(events := [Start(a)] + r.events)
  }

  /** The animation painting the buffer in place. */
  method PaintBuffer(arr: array<Pixel>, env0: Env) returns (env: Env)
    modifies arr
    ensures (arr[..], env) == Paint(env0, arr.Length)
  {
    for i := 0 to arr.Length
      invariant forall k :: 0 <= k < i ==> arr[k] == env0.paint(env0.painted, k)
    {
      arr[i] := env0.paint(env0.painted, i);
    }
    env := env0.(painted := env0.painted + 1);
    assert arr[..] == Paint(env0, arr.Length).0;
  }

  method Animate(a: Animation, arr: array<Pixel>, env0: Env) returns (events: seq<Event>, env: Env, status: Status)
    modifies arr
    ensures var r := AnimateSpec(a, old(arr[..]), env0);
      arr[..] == r.frame && events == r.events && env == r.env && status == r.status
  {
    ghost var whole := AnimateSpec(a, arr[..], env0);
    env := PaintBuffer(arr, env0);
    events := [Start(a)];
    while true
      invariant var rest := TickLoop(a, arr[..], env);
        whole == rest.(events := events + rest.events)
      decreases env.fuel
    {
      var poll := Poll(env);
      var cancelled := poll.0;
      env := poll.1;
      if cancelled {
        SetAll(arr, Off);
        events := events + [Show(arr[..])];
        return events, env, Ok;
      }
      if env.fuel == 0 {
        return events, env, Exhausted;
      }
      env := PaintBuffer(arr, env.(fuel := env.fuel - 1));
      events := events + [Step(a)];
    }
  }

  /** `ProcessFadeEffect`: a fade to the meta colour over the step's time. */
  function FadeAnimation(step: Data.TimelineStep): Animation
    requires step.MetaInfo.FadeMeta?
  {
    FadeTo(step.Time.Int32, MetaPixel(step.MetaInfo.Color))
  }

  function FadeSpec(step: Data.TimelineStep, frame: seq<Pixel>, env: Env): Effected {
    if !step.MetaInfo.FadeMeta? then Effected(frame, [], env, Panicked(TypeAssertion))
    else AnimateSpec(FadeAnimation(step), frame, env)
  }

  method ProcessFadeEffect(step: Data.TimelineStep, arr: array<Pixel>, env0: Env)
    returns (events: seq<Event>, env: Env, status: Status)
    modifies arr
    ensures var r := FadeSpec(step, old(arr[..]), env0);
      arr[..] == r.frame && events == r.events && env == r.env && status == r.status
  {
    if !step.MetaInfo.FadeMeta? {
      return [], env0, Panicked(TypeAssertion);
    }
    events, env, status := Animate(FadeAnimation(step), arr, env0);
  }

  /** `ProcessKnightRiderEffect`: a one-second scanner five pixels wide; it reads
      no payload. */
  const KnightRiderAnimation: Animation := KnightRider(1000, 5)

  method ProcessKnightRiderEffect(arr: array<Pixel>, env0: Env) returns (events: seq<Event>, env: Env, status: Status)
    modifies arr
    ensures var r := AnimateSpec(KnightRiderAnimation, old(arr[..]), env0);
      arr[..] == r.frame && events == r.events && env == r.env && status == r.status
  {
    events, env, status := Animate(KnightRiderAnimation, arr, env0);
  }

  /** `ProcessRainbowEffect`: a twenty-second rainbow cycle; it reads no payload. */
  const RainbowAnimation: Animation := RainbowCycle(20000)

  method ProcessRainbowEffect(arr: array<Pixel>, env0: Env) returns (events: seq<Event>, env: Env, status: Status)
    modifies arr
    ensures var r := AnimateSpec(RainbowAnimation, old(arr[..]), env0);
      arr[..] == r.frame && events == r.events && env == r.env && status == r.status
  {
    events, env, status := Animate(RainbowAnimation, arr, env0);
  }

  /** The zip's duration in ms: the step's time, or two seconds when it is 0.
      A zip therefore never runs for zero time, and a step's own time, even a
      negative one, is used as it is. */
  function ZipDuration(step: Data.TimelineStep): (d: int)
    ensures d != 0
    ensures step.Time.Int32 != 0 ==> d == step.Time.Int32
    ensures step.Time.Int32 == 0 ==> d == 2000
  {
    var zipDuration := step.Time.Int32;
    if zipDuration == 0 then 2000 else zipDuration
  }

  /** `ProcessZipEffect`: a zip in the meta colour over `ZipDuration`. */
  function ZipAnimation(step: Data.TimelineStep): Animation
    requires step.MetaInfo.ZipMeta?
  {
    ZipTo(ZipDuration(step), MetaPixel(step.MetaInfo.Color))
  }

  function ZipSpec(step: Data.TimelineStep, frame: seq<Pixel>, env: Env): Effected {
    if !step.MetaInfo.ZipMeta? then Effected(frame, [], env, Panicked(TypeAssertion))
    else AnimateSpec(ZipAnimation(step), frame, env)
  }

  method ProcessZipEffect(step: Data.TimelineStep, arr: array<Pixel>, env0: Env)
    returns (events: seq<Event>, env: Env, status: Status)
    modifies arr
    ensures var r := ZipSpec(step, old(arr[..]), env0);
      arr[..] == r.frame && events == r.events && env == r.env && status == r.status
  {
    if !step.MetaInfo.ZipMeta? {
      return [], env0, Panicked(TypeAssertion);
    }
    events, env, status := Animate(ZipAnimation(step), arr, env0);
  }
}
