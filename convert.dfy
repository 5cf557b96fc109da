/** `api/convert.go` with the records of `api/model.go`: the API form of a
    timeline (names instead of enum values, plain integers instead of nullable
    ones) and the two conversions between it and the stored form. The JSON
    re-encoding that `ApiToTimeline` uses to retype a payload is modelled by
    what `encoding/json` does to the typed payloads: fields whose keys appear
    in the target record are copied, every other field of the target stays at
    its zero value. */
module Api {
  import opened Trace
  import Data
  import Effect
  import Step
  import Process
  import Strings

  datatype MetaColor = MetaColor(R: int, G: int, B: int, W: int)

  /** The `any` payload of an API step, as one of the API meta records or nil. */
  datatype Meta =
    | NoMeta
    | SolidMeta(Color: MetaColor)
    | FadeMeta(Color: MetaColor)
    | GradientMeta(StartColor: MetaColor, EndColor: MetaColor)
    | SequenceMeta(Sequence: seq<MetaColor>)
    | ZipMeta(Color: MetaColor)
    | LightningMeta(Bursts: int, BurstType: string, BurstSpacing: int, BurstLength: int, BurstBrightness: int)
    | TriggerMeta(Verb: string, URL: string, Headers: seq<string>, Body: seq<bv8>)

  datatype TimelineStep = TimelineStep(
    ID: string,
    Type: string,
    Effect: string,
    Leds: string,
    Time: int,
    MetaInfo: Meta,
    Number: int)

  datatype Timeline = Timeline(
    ID: string,
    Enabled: bool,
    Created: string,
    Name: string,
    GPIO: int,
    Steps: seq<TimelineStep>,
    Tags: seq<string>)

  /** A conversion that returns a value or panics. */
  datatype Result<T> = Success(value: T) | Failure(fault: Fault)

  // ------------------------------------------------------------ step kinds

  /** The step and effect kinds whose case in either conversion deals with a
      payload. */
  predicate CarriesMeta(t: Step.StepType, e: Effect.EffectType) {
    (t == Step.Effect && e in {Effect.Solid, Effect.Fade, Effect.Gradient, Effect.Sequence, Effect.Zip, Effect.Lightning})
    || t == Step.Trigger
  }

  /** A stored step whose payload is of the record type its kind asserts. */
  predicate WellTyped(item: Data.TimelineStep) {
    var m := item.MetaInfo;
    if item.Type == Step.Effect then
      (item.Effect == Effect.Solid ==> m.SolidMeta?) &&
      (item.Effect == Effect.Fade ==> m.FadeMeta?) &&
      (item.Effect == Effect.Gradient ==> m.GradientMeta?) &&
      (item.Effect == Effect.Sequence ==> m.SequenceMeta?) &&
      (item.Effect == Effect.Zip ==> m.ZipMeta?) &&
      (item.Effect == Effect.Lightning ==> m.LightningMeta?)
    else item.Type == Step.Trigger ==> m.TriggerMeta?
  }

  // ------------------------------------------------------------ to the API

  function ColorToApi(c: Data.MetaColor): (r: MetaColor)
    ensures r.R == c.R && r.G == c.G && r.B == c.B && r.W == c.W
  {
    MetaColor(c.R, c.G, c.B, c.W)
  }

  /** The copy loop over a Sequence payload. */
  function SequenceToApi(sequence: seq<Data.MetaColor>): (r: seq<MetaColor>)
    ensures |r| == |sequence|
    ensures forall k :: 0 <= k < |sequence| ==> r[k] == ColorToApi(sequence[k])
  {
    seq(|sequence|, k requires 0 <= k < |sequence| => ColorToApi(sequence[k]))
  }

  /** The payload switch of `TimelineToApi`: every case that reads the payload
      first asserts its record type and panics when that fails; the other kinds
      leave the API payload nil. */
  function MetaToApi(item: Data.TimelineStep): (r: Result<Meta>)
    ensures r.Success? <==> WellTyped(item)
    ensures r.Failure? ==> r.fault == TypeAssertion
    ensures !CarriesMeta(item.Type, item.Effect) ==> r == Success(NoMeta)
  {
    var m := item.MetaInfo;
    if item.Type == Step.Effect then
      if item.Effect == Effect.Solid then
        if m.SolidMeta? then Success(SolidMeta(ColorToApi(m.Color))) else Failure(TypeAssertion)
      else if item.Effect == Effect.Fade then
        if m.FadeMeta? then Success(FadeMeta(ColorToApi(m.Color))) else Failure(TypeAssertion)
      else if item.Effect == Effect.Gradient then
        if m.GradientMeta? then Success(GradientMeta(ColorToApi(m.StartColor), ColorToApi(m.EndColor)))
        else Failure(TypeAssertion)
      else if item.Effect == Effect.Sequence then
        if m.SequenceMeta? then Success(SequenceMeta(SequenceToApi(m.Sequence))) else Failure(TypeAssertion)
      else if item.Effect == Effect.Zip then
        if m.ZipMeta? then Success(ZipMeta(ColorToApi(m.Color))) else Failure(TypeAssertion)
      else if item.Effect == Effect.Lightning then
        if m.LightningMeta? then
          Success(LightningMeta(m.Bursts, m.BurstType, m.BurstSpacing, m.BurstLength, m.BurstBrightness))
        else Failure(TypeAssertion)
      else Success(NoMeta)
    else if item.Type == Step.Trigger then
      if m.TriggerMeta? then Success(TriggerMeta(m.Verb, m.URL, m.Headers, m.Body)) else Failure(TypeAssertion)
    else Success(NoMeta)
  }

  /** One step in API form: the scalars copied, the kinds printed by their
      `String` methods, the payload converted. */
  function StepToApi(item: Data.TimelineStep): (r: Result<TimelineStep>)
    ensures r.Success? <==> WellTyped(item)
    ensures r.Failure? ==> r.fault == TypeAssertion
    ensures r.Success? ==>
      r.value.ID == item.ID && r.value.Number == item.Number && r.value.Leds == item.Leds.String &&
      r.value.Time == item.Time.Int32 && r.value.Type == Step.String(item.Type) &&
      r.value.Effect == Effect.String(item.Effect)
  {
    match MetaToApi(item)
    case Failure(f) => Failure(f)
    case Success(meta) =>
      Success(TimelineStep(item.ID, Step.String(item.Type), Effect.String(item.Effect), item.Leds.String,
                           item.Time.Int32, meta, item.Number))
  }

  /** `TimelineToApi`: the base fields, then every step in order; a step whose
      payload fails its type assertion panics the whole conversion. `Created`
      is printed by `format`, which stands for RFC 3339 formatting. */
  function ToApi(tl: Data.Timeline, format: Data.Instant -> string): (r: Result<Timeline>)
  {
    if exists k :: 0 <= k < |tl.Steps| && !WellTyped(tl.Steps[k]) then Failure(TypeAssertion)
    else
      Success(Timeline(tl.ID, tl.Enabled, format(tl.Created), tl.Name, tl.GPIO.Int32,
                       seq(|tl.Steps|, k requires 0 <= k < |tl.Steps| => StepToApi(tl.Steps[k]).value),
                       tl.Tags))
  }

  /** The conversion keeps the steps, their number and their order, copies the
      base fields, drops the validity of GPIO, and panics exactly when some step
      is not well typed. */
  lemma ToApiShape(tl: Data.Timeline, format: Data.Instant -> string)
    ensures ToApi(tl, format).Success? <==> forall k :: 0 <= k < |tl.Steps| ==> WellTyped(tl.Steps[k])
    ensures var r := ToApi(tl, format);
      r.Success? ==>
        r.value.ID == tl.ID && r.value.Enabled == tl.Enabled && r.value.Name == tl.Name &&
        r.value.Tags == tl.Tags && r.value.GPIO == tl.GPIO.Int32 && r.value.Created == format(tl.Created) &&
        |r.value.Steps| == |tl.Steps| &&
        forall k :: 0 <= k < |tl.Steps| ==> StepToApi(tl.Steps[k]) == Success(r.value.Steps[k])
  {
  }

  method TimelineToApi(tl: Data.Timeline, format: Data.Instant -> string) returns (r: Result<Timeline>)
    ensures r == ToApi(tl, format)
  {
    var steps: seq<TimelineStep> := [];
    for i := 0 to |tl.Steps|
      invariant |steps| == i
      invariant forall k :: 0 <= k < i ==> StepToApi(tl.Steps[k]) == Success(steps[k])
    {
      var converted := StepToApi(tl.Steps[i]);
      if converted.Failure? {
        assert !WellTyped(tl.Steps[i]);
        return Failure(converted.fault);
      }
      steps := steps + [converted.value];
    }
    assert steps == seq(|tl.Steps|, k requires 0 <= k < |tl.Steps| => StepToApi(tl.Steps[k]).value);
    r := Success(Timeline(tl.ID, tl.Enabled, format(tl.Created), tl.Name, tl.GPIO.Int32, steps, tl.Tags));
  }

  // ------------------------------------------------------------ from the API

  function ColorFromApi(c: MetaColor): (r: Data.MetaColor)
    ensures r.R == c.R && r.G == c.G && r.B == c.B && r.W == c.W
  {
    Data.MetaColor(c.R, c.G, c.B, c.W)
  }

  const ZeroColor: Data.MetaColor := Data.MetaColor(0, 0, 0, 0)

  /** The `color` key is shared by the Solid, Fade and Zip records, so any of
      the three fills it; any other payload leaves it zero. */
  function DecodeColor(m: Meta): (c: Data.MetaColor)
    ensures m.SolidMeta? || m.FadeMeta? || m.ZipMeta? ==> c == ColorFromApi(m.Color)
    ensures !(m.SolidMeta? || m.FadeMeta? || m.ZipMeta?) ==> c == ZeroColor
  {
    if m.SolidMeta? || m.FadeMeta? || m.ZipMeta? then ColorFromApi(m.Color) else ZeroColor
  }

  /** A colour written into a Solid, Fade or Zip payload by `TimelineToApi` is
      read back unchanged, whichever of the three the payload is. */
  lemma DecodeColorRoundTrip(c: Data.MetaColor)
    ensures DecodeColor(SolidMeta(ColorToApi(c))) == c
    ensures DecodeColor(FadeMeta(ColorToApi(c))) == c
    ensures DecodeColor(ZipMeta(ColorToApi(c))) == c
  {
  }

  /** The payload switch of `ApiToTimeline`, on the parsed kinds: each case that
      reads the payload retypes it into a zero record of its own type; the
      other kinds leave the stored payload nil. */
  function MetaFromApi(t: Step.StepType, e: Effect.EffectType, m: Meta): (r: Data.MetaInfo)
    ensures !CarriesMeta(t, e) ==> r == Data.NoMeta
    ensures WellTyped(Data.TimelineStep("", t, e, Data.NullString("", true), Data.NullInt32(0, true), r, 0))
  {
    if t == Step.Effect then
      if e == Effect.Solid then Data.SolidMeta(DecodeColor(m))
      else if e == Effect.Fade then Data.FadeMeta(DecodeColor(m))
      else if e == Effect.Gradient then
        if m.GradientMeta? then Data.GradientMeta(ColorFromApi(m.StartColor), ColorFromApi(m.EndColor))
        else Data.GradientMeta(ZeroColor, ZeroColor)
      else if e == Effect.Sequence then
        if m.SequenceMeta? then Data.SequenceMeta(seq(|m.Sequence|, k requires 0 <= k < |m.Sequence| => ColorFromApi(m.Sequence[k])))
        else Data.SequenceMeta([])
      else if e == Effect.Zip then Data.ZipMeta(DecodeColor(m))
      else if e == Effect.Lightning then
        if m.LightningMeta? then
          Data.LightningMeta(m.Bursts, m.BurstType, m.BurstSpacing, m.BurstLength, m.BurstBrightness)
        else Data.LightningMeta(0, "", 0, 0, 0)
      else Data.NoMeta
    else if t == Step.Trigger then
      if m.TriggerMeta? then Data.TriggerMeta(m.Verb, m.URL, m.Headers, m.Body)
      else Data.TriggerMeta("", "", [], [])
    else Data.NoMeta
  }

  /** One step in stored form: the kinds parsed, Leds and Time always marked
      valid, Time cut to 32 bits, the payload retyped. */
  function StepFromApi(item: TimelineStep): (r: Data.TimelineStep)
    ensures r.ID == item.ID && r.Number == item.Number
    ensures r.Type == Step.FromString(item.Type) && r.Effect == Effect.FromString(item.Effect)
    ensures r.Leds == Data.NullString(item.Leds, true)
    ensures r.Time.Valid && (r.Time.Int32 - item.Time) % 0x1_0000_0000 == 0
    ensures WellTyped(r)
  {
    var t := Step.FromString(item.Type);
    var e := Effect.FromString(item.Effect);
    Data.TimelineStep(item.ID, t, e, Data.NullString(item.Leds, true), Data.NullInt32(Data.ToInt32(item.Time), true),
                      MetaFromApi(t, e, item.MetaInfo), item.Number)
  }

  /** `ApiToTimeline`: the base fields (GPIO cut to 32 bits and always marked
      valid, `Created` left at the zero time), then every step in order. */
  function FromApi(tl: Timeline): (r: Data.Timeline)
    ensures r.ID == tl.ID && r.Enabled == tl.Enabled && r.Name == tl.Name && r.Tags == tl.Tags
    ensures r.Created == Data.ZeroTime && r.GPIO == Data.NullInt32(Data.ToInt32(tl.GPIO), true)
    ensures |r.Steps| == |tl.Steps| && forall k :: 0 <= k < |tl.Steps| ==> r.Steps[k] == StepFromApi(tl.Steps[k])
  {
    Data.Timeline(tl.ID, tl.Enabled, Data.ZeroTime, tl.Name, Data.NullInt32(Data.ToInt32(tl.GPIO), true),
                  seq(|tl.Steps|, k requires 0 <= k < |tl.Steps| => StepFromApi(tl.Steps[k])), tl.Tags)
  }

  method ApiToTimeline(tl: Timeline) returns (r: Data.Timeline)
    ensures r == FromApi(tl)
  {
    var steps: seq<Data.TimelineStep> := [];
    for i := 0 to |tl.Steps|
      invariant |steps| == i
      invariant forall k :: 0 <= k < i ==> steps[k] == StepFromApi(tl.Steps[k])
    {
      steps := steps + [StepFromApi(tl.Steps[i])];
    }
    r := Data.Timeline(tl.ID, tl.Enabled, Data.ZeroTime, tl.Name, Data.NullInt32(Data.ToInt32(tl.GPIO), true),
                       steps, tl.Tags);
  }

  // ------------------------------------------------------------ properties

  /** A timeline built from the API always overrides the system GPIO, even
      when its gpio is 0, because the conversion marks GPIO valid. */
  lemma ApiTimelineOverridesGpio(tl: Timeline, systemGpio: int)
    ensures Process.ResolveGpio(systemGpio, FromApi(tl).GPIO) == Data.ToInt32(tl.GPIO)
  {
  }

  /** A timeline built from the API converts back without panicking: every
      payload it holds has the record type its kind asserts. */
  lemma FromApiConvertsBack(tl: Timeline, format: Data.Instant -> string)
    ensures ToApi(FromApi(tl), format).Success?
  {
    ToApiShape(FromApi(tl), format);
  }

  /** A stored step in the form `ApiToTimeline` produces: kinds in range, Leds
      and Time valid, a payload of the asserted type where the kind has one and
      nil elsewhere. */
  predicate Canonical(item: Data.TimelineStep) {
    Step.Unknown <= item.Type <= Step.Loop && Effect.Unknown <= item.Effect <= Effect.Lightning &&
    item.Leds.Valid && item.Time.Valid && WellTyped(item) &&
    (!CarriesMeta(item.Type, item.Effect) ==> item.MetaInfo == Data.NoMeta)
  }

  /** Each payload survives the trip to the API and back. */
  lemma {:induction false} MetaRoundTrip(item: Data.TimelineStep)
    requires Canonical(item)
    ensures MetaFromApi(item.Type, item.Effect, MetaToApi(item).value) == item.MetaInfo
  {
    var m := item.MetaInfo;
    if item.Type == Step.Effect && item.Effect == Effect.Sequence {
      var back := MetaFromApi(item.Type, item.Effect, MetaToApi(item).value);
      assert back.Sequence == m.Sequence;
    }
  }

  /** A canonical step survives the trip to the API and back. */
  lemma StepRoundTrip(item: Data.TimelineStep)
    requires Canonical(item)
    ensures StepFromApi(StepToApi(item).value) == item
  {
    Step.FromStringOfString(item.Type);
    Effect.FromStringOfString(item.Effect);
    MetaRoundTrip(item);
  }

  /** A timeline of canonical steps with a valid GPIO comes back from the API
      unchanged except for its creation time, which `ApiToTimeline` does not
      set. */
  lemma TimelineRoundTrip(tl: Data.Timeline, format: Data.Instant -> string)
    requires tl.GPIO.Valid && forall k :: 0 <= k < |tl.Steps| ==> Canonical(tl.Steps[k])
    ensures ToApi(tl, format).Success?
    ensures FromApi(ToApi(tl, format).value) == tl.(Created := Data.ZeroTime)
  {
    ToApiShape(tl, format);
    var back := FromApi(ToApi(tl, format).value);
    forall k | 0 <= k < |tl.Steps|
      ensures back.Steps[k] == tl.Steps[k]
    {
      StepRoundTrip(tl.Steps[k]);
    }
  }

  /** The trip the other way prints the parsed kinds back by their canonical
      names: a name in another letter case, or an unknown one, does not come
      back as it was written. */
  lemma ApiKindsNormalised(item: TimelineStep)
    ensures StepToApi(StepFromApi(item)).Success?
    ensures StepToApi(StepFromApi(item)).value.Type == Step.String(Step.FromString(item.Type))
    ensures StepToApi(StepFromApi(item)).value.Effect == Effect.String(Effect.FromString(item.Effect))
    ensures StepToApi(StepFromApi(TimelineStep("", "SLEEP", "", "", 0, NoMeta, 0))).value.Type == "Sleep"
  {
    assert Step.FromString("SLEEP") == Step.Sleep by {
      assert Strings.ToLower("SLEEP") == "sleep";
    }
    Step.StringOfConstants();
  }
}
