/** Package `data`: the stored form of a timeline, in the shape the engine and
    the API conversion use it (nullable SQL scalars, an enum-typed step kind and
    a payload whose type depends on that kind). */
module Data {
  import Effect
  import Step

  /** The range of Go's `int32`. */
  type Int32 = x: int | -0x8000_0000 <= x < 0x8000_0000

  /** Go's conversion `int32(x)` from a wider integer: keep the low 32 bits. */
  function ToInt32(x: int): (r: Int32)
    ensures (r - x) % 0x1_0000_0000 == 0
    ensures -0x8000_0000 <= x < 0x8000_0000 ==> r == x
  {
    (x + 0x8000_0000) % 0x1_0000_0000 - 0x8000_0000
  }

  /** `sql.NullInt32` and `sql.NullString`. */
  datatype NullInt32 = NullInt32(Int32: Int32, Valid: bool)
  datatype NullString = NullString(String: string, Valid: bool)

  datatype MetaColor = MetaColor(R: int, G: int, B: int, W: int)

  /** The dynamically typed `MetaInfo any` of a step: one record per payload
      type, or `NoMeta` for nil. */
  datatype MetaInfo =
    | NoMeta
    | SolidMeta(Color: MetaColor)
    | FadeMeta(Color: MetaColor)
    | GradientMeta(StartColor: MetaColor, EndColor: MetaColor)
    | SequenceMeta(Sequence: seq<MetaColor>)
    | ZipMeta(Color: MetaColor)
    | LightningMeta(Bursts: int, BurstType: string, BurstSpacing: int, BurstLength: int, BurstBrightness: int)
    | TriggerMeta(Verb: string, URL: string, Headers: seq<string>, Body: seq<bv8>)

  datatype TimelineStep = TimelineStep(
    ID: string,
    Type: Step.StepType,
    Effect: Effect.EffectType,
    Leds: NullString,
    Time: NullInt32,
    MetaInfo: MetaInfo,
    Number: int)

  /** `time.Time`, kept abstract: an instant, with `ZeroTime` for `time.Time{}`. */
  type Instant = int
  const ZeroTime: Instant := 0

  datatype Timeline = Timeline(
    ID: string,
    Enabled: bool,
    Created: Instant,
    Name: string,
    GPIO: NullInt32,
    Steps: seq<TimelineStep>,
    Tags: seq<string>)
}
