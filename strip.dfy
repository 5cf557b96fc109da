/** `strip.go`: turning a colour list into a pixel, and the functional options
    that configure a strip before the hardware driver is opened. */
module Strip {
  import Strings
  import opened Pixarray

  /** `color(c)`: three entries give R, G, B (W zero), four give R, G, B, W, any
      other length gives the all-zero pixel. */
  function Color(c: seq<int>): (p: Pixel)
    ensures 3 <= |c| <= 4 ==> Channels(p)[..|c|] == c
    ensures |c| != 4 ==> p.W == 0
    ensures !(3 <= |c| <= 4) ==> Channels(p) == [0, 0, 0, 0]
  {
    if |c| == 3 then Pixel(c[0], c[1], c[2], 0)
    else if |c| == 4 then Pixel(c[0], c[1], c[2], c[3])
    else Off
  }

  /** The four-entry list [R, G, B, W] of a pixel. */
  function Channels(p: Pixel): seq<int> {
    [p.R, p.G, p.B, p.W]
  }

  /** `color` takes its four-entry branch on a channel list, so nothing, the
      white channel included, is lost. */
  lemma ColorOfChannels(p: Pixel)
    ensures Color(Channels(p)) == p
  {
  }

  /** `StripOptions`. `Brightness` is a float32 in the source; only whether it is
      set matters here, so it is kept as a real. */
  datatype StripOptions = StripOptions(
    NumPixels: int,
    Order: int,
    OscFrequency: nat,
    DMAChannel: int,
    PWMPins: seq<int>,
    Brightness: real,
    NumColors: int)

  /** One option closure, named by the field it sets and the value it sets it to. */
  datatype StripOption =
    | SetOrder(order: int)
    | SetOscFrequency(freq: nat)
    | SetPWMPins(pins: seq<int>)
    | SetNumColors(num: int)
    | SetDMAChannel(channel: int)
    | SetBrightness(b: real)

  /** `WithPixelOrder(order)`: the upper-cased name looked up in the driver's
      `StringOrders` table, which is passed in; a missing name yields Go's zero
      value 0. */
  function WithPixelOrder(stringOrders: map<string, int>, order: string): StripOption {
    var key := ToUpperName(order);
    SetOrder(if key in stringOrders then stringOrders[key] else 0)
  }

  /** The key an order name is looked up under. */
  function ToUpperName(order: string): string {
    Strings.ToUpper(order)
  }

  /** `WithGPIOPIn(pin)` replaces the pin list by the single pin. */
  function WithGPIOPIn(pin: int): StripOption {
    SetPWMPins([pin])
  }

  function WithOscFreq(freq: nat): StripOption { SetOscFrequency(freq) }
  function WithNumberOfColors(num: int): StripOption { SetNumColors(num) }
  function WithDMAChannel(channel: int): StripOption { SetDMAChannel(channel) }
  function WithBrightness(b: real): StripOption { SetBrightness(b) }

  /** Running one option closure on the options. */
  function Apply(o: StripOption, opts: StripOptions): StripOptions {
    match o
    case SetOrder(order) => opts.(Order := order)
    case SetOscFrequency(freq) => opts.(OscFrequency := freq)
    case SetPWMPins(pins) => opts.(PWMPins := pins)
    case SetNumColors(num) => opts.(NumColors := num)
    case SetDMAChannel(channel) => opts.(DMAChannel := channel)
    case SetBrightness(b) => opts.(Brightness := b)
  }

  /** The field an option sets holds the option's value. */
  predicate Holds(opts: StripOptions, o: StripOption) {
    match o
    case SetOrder(order) => opts.Order == order
    case SetOscFrequency(freq) => opts.OscFrequency == freq
    case SetPWMPins(pins) => opts.PWMPins == pins
    case SetNumColors(num) => opts.NumColors == num
    case SetDMAChannel(channel) => opts.DMAChannel == channel
    case SetBrightness(b) => opts.Brightness == b
  }

  /** Two options that set the same field. */
  predicate SameField(o1: StripOption, o2: StripOption) {
    match o1
    case SetOrder(_) => o2.SetOrder?
    case SetOscFrequency(_) => o2.SetOscFrequency?
    case SetPWMPins(_) => o2.SetPWMPins?
    case SetNumColors(_) => o2.SetNumColors?
    case SetDMAChannel(_) => o2.SetDMAChannel?
    case SetBrightness(_) => o2.SetBrightness?
  }

  /** `a` and `b` agree on every field except, possibly, the one `o` sets. */
  predicate AgreeExcept(a: StripOptions, b: StripOptions, o: StripOption) {
    match o
    case SetOrder(_) => a.(Order := b.Order) == b
    case SetOscFrequency(_) => a.(OscFrequency := b.OscFrequency) == b
    case SetPWMPins(_) => a.(PWMPins := b.PWMPins) == b
    case SetNumColors(_) => a.(NumColors := b.NumColors) == b
    case SetDMAChannel(_) => a.(DMAChannel := b.DMAChannel) == b
    case SetBrightness(_) => a.(Brightness := b.Brightness) == b
  }

  /** Each option sets its own field to its value and leaves every other field. */
  lemma ApplySetsOnlyItsField(o: StripOption, opts: StripOptions)
    ensures Holds(Apply(o, opts), o)
    ensures AgreeExcept(opts, Apply(o, opts), o)
  {
  }

  /** The options `NewStrip` starts from, before any option runs. The driver's
      `pixarray.GRB` constant is passed in. */
  function DefaultOptions(numPixels: int, grb: int): (d: StripOptions)
    ensures d.NumColors == 3 && d.NumPixels == numPixels && d.Order == grb
    ensures d.OscFrequency == 800000 && d.DMAChannel == 10
    ensures d.PWMPins == [18] && d.Brightness == 0.0
  {
    StripOptions(numPixels, grb, 800000, 10, [18], 0.0, 3)
  }

  /** The options after running `options` in list order on `opts`. */
  function Fold(opts: StripOptions, options: seq<StripOption>): StripOptions
    decreases |options|
  {
    if options == [] then opts else Fold(Apply(options[0], opts), options[1..])
  }

  /** Running a list and then one more option is running the longer list. */
  lemma {:induction false} FoldSnoc(opts: StripOptions, options: seq<StripOption>, o: StripOption)
    ensures Fold(opts, options + [o]) == Apply(o, Fold(opts, options))
    decreases |options|
  {
    if options != [] {
      assert (options + [o])[1..] == options[1..] + [o];
      FoldSnoc(Apply(options[0], opts), options[1..], o);
    }
  }

  /** An option that no later option overrides decides its field: so options
      apply in list order and the last one for a field wins. */
  lemma {:induction false} LaterOptionWins(opts: StripOptions, before: seq<StripOption>,
                                           o: StripOption, after: seq<StripOption>)
    requires forall k :: 0 <= k < |after| ==> !SameField(after[k], o)
    ensures Holds(Fold(opts, before + [o] + after), o)
    decreases |after|
  {
    if after == [] {
      assert before + [o] + after == before + [o];
      FoldSnoc(opts, before, o);
      ApplySetsOnlyItsField(o, Fold(opts, before));
    } else {
      var last := after[|after| - 1];
      var init := after[..|after| - 1];
      assert before + [o] + after == (before + [o] + init) + [last];
      FoldSnoc(opts, before + [o] + init, last);
      LaterOptionWins(opts, before, o, init);
    }
  }

  /** No option sets the LED count. */
  lemma {:induction false} FoldKeepsCount(opts: StripOptions, options: seq<StripOption>)
    ensures Fold(opts, options).NumPixels == opts.NumPixels
    decreases |options|
  {
    if options != [] {
      FoldKeepsCount(Apply(options[0], opts), options[1..]);
    }
  }

  /** An option list none of whose entries sets the field `o` sets leaves that
      field as it was. */
  lemma {:induction false} FoldKeeps(opts: StripOptions, options: seq<StripOption>, o: StripOption)
    requires Holds(opts, o)
    requires forall k :: 0 <= k < |options| ==> !SameField(options[k], o)
    ensures Holds(Fold(opts, options), o)
    decreases |options|
  {
    if options != [] {
      assert !SameField(options[0], o);
      ApplySetsOnlyItsField(options[0], opts);
      FoldKeeps(Apply(options[0], opts), options[1..], o);
    }
  }

  /** After `NewStrip` runs its options, the LED count is the one passed in and
      every field that no option sets keeps its default: GRB order, 800000 Hz,
      DMA channel 10, pin 18, three colours and no brightness. */
  lemma UnsetFieldsKeepDefaults(numPixels: int, grb: int, options: seq<StripOption>)
    ensures var r := Fold(DefaultOptions(numPixels, grb), options);
      r.NumPixels == numPixels &&
      ((forall k :: 0 <= k < |options| ==> !options[k].SetOrder?) ==> r.Order == grb) &&
      ((forall k :: 0 <= k < |options| ==> !options[k].SetOscFrequency?) ==> r.OscFrequency == 800000) &&
      ((forall k :: 0 <= k < |options| ==> !options[k].SetDMAChannel?) ==> r.DMAChannel == 10) &&
      ((forall k :: 0 <= k < |options| ==> !options[k].SetPWMPins?) ==> r.PWMPins == [18]) &&
      ((forall k :: 0 <= k < |options| ==> !options[k].SetNumColors?) ==> r.NumColors == 3) &&
      ((forall k :: 0 <= k < |options| ==> !options[k].SetBrightness?) ==> r.Brightness == 0.0)
  {
    var d := DefaultOptions(numPixels, grb);
    FoldKeepsCount(d, options);
    if forall k :: 0 <= k < |options| ==> !options[k].SetOrder? {
      FoldKeeps(d, options, SetOrder(grb));
    }
    if forall k :: 0 <= k < |options| ==> !options[k].SetOscFrequency? {
      FoldKeeps(d, options, SetOscFrequency(800000));
    }
    if forall k :: 0 <= k < |options| ==> !options[k].SetDMAChannel? {
      FoldKeeps(d, options, SetDMAChannel(10));
    }
    if forall k :: 0 <= k < |options| ==> !options[k].SetPWMPins? {
      FoldKeeps(d, options, SetPWMPins([18]));
    }
    if forall k :: 0 <= k < |options| ==> !options[k].SetNumColors? {
      FoldKeeps(d, options, SetNumColors(3));
    }
    if forall k :: 0 <= k < |options| ==> !options[k].SetBrightness? {
      FoldKeeps(d, options, SetBrightness(0.0));
    }
  }

  /** `NewStrip` up to opening the driver: the defaults, then every option
      closure run in turn on them. */
  method NewStripOptions(numPixels: int, grb: int, options: seq<StripOption>) returns (opts: StripOptions)
    ensures opts == Fold(DefaultOptions(numPixels, grb), options)
  {
    opts := DefaultOptions(numPixels, grb);
    for i := 0 to |options|
      invariant opts == Fold(DefaultOptions(numPixels, grb), options[..i])
    {
      FoldSnoc(DefaultOptions(numPixels, grb), options[..i], options[i]);
      assert options[..i + 1] == options[..i] + [options[i]];
      opts := Apply(options[i], opts);
    }
    assert options[..|options|] == options;
  }
}
