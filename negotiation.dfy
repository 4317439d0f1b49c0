/** What starting the audio computes before any stream is opened: the two
    selected devices, the common sample rate and channel count, and the
    number of frames the delay buffer must hold. */
module Negotiation {
  import opened Devices

  /** Why a start attempt ended before the streams ran. */
  datatype Error =
    | NoSuchInput        // no input entry carries the selected caption
    | NoSuchOutput       // no output entry carries the selected caption
    | NegativeDimension  // the buffer shape has a negative extent
    | StreamFailed       // the audio subsystem did not open or start a stream

  datatype Result<T> = Ok(value: T) | Err(error: Error)

  /** The shape and rate of one session. */
  datatype Config = Config(rate: int, channels: nat, capacity: nat)

  /** Python's `int()` on a number: truncation toward zero. */
  function Trunc(x: real): (r: int)
    ensures 0.0 <= x ==> r as real <= x < r as real + 1.0
    ensures x < 0.0 ==> r as real - 1.0 < x <= r as real
  {
    if x >= 0.0 then x.Floor else -((-x).Floor)
  }

  function MinReal(a: real, b: real): real {
    if a <= b then a else b
  }

  function MinNat(a: nat, b: nat): nat {
    if a <= b then a else b
  }

  /** Frames in `delayMs` milliseconds at `rate` frames per second, the
      product truncated. For a non-negative rate and delay it is the integer
      quotient of `rate * delayMs` by 1000; it is negative exactly when the
      delay is at least one whole frame below zero. */
  function CapacityFrames(rate: int, delayMs: int): (r: int)
    ensures rate >= 0 && delayMs >= 0 ==> r == rate * delayMs / 1000
    ensures r < 0 <==> rate * delayMs <= -1000
  {
    Trunc(rate as real * (delayMs as real / 1000.0))
  }

  /** The sample rate is the slower device's default rate, truncated; the
      channel count is the smaller of the input's capture channels and the
      output's playback channels; the buffer holds the frames of the delay
      at that rate. `np.zeros` refuses a negative extent. */
  function Negotiate(inDev: Device, outDev: Device, delayMs: int): (r: Result<Config>)
    ensures var rate := Trunc(MinReal(inDev.defaultSampleRate, outDev.defaultSampleRate));
      r.Err? <==> rate * delayMs <= -1000
    ensures r.Err? ==> r.error == NegativeDimension
    ensures r.Ok? ==>
      r.value.channels <= inDev.maxInputChannels && r.value.channels <= outDev.maxOutputChannels &&
      (r.value.channels == inDev.maxInputChannels || r.value.channels == outDev.maxOutputChannels)
    ensures r.Ok? && 0.0 <= inDev.defaultSampleRate && 0.0 <= outDev.defaultSampleRate ==>
      var rate := r.value.rate as real;
      rate <= inDev.defaultSampleRate && rate <= outDev.defaultSampleRate &&
      (inDev.defaultSampleRate < rate + 1.0 || outDev.defaultSampleRate < rate + 1.0)
    ensures r.Ok? && r.value.rate >= 0 && delayMs >= 0 ==>
      r.value.capacity == r.value.rate * delayMs / 1000
  {
    var rate := Trunc(MinReal(inDev.defaultSampleRate, outDev.defaultSampleRate));
    var channels := MinNat(inDev.maxInputChannels, outDev.maxOutputChannels);
    var capacity := CapacityFrames(rate, delayMs);
    if capacity < 0 then Err(NegativeDimension)
    else Ok(Config(rate, channels, capacity))
  }

  /** Lines up the selections with the device lists, then negotiates. The
      lists are the catalogue's filtered entries, so a found device always
      has a channel in its direction and the common channel count is never
      zero. */
  function Configure(catalog: seq<Device>, inputs: seq<Entry>, outputs: seq<Entry>,
                     delayMs: int, inputCaption: string, outputCaption: string): (r: Result<Config>)
    requires inputs == Entries(catalog, Input) && outputs == Entries(catalog, Output)
    ensures Lookup(inputs, inputCaption).None? ==> r == Err(NoSuchInput)
    ensures Lookup(inputs, inputCaption).Some? && Lookup(outputs, outputCaption).None? ==>
      r == Err(NoSuchOutput)
    ensures Lookup(inputs, inputCaption).Some? && Lookup(outputs, outputCaption).Some? ==>
      var i := Lookup(inputs, inputCaption).value;
      var o := Lookup(outputs, outputCaption).value;
      i < |catalog| && o < |catalog| &&
      Label(catalog[i], Input) == inputCaption && Label(catalog[o], Output) == outputCaption &&
      r == Negotiate(catalog[i], catalog[o], delayMs)
    ensures r.Ok? ==> r.value.channels >= 1
  {
    match Lookup(inputs, inputCaption)
    case None => Err(NoSuchInput)
    case Some(i) =>
      match Lookup(outputs, outputCaption)
      case None => Err(NoSuchOutput)
      case Some(o) =>
        LookupSelectsListed(catalog, Input, inputCaption);
        LookupSelectsListed(catalog, Output, outputCaption);
        Negotiate(catalog[i], catalog[o], delayMs)
  }
}
