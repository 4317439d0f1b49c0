/** The application object: the two selection lists built once from the
    device catalogue, the running flag behind the Start/Stop button, and the
    process-wide delay setting and delay buffer that starting replaces. */
module Session {
  import opened Frames
  import opened Devices
  import opened Negotiation
  import opened DelayBuffer

  /** The delay, in milliseconds, before the first start. */
  const DEFAULT_DELAY_MS := 1000

  class AudioDelayApp {
    const catalog: seq<Device>
    const inputDevices: seq<Entry>
    const outputDevices: seq<Entry>
    /** True while both streams run, as the button shows it. */
    var running: bool
    /** The process-wide delay setting, in milliseconds. */
    var delayMs: int
    /** The process-wide delay buffer; none before the first start. */
    var line: DelayLine?

    ghost predicate Valid() {
      inputDevices == Entries(catalog, Input) && outputDevices == Entries(catalog, Output)
    }

    /** Builds both selection lists from `catalog`; nothing runs yet. */
    constructor (catalog: seq<Device>)
      ensures Valid() && this.catalog == catalog
      ensures !running && delayMs == DEFAULT_DELAY_MS && line == null
    {
      var inputs, outputs := ListDevices(catalog);
      this.catalog := catalog;
      inputDevices, outputDevices := inputs, outputs;
      running := false;
      delayMs := DEFAULT_DELAY_MS;
      line := null;
    }

    /** The Start/Stop button: start when stopped, stop when running. */
    method ToggleAudio(delay: int, inputCaption: string, outputCaption: string, streamsStarted: bool)
      requires Valid()
      modifies this
      ensures Valid()
      ensures old(running) ==> !running && line == old(line) && delayMs == old(delayMs)
      ensures !old(running) ==> delayMs == delay
      ensures !old(running) ==>
        var plan := Configure(catalog, inputDevices, outputDevices, delay, inputCaption, outputCaption);
        && running == (streamsStarted && plan.Ok?)
        && (plan.Err? ==> line == old(line))
        && (plan.Ok? ==>
              line != null && fresh(line) && fresh(line.buffer) && line.Valid() &&
              line.channels == plan.value.channels &&
              line.Contents() == Silence(plan.value.capacity, plan.value.channels))
    {
      if !running {
        var _ := StartAudio(delay, inputCaption, outputCaption, streamsStarted);
      } else {
        StopAudio();
      }
    }

    /** Records the delay, finds both devices, allocates a silent buffer of
        the negotiated shape and, once the audio subsystem has opened and
        started both streams (`streamsStarted`), marks the app running. A
        failure at any step leaves the flag as it was. */
    method StartAudio(delay: int, inputCaption: string, outputCaption: string, streamsStarted: bool)
      returns (r: Result<Config>)
      requires Valid()
      modifies this
      ensures Valid() && delayMs == delay
      ensures var plan := Configure(catalog, inputDevices, outputDevices, delay, inputCaption, outputCaption);
        && (plan.Err? ==> r == plan && line == old(line) && running == old(running))
        && (plan.Ok? ==>
              line != null && fresh(line) && fresh(line.buffer) && line.Valid() &&
              line.channels == plan.value.channels &&
              line.Contents() == Silence(plan.value.capacity, plan.value.channels))
        && (plan.Ok? && streamsStarted ==> r == plan && running)
        && (plan.Ok? && !streamsStarted ==> r == Err(StreamFailed) && running == old(running))
    {
      delayMs := delay;
      r := Configure(catalog, inputDevices, outputDevices, delay, inputCaption, outputCaption);
      if r.Ok? {
        line := new DelayLine(r.value.capacity, r.value.channels);
        if streamsStarted {
          running := true;
        } else {
          r := Err(StreamFailed);
        }
      }
    }

    /** Stops and closes whatever streams exist and clears the flag; the
        delay buffer and the delay setting stay as they are. */
    method StopAudio()
      requires Valid()
      modifies this`running
      ensures Valid() && !running
    {
      running := false;
    }
  }
}
