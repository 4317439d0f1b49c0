/** The device catalogue as the program sees it: which devices can be
    chosen for capture and for playback, how each is labelled in the
    selection lists, and how a selected caption is mapped back to a device. */
module Devices {

  datatype Option<T> = None | Some(value: T)

  /** One entry of the audio subsystem's device list. */
  datatype Device = Device(
    name: string,
    maxInputChannels: nat,
    maxOutputChannels: nat,
    defaultSampleRate: real)

  datatype Direction = Input | Output

  /** A selectable device: its position in the device list and its caption. */
  datatype Entry = Entry(index: nat, caption: string)

  function Channels(d: Device, dir: Direction): nat {
    match dir
    case Input => d.maxInputChannels
    case Output => d.maxOutputChannels
  }

  function DigitChar(n: nat): char
    requires n < 10
  {
    ('0' as int + n) as char
  }

  predicate IsDigit(ch: char) {
    '0' <= ch <= '9'
  }

  /** The number a string of decimal digits spells. */
  function DecimalValue(s: string): nat
    requires forall i | 0 <= i < |s| :: IsDigit(s[i])
  {
    if s == [] then 0
    else
      assert IsDigit(s[|s| - 1]);
      DecimalValue(s[..|s| - 1]) * 10 + (s[|s| - 1] as int - '0' as int)
  }

  /** The decimal spelling of `n`, as Python's `str` gives it: digits only,
      no leading zero, and spelling the number back gives `n`. */
  function Decimal(n: nat): (r: string)
    ensures |r| >= 1 && forall i | 0 <= i < |r| :: IsDigit(r[i])
    ensures r[0] == '0' ==> n == 0
    ensures DecimalValue(r) == n
    decreases n
  {
    if n < 10 then [DigitChar(n)]
    else
      var front := Decimal(n / 10);
      var r := front + [DigitChar(n % 10)];
      assert r[..|r| - 1] == front;
      r
  }

  function Tag(dir: Direction): string {
    match dir
    case Input => " (in: "
    case Output => " (out: "
  }

  /** `"<name> (in: <channels>)"` or `"<name> (out: <channels>)"`: the
      device name, the direction tag, the channel count in decimal and a
      closing parenthesis. */
  function Label(d: Device, dir: Direction): string {
    d.name + Tag(dir) + Decimal(Channels(d, dir)) + ")"
  }

  /** A caption starts with the device name and the direction tag, ends
      with a closing parenthesis, and in between spells the channel count of
      that direction. */
  lemma LabelSpellsChannels(d: Device, dir: Direction)
    ensures var r := Label(d, dir);
      |r| > |d.name| + |Tag(dir)| &&
      r[..|d.name|] == d.name &&
      r[|d.name|..|d.name| + |Tag(dir)|] == Tag(dir) &&
      Decimal(Channels(d, dir)) == r[|d.name| + |Tag(dir)|..|r| - 1] &&
      r[|r| - 1] == ')'
  {
    var r := Label(d, dir);
    assert r == d.name + Tag(dir) + Decimal(Channels(d, dir)) + ")";
  }

  /** A caption can be read back: it starts with the device name and the
      direction tag, ends with a closing parenthesis, and the text between
      the tag and the parenthesis is all digits whose value is the channel
      count of that direction. */
  lemma LabelReadsBack(d: Device, dir: Direction)
    ensures var r := Label(d, dir);
      var digits := r[|d.name| + |Tag(dir)|..|r| - 1];
      |r| > |d.name| + |Tag(dir)| &&
      r[..|d.name|] == d.name &&
      r[|d.name|..|d.name| + |Tag(dir)|] == Tag(dir) &&
      r[|r| - 1] == ')' &&
      (forall i | 0 <= i < |digits| :: IsDigit(digits[i])) &&
      DecimalValue(digits) == Channels(d, dir)
  {
    LabelSpellsChannels(d, dir);
  }

  /** Two devices of the same name get the same caption exactly when they
      have the same channel count in that direction; captions that collide
      are resolved by the first match of `Lookup`. */
  lemma LabelsCollideIff(d1: Device, d2: Device, dir: Direction)
    requires d1.name == d2.name
    ensures Label(d1, dir) == Label(d2, dir) <==> Channels(d1, dir) == Channels(d2, dir)
  {
    LabelSpellsChannels(d1, dir);
    LabelSpellsChannels(d2, dir);
    if Label(d1, dir) == Label(d2, dir) {
      assert DecimalValue(Decimal(Channels(d1, dir))) == DecimalValue(Decimal(Channels(d2, dir)));
    }
  }

  /** The selectable devices of `ds` for `dir`: those with at least one
      channel in that direction, in enumeration order. */
  function Entries(ds: seq<Device>, dir: Direction): seq<Entry> {
    if ds == [] then []
    else
      var last := |ds| - 1;
      var front := Entries(ds[..last], dir);
      if Channels(ds[last], dir) > 0 then front + [Entry(last, Label(ds[last], dir))] else front
  }

  /** Every listed entry names a device of `ds` that has a channel in `dir`,
      under that device's caption, and the indices strictly increase. */
  lemma {:induction false} EntriesSound(ds: seq<Device>, dir: Direction)
    ensures var r := Entries(ds, dir);
      (forall e | e in r ::
        e.index < |ds| && Channels(ds[e.index], dir) > 0 && e.caption == Label(ds[e.index], dir)) &&
      (forall a, b | 0 <= a < b < |r| :: r[a].index < r[b].index)
  {
    if ds != [] {
      var last := |ds| - 1;
      EntriesSound(ds[..last], dir);
    }
  }

  /** Every device with a channel in `dir` is listed, under its caption. */
  lemma {:induction false} EntriesComplete(ds: seq<Device>, dir: Direction, i: nat)
    requires i < |ds| && Channels(ds[i], dir) > 0
    ensures Entry(i, Label(ds[i], dir)) in Entries(ds, dir)
  {
    var last := |ds| - 1;
    if i < last {
      EntriesComplete(ds[..last], dir, i);
    }
  }

  /** The list holds exactly the `(index, caption)` pairs of the devices with
      a channel in `dir` (its order is given by `Entries`' contract). */
  lemma {:induction false} EntriesExact(ds: seq<Device>, dir: Direction, e: Entry)
    ensures e in Entries(ds, dir) <==>
      e.index < |ds| && Channels(ds[e.index], dir) > 0 && e.caption == Label(ds[e.index], dir)
  {
    EntriesSound(ds, dir);
    if e.index < |ds| && Channels(ds[e.index], dir) > 0 && e.caption == Label(ds[e.index], dir) {
      EntriesComplete(ds, dir, e.index);
    }
  }

  /** Enumerates the device list once, building both selection lists. */
  method ListDevices(ds: seq<Device>) returns (inputs: seq<Entry>, outputs: seq<Entry>)
    ensures inputs == Entries(ds, Input)
    ensures outputs == Entries(ds, Output)
  {
    inputs, outputs := [], [];
    for i := 0 to |ds|
      invariant inputs == Entries(ds[..i], Input)
      invariant outputs == Entries(ds[..i], Output)
    {
      assert ds[..i + 1][..i] == ds[..i];
      if ds[i].maxInputChannels > 0 {
        inputs := inputs + [Entry(i, Label(ds[i], Input))];
      }
      if ds[i].maxOutputChannels > 0 {
        outputs := outputs + [Entry(i, Label(ds[i], Output))];
      }
    }
    assert ds[..|ds|] == ds;
  }

  /** The device index of the first entry labelled `caption`; `None` where
      the search runs off the end of the list. */
  function Lookup(entries: seq<Entry>, caption: string): (r: Option<nat>)
    ensures r.None? <==> forall k | 0 <= k < |entries| :: entries[k].caption != caption
    ensures r.Some? ==> exists k | 0 <= k < |entries| ::
      entries[k] == Entry(r.value, caption) &&
      forall j | 0 <= j < k :: entries[j].caption != caption
  {
    if entries == [] then None
    else if entries[0].caption == caption then Some(entries[0].index)
    else
      var r := Lookup(entries[1..], caption);
      assert r.Some? ==> exists k | 1 <= k < |entries| ::
        entries[k] == Entry(r.value, caption) &&
        forall j | 0 <= j < k :: entries[j].caption != caption
      by {
        if r.Some? {
          var k :| 0 <= k < |entries| - 1 && entries[1..][k] == Entry(r.value, caption) &&
            forall j | 0 <= j < k :: entries[1..][j].caption != caption;
          assert entries[k + 1] == Entry(r.value, caption);
          assert forall j | 0 <= j < k + 1 :: entries[j].caption != caption by {
            forall j | 0 <= j < k + 1
              ensures entries[j].caption != caption
            {
              if j > 0 {
                assert entries[j] == entries[1..][j - 1];
              }
            }
          }
        }
      }
      r
  }

  /** The device a lookup selects is a listed device carrying that caption. */
  lemma LookupSelectsListed(ds: seq<Device>, dir: Direction, caption: string)
    ensures var r := Lookup(Entries(ds, dir), caption);
      r.Some? ==> r.value < |ds| && Channels(ds[r.value], dir) > 0 && Label(ds[r.value], dir) == caption
  {
    EntriesSound(ds, dir);
  }
}
