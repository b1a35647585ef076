/** New-message tracking: which messages of which poll fire an event.

    A message is the pair of its id and its decoded date; `Instant` reads a date as the
    moment it names, and a date it rejects makes the message undated. */
module Sms {
  import opened Options
  import opened Sorting

  datatype Message = Message(id: string, date: string)

  type Instant = string -> Option<int>

  /** What the coordinator keeps: the newest date reported, and the hashes reported at it. */
  datatype Tracker = Tracker(timestamp: Option<string>, hashes: set<string>)

  function Hash(m: Message): string { m.id + "_" + m.date }

  function Dated(ms: seq<Message>, instant: Instant): seq<Keyed<Message>> {
    if ms == [] then []
    else
      var at := instant(ms[0].date);
      if at.Some? then [Keyed(at.value, ms[0])] + Dated(ms[1..], instant) else Dated(ms[1..], instant)
  }

  /** The hashes of the messages at one instant. */
  function HashesAt(dated: seq<Keyed<Message>>, at: int): set<string> {
    set k | k in dated && k.key == at :: Hash(k.item)
  }

  /** The messages a poll reports: newer than the baseline, or as old and not seen at it. */
  function NewOnes(dated: seq<Keyed<Message>>, baseline: int, hashes: set<string>): seq<Keyed<Message>> {
    if dated == [] then []
    else
      var rest := NewOnes(dated[..|dated| - 1], baseline, hashes);
      var last := dated[|dated| - 1];
      if last.key > baseline || (last.key == baseline && Hash(last.item) !in hashes) then rest + [last] else rest
  }

  /** The tracker, with its baseline instant, after reporting some messages. */
  function Reported(t: Tracker, baseline: int, unseen: seq<Keyed<Message>>): (Tracker, int) {
    if unseen == [] then (t, baseline)
    else
      var (before, base) := Reported(t, baseline, unseen[..|unseen| - 1]);
      var last := unseen[|unseen| - 1];
      if last.key > base then (Tracker(Some(last.item.date), {Hash(last.item)}), last.key)
      else (before.(hashes := before.hashes + {Hash(last.item)}), base)
  }

  function Baseline(t: Tracker, instant: Instant): Option<int> {
    if t.timestamp.None? then None else instant(t.timestamp.value)
  }

  /** One poll: the tracker after it and the messages it fired, oldest first. */
  function Check(t: Tracker, ms: seq<Message>, instant: Instant): (Tracker, seq<Message>) {
    var dated := Sort(Dated(ms, instant));
    if dated == [] then (t, [])
    else
      var latest := dated[|dated| - 1];
      var baseline := Baseline(t, instant);
      if baseline.None? then (Tracker(Some(latest.item.date), HashesAt(dated, latest.key)), [])
      else
        var unseen := NewOnes(dated, baseline.value, t.hashes);
        (Reported(t, baseline.value, unseen).0, Items(unseen))
  }

  class SmsTracker {
    const instant: Instant
    var lastTimestamp: Option<string>
    var firedHashes: set<string>
    var fired: seq<Message>          // every event put on the bus, oldest first

    constructor (instant: Instant)
      ensures this.instant == instant && View() == Tracker(None, {}) && fired == []
    {
      this.instant := instant;
      lastTimestamp, firedHashes, fired := None, {}, [];
    }

    ghost function View(): Tracker
      reads this
    {
      Tracker(lastTimestamp, firedHashes)
    }

    method CheckNewSms(ms: seq<Message>)
      modifies this
      ensures View() == Check(old(View()), ms, instant).0
      ensures fired == old(fired) + Check(old(View()), ms, instant).1
    {
      var dated := Sort(Dated(ms, instant));
      if dated == [] { return; }
      var latest := dated[|dated| - 1];
      var start := if lastTimestamp.None? then None else instant(lastTimestamp.value);
      if start.None? {
        lastTimestamp := Some(latest.item.date);
        firedHashes := set k | k in dated && k.key == latest.key :: Hash(k.item);
        return;
      }
      var unseen: seq<Keyed<Message>> := [];
      for i := 0 to |dated|
        invariant unseen == NewOnes(dated[..i], start.value, firedHashes)
      {
        assert dated[..i + 1][..i] == dated[..i];
        if dated[i].key > start.value || (dated[i].key == start.value && Hash(dated[i].item) !in firedHashes) {
          unseen := unseen + [dated[i]];
        }
      }
      assert dated[..|dated|] == dated;
      FireEach(start.value, unseen);
    }

    /** Fire each message in turn and move the baseline along with them. */
    method FireEach(start: int, unseen: seq<Keyed<Message>>)
      modifies this
      ensures View() == Reported(old(View()), start, unseen).0
      ensures fired == old(fired) + Items(unseen)
    {
      var baseline := start;
      for i := 0 to |unseen|
        invariant (View(), baseline) == Reported(old(View()), start, unseen[..i])
        invariant fired == old(fired) + Items(unseen[..i])
      {
        assert unseen[..i + 1][..i] == unseen[..i];
        assert Items(unseen[..i + 1]) == Items(unseen[..i]) + [unseen[i].item];
        fired := fired + [unseen[i].item];
        if unseen[i].key > baseline {
          baseline := unseen[i].key;
          lastTimestamp := Some(unseen[i].item.date);
          firedHashes := {Hash(unseen[i].item)};
        } else {
          firedHashes := firedHashes + {Hash(unseen[i].item)};
        }
      }
      assert unseen[..|unseen|] == unseen;
    }
  }
}
