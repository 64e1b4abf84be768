/** The `ActivityListener` that both worker services register at start-up:
    it listens to every activity source, and when an activity stops it adds
    each of the activity's baggage entries to the activity's tags. */
module BaggagePromotion {

  /** A tag or baggage entry: a key and its value. */
  type Entry = (string, string)

  datatype ActivitySource = ActivitySource(name: string)

  /** The parts of `System.Diagnostics.Activity` the callback touches. Tags
      are kept in insertion order; `baggage` is the sequence that enumerating
      `activity.Baggage` yields. */
  class Activity {
    var tags: seq<Entry>
    var baggage: seq<Entry>

    constructor (tags: seq<Entry>, baggage: seq<Entry>)
      ensures this.tags == tags && this.baggage == baggage
    {
      this.tags := tags;
      this.baggage := baggage;
    }

    /** `AddTag` appends; a key that is already present is not replaced. */
    method AddTag(key: string, value: string)
      modifies this
      ensures tags == old(tags) + [(key, value)]
      ensures baggage == old(baggage)
    {
      tags := tags + [(key, value)];
    }
  }

  /** `ShouldListenTo = _ => true`: every source is listened to. */
  function ShouldListenTo(source: ActivitySource): (listen: bool)
    ensures listen
  {
    true
  }

  /** The tags after adding `baggage` one entry at a time, in order. */
  function Promote(tags: seq<Entry>, baggage: seq<Entry>): (r: seq<Entry>)
    ensures |r| == |tags| + |baggage|
    decreases |baggage|
  {
    if baggage == [] then tags
    else Promote(tags, baggage[..|baggage| - 1]) + [baggage[|baggage| - 1]]
  }

  /** The `ActivityStopped` callback: a `foreach` over the baggage that calls
      `AddTag` with each key and value. The baggage itself is only read. */
  method OnActivityStopped(activity: Activity)
    modifies activity
    ensures activity.tags == Promote(old(activity.tags), old(activity.baggage))
    ensures activity.baggage == old(activity.baggage)
    ensures old(activity.baggage) == [] ==> activity.tags == old(activity.tags)
    ensures |activity.tags| == |old(activity.tags)| + |old(activity.baggage)|
  {
    var entries := activity.baggage;
    for i := 0 to |entries|
      invariant activity.tags == Promote(old(activity.tags), entries[..i])
      invariant activity.baggage == entries
    {
      var (key, value) := entries[i];
      assert entries[..i + 1][..i] == entries[..i];
      activity.AddTag(key, value);
    }
    assert entries[..|entries|] == entries;
  }

  /** Promotion appends the baggage to the tags, unchanged and in order. */
  lemma {:induction false} PromoteAppendsBaggage(tags: seq<Entry>, baggage: seq<Entry>)
    ensures Promote(tags, baggage) == tags + baggage
  {
    if baggage != [] {
      var n := |baggage| - 1;
      PromoteAppendsBaggage(tags, baggage[..n]);
      assert baggage[..n] + [baggage[n]] == baggage;
      assert tags + baggage[..n] + [baggage[n]] == tags + baggage;
    }
  }

  /** Promotion is additive: the tags that were there stay, in front, and the
      tag count grows by exactly the number of baggage entries. */
  lemma PromotionKeepsExistingTags(tags: seq<Entry>, baggage: seq<Entry>)
    ensures |Promote(tags, baggage)| == |tags| + |baggage|
    ensures Promote(tags, baggage)[..|tags|] == tags
  {
  }

  /** Each baggage entry becomes a tag with the same key and value. */
  lemma PromotedTagsAreVerbatim(tags: seq<Entry>, baggage: seq<Entry>)
    ensures forall i :: 0 <= i < |baggage| ==>
      |tags| + i < |Promote(tags, baggage)| && Promote(tags, baggage)[|tags| + i] == baggage[i]
    ensures forall key, value :: (key, value) in baggage ==> (key, value) in Promote(tags, baggage)
  {
    PromoteAppendsBaggage(tags, baggage);
    var r := Promote(tags, baggage);
    forall key, value | (key, value) in baggage
      ensures (key, value) in r
    {
      var i :| 0 <= i < |baggage| && baggage[i] == (key, value);
      assert r[|tags| + i] == (key, value);
    }
  }

  /** Promotion adds no tag that is not a baggage entry. */
  lemma PromotionAddsOnlyBaggage(tags: seq<Entry>, baggage: seq<Entry>)
    ensures forall e :: e in Promote(tags, baggage) ==> e in tags || e in baggage
  {
  }
}
