// Staging files and what a crash leaves of them.
module Staging {
  import opened Basics
  import Environment

  /** What a staging path holds. `stable` bytes have been synchronised since they were last written. */
  datatype Entry = Missing | Regular(content: Bytes, stable: nat) | Other {

    predicate Valid() {
      Regular? ==> stable <= |content|
    }

    function Truncated(length: nat): (e: Entry)
      requires Regular? && length <= |content|
    {
      Regular(content[..length], Min(stable, length))
    }

    function Appended(bytes: Bytes): (e: Entry)
      requires Regular?
    {
      Regular(content + bytes, stable)
    }

    function Synced(): (e: Entry)
      requires Regular?
    {
      Regular(content, |content|)
    }
  }

  const EMPTY := Regular([], 0)

  /**
   A crash keeps the stable bytes and nothing else: whatever follows them afterwards is arbitrary, so
   lost appends, torn writes and undone truncations are all allowed. A file with no stable byte may be
   gone altogether.
   */
  ghost predicate Survives(before: Entry, after: Entry) {
    match before
    case Missing => after.Missing?
    case Other => after.Other?
    case Regular(content, stable) =>
      || (after.Missing? && stable == 0)
      || (&& after.Regular?
          && stable <= |content|
          && stable <= after.stable <= |after.content|
          && after.content[..stable] == content[..stable])
  }

  /** The disk after a crash: anything it allows. */
  method Wreck(before: Entry) returns (after: Entry)
    requires before.Valid()
    ensures after.Valid() && Survives(before, after)
  {
    after := before;
    if before.Regular? {
      var gone := Environment.Choice();
      if gone && before.stable == 0 {
        after := Missing;
      } else {
        var tail: Bytes := *;
        after := Regular(before.content[..before.stable] + tail, before.stable);
      }
    }
  }

  method WreckAll(before: seq<Entry>) returns (after: seq<Entry>)
    requires forall t :: 0 <= t < |before| ==> before[t].Valid()
    ensures |after| == |before|
    ensures forall t :: 0 <= t < |before| ==> after[t].Valid() && Survives(before[t], after[t])
  {
    after := [];
    for t := 0 to |before|
      invariant |after| == t
      invariant forall k :: 0 <= k < t ==> after[k].Valid() && Survives(before[k], after[k])
    {
      var survivor := Wreck(before[t]);
      after := after + [survivor];
    }
  }
}
