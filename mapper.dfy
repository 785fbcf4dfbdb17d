/** `AlterDynamicProperty`: overlays an incoming map of dynamic properties
    onto the previously stored one, key by key. */
module Mapper {
  import opened Basics

  /** The reference meaning of the merge: previous keys, overwritten by
      the incoming entries where both have a key. */
  function Overlay<V>(prev: map<string, V>, incoming: map<string, V>): (r: map<string, V>)
    ensures r.Keys == prev.Keys + incoming.Keys
    ensures forall k :: k in incoming ==> r[k] == incoming[k]
    ensures forall k :: k in prev && k !in incoming ==> r[k] == prev[k]
  {
    prev + incoming
  }

  /** The previous value is the stored JSON already parsed: `None` when it
      does not parse or is JSON null (gabs' `Data()` is then nil), a map
      otherwise. The loop writes the incoming entries into the previous
      map one at a time, as the Go code does in place. */
  method AlterDynamicProperty<V>(prev: Option<map<string, V>>, incoming: map<string, V>)
    returns (r: map<string, V>)
    ensures prev.None? ==> r == incoming
    ensures prev.Some? ==> r == Overlay(prev.value, incoming)
    ensures prev == Some(map[]) ==> r == incoming
  {
    if prev.Some? {
      var prevDp := prev.value;
      var pending := incoming.Keys;
      while pending != {}
        invariant pending <= incoming.Keys
        invariant prevDp.Keys == prev.value.Keys + (incoming.Keys - pending)
        invariant forall k :: k in incoming && k !in pending ==> prevDp[k] == incoming[k]
        invariant forall k :: k in prev.value && (k !in incoming || k in pending) ==> prevDp[k] == prev.value[k]
        decreases pending
      {
        var key :| key in pending;
        prevDp := prevDp[key := incoming[key]];
        pending := pending - {key};
      }
      r := prevDp;
    } else {
      r := incoming;
    }
  }

  /** Merging nothing leaves the previous map as it was. */
  lemma OverlayEmpty<V>(prev: map<string, V>)
    ensures Overlay(prev, map[]) == prev
  {
  }

  /** Merging the same incoming map twice is the same as merging it once. */
  lemma OverlayIdempotent<V>(prev: map<string, V>, incoming: map<string, V>)
    ensures Overlay(Overlay(prev, incoming), incoming) == Overlay(prev, incoming)
  {
  }

  /** Merging onto an empty previous map gives the incoming map, as the
      branch for a missing previous value does. */
  lemma OverlayOntoEmpty<V>(incoming: map<string, V>)
    ensures Overlay(map[], incoming) == incoming
  {
  }

  /** Two successive merges are one merge of the overlaid incoming maps. */
  lemma OverlaySequential<V>(prev: map<string, V>, first: map<string, V>, second: map<string, V>)
    ensures Overlay(Overlay(prev, first), second) == Overlay(prev, Overlay(first, second))
  {
  }
}
