/** The sliding window against relay copies in onRelayData, internal/voip/call/callmanager_media.go. */
module DedupWindow {

  const WINDOW: nat := 512

  type Key = nat

  /** The key of a packet: source and sequence number side by side. */
  function KeyOf(ssrc: nat, sequence: nat): Key
    requires sequence < 0x1_0000
  {
    ssrc * 0x1_0000 + sequence
  }

  lemma KeysDistinct(a: nat, s: nat, b: nat, t: nat)
    requires s < 0x1_0000 && t < 0x1_0000
    ensures KeyOf(a, s) == KeyOf(b, t) <==> a == b && s == t
  {
  }

  /** The last 512 of a list, oldest first. */
  function Recent(admitted: seq<Key>): (r: seq<Key>)
    ensures |r| == if |admitted| < WINDOW then |admitted| else WINDOW
    ensures forall x :: x in r <==> exists i :: |admitted| - 512 <= i < |admitted| && 0 <= i && admitted[i] == x
  {
    if |admitted| <= WINDOW then admitted else admitted[|admitted| - WINDOW..]
  }

  function Elements(s: seq<Key>): set<Key> {
    set x | x in s
  }

  predicate Distinct(s: seq<Key>) {
    forall i, j :: 0 <= i < j < |s| ==> s[i] != s[j]
  }

  lemma RecentGrows(admitted: seq<Key>, x: Key)
    ensures |admitted| < WINDOW ==> Recent(admitted + [x]) == Recent(admitted) + [x]
    ensures |admitted| >= WINDOW ==> Recent(admitted + [x]) == Recent(admitted)[1..] + [x]
  {
  }

  /** Letting the oldest go and taking a new one. */
  lemma SlideElements(s: seq<Key>, x: Key)
    requires s != [] && Distinct(s) && x !in s
    ensures Elements(s[1..] + [x]) == Elements(s) - {s[0]} + {x} && Distinct(s[1..] + [x])
  {
  }

  lemma GrowElements(s: seq<Key>, x: Key)
    requires Distinct(s) && x !in s
    ensures Elements(s + [x]) == Elements(s) + {x} && Distinct(s + [x])
  {
  }

  /** Where in the ring the i-th of the recent keys lies. */
  function Slot(idx: nat, filled: bool, i: nat): (s: nat)
    requires i < WINDOW && idx < WINDOW
    ensures s < WINDOW
  {
    if !filled then i else if idx + i < WINDOW then idx + i else idx + i - WINDOW
  }

  /** The ring holds the recent keys, the oldest at the index once it is full. */
  ghost predicate RingHolds(ring: seq<Key>, idx: nat, filled: bool, admitted: seq<Key>) {
    && |ring| == WINDOW
    && idx < WINDOW
    && (filled <==> |admitted| >= WINDOW)
    && (!filled ==> idx == |admitted|)
    && forall i: nat :: i < |Recent(admitted)| ==> ring[Slot(idx, filled, i)] == Recent(admitted)[i]
  }

  ghost predicate MapHolds(seen: set<Key>, admitted: seq<Key>) {
    seen == Elements(Recent(admitted)) && Distinct(Recent(admitted))
  }

  lemma RingAdmits(ring: seq<Key>, idx: nat, filled: bool, admitted: seq<Key>, key: Key)
    requires RingHolds(ring, idx, filled, admitted)
    ensures RingHolds(ring[idx := key], if idx + 1 == WINDOW then 0 else idx + 1, filled || idx + 1 == WINDOW, admitted + [key])
  {
    var next, full := if idx + 1 == WINDOW then 0 else idx + 1, filled || idx + 1 == WINDOW;
    var r, old_ := Recent(admitted + [key]), Recent(admitted);
    RecentGrows(admitted, key);
    hide Recent;
    forall i: nat | i < |r| ensures ring[idx := key][Slot(next, full, i)] == r[i] {
      if filled {
        if i < WINDOW - 1 {
          assert r[i] == old_[i + 1] && ring[Slot(idx, filled, i + 1)] == old_[i + 1];
        }
      } else if i < |admitted| {
        assert ring[Slot(idx, filled, i)] == old_[i];
      }
    }
  }

  lemma MapAdmits(ring: seq<Key>, idx: nat, filled: bool, seen: set<Key>, admitted: seq<Key>, key: Key)
    requires RingHolds(ring, idx, filled, admitted) && MapHolds(seen, admitted) && key !in seen
    ensures MapHolds((if filled then seen - {ring[idx]} else seen) + {key}, admitted + [key])
  {
    var recent := Recent(admitted);
    RecentGrows(admitted, key);
    if filled {
      assert ring[Slot(idx, filled, 0)] == recent[0];
      SlideElements(recent, key);
    } else {
      GrowElements(recent, key);
    }
  }

  class Window {
    var seen: set<Key>
    const ring: array<Key>
    var idx: nat
    var filled: bool
    ghost var admitted: seq<Key> // since the last reset

    constructor ()
      ensures Valid() && admitted == [] && fresh(ring)
    {
      seen, idx, filled, admitted := {}, 0, false, [];
      ring := new Key[WINDOW](_ => 0);
    }

    ghost predicate Valid()
      reads this, ring
    {
      RingHolds(ring[..], idx, filled, admitted) && MapHolds(seen, admitted)
    }

    /** The check and, for a new key, its admission. */
    method Offer(key: Key) returns (dropped: bool)
      requires Valid()
      modifies this, ring
      ensures Valid()
      ensures dropped <==> exists i :: |old(admitted)| - 512 <= i < |old(admitted)| && 0 <= i && old(admitted)[i] == key
      ensures admitted == if dropped then old(admitted) else old(admitted) + [key]
    {
      SeenIsRecent(seen, admitted, key);
      if key in seen { return true; }
      RingAdmits(ring[..], idx, filled, admitted, key);
      MapAdmits(ring[..], idx, filled, seen, admitted, key);
      RingSize(ring[..], idx, filled, admitted);
      hide RingHolds, MapHolds, Recent;
      ghost var before := ring[..];
      if filled { seen := seen - {ring[idx]}; }
      ring[idx] := key;
      assert ring[..] == before[idx := key];
      seen := seen + {key};
      idx := idx + 1;
      if idx == WINDOW {
        idx := 0;
        filled := true;
      }
      admitted := admitted + [key];
      return false;
    }

    /** cleanupMedia */
    method Reset()
      requires ring.Length == WINDOW
      modifies this
      ensures Valid() && admitted == []
    {
      seen, idx, filled, admitted := {}, 0, false, [];
    }
  }

  lemma SeenIsRecent(seen: set<Key>, admitted: seq<Key>, key: Key)
    requires MapHolds(seen, admitted)
    ensures key in seen <==> key in Recent(admitted)
  {
  }

  lemma RingSize(ring: seq<Key>, idx: nat, filled: bool, admitted: seq<Key>)
    requires RingHolds(ring, idx, filled, admitted)
    ensures |ring| == WINDOW && idx < WINDOW
  {
  }

  /** What happens to the window over a call: packets reaching the check, and resets. */
  datatype Event = Packet(key: Key) | Reset

  /** The plain definition: the keys admitted since the last reset. */
  function Admitted(es: seq<Event>): seq<Key> {
    if es == [] then []
    else
      var before, ev := Admitted(es[..|es| - 1]), es[|es| - 1];
      if ev.Reset? then [] else if ev.key in Recent(before) then before else before + [ev.key]
  }

  /** Whether the i-th event is dropped as a copy. */
  predicate IsCopy(es: seq<Event>, i: nat)
    requires i < |es|
  {
    var admitted := Admitted(es[..i]);
    es[i].Packet? && exists j :: |admitted| - 512 <= j < |admitted| && 0 <= j && admitted[j] == es[i].key
  }

  /** Any run of packets and resets, handled by ring and map, drops exactly the copies. */
  method Run(es: seq<Event>) returns (dropped: seq<bool>)
    ensures |dropped| == |es| && forall i :: 0 <= i < |es| ==> dropped[i] == IsCopy(es, i)
  {
    hide RingHolds, MapHolds, Recent;
    var w := new Window();
    dropped := [];
    for i := 0 to |es|
      invariant w.Valid() && fresh(w) && fresh(w.ring) && w.admitted == Admitted(es[..i])
      invariant |dropped| == i && forall j :: 0 <= j < i ==> dropped[j] == IsCopy(es, j)
    {
      assert es[..i + 1][..i] == es[..i];
      RingSize(w.ring[..], w.idx, w.filled, w.admitted);
      if es[i].Reset? {
        w.Reset();
        dropped := dropped + [false];
      } else {
        var d := w.Offer(es[i].key);
        dropped := dropped + [d];
      }
    }
  }
}
