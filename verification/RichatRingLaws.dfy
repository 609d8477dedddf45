/** What a push and a clear of the richat ring evict and why, once more, in terms
    of the messages and their slots alone. */
module RichatRingLaws {
  import opened Base
  import opened Ring
  import opened RichatRing

  /** The indexed slots of which no message is in [lo, hi). */
  ghost function Spared<T>(v: State<T>, hi: nat): set<nat>
    requires v.cap <= v.head
  {
    set t | t in v.slots && forall i :: v.head - v.cap <= i < hi - v.cap && i < |v.log| ==> v.log[i].slot != t
  }

  lemma KeptMeans<T>(v: State<T>, hi: nat)
    requires v.cap <= v.head <= hi <= Tail(v.cap, v.log)
    ensures Kept(v.slots, v.cap, v.log, v.head, hi).Keys == Spared(v, hi)
  {
    forall t | t in v.slots ensures Unlost(v.cap, v.log, v.head, hi, t) <==> t in Spared(v, hi) {
      if Unlost(v.cap, v.log, v.head, hi, t) {
        forall i | v.head - v.cap <= i < hi - v.cap && i < |v.log| ensures v.log[i].slot != t {
          assert SlotAt(v.cap, v.log, i + v.cap) != t;
        }
      }
      if t in Spared(v, hi) {
        forall p | v.head <= p < hi && v.cap <= p < Tail(v.cap, v.log) ensures SlotAt(v.cap, v.log, p) != t {
          assert v.log[p - v.cap].slot != t;
        }
      }
    }
  }

  /** A push evicts the oldest message of a full ring and nothing else; a slot
      loses its index entry exactly if that message was its, and the pushed slot
      is entered at the new position unless it is there. */
  lemma AppendedShows<T>(v: State<T>, e: Entry<T>, t: nat)
    requires StateOk(v)
    ensures var v' := Appended(v, e);
      var full := v.cap + |v.log| - v.head == v.cap;
      var lost := full && v.log[v.head - v.cap].slot == t;
      && v'.cap == v.cap && v'.log == v.log + [e] && v'.head == v.head + (if full then 1 else 0)
      && (t in v'.slots <==> t == e.slot || (t in v.slots && !lost))
      && (t in v'.slots ==> v'.slots[t] == if t in v.slots && !lost then v.slots[t] else v.cap + |v.log|)
  {
    KeptMeans(v, if v.head == |v.log| then v.head + 1 else v.head);
  }

  /** The sizes of the messages from `i` on. */
  ghost function SizeSum<T>(log: seq<Entry<T>>, i: nat): nat
    requires i <= |log|
    decreases |log| - i
  {
    if i == |log| then 0 else log[i].size + SizeSum(log, i + 1)
  }

  lemma {:induction false} BytesAreSizes<T>(cap: nat, log: seq<Entry<T>>, p: nat)
    requires cap <= p <= Tail(cap, log)
    ensures Bytes(cap, log, p) == SizeSum(log, p - cap)
    decreases Tail(cap, log) - p
  {
    if p < Tail(cap, log) { BytesAreSizes(cap, log, p + 1); }
  }

  /** At position `h` too many slots are left; `s` is the least of them, and
      message `i` is before its first message or in the run that starts there. */
  ghost predicate InLeastRun<T>(v: State<T>, slotsMax: nat, h: nat, s: nat, i: nat)
    requires v.cap <= v.head
  {
    && v.head <= h <= i + v.cap && |Spared(v, h)| > slotsMax
    && s in Spared(v, h) && (forall t :: t in Spared(v, h) ==> s <= t)
    && s in v.slots && v.cap <= v.slots[s]
    && (i < v.slots[s] - v.cap
        || (i < |v.log| && forall j :: v.slots[s] - v.cap <= j <= i ==> v.log[j].slot == s))
  }

  lemma RunShows<T>(cap: nat, log: seq<Entry<T>>, p: nat, s: nat, i: nat)
    requires AtSlot(cap, log, s, p) && i + cap < RunEnd(cap, log, p, s)
    ensures i < p - cap || (i < |log| && forall j :: p - cap <= j <= i ==> log[j].slot == s)
  {
    forall j | p - cap <= j <= i ensures log[j].slot == s { assert SlotAt(cap, log, j + cap) == s; }
  }

  lemma {:induction false} SlotEvictions<T>(v: State<T>, h: nat, slotsMax: nat, i: nat) returns (k: nat, s: nat)
    requires StateOk(v) && v.head <= h <= Tail(v.cap, v.log)
    requires SlotsHead(v.slots, v.cap, v.log, v.head, h, slotsMax).Some?
    requires h <= i + v.cap < SlotsHead(v.slots, v.cap, v.log, v.head, h, slotsMax).value
    ensures InLeastRun(v, slotsMax, k, s, i)
    decreases Tail(v.cap, v.log) - h
  {
    KeptMeans(v, h);
    var q;
    s, q := NextClear(v.slots, v.cap, v.log, v.head, h, slotsMax);
    if i + v.cap < q {
      k := h;
      RunShows(v.cap, v.log, v.slots[s], s, i);
    } else {
      k, s := SlotEvictions(v, q, slotsMax, i);
    }
  }

  /** Clearing evicts a message only if those from it on are too large together, or
      if too many slots are left and it has to go with the least of them. */
  lemma ClearEvicts<T>(v: State<T>, bytesMax: nat, slotsMax: nat, i: nat)
    requires StateOk(v) && Cleared(v, bytesMax, slotsMax).Some?
    requires v.head <= i + v.cap < Cleared(v, bytesMax, slotsMax).value.head
    ensures i < |v.log|
    ensures SizeSum(v.log, i) > bytesMax || exists k, s :: InLeastRun(v, slotsMax, k, s, i)
  {
    var fit := FitFrom(v.cap, v.log, v.head, bytesMax);
    BytesAreSizes(v.cap, v.log, i + v.cap);
    if fit <= i + v.cap { var k, s := SlotEvictions(v, fit, slotsMax, i); }
  }

  /** Afterwards exactly the slots that lost a message are indexed no more, … */
  lemma ClearedShows<T>(v: State<T>, bytesMax: nat, slotsMax: nat)
    requires StateOk(v) && Cleared(v, bytesMax, slotsMax).Some?
    ensures var v' := Cleared(v, bytesMax, slotsMax).value;
      && v'.cap == v.cap && v'.log == v.log && v.head <= v'.head <= v.cap + |v.log|
      && v'.slots.Keys == Spared(v, v'.head) && (forall t :: t in v'.slots ==> v'.slots[t] == v.slots[t])
  {
    KeptMeans(v, Cleared(v, bytesMax, slotsMax).value.head);
  }

  /** … and both limits are met. */
  lemma ClearedFits<T>(v: State<T>, bytesMax: nat, slotsMax: nat)
    requires StateOk(v) && Cleared(v, bytesMax, slotsMax).Some?
    ensures var v' := Cleared(v, bytesMax, slotsMax).value;
      |v'.slots| <= slotsMax && SizeSum(v.log, v'.head - v.cap) <= bytesMax
  {
    var fit := FitFrom(v.cap, v.log, v.head, bytesMax);
    var head := Cleared(v, bytesMax, slotsMax).value.head;
    BytesShrink(v.cap, v.log, fit, head);
    BytesAreSizes(v.cap, v.log, head);
  }

  /** Nothing is evicted that fits. */
  lemma ClearEvictsNothing<T>(v: State<T>, bytesMax: nat, slotsMax: nat)
    requires StateOk(v) && |v.slots| <= slotsMax && SizeSum(v.log, v.head - v.cap) <= bytesMax
    ensures Cleared(v, bytesMax, slotsMax) == Some(v)
  {
    BytesAreSizes(v.cap, v.log, v.head);
    KeptMeans(v, v.head);
    assert Kept(v.slots, v.cap, v.log, v.head, v.head) == v.slots;
  }
}
