/**
 * The board's GPIO chip registry: chips cover disjoint ranges of GPIO
 * numbers and are kept in a list sorted by their first GPIO, and a bucket
 * array indexed by `gpio >> 5` points at the first chip touching each group
 * of 32 GPIOs, so that a lookup can start its walk of the list there.
 */
module GpioRegistry {
  import opened Words

  const ENOMEM: int := -12
  const EBUSY: int := -16
  const ENOTSUPP: int := -524

  /**
   * A registered chip: its GPIO range and which of the optional callbacks
   * it provides.
   */
  datatype Chip = Chip(start: nat, end: nat, configure: bool, readDetectStatus: bool, clearDetectStatus: bool)

  /** `GPIO_NUM_TO_CHIP_INDEX`: the bucket of a GPIO number. */
  function BucketOf(gpio: nat): (b: nat)
    ensures 32 * b <= gpio < 32 * (b + 1)
  {
    gpio / 32
  }

  predicate Contains(c: Chip, gpio: nat)
  {
    c.start <= gpio <= c.end
  }

  /** The chip's range reaches into bucket `b`. */
  predicate Touches(c: Chip, b: nat)
  {
    BucketOf(c.start) <= b <= BucketOf(c.end)
  }

  /**
   * Every chip's range is non-empty and ends before the next chip in the list
   * starts: the list is sorted by start and the ranges are disjoint.
   */
  predicate Ordered(chips: seq<Chip>)
  {
    && (forall i :: 0 <= i < |chips| ==> chips[i].start <= chips[i].end)
    && (forall i, j :: 0 <= i < j < |chips| ==> chips[i].end < chips[j].start)
  }

  lemma OrderedTail(chips: seq<Chip>)
    requires Ordered(chips) && chips != []
    ensures Ordered(chips[1..])
  {
    assert forall i :: 0 <= i < |chips| - 1 ==> chips[1..][i] == chips[i + 1];
  }

  /** The first chip in the list whose range contains `gpio`. */
  function Find(chips: seq<Chip>, gpio: nat): (r: Option<Chip>)
    ensures r.Some? ==> r.value in chips && Contains(r.value, gpio)
    ensures r.None? <==> forall i :: 0 <= i < |chips| ==> !Contains(chips[i], gpio)
  {
    if chips == [] then None
    else if Contains(chips[0], gpio) then Some(chips[0])
    else Find(chips[1..], gpio)
  }

  /** In an ordered list the chip containing a GPIO is the only one, so it is what Find returns. */
  lemma {:induction false} FindUnique(chips: seq<Chip>, k: nat, gpio: nat)
    requires Ordered(chips) && k < |chips| && Contains(chips[k], gpio)
    ensures Find(chips, gpio) == Some(chips[k])
    decreases k
  {
    if k > 0 {
      assert chips[0].end < chips[k].start;
      assert chips[1..][k - 1] == chips[k];
      OrderedTail(chips);
      FindUnique(chips[1..], k - 1, gpio);
    }
  }

  /** The first chip in the list touching bucket `b`: what `gpio_chip_array[b]` points at. */
  function FirstIn(chips: seq<Chip>, b: nat): (r: Option<Chip>)
    ensures r.Some? ==> r.value in chips && Touches(r.value, b)
    ensures r.None? <==> forall i :: 0 <= i < |chips| ==> !Touches(chips[i], b)
  {
    if chips == [] then None
    else if Touches(chips[0], b) then Some(chips[0])
    else FirstIn(chips[1..], b)
  }

  /** No chip in front of the one a bucket points at touches the bucket. */
  lemma {:induction false} FirstInNoneBefore(chips: seq<Chip>, b: nat, k: nat)
    requires Ordered(chips) && k < |chips| && FirstIn(chips, b) == Some(chips[k])
    ensures forall i :: 0 <= i < k ==> !Touches(chips[i], b)
    decreases k
  {
    if k > 0 {
      var t := chips[1..];
      assert chips[0].end < chips[k].start;
      assert t[k - 1] == chips[k];
      OrderedTail(chips);
      FirstInNoneBefore(t, b, k - 1);
      forall i | 0 < i < k ensures !Touches(chips[i], b) {
        assert t[i - 1] == chips[i];
      }
    }
  }

  /** Buckets follow the order of GPIO numbers. */
  lemma BucketMonotone(x: nat, y: nat)
    requires x <= y
    ensures BucketOf(x) <= BucketOf(y)
  {
  }

  /**
   * A bucket points at the touching chip with the lowest start, and every
   * chip before it in the list ends in an earlier bucket.
   */
  lemma FirstInIsLowest(chips: seq<Chip>, b: nat, k: nat)
    requires Ordered(chips) && k < |chips| && FirstIn(chips, b) == Some(chips[k])
    ensures forall i :: 0 <= i < |chips| && Touches(chips[i], b) ==> chips[k].start <= chips[i].start
    ensures forall i :: 0 <= i < k ==> BucketOf(chips[i].end) < b
  {
    FirstInNoneBefore(chips, b, k);
    forall i | 0 <= i < |chips| && Touches(chips[i], b) ensures chips[k].start <= chips[i].start {
      if i > k {
        assert chips[k].end < chips[i].start;
      }
    }
    forall i | 0 <= i < k ensures BucketOf(chips[i].end) < b {
      assert chips[i].end < chips[k].start;
      BucketMonotone(chips[i].start, chips[k].start);
    }
  }

  /** A chip containing a GPIO touches its bucket. */
  lemma ContainsTouches(c: Chip, gpio: nat)
    requires Contains(c, gpio)
    ensures Touches(c, BucketOf(gpio))
  {
    BucketMonotone(c.start, gpio);
    BucketMonotone(gpio, c.end);
  }

  /** No chip contains a GPIO when none touches its bucket. */
  lemma FindNoneOutside(chips: seq<Chip>, gpio: nat)
    requires forall i :: 0 <= i < |chips| ==> !Touches(chips[i], BucketOf(gpio))
    ensures Find(chips, gpio) == None
  {
    forall i | 0 <= i < |chips| ensures !Contains(chips[i], gpio) {
      if Contains(chips[i], gpio) {
        ContainsTouches(chips[i], gpio);
      }
    }
  }

  /** Every chip in front of the one a GPIO's bucket points at ends below the GPIO. */
  lemma LookupStart(chips: seq<Chip>, gpio: nat, k: nat)
    requires Ordered(chips) && k < |chips| && FirstIn(chips, BucketOf(gpio)) == Some(chips[k])
    ensures forall m :: 0 <= m < k ==> chips[m].end < gpio
  {
    FirstInIsLowest(chips, BucketOf(gpio), k);
    forall m | 0 <= m < k ensures chips[m].end < gpio {
      BucketBelow(chips[m].end, gpio);
    }
  }

  /** No chip contains a GPIO that lies after every chip before `j` and before chip `j`. */
  lemma FindNoneBetween(chips: seq<Chip>, j: nat, gpio: nat)
    requires Ordered(chips) && j < |chips| && gpio < chips[j].start
    requires forall m :: 0 <= m < j ==> chips[m].end < gpio
    ensures Find(chips, gpio) == None
  {
    forall m | j < m < |chips| ensures gpio < chips[m].start {
      assert chips[j].end < chips[m].start;
    }
  }

  /** The new chip's range meets a registered one. */
  predicate Overlaps(chips: seq<Chip>, c: Chip)
  {
    exists i :: 0 <= i < |chips| && chips[i].start <= c.end && c.start <= chips[i].end
  }

  lemma OverlapsTail(chips: seq<Chip>, c: Chip)
    requires chips != [] && !Overlaps(chips, c)
    ensures !Overlaps(chips[1..], c)
  {
    forall i | 0 <= i < |chips| - 1
      ensures !(chips[1..][i].start <= c.end && c.start <= chips[1..][i].end)
    {
      assert chips[1..][i] == chips[i + 1];
    }
  }

  /** The list after `register_gpio_chip` adds `c` in front of the first chip that starts after it. */
  function SortedInsert(chips: seq<Chip>, c: Chip): (r: seq<Chip>)
    ensures |r| == |chips| + 1
  {
    if chips == [] then [c]
    else if chips[0].start > c.end then [c] + chips
    else [chips[0]] + SortedInsert(chips[1..], c)
  }

  /** The insert adds the chip and loses none: the new list is a permutation of the old one plus `c`. */
  lemma {:induction false} SortedInsertAdds(chips: seq<Chip>, c: Chip)
    ensures multiset(SortedInsert(chips, c)) == multiset(chips) + multiset{c}
  {
    if chips != [] && chips[0].start <= c.end {
      SortedInsertAdds(chips[1..], c);
      assert chips == [chips[0]] + chips[1..];
    }
  }

  /** A bound below every chip's start and the new chip's start stays below every start after an insert. */
  lemma InsertStartsAbove(chips: seq<Chip>, c: Chip, lo: int)
    requires forall i :: 0 <= i < |chips| ==> lo < chips[i].start
    requires lo < c.start
    ensures forall i :: 0 <= i < |SortedInsert(chips, c)| ==> lo < SortedInsert(chips, c)[i].start
  {
    var r := SortedInsert(chips, c);
    SortedInsertAdds(chips, c);
    forall i | 0 <= i < |r| ensures lo < r[i].start {
      assert r[i] in multiset(r);
      if r[i] != c {
        assert r[i] in multiset(chips);
        var j :| 0 <= j < |chips| && chips[j] == r[i];
      }
    }
  }

  /** A chip ending before every chip of an ordered list can go in front of it. */
  lemma OrderedPrepend(c: Chip, chips: seq<Chip>)
    requires Ordered(chips) && c.start <= c.end
    requires forall i :: 0 <= i < |chips| ==> c.end < chips[i].start
    ensures Ordered([c] + chips)
  {
    var r := [c] + chips;
    assert forall j :: 0 < j < |r| ==> r[j] == chips[j - 1];
  }

  /** Adding a chip that overlaps none keeps the list ordered. */
  lemma {:induction false} SortedInsertOrdered(chips: seq<Chip>, c: Chip)
    requires Ordered(chips) && c.start <= c.end && !Overlaps(chips, c)
    ensures Ordered(SortedInsert(chips, c))
  {
    if chips == [] {
    } else if chips[0].start > c.end {
      forall i | 0 <= i < |chips| ensures c.end < chips[i].start {
        if i > 0 {
          assert chips[0].end < chips[i].start;
        }
      }
      OrderedPrepend(c, chips);
    } else {
      var t := chips[1..];
      assert chips[0].end < c.start;
      OrderedTail(chips);
      OverlapsTail(chips, c);
      SortedInsertOrdered(t, c);
      forall i | 0 <= i < |t| ensures chips[0].end < t[i].start {
        assert t[i] == chips[i + 1];
      }
      InsertStartsAbove(t, c, chips[0].end);
      OrderedPrepend(chips[0], SortedInsert(t, c));
    }
  }

  /** What the bucket loop of `register_gpio_chip` leaves in a touched bucket that held `cur`. */
  function PointAt(cur: Option<Chip>, c: Chip): (r: Option<Chip>)
    ensures r == cur || r == Some(c)
  {
    if cur.None? || cur.value.start > c.start then Some(c) else cur
  }

  /** Only the buckets the new chip touches change, and each to the new chip exactly when it starts lower. */
  lemma {:induction false} FirstInAfterInsert(chips: seq<Chip>, c: Chip, b: nat)
    requires Ordered(chips) && c.start <= c.end && !Overlaps(chips, c)
    ensures FirstIn(SortedInsert(chips, c), b) ==
      if Touches(c, b) then PointAt(FirstIn(chips, b), c) else FirstIn(chips, b)
  {
    if chips == [] {
    } else if chips[0].start > c.end {
      if !Touches(c, b) {
        assert SortedInsert(chips, c)[1..] == chips;
      } else if FirstIn(chips, b).Some? {
        var f := FirstIn(chips, b).value;
        var i :| 0 <= i < |chips| && chips[i] == f;
        if i > 0 {
          assert chips[0].end < chips[i].start;
        }
      }
    } else {
      assert c.start > chips[0].end;
      OrderedTail(chips);
      OverlapsTail(chips, c);
      FirstInAfterInsert(chips[1..], c, b);
    }
  }

  /** A chip starting no later than the new one ends stays in front of it. */
  lemma InsertBehind(chips: seq<Chip>, c: Chip)
    requires chips != [] && chips[0].start <= c.end
    ensures SortedInsert(chips, c) == [chips[0]] + SortedInsert(chips[1..], c)
  {
  }

  /** The walk of `register_gpio_chip` stopped at `pos`: the chip goes in there. */
  lemma {:induction false} InsertAtStop(chips: seq<Chip>, c: Chip, pos: nat)
    requires pos <= |chips| && (pos < |chips| ==> chips[pos].start > c.end)
    requires forall m :: 0 <= m < pos ==> chips[m].start <= c.end
    ensures SortedInsert(chips, c) == chips[..pos] + [c] + chips[pos..]
    decreases pos
  {
    if pos > 0 {
      var t := chips[1..];
      forall m | 0 <= m < pos - 1 ensures t[m].start <= c.end {
        assert t[m] == chips[m + 1];
      }
      assert pos - 1 < |t| ==> t[pos - 1] == chips[pos];
      InsertAtStop(t, c, pos - 1);
      assert chips[..pos] == [chips[0]] + t[..pos - 1];
      assert chips[pos..] == t[pos - 1..];
    }
  }

  /**
   * Buckets that pointed at the first chip touching them still do after the
   * insert once every bucket the new chip touches went through PointAt.
   */
  lemma BucketsAfterInsert(before: seq<Chip>, c: Chip, prev: seq<Option<Chip>>, now: seq<Option<Chip>>)
    requires Ordered(before) && c.start <= c.end && !Overlaps(before, c)
    requires |now| == |prev| && forall b :: 0 <= b < |prev| ==> prev[b] == FirstIn(before, b)
    requires forall b :: 0 <= b < |now| ==>
      now[b] == if BucketOf(c.start) <= b <= BucketOf(c.end) then PointAt(prev[b], c) else prev[b]
    ensures forall b :: 0 <= b < |now| ==> now[b] == FirstIn(SortedInsert(before, c), b)
  {
    forall b | 0 <= b < |now| ensures now[b] == FirstIn(SortedInsert(before, c), b) {
      FirstInAfterInsert(before, c, b);
    }
  }

  /** A GPIO whose bucket is lower is lower. */
  lemma BucketBelow(x: nat, gpio: nat)
    requires BucketOf(x) < BucketOf(gpio)
    ensures x < gpio
  {
  }

  /** Every chip of the list after an insert still ends inside a bucket array of `n` entries. */
  lemma InsertEndsFit(chips: seq<Chip>, c: Chip, n: nat)
    requires forall i :: 0 <= i < |chips| ==> BucketOf(chips[i].end) < n
    requires BucketOf(c.end) < n
    ensures forall i :: 0 <= i < |SortedInsert(chips, c)| ==> BucketOf(SortedInsert(chips, c)[i].end) < n
  {
    var r := SortedInsert(chips, c);
    SortedInsertAdds(chips, c);
    forall i | 0 <= i < |r| ensures BucketOf(r[i].end) < n {
      assert r[i] in multiset(r);
      if r[i] != c {
        assert r[i] in multiset(chips);
        var j :| 0 <= j < |chips| && chips[j] == r[i];
      }
    }
  }

  /**
   * `gpio_chip_list`, `gpio_chip_array` and `gpio_chip_array_size` (the
   * array's length). Every chip ends in a bucket the array has, and every
   * bucket points at the first chip touching it.
   */
  class Registry {
    var chips: seq<Chip>
    var buckets: array<Option<Chip>>

    predicate Valid()
      reads this, buckets
    {
      && Ordered(chips)
      && (forall i :: 0 <= i < |chips| ==> BucketOf(chips[i].end) < buckets.Length)
      && (forall b :: 0 <= b < buckets.Length ==> buckets[b] == FirstIn(chips, b))
    }

    /** No chip and no bucket array. */
    constructor ()
      ensures Valid() && chips == [] && buckets.Length == 0
    {
      chips := [];
      buckets := new Option<Chip>[0];
    }

    /**
     * `get_gpio_chip_locked`: start at the chip of the GPIO's bucket and walk
     * the list until a chip contains it or starts after it.
     */
    method Lookup(gpio: nat) returns (r: Option<Chip>)
      requires Valid()
      ensures r == Find(chips, gpio)
    {
      var b := BucketOf(gpio);
      if b >= buckets.Length {
        FindNoneOutside(chips, gpio);
        return None;
      }
      var first := buckets[b];
      if first.None? {
        FindNoneOutside(chips, gpio);
        return None;
      }
      // the list position of the chip the bucket points at
      var k :| 0 <= k < |chips| && chips[k] == first.value;
      LookupStart(chips, gpio, k);

      var j := k;
      while j < |chips|
        invariant k <= j <= |chips|
        invariant forall m :: 0 <= m < j ==> chips[m].end < gpio
      {
        if gpio < chips[j].start {
          FindNoneBetween(chips, j, gpio);
          return None;
        }
        if gpio <= chips[j].end {
          FindUnique(chips, j, gpio);
          return Some(chips[j]);
        }
        j := j + 1;
      }
      return None;
    }

    /** Write a copy of the buckets grown to `size` entries, the new ones empty. */
    method Grow(size: nat) returns (grown: array<Option<Chip>>)
      requires buckets.Length <= size
      ensures fresh(grown) && grown.Length == size
      ensures grown[..buckets.Length] == buckets[..]
      ensures forall i :: buckets.Length <= i < size ==> grown[i] == None
    {
      grown := new Option<Chip>[size];
      var i := 0;
      while i < buckets.Length
        invariant 0 <= i <= buckets.Length
        invariant forall m :: 0 <= m < i ==> grown[m] == buckets[m]
      {
        grown[i] := buckets[i];
        i := i + 1;
      }
      while i < size
        invariant buckets.Length <= i <= size
        invariant forall m :: 0 <= m < buckets.Length ==> grown[m] == buckets[m]
        invariant forall m :: buckets.Length <= m < i ==> grown[m] == None
      {
        grown[i] := None;
        i := i + 1;
      }
    }

    /**
     * The first step of `register_gpio_chip` under the lock: make the bucket
     * array reach bucket `last`, growing it to `last + 1` entries unless the
     * allocation fails (`allocFails`).
     */
    method Reserve(last: nat, allocFails: bool) returns (ok: bool)
      requires Valid()
      modifies this
      ensures Valid() && chips == old(chips)
      ensures ok <==> !(last >= old(buckets.Length) && allocFails)
      ensures !ok ==> buckets == old(buckets)
      ensures ok ==> buckets.Length == (if last >= old(buckets.Length) then last + 1 else old(buckets.Length))
      ensures buckets == old(buckets) || fresh(buckets)
      ensures buckets[..old(buckets.Length)] == old(buckets[..])
      ensures forall b :: old(buckets.Length) <= b < buckets.Length ==> buckets[b] == None
    {
      if last < buckets.Length {
        return true;
      }
      if allocFails {
        return false;
      }
      var grown := Grow(last + 1);
      forall b | buckets.Length <= b < grown.Length ensures FirstIn(chips, b) == None {
        assert forall i :: 0 <= i < |chips| ==> !Touches(chips[i], b);
      }
      buckets := grown;
      return true;
    }

    /**
     * `register_gpio_chip`. `stateAllocFails` and `arrayAllocFails` are the
     * outcomes of the two allocations. The bucket array is grown before the
     * overlap check, so a refused chip can leave it longer, with the new
     * buckets empty.
     */
    method Register(c: Chip, stateAllocFails: bool, arrayAllocFails: bool) returns (rc: int)
      requires Valid() && c.start <= c.end
      modifies this, buckets
      ensures Valid()
      ensures rc == 0 || rc == ENOMEM || rc == EBUSY
      // allocation failures change nothing
      ensures rc == ENOMEM <==> stateAllocFails || (BucketOf(c.end) >= old(buckets.Length) && arrayAllocFails)
      ensures rc == ENOMEM ==> chips == old(chips) && buckets == old(buckets) && buckets[..] == old(buckets[..])
      // otherwise the chip is refused exactly when it overlaps a registered one
      ensures rc != ENOMEM ==> (rc == EBUSY <==> Overlaps(old(chips), c))
      ensures rc != ENOMEM ==>
        buckets.Length == (if BucketOf(c.end) >= old(buckets.Length) then BucketOf(c.end) + 1 else old(buckets.Length))
      ensures rc == EBUSY ==>
        chips == old(chips) && buckets[..old(buckets.Length)] == old(buckets[..])
        && forall b :: old(buckets.Length) <= b < buckets.Length ==> buckets[b] == None
      ensures rc == 0 ==> chips == SortedInsert(old(chips), c)
    {
      if stateAllocFails {
        return ENOMEM;
      }
      var reserved := Reserve(BucketOf(c.end), arrayAllocFails);
      if !reserved {
        return ENOMEM;
      }
      var pos, busy := InsertPosition(c);
      if busy {
        return EBUSY;
      }
      ghost var before := chips;
      chips := chips[..pos] + [c] + chips[pos..];
      SortedInsertOrdered(before, c);
      InsertEndsFit(before, c, buckets.Length);
      ghost var prev := buckets[..];
      PointBuckets(c);
      BucketsAfterInsert(before, c, prev, buckets[..]);
      return 0;
    }

    /**
     * The list walk of `register_gpio_chip`: the position of the first chip
     * starting after the new one, or `busy` when a chip met on the way
     * overlaps it.
     */
    method InsertPosition(c: Chip) returns (pos: nat, busy: bool)
      requires Ordered(chips) && c.start <= c.end
      ensures busy <==> Overlaps(chips, c)
      ensures !busy ==> pos <= |chips| && SortedInsert(chips, c) == chips[..pos] + [c] + chips[pos..]
    {
      pos := 0;
      while pos < |chips| && chips[pos].start <= c.end
        invariant 0 <= pos <= |chips|
        invariant forall m :: 0 <= m < pos ==> chips[m].end < c.start && chips[m].start <= c.end
      {
        if chips[pos].end >= c.start {
          return pos, true;
        }
        pos := pos + 1;
      }
      forall i | pos < i < |chips| ensures c.end < chips[i].start {
        assert chips[pos].end < chips[i].start;
      }
      InsertAtStop(chips, c, pos);
      return pos, false;
    }

    /**
     * The bucket loop of `register_gpio_chip`: every bucket the new chip
     * touches points at it unless it holds a chip starting lower; the other
     * buckets keep what they hold.
     */
    method PointBuckets(c: Chip)
      requires c.start <= c.end && BucketOf(c.end) < buckets.Length
      modifies buckets
      ensures forall b :: 0 <= b < buckets.Length ==>
        buckets[b] == if BucketOf(c.start) <= b <= BucketOf(c.end) then PointAt(old(buckets[b]), c) else old(buckets[b])
    {
      var i := BucketOf(c.start);
      while i <= BucketOf(c.end)
        invariant BucketOf(c.start) <= i <= BucketOf(c.end) + 1
        invariant forall b :: 0 <= b < buckets.Length ==>
          buckets[b] == if BucketOf(c.start) <= b < i then PointAt(old(buckets[b]), c) else old(buckets[b])
      {
        if buckets[i].None? || buckets[i].value.start > c.start {
          buckets[i] := Some(c);
        }
        i := i + 1;
      }
    }

    /** `gpio_configure`: the chip's callback answers `callbackRc`. */
    method Configure(gpio: nat, callbackRc: int) returns (rc: int)
      requires Valid()
      ensures var r := Find(chips, gpio);
        rc == if r.Some? && r.value.configure then callbackRc else ENOTSUPP
    {
      var chip := Lookup(gpio);
      if chip.Some? && chip.value.configure {
        return callbackRc;
      }
      return ENOTSUPP;
    }

    /** `gpio_read_detect_status`. */
    method ReadDetectStatus(gpio: nat, callbackRc: int) returns (rc: int)
      requires Valid()
      ensures var r := Find(chips, gpio);
        rc == if r.Some? && r.value.readDetectStatus then callbackRc else ENOTSUPP
    {
      var chip := Lookup(gpio);
      if chip.Some? && chip.value.readDetectStatus {
        return callbackRc;
      }
      return ENOTSUPP;
    }

    /** `gpio_clear_detect_status`. */
    method ClearDetectStatus(gpio: nat, callbackRc: int) returns (rc: int)
      requires Valid()
      ensures var r := Find(chips, gpio);
        rc == if r.Some? && r.value.clearDetectStatus then callbackRc else ENOTSUPP
    {
      var chip := Lookup(gpio);
      if chip.Some? && chip.value.clearDetectStatus {
        return callbackRc;
      }
      return ENOTSUPP;
    }
  }
}
