/**
 The fixed-capacity circular buffers behind the trend indicator
 (autotrader.cc:59-73 and updateCircularBufferWithNewValue at autotrader.cc:112-127).

 A ring holds its slots, the next write position and the number of slots written
 so far. The running sum is kept OUTSIDE the ring, because the source lets two
 rings share one accumulator (the lagging span writes into the leading-span-B sum).
 */
module CircularBuffer {

  /** Slots, next write position, number of slots written (saturating at capacity). */
  datatype Ring = Ring(slots: seq<int>, index: nat, count: nat)

  /** A ring after a push, with the accumulator it was pushed against. */
  datatype Pushed = Pushed(ring: Ring, sum: int)

  function Min(a: int, b: int): int
  {
    if a <= b then a else b
  }

  /** Sum of a sequence, peeling the last element. */
  function Total(s: seq<int>): int
  {
    if |s| == 0 then 0 else Total(s[..|s| - 1]) + s[|s| - 1]
  }

  /** The shape every ring keeps: the write position is in range, while the ring is
      filling it points just past the written slots, and unwritten slots are zero. */
  predicate Valid(r: Ring)
  {
    && 0 < |r.slots|
    && r.index < |r.slots|
    && r.count <= |r.slots|
    && (r.count < |r.slots| ==> r.index == r.count)
    && forall i :: r.count <= i < |r.slots| ==> r.slots[i] == 0
  }

  /** A zero-initialised ring, as `std::vector<unsigned long>(n)` builds it. */
  function Empty(capacity: nat): (r: Ring)
    requires capacity > 0
    ensures Valid(r) && r.count == 0 && |r.slots| == capacity
    ensures Total(r.slots) == 0
  {
    var zeros := Zeros(capacity);
    TotalOfZeros(zeros);
    Ring(zeros, 0, 0)
  }

  function Zeros(n: nat): (s: seq<int>)
    ensures |s| == n && forall i :: 0 <= i < n ==> s[i] == 0
  {
    if n == 0 then [] else Zeros(n - 1) + [0]
  }

  /** One push (updateCircularBufferWithNewValue): overwrite the slot under the
      cursor, move the evicted value out of the accumulator and the new value in,
      and advance the cursor modulo the capacity. */
  function Push(r: Ring, sum: int, v: int): (p: Pushed)
    requires r.index < |r.slots|
    ensures |p.ring.slots| == |r.slots|
    ensures p.ring.index < |p.ring.slots|
    ensures p.ring.count >= 1
    ensures r.count <= |r.slots| ==> p.ring.count == Min(r.count + 1, |r.slots|)
    ensures p.ring.slots[r.index] == v
    ensures forall i :: 0 <= i < |r.slots| && i != r.index ==> p.ring.slots[i] == r.slots[i]
    ensures Valid(r) ==> Valid(p.ring)
    ensures Valid(r) ==> p.sum - Total(p.ring.slots) == sum - Total(r.slots)
  {
    var n := |r.slots|;
    TotalUpdate(r.slots, r.index, v);
    NextSlot(r.index, n);
    if r.count < n then
      Pushed(Ring(r.slots[r.index := v], (r.index + 1) % n, r.count + 1), sum + v)
    else
      Pushed(Ring(r.slots[r.index := v], (r.index + 1) % n, r.count), sum - r.slots[r.index] + v)
  }

  /** Pushes every value of `h`, oldest first. */
  function PushAll(r: Ring, sum: int, h: seq<int>): (p: Pushed)
    requires r.index < |r.slots|
    ensures |p.ring.slots| == |r.slots|
    ensures p.ring.index < |p.ring.slots|
    decreases |h|
  {
    if |h| == 0 then Pushed(r, sum)
    else
      var q := PushAll(r, sum, h[..|h| - 1]);
      Push(q.ring, q.sum, h[|h| - 1])
  }

  /** The running mean a push reports (`sum / count`, with count >= 1 after a push). */
  function Mean(p: Pushed): int
    requires p.ring.count > 0
  {
    p.sum / p.ring.count
  }

  lemma {:induction false} TotalOfZeros(s: seq<int>)
    requires forall i :: 0 <= i < |s| ==> s[i] == 0
    ensures Total(s) == 0
    decreases |s|
  {
    if |s| > 0 {
      TotalOfZeros(s[..|s| - 1]);
    }
  }

  lemma {:induction false} TotalAppend(s: seq<int>, t: seq<int>)
    ensures Total(s + t) == Total(s) + Total(t)
    decreases |t|
  {
    if |t| == 0 {
      assert s + t == s;
    } else {
      assert (s + t)[..|s + t| - 1] == s + t[..|t| - 1];
      TotalAppend(s, t[..|t| - 1]);
    }
  }

  /** Overwriting one slot changes the total by the difference. */
  lemma {:induction false} TotalUpdate(s: seq<int>, i: nat, v: int)
    requires i < |s|
    ensures Total(s[i := v]) == Total(s) - s[i] + v
  {
    assert s == s[..i] + [s[i]] + s[i + 1..];
    assert s[i := v] == s[..i] + [v] + s[i + 1..];
    TotalAppend(s[..i] + [s[i]], s[i + 1..]);
    TotalAppend(s[..i], [s[i]]);
    TotalAppend(s[..i] + [v], s[i + 1..]);
    TotalAppend(s[..i], [v]);
  }

  /** Dropping the first element of a non-empty sequence. */
  lemma TotalDropFirst(s: seq<int>)
    requires |s| > 0
    ensures Total(s) == s[0] + Total(s[1..])
  {
    assert s == [s[0]] + s[1..];
    TotalAppend([s[0]], s[1..]);
  }

  /** The cursor step `(i + 1) % n` of a push, without the modulus. */
  lemma NextSlot(i: nat, n: nat)
    requires i < n
    ensures (i + 1) % n == if i + 1 == n then 0 else i + 1
  {
  }

  /** The slot holding the value pushed `k + 1` pushes before the cursor reached
      `index`. */
  function Back(index: nat, k: nat, n: nat): (slot: nat)
    requires index < n && k < n
    ensures slot < n
  {
    if index >= k + 1 then index - k - 1 else index + n - k - 1
  }

  /** `p` holds exactly the last min(|h|, n) values of the history `h`, the one of
      age k in slot Back(index, k, n), and its accumulator is their sum. */
  ghost predicate HoldsLastValues(p: Pushed, h: seq<int>, n: nat)
  {
    && |p.ring.slots| == n
    && Valid(p.ring)
    && p.ring.count == Min(|h|, n)
    && p.sum == Total(h[|h| - p.ring.count..])
    && forall k :: 0 <= k < p.ring.count ==> p.ring.slots[Back(p.ring.index, k, n)] == h[|h| - 1 - k]
  }

  /** One push extends the history by one value and keeps HoldsLastValues. */
  lemma PushKeepsLastValues(q: Pushed, h: seq<int>, v: int, n: nat)
    requires HoldsLastValues(q, h, n)
    ensures HoldsLastValues(Push(q.ring, q.sum, v), h + [v], n)
  {
    var p := Push(q.ring, q.sum, v);
    PushKeepsWindowSum(q, h, v, n);
    PushKeepsAges(q, h, v, n);
  }

  lemma PushKeepsWindowSum(q: Pushed, h: seq<int>, v: int, n: nat)
    requires HoldsLastValues(q, h, n)
    ensures var p := Push(q.ring, q.sum, v);
      var h1 := h + [v];
      p.sum == Total(h1[|h1| - p.ring.count..])
  {
    var p := Push(q.ring, q.sum, v);
    var h1 := h + [v];
    var m := |h|;
    if q.ring.count < n {
      assert p.ring.count == m + 1;
      assert h1[|h1| - p.ring.count..] == h1;
      assert h[m - q.ring.count..] == h;
      TotalAppend(h, [v]);
      assert [v][..0] == [];
      assert Total([v]) == v;
    } else {
      assert p.ring.count == n;
      var evicted := h[m - n];
      assert Back(q.ring.index, n - 1, n) == q.ring.index;
      assert q.ring.slots[q.ring.index] == evicted;
      // The window slides by one: drop the oldest value, append v.
      var w0 := h[m - n..];
      var w := h1[|h1| - n..];
      assert w == w0[1..] + [v];
      TotalDropFirst(w0);
      TotalAppend(w0[1..], [v]);
      assert [v][..0] == [];
      assert Total([v]) == v;
    }
  }

  lemma PushKeepsAges(q: Pushed, h: seq<int>, v: int, n: nat)
    requires HoldsLastValues(q, h, n)
    ensures var p := Push(q.ring, q.sum, v);
      var h1 := h + [v];
      forall k :: 0 <= k < p.ring.count ==> p.ring.slots[Back(p.ring.index, k, n)] == h1[|h1| - 1 - k]
  {
    var p := Push(q.ring, q.sum, v);
    forall k | 0 <= k < p.ring.count
      ensures p.ring.slots[Back(p.ring.index, k, n)] == (h + [v])[|h| - k]
    {
      PushKeepsAge(q, h, v, n, k);
    }
  }

  /** The value of age k after a push is the value of age k - 1 before it, or the
      pushed value itself for k = 0. */
  lemma PushKeepsAge(q: Pushed, h: seq<int>, v: int, n: nat, k: nat)
    requires HoldsLastValues(q, h, n)
    requires k < Push(q.ring, q.sum, v).ring.count
    ensures var p := Push(q.ring, q.sum, v);
      p.ring.slots[Back(p.ring.index, k, n)] == (h + [v])[|h| - k]
  {
    var p := Push(q.ring, q.sum, v);
    NextSlot(q.ring.index, n);
    assert p.ring.slots == q.ring.slots[q.ring.index := v];
    assert p.ring.index == if q.ring.index + 1 == n then 0 else q.ring.index + 1;
    if k == 0 {
      assert Back(p.ring.index, 0, n) == q.ring.index;
    } else {
      var slot := Back(q.ring.index, k - 1, n);
      assert Back(p.ring.index, k, n) == slot;
      assert slot != q.ring.index;
      assert q.ring.slots[slot] == h[|h| - 1 - (k - 1)];
    }
  }

  /** After pushing the history `h` into an empty ring of capacity `n`, the ring
      holds exactly the last min(|h|, n) values and the accumulator is their sum. */
  lemma {:induction false} PushAllKeepsLastValues(n: nat, h: seq<int>)
    requires n > 0
    ensures HoldsLastValues(PushAll(Empty(n), 0, h), h, n)
    decreases |h|
  {
    if |h| == 0 {
      assert h[0..] == [];
    } else {
      var h0 := h[..|h| - 1];
      PushAllKeepsLastValues(n, h0);
      PushKeepsLastValues(PushAll(Empty(n), 0, h0), h0, h[|h| - 1], n);
      assert h0 + [h[|h| - 1]] == h;
    }
  }

  /** The reported mean is the floor mean of the last min(|h|, n) pushed values. */
  lemma MeanOfLastValues(n: nat, h: seq<int>)
    requires n > 0 && |h| > 0
    ensures var p := PushAll(Empty(n), 0, h);
      var k := Min(|h|, n);
      && p.ring.count == k
      && Mean(p) == Total(h[|h| - k..]) / k
  {
    var p := PushAll(Empty(n), 0, h);
    PushAllKeepsLastValues(n, h);
    assert HoldsLastValues(p, h, n);
    assert p.ring.count == Min(|h|, n) && p.sum == Total(h[|h| - p.ring.count..]);
  }
}
