/** One direction of a split virtqueue (virtqueue.cpp, virtqueue.hpp; section 2.6 of VIRTIO 1.1):
    a ring of slots, a shared free-running 16-bit index, and a 16-bit cursor on each side.

    The sender writes a slot and then publishes the index; the receiver loads the index and then
    reads a slot. The four operations may interleave in any way. */
module SplitRing {
  import opened MachineWords

  // ---------- sizes ----------

  /** `is_size_valid`, on the source's 16-bit words. */
  predicate IsSizeValid(sz: bv16) { sz != 0 && sz <= 32768 && sz & (sz - 1) == 0 }

  /** The bit trick picks out the powers of two, so a valid size divides the range of an index. */
  lemma ValidSizes(sz: bv16)
    ensures IsSizeValid(sz) <==> sz in {1, 2, 4, 8, 16, 32, 64, 128, 256, 512, 1024, 2048, 4096, 8192, 16384, 32768}
  {
  }

  predicate Divides(size: nat) { 0 < size <= 32768 && U16 % size == 0 }

  lemma ValidDivides(sz: bv16)
    requires IsSizeValid(sz)
    ensures Divides(sz as nat)
  {
    ValidSizes(sz);
  }

  // ---------- the operations ----------

  /** index: the shared index; prev, driven: `_prev` and `_driven_idx` of the sender; idx: `_idx`
      of the receiver. */
  datatype Chan<T> = Chan(slots: seq<T>, index: nat, prev: nat, driven: nat, idx: nat)

  predicate Words<T>(c: Chan<T>) { c.slots != [] && c.index < U16 && c.driven < U16 && c.idx < U16 && c.prev < U16 }

  function WriteSlot<T>(c: Chan<T>, x: T): Chan<T>
    requires Words(c)
  {
    c.(prev := c.driven, driven := (c.driven + 1) % U16, slots := c.slots[c.driven % |c.slots| := x])
  }

  function Publish<T>(c: Chan<T>): Chan<T> { c.(index := c.driven) }

  /** `count_available`: what the receiver takes to be waiting when it has loaded i. */
  function CountAvailable(idx: nat, i: nat): nat
    requires idx < U16 && i < U16
  {
    if i >= idx then i - idx else U16 - 1 - idx + 1 + i
  }

  /** `count_free`, with its 16-bit result. */
  function CountFree(size: nat, idx: nat, i: nat): nat
    requires idx < U16 && i < U16 && size <= U16
  {
    (U16 + size - CountAvailable(idx, i)) % U16
  }

  function ReadSlot<T>(c: Chan<T>): T
    requires Words(c)
  {
    c.slots[c.idx % |c.slots|]
  }

  function Advance<T>(c: Chan<T>): Chan<T> { c.(idx := (c.idx + 1) % U16) }

  // ---------- history ----------

  /** What has happened on a channel, with unbounded counters: everything written to a slot,
      how many of those have been published, how many have been read; and the count that stood
      behind the index the receiver has loaded, if it is between its load and its read. */
  datatype History<T> = History(sent: seq<T>, published: nat, received: nat, loaded: nat)

  /** Sent and not yet received. */
  function InRing<T>(h: History<T>): seq<T>
    requires h.received <= |h.sent|
  {
    h.sent[h.received..]
  }

  ghost predicate Agrees<T>(c: Chan<T>, h: History<T>) {
    && Words(c) && Divides(|c.slots|)
    && h.received <= h.published <= |h.sent| <= h.received + |c.slots| && |h.sent| <= h.published + 1
    && c.driven == |h.sent| % U16 && c.index == h.published % U16 && c.idx == h.received % U16
    && h.loaded <= h.published
    && forall j :: h.received <= j < |h.sent| ==> c.slots[j % |c.slots|] == h.sent[j]
  }

  lemma ModMod(j: nat, size: nat)
    requires Divides(size)
    ensures (j % U16) % size == j % size
  {
    var q, m := j / U16, U16 / size;
    assert j == q * U16 + j % U16;
    assert U16 == m * size;
    assert j == (q * m) * size + j % U16 by { assert q * (m * size) == (q * m) * size; }
    ModShift(q * m, j % U16, size);
  }

  lemma ModShift(k: nat, r: nat, size: nat)
    requires size > 0
    ensures (k * size + r) % size == r % size
  {
    var d := r / size;
    assert k * size + r == (k + d) * size + r % size by { assert (k + d) * size == k * size + d * size; }
    ModUnique(k + d, r % size, size);
  }

  lemma AtLeast(d: nat, size: nat)
    requires d >= 1
    ensures d * size >= size
  {
    assert (d - 1) * size + size == d * size;
  }

  lemma Below(size: nat, k: nat, r: nat, q: nat, m: nat)
    requires k < q && r < size
    ensures k * size + r < q * size + m
  {
    AtLeast(q - k, size);
    assert (q - k) * size == q * size - k * size;
  }

  /** Quotient and remainder are unique. */
  lemma Unique(size: nat, k: nat, r: nat, q: nat, m: nat)
    requires k * size + r == q * size + m && r < size && m < size
    ensures q == k && r == m
  {
    if q > k { Below(size, k, r, q, m); } else if q < k { Below(size, q, m, k, r); }
  }

  lemma ModUnique(k: nat, r: nat, size: nat)
    requires r < size
    ensures (k * size + r) % size == r
  {
    var x := k * size + r;
    Unique(size, k, r, x / size, x % size);
  }

  /** Slots less than a ring apart are different slots. */
  lemma DifferentSlots(i: nat, j: nat, size: nat)
    requires 0 < size && i < j < i + size
    ensures i % size != j % size
  {
    if i % size == j % size {
      Apart(i / size, j / size, i % size, i, j, size);
    }
  }

  lemma Apart(a: nat, b: nat, m: nat, i: nat, j: nat, size: nat)
    requires i == a * size + m && j == b * size + m && i < j
    ensures i + size <= j
  {
    if b > a {
      AtLeast(b - a, size);
      assert (b - a) * size == b * size - a * size;
    } else {
      assert (a - b) * size == a * size - b * size;
    }
  }

  /** The receiver's count is the true one, whatever the wraps in between. */
  lemma CountIsExact(received: nat, published: nat)
    requires received <= published <= received + 32768
    ensures CountAvailable(received % U16, published % U16) == published - received
  {
    var d := published - received;
    var r := received % U16;
    assert published == received / U16 * U16 + (r + d);
    if r + d < U16 {
      ModUnique(received / U16, r + d, U16);
    } else {
      assert published == (received / U16 + 1) * U16 + (r + d - U16);
      ModUnique(received / U16 + 1, r + d - U16, U16);
    }
  }

  lemma Succ16(x: nat)
    ensures (x % U16 + 1) % U16 == (x + 1) % U16
  {
  }

  // ---------- each operation keeps the agreement ----------

  /** Writing a slot when the ring is not full overwrites nothing that has yet to be read. */
  lemma WriteAgrees<T>(c: Chan<T>, h: History<T>, x: T)
    requires Agrees(c, h) && h.published == |h.sent| && |h.sent| < h.received + |c.slots|
    ensures Agrees(WriteSlot(c, x), h.(sent := h.sent + [x]))
  {
    var size, n := |c.slots|, |h.sent|;
    var c', sent' := WriteSlot(c, x), h.sent + [x];
    ModMod(n, size);
    Succ16(n);
    forall j | h.received <= j < |sent'|
      ensures c'.slots[j % size] == sent'[j]
    {
      if j < n { DifferentSlots(j, n, size); }
    }
  }

  lemma PublishAgrees<T>(c: Chan<T>, h: History<T>)
    requires Agrees(c, h)
    ensures Agrees(Publish(c), h.(published := |h.sent|))
  {
  }

  /** A load of the index; it finds something exactly when something published is unread. */
  lemma LoadAgrees<T>(c: Chan<T>, h: History<T>)
    requires Agrees(c, h)
    ensures CountAvailable(c.idx, c.index) == h.published - h.received
    ensures CountFree(|c.slots|, c.idx, c.index) == |c.slots| - (h.published - h.received)
    ensures Agrees(c, h.(loaded := h.published))
  {
    CountIsExact(h.received, h.published);
  }

  /** The read that follows a successful load, however stale the loaded index, returns the next
      value in the order sent. */
  lemma ReadAgrees<T>(c: Chan<T>, h: History<T>)
    requires Agrees(c, h) && h.received < h.loaded
    ensures ReadSlot(c) == h.sent[h.received]
    ensures Agrees(Advance(c), h.(received := h.received + 1))
  {
    ModMod(h.received, |c.slots|);
    Succ16(h.received);
  }
}
