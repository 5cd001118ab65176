/** Descriptor chains as values: what `Sg::Buffer` caches of a chain, and where the bytes of its
    payload are. */
module SgChain {
  import opened MachineWords

  /** `LinearizedDesc`. */
  datatype Desc = Desc(address: nat, length: nat, flags: bv16, linearNext: nat)

  /** VIRTQ_DESC_CONT_NEXT and VIRTQ_DESC_WRITE_ONLY. */
  predicate HasNext(flags: bv16) { flags & 1 != 0 }
  predicate WriteOnly(flags: bv16) { flags & 2 != 0 }

  /** They are the last bit and the last but one of the word, and no other bit matters to either. */
  lemma FlagBits(flags: bv16, other: bv16)
    ensures HasNext(flags) <==> flags % 2 == 1
    ensures WriteOnly(flags) <==> flags / 2 % 2 == 1
    ensures flags % 2 == other % 2 ==> HasNext(flags) == HasNext(other)
    ensures flags / 2 % 2 == other / 2 % 2 ==> WriteOnly(flags) == WriteOnly(other)
  {
  }

  // ---------- payload offsets ----------

  /** The payload size of a chain. */
  function Sum(c: seq<Desc>): nat {
    if c == [] then 0 else Sum(c[..|c| - 1]) + c[|c| - 1].length
  }

  /** The payload offset at which descriptor k starts. */
  function Start(c: seq<Desc>, k: nat): nat
    requires k <= |c|
  {
    Sum(c[..k])
  }

  /** The address of the p-th byte of the payload. */
  function Addr(c: seq<Desc>, p: nat): nat
    requires p < Sum(c)
  {
    var init := c[..|c| - 1];
    if p < Sum(init) then Addr(init, p) else c[|c| - 1].address + (p - Sum(init))
  }

  /** No two payload bytes share an address. */
  ghost predicate Injective(c: seq<Desc>) {
    forall p, q :: 0 <= p < q < Sum(c) ==> Addr(c, p) != Addr(c, q)
  }

  ghost predicate Apart(c: seq<Desc>, d: seq<Desc>) {
    forall p, q :: 0 <= p < Sum(c) && 0 <= q < Sum(d) ==> Addr(c, p) != Addr(d, q)
  }

  lemma StartNext(c: seq<Desc>, k: nat)
    requires k < |c|
    ensures Start(c, k + 1) == Start(c, k) + c[k].length
  {
    assert c[..k + 1][..k] == c[..k];
  }

  lemma StartEnds(c: seq<Desc>)
    ensures Start(c, 0) == 0 && Start(c, |c|) == Sum(c)
  {
    assert c[..|c|] == c;
  }

  lemma StartMonotone(c: seq<Desc>, j: nat, k: nat)
    requires j <= k <= |c|
    ensures Start(c, j) <= Start(c, k) <= Sum(c)
  {
    StartEnds(c);
    StartMonotoneUp(c, j, k);
    StartMonotoneUp(c, k, |c|);
  }

  lemma {:induction false} StartMonotoneUp(c: seq<Desc>, j: nat, k: nat)
    requires j <= k <= |c|
    ensures Start(c, j) <= Start(c, k)
  {
    if j < k {
      StartMonotoneUp(c, j, k - 1);
      StartNext(c, k - 1);
    }
  }

  /** Byte i of descriptor k is byte Start + i of the payload. */
  lemma {:induction false} AddrAt(c: seq<Desc>, k: nat, i: nat)
    requires k < |c| && i < c[k].length
    ensures Start(c, k) + i < Sum(c) && Addr(c, Start(c, k) + i) == c[k].address + i
    decreases |c|
  {
    var init := c[..|c| - 1];
    if k < |init| {
      AddrAt(init, k, i);
      assert init[..k] == c[..k];
    }
  }

  /** Every payload offset is in exactly one descriptor. */
  predicate Locates(c: seq<Desc>, off: nat, k: nat, local: nat) {
    k < |c| && local < c[k].length && Start(c, k) + local == off
  }

  lemma LocateUnique(c: seq<Desc>, off: nat, k: nat, local: nat, k': nat, local': nat)
    requires Locates(c, off, k, local) && Locates(c, off, k', local')
    ensures k == k' && local == local'
  {
    StartNext(c, k);
    StartNext(c, k');
    if k < k' { StartMonotone(c, k + 1, k'); } else if k' < k { StartMonotone(c, k' + 1, k); }
  }

  // ---------- readable prefix, writable suffix ----------

  /** The number of descriptors before the first writable one. */
  function FirstWritable(c: seq<Desc>): (k: nat)
    ensures k <= |c|
  {
    if c == [] then 0
    else
      var k := FirstWritable(c[..|c| - 1]);
      if k < |c| - 1 || WriteOnly(c[|c| - 1].flags) then k else |c|
  }

  lemma {:induction false} FirstWritableIs(c: seq<Desc>)
    ensures var k := FirstWritable(c);
            (forall j :: 0 <= j < k ==> !WriteOnly(c[j].flags)) && (k < |c| ==> WriteOnly(c[k].flags))
  {
    if c != [] { FirstWritableIs(c[..|c| - 1]); }
  }

  /** What VIRTIO asks of a chain and this code checks: no empty descriptor, all readable ones
      before all writable ones, and a total that fits in 32 bits. */
  ghost predicate Proper(c: seq<Desc>) {
    && (forall k :: 0 <= k < |c| ==> c[k].length > 0 && c[k].linearNext == k + 1)
    && (forall k :: FirstWritable(c) <= k < |c| ==> WriteOnly(c[k].flags))
    && Sum(c) <= U32_MAX
  }

  /** Appending one descriptor. */
  lemma ProperAppend(c: seq<Desc>, d: Desc)
    requires Proper(c) && d.length > 0 && d.linearNext == |c| + 1 && Sum(c) + d.length <= U32_MAX
    requires WriteOnly(d.flags) || FirstWritable(c) == |c|
    ensures Proper(c + [d]) && Sum(c + [d]) == Sum(c) + d.length
    ensures FirstWritable(c + [d]) == if WriteOnly(d.flags) then FirstWritable(c) else |c| + 1
  {
    assert (c + [d])[..|c|] == c;
  }

  /** Replacing a descriptor by one with the same flags moves only the byte count. */
  lemma {:induction false} ReplaceDesc(c: seq<Desc>, k: nat, d: Desc)
    requires k < |c| && d.flags == c[k].flags
    ensures Sum(c[k := d]) + c[k].length == Sum(c) + d.length
    ensures FirstWritable(c[k := d]) == FirstWritable(c)
    decreases |c|
  {
    var init := c[..|c| - 1];
    if k < |init| {
      assert c[k := d][..|c| - 1] == init[k := d];
      ReplaceDesc(init, k, d);
    } else {
      assert c[k := d][..|c| - 1] == init;
    }
  }

  /** Where payload byte off is. */
  function Locate(c: seq<Desc>, off: nat): (r: (nat, nat))
    requires off < Sum(c)
    ensures Locates(c, off, r.0, r.1)
  {
    var init := c[..|c| - 1];
    if off < Sum(init) then
      var r := Locate(init, off);
      assert init[..r.0] == c[..r.0];
      r
    else (|c| - 1, off - Sum(init))
  }

  function Clamp(x: int, hi: nat): nat { if x < 0 then 0 else if x > hi then hi else x }

  /** How much of descriptor k lies before payload offset x. */
  function Local(c: seq<Desc>, k: nat, x: nat): nat
    requires k < |c|
  {
    Clamp(x - Start(c, k), c[k].length)
  }

  function Total(parts: seq<nat>): nat {
    if parts == [] then 0 else Total(parts[..|parts| - 1]) + parts[|parts| - 1]
  }
}
