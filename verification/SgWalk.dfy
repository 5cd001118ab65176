/** Walking a descriptor chain in shared memory (`walk_chain_callback`): what the walk accepts,
    for memory that may change under it and for memory that does not. */
module SgWalk {
  import opened MachineWords
  import opened Counting
  import opened SgChain

  /** The fields of a descriptor as the walk reads them, each once. */
  datatype Raw = Raw(address: nat, length: nat, flags: bv16, next: nat)

  /** One step of the walk: the index it was at and what it read there. */
  datatype Node = Node(idx: nat, raw: Raw)

  /** What shared memory answers: at the i-th step, for the descriptor at an index. */
  type Memory = (nat, nat) -> Raw

  function Cache(nodes: seq<Node>): (c: seq<Desc>)
    ensures |c| == |nodes|
  {
    seq(|nodes|, k requires 0 <= k < |nodes| =>
      Desc(nodes[k].raw.address, nodes[k].raw.length, nodes[k].raw.flags, k + 1))
  }

  datatype Outcome = Accept(nodes: seq<Node>) | Reject

  /** The last node is refused by the loop body. */
  predicate Refused(nodes: seq<Node>, qsize: nat)
    requires nodes != []
  {
    var n := |nodes| - 1;
    var raw := nodes[n].raw;
    || (HasNext(raw.flags) && raw.next >= qsize)
    || (!WriteOnly(raw.flags) && FirstWritable(Cache(nodes[..n])) < n)
    || raw.length == 0
    || Sum(Cache(nodes)) > U32_MAX
  }

  /** The walk from index idx, with the nodes already done. */
  function WalkFrom(mem: Memory, qsize: nat, max: nat, done: seq<Node>, idx: nat): Outcome
    requires |done| <= max
    decreases max - |done|
  {
    if |done| == max then Reject
    else
      var nodes := done + [Node(idx, mem(|done|, idx))];
      var raw := nodes[|done|].raw;
      if Refused(nodes, qsize) then Reject
      else if HasNext(raw.flags) then WalkFrom(mem, qsize, max, nodes, raw.next)
      else Accept(nodes)
  }

  // ---------- what is accepted ----------

  /** The nodes are what memory answered, linked from head to an end. */
  ghost predicate Linked(mem: Memory, head: nat, nodes: seq<Node>) {
    && nodes != [] && nodes[0].idx == head
    && (forall k :: 0 <= k < |nodes| ==> nodes[k].raw == mem(k, nodes[k].idx))
    && (forall k :: 0 <= k < |nodes| - 1 ==> HasNext(nodes[k].raw.flags) && nodes[k].raw.next == nodes[k + 1].idx)
    && !HasNext(nodes[|nodes| - 1].raw.flags)
  }

  /** Every index is in the table; and the chain is proper. */
  ghost predicate Legal(qsize: nat, nodes: seq<Node>) {
    (forall k :: 0 <= k < |nodes| ==> nodes[k].idx < qsize) && Proper(Cache(nodes))
  }

  lemma CacheAppend(nodes: seq<Node>, n: Node)
    ensures Cache(nodes + [n]) == Cache(nodes) + [Desc(n.raw.address, n.raw.length, n.raw.flags, |nodes| + 1)]
    ensures Cache(nodes + [n])[..|nodes|] == Cache(nodes)
  {
  }

  /** The part of a walk done so far. */
  ghost predicate Partial(mem: Memory, qsize: nat, head: nat, done: seq<Node>, idx: nat) {
    && idx < qsize
    && (done == [] ==> idx == head)
    && (done != [] ==> done[0].idx == head && done[|done| - 1].raw.next == idx)
    && (forall k :: 0 <= k < |done| ==> done[k].raw == mem(k, done[k].idx) && HasNext(done[k].raw.flags))
    && (forall k :: 0 <= k < |done| - 1 ==> done[k].raw.next == done[k + 1].idx)
    && Legal(qsize, done)
  }

  /** A node that is not refused keeps the nodes legal, and the other way round. */
  lemma RefusedExact(nodes: seq<Node>, n: Node, qsize: nat)
    requires Legal(qsize, nodes) && n.idx < qsize
    ensures !Refused(nodes + [n], qsize) <==> Legal(qsize, nodes + [n]) && (HasNext(n.raw.flags) ==> n.raw.next < qsize)
  {
    CacheAppend(nodes, n);
    var c, d := Cache(nodes), Desc(n.raw.address, n.raw.length, n.raw.flags, |nodes| + 1);
    assert (nodes + [n])[..|nodes|] == nodes;
    assert (c + [d])[..|c|] == c;
    if !Refused(nodes + [n], qsize) {
      ProperAppend(c, d);
    } else if Legal(qsize, nodes + [n]) {
      assert (c + [d])[|c|] == d;
      FirstWritableIs(c);
    }
  }

  lemma {:induction false} WalkSound(mem: Memory, qsize: nat, max: nat, head: nat, done: seq<Node>, idx: nat)
    requires |done| <= max && Partial(mem, qsize, head, done, idx)
    ensures var o := WalkFrom(mem, qsize, max, done, idx);
            o.Accept? ==> Linked(mem, head, o.nodes) && Legal(qsize, o.nodes) && |o.nodes| <= max
    decreases max - |done|
  {
    hide Legal, Refused;
    if |done| < max {
      var n := Node(idx, mem(|done|, idx));
      RefusedExact(done, n, qsize);
      if !Refused(done + [n], qsize) && HasNext(n.raw.flags) {
        WalkSound(mem, qsize, max, head, done + [n], n.raw.next);
      }
    }
  }

  lemma {:induction false} WalkComplete(mem: Memory, qsize: nat, max: nat, head: nat, nodes: seq<Node>, k: nat)
    requires Linked(mem, head, nodes) && Legal(qsize, nodes) && k < |nodes| <= max
    ensures WalkFrom(mem, qsize, max, nodes[..k], nodes[k].idx) == Accept(nodes)
    decreases |nodes| - k
  {
    hide Legal, Refused;
    assert nodes[..k] + [nodes[k]] == nodes[..k + 1];
    LegalPrefix(qsize, nodes, k);
    RefusedExact(nodes[..k], nodes[k], qsize);
    LegalPrefix(qsize, nodes, k + 1);
    if k + 1 < |nodes| {
      WalkComplete(mem, qsize, max, head, nodes, k + 1);
    } else {
      assert nodes[..k + 1] == nodes;
    }
  }

  lemma LegalPrefix(qsize: nat, nodes: seq<Node>, k: nat)
    requires Legal(qsize, nodes) && k <= |nodes|
    ensures Legal(qsize, nodes[..k]) && (k < |nodes| ==> nodes[k].idx < qsize)
  {
    assert Cache(nodes)[..k] == Cache(nodes[..k]);
    ProperPrefix(Cache(nodes), k);
  }

  lemma {:induction false} ProperPrefix(c: seq<Desc>, k: nat)
    requires Proper(c) && k <= |c|
    ensures Proper(c[..k])
    decreases |c|
  {
    if k < |c| {
      var init := c[..|c| - 1];
      FirstWritableIs(c);
      FirstWritableIs(init);
      ProperPrefix(init, k);
      assert init[..k] == c[..k];
    } else {
      assert c[..k] == c;
    }
  }

  /** For any memory, changing or not: the walk accepts exactly the legal chains that fit in the
      buffer, each as it read it. */
  lemma WalkExact(mem: Memory, qsize: nat, max: nat, head: nat, nodes: seq<Node>)
    requires head < qsize
    ensures WalkFrom(mem, qsize, max, [], head) == Accept(nodes) <==>
            Linked(mem, head, nodes) && Legal(qsize, nodes) && |nodes| <= max
  {
    assert Cache([]) == [];
    WalkSound(mem, qsize, max, head, [], head);
    if Linked(mem, head, nodes) && Legal(qsize, nodes) && |nodes| <= max {
      WalkComplete(mem, qsize, max, head, nodes, 0);
      assert nodes[..0] == [];
    }
  }

  /** From a head in the table, the walk never looks outside it: what memory would answer there
      makes no difference. */
  lemma {:induction false} WalkStaysInTable(mem: Memory, other: Memory, qsize: nat, max: nat, done: seq<Node>, idx: nat)
    requires |done| <= max && idx < qsize && forall i: nat, j: nat :: i < max && j < qsize ==> mem(i, j) == other(i, j)
    ensures WalkFrom(mem, qsize, max, done, idx) == WalkFrom(other, qsize, max, done, idx)
    decreases max - |done|
  {
    if |done| < max {
      var nodes := done + [Node(idx, mem(|done|, idx))];
      var raw := nodes[|done|].raw;
      if !Refused(nodes, qsize) && HasNext(raw.flags) {
        WalkStaysInTable(mem, other, qsize, max, nodes, raw.next);
      }
    }
  }

  // ---------- a table that does not change ----------

  function Static(table: seq<Raw>): Memory {
    (i: nat, idx: nat) => if idx < |table| then table[idx] else Raw(0, 0, 0, 0)
  }

  /** A chain that ends visits no index twice: after a second visit it would go on as after the
      first, and not end. */
  lemma {:induction false} NoRevisit(table: seq<Raw>, head: nat, nodes: seq<Node>, a: nat, b: nat)
    requires Linked(Static(table), head, nodes) && a < b < |nodes|
    ensures nodes[a].idx != nodes[b].idx
    decreases |nodes| - b
  {
    if nodes[a].idx == nodes[b].idx {
      assert nodes[a].raw == nodes[b].raw;
      if b + 1 < |nodes| {
        NoRevisit(table, head, nodes, a + 1, b + 1);
      }
    }
  }

  function Elements(xs: seq<nat>): (s: set<nat>)
    ensures forall x :: x in s <==> x in xs
  {
    if xs == [] then {} else Elements(xs[..|xs| - 1]) + {xs[|xs| - 1]}
  }

  lemma {:induction false} DistinctSize(xs: seq<nat>)
    requires forall i, j :: 0 <= i < j < |xs| ==> xs[i] != xs[j]
    ensures |Elements(xs)| == |xs|
  {
    if xs != [] { DistinctSize(xs[..|xs| - 1]); }
  }

  lemma SubsetSize(a: set<nat>, b: set<nat>)
    requires a <= b
    ensures |a| <= |b|
  {
    assert b == a + (b - a);
  }

  /** Pigeonhole: distinct numbers below n are at most n. */
  lemma Pigeonhole(xs: seq<nat>, n: nat)
    requires forall i :: 0 <= i < |xs| ==> xs[i] < n
    requires forall i, j :: 0 <= i < j < |xs| ==> xs[i] != xs[j]
    ensures |xs| <= n
  {
    DistinctSize(xs);
    SubsetSize(Elements(xs), Upto(n));
  }

  lemma ChainFits(table: seq<Raw>, qsize: nat, head: nat, nodes: seq<Node>)
    requires Linked(Static(table), head, nodes) && Legal(qsize, nodes)
    ensures |nodes| <= qsize
  {
    var xs := seq(|nodes|, k requires 0 <= k < |nodes| => nodes[k].idx);
    forall i, j | 0 <= i < j < |xs|
      ensures xs[i] != xs[j]
    {
      NoRevisit(table, head, nodes, i, j);
    }
    Pigeonhole(xs, qsize);
  }

  /** With a table that does not change and a buffer no smaller than the queue, the walk accepts
      exactly when the chain from the head ends and is legal, with no bound on its length: a
      chain that loops, and only that, runs into the buffer's end. What it caches is that chain,
      of which there is only one. */
  lemma StaticWalkExact(table: seq<Raw>, qsize: nat, max: nat, head: nat)
    requires head < qsize <= max
    ensures var o := WalkFrom(Static(table), qsize, max, [], head);
            && (o.Accept? <==> exists nodes :: Linked(Static(table), head, nodes) && Legal(qsize, nodes))
            && (forall nodes :: Linked(Static(table), head, nodes) && Legal(qsize, nodes) ==> o == Accept(nodes))
  {
    var o := WalkFrom(Static(table), qsize, max, [], head);
    if o.Accept? { WalkExact(Static(table), qsize, max, head, o.nodes); }
    forall nodes | Linked(Static(table), head, nodes) && Legal(qsize, nodes)
      ensures o == Accept(nodes)
    {
      ChainFits(table, qsize, head, nodes);
      WalkExact(Static(table), qsize, max, head, nodes);
    }
  }

  // ---------- chains of two ----------

  /** A table with a chain of two, with the words as they stand in memory: descriptor 0 has its
      next bit set and names descriptor 1, which has not. */
  ghost predicate TwoChain(table: seq<Raw>) {
    |table| >= 2 && table[0].flags % 2 == 1 && table[0].next == 1 && table[1].flags % 2 == 0
  }

  predicate MarkedWritable(raw: Raw) { raw.flags / 2 % 2 == 1 }

  /** Such a chain is accepted exactly when neither descriptor is empty, the two lengths add up to
      less than 2^32, and a readable one does not follow a writable one; and its writable part
      begins where the words say. */
  lemma TwoChainWalk(table: seq<Raw>, qsize: nat, max: nat)
    requires TwoChain(table) && 2 <= qsize <= max
    ensures var a, b := table[0], table[1];
            var o := WalkFrom(Static(table), qsize, max, [], 0);
            && (o.Accept? <==>
                  && a.length > 0 && b.length > 0 && a.length + b.length < 0x1_0000_0000
                  && (MarkedWritable(a) ==> MarkedWritable(b)))
            && (o.Accept? ==>
                  && Cache(o.nodes) == [Desc(a.address, a.length, a.flags, 1), Desc(b.address, b.length, b.flags, 2)]
                  && Sum(Cache(o.nodes)) == a.length + b.length
                  && FirstWritable(Cache(o.nodes)) ==
                     if MarkedWritable(a) then 0 else if MarkedWritable(b) then 1 else 2)
  {
    hide Refused, Legal, HasNext, WriteOnly;
    var a, b := table[0], table[1];
    var m, n := Node(0, a), Node(1, b);
    FlagBits(a.flags, b.flags);
    FlagBits(b.flags, a.flags);
    TwoNodes(m, n);
    assert [] + [m] == [m] && [m] + [n] == [m, n];
    var mem := Static(table);
    assert WalkFrom(mem, qsize, max, [], 0) ==
           if Refused([m], qsize) then Reject else WalkFrom(mem, qsize, max, [m], 1);
    assert WalkFrom(mem, qsize, max, [m], 1) == if Refused([m, n], qsize) then Reject else Accept([m, n]);
    RefusedTwo(m, n, qsize);
  }

  lemma TwoNodes(m: Node, n: Node)
    ensures var a, b := m.raw, n.raw;
            var d, e := Desc(a.address, a.length, a.flags, 1), Desc(b.address, b.length, b.flags, 2);
            && Cache([m]) == [d] && Cache([m, n]) == [d, e] && Cache([]) == []
            && Sum([d]) == d.length && Sum([d, e]) == d.length + e.length && Sum([]) == 0 && FirstWritable([]) == 0
            && FirstWritable([d]) == (if WriteOnly(d.flags) then 0 else 1)
            && FirstWritable([d, e]) == (if WriteOnly(d.flags) then 0 else if WriteOnly(e.flags) then 1 else 2)
  {
    var a, b := m.raw, n.raw;
    var d, e := Desc(a.address, a.length, a.flags, 1), Desc(b.address, b.length, b.flags, 2);
    assert [d, e][..1] == [d] && [d][..0] == [];
  }

  lemma RefusedTwo(m: Node, n: Node, qsize: nat)
    requires HasNext(m.raw.flags) && m.raw.next == 1 < qsize && !HasNext(n.raw.flags)
    ensures Refused([m], qsize) <==> m.raw.length == 0 || m.raw.length > U32_MAX
    ensures Refused([m, n], qsize) <==>
            || (!WriteOnly(n.raw.flags) && WriteOnly(m.raw.flags)) || n.raw.length == 0
            || m.raw.length + n.raw.length > U32_MAX
  {
    TwoNodes(m, n);
    assert [m][..0] == [] && [m, n][..1] == [m];
  }
}
