/** The length a buffer reports when it hands a chain back (section 2.6.8 of VIRTIO 1.1): each
    descriptor keeps how much of its beginning has been written, and the report adds these up
    to the first gap. */
module SgWritten {
  import opened MachineWords
  import opened SgChain

  /** `DescMetadata::heuristically_track_written_bytes`. */
  function Track(prefix: nat, off: nat, size: nat): nat {
    if off <= prefix then
      if off + size < prefix || U32_MAX < off + size then U32_MAX else off + size
    else prefix
  }

  /** A write of n bytes from byte off of descriptor k on stays within the chain. */
  ghost predicate InChain(c: seq<Desc>, k: nat, off: nat, n: nat) {
    n > 0 ==> k < |c| && off < c[k].length && Start(c, k) + off + n <= Sum(c)
  }

  function Piece(c: seq<Desc>, k: nat, off: nat, n: nat): nat
    requires k < |c| && off < c[k].length
  {
    if c[k].length - off <= n then c[k].length - off else n
  }

  lemma NextInChain(c: seq<Desc>, k: nat, off: nat, n: nat)
    requires Proper(c) && InChain(c, k, off, n) && n > 0
    ensures InChain(c, k + 1, 0, n - Piece(c, k, off, n))
  {
    StartNext(c, k);
    if n > Piece(c, k, off, n) && k + 1 == |c| { StartEnds(c); }
  }

  /** `Buffer::heuristically_track_written_bytes` from its iterator on. */
  function TrackFrom(c: seq<Desc>, w: seq<nat>, k: nat, off: nat, n: nat): (r: seq<nat>)
    requires Proper(c) && |w| == |c| && InChain(c, k, off, n)
    ensures |r| == |w|
    decreases n
  {
    if n == 0 then w
    else
      NextInChain(c, k, off, n);
      var m := Piece(c, k, off, n);
      TrackFrom(c, w[k := Track(w[k], off, m)], k + 1, 0, n - m)
  }

  ghost predicate Fits(c: seq<Desc>, off: nat, n: nat) { n > 0 ==> off + n <= Sum(c) }

  /** The record after a write of n bytes at payload offset off. */
  ghost function Record(c: seq<Desc>, w: seq<nat>, off: nat, n: nat): (r: seq<nat>)
    requires Proper(c) && |w| == |c| && Fits(c, off, n)
    ensures |r| == |w|
  {
    if n == 0 then w else TrackFrom(c, w, Locate(c, off).0, Locate(c, off).1, n)
  }

  /** `written_bytes_lowerbound_heuristic` from descriptor k on, before its 32-bit wrap. */
  function Lower(c: seq<Desc>, w: seq<nat>, k: nat): nat
    requires |w| == |c|
    decreases |c| - k
  {
    if k >= |c| then 0
    else w[k] + if w[k] == c[k].length then Lower(c, w, k + 1) else 0
  }

  /** What `conclude_chain_use` passes to send. */
  function Reported(c: seq<Desc>, w: seq<nat>): nat
    requires |w| == |c|
  {
    Lower(c, w, FirstWritable(c)) % U32
  }

  // ---------- one write, seen from one descriptor ----------

  /** The prefix of a descriptor after a write that covers its bytes from .. to. */
  function Mark(prefix: nat, from: nat, to: nat): nat {
    if to <= from then prefix else Track(prefix, from, to - from)
  }

  lemma {:induction false} TrackFromAt(c: seq<Desc>, w: seq<nat>, k: nat, off: nat, n: nat, j: nat)
    requires Proper(c) && |w| == |c| && InChain(c, k, off, n) && n > 0 && j < |c|
    ensures var x := Start(c, k) + off;
            TrackFrom(c, w, k, off, n)[j] == Mark(w[j], Local(c, j, x), Local(c, j, x + n))
    decreases n
  {
    hide Sum, Start, FirstWritable, Track;
    var m := Piece(c, k, off, n);
    var w' := w[k := Track(w[k], off, m)];
    NextInChain(c, k, off, n);
    StartNext(c, k);
    if j < k {
      StartNext(c, j);
      StartMonotone(c, j + 1, k);
    } else if k < j {
      StartMonotone(c, k + 1, j);
    }
    if n > m {
      TrackFromAt(c, w', k + 1, 0, n - m, j);
    } else {
      TrackNothing(c, w', k + 1);
    }
  }

  lemma TrackNothing(c: seq<Desc>, w: seq<nat>, k: nat)
    requires Proper(c) && |w| == |c|
    ensures TrackFrom(c, w, k, 0, 0) == w
  {
  }

  /** A write changes each descriptor's record by what it covers of it. */
  lemma RecordAt(c: seq<Desc>, w: seq<nat>, off: nat, n: nat, j: nat)
    requires Proper(c) && |w| == |c| && Fits(c, off, n) && j < |c|
    ensures Record(c, w, off, n)[j] == Mark(w[j], Local(c, j, off), Local(c, j, off + n))
  {
    if n > 0 {
      TrackFromAt(c, w, Locate(c, off).0, Locate(c, off).1, n, j);
    }
  }

  // ---------- writes in order ----------

  function Writable(c: seq<Desc>): nat {
    StartMonotone(c, FirstWritable(c), |c|);
    Sum(c) - FirstByte(c)
  }

  /** The payload offset of the first writable byte. */
  function FirstByte(c: seq<Desc>): nat { Start(c, FirstWritable(c)) }

  /** The first `total` bytes of the writable part have been written, and nothing else of it. */
  ghost predicate InOrder(c: seq<Desc>, w: seq<nat>, total: nat) {
    |w| == |c| && forall k :: FirstWritable(c) <= k < |c| ==> w[k] == Local(c, k, FirstByte(c) + total)
  }

  /** A fresh walk leaves every prefix at zero. */
  lemma FreshInOrder(c: seq<Desc>, w: seq<nat>)
    requires |w| == |c| && forall k :: 0 <= k < |c| ==> w[k] == 0
    ensures InOrder(c, w, 0)
  {
    forall k | FirstWritable(c) <= k < |c|
      ensures Local(c, k, FirstByte(c)) == 0
    {
      StartMonotone(c, FirstWritable(c), k);
    }
  }

  /** A write that starts where the written run ends extends it. */
  lemma RecordInOrder(c: seq<Desc>, w: seq<nat>, total: nat, n: nat)
    requires Proper(c) && InOrder(c, w, total) && Fits(c, FirstByte(c) + total, n)
    ensures InOrder(c, Record(c, w, FirstByte(c) + total, n), total + n)
  {
    hide Sum, Start, FirstWritable, Record, FirstByte;
    var x, y := FirstByte(c) + total, FirstByte(c) + total + n;
    var r := Record(c, w, x, n);
    forall k | FirstWritable(c) <= k < |c|
      ensures r[k] == Local(c, k, y)
    {
      RecordAt(c, w, x, n, k);
      LengthFits(c, k);
    }
  }

  lemma LengthFits(c: seq<Desc>, k: nat)
    requires Proper(c) && k < |c|
    ensures c[k].length <= U32_MAX && Start(c, k) + c[k].length <= Sum(c)
  {
    StartNext(c, k);
    StartMonotone(c, k + 1, |c|);
  }

  /** The record after writes of the given sizes, each behind the one before. */
  ghost function RecordParts(c: seq<Desc>, w: seq<nat>, off: nat, parts: seq<nat>): (r: seq<nat>)
    requires Proper(c) && |w| == |c| && Fits(c, off, Total(parts))
    ensures |r| == |w|
  {
    if parts == [] then w
    else
      var init := parts[..|parts| - 1];
      Record(c, RecordParts(c, w, off, init), off + Total(init), parts[|parts| - 1])
  }

  lemma RecordPartsAppend(c: seq<Desc>, w: seq<nat>, off: nat, parts: seq<nat>, n: nat)
    requires Proper(c) && |w| == |c| && Fits(c, off, Total(parts) + n)
    ensures Total(parts + [n]) == Total(parts) + n
    ensures RecordParts(c, w, off, parts + [n]) == Record(c, RecordParts(c, w, off, parts), off + Total(parts), n)
  {
    hide Record, Sum;
    var all := parts + [n];
    assert all[..|all| - 1] == parts;
  }

  lemma {:induction false} LowerInOrder(c: seq<Desc>, w: seq<nat>, total: nat, k: nat)
    requires Proper(c) && InOrder(c, w, total) && FirstWritable(c) <= k <= |c|
    requires total <= Writable(c)
    ensures Lower(c, w, k) == Clamp(FirstByte(c) + total - Start(c, k), Sum(c))
    decreases |c| - k
  {
    hide Sum, Start, FirstWritable;
    StartEnds(c);
    if k < |c| {
      StartNext(c, k);
      StartMonotone(c, k + 1, |c|);
      LowerInOrder(c, w, total, k + 1);
    }
  }

  lemma ReportInOrder(c: seq<Desc>, w: seq<nat>, total: nat)
    requires Proper(c) && InOrder(c, w, total) && total <= Writable(c)
    ensures Reported(c, w) == total
  {
    StartMonotone(c, FirstWritable(c), |c|);
    LowerInOrder(c, w, total, FirstWritable(c));
  }

  lemma {:induction false} PartsInOrder(c: seq<Desc>, w: seq<nat>, total: nat, parts: seq<nat>)
    requires Proper(c) && InOrder(c, w, total) && Fits(c, FirstByte(c) + total, Total(parts))
    ensures InOrder(c, RecordParts(c, w, FirstByte(c) + total, parts), total + Total(parts))
  {
    hide Sum, Start, FirstWritable, Record, InOrder, FirstByte;
    InOrderSize(c, w, total);
    if parts != [] {
      var init := parts[..|parts| - 1];
      PartsInOrder(c, w, total, init);
      RecordInOrder(c, RecordParts(c, w, FirstByte(c) + total, init), total + Total(init), parts[|parts| - 1]);
    }
  }

  lemma InOrderSize(c: seq<Desc>, w: seq<nat>, total: nat)
    requires InOrder(c, w, total)
    ensures |w| == |c|
  {
  }

  lemma WritableFits(c: seq<Desc>, n: nat)
    requires n <= Writable(c)
    ensures Fits(c, FirstByte(c), n) && Fits(c, FirstByte(c) + 0, n)
  {
    StartMonotone(c, FirstWritable(c), |c|);
  }

  /** Writes in order are reported exactly: on a walked chain, after any sequence of writes of
      which the first starts at the first writable byte and each other where the one before
      ended, the report is the number of bytes written. */
  lemma ReportExact(c: seq<Desc>, w: seq<nat>, parts: seq<nat>)
    requires Proper(c) && |w| == |c| && (forall k :: 0 <= k < |c| ==> w[k] == 0) && Total(parts) <= Writable(c)
    ensures Fits(c, FirstByte(c), Total(parts))
    ensures Reported(c, RecordParts(c, w, FirstByte(c), parts)) == Total(parts)
  {
    hide Start, Sum, FirstWritable, Record, RecordParts, InOrder, Lower, Reported, FirstByte, Writable, Total, Proper;
    WritableFits(c, Total(parts));
    FreshInOrder(c, w);
    PartsInOrder(c, w, 0, parts);
    ReportInOrder(c, RecordParts(c, w, FirstByte(c), parts), Total(parts));
  }

  // ---------- writes in any order ----------

  /** The recorded prefixes are honest: those bytes exist and are among the written ones. */
  ghost predicate Honest(c: seq<Desc>, w: seq<nat>, written: set<nat>) {
    && |w| == |c|
    && forall k :: 0 <= k < |c| ==>
         w[k] <= c[k].length && forall p :: Start(c, k) <= p < Start(c, k) + w[k] ==> p in written
  }

  function Interval(from: nat, n: nat): (s: set<nat>)
    ensures forall x :: x in s <==> from <= x < from + n
  {
    if n == 0 then {} else Interval(from, n - 1) + {from + n - 1}
  }

  /** A lower bound in the sense of the standard: that many bytes, from the first writable one
      on, have all been written. */
  ghost predicate LowerBound(c: seq<Desc>, reported: nat, written: set<nat>) {
    && FirstByte(c) + reported <= Sum(c)
    && forall p :: FirstByte(c) <= p < FirstByte(c) + reported ==> p in written
  }

  /** The write ends inside descriptor j, short of what is recorded there. */
  ghost predicate Short(c: seq<Desc>, w: seq<nat>, off: nat, n: nat, j: nat)
    requires |w| == |c|
  {
    j < |c| && Local(c, j, off) < Local(c, j, off + n) < w[j]
  }

  /** A descriptor in which the write does not fall short stays honest; one in which it does is
      recorded as 2^32 - 1. */
  lemma MarkHonest(c: seq<Desc>, w: seq<nat>, written: set<nat>, off: nat, n: nat, j: nat)
    requires Proper(c) && Honest(c, w, written) && Fits(c, off, n) && j < |c|
    ensures var x, all := Record(c, w, off, n)[j], written + Interval(off, n);
            if Short(c, w, off, n, j) then x == U32_MAX
            else x <= c[j].length && forall p :: Start(c, j) <= p < Start(c, j) + x ==> p in all
  {
    hide Sum, Start, FirstWritable, Record;
    RecordAt(c, w, off, n, j);
    LengthFits(c, j);
  }

  /** A write falls short in one descriptor at most. */
  lemma ShortUnique(c: seq<Desc>, w: seq<nat>, written: set<nat>, off: nat, n: nat, i: nat, j: nat)
    requires Proper(c) && Honest(c, w, written) && Short(c, w, off, n, i) && Short(c, w, off, n, j)
    ensures i == j
  {
    hide Sum, Start, FirstWritable;
    StartNext(c, i);
    StartNext(c, j);
    if i < j { StartMonotone(c, i + 1, j); } else if j < i { StartMonotone(c, j + 1, i); }
  }

  /** The record with nothing recorded for j. */
  function Without(w: seq<nat>, j: nat): seq<nat> { if j < |w| then w[j := 0] else w }

  /** Leaving out the descriptor in which the write falls short, if there is one, the new record
      is honest. */
  lemma RecordHonest(c: seq<Desc>, w: seq<nat>, written: set<nat>, off: nat, n: nat, j: nat)
    requires Proper(c) && Honest(c, w, written) && Fits(c, off, n)
    requires forall i :: 0 <= i < |c| && i != j ==> !Short(c, w, off, n, i)
    ensures Honest(c, Without(Record(c, w, off, n), j), written + Interval(off, n))
    ensures !Short(c, w, off, n, j) ==> Honest(c, Record(c, w, off, n), written + Interval(off, n))
  {
    hide Sum, Start, FirstWritable, Record, Short;
    forall i | 0 <= i < |c|
      ensures var x, all := Record(c, w, off, n)[i], written + Interval(off, n);
              if Short(c, w, off, n, i) then x == U32_MAX
              else x <= c[i].length && forall p :: Start(c, i) <= p < Start(c, i) + x ==> p in all
    {
      MarkHonest(c, w, written, off, n, i);
    }
  }

  lemma {:induction false} LowerHonest(c: seq<Desc>, w: seq<nat>, written: set<nat>, k: nat)
    requires Proper(c) && Honest(c, w, written) && k <= |c|
    ensures Start(c, k) + Lower(c, w, k) <= Sum(c)
    ensures forall p :: Start(c, k) <= p < Start(c, k) + Lower(c, w, k) ==> p in written
    decreases |c| - k
  {
    StartMonotone(c, k, |c|);
    if k < |c| {
      StartNext(c, k);
      StartMonotone(c, k + 1, |c|);
      LowerHonest(c, w, written, k + 1);
    }
  }

  /** A report made from honest prefixes is a lower bound. */
  lemma ReportLowerBound(c: seq<Desc>, w: seq<nat>, written: set<nat>)
    requires Proper(c) && Honest(c, w, written)
    ensures LowerBound(c, Reported(c, w), written)
  {
    hide Sum, Start, FirstWritable, Honest, Lower;
    LowerHonest(c, w, written, FirstWritable(c));
  }

  /** Every descriptor from k up to j is recorded as written in full. */
  ghost predicate Full(c: seq<Desc>, w: seq<nat>, k: nat, j: nat)
    requires |w| == |c|
  {
    forall i :: k <= i < j && i < |c| ==> w[i] == c[i].length
  }

  /** What is recorded for j reaches the sum only if everything before it is full. */
  lemma {:induction false} LowerUpTo(c: seq<Desc>, w: seq<nat>, k: nat, j: nat)
    requires |w| == |c| && k <= j < |c|
    ensures Full(c, w, k, j) ==>
              Start(c, k) <= Start(c, j) && Lower(c, w, k) == Start(c, j) - Start(c, k) + Lower(c, w, j)
    ensures !Full(c, w, k, j) ==> Lower(c, w, k) == Lower(c, Without(w, j), k)
    decreases j - k
  {
    hide Sum, Start;
    if k < j {
      StartNext(c, k);
      LowerUpTo(c, w, k + 1, j);
      assert Full(c, w, k, j) <==> w[k] == c[k].length && Full(c, w, k + 1, j);
    }
  }

  /** The report after a write that falls short in descriptor j: 2^32 - 1 if j is the first
      writable one; one byte less than all before it, if those are full; and otherwise, as when
      j is not writable, what it would be without j. */
  lemma ShortReports(c: seq<Desc>, w: seq<nat>, written: set<nat>, off: nat, n: nat, j: nat)
    requires |w| == |c| && Proper(c) && Honest(c, w, written) && Fits(c, off, n) && Short(c, w, off, n, j)
    ensures var f, w' := FirstWritable(c), Record(c, w, off, n);
            Reported(c, w') == if j == f then U32_MAX
                               else if f < j && Full(c, w', f, j) then Start(c, j) - FirstByte(c) - 1
                               else Reported(c, Without(w', j))
    ensures FirstWritable(c) < j ==> FirstByte(c) < Start(c, j)
  {
    hide Sum, Start, FirstWritable, Record, Honest, Full;
    var f, w' := FirstWritable(c), Record(c, w, off, n);
    MarkHonest(c, w, written, off, n, j);
    LengthFits(c, j);
    if f <= j {
      LowerUpTo(c, w', f, j);
      StartNext(c, f);
      if f < j { StartMonotone(c, f + 1, j); }
      LowerAtShort(c, w', j);
    } else {
      LowerPast(c, w', j, f);
    }
  }

  lemma LowerAtShort(c: seq<Desc>, w: seq<nat>, j: nat)
    requires Proper(c) && |w| == |c| && j < |c| && w[j] == U32_MAX
    ensures Lower(c, w, j) == U32_MAX
    ensures FirstByte(c) < Start(c, j) ==> Start(c, j) - FirstByte(c) < U32_MAX
  {
    hide Start, Sum, FirstWritable;
    StartNext(c, j);
    StartMonotone(c, j + 1, |c|);
    if w[j] == c[j].length && j + 1 < |c| {
      StartNext(c, j + 1);
      StartMonotone(c, j + 2, |c|);
    }
  }

  lemma {:induction false} LowerPast(c: seq<Desc>, w: seq<nat>, j: nat, k: nat)
    requires |w| == |c| && j < k
    ensures Lower(c, w, k) == Lower(c, Without(w, j), k)
    decreases |c| - k
  {
    if k < |c| { LowerPast(c, w, j, k + 1); }
  }

  /** The chain is writable throughout, 2^32 - 1 bytes long, and written. */
  ghost predicate AllWritten(c: seq<Desc>, written: set<nat>) {
    FirstByte(c) == 0 && Sum(c) == U32_MAX && forall p :: 0 <= p < Sum(c) ==> p in written
  }

  lemma AllIsBound(c: seq<Desc>, written: set<nat>)
    requires Proper(c)
    ensures AllWritten(c, written) <==> LowerBound(c, U32_MAX, written)
  {
  }

  /** Exactly when the report is a lower bound, for any honest record and any write: unless the
      write falls short in the first writable descriptor. The one way out of that is a chain of
      2^32 - 1 writable bytes, all of them written, as that number is then the report. */
  lemma LowerBoundExactly(c: seq<Desc>, w: seq<nat>, written: set<nat>, off: nat, n: nat)
    requires |w| == |c| && Proper(c) && Honest(c, w, written) && Fits(c, off, n)
    ensures var all := written + Interval(off, n);
            LowerBound(c, Reported(c, Record(c, w, off, n)), all) <==>
            !Short(c, w, off, n, FirstWritable(c)) || AllWritten(c, all)
  {
    AllIsBound(c, written + Interval(off, n));
    hide AllWritten, Sum, Start, FirstWritable, Record, Honest, LowerBound, Short, Lower, Reported, Full;
    var f, w', all := FirstWritable(c), Record(c, w, off, n), written + Interval(off, n);
    if j :| 0 <= j < |c| && Short(c, w, off, n, j) {
      OnlyShort(c, w, written, off, n, j);
      RecordHonest(c, w, written, off, n, j);
      ShortReports(c, w, written, off, n, j);
      ReportLowerBound(c, Without(w', j), all);
      if j != f && f < j && Full(c, w', f, j) { FullLowerBound(c, w', all, f, j); }
    } else {
      NotShort(c, w, off, n);
      RecordHonest(c, w, written, off, n, |c|);
      ReportLowerBound(c, w', all);
    }
  }

  lemma NotShort(c: seq<Desc>, w: seq<nat>, off: nat, n: nat)
    requires |w| == |c| && forall j :: 0 <= j < |c| ==> !Short(c, w, off, n, j)
    ensures forall j: nat :: !Short(c, w, off, n, j)
  {
  }

  lemma OnlyShort(c: seq<Desc>, w: seq<nat>, written: set<nat>, off: nat, n: nat, j: nat)
    requires |w| == |c| && Proper(c) && Honest(c, w, written) && Short(c, w, off, n, j)
    ensures j < |c| && forall i: nat :: i != j ==> !Short(c, w, off, n, i)
  {
    hide Honest, Short, Proper;
    forall i: nat | i != j
      ensures !Short(c, w, off, n, i)
    {
      if Short(c, w, off, n, i) { ShortUnique(c, w, written, off, n, i, j); }
    }
    ShortIn(c, w, off, n, j);
  }

  lemma ShortIn(c: seq<Desc>, w: seq<nat>, off: nat, n: nat, j: nat)
    requires |w| == |c| && Short(c, w, off, n, j)
    ensures j < |c|
  {
  }

  /** All but one of the bytes before j, which are full, are written. */
  lemma FullLowerBound(c: seq<Desc>, w: seq<nat>, written: set<nat>, f: nat, j: nat)
    requires Proper(c) && f == FirstWritable(c) < j < |c| == |w| && Full(c, w, f, j)
    requires Honest(c, Without(w, j), written)
    ensures FirstByte(c) < Start(c, j) && LowerBound(c, Start(c, j) - FirstByte(c) - 1, written)
  {
    hide Sum, Start, FirstWritable, Honest;
    StartNext(c, f);
    StartMonotone(c, f + 1, j);
    StartMonotone(c, j, |c|);
    var v := Without(w, j);
    LowerUpTo(c, v, f, j);
    LowerHonest(c, v, written, f);
  }

  /** Eight writable bytes, all written, then the first four again: reported as 2^32 - 1. */
  lemma ShortRewriteMisreports(address: nat)
    ensures var c := [Desc(address, 8, 2, 1)];
            && Proper(c) && Fits(c, 0, 8) && Fits(c, 0, 4) && Reported(c, Record(c, [0], 0, 8)) == 8
            && Reported(c, Record(c, Record(c, [0], 0, 8), 0, 4)) == U32_MAX
            && !LowerBound(c, U32_MAX, Interval(0, 8))
  {
    var c := [Desc(address, 8, 2, 1)];
    assert c[..0] == [] && c[..1] == c;
    assert Sum(c) == 8 && FirstWritable(c) == 0;
    RecordAt(c, [0], 0, 8, 0);
    assert Record(c, [0], 0, 8) == [8];
    RecordAt(c, [8], 0, 4, 0);
    assert Lower(c, [8], 0) == 8;
    assert Lower(c, [U32_MAX], 0) == U32_MAX;
  }

  // ---------- split writes ----------

  /** What a descriptor's record becomes when its bytes from .. to are covered by several writes
      one behind the other; split: one of them ended before `to`, short of the prefix. */
  function Marked(prefix: nat, from: nat, to: nat, split: bool): nat {
    if to <= from || from > prefix then prefix
    else if to == U32_MAX || split || to < prefix then U32_MAX
    else to
  }

  /** One of the writes but the last that touches descriptor j ends inside what is covered of it,
      short of what was recorded. */
  ghost predicate SplitShort(c: seq<Desc>, w: seq<nat>, off: nat, parts: seq<nat>, j: nat)
    requires |w| == |c| && j < |c|
  {
    exists i :: 0 <= i <= |parts| && EndsShort(c, w, off, parts, j, i)
  }

  ghost predicate EndsShort(c: seq<Desc>, w: seq<nat>, off: nat, parts: seq<nat>, j: nat, i: nat)
    requires |w| == |c| && j < |c| && i <= |parts|
  {
    && Local(c, j, off) < Local(c, j, off + Total(parts[..i])) < Local(c, j, off + Total(parts))
    && Local(c, j, off + Total(parts[..i])) < w[j]
  }

  lemma MarkedStep(prefix: nat, from: nat, mid: nat, to: nat, split: bool)
    requires from <= mid < to <= U32_MAX && (split ==> from < mid)
    ensures Mark(Marked(prefix, from, mid, split), mid, to) == Marked(prefix, from, to, split || from < mid < prefix)
  {
  }

  lemma MarkWhole(prefix: nat, from: nat, to: nat)
    requires to <= U32_MAX
    ensures Mark(prefix, from, to) == Marked(prefix, from, to, false)
  {
  }

  lemma {:induction false} TotalPrefix(parts: seq<nat>, i: nat)
    requires i <= |parts|
    ensures Total(parts[..i]) <= Total(parts)
  {
    if i < |parts| {
      var init := parts[..|parts| - 1];
      TotalPrefix(init, i);
      assert init[..i] == parts[..i];
    } else {
      assert parts[..i] == parts;
    }
  }

  lemma PrefixOf(parts: seq<nat>, i: nat)
    requires i < |parts|
    ensures parts[..|parts| - 1][..i] == parts[..i] && Total(parts[..i]) <= Total(parts[..|parts| - 1])
  {
    var init := parts[..|parts| - 1];
    assert init[..i] == parts[..i];
    TotalPrefix(init, i);
  }

  /** One more write: what it splits of descriptor j. */
  lemma SplitStep(c: seq<Desc>, w: seq<nat>, off: nat, parts: seq<nat>, j: nat)
    requires |w| == |c| && j < |c| && parts != []
    ensures var init := parts[..|parts| - 1];
            var from, mid, to := Local(c, j, off), Local(c, j, off + Total(init)), Local(c, j, off + Total(parts));
            && from <= mid <= to && (SplitShort(c, w, off, init, j) ==> from < mid)
            && (SplitShort(c, w, off, parts, j) <==>
                  SplitShort(c, w, off, init, j) || (from < mid < to && mid < w[j]))
  {
    hide Start, Total, SplitShort, EndsShort;
    TotalLast(parts);
    if SplitShort(c, w, off, parts, j) { SplitFrom(c, w, off, parts, j); }
    SplitInto(c, w, off, parts, j);
  }

  lemma SplitFrom(c: seq<Desc>, w: seq<nat>, off: nat, parts: seq<nat>, j: nat)
    requires |w| == |c| && j < |c| && parts != []
    requires SplitShort(c, w, off, parts, j)
    ensures var init := parts[..|parts| - 1];
            var from, mid, to := Local(c, j, off), Local(c, j, off + Total(init)), Local(c, j, off + Total(parts));
            SplitShort(c, w, off, init, j) || (from < mid < to && mid < w[j])
  {
    hide Start, Total;
    var n := |parts| - 1;
    var init := parts[..n];
    assert parts[..n + 1] == parts;
    var i: nat :| i <= n + 1 && EndsShort(c, w, off, parts, j, i);
    if i <= n {
      PrefixOf(parts, i);
      assert init[..n] == init;
      if Local(c, j, off + Total(init[..i])) < Local(c, j, off + Total(init)) {
        assert EndsShort(c, w, off, init, j, i);
      }
    }
  }

  lemma SplitInto(c: seq<Desc>, w: seq<nat>, off: nat, parts: seq<nat>, j: nat)
    requires |w| == |c| && j < |c| && parts != []
    ensures var init := parts[..|parts| - 1];
            var from, mid, to := Local(c, j, off), Local(c, j, off + Total(init)), Local(c, j, off + Total(parts));
            && (SplitShort(c, w, off, init, j) ==> from < mid && SplitShort(c, w, off, parts, j))
            && (from < mid < to && mid < w[j] ==> SplitShort(c, w, off, parts, j))
  {
    hide Start, Total;
    var n := |parts| - 1;
    var init := parts[..n];
    TotalLast(parts);
    if i: nat :| i <= n && EndsShort(c, w, off, init, j, i) {
      PrefixOf(parts, i);
      assert EndsShort(c, w, off, parts, j, i);
    }
    var from, mid, to := Local(c, j, off), Local(c, j, off + Total(init)), Local(c, j, off + Total(parts));
    if from < mid < to && mid < w[j] { assert EndsShort(c, w, off, parts, j, n); }
  }

  lemma TotalLast(parts: seq<nat>)
    requires parts != []
    ensures Total(parts) == Total(parts[..|parts| - 1]) + parts[|parts| - 1]
  {
  }

  /** The record of descriptor j after a write in parts. */
  lemma {:induction false} PartsAt(c: seq<Desc>, w: seq<nat>, off: nat, parts: seq<nat>, j: nat)
    requires Proper(c) && |w| == |c| && Fits(c, off, Total(parts)) && j < |c|
    ensures RecordParts(c, w, off, parts)[j] ==
            Marked(w[j], Local(c, j, off), Local(c, j, off + Total(parts)), SplitShort(c, w, off, parts, j))
  {
    hide Start, Sum, Record, SplitShort, FirstWritable;
    if parts != [] {
      var init := parts[..|parts| - 1];
      TotalLast(parts);
      PartsAt(c, w, off, init, j);
      RecordAt(c, RecordParts(c, w, off, init), off + Total(init), parts[|parts| - 1], j);
      SplitStep(c, w, off, parts, j);
      LengthFits(c, j);
      var from, mid, to := Local(c, j, off), Local(c, j, off + Total(init)), Local(c, j, off + Total(parts));
      if mid < to { MarkedStep(w[j], from, mid, to, SplitShort(c, w, off, init, j)); }
    }
  }

  /** The record after a write in parts is that of the whole write exactly when in no descriptor a
      part ended short of what had been recorded there that the whole write covers. */
  lemma SplitExactly(c: seq<Desc>, w: seq<nat>, off: nat, parts: seq<nat>)
    requires Proper(c) && |w| == |c| && Fits(c, off, Total(parts))
    ensures RecordParts(c, w, off, parts) == Record(c, w, off, Total(parts)) <==>
            forall j :: 0 <= j < |c| && SplitShort(c, w, off, parts, j) ==>
                          !(w[j] <= Local(c, j, off + Total(parts)) < U32_MAX)
  {
    hide Start, Sum, Record, SplitShort, FirstWritable, Local, RecordParts;
    var split, whole := RecordParts(c, w, off, parts), Record(c, w, off, Total(parts));
    forall j | 0 <= j < |c|
      ensures split[j] == whole[j] <==>
              (SplitShort(c, w, off, parts, j) ==> !(w[j] <= Local(c, j, off + Total(parts)) < U32_MAX))
    {
      PartsAt(c, w, off, parts, j);
      RecordAt(c, w, off, Total(parts), j);
      LocalBound(c, j, off + Total(parts));
      MarkWhole(w[j], Local(c, j, off), Local(c, j, off + Total(parts)));
      if SplitShort(c, w, off, parts, j) { SplitReaches(c, w, off, parts, j); }
    }
  }

  lemma LocalBound(c: seq<Desc>, j: nat, x: nat)
    requires Proper(c) && j < |c|
    ensures Local(c, j, x) <= U32_MAX
  {
    LengthFits(c, j);
  }

  lemma SplitReaches(c: seq<Desc>, w: seq<nat>, off: nat, parts: seq<nat>, j: nat)
    requires |w| == |c| && j < |c| && SplitShort(c, w, off, parts, j)
    ensures Local(c, j, off) < Local(c, j, off + Total(parts)) && Local(c, j, off) <= w[j]
  {
  }
}
