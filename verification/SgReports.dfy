/** What a buffer reports after any writes at all, from the walk to the return of the chain. */
module SgReports {
  import opened MachineWords
  import opened SgChain
  import opened SgWritten

  /** A write of n bytes at payload offset off. */
  datatype Write = Write(off: nat, n: nat)

  ghost predicate Within(c: seq<Desc>, ws: seq<Write>) {
    forall i :: 0 <= i < |ws| ==> Fits(c, ws[i].off, ws[i].n)
  }

  /** The record after these writes to a chain just walked. */
  ghost function After(c: seq<Desc>, ws: seq<Write>): (w: seq<nat>)
    requires Proper(c) && Within(c, ws)
    ensures |w| == |c|
  {
    if ws == [] then seq(|c|, _ => 0)
    else
      var last := ws[|ws| - 1];
      Record(c, After(c, ws[..|ws| - 1]), last.off, last.n)
  }

  /** The payload bytes written. */
  function Covered(ws: seq<Write>): set<nat> {
    if ws == [] then {} else Covered(ws[..|ws| - 1]) + Interval(ws[|ws| - 1].off, ws[|ws| - 1].n)
  }

  /** One of the writes ended inside descriptor j, short of what was recorded there by then. */
  ghost predicate FellShort(c: seq<Desc>, ws: seq<Write>, j: nat)
    requires Proper(c) && Within(c, ws)
  {
    exists i :: 0 <= i < |ws| && Within(c, ws[..i]) && Short(c, After(c, ws[..i]), ws[i].off, ws[i].n, j)
  }

  lemma FellShortNext(c: seq<Desc>, ws: seq<Write>, j: nat)
    requires Proper(c) && Within(c, ws) && ws != []
    ensures var init, last := ws[..|ws| - 1], ws[|ws| - 1];
            && Within(c, init)
            && (FellShort(c, ws, j) <==> FellShort(c, init, j) || Short(c, After(c, init), last.off, last.n, j))
  {
    hide Short, After, Fits;
    var n := |ws| - 1;
    var init := ws[..n];
    if FellShort(c, ws, j) {
      var i: nat :| i < |ws| && Within(c, ws[..i]) && Short(c, After(c, ws[..i]), ws[i].off, ws[i].n, j);
      if i < n { assert init[..i] == ws[..i]; }
    }
    if FellShort(c, init, j) {
      var i: nat :| i < n && Within(c, init[..i]) && Short(c, After(c, init[..i]), init[i].off, init[i].n, j);
      assert init[..i] == ws[..i];
    }
  }

  /** What is recorded for descriptor k exists and has been written. */
  ghost predicate HonestAt(c: seq<Desc>, w: seq<nat>, written: set<nat>, k: nat)
    requires k < |c| == |w|
  {
    w[k] <= c[k].length && forall p :: Start(c, k) <= p < Start(c, k) + w[k] ==> p in written
  }

  /** Every descriptor's record is honest or 2^32 - 1. */
  ghost predicate Sound(c: seq<Desc>, w: seq<nat>, written: set<nat>) {
    |w| == |c| && forall k :: 0 <= k < |c| ==> w[k] == U32_MAX || HonestAt(c, w, written, k)
  }

  /** A record of 2^32 - 1 stays; an honest one stays honest unless the write falls short of it. */
  lemma OneWrite(c: seq<Desc>, w: seq<nat>, written: set<nat>, off: nat, n: nat, k: nat)
    requires Proper(c) && |w| == |c| && Fits(c, off, n) && k < |c|
    ensures w[k] == U32_MAX || Short(c, w, off, n, k) ==> Record(c, w, off, n)[k] == U32_MAX
    ensures HonestAt(c, w, written, k) && !Short(c, w, off, n, k) ==>
              HonestAt(c, Record(c, w, off, n), written + Interval(off, n), k)
  {
    hide Sum, Start, FirstWritable, Record;
    RecordAt(c, w, off, n, k);
    LengthFits(c, k);
  }

  lemma {:induction false} AfterSound(c: seq<Desc>, ws: seq<Write>)
    requires Proper(c) && Within(c, ws)
    ensures Sound(c, After(c, ws), Covered(ws))
  {
    hide Proper, Start, Record, Short, Fits;
    if ws != [] {
      var init, last := ws[..|ws| - 1], ws[|ws| - 1];
      assert Within(c, init);
      AfterSound(c, init);
      forall k | 0 <= k < |c|
        ensures After(c, ws)[k] == U32_MAX || HonestAt(c, After(c, ws), Covered(ws), k)
      {
        OneWrite(c, After(c, init), Covered(init), last.off, last.n, k);
      }
    }
  }

  /** The record of descriptor k tells whether a write fell short there. */
  lemma {:induction false} AfterAt(c: seq<Desc>, ws: seq<Write>, k: nat)
    requires Proper(c) && Within(c, ws) && k < |c|
    ensures if FellShort(c, ws, k) then After(c, ws)[k] == U32_MAX else HonestAt(c, After(c, ws), Covered(ws), k)
  {
    hide Proper, Start, Record, Short, Fits, FellShort;
    if ws == [] {
      NoWrites(c, k);
    } else {
      var init, last := ws[..|ws| - 1], ws[|ws| - 1];
      FellShortNext(c, ws, k);
      AfterAt(c, init, k);
      OneWrite(c, After(c, init), Covered(init), last.off, last.n, k);
    }
  }

  lemma NoWrites(c: seq<Desc>, k: nat)
    requires Proper(c) && k < |c|
    ensures !FellShort(c, [], k) && HonestAt(c, After(c, []), Covered([]), k)
  {
  }

  /** The sum from a descriptor that is not spoiled: a bound, or one that runs into a spoiled
      descriptor behind `full` written bytes. */
  ghost predicate SumFrom(c: seq<Desc>, w: seq<nat>, written: set<nat>, k: nat, full: nat)
    requires k <= |c| == |w|
  {
    && Start(c, k) + full <= Sum(c) && (forall p :: Start(c, k) <= p < Start(c, k) + full ==> p in written)
    && (Lower(c, w, k) == full || (full > 0 && Lower(c, w, k) == full + U32_MAX))
  }

  lemma {:induction false} LowerSound(c: seq<Desc>, w: seq<nat>, written: set<nat>, k: nat) returns (full: nat)
    requires Proper(c) && Sound(c, w, written) && k <= |c| && (k < |c| ==> HonestAt(c, w, written, k))
    ensures SumFrom(c, w, written, k, full)
    decreases |c| - k
  {
    hide Sum, Start;
    StartEnds(c);
    if k == |c| {
      full := 0;
    } else {
      StartNext(c, k);
      StartMonotone(c, k + 1, |c|);
      full := w[k];
      if w[k] == c[k].length {
        if k + 1 < |c| && !HonestAt(c, w, written, k + 1) {
          LowerAtShort(c, w, k + 1);
        } else {
          var rest := LowerSound(c, w, written, k + 1);
          full := w[k] + rest;
        }
      }
    }
  }

  lemma SumReports(c: seq<Desc>, w: seq<nat>, written: set<nat>, full: nat)
    requires Proper(c) && |w| == |c| && SumFrom(c, w, written, FirstWritable(c), full)
    ensures LowerBound(c, Reported(c, w), written)
  {
    hide Sum, Start, FirstWritable, Lower;
  }

  lemma SpoiledReport(c: seq<Desc>, w: seq<nat>)
    requires Proper(c) && |w| == |c| && FirstWritable(c) < |c| && w[FirstWritable(c)] == U32_MAX
    ensures Reported(c, w) == U32_MAX
  {
    hide Start, Sum, FirstWritable;
    LowerAtShort(c, w, FirstWritable(c));
  }

  /** Exactly when the report is a lower bound, whatever has been written in whatever order since the
      walk: if no write ever ended short of what was recorded for the first writable descriptor. The
      one way out of that is a chain of 2^32 - 1 writable bytes, all of them written, as that number
      is then the report. */
  lemma ReportsExactly(c: seq<Desc>, ws: seq<Write>)
    requires Proper(c) && Within(c, ws)
    ensures LowerBound(c, Reported(c, After(c, ws)), Covered(ws)) <==>
            !FellShort(c, ws, FirstWritable(c)) || AllWritten(c, Covered(ws))
  {
    AllIsBound(c, Covered(ws));
    hide Proper, Start, Sum, FirstWritable, FirstByte, After, Covered, LowerBound, AllWritten, Sound, HonestAt;
    hide Lower, Reported, FellShort, Fits, Within, SumFrom;
    var f, w, written := FirstWritable(c), After(c, ws), Covered(ws);
    AfterSound(c, ws);
    if f < |c| { AfterAt(c, ws, f); } else { NeverPast(c, ws, f); }
    if f < |c| && FellShort(c, ws, f) {
      SpoiledReport(c, w);
    } else {
      var full := LowerSound(c, w, written, f);
      SumReports(c, w, written, full);
    }
  }

  lemma NeverPast(c: seq<Desc>, ws: seq<Write>, j: nat)
    requires Proper(c) && Within(c, ws) && j >= |c|
    ensures !FellShort(c, ws, j)
  {
  }
}
