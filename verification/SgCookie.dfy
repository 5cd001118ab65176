/** The cookies of asynchronous copies (`AsyncCopyCookie`): each buffer has one, and a source that
    serves several destinations at once counts them. */
module SgCookie {
  import opened MachineWords
  import opened Counting
  import opened SgPayload

  const NO_SIZE: nat := U64 - 1

  datatype Option<T> = None | Some(value: T)

  /** The fields of a cookie, with its three pointers: source is `_cookie_src`. P stands for
      pointers to cookies, L for pointers to linear buffers. */
  datatype Cookie<P, L> = Cookie(
    started: bool, otherIsSg: bool, isSrc: bool, pending: nat, size: nat, dOff: nat, sOff: nat,
    source: Option<P>, linearSrc: Option<L>, linearDst: Option<L>)

  /** What `reset` leaves. */
  function Unused<P, L>(): Cookie<P, L> {
    Cookie(false, false, false, 0, NO_SIZE, NO_SIZE, NO_SIZE, None, None, None)
  }

  // ---------- what a cookie says ----------

  predicate IsDstFromSg<P, L>(c: Cookie<P, L>) { c.started && !c.isSrc && c.otherIsSg }
  predicate IsDstFromLinear<P, L>(c: Cookie<P, L>) { c.started && !c.isSrc && !c.otherIsSg && c.linearSrc.Some? }
  predicate IsDst<P, L>(c: Cookie<P, L>) { IsDstFromSg(c) || IsDstFromLinear(c) }
  predicate IsSrcToSg<P, L>(c: Cookie<P, L>) { c.started && c.isSrc && c.otherIsSg && c.pending > 0 }

  predicate IsSrcToLinear<P, L>(c: Cookie<P, L>) {
    c.started && c.isSrc && !c.otherIsSg && c.linearDst.Some? && c.pending > 0
  }

  // ---------- the operations of one cookie ----------

  function InitStatus<P, L>(c: Cookie<P, L>, isSrc: bool, otherIsSg: bool): Cookie<P, L> {
    c.(started := true, otherIsSg := otherIsSg, isSrc := isSrc,
       pending := if isSrc then if otherIsSg then c.pending + 1 else 1 else 0)
  }

  function Request<P, L>(c: Cookie<P, L>, size: nat, dOff: nat, sOff: nat): Cookie<P, L> {
    c.(size := size, dOff := dOff, sOff := sOff)
  }

  function SgDst<P, L>(c: Cookie<P, L>, source: P, size: nat, dOff: nat, sOff: nat): Cookie<P, L> {
    Request(InitStatus(c, false, true), size, dOff, sOff).(source := Some(source))
  }

  function SgSrc<P, L>(c: Cookie<P, L>): Cookie<P, L> { InitStatus(c, true, true) }

  function LinearOut<P, L>(c: Cookie<P, L>, dst: L, size: nat, sOff: nat): Cookie<P, L> {
    Request(InitStatus(c, true, false), size, 0, sOff).(linearDst := Some(dst))
  }

  function LinearIn<P, L>(c: Cookie<P, L>, src: L, size: nat, dOff: nat): Cookie<P, L> {
    Request(InitStatus(c, false, false), size, dOff, 0).(linearSrc := Some(src))
  }

  /** `conclude_src`, where its assertions hold. */
  function ConcludedSrc<P, L>(c: Cookie<P, L>): Cookie<P, L>
    requires c.started && c.isSrc && c.pending > 0
  {
    if c.pending == 1 then Unused() else c.(pending := c.pending - 1)
  }

  /** `record_bytes_copied`, where its assertions hold. */
  function Advanced<P, L>(c: Cookie<P, L>, copied: nat): Cookie<P, L>
    requires c.started && copied <= c.size
  {
    c.(size := c.size - copied, dOff := c.dOff + copied, sOff := c.sOff + copied)
  }

  /** A start undone: a source that takes one more destination and loses it is as before. */
  lemma StartUndone<P, L>(c: Cookie<P, L>)
    requires c == Unused() || IsSrcToSg(c)
    ensures SgSrc(c).started && SgSrc(c).isSrc && SgSrc(c).pending > 0 && ConcludedSrc(SgSrc(c)) == c
  {
  }

  /** The object, with its pointers. */
  class AsyncCopyCookie {
    var started: bool
    var otherIsSg: bool
    var isSrc: bool
    var pending: nat
    var size: nat
    var dOff: nat
    var sOff: nat
    var source: AsyncCopyCookie?
    var linearSrc: array?<Byte>
    var linearDst: array?<Byte>

    constructor ()
      ensures Value() == Unused()
    {
      started, otherIsSg, isSrc, pending := false, false, false, 0;
      size, dOff, sOff := NO_SIZE, NO_SIZE, NO_SIZE;
      source, linearSrc, linearDst := null, null, null;
    }

    function Value(): Cookie<AsyncCopyCookie, array<Byte>>
      reads this
    {
      Cookie(started, otherIsSg, isSrc, pending, size, dOff, sOff,
             if source == null then None else var p: AsyncCopyCookie := source; Some(p),
             if linearSrc == null then None else var p: array<Byte> := linearSrc; Some(p),
             if linearDst == null then None else var p: array<Byte> := linearDst; Some(p))
    }

    /** `is_dst_from_matching_cookie`. */
    predicate IsDstOf(src: AsyncCopyCookie)
      reads this, src
    {
      IsDstFromSg(Value()) && IsSrcToSg(src.Value()) && source == src
    }

    method Init(asSrc: bool, otherSg: bool)
      modifies this
      ensures Value() == InitStatus(old(Value()), asSrc, otherSg)
      ensures source == old(source) && linearSrc == old(linearSrc) && linearDst == old(linearDst)
    {
      started, otherIsSg, isSrc := true, otherSg, asSrc;
      if asSrc {
        if otherSg { pending := pending + 1; } else { pending := 1; }
      } else {
        pending := 0;
      }
    }

    method InitSgDst(src: AsyncCopyCookie, size: nat, dOff: nat, sOff: nat)
      modifies this
      ensures Value() == SgDst(old(Value()), src, size, dOff, sOff)
    {
      Init(false, true);
      this.size, this.dOff, this.sOff := size, dOff, sOff;
      source := src;
    }

    method InitLinearOut(dst: array<Byte>, size: nat, sOff: nat)
      modifies this
      ensures Value() == LinearOut(old(Value()), dst, size, sOff)
    {
      Init(true, false);
      this.size, this.dOff, this.sOff := size, 0, sOff;
      linearDst := dst;
    }

    method InitLinearIn(src: array<Byte>, size: nat, dOff: nat)
      modifies this
      ensures Value() == LinearIn(old(Value()), src, size, dOff)
    {
      Init(false, false);
      this.size, this.dOff, this.sOff := size, dOff, 0;
      linearSrc := src;
    }

    method RecordBytes(copied: nat)
      requires started && copied <= size
      modifies this
      ensures Value() == Advanced(old(Value()), copied)
      ensures source == old(source) && linearSrc == old(linearSrc) && linearDst == old(linearDst)
    {
      size := size - copied;
      dOff := dOff + copied;
      sOff := sOff + copied;
    }

    method ConcludeDst()
      requires started && !isSrc
      modifies this
      ensures Value() == Unused()
    {
      Reset();
    }

    method ConcludeSrc()
      requires started && isSrc && pending > 0
      modifies this
      ensures Value() == ConcludedSrc(old(Value()))
    {
      pending := pending - 1;
      if pending == 0 { Reset(); }
    }

    method Reset()
      modifies this
      ensures Value() == Unused()
    {
      started, otherIsSg, isSrc, pending := false, false, false, 0;
      size, dOff, sOff := NO_SIZE, NO_SIZE, NO_SIZE;
      source, linearSrc, linearDst := null, null, null;
    }
  }

  // ---------- operations on the cookies of all buffers ----------

  /** Cookies by the number of their buffer. */
  type Table = seq<Cookie<nat, nat>>

  /** What a try_end call came to: AGAIN, having moved some of what was asked, or done for good. */
  datatype End = More(copied: nat) | Done

  datatype Op =
      StartSg(s: nat, d: nat, size: nat, dOff: nat, sOff: nat)
    | EndSg(s: nat, d: nat, end: End)
    | StartToLinear(s: nat, dst: nat, size: nat, sOff: nat)
    | EndToLinear(s: nat, end: End)
    | StartFromLinear(d: nat, src: nat, size: nat, dOff: nat)
    | EndFromLinear(d: nat, end: End)

  /** A call that fails an assertion ends the run. */
  datatype Result = Refused | Went(cs: Table) | Asserts

  /** `is_src_to_matching_sg`: d's cookie is that of a copy from s. */
  predicate Matches(cs: Table, s: nat, d: nat)
    requires s < |cs| && d < |cs|
  {
    IsDstFromSg(cs[d]) && IsSrcToSg(cs[s]) && cs[d].source == Some(s)
  }

  function StartBoth(cs: Table, s: nat, d: nat, size: nat, dOff: nat, sOff: nat): Table
    requires s < |cs| && d < |cs|
  {
    var c1 := cs[s := SgSrc(cs[s])];
    c1[d := SgDst(c1[d], s, size, dOff, sOff)]
  }

  function ConcludeOn(cs: Table, s: nat): Result
    requires s < |cs|
  {
    if cs[s].started && cs[s].isSrc && cs[s].pending > 0 then Went(cs[s := ConcludedSrc(cs[s])]) else Asserts
  }

  function AdvanceOn(cs: Table, i: nat, copied: nat): Result
    requires i < |cs|
  {
    if cs[i].started && copied <= cs[i].size then Went(cs[i := Advanced(cs[i], copied)]) else Asserts
  }

  predicate InRange(cs: Table, op: Op) {
    match op
    case StartSg(s, d, _, _, _) => s < |cs| && d < |cs|
    case EndSg(s, d, _) => s < |cs| && d < |cs|
    case StartToLinear(s, _, _, _) => s < |cs|
    case EndToLinear(s, _) => s < |cs|
    case StartFromLinear(d, _, _, _) => d < |cs|
    case EndFromLinear(d, _) => d < |cs|
  }

  function Do(cs: Table, op: Op): Result
    requires InRange(cs, op)
  {
    match op
    case StartSg(s, d, size, dOff, sOff) =>
      if IsDst(cs[s]) || cs[d].started then Refused else Went(StartBoth(cs, s, d, size, dOff, sOff))
    case EndSg(s, d, end) =>
      if !Matches(cs, s, d) then Refused
      else if end.More? then AdvanceOn(cs, d, end.copied)
      else ConcludeOn(cs[d := Unused()], s)
    case StartToLinear(s, dst, size, sOff) =>
      if IsDst(cs[s]) then Refused else Went(cs[s := LinearOut(cs[s], dst, size, sOff)])
    case EndToLinear(s, end) =>
      if !IsSrcToLinear(cs[s]) then Refused
      else if end.More? then AdvanceOn(cs, s, end.copied)
      else ConcludeOn(cs, s)
    case StartFromLinear(d, src, size, dOff) =>
      if IsDst(cs[d]) then Refused else Went(cs[d := LinearIn(cs[d], src, size, dOff)])
    case EndFromLinear(d, end) =>
      if !IsDstFromLinear(cs[d]) then Refused
      else if end.More? then AdvanceOn(cs, d, end.copied)
      else Went(cs[d := Unused()])
  }

  // ---------- reference counting ----------

  /** Active destinations that point at source s. */
  function Dsts(cs: Table, s: nat): nat { Count(cs, c => PointsAt(c, s)) }

  predicate PointsAt(c: Cookie<nat, nat>, s: nat) { IsDstFromSg(c) && c.source == Some(s) }

  /** n: how many active destinations point at this cookie. At most one pointer is set, the one
      that goes with the kind of copy. */
  predicate Counts(c: Cookie<nat, nat>, n: nat) {
    if !c.started then c == Unused() && n == 0
    else if c.isSrc then
      && c.source.None? && c.linearSrc.None?
      && if c.otherIsSg then c.pending == n > 0 && c.linearDst.None? else c.pending == 1 && n == 0 && c.linearDst.Some?
    else
      && c.pending == 0 && n == 0 && c.linearDst.None?
      && if c.otherIsSg then c.source.Some? && c.linearSrc.None? else c.source.None? && c.linearSrc.Some?
  }

  /** Every source counts exactly its active destinations, and is active only while there are some. */
  ghost predicate Inv(cs: Table) {
    forall s :: 0 <= s < |cs| ==> Counts(cs[s], Dsts(cs, s))
  }

  /** The copies whose request a cookie holds are still there, as they were. */
  predicate Holds(c: Cookie<nat, nat>) { IsDst(c) || IsSrcToLinear(c) }

  ghost predicate Intact(cs: Table, cs': Table) {
    |cs'| == |cs| && forall i :: 0 <= i < |cs| && Holds(cs[i]) ==> cs'[i] == cs[i]
  }

  /** The request a cookie holds. */
  predicate Asked(c: Cookie<nat, nat>, size: nat, dOff: nat, sOff: nat) {
    c.size == size && c.dOff == dOff && c.sOff == sOff
  }

  /** What is left of a request of which some more has been copied; nothing else has changed. */
  predicate AskedLess(c: Cookie<nat, nat>, c': Cookie<nat, nat>, copied: nat) {
    && copied <= c.size && Asked(c', c.size - copied, c.dOff + copied, c.sOff + copied)
    && c' == c.(size := c'.size, dOff := c'.dOff, sOff := c'.sOff)
  }

  /** All cookies but those of i and j are as they were. */
  predicate Others(cs: Table, cs': Table, i: nat, j: nat) {
    |cs'| == |cs| && forall k :: 0 <= k < |cs| && k != i && k != j ==> cs'[k] == cs[k]
  }

  lemma DstsUpdate(cs: Table, i: nat, c: Cookie<nat, nat>, s: nat)
    requires i < |cs|
    ensures Dsts(cs[i := c], s) + One(PointsAt(cs[i], s)) == Dsts(cs, s) + One(PointsAt(c, s))
  {
    CountUpdate(cs, i, c, c => PointsAt(c, s));
    CountPointwise(cs[i := c], c => PointsAt(c, s), cs[i := c], c => PointsAt(c, s));
    CountPointwise(cs, c => PointsAt(c, s), cs, c => PointsAt(c, s));
  }

  /** A change of one cookie that leaves what it points at. */
  lemma SameDsts(cs: Table, i: nat, c: Cookie<nat, nat>)
    requires i < |cs| && forall s: nat :: PointsAt(c, s) == PointsAt(cs[i], s)
    ensures forall s: nat :: Dsts(cs[i := c], s) == Dsts(cs, s)
  {
    forall s: nat
      ensures Dsts(cs[i := c], s) == Dsts(cs, s)
    {
      DstsUpdate(cs, i, c, s);
    }
  }

  // ---------- each operation, exactly ----------

  /** Starting a copy between buffers keeps the counts exactly when it is refused, or the two are
      different and the source has no linear copy under way; and then it disturbs no other copy. */
  lemma StartSgExact(cs: Table, s: nat, d: nat, size: nat, dOff: nat, sOff: nat)
    requires Inv(cs) && s < |cs| && d < |cs|
    ensures var r := Do(cs, StartSg(s, d, size, dOff, sOff));
            && (r.Refused? <==> IsDst(cs[s]) || cs[d].started)
            && !r.Asserts? && (r.Went? ==> (Inv(r.cs) <==> s != d && !IsSrcToLinear(cs[s])))
            && (r.Went? && Inv(r.cs) ==> Intact(cs, r.cs))
            && (r.Went? && Inv(r.cs) ==>
                  Asked(r.cs[d], size, dOff, sOff) && Matches(r.cs, s, d) && Others(cs, r.cs, s, d))
  {
    var r := Do(cs, StartSg(s, d, size, dOff, sOff));
    if r.Went? {
      var c1 := cs[s := SgSrc(cs[s])];
      var c := SgDst(c1[d], s, size, dOff, sOff);
      assert Counts(cs[s], Dsts(cs, s)) && Counts(cs[d], Dsts(cs, d));
      SameDsts(cs, s, SgSrc(cs[s]));
      forall i: nat
        ensures Dsts(r.cs, i) == Dsts(cs, i) + One(i == s)
      {
        DstsUpdate(c1, d, c, i);
      }
      assert !Counts(r.cs[s], Dsts(r.cs, s)) || (s != d && !IsSrcToLinear(cs[s]));
    }
  }

  /** Ending one always keeps them, no assertion fails, and the source is free again exactly when
      no other destination is left. */
  lemma EndSgExact(cs: Table, s: nat, d: nat, end: End)
    requires Inv(cs) && s < |cs| && d < |cs| && (end.More? ==> end.copied <= cs[d].size)
    ensures var r := Do(cs, EndSg(s, d, end));
            && !r.Asserts? && (r.Went? ==> Inv(r.cs))
            && (r.Went? && end.Done? ==> (!r.cs[s].started <==> Dsts(cs, s) == 1) && r.cs[d] == Unused())
            && (r.Went? <==> IsDstFromSg(cs[d]) && cs[d].source == Some(s))
            && (r.Went? ==> Others(cs, r.cs, s, d))
            && (r.Went? && end.More? ==> s != d && r.cs[s] == cs[s] && AskedLess(cs[d], r.cs[d], end.copied))
  {
    var r := Do(cs, EndSg(s, d, end));
    SourceThere(cs, s, d);
    if r.Went? || r.Asserts? {
      assert Counts(cs[s], Dsts(cs, s)) && Counts(cs[d], Dsts(cs, d));
      if end.More? {
        SameDsts(cs, d, Advanced(cs[d], end.copied));
      } else {
        EndSgDone(cs, s, d);
      }
    }
  }

  /** A destination's source is indeed one. */
  lemma SourceThere(cs: Table, s: nat, d: nat)
    requires Inv(cs) && s < |cs| && d < |cs|
    ensures PointsAt(cs[d], s) ==> IsSrcToSg(cs[s]) && s != d
  {
    assert Counts(cs[s], Dsts(cs, s));
    CountBound(cs, c => PointsAt(c, s));
  }

  lemma EndSgDone(cs: Table, s: nat, d: nat)
    requires Inv(cs) && s < |cs| && d < |cs| && Matches(cs, s, d)
    ensures s != d && cs[s].pending == Dsts(cs, s) > 0
    ensures var cs' := cs[d := Unused()][s := ConcludedSrc(cs[s])]; Inv(cs')
  {
    assert Counts(cs[s], Dsts(cs, s)) && Counts(cs[d], Dsts(cs, d));
    var c1 := cs[d := Unused()];
    forall i: nat
      ensures Dsts(c1, i) + One(i == s) == Dsts(cs, i)
    {
      DstsUpdate(cs, d, Unused(), i);
    }
    SameDsts(c1, s, ConcludedSrc(cs[s]));
  }

  /** A copy to a linear buffer keeps the counts exactly when its buffer is no source for other
      buffers; it disturbs no copy exactly when the buffer is not in use at all (or the same request
      is made again): a second linear copy out takes the first one's place. */
  lemma StartToLinearExact(cs: Table, s: nat, dst: nat, size: nat, sOff: nat)
    requires Inv(cs) && s < |cs|
    ensures var r := Do(cs, StartToLinear(s, dst, size, sOff));
            && (r.Refused? <==> IsDst(cs[s])) && !r.Asserts? && (r.Went? ==> (Inv(r.cs) <==> !IsSrcToSg(cs[s])))
            && (r.Went? ==> (Inv(r.cs) && Intact(cs, r.cs) <==> !cs[s].started || r.cs == cs))
            && (r.Went? ==> Asked(r.cs[s], size, 0, sOff) && r.cs[s].linearDst == Some(dst) && Others(cs, r.cs, s, s))
            && (r.Went? && Inv(r.cs) ==> IsSrcToLinear(r.cs[s]))
  {
    var r := Do(cs, StartToLinear(s, dst, size, sOff));
    if r.Went? {
      assert Counts(cs[s], Dsts(cs, s));
      SameDsts(cs, s, r.cs[s]);
      assert Counts(r.cs[s], Dsts(r.cs, s)) <==> !IsSrcToSg(cs[s]);
    }
  }

  /** A copy from a linear buffer keeps the counts and at most one pointer exactly when its buffer
      is not in use at all. */
  lemma StartFromLinearExact(cs: Table, d: nat, src: nat, size: nat, dOff: nat)
    requires Inv(cs) && d < |cs|
    ensures var r := Do(cs, StartFromLinear(d, src, size, dOff));
            && (r.Refused? <==> IsDst(cs[d])) && !r.Asserts? && (r.Went? ==> (Inv(r.cs) <==> !cs[d].started))
            && (r.Went? && Inv(r.cs) ==> Intact(cs, r.cs))
            && (r.Went? ==> Asked(r.cs[d], size, dOff, 0) && r.cs[d].linearSrc == Some(src) && Others(cs, r.cs, d, d))
            && (r.Went? && Inv(r.cs) ==> IsDstFromLinear(r.cs[d]))
  {
    var r := Do(cs, StartFromLinear(d, src, size, dOff));
    if r.Went? {
      assert Counts(cs[d], Dsts(cs, d));
      SameDsts(cs, d, r.cs[d]);
      assert Counts(r.cs[d], Dsts(r.cs, d)) <==> !cs[d].started;
    }
  }

  predicate EndsOne(cs: Table, cs': Table, i: nat, end: End)
    requires i < |cs|
  {
    && Others(cs, cs', i, i)
    && if end.More? then AskedLess(cs[i], cs'[i], end.copied) else cs'[i] == Unused()
  }

  /** Ending a linear copy keeps them: the cookie is free again, or asks for what is left. */
  lemma EndLinearExact(cs: Table, i: nat, end: End)
    requires Inv(cs) && i < |cs| && (end.More? ==> end.copied <= cs[i].size)
    ensures var r, q := Do(cs, EndToLinear(i, end)), Do(cs, EndFromLinear(i, end));
            && !r.Asserts? && (r.Went? ==> Inv(r.cs) && EndsOne(cs, r.cs, i, end))
            && !q.Asserts? && (q.Went? ==> Inv(q.cs) && EndsOne(cs, q.cs, i, end))
            && (r.Went? <==> IsSrcToLinear(cs[i])) && (q.Went? <==> IsDstFromLinear(cs[i]))
  {
    assert Counts(cs[i], Dsts(cs, i));
    if IsSrcToLinear(cs[i]) || IsDstFromLinear(cs[i]) {
      SameDsts(cs, i, Unused());
      if end.More? { SameDsts(cs, i, Advanced(cs[i], end.copied)); }
    }
  }

  // ---------- runs ----------

  /** What the callers have to see to: two different buffers, no linear copy on a buffer in use,
      and no buffer with a linear copy under way as a source for others. */
  predicate Careful(cs: Table, op: Op)
    requires InRange(cs, op)
  {
    match op
    case StartSg(s, d, _, _, _) => s != d && !IsSrcToLinear(cs[s])
    case StartToLinear(s, _, _, _) => IsDst(cs[s]) || !cs[s].started
    case StartFromLinear(d, _, _, _) => IsDst(cs[d]) || !cs[d].started
    case EndSg(_, d, end) => end.More? ==> end.copied <= cs[d].size
    case EndToLinear(s, end) => end.More? ==> end.copied <= cs[s].size
    case EndFromLinear(d, end) => end.More? ==> end.copied <= cs[d].size
  }

  predicate Starts(op: Op) { op.StartSg? || op.StartToLinear? || op.StartFromLinear? }

  /** States one after the other, by calls that are refused or go through. */
  ghost predicate IsRun(run: seq<Table>, ops: seq<Op>) {
    && |run| == |ops| + 1 && (forall i :: 0 <= i < |run[0]| ==> run[0][i] == Unused())
    && forall k :: 0 <= k < |ops| ==>
         && InRange(run[k], ops[k]) && Careful(run[k], ops[k])
         && var r := Do(run[k], ops[k]);
            r == Went(run[k + 1]) || (r.Refused? && run[k + 1] == run[k]) || r.Asserts?
  }

  lemma DoInv(cs: Table, op: Op)
    requires Inv(cs) && InRange(cs, op) && Careful(cs, op)
    ensures var r := Do(cs, op);
            !r.Asserts? && (r.Went? ==> Inv(r.cs)) && (r.Went? && Starts(op) ==> Intact(cs, r.cs))
  {
    match op {
      case StartSg(s, d, size, dOff, sOff) => StartSgExact(cs, s, d, size, dOff, sOff);
      case EndSg(s, d, end) => EndSgExact(cs, s, d, end);
      case StartToLinear(s, dst, size, sOff) => StartToLinearExact(cs, s, dst, size, sOff);
      case EndToLinear(s, end) => EndLinearExact(cs, s, end);
      case StartFromLinear(d, src, size, dOff) => StartFromLinearExact(cs, d, src, size, dOff);
      case EndFromLinear(d, end) => EndLinearExact(cs, d, end);
    }
  }

  /** In every run, among any number of buffers: each source's count is the number of active
      destinations that point at it, at most one pointer of each cookie is set, no assertion fails,
      and no start disturbs a copy under way. */
  lemma {:induction false} CountsExact(run: seq<Table>, ops: seq<Op>, k: nat)
    requires IsRun(run, ops) && k <= |ops|
    ensures Inv(run[k]) && (k < |ops| ==> !Do(run[k], ops[k]).Asserts?)
    ensures k < |ops| && Starts(ops[k]) ==> Intact(run[k], run[k + 1])
  {
    hide Inv, Do, Careful;
    if k == 0 {
      FreshInv(run[0]);
    } else {
      CountsExact(run, ops, k - 1);
      DoInv(run[k - 1], ops[k - 1]);
    }
    if k < |ops| { DoInv(run[k], ops[k]); }
  }

  lemma FreshInv(cs: Table)
    requires forall i :: 0 <= i < |cs| ==> cs[i] == Unused()
    ensures Inv(cs)
  {
    forall s | 0 <= s < |cs|
      ensures Dsts(cs, s) == 0
    {
      CountBound(cs, c => PointsAt(c, s));
    }
  }

  // ---------- what goes wrong otherwise, from unused cookies on ----------

  /** A copy of a buffer to itself: it is started, and from then on the buffer refuses every call,
      the one that would end the copy too. */
  lemma SelfCopySticks(size: nat, op: Op)
    requires InRange([Unused()], op)
    ensures var r := Do([Unused()], StartSg(0, 0, size, 0, 0));
            r.Went? && r.cs[0].started && InRange(r.cs, op) && Do(r.cs, op).Refused?
  {
  }

  /** A linear copy out of a source of other copies: the destination's copy is refused its end. */
  lemma LinearOverSourceSticks(size: nat, end: End)
    ensures var r := Do([Unused(), Unused()], StartSg(0, 1, size, 0, 0));
            r.Went? &&
            var q := Do(r.cs, StartToLinear(0, 0, size, 0));
            q.Went? && q.cs[1].started && Do(q.cs, EndSg(0, 1, end)).Refused?
  {
  }

  /** A copy to another buffer from one with a linear copy under way: when that copy has ended, the
      source counts a destination though none is left, and nothing can end. */
  lemma SourceOverLinearSticks(size: nat, end: End)
    ensures var r := Do([Unused(), Unused()], StartToLinear(0, 0, size, 0));
            r.Went? &&
            var q := Do(r.cs, StartSg(0, 1, size, 0, 0));
            q.Went? &&
            var p := Do(q.cs, EndSg(0, 1, Done));
            && p.Went? && p.cs[0].started && p.cs[0].pending == 1 && p.cs[1] == Unused()
            && Do(p.cs, EndToLinear(0, end)).Refused? && Do(p.cs, EndSg(0, 1, end)).Refused?
  {
  }

  /** A linear copy in to a buffer with a linear copy out under way: two pointers are set, and the
      copy out is refused its end. */
  lemma LinearInOverOutSticks(size: nat, end: End)
    ensures var r := Do([Unused()], StartToLinear(0, 0, size, 0));
            r.Went? &&
            var q := Do(r.cs, StartFromLinear(0, 1, size, 0));
            q.Went? && q.cs[0].linearSrc.Some? && q.cs[0].linearDst.Some? && Do(q.cs, EndToLinear(0, end)).Refused?
  {
  }
}
