/** The readers/writer lock of the POSIX platform (rwlock.hpp) as a transition system: any number
    of threads, each free to read or write again and again, one atomic operation per step.

    `_rw` holds twice the number of readers plus the writer's bit. A writer that finds readers
    waits for a flag that the last reader sets; the flag is an ordinary variable that outlives
    both of them, so that it must not reach a later writer. */
module RwLock {
  import opened Counting

  datatype Owner = Nobody | Is(t: nat)

  datatype Pc =
      Idle
      // wenter, wexit
    | WEnter | WOr | WWait | WClear | WInside | WRelease
      // renter, rexit
    | REnter | RAdd | RRelease | RInside | RSignal

  /** The fields of the lock; `rq` is the mutex `_rq`. */
  datatype Lock = Lock(rq: Owner, rw: int, signal: bool)

  datatype State = State(pc: seq<Pc>, lock: Lock)

  datatype Choice = Write | Read

  /** `_rw |= 1`. */
  function SetBit(rw: int): int { if rw % 2 == 0 then rw + 1 else rw }

  /** `_rw >> 1` is not zero. */
  predicate HasReaders(rw: int) { rw / 2 != 0 }

  /** One atomic operation of thread t at p; a blocked thread stays. */
  function Act(t: nat, p: Pc, l: Lock, c: Choice): (Pc, Lock) {
    match p
    case Idle => (if c.Write? then WEnter else REnter, l)
    case WEnter => if l.rq.Nobody? then (WOr, l.(rq := Is(t))) else (p, l)
    case WOr => (if HasReaders(SetBit(l.rw)) then WWait else WInside, l.(rw := SetBit(l.rw)))
    case WWait => (if l.signal then WClear else p, l)
    case WClear => (WInside, l.(signal := false))
    case WInside => (WRelease, l.(rw := 0))
    case WRelease => (Idle, l.(rq := Nobody))
    case REnter => if l.rq.Nobody? then (RAdd, l.(rq := Is(t))) else (p, l)
    case RAdd => (RRelease, l.(rw := l.rw + 2))
    case RRelease => (RInside, l.(rq := Nobody))
    case RInside => (if l.rw - 2 == 1 then RSignal else Idle, l.(rw := l.rw - 2))
    case RSignal => (Idle, l.(signal := true))
  }

  function Step(s: State, t: nat, c: Choice): State
    requires t < |s.pc|
  {
    var (q, l) := Act(t, s.pc[t], s.lock, c);
    State(s.pc[t := q], l)
  }

  ghost predicate Init(s: State) {
    (forall t :: 0 <= t < |s.pc| ==> s.pc[t].Idle?) && s.lock.rq.Nobody? && s.lock.rw == 0 && !s.lock.signal
  }

  ghost predicate Next(s: State, s': State) {
    exists t: nat, c: Choice :: t < |s.pc| && s' == Step(s, t, c)
  }

  ghost predicate IsRun(run: seq<State>) {
    run != [] && Init(run[0]) && forall k :: 0 <= k < |run| - 1 ==> Next(run[k], run[k + 1])
  }

  // ---------- invariant ----------

  predicate Owns(p: Pc) { p.WOr? || p.WWait? || p.WClear? || p.WInside? || p.WRelease? || p.RAdd? || p.RRelease? }
  predicate Reads(p: Pc) { p.RRelease? || p.RInside? }
  predicate Signals(p: Pc) { p.RSignal? }
  predicate HasBit(p: Pc) { p.WWait? || p.WClear? || p.WInside? }

  function Readers(s: State): nat { Count(s.pc, Reads) }
  function Signalling(s: State): nat { Count(s.pc, Signals) }

  /** Where the owner of `_rq` is. */
  function OwnerPc(s: State): Pc { if s.lock.rq.Is? && s.lock.rq.t < |s.pc| then s.pc[s.lock.rq.t] else Idle }

  ghost predicate Owned(s: State) {
    && (s.lock.rq.Is? ==> s.lock.rq.t < |s.pc|)
    && (forall t :: 0 <= t < |s.pc| ==> (Owns(s.pc[t]) <==> s.lock.rq == Is(t)))
  }

  /** The word: twice the readers, plus the writer's bit. */
  predicate Encodes(rw: int, readers: nat, bit: bool) { rw == 2 * readers + One(bit) }

  /** readers, signalling: how many readers are inside, and how many have yet to signal. */
  predicate Words(o: Pc, rw: int, signal: bool, readers: nat, signalling: nat) {
    && Encodes(rw, readers, HasBit(o))
    && (o.WClear? || o.WInside? || o.WRelease? ==> readers == 0)
    && signalling + One(signal) == One((o.WWait? || o.WClear?) && readers == 0)
    && (o.WClear? ==> signal)
  }

  ghost predicate Inv(s: State) {
    Owned(s) && Words(OwnerPc(s), s.lock.rw, s.lock.signal, Readers(s), Signalling(s))
  }

  lemma InitInv(s: State)
    requires Init(s)
    ensures Inv(s)
  {
    CountBound(s.pc, Reads);
    CountBound(s.pc, Signals);
  }

  lemma StepInv(s: State, t: nat, c: Choice)
    requires Inv(s) && t < |s.pc|
    ensures Inv(Step(s, t, c)) && |Step(s, t, c).pc| == |s.pc|
  {
    hide Act, Owned, Words, OwnerPc;
    var s' := Step(s, t, c);
    StepOwned(s, t, c);
    CountBound(s.pc, Reads);
    CountBound(s.pc, Signals);
    CountUpdate(s.pc, t, s'.pc[t], Reads);
    CountUpdate(s.pc, t, s'.pc[t], Signals);
    StepOwner(s, t, c);
    StepWords(t, s.pc[t], s.lock, c, OwnerPc(s), OwnerPc(s'), Readers(s), Signalling(s), Readers(s'), Signalling(s'));
  }

  lemma StepOwned(s: State, t: nat, c: Choice)
    requires Owned(s) && t < |s.pc|
    ensures Owned(Step(s, t, c))
    ensures var s' := Step(s, t, c); |s'.pc| == |s.pc| && s'.pc == s.pc[t := s'.pc[t]]
  {
  }

  /** Where the owner of `_rq` is before and after a step of t. */
  lemma StepOwner(s: State, t: nat, c: Choice)
    requires Owned(s) && t < |s.pc| && |Step(s, t, c).pc| == |s.pc|
    ensures var p, q, o, o' := s.pc[t], Step(s, t, c).pc[t], OwnerPc(s), OwnerPc(Step(s, t, c));
            && (Owns(p) ==> o == p)
            && (Owns(q) ==> o' == q && (!Owns(p) ==> o == Idle))
            && (Owns(p) && !Owns(q) ==> o' == Idle)
            && (!Owns(p) && !Owns(q) ==> o' == o)
  {
  }

  /** How the owner's point and the two counts move with a step from p to q. */
  predicate Moves(p: Pc, q: Pc, o: Pc, o': Pc, r: nat, g: nat, r': nat, g': nat) {
    && (Owns(p) ==> o == p)
    && (Owns(q) ==> o' == q && (!Owns(p) ==> o == Idle))
    && (Owns(p) && !Owns(q) ==> o' == Idle)
    && (!Owns(p) && !Owns(q) ==> o' == o)
    && r' + One(Reads(p)) == r + One(Reads(q)) && g' + One(Signals(p)) == g + One(Signals(q))
    && (Reads(p) ==> r > 0) && (Signals(p) ==> g > 0)
  }

  lemma StepWords(t: nat, p: Pc, l: Lock, c: Choice, o: Pc, o': Pc, r: nat, g: nat, r': nat, g': nat)
    requires Words(o, l.rw, l.signal, r, g) && Moves(p, Act(t, p, l, c).0, o, o', r, g, r', g')
    ensures var l' := Act(t, p, l, c).1; Words(o', l'.rw, l'.signal, r', g')
  {
    hide Words, SetBit, HasReaders;
    if p.WOr? {
      OrMoves(t, l, c, o, o', r, g, r', g');
      OrWords(l, o', r, g);
    } else if Owns(p) {
      OwnerWords(t, p, l, c, r, g);
    } else if p.RInside? {
      LeaveWords(l, o, r, g);
    } else if p.RSignal? {
      SignalWords(l, o, r, g);
    } else if (p.WEnter? || p.REnter?) && l.rq.Nobody? {
      TakeWords(l, o', r, g);
    }
  }

  /** `wenter`'s update of the word: its bit is set, and it waits exactly if there are readers. */
  lemma OrWords(l: Lock, o': Pc, r: nat, g: nat)
    requires Words(WOr, l.rw, l.signal, r, g) && o' == if HasReaders(SetBit(l.rw)) then WWait else WInside
    ensures Words(o', SetBit(l.rw), l.signal, r, g)
  {
    hide SetBit, HasReaders, Encodes;
    Bit(l.rw, r);
  }

  lemma OrMoves(t: nat, l: Lock, c: Choice, o: Pc, o': Pc, r: nat, g: nat, r': nat, g': nat)
    requires Moves(WOr, Act(t, WOr, l, c).0, o, o', r, g, r', g')
    ensures o == WOr && o' == (if HasReaders(SetBit(l.rw)) then WWait else WInside) && r' == r && g' == g
    ensures Act(t, WOr, l, c).1 == l.(rw := SetBit(l.rw))
  {
    hide SetBit, HasReaders, Encodes;
  }

  /** A step of the owner, other than that update: the owner's point stands for its own. */
  lemma OwnerWords(t: nat, p: Pc, l: Lock, c: Choice, r: nat, g: nat)
    requires Owns(p) && !p.WOr? && Words(p, l.rw, l.signal, r, g)
    ensures var (q, l') := Act(t, p, l, c);
            Words(if Owns(q) then q else Idle, l'.rw, l'.signal, if p.RAdd? then r + 1 else r, g)
  {
    hide Encodes;
    Readers1(l.rw, r, HasBit(p));
  }

  /** A reader leaves, whatever the owner does meanwhile. */
  lemma LeaveWords(l: Lock, o: Pc, r: nat, g: nat)
    requires Words(o, l.rw, l.signal, r, g) && r > 0
    ensures Words(o, l.rw - 2, l.signal, r - 1, if l.rw - 2 == 1 then g + 1 else g)
  {
    hide Encodes;
    Readers1(l.rw, r, HasBit(o));
  }

  lemma SignalWords(l: Lock, o: Pc, r: nat, g: nat)
    requires Words(o, l.rw, l.signal, r, g) && g > 0
    ensures Words(o, l.rw, true, r, g - 1)
  {
    hide Encodes;
  }

  /** Taking the queue changes nothing else. */
  lemma TakeWords(l: Lock, o': Pc, r: nat, g: nat)
    requires Words(Idle, l.rw, l.signal, r, g) && (o'.WOr? || o'.RAdd?)
    ensures Words(o', l.rw, l.signal, r, g)
  {
    hide Encodes;
  }

  lemma Bit(rw: int, r: nat)
    requires Encodes(rw, r, false)
    ensures Encodes(SetBit(rw), r, true) && (HasReaders(SetBit(rw)) <==> r > 0)
  {
  }

  lemma Readers1(rw: int, r: nat, bit: bool)
    requires Encodes(rw, r, bit)
    ensures Encodes(rw + 2, r + 1, bit)
    ensures r > 0 ==> Encodes(rw - 2, r - 1, bit) && (rw - 2 == 1 <==> bit && r == 1)
    ensures r == 0 ==> Encodes(0, 0, false)
  {
  }

  lemma {:induction false} RunInv(run: seq<State>, k: nat)
    requires IsRun(run) && k < |run|
    ensures Inv(run[k])
  {
    hide Inv, Step;
    if k == 0 {
      InitInv(run[0]);
    } else {
      RunInv(run, k - 1);
      assert Next(run[k - 1], run[k]);
      var t: nat, c: Choice :| t < |run[k - 1].pc| && run[k] == Step(run[k - 1], t, c);
      StepInv(run[k - 1], t, c);
    }
  }

  // ---------- what the lock is for ----------

  predicate Inside(p: Pc) { p.WInside? || p.RInside? }

  /** A writer inside excludes every other thread, reader or writer; and the word counts
      exactly who is in, so it stays within twice the number of threads plus one. */
  lemma Exclusion(run: seq<State>, k: nat, t: nat, u: nat)
    requires IsRun(run) && k < |run| && t < |run[k].pc| && u < |run[k].pc| && t != u
    ensures run[k].pc[t].WInside? ==> !Inside(run[k].pc[u])
    ensures 0 <= run[k].lock.rw <= 2 * |run[k].pc| + 1
  {
    hide IsRun;
    RunInv(run, k);
    CountBound(run[k].pc, Reads);
  }

  /** The flag is set only for the writer that waits for it: whenever it is set the owner of
      `_rq` is in its slow path, and every reader has left. No later writer can pass on it. */
  lemma NoStaleSignal(run: seq<State>, k: nat)
    requires IsRun(run) && k < |run| && run[k].lock.signal
    ensures OwnerPc(run[k]).WWait? || OwnerPc(run[k]).WClear?
    ensures forall t :: 0 <= t < |run[k].pc| ==> !Reads(run[k].pc[t]) && !run[k].pc[t].WOr? && !run[k].pc[t].WInside?
  {
    hide IsRun;
    RunInv(run, k);
    CountBound(run[k].pc, Reads);
  }

  /** A writer that waits although no reader is left has the flag set, or the last reader is
      about to set it. */
  lemma NoLostSignal(run: seq<State>, k: nat, t: nat)
    requires IsRun(run) && k < |run| && t < |run[k].pc| && run[k].pc[t].WWait?
    requires forall u :: 0 <= u < |run[k].pc| ==> !Reads(run[k].pc[u])
    ensures run[k].lock.signal || exists u :: 0 <= u < |run[k].pc| && run[k].pc[u].RSignal?
  {
    hide IsRun;
    RunInv(run, k);
    CountBound(run[k].pc, Reads);
    CountBound(run[k].pc, Signals);
  }

  /** A thread that waits. */
  predicate Blocked(s: State, t: nat)
    requires t < |s.pc|
  {
    ((s.pc[t].WEnter? || s.pc[t].REnter?) && !s.lock.rq.Nobody?) || (s.pc[t].WWait? && !s.lock.signal)
  }

  /** The lock never deadlocks: when a thread waits, some thread that owns the queue, is inside
      or is about to signal can go on. */
  lemma NoDeadlock(run: seq<State>, k: nat, t: nat) returns (u: nat)
    requires IsRun(run) && k < |run| && t < |run[k].pc| && Blocked(run[k], t)
    ensures u < |run[k].pc| && !Blocked(run[k], u)
    ensures Owns(run[k].pc[u]) || Reads(run[k].pc[u]) || Signals(run[k].pc[u])
  {
    hide IsRun, Inv, Step;
    RunInv(run, k);
    u := Mover(run[k], t);
  }

  lemma Mover(s: State, t: nat) returns (u: nat)
    requires Inv(s) && t < |s.pc| && Blocked(s, t)
    ensures u < |s.pc| && !Blocked(s, u) && (Owns(s.pc[u]) || Reads(s.pc[u]) || Signals(s.pc[u]))
  {
    hide Step, Count, SetBit;
    u := s.lock.rq.t;
    assert Owns(s.pc[u]) && OwnerPc(s) == s.pc[u];
    if Blocked(s, u) {
      CountBound(s.pc, Reads);
      CountBound(s.pc, Signals);
      if Readers(s) > 0 {
        u :| 0 <= u < |s.pc| && Reads(s.pc[u]);
      } else {
        u :| 0 <= u < |s.pc| && Signals(s.pc[u]);
      }
    }
  }

  // ---------- everybody gets through ----------

  /** A thread that waits does not move, and any other does. */
  lemma BlockedOrMoves(s: State, t: nat, c: Choice)
    requires t < |s.pc|
    ensures if Blocked(s, t) then Step(s, t, c) == s else Step(s, t, c).pc[t] != s.pc[t]
  {
  }

  /** How many steps a thread has before it at most until it is idle, waiting aside. */
  function Left(p: Pc): nat {
    match p
    case Idle => 0
    case WEnter => 6
    case WOr => 5
    case WWait => 4
    case WClear => 3
    case WInside => 2
    case WRelease => 1
    case REnter => 5
    case RAdd => 4
    case RRelease => 3
    case RInside => 2
    case RSignal => 1
  }

  function Rank(s: State): nat { Weigh(s.pc, Left) }

  /** Every step of a thread that is under way and does not wait brings the end nearer. */
  lemma StepDrops(s: State, t: nat, c: Choice)
    requires t < |s.pc| && !s.pc[t].Idle? && !Blocked(s, t)
    ensures Rank(Step(s, t, c)) < Rank(s)
  {
    hide SetBit, HasReaders;
    WeighUpdate(s.pc, t, Step(s, t, c).pc[t], Left);
  }

  ghost predicate Steps(run: seq<State>) { run != [] && forall k :: 0 <= k < |run| - 1 ==> Next(run[k], run[k + 1]) }

  lemma StepsMore(s: State, t: nat, c: Choice, rest: seq<State>)
    requires t < |s.pc| && Steps(rest) && rest[0] == Step(s, t, c)
    ensures Steps([s] + rest)
  {
    hide Step;
    assert Next(s, rest[0]);
    assert forall k :: 0 < k < |[s] + rest| ==> ([s] + rest)[k] == rest[k - 1];
  }

  predicate AllIdle(s: State) { forall t :: 0 <= t < |s.pc| ==> s.pc[t].Idle? }

  /** From any state the threads under way can all finish, and then the lock is as at first. */
  lemma {:induction false} Empties(s: State) returns (run: seq<State>)
    requires Inv(s)
    ensures Steps(run) && run[0] == s && var e := run[|run| - 1]; Inv(e) && |e.pc| == |s.pc| && Init(e)
    decreases Rank(s)
  {
    hide Inv, Step, Rank;
    if AllIdle(s) {
      IdleInit(s);
      run := [s];
    } else {
      var t :| 0 <= t < |s.pc| && !s.pc[t].Idle?;
      var u: nat := t;
      if Blocked(s, t) {
        u := Mover(s, t);
      }
      StepInv(s, u, Read);
      StepDrops(s, u, Read);
      var rest := Empties(Step(s, u, Read));
      StepsMore(s, u, Read, rest);
      run := [s] + rest;
    }
  }

  lemma IdleInit(s: State)
    requires Inv(s) && AllIdle(s)
    ensures Init(s)
  {
    CountBound(s.pc, Reads);
    CountBound(s.pc, Signals);
  }

  /** Nobody is shut out: from every reachable state there is a continuation in which any given
      thread is inside, as a writer or as a reader. */
  lemma EverybodyGetsIn(past: seq<State>, k: nat, t: nat, c: Choice) returns (run: seq<State>)
    requires IsRun(past) && k < |past| && t < |past[k].pc|
    ensures Steps(run) && run[0] == past[k] && t < |run[|run| - 1].pc|
    ensures run[|run| - 1].pc[t] == if c.Write? then WInside else RInside
  {
    hide IsRun, Inv, Init, Next;
    RunInv(past, k);
    var a := Empties(past[k]);
    var b := Enters(a[|a| - 1], t, c);
    JoinSteps(a, b);
    run := a + b[1..];
  }

  lemma JoinSteps(a: seq<State>, b: seq<State>)
    requires Steps(a) && Steps(b) && a[|a| - 1] == b[0]
    ensures var run := a + b[1..]; Steps(run) && run[0] == a[0] && run[|run| - 1] == b[|b| - 1]
  {
    hide Next;
    var run := a + b[1..];
    forall k | 0 <= k < |run| - 1
      ensures Next(run[k], run[k + 1])
    {
      if k >= |a| - 1 { assert run[k] == b[k - (|a| - 1)] && run[k + 1] == b[k + 1 - (|a| - 1)]; }
    }
  }

  lemma Enters(s: State, t: nat, c: Choice) returns (run: seq<State>)
    requires Init(s) && t < |s.pc|
    ensures Steps(run) && run[0] == s && t < |run[|run| - 1].pc|
    ensures run[|run| - 1].pc[t] == if c.Write? then WInside else RInside
  {
    hide Next;
    var s1 := Step(s, t, c);
    var s2 := Step(s1, t, c);
    var s3 := Step(s2, t, c);
    run := [s, s1, s2, s3];
    if c.Read? { run := run + [Step(s3, t, c)]; }
    NextIs(s, t, c);
    NextIs(s1, t, c);
    NextIs(s2, t, c);
    NextIs(s3, t, c);
  }

  lemma NextIs(s: State, t: nat, c: Choice)
    requires t < |s.pc|
    ensures Next(s, Step(s, t, c))
  {
  }
}
