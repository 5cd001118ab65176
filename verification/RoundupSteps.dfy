/** Every step of a thread that does not hold the roundup mutex keeps the invariant. */
module RoundupSteps {
  import opened MachineWords
  import opened Counting
  import opened RoundupModel
  import opened RoundupInvariant

  predicate SameClass(a: Class, b: Class) {
    a.waiting() == b.waiting() && a.first() == b.first() && a.later() == b.later() && a.joined() == b.joined() &&
    a.Parked? == b.Parked? && a.Released? == b.Released? && a.releasing() == b.releasing()
  }

  predicate SameCounters(s: State, s': State) {
    && s'.n == s.n && s'.mutex == s.mutex && s'.waiters == s.waiters && s'.count == s.count
    && s'.numWaiters == s.numWaiters && s'.countSem == s.countSem && s'.resumeSem == s.resumeSem
  }

  /** A step within one class that leaves the counters, but for its own decrement. */
  lemma AsideSame(s: State, s': State, h: Phase, t: nat)
    requires Inv(s) && h == Now(s) && Frame(s, s', t) && Local(s, s', h, t)
    requires (t < s.n ==> SameClass(ClassOf(s.pc[t]), ClassOf(s'.pc[t]))) && SameCounters(s, s')
    ensures Inv(s')
  {
    AsideInv(s, s', h, t);
    SameTally(s.n, t, Tallies(s, h), Tallies(s', h), ClassOf(s.pc[t]), ClassOf(s'.pc[t]));
    SameCore(s, s', h, Tallies(s, h), Tallies(s', h));
  }

  lemma SameTally(n: nat, t: nat, k: Tally, k': Tally, a: Class, b: Class)
    requires Moved(n, t, k, k', a, b) && (t < n ==> SameClass(a, b))
    ensures k' == k.(stopped := k'.stopped)
  {
  }

  lemma SameCore(s: State, s': State, h: Phase, k: Tally, k': Tally)
    requires Core(s, h, k) && SameCounters(s, s') && k' == k.(stopped := k'.stopped)
    requires s'.progressing + k'.stopped == s.n && (h.stopped ==> s'.progressing == 0)
    ensures Core(s', h, k')
  {
  }

  /** What the invariant says of VCPU t and its thread. */
  ghost predicate Fits(s: State, h: Phase, t: nat)
    requires Sized(s) && t < s.n
  {
    ThreadOk(s.n, s.mutex, h, s.numWaiters, t, s.pc[t]) && VcpuOk(s.mutex, h, t, ClassOf(s.pc[t]), s.st[t], s.resume[t])
  }

  /** The invariant as seen from thread t. */
  lemma Here(s: State, h: Phase, t: nat)
    requires Inv(s) && h == Now(s) && t < |s.pc|
    ensures Sized(s) && s.n < U16 && Sane(h) && Core(s, h, Tallies(s, h))
    ensures ThreadOk(s.n, s.mutex, h, s.numWaiters, t, s.pc[t])
    ensures t < s.n ==> Fits(s, h, t)
    ensures Owes(s, t) ==> s.progressing > 0
    ensures t < s.n <==> !s.pc[t].Idle? && (s.pc[t] == Enter(Excl) || ClassOf(s.pc[t]).owner() ==> t < s.n)
  {
    hide ClassOf, Accounted, VcpuOk;
    NowSane(s);
    WhereFrom(s.n, t, s.pc[t]);
    if Owes(s, t) {
      Progressing(s, h, t);
      Owing(s, h, t);
    }
  }

  /** VCPU t is in emulation and has not yielded, or has just left it. */
  predicate Owes(s: State, t: nat)
    requires t < |s.pc|
  {
    var c := ClassOf(s.pc[t]);
    t < s.n && ((c.base().Emulate? && !c.yielded() && !c.joined() && !c.Parked? && !c.owner()) || c.Notifying?)
  }

  lemma Owing(s: State, h: Phase, t: nat)
    requires Sized(s) && t < s.n && Fits(s, h, t) && Owes(s, t)
    ensures !Accounted(h, s.mutex, t, ClassOf(s.pc[t]))
  {
    hide Legal;
  }

  lemma WhereFrom(n: nat, t: nat, p: Pc)
    requires Legal(n, t, p)
    ensures t < n <==> !p.Idle? && (p == Enter(Excl) || ClassOf(p).owner() ==> t < n)
  {
  }

  /** What the counters say about the phase. */
  lemma Facts(s: State, h: Phase, k: Tally)
    requires Core(s, h, k) && Sane(h)
    ensures s.progressing > 0 ==> !h.stopped && !h.open
    ensures s.countSem > 0 || k.joined > 0 ==>
              h.open && h.counting && h.team && !h.closing && h.callers < 0 && h.w < 0 && s.count > 0
    ensures k.joined > 0 && s.count == 1 ==> s.mutex.Team?
    ensures s.resumeSem > 0 || k.releasing > 0 ==> !h.open && !h.closing && !h.team
    ensures s.waiters >= k.waiting
  {
  }

  // ---------- the VCPU thread's own steps ----------

  lemma OwnThread(n: nat, m: Mutex, h: Phase, nw: nat, t: nat, p: Pc, me: Cpu, c: Choice, q: Pc, me': Cpu)
    requires IsCpu(p) && !p.OnNotify? && !p.OnSig? && (q, me') == Own(p, me, c) && t < n
    requires ThreadOk(n, m, h, nw, t, p) && VcpuOk(m, h, t, ClassOf(p), me.w, me.signalled)
    ensures ThreadOk(n, m, h, nw, t, q)
    ensures !ClassOf(p).owner() && SameClass(ClassOf(p), ClassOf(q)) && !ClassOf(p).signalling() && !ClassOf(q).owner()
  {
  }

  lemma OwnVcpu(n: nat, m: Mutex, h: Phase, nw: nat, t: nat, p: Pc, me: Cpu, c: Choice, q: Pc, me': Cpu)
    requires IsCpu(p) && !p.OnNotify? && !p.OnSig? && (q, me') == Own(p, me, c) && t < n
    requires ThreadOk(n, m, h, nw, t, p) && VcpuOk(m, h, t, ClassOf(p), me.w, me.signalled)
    ensures VcpuOk(m, h, t, ClassOf(q), me'.w, me'.signalled)
  {
  }

  lemma OwnAccount(n: nat, m: Mutex, h: Phase, nw: nat, t: nat, p: Pc, me: Cpu, c: Choice, q: Pc, me': Cpu)
    requires IsCpu(p) && !p.OnNotify? && !p.OnSig? && (q, me') == Own(p, me, c) && t < n
    requires ThreadOk(n, m, h, nw, t, p) && VcpuOk(m, h, t, ClassOf(p), me.w, me.signalled)
    ensures Accounted(h, m, t, ClassOf(p)) == Accounted(h, m, t, ClassOf(q))
  {
  }

  lemma OwnInv(s: State, s': State, h: Phase, t: nat, c: Choice)
    requires Inv(s) && h == Now(s) && t < s.n && IsCpu(s.pc[t]) && !s.pc[t].OnNotify? && !s.pc[t].OnSig?
    requires !(s.pc[t].Emu? && c.Parallel?) && s' == StepCpu(s, t, c)
    ensures Inv(s')
  {
    var p, me := s.pc[t], Cpu(s.st[t], s.resume[t]);
    var (q, me') := Own(p, me, c);
    assert Fits(s, h, t);
    OwnThread(s.n, s.mutex, h, s.numWaiters, t, p, me, c, q, me');
    OwnVcpu(s.n, s.mutex, h, s.numWaiters, t, p, me, c, q, me');
    OwnAccount(s.n, s.mutex, h, s.numWaiters, t, p, me, c, q, me');
    AsideSame(s, s', h, t);
  }

  lemma OnNotifyInv(s: State, s': State, h: Phase, t: nat, c: Choice)
    requires Inv(s) && h == Now(s) && t < s.n <= |s.pc| && s.pc[t].OnNotify? && s' == StepCpu(s, t, c)
    ensures Inv(s')
  {
    hide Inv, Shape, Core, Woken, Now, Tallies, Local, VcpuOk, ThreadOk, Accounted, Shift, Moved, Legal;
    Here(s, h, t);
    Facts(s, h, Tallies(s, h));
    NotifyLocal(s, s', h, t, c);
    AsideSame(s, s', h, t);
  }

  lemma OnSigInv(s: State, s': State, h: Phase, t: nat, c: Choice)
    requires Inv(s) && h == Now(s) && t < s.n && s.pc[t].OnSig? && s' == StepCpu(s, t, c)
    ensures Inv(s')
  {
    assert Fits(s, h, t);
    NotifyLocal(s, s', h, t, c);
    AsideSame(s, s', h, t);
  }

  lemma NotifyLocal(s: State, s': State, h: Phase, t: nat, c: Choice)
    requires Sized(s) && t < s.n && s' == StepCpu(s, t, c) && Fits(s, h, t)
    requires (s.pc[t].OnNotify? && s.progressing > 0) || s.pc[t].OnSig?
    ensures Frame(s, s', t) && Local(s, s', h, t)
    ensures SameClass(ClassOf(s.pc[t]), ClassOf(s'.pc[t])) && SameCounters(s, s')
  {
  }

  /** Joining a parallel roundup: the first caller is the one that finds the counter at zero. */
  lemma JoinInv(s: State, s': State, h: Phase, t: nat, c: Choice)
    requires Inv(s) && h == Now(s) && t < s.n <= |s.pc| && s.pc[t].Emu? && c.Parallel? && s' == StepCpu(s, t, c)
    ensures Inv(s')
  {
    hide Inv, Shape, Core, Woken, Now, Tallies, Local, VcpuOk, ThreadOk, Accounted, Shift, Moved, Legal;
    Here(s, h, t);
    Facts(s, h, Tallies(s, h));
    Room(s, h, t);
    JoinLocal(s, s', h, t, c);
    AsideInv(s, s', h, t);
    JoinCore(s, s', h, Tallies(s, h), Tallies(s', h), if s.count == 0 then First else Later);
  }

  lemma JoinLocal(s: State, s': State, h: Phase, t: nat, c: Choice)
    requires Sized(s) && t < s.n && s.pc[t].Emu? && c.Parallel? && s' == StepCpu(s, t, c) && Fits(s, h, t)
    ensures Frame(s, s', t) && Local(s, s', h, t)
    ensures s' == At(s.(count := Inc16(s.count)), t, YInc(if s.count == 0 then First else Later))
  {
  }

  lemma JoinCore(s: State, s': State, h: Phase, k: Tally, k': Tally, kind: Kind)
    requires Core(s, h, k) && Sane(h) && s.n < U16 && s.count < s.n && !h.stopped
    requires s' == s.(count := Inc16(s.count), pc := s'.pc) && kind == (if s.count == 0 then First else Later)
    requires Shift(k, k', ClassOf(Emu), ClassOf(YInc(kind)))
    requires s'.progressing + k'.stopped == s.n
    ensures Core(s', h, k')
  {
  }

  /** A VCPU that is in no parallel roundup leaves room in the counter. */
  lemma Room(s: State, h: Phase, t: nat)
    requires Sized(s) && Core(s, h, Tallies(s, h)) && t < s.n && s.pc[t].Emu?
    ensures s.count < s.n
  {
    var cs := Classes(s);
    RoomFor(s, t);
    assert Tallies(s, h).first == Count(cs, IsFirst);
  }

  lemma RoomFor(s: State, t: nat)
    requires Sized(s) && t < s.n && s.pc[t].Emu?
    ensures Count(Classes(s), IsFirst) + Count(Classes(s), IsLater) + Count(Classes(s), IsJoined) < s.n
  {
    hide Count;
    forall j | 0 <= j < s.n
      ensures !(IsFirst(Classes(s)[j]) && IsLater(Classes(s)[j]))
      ensures !(IsFirst(Classes(s)[j]) && IsJoined(Classes(s)[j])) &&
              !(IsLater(Classes(s)[j]) && IsJoined(Classes(s)[j]))
    {
      OneRole(s.pc[j]);
    }
    CountThree(Classes(s), t, IsFirst, IsLater, IsJoined);
  }

  lemma OneRole(p: Pc)
    ensures var c := ClassOf(p); !(c.first() && c.later()) && !(c.first() && c.joined()) && !(c.later() && c.joined())
  {
  }

  // ---------- yield ----------

  lemma YIncInv(s: State, s': State, h: Phase, t: nat)
    requires Inv(s) && h == Now(s) && t < |s.pc| && s.pc[t].YInc? && s' == StepRoundup(s, t)
    ensures Inv(s')
  {
    hide Inv, Shape, Core, Woken, Now, Tallies, Local, VcpuOk, ThreadOk, Accounted, Shift, Moved, Legal;
    Here(s, h, t);
    Facts(s, h, Tallies(s, h));
    WaitRoom(s, h, t);
    YIncLocal(s, s', h, t);
    AsideInv(s, s', h, t);
    YIncCore(s, s', h, Tallies(s, h), Tallies(s', h), s.pc[t].kind);
  }

  lemma YIncLocal(s: State, s': State, h: Phase, t: nat)
    requires Sized(s) && t < s.n && s' == StepRoundup(s, t) && Fits(s, h, t) && s.pc[t].YInc?
    ensures Frame(s, s', t) && Local(s, s', h, t)
    ensures s' == At(s.(waiters := Inc16(s.waiters)), t, YDec(s.pc[t].kind))
  {
  }

  lemma YIncCore(s: State, s': State, h: Phase, k: Tally, k': Tally, kind: Kind)
    requires Core(s, h, k) && Sane(h) && s.n < U16 && s.waiters < s.n && !h.stopped
    requires s' == s.(waiters := Inc16(s.waiters), pc := s'.pc)
    requires Shift(k, k', ClassOf(YInc(kind)), ClassOf(YDec(kind)))
    requires s'.progressing + k'.stopped == s.n
    ensures Core(s', h, k')
  {
  }

  lemma WaitRoom(s: State, h: Phase, t: nat)
    requires Inv(s) && h == Now(s) && t < s.n && !h.stopped && !ClassOf(s.pc[t]).waiting() && !ClassOf(s.pc[t]).owner()
    ensures s.waiters < s.n
  {
    Here(s, h, t);
    CountMissing(Classes(s), t, IsWaiting);
    if h.waits {
      var o := Holder(s, h);
      CountMissingTwo(Classes(s), t, o, IsWaiting);
    }
  }

  lemma Holder(s: State, h: Phase) returns (o: nat)
    requires Inv(s) && h == Now(s) && h.waits && !h.stopped
    ensures o < s.n && ClassOf(s.pc[o]).owner() && !ClassOf(s.pc[o]).waiting()
  {
    o := s.mutex.holder;
    Here(s, h, o);
  }

  lemma YDecInv(s: State, s': State, h: Phase, t: nat)
    requires Inv(s) && h == Now(s) && t < |s.pc| && s.pc[t].YDec? && s' == StepRoundup(s, t)
    ensures Inv(s')
  {
    hide Inv, Shape, Core, Woken, Now, Tallies, Local, VcpuOk, ThreadOk, Accounted, Shift, Moved, Legal;
    Here(s, h, t);
    Facts(s, h, Tallies(s, h));
    YDecLocal(s, s', h, t);
    AsideSame(s, s', h, t);
  }

  lemma YDecLocal(s: State, s': State, h: Phase, t: nat)
    requires Sized(s) && t < s.n && s' == StepRoundup(s, t) && Fits(s, h, t) && s.pc[t].YDec? && s.progressing > 0
    ensures Frame(s, s', t) && Local(s, s', h, t)
    ensures SameClass(ClassOf(s.pc[t]), ClassOf(s'.pc[t])) && SameCounters(s, s')
  {
  }

  lemma YSigInv(s: State, s': State, h: Phase, t: nat)
    requires Inv(s) && h == Now(s) && t < |s.pc| && s.pc[t].YSig? && s' == StepRoundup(s, t)
    ensures Inv(s')
  {
    hide Inv, Shape, Core, Woken, Now, Tallies, Local, VcpuOk, ThreadOk, Accounted, Shift, Moved, Legal;
    Here(s, h, t);
    Facts(s, h, Tallies(s, h));
    YSigLocal(s, s', h, t);
    AsideSame(s, s', h, t);
  }

  lemma YSigLocal(s: State, s': State, h: Phase, t: nat)
    requires Sized(s) && t < s.n && s' == StepRoundup(s, t) && Fits(s, h, t) && s.pc[t].YSig?
    ensures Frame(s, s', t) && Local(s, s', h, t)
    ensures SameClass(ClassOf(s.pc[t]), ClassOf(s'.pc[t])) && SameCounters(s, s')
  {
  }

  lemma OutsideInv(s: State, s': State, h: Phase, t: nat)
    requires Inv(s) && h == Now(s) && t < |s.pc| && s.pc[t].Idle? && s' == StepOutside(s, t)
    ensures Inv(s')
  {
    hide Inv, Shape, Core, Woken, Now, Tallies, Local, VcpuOk, ThreadOk, Accounted, Shift, Moved, Legal;
    Here(s, h, t);
    OutsideLocal(s, s', h, t);
    AsideSame(s, s', h, t);
  }

  lemma OutsideLocal(s: State, s': State, h: Phase, t: nat)
    requires Sized(s) && s.n <= t < |s.pc| && s.pc[t].Idle? && s' == StepOutside(s, t)
    requires ThreadOk(s.n, s.mutex, h, s.numWaiters, t, s.pc[t])
    ensures Frame(s, s', t) && Local(s, s', h, t) && SameCounters(s, s')
  {
  }

  // ---------- parallel roundup: being let in, parking, being released ----------

  lemma ParAcquireInv(s: State, s': State, h: Phase, t: nat)
    requires Inv(s) && h == Now(s) && t < |s.pc| && s.pc[t].ParAcquire? && s' == StepParallel(s, t)
    ensures Inv(s')
  {
    hide Inv, Shape, Core, Woken, Now, Tallies, Local, VcpuOk, ThreadOk, Accounted, Shift, Moved, Legal;
    Here(s, h, t);
    Facts(s, h, Tallies(s, h));
    if s.countSem > 0 {
      ParAcquireLocal(s, s', h, t);
      AsideInv(s, s', h, t);
      ParAcquireCore(s, s', h, Tallies(s, h), Tallies(s', h));
    }
  }

  lemma ParAcquireLocal(s: State, s': State, h: Phase, t: nat)
    requires Sized(s) && t < s.n && s' == StepParallel(s, t) && Fits(s, h, t) && s.pc[t].ParAcquire?
    requires s.countSem > 0 && h.open && h.counting
    ensures Frame(s, s', t) && Local(s, s', h, t)
    ensures s' == At(s.(countSem := s.countSem - 1), t, ParUnyield)
  {
  }

  lemma ParAcquireCore(s: State, s': State, h: Phase, k: Tally, k': Tally)
    requires Core(s, h, k) && s.countSem > 0 && s' == s.(countSem := s.countSem - 1, pc := s'.pc) && h.open
    requires h.callers < 0
    requires Shift(k, k', ClassOf(ParAcquire), ClassOf(ParUnyield))
    requires s'.progressing + k'.stopped == s.n
    ensures Core(s', h, k')
  {
  }

  lemma ParUnyieldInv(s: State, s': State, h: Phase, t: nat)
    requires Inv(s) && h == Now(s) && t < |s.pc| && s.pc[t].ParUnyield? && s' == StepParallel(s, t)
    ensures Inv(s')
  {
    hide Inv, Shape, Core, Woken, Now, Tallies, Local, VcpuOk, ThreadOk, Accounted, Shift, Moved, Legal;
    Here(s, h, t);
    Facts(s, h, Tallies(s, h));
    SomeAt(s, h, t);
    ParUnyieldLocal(s, s', h, t);
    AsideInv(s, s', h, t);
    ParUnyieldCore(s, s', h, Tallies(s, h), Tallies(s', h));
  }

  lemma ParUnyieldLocal(s: State, s': State, h: Phase, t: nat)
    requires Sized(s) && t < s.n && s' == StepParallel(s, t) && Fits(s, h, t) && s.pc[t].ParUnyield? && s.waiters > 0
    ensures Frame(s, s', t) && Local(s, s', h, t)
    ensures s' == At(s.(waiters := s.waiters - 1), t, ParHeld)
  {
  }

  lemma ParUnyieldCore(s: State, s': State, h: Phase, k: Tally, k': Tally)
    requires Core(s, h, k) && s.waiters > 0 && s' == s.(waiters := s.waiters - 1, pc := s'.pc) && h.w < 0
    requires Shift(k, k', ClassOf(ParUnyield), ClassOf(ParHeld))
    requires s'.progressing + k'.stopped == s.n
    requires h.stopped ==> s'.progressing == 0
    ensures Core(s', h, k')
  {
  }

  lemma ParHeldInv(s: State, s': State, h: Phase, t: nat)
    requires Inv(s) && h == Now(s) && t < |s.pc| && s.pc[t].ParHeld? && s' == StepParallel(s, t)
    ensures Inv(s')
  {
    hide Inv, Shape, Core, Woken, Now, Tallies, Local, VcpuOk, ThreadOk, Accounted, Shift, Moved, Legal;
    Here(s, h, t);
    Facts(s, h, Tallies(s, h));
    SomeAt(s, h, t);
    ParHeldLocal(s, s', h, t);
    AsideSame(s, s', h, t);
  }

  lemma ParHeldLocal(s: State, s': State, h: Phase, t: nat)
    requires Sized(s) && t < s.n && s' == StepParallel(s, t) && Fits(s, h, t) && s.pc[t].ParHeld? && s.count > 0
    ensures Frame(s, s', t) && Local(s, s', h, t) && SameCounters(s, s')
    ensures SameClass(ClassOf(s.pc[t]), ClassOf(s'.pc[t]))
  {
  }

  /** resume_parallel by a caller that is not the last: it parks. */
  lemma ParkInv(s: State, s': State, h: Phase, t: nat)
    requires Inv(s) && h == Now(s) && t < |s.pc| && s.pc[t].ParSub? && s.count != 1 && s' == StepParallel(s, t)
    ensures Inv(s')
  {
    hide Inv, Shape, Core, Woken, Now, Tallies, Local, VcpuOk, ThreadOk, Accounted, Shift, Moved, Legal;
    Here(s, h, t);
    Facts(s, h, Tallies(s, h));
    SomeAt(s, h, t);
    ParkLocal(s, s', h, t);
    AsideInv(s, s', h, t);
    ParkCore(s, s', h, Tallies(s, h), Tallies(s', h));
  }

  lemma ParkLocal(s: State, s': State, h: Phase, t: nat)
    requires Sized(s) && t < s.n && s' == StepParallel(s, t) && Fits(s, h, t) && s.pc[t].ParSub? && s.count > 1
    requires h.open ==> h.team
    ensures Frame(s, s', t) && Local(s, s', h, t)
    ensures s' == At(s.(count := s.count - 1), t, ParWait)
  {
  }

  lemma ParkCore(s: State, s': State, h: Phase, k: Tally, k': Tally)
    requires Core(s, h, k) && s.count > 1 && s' == s.(count := s.count - 1, pc := s'.pc) && h.open && !h.closing
    requires Shift(k, k', ClassOf(ParSub), ClassOf(ParWait))
    requires s'.progressing + k'.stopped == s.n
    requires h.stopped ==> s'.progressing == 0
    ensures Core(s', h, k')
  {
  }

  lemma ParWaitInv(s: State, s': State, h: Phase, t: nat)
    requires Inv(s) && h == Now(s) && t < |s.pc| && s.pc[t].ParWait? && s' == StepParallel(s, t)
    ensures Inv(s')
  {
    hide Inv, Shape, Core, Woken, Now, Tallies, Local, VcpuOk, ThreadOk, Accounted, Shift, Moved, Legal;
    Here(s, h, t);
    Facts(s, h, Tallies(s, h));
    if s.resumeSem > 0 {
      ParWaitLocal(s, s', h, t);
      AsideInv(s, s', h, t);
      ParWaitCore(s, s', h, Tallies(s, h), Tallies(s', h));
    }
  }

  lemma ParWaitLocal(s: State, s': State, h: Phase, t: nat)
    requires Sized(s) && t < s.n && s' == StepParallel(s, t) && Fits(s, h, t) && s.pc[t].ParWait?
    requires s.resumeSem > 0 && !h.closing && !h.team
    ensures Frame(s, s', t) && Local(s, s', h, t)
    ensures s' == At(s.(resumeSem := s.resumeSem - 1), t, Emu)
  {
  }

  lemma ParWaitCore(s: State, s': State, h: Phase, k: Tally, k': Tally)
    requires Core(s, h, k) && s.resumeSem > 0 && s' == s.(resumeSem := s.resumeSem - 1, pc := s'.pc) && !h.open
    requires !h.closing
    requires Shift(k, k', ClassOf(ParWait), ClassOf(Emu))
    requires s'.progressing + k'.stopped == s.n
    requires h.stopped ==> s'.progressing == 0
    ensures Core(s', h, k')
  {
  }

  /** Nobody else runs the release loop, so num_waiters is its own. */
  lemma OnlyReleaser(s: State, h: Phase, t: nat)
    requires Inv(s) && h == Now(s) && t < s.n && ClassOf(s.pc[t]).releasing()
    ensures forall u :: 0 <= u < |s.pc| && u != t ==> !ClassOf(s.pc[u]).releasing()
    ensures !h.open && !h.closing
  {
    SomeAt(s, h, t);
    CountUnique(Classes(s), t, IsReleasing);
    forall u | 0 <= u < |s.pc| && u != t
      ensures !ClassOf(s.pc[u]).releasing()
    {
      if u < s.n {
        assert Classes(s)[u] == ClassOf(s.pc[u]);
      } else {
        assert ThreadOk(s.n, s.mutex, h, s.numWaiters, u, s.pc[u]);
      }
    }
  }

  /** A point of a VCPU in emulation that counts for nothing in the current phase. */
  predicate Plain(c: Class) {
    c.base().Emulate? && !c.owner() && !c.yielded() && !c.joined() && !c.Parked? && !c.signalling()
  }

  /** A thread in the release loop, or leaving it, moves; it is the only one there. */
  lemma RelLocal(s: State, s': State, h: Phase, t: nat, q: Pc)
    requires Sized(s) && t < s.n && Fits(s, h, t) && Plain(ClassOf(s.pc[t])) && Plain(ClassOf(q))
    requires s' == s.(resumeSem := s'.resumeSem, numWaiters := s'.numWaiters, pc := s.pc[t := q])
    requires forall u :: 0 <= u < |s.pc| && u != t ==> !ClassOf(s.pc[u]).releasing()
    requires Legal(s.n, t, q) && (q.RelSem? || q.RelDec? ==> s'.numWaiters > 0)
    ensures Frame(s, s', t) && Local(s, s', h, t)
  {
    hide ClassOf, Legal;
  }

  lemma RelCheckInv(s: State, s': State, h: Phase, t: nat)
    requires Inv(s) && h == Now(s) && t < |s.pc| && s.pc[t].RelCheck? && s' == StepParallel(s, t)
    ensures Inv(s')
  {
    hide Inv, Shape, Core, Woken, Now, Tallies, Local, VcpuOk, ThreadOk, Accounted, Shift, Moved, Legal;
    Here(s, h, t);
    Facts(s, h, Tallies(s, h));
    SomeAt(s, h, t);
    OnlyReleaser(s, h, t);
    RelCheckLocal(s, s', h, t);
    AsideInv(s, s', h, t);
    RelCheckCore(s, s', h, Tallies(s, h), Tallies(s', h), s'.pc[t]);
  }

  lemma RelCheckLocal(s: State, s': State, h: Phase, t: nat)
    requires Sized(s) && t < s.n && s' == StepParallel(s, t) && Fits(s, h, t) && s.pc[t].RelCheck? && !h.closing
    requires forall u :: 0 <= u < |s.pc| && u != t ==> !ClassOf(s.pc[u]).releasing()
    ensures Frame(s, s', t) && Local(s, s', h, t)
    ensures s' == At(s, t, if s.numWaiters > 0 then RelSem else Emu)
  {
    RelLocal(s, s', h, t, s'.pc[t]);
  }

  lemma RelCheckCore(s: State, s': State, h: Phase, k: Tally, k': Tally, q: Pc)
    requires Core(s, h, k) && !h.open && !h.closing && k.releasing > 0
    requires s' == s.(pc := s'.pc) && q == if s.numWaiters > 0 then RelSem else Emu
    requires Shift(k, k', ClassOf(RelCheck), ClassOf(q))
    requires s'.progressing + k'.stopped == s.n
    requires h.stopped ==> s'.progressing == 0
    ensures Core(s', h, k')
  {
  }

  lemma RelSemInv(s: State, s': State, h: Phase, t: nat)
    requires Inv(s) && h == Now(s) && t < |s.pc| && s.pc[t].RelSem? && s' == StepParallel(s, t)
    ensures Inv(s')
  {
    hide Inv, Shape, Core, Woken, Now, Tallies, Local, VcpuOk, ThreadOk, Accounted, Shift, Moved, Legal;
    Here(s, h, t);
    Facts(s, h, Tallies(s, h));
    SomeAt(s, h, t);
    OnlyReleaser(s, h, t);
    RelSemLocal(s, s', h, t);
    AsideInv(s, s', h, t);
    RelSemCore(s, s', h, Tallies(s, h), Tallies(s', h), s'.pc[t]);
  }

  lemma RelSemLocal(s: State, s': State, h: Phase, t: nat)
    requires Sized(s) && t < s.n && s' == StepParallel(s, t) && Fits(s, h, t) && s.pc[t].RelSem? && !h.closing
    requires forall u :: 0 <= u < |s.pc| && u != t ==> !ClassOf(s.pc[u]).releasing()
    ensures Frame(s, s', t) && Local(s, s', h, t)
    ensures s' == At(s.(resumeSem := s.resumeSem + 1), t, RelDec)
  {
    RelLocal(s, s', h, t, s'.pc[t]);
  }

  lemma RelSemCore(s: State, s': State, h: Phase, k: Tally, k': Tally, q: Pc)
    requires Core(s, h, k) && !h.open && !h.closing && k.releasing > 0
    requires s' == s.(resumeSem := s.resumeSem + 1, pc := s'.pc) && q.RelDec?
    requires Shift(k, k', ClassOf(RelSem), ClassOf(q))
    requires s'.progressing + k'.stopped == s.n
    requires h.stopped ==> s'.progressing == 0
    ensures Core(s', h, k')
  {
  }

  lemma RelDecInv(s: State, s': State, h: Phase, t: nat)
    requires Inv(s) && h == Now(s) && t < |s.pc| && s.pc[t].RelDec? && s' == StepParallel(s, t)
    ensures Inv(s')
  {
    hide Inv, Shape, Core, Woken, Now, Tallies, Local, VcpuOk, ThreadOk, Accounted, Shift, Moved, Legal;
    Here(s, h, t);
    Facts(s, h, Tallies(s, h));
    SomeAt(s, h, t);
    OnlyReleaser(s, h, t);
    RelDecLocal(s, s', h, t);
    AsideInv(s, s', h, t);
    RelDecCore(s, s', h, Tallies(s, h), Tallies(s', h), s'.pc[t]);
  }

  lemma RelDecLocal(s: State, s': State, h: Phase, t: nat)
    requires Sized(s) && t < s.n && s' == StepParallel(s, t) && Fits(s, h, t) && s.pc[t].RelDec? && !h.closing
    requires forall u :: 0 <= u < |s.pc| && u != t ==> !ClassOf(s.pc[u]).releasing()
    ensures s.numWaiters > 0 && Frame(s, s', t) && Local(s, s', h, t)
    ensures s' == At(s.(numWaiters := s.numWaiters - 1), t, RelCheck)
  {
    RelLocal(s, s', h, t, s'.pc[t]);
  }

  lemma RelDecCore(s: State, s': State, h: Phase, k: Tally, k': Tally, q: Pc)
    requires Core(s, h, k) && !h.open && !h.closing && k.releasing > 0
    requires s.numWaiters > 0 && s' == s.(numWaiters := s.numWaiters - 1, pc := s'.pc) && q.RelCheck?
    requires Shift(k, k', ClassOf(RelDec), ClassOf(q))
    requires s'.progressing + k'.stopped == s.n
    requires h.stopped ==> s'.progressing == 0
    ensures Core(s', h, k')
  {
  }
}
