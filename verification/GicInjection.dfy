/** Injection bookkeeping of one interrupt in the GIC distributor (gicd.cpp, gic.hpp), with
    affinity routing on: devices assert, re-route and withdraw it while VCPUs inject it and
    report back, one atomic operation per step.

    The interrupt has one atomic word (target, pending, injected) and, for each VCPU, one bit
    in `pending_irqs` and one in `in_injection_irqs`. Thread t < n is the thread of VCPU t;
    the others are devices. */
module GicInjection {
  import opened Counting

  /** `injection_info`, for a CPU_ID target and sender 0. */
  datatype Info = Info(target: nat, pending: bool, injected: bool)

  const NO_INFO := Info(0, false, false)

  datatype IrqState = Inactive | Pending | Active | ActivePending

  /** The arguments of `update_inj_status`. */
  datatype Report = Report(state: IrqState, inInjection: bool)

  datatype Pc =
      Idle
      // assert_pi, notify_target
    | AStore(c: nat) | ASet(c: nat)
      // redirect_spi
    | RRead(c: nat) | RCas(c: nat, cur: Info)
      // deassert_pi
    | DStore
      // pending_irq
    | IRead | ICas(cur: Info) | IInj | IPend
      // update_inj_status
    | UClr(report: Report) | URead(report: Report) | UCas(report: Report, cur: Info) | UCheck | USet

  datatype State = State(n: nat, hw: bool, info: Info, pend: seq<bool>, inj: seq<bool>, pc: seq<Pc>)

  datatype Op = Assert(c: nat) | Redirect(c: nat) | Deassert | Inject | Update(report: Report)

  /** What an idle thread starts; and whether the line or the guest holds the interrupt pending
      apart from the word when `Irq::pending` is asked. */
  datatype Choice = Choice(op: Op, asserted: bool)

  // ---------- steps ----------

  /** What the thread of VCPU t sees: the word and its own two bits. */
  datatype View = View(info: Info, pend: bool, inj: bool)

  function Start(t: nat, n: nat, v: View, op: Op): Pc {
    match op
    case Assert(c) => if c < n then AStore(c) else Idle
    case Redirect(c) => if c < n then RRead(c) else Idle
    case Deassert => DStore
    case Inject => if t < n && v.pend && !v.inj then IRead else Idle
    case Update(k) =>
      if t >= n || (!k.inInjection && !k.state.Pending? && !k.state.Inactive?) then Idle
      else if k.inInjection then URead(k) else UClr(k)
  }

  /** The new word of `update_inj_status_inactive` and `update_inj_status_active_or_pending`. */
  function Updated(cur: Info, k: Report): Info {
    if k.state.Inactive? then cur.(injected := false, pending := false)
    else cur.(injected := cur.injected && k.inInjection, pending := cur.pending && !k.state.Active?)
  }

  /** One atomic operation of thread t on the word and the bits of its own VCPU. */
  function Act(t: nat, n: nat, hw: bool, p: Pc, v: View, ch: Choice): (Pc, View) {
    var cur := v.info;
    match p
    case Idle => (Start(t, n, v, ch.op), v)
    case AStore(c) => (ASet(c), v.(info := Info(c, true, false)))
    case ASet(c) => (Idle, v)
    case RRead(c) => (if !cur.pending || cur.injected then Idle else RCas(c, cur), v)
    case RCas(c, was) => if cur == was then (ASet(c), v.(info := Info(c, true, false))) else (RRead(c), v)
    case DStore => (Idle, if hw then v else v.(info := NO_INFO))
    case IRead => (if !cur.pending || cur.target != t then Idle else ICas(cur), v)
    case ICas(was) => if cur == was then (IInj, v.(info := cur.(injected := true))) else (IRead, v)
    case IInj => (IPend, v.(inj := true))
    case IPend => (Idle, v.(pend := false))
    case UClr(k) => (URead(k), v.(inj := false))
    case URead(k) => (if !cur.injected || cur.target != t then UCheck else UCas(k, cur), v)
    case UCas(k, was) => if cur == was then (UCheck, v.(info := Updated(cur, k))) else (URead(k), v)
    case UCheck => (if cur.pending || ch.asserted then USet else Idle, v)
    case USet => (Idle, v.(pend := true))
  }

  ghost predicate Sized(s: State) { 0 < s.n <= |s.pc| && |s.pend| == |s.inj| == s.n }

  function Step(s: State, t: nat, ch: Choice): State
    requires t < |s.pc| && s.n <= |s.pc| && |s.pend| == |s.inj| == s.n
  {
    if t < s.n then
      var (q, v) := Act(t, s.n, s.hw, s.pc[t], View(s.info, s.pend[t], s.inj[t]), ch);
      var s' := s.(info := v.info, pend := s.pend[t := v.pend], inj := s.inj[t := v.inj], pc := s.pc[t := q]);
      Marked(s', s.pc[t])
    else
      var (q, v) := Act(t, s.n, s.hw, s.pc[t], View(s.info, false, false), ch);
      Marked(s.(info := v.info, pc := s.pc[t := q]), s.pc[t])
  }

  /** `notify_target` sets the target's bit in its `pending_irqs`. */
  function Marked(s: State, p: Pc): State {
    if p.ASet? && p.c < |s.pend| then s.(pend := s.pend[p.c := true]) else s
  }

  /** `GicD::reset`, as one step. */
  function Reset(s: State): State
    requires |s.pend| == |s.inj|
  {
    s.(info := if s.hw then s.info else NO_INFO,
       pend := seq(|s.pend|, i requires 0 <= i < |s.pend| => s.hw && (s.pend[i] || s.inj[i])),
       inj := seq(|s.inj|, i requires 0 <= i < |s.inj| => false))
  }

  ghost predicate Init(s: State) {
    Sized(s) && s.info == NO_INFO && (forall t :: 0 <= t < |s.pc| ==> s.pc[t].Idle?) &&
    forall c :: 0 <= c < s.n ==> !s.pend[c] && !s.inj[c]
  }

  ghost predicate Next(s: State, s': State) {
    Sized(s) && exists t: nat, ch: Choice :: t < |s.pc| && s' == Step(s, t, ch)
  }

  /** A VCPU has set its in-injection bit and has yet to clear its pending bit. */
  predicate HalfInjected(s: State, c: nat)
    requires c < |s.pc|
  {
    s.pc[c].IPend?
  }

  /** Resets happen while no VCPU is half way through an injection. */
  ghost predicate NextOrReset(s: State, s': State) {
    Next(s, s') || (Sized(s) && s' == Reset(s) && forall c :: 0 <= c < s.n ==> !HalfInjected(s, c))
  }

  ghost predicate IsRun(run: seq<State>) {
    run != [] && Init(run[0]) && forall k :: 0 <= k < |run| - 1 ==> NextOrReset(run[k], run[k + 1])
  }

  ghost predicate IsRunNoReset(run: seq<State>) {
    run != [] && Init(run[0]) && forall k :: 0 <= k < |run| - 1 ==> Next(run[k], run[k + 1])
  }

  // ---------- no interrupt is lost ----------

  /** VCPU c is in `pending_irq` just after taking the interrupt, or in `update_inj_status`
      before its last check. */
  predicate Committed(p: Pc) { p.IInj? || p.UClr? || p.URead? || p.UCas? || p.UCheck? || p.USet? }

  predicate Notifies(p: Pc, c: nat) { p == ASet(c) }

  /** Somebody is about to set c's pending bit. */
  ghost predicate InFlight(s: State, c: nat) {
    exists u :: 0 <= u < |s.pc| && Notifies(s.pc[u], c)
  }

  ghost predicate Tracked(s: State, c: nat)
    requires Sized(s) && c < s.n
  {
    s.pend[c] || s.inj[c] || Committed(s.pc[c]) || InFlight(s, c)
  }

  predicate Fits(n: nat, t: nat, p: Pc) {
    && (p.AStore? || p.ASet? || p.RRead? || p.RCas? ==> p.c < n)
    && (p.IRead? || p.ICas? || p.IInj? || p.IPend? || p.UClr? || p.URead? || p.UCas? || p.UCheck? || p.USet? ==> t < n)
    && (p.UCas? ==> p.cur.target == t)
  }

  ghost predicate Inv(s: State) {
    && Sized(s) && s.info.target < s.n
    && (forall t :: 0 <= t < |s.pc| ==> Fits(s.n, t, s.pc[t]))
    && (forall c :: 0 <= c < s.n && HalfInjected(s, c) ==> s.inj[c])
    && (s.info.pending ==> Tracked(s, s.info.target))
  }

  lemma StepFits(t: nat, n: nat, hw: bool, p: Pc, v: View, ch: Choice)
    requires Fits(n, t, p) && v.info.target < n && 0 < n
    ensures var (q, v') := Act(t, n, hw, p, v, ch); Fits(n, t, q) && v'.info.target < n
  {
  }

  /** If the word newly asks for VCPU c, or c's cover goes, the thread's next point makes up for it. */
  lemma StepCovers(t: nat, n: nat, hw: bool, p: Pc, v: View, ch: Choice)
    requires Fits(n, t, p) && (t < n && p.IPend? ==> v.inj)
    ensures var (q, v') := Act(t, n, hw, p, v, ch);
            && (q.IPend? ==> v'.inj) && (p.ASet? ==> v' == v)
            && (v'.info.pending ==> Notifies(q, v'.info.target) || (v.info.pending && v.info.target == v'.info.target))
            && (v'.info.pending && v'.info.target == t && (v.pend || v.inj || Committed(p)) ==>
                  v'.pend || v'.inj || Committed(q) || Notifies(q, t))
            && (t >= n || (v.pend && !v'.pend ==> p.IPend?))
  {
  }

  function ViewOf(s: State, t: nat): View
    requires Sized(s)
  {
    if t < s.n then View(s.info, s.pend[t], s.inj[t]) else View(s.info, false, false)
  }

  /** A step of t as a whole: its own point and bits, the word, and the bit it sets for a target. */
  ghost predicate Effect(s: State, s': State, t: nat, q: Pc, v: View)
    requires Sized(s) && t < |s.pc|
  {
    && Sized(s') && s'.n == s.n && s'.hw == s.hw && s'.info == v.info && s'.pc == s.pc[t := q]
    && (forall c :: 0 <= c < s.n ==> s'.inj[c] == if c == t then v.inj else s.inj[c])
    && (forall c :: 0 <= c < s.n ==> s'.pend[c] == (Notifies(s.pc[t], c) || (if c == t then v.pend else s.pend[c])))
  }

  lemma StepEffect(s: State, t: nat, ch: Choice)
    requires Sized(s) && t < |s.pc|
    ensures var (q, v) := Act(t, s.n, s.hw, s.pc[t], ViewOf(s, t), ch); Effect(s, Step(s, t, ch), t, q, v)
  {
    hide Act, Marked;
    var (q, v) := Act(t, s.n, s.hw, s.pc[t], ViewOf(s, t), ch);
    var own := if t < s.n then s.(info := v.info, pend := s.pend[t := v.pend], inj := s.inj[t := v.inj],
                                  pc := s.pc[t := q])
               else s.(info := v.info, pc := s.pc[t := q]);
    assert Step(s, t, ch) == Marked(own, s.pc[t]);
    MarkedEffect(own, s.pc[t]);
  }

  lemma MarkedEffect(s: State, p: Pc)
    ensures Marked(s, p) == s.(pend := Marked(s, p).pend) && |Marked(s, p).pend| == |s.pend|
    ensures forall c :: 0 <= c < |s.pend| ==> Marked(s, p).pend[c] == (Notifies(p, c) || s.pend[c])
  {
  }

  lemma StepTracked(s: State, s': State, t: nat, q: Pc, v: View, c: nat)
    requires Sized(s) && t < |s.pc| && Effect(s, s', t, q, v) && Fits(s.n, t, s.pc[t])
    requires c < s.n && (s.pc[t].ASet? ==> v.pend == ViewOf(s, t).pend && v.inj == ViewOf(s, t).inj)
    requires c == t && (s.pend[t] || s.inj[t] || Committed(s.pc[t])) ==>
               v.pend || v.inj || Committed(q) || Notifies(q, c)
    requires Notifies(q, c) || Tracked(s, c)
    ensures Tracked(s', c)
  {
    if Notifies(q, c) {
      assert Notifies(s'.pc[t], c);
    } else if InFlight(s, c) && !Notifies(s.pc[t], c) {
      var u :| 0 <= u < |s.pc| && Notifies(s.pc[u], c);
      assert Notifies(s'.pc[u], c);
    }
  }

  lemma StepInv(s: State, t: nat, ch: Choice)
    requires Inv(s) && t < |s.pc|
    ensures Inv(Step(s, t, ch))
  {
    hide Act, Step, Committed, Tracked, Fits;
    var (q, v) := Act(t, s.n, s.hw, s.pc[t], ViewOf(s, t), ch);
    var s' := Step(s, t, ch);
    StepEffect(s, t, ch);
    StepFits(t, s.n, s.hw, s.pc[t], ViewOf(s, t), ch);
    StepCovers(t, s.n, s.hw, s.pc[t], ViewOf(s, t), ch);
    if v.info.pending {
      StepTracked(s, s', t, q, v, v.info.target);
    }
  }

  lemma InitInv(s: State)
    requires Init(s)
    ensures Inv(s)
  {
  }

  /** A reset, taken as one step, keeps the bookkeeping when no VCPU is half way through an
      injection. */
  lemma ResetTracks(s: State)
    requires Inv(s) && forall c :: 0 <= c < s.n ==> !HalfInjected(s, c)
    ensures Inv(Reset(s))
  {
    var s' := Reset(s);
    assert forall c :: 0 <= c < s.n ==> HalfInjected(s', c) == HalfInjected(s, c);
    if s'.info.pending && InFlight(s, s.info.target) {
      var u :| 0 <= u < |s.pc| && Notifies(s.pc[u], s.info.target);
      assert Notifies(s'.pc[u], s.info.target);
    }
  }

  lemma {:induction false} RunInv(run: seq<State>, k: nat)
    requires IsRun(run) && k < |run|
    ensures Inv(run[k])
  {
    hide Inv, Step;
    if k == 0 {
      InitInv(run[0]);
    } else {
      RunInv(run, k - 1);
      var s := run[k - 1];
      assert NextOrReset(s, run[k]);
      if Next(s, run[k]) {
        var t: nat, ch: Choice :| t < |s.pc| && run[k] == Step(s, t, ch);
        StepInv(s, t, ch);
      } else {
        ResetTracks(s);
      }
    }
  }

  /** No lost interrupt: whenever the word is pending for VCPU c, one of c's two bits is set, or
      an operation under way is about to see to it. */
  lemma NoLostInterrupt(run: seq<State>, k: nat)
    requires IsRun(run) && k < |run| && run[k].info.pending
    ensures Sized(run[k]) && run[k].info.target < run[k].n && Tracked(run[k], run[k].info.target)
  {
    hide IsRun, Tracked;
    RunInv(run, k);
  }

  /** Once everybody is idle, a pending interrupt shows in its target's bits. */
  lemma PendingShows(run: seq<State>, k: nat)
    requires IsRun(run) && k < |run| && run[k].info.pending && forall t :: 0 <= t < |run[k].pc| ==> run[k].pc[t].Idle?
    ensures var s := run[k]; Sized(s) && s.info.target < s.n && (s.pend[s.info.target] || s.inj[s.info.target])
  {
    hide IsRun;
    RunInv(run, k);
  }

  // ---------- a reset in between loses the interrupt ----------

  function Hw(info: Info, pend: bool, inj: bool, vcpu: Pc, device: Pc): State {
    State(1, true, info, [pend], [inj], [vcpu, device])
  }

  /** One VCPU and one device, a hardware interrupt: asserted, and injected up to the first of
      the two bits; reset; and the VCPU goes on. The interrupt is pending, and no bit says so. */
  lemma ResetCanLose() returns (run: seq<State>)
    ensures |run| == 10 && Init(run[0]) && (forall k :: 0 <= k < 9 && k != 7 ==> Next(run[k], run[k + 1]))
    ensures Sized(run[7]) && HalfInjected(run[7], 0) && run[8] == Reset(run[7])
    ensures run[9] == Hw(Info(0, true, true), false, false, Idle, Idle)
  {
    hide Next, Step;
    var x, y := Info(0, true, false), Info(0, true, true);
    run := [Hw(NO_INFO, false, false, Idle, Idle), Hw(NO_INFO, false, false, Idle, AStore(0)),
            Hw(x, false, false, Idle, ASet(0)), Hw(x, true, false, Idle, Idle), Hw(x, true, false, IRead, Idle),
            Hw(x, true, false, ICas(x), Idle), Hw(y, true, false, IInj, Idle), Hw(y, true, true, IPend, Idle),
            Hw(y, true, false, IPend, Idle), Hw(y, false, false, Idle, Idle)];
    DeviceStep(NO_INFO, false, Idle, Assert(0));
    DeviceStep(NO_INFO, false, AStore(0), Inject);
    DeviceStep(x, false, ASet(0), Inject);
    VcpuStep(View(x, true, false), Idle);
    VcpuStep(View(x, true, false), IRead);
    VcpuStep(View(x, true, false), ICas(x));
    VcpuStep(View(y, true, false), IInj);
    VcpuStep(View(y, true, false), IPend);
  }

  lemma DeviceStep(info: Info, pend: bool, p: Pc, op: Op)
    ensures var (q, v) := Act(1, 1, true, p, View(info, false, false), Choice(op, false));
            Next(Hw(info, pend, false, Idle, p), Hw(v.info, pend || Notifies(p, 0), false, Idle, q))
  {
    hide Act;
    var s := Hw(info, pend, false, Idle, p);
    var (q, v) := Act(1, 1, true, p, View(info, false, false), Choice(op, false));
    assert Step(s, 1, Choice(op, false)) == Hw(v.info, pend || Notifies(p, 0), false, Idle, q);
  }

  lemma VcpuStep(v: View, p: Pc)
    requires !p.ASet?
    ensures var (q, v') := Act(0, 1, true, p, v, Choice(Inject, false));
            Next(Hw(v.info, v.pend, v.inj, p, Idle), Hw(v'.info, v'.pend, v'.inj, q, Idle))
  {
    hide Act;
    var s := Hw(v.info, v.pend, v.inj, p, Idle);
    var (q, v') := Act(0, 1, true, p, v, Choice(Inject, false));
    assert Step(s, 0, Choice(Inject, false)) == Hw(v'.info, v'.pend, v'.inj, q, Idle);
  }

  // ---------- and so it does from any such state ----------

  /** Steps of any threads, without a reset. */
  ghost predicate Steps(run: seq<State>) {
    run != [] && forall k :: 0 <= k < |run| - 1 ==> Next(run[k], run[k + 1])
  }

  function Last(run: seq<State>): State
    requires run != []
  {
    run[|run| - 1]
  }

  lemma JoinSteps(a: seq<State>, b: seq<State>)
    requires Steps(a) && Steps(b) && Last(a) == b[0]
    ensures Steps(a + b[1..]) && (a + b[1..])[0] == a[0] && Last(a + b[1..]) == Last(b)
  {
    var run := a + b[1..];
    forall k | 0 <= k < |run| - 1
      ensures Next(run[k], run[k + 1])
    {
      if k >= |a| - 1 {
        assert run[k] == b[k - (|a| - 1)] && run[k + 1] == b[k + 1 - (|a| - 1)];
      }
    }
  }

  /** What a thread other than c's own leaves of VCPU c. */
  ghost predicate Spares(s: State, s': State, c: nat) {
    && Sized(s) && Sized(s') && s'.n == s.n && s'.hw == s.hw && |s'.pc| == |s.pc| && c < s.n
    && s'.pc[c] == s.pc[c] && s'.inj[c] == s.inj[c]
  }

  /** How many steps a thread takes at most to become idle, if no other thread does anything. */
  function Left(p: Pc, info: Info): nat {
    match p
    case Idle => 0
    case ASet(_) => 1
    case AStore(_) => 2
    case RCas(_, cur) => if cur == info then 2 else 4
    case RRead(_) => 3
    case DStore => 1
    case IPend => 1
    case IInj => 2
    case ICas(cur) => if cur == info then 3 else 5
    case IRead => 4
    case USet => 1
    case UCheck => 2
    case UCas(_, cur) => if cur == info then 3 else 5
    case URead(_) => 4
    case UClr(_) => 5
  }

  lemma LeftDecreases(t: nat, n: nat, hw: bool, p: Pc, v: View, ch: Choice)
    requires !p.Idle?
    ensures var (q, v') := Act(t, n, hw, p, v, ch); Left(q, v'.info) < Left(p, v.info)
  {
  }

  /** A thread finishes what it is doing. */
  lemma {:induction false} Finishes(s: State, u: nat, c: nat) returns (run: seq<State>)
    requires Sized(s) && u < |s.pc| && c < s.n && c != u
    ensures Steps(run) && run[0] == s && Spares(s, Last(run), c) && Last(run).pc[u].Idle?
    decreases Left(s.pc[u], s.info)
  {
    hide Act, Left;
    if s.pc[u].Idle? {
      run := [s];
    } else {
      var ch := Choice(Deassert, false);
      var s' := Step(s, u, ch);
      StepEffect(s, u, ch);
      LeftDecreases(u, s.n, s.hw, s.pc[u], ViewOf(s, u), ch);
      var rest := Finishes(s', u, c);
      assert Next(s, s');
      JoinSteps([s, s'], rest);
      run := [s, s'] + rest[1..];
    }
  }

  /** An idle thread asserts the interrupt for VCPU c. */
  lemma Asserts(s: State, u: nat, c: nat) returns (run: seq<State>)
    requires Sized(s) && u < |s.pc| && s.pc[u].Idle? && c < s.n && c != u
    ensures Steps(run) && run[0] == s && Spares(s, Last(run), c) && Last(run).info == Info(c, true, false)
  {
    hide Act;
    var ch := Choice(Assert(c), false);
    var s1 := Step(s, u, ch);
    StepEffect(s, u, ch);
    AssertActs(u, s.n, s.hw, ViewOf(s, u), c);
    var s2 := Step(s1, u, ch);
    StepEffect(s1, u, ch);
    AssertActs(u, s.n, s.hw, ViewOf(s1, u), c);
    assert Next(s, s1) && Next(s1, s2);
    run := [s, s1, s2];
  }

  lemma AssertActs(u: nat, n: nat, hw: bool, v: View, c: nat)
    requires c < n
    ensures Act(u, n, hw, Idle, v, Choice(Assert(c), false)) == (AStore(c), v)
    ensures Act(u, n, hw, AStore(c), v, Choice(Assert(c), false)) == (ASet(c), v.(info := Info(c, true, false)))
  {
  }

  function MarkersOf(s: State, c: nat): nat { Count(s.pc, p => Notifies(p, c)) }

  /** Everybody who is about to mark VCPU c does so. */
  lemma {:induction false} Drains(s: State, c: nat) returns (run: seq<State>)
    requires Sized(s) && c < s.n && s.pc[c].IPend?
    ensures Steps(run) && run[0] == s && Spares(s, Last(run), c) && Last(run).info == s.info && !InFlight(Last(run), c)
    decreases MarkersOf(s, c)
  {
    hide Act, Count;
    CountBound(s.pc, p => Notifies(p, c));
    if InFlight(s, c) {
      var u: nat :| u < |s.pc| && Notifies(s.pc[u], c);
      var ch := Choice(Deassert, false);
      var s' := Step(s, u, ch);
      StepEffect(s, u, ch);
      MarkAct(u, s.n, s.hw, ViewOf(s, u), c);
      CountUpdate(s.pc, u, Idle, p => Notifies(p, c));
      assert s'.pc == s.pc[u := Idle] && MarkersOf(s', c) < MarkersOf(s, c);
      var rest := Drains(s', c);
      assert Next(s, s');
      JoinSteps([s, s'], rest);
      run := [s, s'] + rest[1..];
    } else {
      run := [s];
    }
  }

  lemma MarkAct(u: nat, n: nat, hw: bool, v: View, c: nat)
    ensures Act(u, n, hw, ASet(c), v, Choice(Deassert, false)) == (Idle, v)
  {
  }

  /** A half-injected VCPU whose in-injection bit is gone clears the last trace of the interrupt. */
  lemma Clears(s: State, c: nat) returns (s': State)
    requires Sized(s) && c < s.n && s.pc[c].IPend? && !s.inj[c] && !InFlight(s, c) && s.info.pending
    requires s.info.target == c
    ensures Next(s, s') && Sized(s') && s'.n == s.n && s'.info == s.info && !Tracked(s', c)
  {
    hide Act;
    var ch := Choice(Deassert, false);
    s' := Step(s, c, ch);
    StepEffect(s, c, ch);
    LastAct(c, s.n, s.hw, ViewOf(s, c), ch);
    forall u | 0 <= u < |s'.pc|
      ensures !Notifies(s'.pc[u], c)
    {
      assert !Notifies(s.pc[u], c);
    }
  }

  /** From any state with a VCPU half way through an injection and some other thread, for hardware
      and software interrupts alike, the reset can be followed by steps after which the interrupt
      is pending, no bit says so, and nobody is about to set one. */
  lemma ResetLoses(s: State, c: nat) returns (run: seq<State>)
    requires Inv(s) && c < s.n && HalfInjected(s, c) && |s.pc| > 1
    ensures Steps(run) && run[0] == Reset(s) && Lost(Last(run))
  {
    hide Inv, Act, Step, Next, Tracked, InFlight, Notifies;
    ResetSpares(s, c);
    var u := if c == 0 then 1 else 0;
    var a := Finishes(Reset(s), u, c);
    var b := Asserts(Last(a), u, c);
    JoinSteps(a, b);
    var ab := a + b[1..];
    var d := Drains(Last(ab), c);
    JoinSteps(ab, d);
    var abd := ab + d[1..];
    var s' := Clears(Last(abd), c);
    JoinSteps(abd, [Last(abd), s']);
    run := abd + [Last(abd), s'][1..];
  }

  lemma ResetSpares(s: State, c: nat)
    requires Inv(s) && c < s.n && HalfInjected(s, c)
    ensures Sized(s) && Sized(Reset(s)) && Reset(s).n == s.n && Reset(s).pc == s.pc && !Reset(s).inj[c]
  {
  }

  ghost predicate Lost(s: State) { Sized(s) && s.info.pending && s.info.target < s.n && !Tracked(s, s.info.target) }

  /** No steps after the reset lose the interrupt. */
  ghost predicate Harmless(s: State)
    requires Sized(s)
  {
    forall run :: Steps(run) && run[0] == Reset(s) ==> !Lost(Last(run))
  }

  /** A reset is harmless exactly when it is taken while no VCPU is half way through an injection:
      between its two bit operations the reset moves its in-injection bit back to the pending bit,
      or drops it, and the VCPU then clears what there is. A VCPU that is the only thread there is
      can at worst lose what was pending. */
  lemma ResetExactly(s: State)
    requires Inv(s) && Sized(s)
    ensures Harmless(s) <==>
            (forall c :: 0 <= c < s.n ==> !HalfInjected(s, c)) || (|s.pc| == 1 && !(s.hw && s.info.pending))
  {
    hide Inv, Lost;
    if c: nat :| c < s.n && HalfInjected(s, c) {
      if |s.pc| > 1 {
        var run := ResetLoses(s, c);
        assert Steps(run) && run[0] == Reset(s) && Lost(Last(run));
      } else if s.hw && s.info.pending {
        AloneLoses(s);
      } else {
        forall run | Steps(run) && run[0] == Reset(s)
          ensures !Lost(Last(run))
        {
          AloneKeeps(s, run);
        }
      }
    } else {
      ResetTracks(s);
      forall run | Steps(run) && run[0] == Reset(s)
        ensures !Lost(Last(run))
      {
        StepsInv(run);
        InvKeeps(Last(run));
      }
    }
  }

  lemma AloneLoses(s: State)
    requires Inv(s) && Sized(s) && |s.pc| == 1 && HalfInjected(s, 0) && s.hw && s.info.pending
    ensures !Harmless(s)
  {
    hide Act, Step, Next, Tracked;
    assert !Notifies(s.pc[0], 0);
    var s' := Clears(Reset(s), 0);
    var run := [Reset(s), s'];
    assert Steps(run) && Last(run) == s' && Lost(s');
  }

  lemma AloneKeeps(s: State, run: seq<State>)
    requires Inv(s) && Sized(s) && |s.pc| == 1 && HalfInjected(s, 0) && !(s.hw && s.info.pending)
    requires Steps(run) && run[0] == Reset(s)
    ensures !Lost(Last(run))
  {
    if |run| > 1 {
      var r := run[0];
      assert Next(r, run[1]);
      var t: nat, ch: Choice :| t < |r.pc| && run[1] == Step(r, t, ch);
      AloneStep(s, ch);
      var tail := run[1..];
      forall k | 0 <= k < |tail| - 1
        ensures Next(tail[k], tail[k + 1])
      {
        assert Next(run[k + 1], run[k + 2]);
      }
      StepsInv(tail);
      InvKeeps(Last(tail));
    }
  }

  lemma AloneStep(s: State, ch: Choice)
    requires Inv(s) && Sized(s) && |s.pc| == 1 && HalfInjected(s, 0) && !(s.hw && s.info.pending)
    ensures Inv(Step(Reset(s), 0, ch))
  {
    hide Act;
    StepEffect(Reset(s), 0, ch);
    LastAct(0, s.n, s.hw, ViewOf(Reset(s), 0), ch);
  }

  lemma InvKeeps(s: State)
    requires Inv(s)
    ensures !Lost(s)
  {
  }

  lemma {:induction false} StepsInv(run: seq<State>)
    requires Steps(run) && Inv(run[0])
    ensures Inv(Last(run))
  {
    hide Inv, Step;
    if |run| > 1 {
      var k := |run| - 2;
      assert Steps(run[..k + 1]);
      StepsInv(run[..k + 1]);
      assert Next(run[k], run[k + 1]);
      var t: nat, ch: Choice :| t < |run[k].pc| && run[k + 1] == Step(run[k], t, ch);
      StepInv(run[k], t, ch);
    }
  }

  lemma LastAct(t: nat, n: nat, hw: bool, v: View, ch: Choice)
    ensures Act(t, n, hw, IPend, v, ch) == (Idle, v.(pend := false))
  {
  }

  // ---------- no interrupt is injected twice ----------

  /** VCPU c has the interrupt in injection. */
  predicate HasIt(inj: bool, p: Pc) {
    inj || p.IInj? || ((p.URead? || p.UCas?) && !p.report.inInjection)
  }

  predicate Injects(p: Pc) { p.IRead? || p.ICas? || p.IInj? }

  predicate Careful(t: nat, p: Pc, inj: bool) {
    && (Injects(p) ==> !inj)
    && (p.ICas? ==> p.cur.pending && p.cur.target == t)
    && (p.RCas? ==> !p.cur.injected)
    && (p.UClr? ==> !p.report.inInjection)
  }

  ghost predicate InvOnce(s: State) {
    && Inv(s)
    && (forall t :: 0 <= t < |s.pc| ==> Careful(t, s.pc[t], t < s.n && s.inj[t]))
    && (s.info.injected ==> HasIt(s.inj[s.info.target], s.pc[s.info.target]))
  }

  lemma StepCareful(t: nat, n: nat, hw: bool, p: Pc, v: View, ch: Choice)
    requires Fits(n, t, p) && Careful(t, p, v.inj)
    ensures var (q, v') := Act(t, n, hw, p, v, ch);
            && (t < n ==> Careful(t, q, v'.inj)) && (t >= n ==> v'.inj == v.inj && Careful(t, q, false))
            && (t < n && v'.info.injected && v'.info.target == t ==>
                  (v.info.injected && v.info.target == t ==> HasIt(v.inj, p)) ==> HasIt(v'.inj, q))
            && (v'.info.injected && v'.info.target != t ==> v.info == v'.info)
  {
  }

  lemma OthersLeave(t: nat, n: nat, hw: bool, p: Pc, v: View, ch: Choice)
    requires Fits(n, t, p) && Careful(t, p, v.inj) && v.info.injected && v.info.target != t && !p.AStore? && !p.DStore?
    ensures Act(t, n, hw, p, v, ch).1.info == v.info
  {
  }

  lemma StepOnce(s: State, t: nat, ch: Choice)
    requires InvOnce(s) && t < |s.pc|
    ensures InvOnce(Step(s, t, ch))
  {
    hide Act, Step, Careful, HasIt, Tracked, Fits;
    var (q, v) := Act(t, s.n, s.hw, s.pc[t], ViewOf(s, t), ch);
    StepEffect(s, t, ch);
    StepCareful(t, s.n, s.hw, s.pc[t], ViewOf(s, t), ch);
    StepInv(s, t, ch);
  }

  lemma {:induction false} RunOnce(run: seq<State>, k: nat)
    requires IsRunNoReset(run) && k < |run|
    ensures InvOnce(run[k])
  {
    hide Step;
    if k > 0 {
      hide InvOnce;
      RunOnce(run, k - 1);
      assert Next(run[k - 1], run[k]);
      var t: nat, ch: Choice :| t < |run[k - 1].pc| && run[k] == Step(run[k - 1], t, ch);
      StepOnce(run[k - 1], t, ch);
    }
  }

  /** When the compare-and-swap of `pending_irq` succeeds, the word was not marked injected, by this
      VCPU or any other. */
  lemma NotInjectedTwice(run: seq<State>, k: nat, t: nat)
    requires IsRunNoReset(run) && k < |run| && t < |run[k].pc| && run[k].pc[t] == ICas(run[k].info)
    ensures t == run[k].info.target && run[k].info.pending && !run[k].info.injected
  {
    hide IsRunNoReset;
    RunOnce(run, k);
    assert Careful(t, run[k].pc[t], t < run[k].n && run[k].inj[t]);
  }

  /** While VCPU c has the interrupt in injection, only a new assertion or a withdrawal touches
      the word; no re-routing and no other VCPU does. */
  lemma InjectionIsExclusive(run: seq<State>, k: nat, t: nat, ch: Choice)
    requires IsRunNoReset(run) && k < |run| && t < |run[k].pc| && run[k].info.injected && t != run[k].info.target
    requires !run[k].pc[t].AStore? && !run[k].pc[t].DStore?
    ensures Sized(run[k]) && Step(run[k], t, ch).info == run[k].info
  {
    hide IsRunNoReset;
    RunOnce(run, k);
    var s := run[k];
    hide Act, Step;
    StepEffect(s, t, ch);
    assert Careful(t, s.pc[t], t < s.n && s.inj[t]) && Fits(s.n, t, s.pc[t]);
    OthersLeave(t, s.n, s.hw, s.pc[t], ViewOf(s, t), ch);
  }
}
