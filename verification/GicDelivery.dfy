/** How often an interrupt is delivered: what the compare-and-swaps of the distributor add up to
    over a run without a reset, and what each operation does when nothing comes between. */
module GicDelivery {
  import opened Counting
  import opened GicInjection

  // ---------- traces ----------

  /** Whose step it was, and the choices made. */
  datatype Label = Label(t: nat, ch: Choice)

  ghost predicate IsTrace(run: seq<State>, labels: seq<Label>) {
    && |run| == |labels| + 1 && Init(run[0])
    && forall k :: 0 <= k < |labels| ==>
         && Sized(run[k]) && labels[k].t < |run[k].pc| && run[k + 1] == Step(run[k], labels[k].t, labels[k].ch)
  }

  /** Thread t's next step stores a pending word: an assertion, or a re-routing that goes through. */
  predicate Asks(s: State, t: nat)
    requires t < |s.pc|
  {
    s.pc[t].AStore? || (s.pc[t].RCas? && s.pc[t].cur == s.info)
  }

  /** Its compare-and-swap in `pending_irq` goes through. */
  predicate Injects(s: State, t: nat)
    requires t < |s.pc|
  {
    s.pc[t].ICas? && s.pc[t].cur == s.info
  }

  /** A report's compare-and-swap goes through. */
  predicate Reports(s: State, t: nat)
    requires t < |s.pc|
  {
    s.pc[t].UCas? && s.pc[t].cur == s.info
  }

  /** The guest has handled the interrupt, or has taken it and it is active. */
  predicate Taken(k: Report) { k.state.Inactive? || k.state.Active? }

  /** The interrupt has come back from the VCPU as pending still: it was not taken. */
  predicate Returns(s: State, t: nat)
    requires t < |s.pc|
  {
    Reports(s, t) && !Taken(s.pc[t].report) && !s.pc[t].report.inInjection && s.info.pending
  }

  /** Waits to be injected. */
  predicate Waits(s: State) { s.info.pending && !s.info.injected }

  /** What a step is, of those that are counted. */
  datatype Kind = Ask | Injection | Return | Other

  function KindOf(s: State, t: nat): Kind
    requires t < |s.pc|
  {
    if Asks(s, t) then Ask else if Injects(s, t) then Injection else if Returns(s, t) then Return else Other
  }

  /** How many steps from i up to j are of a kind. */
  ghost function Number(run: seq<State>, labels: seq<Label>, kind: Kind, i: nat, j: nat): nat
    requires IsTrace(run, labels) && i <= j <= |labels|
    decreases j
  {
    if i == j then 0
    else Number(run, labels, kind, i, j - 1) + One(KindOf(run[j - 1], labels[j - 1].t) == kind)
  }

  lemma TraceIsRun(run: seq<State>, labels: seq<Label>)
    requires IsTrace(run, labels)
    ensures IsRunNoReset(run)
  {
    hide Step;
    forall k | 0 <= k < |run| - 1
      ensures Next(run[k], run[k + 1])
    {
      assert run[k + 1] == Step(run[k], labels[k].t, labels[k].ch);
    }
  }

  lemma TraceOnce(run: seq<State>, labels: seq<Label>, k: nat)
    requires IsTrace(run, labels) && k <= |labels|
    ensures InvOnce(run[k])
  {
    hide InvOnce, Step;
    TraceIsRun(run, labels);
    RunOnce(run, k);
  }

  // ---------- one injection for each assertion ----------

  /** What a step does to the word's waiting to be injected. */
  lemma StepWaits(s: State, t: nat, ch: Choice)
    requires InvOnce(s) && Sized(s) && t < |s.pc|
    ensures var s' := Step(s, t, ch);
            match KindOf(s, t)
            case Ask => Waits(s')
            case Injection => Waits(s) && !Waits(s')
            case Return => true
            case Other => Waits(s') ==> Waits(s)
    ensures Step(s, t, ch).info.pending ==> s.info.pending || Asks(s, t)
    ensures Reports(s, t) && Taken(s.pc[t].report) ==> !Step(s, t, ch).info.pending && Step(s, t, ch).pc[t].UCheck?
  {
    hide Act, Step, Tracked, Fits;
    StepEffect(s, t, ch);
    if Injects(s, t) { InjectedAnew(s, t); }
    assert Careful(t, s.pc[t], t < s.n && s.inj[t]);
    ActWaits(t, s.n, s.hw, s.pc[t], ViewOf(s, t), ch);
  }

  lemma InjectedAnew(s: State, t: nat)
    requires InvOnce(s) && t < |s.pc| && Injects(s, t)
    ensures Waits(s)
  {
    hide Tracked, Fits;
    assert Careful(t, s.pc[t], t < s.n && s.inj[t]);
  }

  lemma ActWaits(t: nat, n: nat, hw: bool, p: Pc, v: View, ch: Choice)
    ensures var (q, v') := Act(t, n, hw, p, v, ch);
            var x, x' := v.info, v'.info;
            && (p.AStore? ==> x'.pending && !x'.injected)
            && (p.RCas? ==> if p.cur == x then x'.pending && !x'.injected else x' == x)
            && (p.ICas? ==> if p.cur == x then x' == x.(injected := true) else x' == x)
            && (p.UCas? && p.cur != x ==> x' == x)
            && (p.UCas? && p.cur == x && Taken(p.report) ==> !x'.pending && q.UCheck?)
            && (p.UCas? && p.cur == x && !Taken(p.report) ==>
                  x'.pending == x.pending && (p.report.inInjection ==> x' == x))
            && (!p.AStore? && !p.RCas? && !p.ICas? && !p.UCas? ==> x' == x || !x'.pending)
  {
  }

  /** Over any stretch of any run: the injections are no more than the assertions and re-routings,
      the returns from VCPUs that had not taken the interrupt, and one for what waited at first. */
  lemma {:induction false} OncePerAssertion(run: seq<State>, labels: seq<Label>, i: nat, j: nat)
    requires IsTrace(run, labels) && i <= j <= |labels|
    ensures Number(run, labels, Injection, i, j) + One(Waits(run[j])) <=
            Number(run, labels, Ask, i, j) + Number(run, labels, Return, i, j) + One(Waits(run[i]))
  {
    hide Step, InvOnce, KindOf, Waits;
    if i < j {
      OncePerAssertion(run, labels, i, j - 1);
      TraceOnce(run, labels, j - 1);
      StepWaits(run[j - 1], labels[j - 1].t, labels[j - 1].ch);
    }
  }

  /** Once the word is not pending it stays so, and nothing is injected, until the next assertion. */
  lemma {:induction false} QuietUntilAsked(run: seq<State>, labels: seq<Label>, i: nat, j: nat)
    requires IsTrace(run, labels) && i <= j <= |labels| && !run[i].info.pending
    requires forall k :: i <= k < j ==> !Asks(run[k], labels[k].t)
    ensures !run[j].info.pending && Number(run, labels, Injection, i, j) == 0
  {
    hide Step, InvOnce, Asks;
    if i < j {
      QuietUntilAsked(run, labels, i, j - 1);
      TraceOnce(run, labels, j - 1);
      StepWaits(run[j - 1], labels[j - 1].t, labels[j - 1].ch);
    }
  }

  /** A report that the interrupt has been handled, or is active, settles it: until the next
      assertion the word is not pending and no VCPU injects it. */
  lemma ReportSettles(run: seq<State>, labels: seq<Label>, i: nat, j: nat)
    requires IsTrace(run, labels) && i < j <= |labels|
    requires Reports(run[i], labels[i].t) && Taken(run[i].pc[labels[i].t].report)
    requires forall k :: i <= k < j ==> !Asks(run[k], labels[k].t)
    ensures !run[j].info.pending && Number(run, labels, Injection, i, j) == 0
  {
    hide Step, InvOnce, Asks, Reports;
    TraceOnce(run, labels, i);
    StepWaits(run[i], labels[i].t, labels[i].ch);
    QuietUntilAsked(run, labels, i + 1, j);
    NumberFrom(run, labels, i, j);
    ReportIsNoInjection(run[i], labels[i].t);
  }

  /** And where the line is not asserted when such a report comes to its last check, at j, it ends
      there and leaves every pending bit as it is. */
  lemma ReportMarksNothing(run: seq<State>, labels: seq<Label>, i: nat, j: nat)
    requires IsTrace(run, labels) && i < j < |labels|
    requires Reports(run[i], labels[i].t) && Taken(run[i].pc[labels[i].t].report)
    requires forall k :: i <= k < j ==> !Asks(run[k], labels[k].t)
    requires (forall k :: i < k < j ==> labels[k].t != labels[i].t) && labels[j].t == labels[i].t
    requires !labels[j].ch.asserted
    ensures |run[j + 1].pc| == |run[i].pc| && run[j + 1].pc[labels[i].t].Idle? && run[j + 1].pend == run[j].pend
  {
    hide Step, InvOnce, Asks, Reports;
    var t := labels[i].t;
    TraceOnce(run, labels, i);
    StepWaits(run[i], t, labels[i].ch);
    StepEffect(run[i], t, labels[i].ch);
    ReportSettles(run, labels, i, j);
    StillThere(run, labels, t, i + 1, j);
    StepEffect(run[j], t, labels[j].ch);
    LastCheck(run[j], t, labels[j].ch);
    assert run[j + 1] == Step(run[j], labels[j].t, labels[j].ch);
  }

  lemma ReportIsNoInjection(s: State, t: nat)
    requires t < |s.pc| && Reports(s, t)
    ensures !Injects(s, t) && !Asks(s, t)
  {
  }

  lemma {:induction false} NumberFrom(run: seq<State>, labels: seq<Label>, i: nat, j: nat)
    requires IsTrace(run, labels) && i < j <= |labels|
    ensures Number(run, labels, Injection, i, j) ==
            One(KindOf(run[i], labels[i].t) == Injection) + Number(run, labels, Injection, i + 1, j)
    decreases j
  {
    hide KindOf, IsTrace;
    if i + 1 < j { NumberFrom(run, labels, i, j - 1); }
  }

  lemma LastCheck(s: State, t: nat, ch: Choice)
    requires Sized(s) && t < |s.pc| && s.pc[t].UCheck? && !s.info.pending && !ch.asserted
    ensures Step(s, t, ch).pc[t].Idle? && Step(s, t, ch).pend == s.pend
  {
  }

  /** A thread that takes no step stays where it is. */
  lemma {:induction false} StillThere(run: seq<State>, labels: seq<Label>, t: nat, i: nat, j: nat)
    requires IsTrace(run, labels) && i <= j <= |labels| && t < |run[i].pc|
    requires forall k :: i <= k < j ==> labels[k].t != t
    ensures |run[j].pc| == |run[i].pc| && run[j].pc[t] == run[i].pc[t]
  {
    hide Step;
    if i < j {
      StillThere(run, labels, t, i, j - 1);
      StepEffect(run[j - 1], labels[j - 1].t, labels[j - 1].ch);
    }
  }

  // ---------- what an operation does when nothing comes between ----------

  /** Thread t goes on alone until it is idle. */
  function Finish(s: State, t: nat, ch: Choice): State
    requires Sized(s) && t < |s.pc|
    decreases Left(s.pc[t], s.info)
  {
    if s.pc[t].Idle? then s
    else
      StepEffect(s, t, ch);
      LeftDecreases(t, s.n, s.hw, s.pc[t], ViewOf(s, t), ch);
      Finish(Step(s, t, ch), t, ch)
  }

  /** An idle thread takes up an operation and finishes it alone. */
  function Alone(s: State, t: nat, op: Op, asserted: bool): State
    requires Sized(s) && t < |s.pc| && s.pc[t].Idle?
  {
    var ch := Choice(op, asserted);
    StepEffect(s, t, ch);
    Finish(Step(s, t, ch), t, ch)
  }

  ghost predicate Free(s: State, t: nat) { Sized(s) && t < |s.pc| && s.pc[t].Idle? }

  /** The state with what thread t sees replaced. */
  function With(s: State, t: nat, q: Pc, v: View): State
    requires Sized(s) && t < |s.pc|
  {
    s.(info := v.info, pend := if t < s.n then s.pend[t := v.pend] else s.pend,
       inj := if t < s.n then s.inj[t := v.inj] else s.inj, pc := s.pc[t := q])
  }

  /** A thread on its own up to the point where it is idle or marks a target. */
  function Settle(t: nat, n: nat, hw: bool, p: Pc, v: View, ch: Choice): (Pc, View)
    decreases Left(p, v.info)
  {
    if p.Idle? || p.ASet? then (p, v)
    else
      LeftDecreases(t, n, hw, p, v, ch);
      var (q, v') := Act(t, n, hw, p, v, ch);
      Settle(t, n, hw, q, v', ch)
  }

  predicate Device(p: Pc) { p.Idle? || p.AStore? || p.ASet? || p.RRead? || p.RCas? || p.DStore? }

  /** Where a thread may be: one from outside only in the operations of a device. */
  predicate Placed(n: nat, t: nat, p: Pc, v: View) { t < n || (Device(p) && !v.pend && !v.inj) }

  lemma ActPlaced(t: nat, n: nat, hw: bool, p: Pc, v: View, ch: Choice)
    requires Placed(n, t, p, v)
    ensures var (q, v') := Act(t, n, hw, p, v, ch); Placed(n, t, q, v')
  {
  }

  lemma WithView(s: State, t: nat, q: Pc, v: View)
    requires Sized(s) && t < |s.pc| && Placed(s.n, t, q, v)
    ensures var s' := With(s, t, q, v);
            && Sized(s') && s'.n == s.n && s'.hw == s.hw && |s'.pc| == |s.pc| && s'.pc[t] == q && ViewOf(s', t) == v
            && forall q', v' :: With(s', t, q', v') == With(s, t, q', v')
  {
    var s' := With(s, t, q, v);
    forall q', v'
      ensures With(s', t, q', v') == With(s, t, q', v')
    {
      if t < s.n { assert s'.pend[t := v'.pend] == s.pend[t := v'.pend] && s'.inj[t := v'.inj] == s.inj[t := v'.inj]; }
      assert s'.pc[t := q'] == s.pc[t := q'];
    }
  }

  lemma StepWith(s: State, t: nat, ch: Choice)
    requires Sized(s) && t < |s.pc| && !s.pc[t].ASet?
    ensures var (q, v) := Act(t, s.n, s.hw, s.pc[t], ViewOf(s, t), ch); Step(s, t, ch) == With(s, t, q, v)
  {
    hide Act;
  }

  lemma {:induction false} FinishSettled(s: State, t: nat, p: Pc, v: View, ch: Choice)
    requires Sized(s) && t < |s.pc| && Placed(s.n, t, p, v)
    ensures var (q, v') := Settle(t, s.n, s.hw, p, v, ch);
            && Placed(s.n, t, q, v') && Sized(With(s, t, p, v)) && Sized(With(s, t, q, v'))
            && Finish(With(s, t, p, v), t, ch) == Finish(With(s, t, q, v'), t, ch)
    decreases Left(p, v.info)
  {
    hide Act, Left, With, Step;
    WithView(s, t, p, v);
    if !p.Idle? && !p.ASet? {
      var (q, v') := Act(t, s.n, s.hw, p, v, ch);
      ActPlaced(t, s.n, s.hw, p, v, ch);
      LeftDecreases(t, s.n, s.hw, p, v, ch);
      StepWith(With(s, t, p, v), t, ch);
      FinishSettled(s, t, q, v', ch);
    }
  }

  /** A thread that marks its target sets that VCPU's bit and is idle. */
  lemma FinishMark(s: State, t: nat, c: nat, ch: Choice)
    requires Sized(s) && t < |s.pc| && s.pc[t] == ASet(c) && c < s.n
    ensures Finish(s, t, ch) == s.(pend := s.pend[c := true], pc := s.pc[t := Idle])
  {
    MarkAct(t, s.n, s.hw, ViewOf(s, t), c);
    hide Left;
    assert Step(s, t, ch) == s.(pend := s.pend[c := true], pc := s.pc[t := Idle]);
  }

  /** An operation alone, from what the thread sees: where it settles, and then a mark if any. */
  lemma AloneIs(s: State, t: nat, op: Op, asserted: bool)
    requires Free(s, t)
    ensures var (q, v) := Settle(t, s.n, s.hw, Start(t, s.n, ViewOf(s, t), op), ViewOf(s, t), Choice(op, asserted));
            && (q.ASet? ==> q.c < s.n) && (q.Idle? || q.ASet?) && (t < s.n || (!v.pend && !v.inj))
            && Sized(With(s, t, Idle, v))
            && Alone(s, t, op, asserted) ==
               if q.ASet? then With(s, t, Idle, v).(pend := With(s, t, Idle, v).pend[q.c := true])
               else With(s, t, Idle, v)
  {
    hide Left, Step, With;
    var v0, ch := ViewOf(s, t), Choice(op, asserted);
    var p := Start(t, s.n, v0, op);
    WithView(s, t, Idle, v0);
    StepWith(s, t, ch);
    StartPlaced(t, s.n, v0, op);
    FinishSettled(s, t, p, v0, ch);
    SettleEnds(t, s.n, s.hw, p, v0, ch);
    var (q, v) := Settle(t, s.n, s.hw, p, v0, ch);
    WithView(s, t, q, v);
    WithView(s, t, Idle, v);
    if q.ASet? {
      FinishMark(With(s, t, q, v), t, q.c, ch);
      MarkWith(s, t, q, v);
    }
  }

  lemma MarkWith(s: State, t: nat, q: Pc, v: View)
    requires Sized(s) && t < |s.pc| && q.ASet? && q.c < s.n
    ensures var a, b := With(s, t, q, v), With(s, t, Idle, v);
            Sized(a) && Sized(b) && |a.pc| == |s.pc| &&
            a.(pend := a.pend[q.c := true], pc := a.pc[t := Idle]) == b.(pend := b.pend[q.c := true])
  {
  }

  lemma StartPlaced(t: nat, n: nat, v: View, op: Op)
    requires t < n || (!v.pend && !v.inj)
    ensures Placed(n, t, Start(t, n, v, op), v) && Aims(n, Start(t, n, v, op))
  {
  }

  predicate Aims(n: nat, p: Pc) { p.AStore? || p.ASet? || p.RRead? || p.RCas? ==> p.c < n }

  lemma {:induction false} SettleEnds(t: nat, n: nat, hw: bool, p: Pc, v: View, ch: Choice)
    requires Aims(n, p)
    ensures var q := Settle(t, n, hw, p, v, ch).0; (q.Idle? || q.ASet?) && Aims(n, q)
    decreases Left(p, v.info)
  {
    hide Left;
    if !p.Idle? && !p.ASet? {
      LeftDecreases(t, n, hw, p, v, ch);
      var (q, v') := Act(t, n, hw, p, v, ch);
      SettleEnds(t, n, hw, q, v', ch);
    }
  }

  // ---------- the operations, one by one ----------

  /** `assert_pi`: the interrupt is pending for its target, not injected, and the target's bit is set. */
  lemma AssertAlone(s: State, t: nat, c: nat, asserted: bool)
    requires Free(s, t) && c < s.n
    ensures Alone(s, t, Assert(c), asserted) == s.(info := Info(c, true, false), pend := s.pend[c := true])
  {
    hide Alone;
    AloneIs(s, t, Assert(c), asserted);
    Back(s, t);
  }

  /** A thread that was idle and has changed neither of its bits. */
  lemma Back(s: State, t: nat)
    requires Free(s, t)
    ensures s.pc[t := Idle] == s.pc && (t < s.n ==> s.pend[t := s.pend[t]] == s.pend && s.inj[t := s.inj[t]] == s.inj)
  {
  }

  /** `redirect_spi`: an interrupt that waits to be injected goes to another VCPU; any other stays. */
  lemma RedirectAlone(s: State, t: nat, c: nat, asserted: bool)
    requires Free(s, t) && c < s.n
    ensures Alone(s, t, Redirect(c), asserted) ==
            if Waits(s) then s.(info := Info(c, true, false), pend := s.pend[c := true]) else s
  {
    hide Alone, Settle;
    AloneIs(s, t, Redirect(c), asserted);
    Back(s, t);
    RedirectSettles(t, s.n, s.hw, c, ViewOf(s, t), asserted);
  }

  lemma SettleStep(t: nat, n: nat, hw: bool, p: Pc, v: View, ch: Choice)
    ensures if p.Idle? || p.ASet? then Settle(t, n, hw, p, v, ch) == (p, v)
            else var (q, v') := Act(t, n, hw, p, v, ch); Settle(t, n, hw, p, v, ch) == Settle(t, n, hw, q, v', ch)
  {
    hide Act, Left;
  }

  /** A compare-and-swap that is lost costs a turn and nothing else: the operation goes on from its
      read as if it had just come to it. */
  lemma LostStartsOver(t: nat, n: nat, hw: bool, was: Info, c: nat, k: Report, v: View, ch: Choice)
    requires was != v.info
    ensures Settle(t, n, hw, RCas(c, was), v, ch) == Settle(t, n, hw, RRead(c), v, ch)
    ensures Settle(t, n, hw, ICas(was), v, ch) == Settle(t, n, hw, IRead, v, ch)
    ensures Settle(t, n, hw, UCas(k, was), v, ch) == Settle(t, n, hw, URead(k), v, ch)
  {
    hide Settle, Left;
    SettleStep(t, n, hw, RCas(c, was), v, ch);
    SettleStep(t, n, hw, ICas(was), v, ch);
    SettleStep(t, n, hw, UCas(k, was), v, ch);
  }

  lemma RedirectSettles(t: nat, n: nat, hw: bool, c: nat, v: View, asserted: bool)
    ensures Settle(t, n, hw, RRead(c), v, Choice(Redirect(c), asserted)) ==
            if v.info.pending && !v.info.injected then (ASet(c), v.(info := Info(c, true, false))) else (Idle, v)
  {
    hide Settle, Left;
    var ch := Choice(Redirect(c), asserted);
    SettleStep(t, n, hw, RRead(c), v, ch);
    SettleStep(t, n, hw, Idle, v, ch);
    SettleStep(t, n, hw, RCas(c, v.info), v, ch);
    SettleStep(t, n, hw, ASet(c), v.(info := Info(c, true, false)), ch);
  }

  lemma InjectSettles(t: nat, n: nat, hw: bool, v: View, asserted: bool)
    ensures Settle(t, n, hw, IRead, v, Choice(Inject, asserted)) ==
            (Idle, if v.info.pending && v.info.target == t then View(v.info.(injected := true), false, true) else v)
    ensures Settle(t, n, hw, Idle, v, Choice(Inject, asserted)) == (Idle, v)
  {
    hide Settle, Left;
    var ch, x := Choice(Inject, asserted), v.info.(injected := true);
    SettleStep(t, n, hw, IRead, v, ch);
    SettleStep(t, n, hw, Idle, v, ch);
    SettleStep(t, n, hw, ICas(v.info), v, ch);
    SettleStep(t, n, hw, IInj, v.(info := x), ch);
    SettleStep(t, n, hw, IPend, v.(info := x, inj := true), ch);
    SettleStep(t, n, hw, Idle, View(x, false, true), ch);
  }

  /** `deassert_pi`: a software interrupt is withdrawn, a hardware one is kept. */
  lemma DeassertAlone(s: State, t: nat, asserted: bool)
    requires Free(s, t)
    ensures Alone(s, t, Deassert, asserted) == if s.hw then s else s.(info := NO_INFO)
  {
    hide Alone;
    AloneIs(s, t, Deassert, asserted);
    Back(s, t);
  }

  /** The VCPU's bit is set and it has the interrupt not in injection; and it is pending for it. */
  predicate Injectable(s: State, t: nat)
    requires Sized(s) && t < s.n
  {
    s.pend[t] && !s.inj[t] && s.info.pending && s.info.target == t
  }

  /** `pending_irq`: an interrupt pending for the VCPU is marked injected, and the VCPU's two bits
      change places; otherwise nothing changes. */
  lemma InjectAlone(s: State, t: nat, asserted: bool)
    requires Free(s, t) && t < s.n
    ensures Alone(s, t, Inject, asserted) ==
            if Injectable(s, t) then
              s.(info := s.info.(injected := true), inj := s.inj[t := true], pend := s.pend[t := false])
            else s
  {
    hide Alone, Settle;
    AloneIs(s, t, Inject, asserted);
    Back(s, t);
    InjectSettles(t, s.n, s.hw, ViewOf(s, t), asserted);
  }

  /** What a report makes of a word that is injected at its VCPU. */
  function Settled(x: Info, k: Report): Info {
    match k.state
    case Inactive => Info(x.target, false, false)
    case Active => Info(x.target, false, k.inInjection)
    case Pending => Info(x.target, x.pending, k.inInjection)
    case ActivePending => Info(x.target, x.pending, k.inInjection)
  }

  /** `update_inj_status`: the in-injection bit goes unless the interrupt is still in injection; a
      word injected here is settled as the report says; and what is then pending is marked again. */
  lemma UpdateAlone(s: State, t: nat, k: Report, asserted: bool)
    requires Free(s, t) && t < s.n && (k.inInjection || k.state.Pending? || k.state.Inactive?)
    ensures var x := if s.info.injected && s.info.target == t then Settled(s.info, k) else s.info;
            Alone(s, t, Update(k), asserted) ==
            s.(info := x, inj := if k.inInjection then s.inj else s.inj[t := false],
               pend := if x.pending || asserted then s.pend[t := true] else s.pend)
  {
    hide Alone;
    AloneIs(s, t, Update(k), asserted);
    Back(s, t);
    var ch, v := Choice(Update(k), asserted), ViewOf(s, t);
    var w := if k.inInjection then v else v.(inj := false);
    ReadSettles(t, s.n, s.hw, k, w, asserted);
  }

  lemma ReadSettles(t: nat, n: nat, hw: bool, k: Report, v: View, asserted: bool)
    ensures var x := if v.info.injected && v.info.target == t then Settled(v.info, k) else v.info;
            Settle(t, n, hw, URead(k), v, Choice(Update(k), asserted)) ==
            (Idle, v.(info := x, pend := v.pend || x.pending || asserted))
  {
    hide Settle, Left;
    var x := if v.info.injected && v.info.target == t then Settled(v.info, k) else v.info;
    var ch, w := Choice(Update(k), asserted), v.(info := x);
    SettleStep(t, n, hw, URead(k), v, ch);
    SettleStep(t, n, hw, UCas(k, v.info), v, ch);
    SettleStep(t, n, hw, UCheck, w, ch);
    SettleStep(t, n, hw, USet, w, ch);
    SettleStep(t, n, hw, Idle, w, ch);
    SettleStep(t, n, hw, Idle, w.(pend := true), ch);
  }

  /** From an assertion to its end: VCPU c injects the interrupt, and then the guest's report that it
      has been handled leaves no trace of it; had it come back not taken, it could be injected again. */
  lemma Lifecycle(s: State, t: nat, c: nat)
    requires Free(s, t) && c < s.n && Free(s, c) && !s.inj[c]
    ensures var a := Alone(s, t, Assert(c), false);
            Free(a, c) && a.n == s.n && Injectable(a, c) &&
            var b := Alone(a, c, Inject, false);
            Free(b, c) && b.n == s.n && b.info == Info(c, true, true) && b.inj[c] && !b.pend[c] &&
            var d := Alone(b, c, Update(Report(Inactive, false)), false);
            var e := Alone(b, c, Update(Report(Pending, false)), false);
            && d == s.(info := Info(c, false, false), pend := s.pend[c := false])
            && Free(e, c) && e.n == s.n && Injectable(e, c)
  {
    hide Alone;
    AssertAlone(s, t, c, false);
    var a := Alone(s, t, Assert(c), false);
    InjectAlone(a, c, false);
    var b := Alone(a, c, Inject, false);
    UpdateAlone(b, c, Report(Inactive, false), false);
    UpdateAlone(b, c, Report(Pending, false), false);
    assert a.pend[c := false] == s.pend[c := false] && b.inj[c := false] == s.inj;
  }

  /** With everybody idle, a reset leaves a software interrupt as at the beginning; of a hardware one
      it keeps the word, and whoever had it in injection has it pending. */
  lemma ResetIsFresh(s: State)
    requires Sized(s) && forall t :: 0 <= t < |s.pc| ==> s.pc[t].Idle?
    ensures !s.hw ==> Init(Reset(s))
    ensures s.hw ==> Reset(s).info == s.info && forall c :: 0 <= c < s.n ==>
              !Reset(s).inj[c] && Reset(s).pend[c] == (s.pend[c] || s.inj[c])
  {
  }
}
