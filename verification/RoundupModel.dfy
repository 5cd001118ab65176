/** The VCPU roundup protocol (vcpu_roundup.cpp with the VCPU state word of
    cpu_model.cpp / cpu.hpp) as a transition system: one step is one atomic
    operation of one thread, and any thread may take the next step.

    Thread t < n is the thread of VCPU t; the other threads are callers from outside
    the VM. Both numbers are arbitrary. An `ABORT_WITH` or a failing `ASSERT` moves
    the thread to `Aborted`. */
module RoundupModel {
  import opened MachineWords

  // ---------- shared state ----------

  datatype Base = Off | On | Emulate

  /** The six-state atomic word: its value in the source is 2 * base + roundedup. */
  datatype Word = Word(base: Base, roundedup: bool)

  /** Who a held roundup mutex stands for. Only "free or not" is read by the protocol. The
      name records on whose behalf it is held: a parallel roundup is taken by its first
      caller, handed to the team when that caller returns, and released by the last. */
  datatype Mutex = Free | By(holder: nat) | Team

  datatype State = State(
    n: nat,
    st: seq<Word>,        // Cpu::_state, per VCPU
    resume: seq<bool>,    // Cpu::_resume_sig, per VCPU
    pc: seq<Pc>,          // where each thread is
    mutex: Mutex,         // _waiter_mutex
    sig: bool,            // _sig_emulating
    progressing: nat,     // vcpus_progressing
    waiters: nat,         // _vcpu_waiters
    count: nat,           // parallel_info.count
    numWaiters: nat,      // parallel_info.num_waiters
    countSem: nat,        // parallel_info.count_sem
    resumeSem: nat)       // parallel_info.resume_waiter_sem

  function Inc16(x: nat): nat { (x + 1) % U16 }
  function Dec16(x: nat): nat { if x == 0 then U16 - 1 else x - 1 }

  // ---------- program points ----------

  /** How a VCPU came to call `yield`: an exclusive roundup, or as the first or a later
      caller of `roundup_parallel`. */
  datatype Kind = Excl | First | Later

  /** Why `switch_state_to_on` runs. */
  datatype Why = PowerOn | EndEmulation

  /** The next atomic operation of a thread. `cur` is the local `cur_state` of a CAS loop. */
  datatype Pc =
      // Cpu: switch_state_to_on / _off / _emulating
    | OnLoad(why: Why)
    | OnCas(why: Why, cur: Word)
    | OnNotify
    | OnSig
    | Run
    | OffLoad
    | OffCas(cur: Word)
    | WaitOn
    | EmLoad
    | EmCas
    | WaitResume
    | Emu
      // yield, then begin_roundup's mutex
    | YInc(kind: Kind)
    | YDec(kind: Kind)
    | YSig(kind: Kind)
    | Enter(kind: Kind)
      // do_roundup
    | RuLoad(kind: Kind, i: nat)
    | RuCas(kind: Kind, i: nat, cur: Word)
    | RuDec(kind: Kind, i: nat)
    | RuSig(kind: Kind, i: nat)
    | RuCheck(kind: Kind)
    | RuWait(kind: Kind)
    | Held
      // roundup_parallel after do_roundup (first caller), and the path of later callers
    | ParRead
    | ParStore(callers: nat)
    | ParRelease(left: nat)
    | ParAcquire
    | ParUnyield
    | ParHeld
      // resume_parallel
    | ParSub
    | ParWait
      // resume / resume_from_vcpu; par: called from resume_parallel
    | UnYield(par: bool)
    | EndRead(par: bool)
    | EndStore(par: bool, w: nat)
    | ResLoad(par: bool, i: nat)
    | ResCas(par: bool, i: nat, cur: Word)
    | ResSig(par: bool, i: nat)
    | Exit(par: bool)
      // the release loop of resume_parallel
    | RelCheck
    | RelSem
    | RelDec
      // a caller from outside between calls
    | Idle
    | Aborted

  // ---------- steps ----------

  /** What a thread does where the protocol leaves it the choice. */
  datatype Choice = Emulation | PowerOff | Exclusive | Parallel | Leave

  function At(s: State, t: nat, x: Pc): State
    requires t < |s.pc|
  {
    s.(pc := s.pc[t := x])
  }

  /** `vcpu_notify_done_progressing` up to its signal. */
  function FetchSub(s: State, t: nat, last: Pc, other: Pc): State
    requires t < |s.pc|
  {
    At(s.(progressing := Dec16(s.progressing)), t,
       if s.progressing == 0 then Aborted else if s.progressing == 1 then last else other)
  }

  function Signal(s: State, t: nat, next: Pc): State
    requires t < |s.pc|
  {
    At(s.(sig := true), t, next)
  }

  function AfterYield(kind: Kind): Pc { if kind.Later? then ParAcquire else Enter(kind) }

  /** A VCPU as its own thread sees it: its state word, and whether `_resume_sig` is set. */
  datatype Cpu = Cpu(w: Word, signalled: bool)

  /** The steps of a VCPU thread that touch only its own VCPU: `switch_state_to_on`,
      `_off` and `_emulating`, `wait_if_exec_paused` and `wait_for_resume`. */
  function Own(p: Pc, me: Cpu, c: Choice): (Pc, Cpu) {
    var w := me.w;
    match p
    case OnLoad(why) =>
      (if w.base.On? then Aborted else OnCas(why, w), me)
    case OnCas(why, cur) =>
      if w == cur then
        (if cur == Word(Emulate, true) then OnNotify else Run, me.(w := Word(On, cur.roundedup)))
      else
        (if w.base.On? then Aborted else OnCas(why, w), me)
    case Run => (if c.PowerOff? then OffLoad else EmLoad, me)
    case OffLoad => (if w.base.On? then OffCas(w) else Aborted, me)
    case OffCas(cur) =>
      if w == cur then
        (WaitOn, me.(w := Word(Off, cur.roundedup)))
      else
        (if w.base.On? then OffCas(w) else Aborted, me)
    case WaitOn => (OnLoad(PowerOn), me)
    case EmLoad =>
      (if w == Word(On, true) then WaitResume else if w == Word(On, false) then EmCas else Aborted, me)
    case EmCas =>
      if w == Word(On, false) then
        (Emu, me.(w := Word(Emulate, false)))
      else
        (if w == Word(On, true) then WaitResume else Aborted, me)
    case WaitResume => if me.signalled then (Run, me.(signalled := false)) else (p, me)
    case Emu => (if c.Exclusive? then YInc(Excl) else OnLoad(EndEmulation), me)
    case _ => (p, me)
  }

  function StepCpu(s: State, t: nat, c: Choice): State
    requires t < s.n <= |s.pc| && |s.st| == |s.resume| == s.n
  {
    var p := s.pc[t];
    if p.OnNotify? then FetchSub(s, t, OnSig, Run)
    else if p.OnSig? then Signal(s, t, Run)
    else if p.Emu? && c.Parallel? then
      At(s.(count := Inc16(s.count)), t, YInc(if s.count == 0 then First else Later))
    else
      var (q, me) := Own(p, Cpu(s.st[t], s.resume[t]), c);
      At(s.(st := s.st[t := me.w], resume := s.resume[t := me.signalled]), t, q)
  }

  /** `begin_roundup` and `Cpu::roundup_all` and the wait loop of `do_roundup`. */
  function StepRoundup(s: State, t: nat): State
    requires t < |s.pc| && s.n <= |s.pc| && |s.st| == |s.resume| == s.n
  {
    match s.pc[t]
    case YInc(kind) => At(s.(waiters := Inc16(s.waiters)), t, YDec(kind))
    case YDec(kind) => FetchSub(s, t, YSig(kind), AfterYield(kind))
    case YSig(kind) => Signal(s, t, AfterYield(kind))
    case Enter(kind) =>
      if s.mutex.Free? then At(s.(mutex := By(t)), t, RuLoad(kind, 0)) else s
    case RuLoad(kind, i) =>
      if i >= s.n then At(s, t, RuCheck(kind))
      else At(s, t, if s.st[i].roundedup then Aborted else RuCas(kind, i, s.st[i]))
    case RuCas(kind, i, cur) =>
      if i >= s.n then At(s, t, Aborted)
      else if s.st[i] == cur then
        At(s.(st := s.st[i := cur.(roundedup := true)]), t,
           if cur.base.Emulate? then RuLoad(kind, i + 1) else RuDec(kind, i))
      else At(s, t, if s.st[i].roundedup then Aborted else RuCas(kind, i, s.st[i]))
    case RuDec(kind, i) => FetchSub(s, t, RuSig(kind, i), RuLoad(kind, i + 1))
    case RuSig(kind, i) => Signal(s, t, RuLoad(kind, i + 1))
    case RuCheck(kind) =>
      At(s, t, if s.progressing != 0 then RuWait(kind) else if kind.First? then ParRead else Held)
    case RuWait(kind) =>
      if s.sig then At(s.(sig := false), t, RuCheck(kind)) else s
    case _ => s
  }

  /** `roundup_parallel` and `resume_parallel` around the exclusive calls they make. */
  function StepParallel(s: State, t: nat): State
    requires t < |s.pc|
  {
    match s.pc[t]
    case ParRead => At(s, t, ParStore(Dec16(s.count)))
    case ParStore(callers) => At(s.(numWaiters := callers), t, ParRelease(callers))
    case ParRelease(left) =>
      if left > 0 then At(s.(countSem := s.countSem + 1), t, ParRelease(left - 1))
      else At(s.(mutex := Team), t, ParHeld)
    case ParAcquire =>
      if s.countSem > 0 then At(s.(countSem := s.countSem - 1), t, ParUnyield) else s
    case ParUnyield =>
      At(s.(waiters := Dec16(s.waiters)), t, if s.waiters >= 1 then ParHeld else Aborted)
    case ParHeld => At(s, t, if s.count != 0 then ParSub else Aborted)
    case ParSub =>
      var left := Dec16(s.count);
      if left == 0 then At(s.(count := left, mutex := By(t)), t, UnYield(true))
      else At(s.(count := left), t, ParWait)
    case ParWait =>
      if s.resumeSem > 0 then At(s.(resumeSem := s.resumeSem - 1), t, Emu) else s
    case RelCheck => At(s, t, if s.numWaiters > 0 then RelSem else Emu)
    case RelSem => At(s.(resumeSem := s.resumeSem + 1), t, RelDec)
    case RelDec => At(s.(numWaiters := Dec16(s.numWaiters)), t, RelCheck)
    case _ => s
  }

  /** `end_roundup`, `Cpu::resume_all` and `signal_next_waiter`. */
  function StepResume(s: State, t: nat): State
    requires t < |s.pc| && s.n <= |s.pc| && |s.st| == |s.resume| == s.n
  {
    match s.pc[t]
    case Held => At(s, t, if t < s.n then UnYield(false) else EndRead(false))
    case UnYield(par) =>
      At(s.(waiters := Dec16(s.waiters)), t, if s.waiters >= 1 then EndRead(par) else Aborted)
    case EndRead(par) =>
      At(s, t, if s.waiters <= s.n then EndStore(par, s.waiters) else Aborted)
    case EndStore(par, w) =>
      At(s.(progressing := (s.n + U16 - w % U16) % U16), t, ResLoad(par, 0))
    case ResLoad(par, i) =>
      if i >= s.n then At(s, t, Exit(par))
      else At(s, t, if s.st[i].roundedup then ResCas(par, i, s.st[i]) else Aborted)
    case ResCas(par, i, cur) =>
      if i >= s.n then At(s, t, Aborted)
      else if s.st[i] == cur then
        At(s.(st := s.st[i := cur.(roundedup := false)]), t, ResSig(par, i))
      else At(s, t, if s.st[i].roundedup then ResCas(par, i, s.st[i]) else Aborted)
    case ResSig(par, i) =>
      if i >= s.n then At(s, t, Aborted)
      else At(s.(resume := s.resume[i := true]), t, ResLoad(par, i + 1))
    case Exit(par) =>
      At(s.(mutex := Free), t, if par then RelCheck else if t < s.n then Emu else Idle)
    case _ => s
  }

  /** A caller from outside starts a roundup. */
  function StepOutside(s: State, t: nat): State
    requires t < |s.pc|
  {
    if s.pc[t].Idle? then At(s, t, Enter(Excl)) else s
  }

  /** One atomic operation of thread t; a thread blocked on a mutex, signal or semaphore
      leaves the state as it is. */
  function Step(s: State, t: nat, c: Choice): State
    requires t < |s.pc| && s.n <= |s.pc| && |s.st| == |s.resume| == s.n
  {
    var p := s.pc[t];
    if p.Aborted? then s
    else if p.Idle? then StepOutside(s, t)
    else if IsCpu(p) then if t < s.n then StepCpu(s, t, c) else s
    else if IsResume(p) then StepResume(s, t)
    else if IsParallel(p) then StepParallel(s, t)
    else StepRoundup(s, t)
  }

  predicate IsCpu(p: Pc) {
    p.OnLoad? || p.OnCas? || p.OnNotify? || p.OnSig? || p.Run? || p.OffLoad? || p.OffCas? || p.WaitOn? ||
    p.EmLoad? || p.EmCas? || p.WaitResume? || p.Emu?
  }

  predicate IsResume(p: Pc) {
    p.Held? || p.UnYield? || p.EndRead? || p.EndStore? || p.ResLoad? || p.ResCas? || p.ResSig? || p.Exit?
  }

  predicate IsParallel(p: Pc) {
    p.ParRead? || p.ParStore? || p.ParRelease? || p.ParAcquire? || p.ParUnyield? || p.ParHeld? || p.ParSub? ||
    p.ParWait? || p.RelCheck? || p.RelSem? || p.RelDec?
  }

  // ---------- runs ----------

  /** `Roundup::init`: every VCPU is OFF and progressing, nobody is in the protocol. */
  ghost predicate Init(s: State) {
    && s.n < U16 && s.n <= |s.pc| && |s.st| == |s.resume| == s.n
    && (forall t :: 0 <= t < |s.pc| ==> s.pc[t] == if t < s.n then OnLoad(PowerOn) else Idle)
    && (forall i :: 0 <= i < s.n ==> s.st[i] == Word(Off, false) && !s.resume[i])
    && s.mutex.Free? && !s.sig && s.progressing == s.n && s.waiters == 0
    && s.count == s.numWaiters == s.countSem == s.resumeSem == 0
  }

  ghost predicate Sized(s: State) {
    s.n <= |s.pc| && |s.st| == |s.resume| == s.n
  }

  ghost predicate Next(s: State, s': State) {
    Sized(s) && exists t: nat, c: Choice :: t < |s.pc| && s' == Step(s, t, c)
  }

  /** Any interleaving, of any length. */
  ghost predicate IsRun(run: seq<State>) {
    && run != [] && Init(run[0])
    && forall k :: 0 <= k < |run| - 1 ==> Next(run[k], run[k + 1])
  }
}
