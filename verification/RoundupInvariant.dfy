/** The inductive invariant of the roundup protocol, and how one step moves its parts. */
module RoundupInvariant {
  import opened MachineWords
  import opened Counting
  import opened RoundupModel

  // ---------- classes of program points ----------

  /** What a thread counts as at a program point. */
  datatype Class =
    | Quiet(on: bool)        // its VCPU is off or on, not emulating
    | Notifying             // on, and owes a decrement after leaving emulation
    | OnSignalling          // on, and owes the holder a signal
    | Sleeping              // on, in wait_for_resume
    | Emulating             // emulating, in no roundup call
    | Calling(kind: Kind)   // about to yield
    | Counted(kind: Kind)   // in _vcpu_waiters, about to give up its unit of vcpus_progressing
    | YieldSignalling(kind: Kind)
    | Blocked(kind: Kind)   // yielded
    | Holding(kind: Kind)   // acts for the holder of the mutex: rounding up
    | Ending                // acts for the holder of the mutex: resuming
    | LetIn                 // let into a parallel roundup, still in _vcpu_waiters
    | Inside
    | Parked                // has called resume_parallel and waits to be released
    | Releasing             // runs the release loop ...
    | Released              // ... and has released one participant not yet subtracted
  {
    /** The power/emulation part of its VCPU's state word. */
    function base(): Base {
      if this == Quiet(false) then Off else if Quiet? || Notifying? || OnSignalling? || Sleeping? then On else Emulate
    }
    predicate owner() { Holding? || Ending? }
    predicate yielded() { YieldSignalling? || Blocked? || LetIn? }
    predicate waiting() { Counted? || YieldSignalling? || Blocked? || LetIn? }
    predicate first() { (Calling? || Counted? || YieldSignalling? || Blocked? || Holding?) && kind.First? }
    predicate later() { (Calling? || Counted? || YieldSignalling? || Blocked? || Holding?) && kind.Later? }
    predicate joined() { LetIn? || Inside? }
    predicate releasing() { Releasing? || Released? }
    predicate signalling() { OnSignalling? || YieldSignalling? }
  }

  function ClassOf(p: Pc): Class {
    match p
    case OnLoad(why) => if why.PowerOn? then Quiet(false) else Emulating
    case OnCas(why, _) => if why.PowerOn? then Quiet(false) else Emulating
    case OnNotify => Notifying
    case OnSig => OnSignalling
    case Run => Quiet(true)
    case OffLoad => Quiet(true)
    case OffCas(_) => Quiet(true)
    case WaitOn => Quiet(false)
    case EmLoad => Quiet(true)
    case EmCas => Quiet(true)
    case WaitResume => Sleeping
    case YInc(kind) => Calling(kind)
    case YDec(kind) => Counted(kind)
    case YSig(kind) => YieldSignalling(kind)
    case Enter(kind) => Blocked(kind)
    case RuLoad(kind, _) => Holding(kind)
    case RuCas(kind, _, _) => Holding(kind)
    case RuDec(kind, _) => Holding(kind)
    case RuSig(kind, _) => Holding(kind)
    case RuCheck(kind) => Holding(kind)
    case RuWait(kind) => Holding(kind)
    case Held => Holding(Excl)
    case ParRead => Holding(First)
    case ParStore(_) => Holding(First)
    case ParRelease(_) => Holding(First)
    case ParAcquire => Blocked(Later)
    case ParUnyield => LetIn
    case ParHeld => Inside
    case ParSub => Inside
    case ParWait => Parked
    case RelCheck => Releasing
    case RelSem => Releasing
    case RelDec => Released
    case Emu => Emulating
    case Idle => Emulating
    case Aborted => Emulating
    case _ => Ending
  }

  // ---------- the phase, read off the mutex and its holder ----------

  datatype Phase = Phase(
    lo: nat, hi: nat,   // the VCPUs whose word is marked rounded up
    counting: bool,     // before `end_roundup`'s store: a marked, idle VCPU counts as stopped
    pending: nat,       // the marked VCPU whose decrement the holder still owes
    stopped: bool,      // do_roundup has returned
    asleep: bool,       // the holder sleeps on the signal
    waking: nat,        // the resumed VCPU whose signal the holder still owes
    waits: bool,        // the holder has a unit in _vcpu_waiters
    open: bool,         // participants of a parallel roundup are being let in, or are inside
    closing: bool,      // the last participant is resuming the VM
    team: bool,         // parked participants belong to the current roundup
    left: nat,          // releases of count_sem still to come
    callers: int,       // parallel_callers as read, before it is stored
    w: int)             // num_waiters of end_roundup_core as read, before it is used

  function Calm(n: nat): Phase {
    Phase(n, n, false, n, false, false, n, false, false, false, false, 0, -1, -1)
  }

  function Marking(n: nat, hi: nat, vm: bool): Phase {
    Calm(n).(lo := 0, hi := hi, counting := true, waits := vm)
  }

  function Standing(n: nat, vm: bool): Phase { Marking(n, n, vm).(stopped := true) }

  function Resuming(n: nat, lo: nat, par: bool): Phase { Calm(n).(lo := lo, closing := par) }

  /** vm: the holder is a VCPU thread. */
  function PhaseOf(n: nat, vm: bool, p: Pc): Phase {
    match p
    case RuLoad(_, i) => Marking(n, i, vm)
    case RuCas(_, i, _) => Marking(n, i, vm)
    case RuDec(_, i) => Marking(n, i + 1, vm).(pending := i)
    case RuSig(_, i) => Marking(n, i + 1, vm)
    case RuCheck(_) => Marking(n, n, vm)
    case RuWait(_) => Marking(n, n, vm).(asleep := true)
    case Held => Standing(n, vm)
    case ParRead => Standing(n, vm)
    case ParStore(callers) => Standing(n, vm).(callers := callers)
    case ParRelease(left) => Standing(n, vm).(left := left, open := true, team := true)
    case UnYield(par) => Standing(n, vm).(closing := par, team := par)
    case EndRead(par) => Standing(n, false).(closing := par, team := par)
    case EndStore(par, w) => Standing(n, false).(closing := par, team := par, w := w)
    case ResLoad(par, i) => Resuming(n, i, par)
    case ResCas(par, i, _) => Resuming(n, i, par)
    case ResSig(par, i) => Resuming(n, i + 1, par).(waking := i)
    case Exit(par) => Resuming(n, n, par)
    case _ => Calm(n)
  }

  function Now(s: State): Phase {
    match s.mutex
    case Free => Calm(s.n)
    case Team => Standing(s.n, true).(open := true, team := true)
    case By(h) => PhaseOf(s.n, h < s.n, if h < |s.pc| then s.pc[h] else Idle)
  }

  /** How the parts of a phase go together. */
  predicate Sane(h: Phase) {
    && (h.stopped ==> h.counting && !h.asleep)
    && (h.open ==> h.stopped && h.team && !h.closing && h.callers < 0 && h.w < 0)
    && (h.team ==> h.stopped && (h.open || h.closing))
    && (h.closing && h.counting ==> h.team)
    && (h.callers >= 0 || h.w >= 0 ==> h.stopped)
    && (h.left > 0 ==> h.open)
  }

  lemma NowSane(s: State)
    ensures Sane(Now(s))
  {
    hide PhaseOf, Sane;
    match s.mutex {
      case By(o) => PointSane(s.n, o < s.n, if o < |s.pc| then s.pc[o] else Idle);
      case Team => StandingSane(s.n);
      case Free => CalmSane(s.n);
    }
  }

  lemma PointSane(n: nat, vm: bool, p: Pc)
    ensures Sane(PhaseOf(n, vm, p))
  {
    hide Sane, Marking, Standing, Resuming, Calm;
    if IsResume(p) {
      ResumePointSane(n, vm, p);
    } else if IsParallel(p) {
      ParallelPointSane(n, vm, p);
    } else {
      OtherPointSane(n, vm, p);
    }
  }

  lemma ResumePointSane(n: nat, vm: bool, p: Pc)
    requires IsResume(p)
    ensures Sane(PhaseOf(n, vm, p))
  {
  }

  lemma ParallelPointSane(n: nat, vm: bool, p: Pc)
    requires IsParallel(p)
    ensures Sane(PhaseOf(n, vm, p))
  {
  }

  lemma OtherPointSane(n: nat, vm: bool, p: Pc)
    requires !IsResume(p) && !IsParallel(p)
    ensures Sane(PhaseOf(n, vm, p))
  {
  }

  lemma StandingSane(n: nat)
    ensures Sane(Standing(n, true).(open := true, team := true))
  {
  }

  lemma CalmSane(n: nat)
    ensures Sane(Calm(n))
  {
  }

  predicate Marked(h: Phase, i: nat) { h.lo <= i < h.hi }

  /** VCPU i, whose thread is of class c, has given up its unit of vcpus_progressing. */
  predicate Accounted(h: Phase, m: Mutex, i: nat, c: Class) {
    c.yielded() ||
    (h.counting &&
     (m == By(i) || c.joined() || (c.Parked? && h.team) ||
      (Marked(h, i) && !c.base().Emulate? && !c.Notifying? && h.pending != i)))
  }

  function Classes(s: State): (cs: seq<Class>)
    requires s.n <= |s.pc|
    ensures |cs| == s.n && forall i :: 0 <= i < s.n ==> cs[i] == ClassOf(s.pc[i])
  {
    seq(s.n, i requires 0 <= i < s.n => ClassOf(s.pc[i]))
  }

  function Accounts(s: State, h: Phase): (a: seq<bool>)
    requires s.n <= |s.pc|
    ensures |a| == s.n && forall i :: 0 <= i < s.n ==> a[i] == Accounted(h, s.mutex, i, ClassOf(s.pc[i]))
  {
    seq(s.n, i requires 0 <= i < s.n => Accounted(h, s.mutex, i, ClassOf(s.pc[i])))
  }

  predicate Id(b: bool) { b }
  predicate IsWaiting(c: Class) { c.waiting() }
  predicate IsFirst(c: Class) { c.first() }
  predicate IsLater(c: Class) { c.later() }
  predicate IsJoined(c: Class) { c.joined() }
  predicate IsParked(c: Class) { c.Parked? }
  predicate IsReleased(c: Class) { c.Released? }
  predicate IsReleasing(c: Class) { c.releasing() }

  function Stopped(s: State, h: Phase): nat
    requires s.n <= |s.pc|
  {
    Count(Accounts(s, h), Id)
  }

  function Num(s: State, p: Class -> bool): nat
    requires s.n <= |s.pc|
  {
    Count(Classes(s), p)
  }

  /** How many VCPU threads are in each class, and how many VCPUs are accounted for. */
  datatype Tally = Tally(waiting: nat, first: nat, later: nat, joined: nat, parked: nat,
                         released: nat, releasing: nat, stopped: nat)

  function Tallies(s: State, h: Phase): Tally
    requires Sized(s)
  {
    Tally(Num(s, IsWaiting), Num(s, IsFirst), Num(s, IsLater), Num(s, IsJoined), Num(s, IsParked),
          Num(s, IsReleased), Num(s, IsReleasing), Stopped(s, h))
  }

  // ---------- the invariant ----------

  /** Which points a VCPU thread (t < n) and an outside thread can be at, and what their
      local variables can hold there. */
  predicate Legal(n: nat, t: nat, p: Pc) {
    match p
    case Aborted => false
    case Idle => t >= n
    case OnCas(why, cur) => t < n && cur.base == if why.PowerOn? then Off else Emulate
    case OffCas(cur) => t < n && cur.base.On?
    case Enter(kind) => kind.Excl? || (kind.First? && t < n)
    case RuLoad(kind, i) => (kind.Excl? || (kind.First? && t < n)) && i <= n
    case RuCas(kind, i, cur) => (kind.Excl? || (kind.First? && t < n)) && i < n && !cur.roundedup
    case RuDec(kind, i) => (kind.Excl? || (kind.First? && t < n)) && i < n
    case RuSig(kind, i) => (kind.Excl? || (kind.First? && t < n)) && i < n
    case RuCheck(kind) => kind.Excl? || (kind.First? && t < n)
    case RuWait(kind) => kind.Excl? || (kind.First? && t < n)
    case Held => true
    case EndRead(par) => t < n || !par
    case EndStore(par, _) => t < n || !par
    case ResLoad(par, i) => (t < n || !par) && i <= n
    case ResCas(par, i, cur) => (t < n || !par) && i < n && cur.roundedup
    case ResSig(par, i) => (t < n || !par) && i < n
    case Exit(par) => t < n || !par
    case _ => t < n
  }

  predicate ThreadOk(n: nat, m: Mutex, h: Phase, numWaiters: nat, t: nat, p: Pc) {
    var c := ClassOf(p);
    && Legal(n, t, p)
    && (c.owner() <==> m == By(t))
    && (c.joined() ==> h.open && h.counting)
    && (p.RelSem? || p.RelDec? ==> numWaiters > 0)
  }

  /** While the holder resumes the VCPUs, those not yet resumed do not take part. */
  predicate Still(h: Phase, m: Mutex, i: nat, c: Class) {
    c.yielded() || (c.Parked? && h.closing) || m == By(i) || !c.base().Emulate?
  }

  predicate VcpuOk(m: Mutex, h: Phase, i: nat, c: Class, w: Word, signalled: bool) {
    && w == Word(c.base(), Marked(h, i))
    && (c.Sleeping? && !w.roundedup ==> signalled || h.waking == i)
    && (c.Notifying? ==> h.counting && Marked(h, i))
    && (h.pending == i ==> Marked(h, i) && !c.base().Emulate? && !c.Notifying?)
    && (!h.counting && Marked(h, i) ==> Still(h, m, i, c))
  }

  ghost predicate Shape(s: State, h: Phase) {
    && s.n < U16 && Sized(s)
    && (s.mutex.By? ==> s.mutex.holder < |s.pc|)
    && (forall t :: 0 <= t < |s.pc| ==> ThreadOk(s.n, s.mutex, h, s.numWaiters, t, s.pc[t]))
    && (forall i :: 0 <= i < s.n ==> VcpuOk(s.mutex, h, i, ClassOf(s.pc[i]), s.st[i], s.resume[i]))
  }

  /** The counters of the protocol against the tally. */
  predicate Core(s: State, h: Phase, k: Tally) {
    // vcpus_progressing and _vcpu_waiters
    && s.progressing + k.stopped == s.n
    && (h.stopped ==> s.progressing == 0)
    && s.waiters == k.waiting + One(h.waits) <= s.n
    && (h.w >= 0 ==> h.w == s.waiters)
    // parallel_info.count and count_sem
    && s.count == k.first + k.later + k.joined
    && k.first == One(s.count > 0 && !s.mutex.Team?)
    && (s.mutex.Team? ==> s.count > 0)
    && (!h.open ==> k.joined == 0)
    && (h.callers >= 0 ==> h.callers == k.later)
    && s.countSem + h.left == (if h.open then k.later else 0)
    // num_waiters and resume_waiter_sem
    && (h.open ==> s.resumeSem == 0 && k.parked + s.count == s.numWaiters + 1 && k.releasing == 0)
    && (h.closing ==> s.resumeSem == 0 && k.parked == s.numWaiters && k.releasing == 0)
    && (!h.open && !h.closing ==>
          && s.resumeSem + s.numWaiters == k.parked + k.released
          && k.releasing <= 1
          && (k.releasing == 0 ==> s.numWaiters == 0))
  }

  /** A holder that sleeps on the signal with nobody left to wait for will be woken. */
  ghost predicate Woken(s: State, h: Phase) {
    h.asleep && s.progressing == 0 ==>
      s.sig || exists t :: 0 <= t < |s.pc| && ClassOf(s.pc[t]).signalling()
  }

  ghost predicate InvAt(s: State, h: Phase, k: Tally) {
    Shape(s, h) && Core(s, h, k) && Woken(s, h)
  }

  ghost predicate Inv(s: State) {
    Sized(s) && InvAt(s, Now(s), Tallies(s, Now(s)))
  }

  // ---------- how the counts move ----------

  lemma NoneAt(s: State, p: Class -> bool)
    requires Sized(s) && forall t :: 0 <= t < s.n ==> !p(ClassOf(s.pc[t]))
    ensures Num(s, p) == 0
  {
    CountBound(Classes(s), p);
  }

  lemma SomeAt(s: State, h: Phase, t: nat)
    requires Sized(s) && t < s.n
    ensures var c, k := ClassOf(s.pc[t]), Tallies(s, h);
            && (c.waiting() ==> k.waiting > 0) && (c.joined() ==> k.joined > 0)
            && (c.Parked? ==> k.parked > 0) && (c.releasing() ==> k.releasing > 0)
  {
    CountBound(Classes(s), IsWaiting);
    CountBound(Classes(s), IsJoined);
    CountBound(Classes(s), IsParked);
    CountBound(Classes(s), IsReleasing);
  }

  ghost predicate SameAccount(s: State, h: Phase, s': State, h': Phase, i: nat)
    requires i < |s.pc| == |s'.pc|
  {
    Accounted(h, s.mutex, i, ClassOf(s.pc[i])) == Accounted(h', s'.mutex, i, ClassOf(s'.pc[i]))
  }

  lemma SameStopped(s: State, h: Phase, s': State, h': Phase)
    requires Sized(s) && Sized(s') && s.n == s'.n && |s.pc| == |s'.pc|
    requires forall i :: 0 <= i < s.n ==> SameAccount(s, h, s', h', i)
    ensures Stopped(s, h) == Stopped(s', h')
  {
    assert forall i :: 0 <= i < s.n ==> SameAccount(s, h, s', h', i) ==> Accounts(s, h)[i] == Accounts(s', h')[i];
    CountPointwise(Accounts(s, h), Id, Accounts(s', h'), Id);
  }

  lemma OneMoreStopped(s: State, h: Phase, s': State, h': Phase, j: nat)
    requires Sized(s) && Sized(s') && s.n == s'.n && |s.pc| == |s'.pc| && j < s.n
    requires forall i :: 0 <= i < s.n && i != j ==> SameAccount(s, h, s', h', i)
    requires !Accounted(h, s.mutex, j, ClassOf(s.pc[j])) && Accounted(h', s'.mutex, j, ClassOf(s'.pc[j]))
    ensures Stopped(s', h') == Stopped(s, h) + 1
  {
    CountUpdate(Accounts(s, h), j, true, Id);
    assert forall i :: 0 <= i < s.n && i != j ==>
                         SameAccount(s, h, s', h', i) ==> Accounts(s, h)[i] == Accounts(s', h')[i];
    CountPointwise(Accounts(s, h)[j := true], Id, Accounts(s', h'), Id);
  }

  /** When the progressing counter is zero every VCPU is accounted for. */
  lemma AllStopped(s: State, h: Phase)
    requires Sized(s) && s.progressing + Stopped(s, h) == s.n
    ensures s.progressing == 0 <==> forall i :: 0 <= i < s.n ==> Accounted(h, s.mutex, i, ClassOf(s.pc[i]))
  {
    CountBound(Accounts(s, h), Id);
  }

  /** A thread that still owes its decrement keeps the counter above zero. */
  lemma Progressing(s: State, h: Phase, t: nat)
    requires Sized(s) && s.progressing + Stopped(s, h) == s.n && t < s.n
    ensures !Accounted(h, s.mutex, t, ClassOf(s.pc[t])) ==> s.progressing > 0
  {
    AllStopped(s, h);
  }

  /** The tally (but for `stopped`) after a VCPU thread moves from class a to class b. */
  predicate Shift(k: Tally, k': Tally, a: Class, b: Class) {
    && k'.waiting + One(a.waiting()) == k.waiting + One(b.waiting())
    && k'.first + One(a.first()) == k.first + One(b.first())
    && k'.later + One(a.later()) == k.later + One(b.later())
    && k'.joined + One(a.joined()) == k.joined + One(b.joined())
    && k'.parked + One(a.Parked?) == k.parked + One(b.Parked?)
    && k'.released + One(a.Released?) == k.released + One(b.Released?)
    && k'.releasing + One(a.releasing()) == k.releasing + One(b.releasing())
  }

  /** A thread outside the VM does not show in the tally. */
  predicate Moved(n: nat, t: nat, k: Tally, k': Tally, a: Class, b: Class) {
    if t < n then Shift(k, k', a, b) else k' == k.(stopped := k'.stopped)
  }

  lemma TalliesMove(s: State, h: Phase, s': State, h': Phase, t: nat)
    requires Sized(s) && Sized(s') && s'.n == s.n && t < |s.pc| == |s'.pc| && s'.pc == s.pc[t := s'.pc[t]]
    ensures Moved(s.n, t, Tallies(s, h), Tallies(s', h'), ClassOf(s.pc[t]), ClassOf(s'.pc[t]))
  {
    var cs, cs' := Classes(s), Classes(s');
    if t < s.n {
      var b := ClassOf(s'.pc[t]);
      assert cs' == cs[t := b];
      CountUpdate(cs, t, b, IsWaiting);
      CountUpdate(cs, t, b, IsFirst);
      CountUpdate(cs, t, b, IsLater);
      CountUpdate(cs, t, b, IsJoined);
      CountUpdate(cs, t, b, IsParked);
      CountUpdate(cs, t, b, IsReleased);
      CountUpdate(cs, t, b, IsReleasing);
    } else {
      assert cs' == cs;
    }
  }

  // ---------- the start ----------

  lemma InitInv(s: State)
    requires Init(s)
    ensures Inv(s)
  {
    InitTallies(s, Now(s));
    InitShape(s, Now(s));
    InitCore(s, Now(s), Tallies(s, Now(s)));
  }

  lemma InitShape(s: State, h: Phase)
    requires Init(s) && h == Calm(s.n)
    ensures Shape(s, h)
  {
  }

  lemma InitCore(s: State, h: Phase, k: Tally)
    requires Init(s) && h == Calm(s.n) && k == Tally(0, 0, 0, 0, 0, 0, 0, 0)
    ensures Core(s, h, k)
  {
  }

  lemma InitTallies(s: State, h: Phase)
    requires Init(s) && h == Calm(s.n)
    ensures Tallies(s, h) == Tally(0, 0, 0, 0, 0, 0, 0, 0)
  {
    CountBound(Accounts(s, h), Id);
    NoneAt(s, IsWaiting);
    NoneAt(s, IsFirst);
    NoneAt(s, IsLater);
    NoneAt(s, IsJoined);
    NoneAt(s, IsParked);
    NoneAt(s, IsReleased);
    NoneAt(s, IsReleasing);
  }

  // ---------- steps of a thread that does not hold the mutex ----------

  /** Thread t moves; of the VCPUs' words and signals only its own can change, and no other
      thread is at a point that depends on what changes. */
  ghost predicate Frame(s: State, s': State, t: nat) {
    && Sized(s) && Sized(s') && s'.n == s.n && s'.mutex == s.mutex
    && t < |s.pc| == |s'.pc| && s'.pc == s.pc[t := s'.pc[t]]
    && (forall i :: 0 <= i < s.n && i != t ==> s'.st[i] == s.st[i] && s'.resume[i] == s.resume[i])
    && (s'.numWaiters == s.numWaiters || forall u :: 0 <= u < |s.pc| && u != t ==> !ClassOf(s.pc[u]).releasing())
  }

  /** Thread t fits where it goes: its account stays, or it gives up its unit together with the
      decrement; and a signal owed to the holder is not lost. */
  ghost predicate Local(s: State, s': State, h: Phase, t: nat)
    requires Frame(s, s', t)
  {
    var a, b := ClassOf(s.pc[t]), ClassOf(s'.pc[t]);
    && ThreadOk(s.n, s.mutex, h, s'.numWaiters, t, s'.pc[t])
    && !a.owner() && !b.owner()
    && (t < s.n ==> VcpuOk(s.mutex, h, t, b, s'.st[t], s'.resume[t]))
    && (if t >= s.n || Accounted(h, s.mutex, t, a) == Accounted(h, s.mutex, t, b) then s'.progressing == s.progressing
        else Accounted(h, s.mutex, t, b) && s'.progressing + 1 == s.progressing)
    && (s.sig ==> s'.sig)
    && (a.signalling() && !b.signalling() ==> s'.sig)
    && (s'.progressing == 0 && s.progressing > 0 ==> b.signalling())
  }

  lemma AsideShape(s: State, s': State, h: Phase, t: nat)
    requires Shape(s, h) && Frame(s, s', t) && Local(s, s', h, t)
    ensures Shape(s', h)
  {
    forall u | 0 <= u < |s.pc|
      ensures ThreadOk(s'.n, s'.mutex, h, s'.numWaiters, u, s'.pc[u])
    {
      assert ThreadOk(s.n, s.mutex, h, s.numWaiters, u, s.pc[u]);
    }
    forall i | 0 <= i < s.n
      ensures VcpuOk(s'.mutex, h, i, ClassOf(s'.pc[i]), s'.st[i], s'.resume[i])
    {
      assert VcpuOk(s.mutex, h, i, ClassOf(s.pc[i]), s.st[i], s.resume[i]);
    }
  }

  lemma AsideStopped(s: State, s': State, h: Phase, t: nat)
    requires Frame(s, s', t) && Local(s, s', h, t) && Core(s, h, Tallies(s, h))
    ensures s'.progressing + Stopped(s', h) == s.n && (h.stopped ==> s'.progressing == 0)
  {
    AllStopped(s, h);
    if t < s.n && !SameAccount(s, h, s', h, t) {
      OneMoreStopped(s, h, s', h, t);
    } else {
      SameStopped(s, h, s', h);
    }
  }

  lemma AsideWoken(s: State, s': State, h: Phase, t: nat)
    requires Frame(s, s', t) && Local(s, s', h, t) && Woken(s, h)
    ensures Woken(s', h)
  {
    if h.asleep && s'.progressing == 0 && !s'.sig {
      if s.progressing > 0 {
        assert ClassOf(s'.pc[t]).signalling();
      } else {
        var u :| 0 <= u < |s.pc| && ClassOf(s.pc[u]).signalling();
        assert ClassOf(s'.pc[u]).signalling();
      }
    }
  }

  lemma AsideNow(s: State, s': State, h: Phase, t: nat)
    requires Shape(s, h) && Frame(s, s', t) && !ClassOf(s.pc[t]).owner() && h == Now(s)
    ensures Now(s') == h
  {
    assert ThreadOk(s.n, s.mutex, h, s.numWaiters, t, s.pc[t]);
  }

  /** All of the invariant but the counters, and what the counters have to be checked against. */
  lemma AsideInv(s: State, s': State, h: Phase, t: nat)
    requires Inv(s) && h == Now(s) && Frame(s, s', t) && Local(s, s', h, t)
    ensures Shape(s', h) && Woken(s', h) && Now(s') == h
    ensures s'.progressing + Stopped(s', h) == s.n && (h.stopped ==> s'.progressing == 0)
    ensures Moved(s.n, t, Tallies(s, h), Tallies(s', h), ClassOf(s.pc[t]), ClassOf(s'.pc[t]))
    ensures t < s.n ==> Shift(Tallies(s, h), Tallies(s', h), ClassOf(s.pc[t]), ClassOf(s'.pc[t]))
    ensures s'.progressing + Tallies(s', h).stopped == s.n
    ensures Core(s', h, Tallies(s', h)) ==> Inv(s')
  {
    AsideShape(s, s', h, t);
    AsideNow(s, s', h, t);
    AsideStopped(s, s', h, t);
    AsideWoken(s, s', h, t);
    TalliesMove(s, h, s', h, t);
  }
}
