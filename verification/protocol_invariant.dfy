/** What every step of the protocol keeps, thread by thread, as a balance of counts. */
module ProtocolInvariant {
  import opened Prelude
  import opened Monitor
  import opened Protocol

  /** What CPUs can hold of a thread. */
  datatype Held = Held(
    refs: int,      // references: `SharedRef` temporaries and `CurrentThread`
    tokens: int,    // the right to run the thread, in the kernel
    running: int,   // the right to run it, in use
    upcalls: int,   // Syscall upcalls in flight
    pending: int,   // Terminated upcalls about to be issued
    reaping: int,   // Terminated upcalls in flight, each with an `Arc<Thread>`
    waking: int,    // unblock holds the lock and has not enqueued
    woken: int,     // unblock holds the lock and has enqueued
    uses: int,      // any activity other than creation
    boxing: int,    // creation: no kernel object yet
    making: int,    // creation: the user data is not written yet
    handing: int)   // creation: about to be returned to the server

  const Nothing := Held(0, 0, 0, 0, 0, 0, 0, 0, 0, 0, 0, 0)

  datatype Kind =
    | Refs | Tokens | Running | Upcalls | Pending | Reaping | Waking | Woken | Uses | Boxing | Making | Handing

  function Get(k: Kind, h: Held): int {
    match k
    case Refs => h.refs
    case Tokens => h.tokens
    case Running => h.running
    case Upcalls => h.upcalls
    case Pending => h.pending
    case Reaping => h.reaping
    case Waking => h.waking
    case Woken => h.woken
    case Uses => h.uses
    case Boxing => h.boxing
    case Making => h.making
    case Handing => h.handing
  }

  function Subject(f: Frame): Option<Tid> {
    match f
    case Booting | Idling | Picking | Clearing => None
    case Returning(held) => held
    case Panicked(held) => held
    case _ => Some(f.t)
  }

  /** What a frame holds of its subject. */
  function Holding(f: Frame): Held {
    match f
    case Booting | Idling | Picking | Clearing => Held(0, 0, 0, 0, 0, 0, 0, 0, 0, 0, 0, 0)
    case InUser(_) => Held(0, 0, 1, 0, 0, 0, 0, 0, 1, 0, 0, 0)
    case SyscallEntry(_) | Returning(_) | Panicked(_) | Switching(_) => Held(0, 1, 0, 0, 0, 0, 0, 0, 1, 0, 0, 0)
    case SyscallCloned(_) | SyscallCleared(_) | ReturnCloned(_) | Requeueing(_) | Popped(_) | Entering(_) =>
      Held(1, 1, 0, 0, 0, 0, 0, 0, 1, 0, 0, 0)
    case InSyscallUpcall(_) => Held(1, 0, 0, 1, 0, 0, 0, 0, 1, 0, 0, 0)
    case SyscallTerminating(_) | TerminatePending(_) => Held(1, 0, 0, 0, 1, 0, 0, 0, 1, 0, 0, 0)
    case SyscallDone(_) | Releasing(_) | TerminateCalled(_) | UnblockCalled(_) | ContextCalled(_) | CallDone(_) =>
      Held(1, 0, 0, 0, 0, 0, 0, 0, 1, 0, 0, 0)
    case InTerminatedUpcall(_) => Held(0, 0, 0, 0, 0, 1, 0, 0, 1, 0, 0, 0)
    case UnblockLocked(_) | UnblockFailed(_) => Held(1, 0, 0, 0, 0, 0, 1, 0, 1, 0, 0, 0)
    case UnblockCloned(_) => Held(2, 0, 0, 0, 0, 0, 1, 0, 1, 0, 0, 0)
    case UnblockPushed(_) => Held(1, 0, 0, 0, 0, 0, 0, 1, 1, 0, 0, 0)
    case CreateBoxed(_) => Held(0, 0, 0, 0, 0, 0, 0, 0, 0, 1, 0, 0)
    case CreateKernel(_) => Held(0, 0, 0, 0, 0, 0, 0, 0, 0, 0, 1, 0)
    case CreateReturning(_) => Held(0, 0, 0, 0, 0, 0, 0, 0, 0, 0, 0, 1)
  }

  function InFrame(k: Kind, f: Frame, t: Tid): int {
    if Subject(f) == Some(t) then Get(k, Holding(f)) else 0
  }

  function InStack(k: Kind, s: Stack, t: Tid): int {
    match s
    case Bottom => 0
    case Push(f, rest) => InFrame(k, f, t) + InStack(k, rest, t)
  }

  /** `CurrentThread` owns a reference to the thread it points to. */
  function InCpu(k: Kind, cpu: Cpu, t: Tid): int {
    InStack(k, cpu.stack, t) + (if k == Refs && cpu.current == Some(t) then 1 else 0)
  }

  function InCpus(k: Kind, cpus: seq<Cpu>, t: Tid): int {
    if cpus == [] then 0 else InCpu(k, cpus[0], t) + InCpus(k, cpus[1..], t)
  }

  /** What all CPUs together hold of a thread. */
  function Sum(cpus: seq<Cpu>, t: Tid): Held {
    Held(InCpus(Refs, cpus, t),
         InCpus(Tokens, cpus, t),
         InCpus(Running, cpus, t),
         InCpus(Upcalls, cpus, t),
         InCpus(Pending, cpus, t),
         InCpus(Reaping, cpus, t),
         InCpus(Waking, cpus, t),
         InCpus(Woken, cpus, t),
         InCpus(Uses, cpus, t),
         InCpus(Boxing, cpus, t),
         InCpus(Making, cpus, t),
         InCpus(Handing, cpus, t))
  }

  function Queued(s: State, t: Tid): nat {
    multiset(s.queue)[t]
  }

  // -- the shape of a kernel stack

  /** Frames found only at the bottom of a stack, with the current thread they go with. */
  predicate Base(f: Frame, current: Option<Tid>) {
    match f
    case Booting | Idling => current == None
    case InUser(t) => current == Some(t)
    case SyscallEntry(t) => current == Some(t)
    case SyscallCloned(t) => current == Some(t)
    case Switching(t) => current == Some(t)
    case ReturnCloned(t) => current == Some(t)
    case Requeueing(t) => current == Some(t)
    case SyscallCleared(_) | InSyscallUpcall(_) | SyscallTerminating(_) | SyscallDone(_) => current == None
    case Returning(held) => current == held
    case Panicked(_) | Picking | Clearing | Popped(_) | Releasing(_) | Entering(_) => true
    case _ => false
  }

  predicate IsCall(f: Frame) {
    f.TerminateCalled? || f.TerminatePending? || f.InTerminatedUpcall? || f.UnblockCalled? || f.UnblockLocked? ||
    f.UnblockCloned? || f.UnblockFailed? || f.UnblockPushed? || f.ContextCalled? || f.CallDone? ||
    f.CreateBoxed? || f.CreateKernel? || f.CreateReturning?
  }

  /** `caller` can be right below `callee`. */
  predicate Supports(caller: Frame, callee: Frame) {
    RunsServer(caller) || (callee.InTerminatedUpcall? && (caller.CallDone? || caller.SyscallDone?))
  }

  predicate WellStacked(s: Stack, current: Option<Tid>) {
    s.Push? &&
    if s.rest.Bottom? then Base(s.top, current)
    else IsCall(s.top) && Supports(s.rest.top, s.top) && WellStacked(s.rest, current)
  }

  // -- the balance of one thread

  /** Every reference is accounted for. */
  predicate RefsBalance(th: Thread, queued: int, held: Held) {
    && th.counter == queued + held.refs + (if th.handle then 1 else 0)
    && (!th.made ==> th.counter == 0)
  }

  /** The handle lives as long as some `Arc<Thread>` does. */
  predicate ArcsBalance(th: Thread, held: Held) {
    && th.arcs == th.shared + (if th.data == Live then 1 else 0) + held.reaping + held.making + held.handing
    && 0 <= th.shared
    && (th.handle <==> th.arcs > 0)
    && (th.handle ==> th.made)
    && (!th.published ==> th.shared == 0)
  }

  /** The right to run a thread exists once when it is runnable, and not at all while it is blocked. */
  predicate TokensBalance(th: Thread, queued: int, held: Held) {
    && held.waking + held.woken == (if th.lock.Some? then 1 else 0)
    && match th.state
       case Runnable => queued + held.tokens + held.running == 1 && th.lock.None?
       case Blocked => queued + held.tokens + held.running == held.woken
       case Terminated => queued + held.tokens + held.running <= 1 && th.lock.None?
  }

  /** The Terminated upcall is issued, or about to be, exactly when nothing borrows the user data. */
  predicate UpcallsBalance(th: Thread, held: Held) {
    && th.inUpcalls == held.upcalls
    && held.pending + (if th.data == UserData.Reclaimed then 1 else 0)
       == if th.state == Terminated && th.inUpcalls == 0 then 1 else 0
  }

  /** The user data is written once, before anything uses the thread. */
  predicate DataBalance(th: Thread, queued: int, held: Held) {
    && held.boxing + held.making == (if th.data == Uninit then 1 else 0)
    && held.handing == (if th.data == Live && !th.published then 1 else 0)
    && (!th.published ==> held.uses == 0 && queued == 0 && th.state == Blocked)
    && (th.published ==> th.data == Live || th.data == UserData.Reclaimed)
    && (th.made <==> held.making == 1 || th.data == Live || th.data == UserData.Reclaimed)
  }

  /** What the monitor has seen is what the kernel's state says. */
  predicate Witnessed(th: Thread, held: Held, seen: Seen) {
    && (seen.made <==> th.made)
    && (seen.init <==> th.data == Live || th.data == UserData.Reclaimed)
    && (seen.requested <==> th.state == Terminated)
    && (seen.reclaimed <==> th.data == UserData.Reclaimed)
    && (seen.freed <==> th.made && th.counter == 0)
    && seen.upcalls == th.inUpcalls
    && seen.running == held.running
  }

  predicate Balanced(th: Thread, queued: int, held: Held, seen: Seen) {
    && RefsBalance(th, queued, held)
    && ArcsBalance(th, held)
    && TokensBalance(th, queued, held)
    && UpcallsBalance(th, held)
    && DataBalance(th, queued, held)
    && Witnessed(th, held, seen)
  }

  predicate ThreadOk(s: State, log: seq<Event>, t: Tid) {
    Balanced(At(s, t), Queued(s, t), Sum(s.cpus, t), History(log, t))
  }

  predicate CpusOk(cpus: seq<Cpu>) {
    forall c :: 0 <= c < |cpus| ==> WellStacked(cpus[c].stack, cpus[c].current)
  }

  /** Holds of every state `s` that a run reaches after reporting `log`. */
  ghost predicate Inv(s: State, log: seq<Event>) {
    && CpusOk(s.cpus)
    && Lawful(log)
    && forall t: Tid :: ThreadOk(s, log, t)
  }

  // -- counting over CPUs

  /** Changing one CPU changes the total by what that CPU holds. */
  lemma {:induction false} Update(k: Kind, cpus: seq<Cpu>, c: CpuId, cpu: Cpu, t: Tid)
    requires c < |cpus|
    ensures InCpus(k, cpus[c := cpu], t) == InCpus(k, cpus, t) - InCpu(k, cpus[c], t) + InCpu(k, cpu, t)
  {
    if c == 0 {
      assert cpus[c := cpu][1..] == cpus[1..];
    } else {
      assert cpus[c := cpu][1..] == cpus[1..][c - 1 := cpu];
      Update(k, cpus[1..], c - 1, cpu, t);
    }
  }

  function Below(s: Stack, t: Tid): Held {
    Held(InStack(Refs, s, t),
         InStack(Tokens, s, t),
         InStack(Running, s, t),
         InStack(Upcalls, s, t),
         InStack(Pending, s, t),
         InStack(Reaping, s, t),
         InStack(Waking, s, t),
         InStack(Woken, s, t),
         InStack(Uses, s, t),
         InStack(Boxing, s, t),
         InStack(Making, s, t),
         InStack(Handing, s, t))
  }

  /** What one frame holds of `t`. */
  function Of(f: Frame, t: Tid): Held {
    if Subject(f) == Some(t) then Holding(f) else Nothing
  }

  function Share(cpu: Cpu, t: Tid): Held {
    Held(InCpu(Refs, cpu, t),
         InCpu(Tokens, cpu, t),
         InCpu(Running, cpu, t),
         InCpu(Upcalls, cpu, t),
         InCpu(Pending, cpu, t),
         InCpu(Reaping, cpu, t),
         InCpu(Waking, cpu, t),
         InCpu(Woken, cpu, t),
         InCpu(Uses, cpu, t),
         InCpu(Boxing, cpu, t),
         InCpu(Making, cpu, t),
         InCpu(Handing, cpu, t))
  }

  function Plus(a: Held, b: Held): Held {
    Held(a.refs + b.refs,
         a.tokens + b.tokens,
         a.running + b.running,
         a.upcalls + b.upcalls,
         a.pending + b.pending,
         a.reaping + b.reaping,
         a.waking + b.waking,
         a.woken + b.woken,
         a.uses + b.uses,
         a.boxing + b.boxing,
         a.making + b.making,
         a.handing + b.handing)
  }

  function Minus(a: Held, b: Held): Held {
    Held(a.refs - b.refs,
         a.tokens - b.tokens,
         a.running - b.running,
         a.upcalls - b.upcalls,
         a.pending - b.pending,
         a.reaping - b.reaping,
         a.waking - b.waking,
         a.woken - b.woken,
         a.uses - b.uses,
         a.boxing - b.boxing,
         a.making - b.making,
         a.handing - b.handing)
  }

  lemma SumUpdate(cpus: seq<Cpu>, c: CpuId, cpu: Cpu, t: Tid)
    requires c < |cpus|
    ensures Sum(cpus[c := cpu], t) == Plus(Minus(Sum(cpus, t), Share(cpus[c], t)), Share(cpu, t))
  {
    hide InCpus, InCpu;
    Update(Refs, cpus, c, cpu, t);
    Update(Tokens, cpus, c, cpu, t);
    Update(Running, cpus, c, cpu, t);
    Update(Upcalls, cpus, c, cpu, t);
    Update(Pending, cpus, c, cpu, t);
    Update(Reaping, cpus, c, cpu, t);
    Update(Waking, cpus, c, cpu, t);
    Update(Woken, cpus, c, cpu, t);
    Update(Uses, cpus, c, cpu, t);
    Update(Boxing, cpus, c, cpu, t);
    Update(Making, cpus, c, cpu, t);
    Update(Handing, cpus, c, cpu, t);
  }

  /** What can be held of a thread: nothing in negative amounts, and a reference by whoever needs one. */
  predicate Sane(h: Held) {
    && 0 <= h.tokens && 0 <= h.running && 0 <= h.upcalls && 0 <= h.pending && 0 <= h.reaping && 0 <= h.waking
    && 0 <= h.woken && 0 <= h.boxing && 0 <= h.making && 0 <= h.handing
    && h.tokens + h.running + h.reaping + h.upcalls + h.pending + h.waking + h.woken <= h.uses
    && h.running + h.upcalls + h.pending + h.waking + h.woken <= h.refs
  }

  /** What the top frame of a CPU and its current-thread pointer hold. */
  function OnTop(cpu: Cpu, t: Tid): Held
    requires cpu.stack.Push?
  {
    var h := Of(cpu.stack.top, t);
    h.(refs := h.refs + if cpu.current == Some(t) then 1 else 0)
  }

  lemma InStackPush(f: Frame, rest: Stack, t: Tid)
    ensures forall k: Kind :: InStack(k, Push(f, rest), t) == InFrame(k, f, t) + InStack(k, rest, t)
  {
  }

  lemma BelowPush(f: Frame, rest: Stack, t: Tid)
    ensures Below(Push(f, rest), t) == Plus(Of(f, t), Below(rest, t))
  {
    hide InStack, Holding, Subject;
    InStackPush(f, rest, t);
  }

  lemma ShareTop(cpu: Cpu, t: Tid)
    requires cpu.stack.Push?
    ensures Share(cpu, t) == Plus(OnTop(cpu, t), Below(cpu.stack.rest, t))
  {
    hide InStack, Of;
    BelowPush(cpu.stack.top, cpu.stack.rest, t);
  }

  lemma BelowBottom(t: Tid)
    ensures Below(Bottom, t) == Nothing
  {
  }

  /** The callers on a stack run nothing and have no right to. */
  lemma {:induction false} BelowSane(s: Stack, current: Option<Tid>, t: Tid)
    requires WellStacked(s, current)
    ensures Sane(Below(s.rest, t))
  {
    hide InStack;
    if s.rest.Push? {
      BelowSane(s.rest, current, t);
      BelowPush(s.rest.top, s.rest.rest, t);
      hide Below;
    } else {
      BelowBottom(t);
    }
  }

  lemma {:induction false} ShareSane(cpu: Cpu, t: Tid)
    requires WellStacked(cpu.stack, cpu.current)
    ensures Sane(Share(cpu, t))
  {
    hide Below, Share;
    ShareTop(cpu, t);
    BelowSane(cpu.stack, cpu.current, t);
  }

  lemma InCpusCons(cpus: seq<Cpu>, t: Tid)
    requires cpus != []
    ensures forall k: Kind :: InCpus(k, cpus, t) == InCpu(k, cpus[0], t) + InCpus(k, cpus[1..], t)
  {
  }

  lemma SumCons(cpus: seq<Cpu>, t: Tid)
    requires cpus != []
    ensures Sum(cpus, t) == Plus(Share(cpus[0], t), Sum(cpus[1..], t))
  {
    hide InCpus, InCpu;
    InCpusCons(cpus, t);
  }

  lemma CpusOkTail(cpus: seq<Cpu>)
    requires CpusOk(cpus) && cpus != []
    ensures CpusOk(cpus[1..])
    ensures WellStacked(cpus[0].stack, cpus[0].current)
  {
    hide WellStacked;
    forall c | 0 <= c < |cpus[1..]| ensures WellStacked(cpus[1..][c].stack, cpus[1..][c].current) {
      assert cpus[1..][c] == cpus[c + 1];
    }
  }

  lemma {:induction false} SumSane(cpus: seq<Cpu>, t: Tid)
    requires CpusOk(cpus)
    ensures Sane(Sum(cpus, t))
  {
    if cpus == [] {
      assert Sum(cpus, t) == Nothing;
    } else {
      CpusOkTail(cpus);
      ShareSane(cpus[0], t);
      SumSane(cpus[1..], t);
      SumCons(cpus, t);
      hide Sum, Share, WellStacked;
    }
  }

  /** What is held without the top of CPU `c` makes sense on its own. */
  lemma {:induction false} RestSane(cpus: seq<Cpu>, c: CpuId, t: Tid)
    requires CpusOk(cpus) && c < |cpus|
    ensures cpus[c].stack.Push?
    ensures Sane(Minus(Sum(cpus, t), OnTop(cpus[c], t)))
  {
    hide Sum, Share, Below, OnTop;
    CpusOkTail(cpus);
    SumCons(cpus, t);
    if c == 0 {
      ShareTop(cpus[0], t);
      BelowSane(cpus[0].stack, cpus[0].current, t);
      SumSane(cpus[1..], t);
    } else {
      ShareSane(cpus[0], t);
      RestSane(cpus[1..], c - 1, t);
    }
  }

  // -- the start

  lemma InitialOk(s: State)
    requires Initial(s)
    ensures Inv(s, [])
  {
    hide Sum, Balanced;
    forall c | 0 <= c < |s.cpus| ensures WellStacked(s.cpus[c].stack, s.cpus[c].current) {
      assert PoweredOn(s.cpus[c]);
    }
    AbsentBalanced();
    forall t: Tid ensures ThreadOk(s, [], t) {
      InitialSum(s.cpus, t);
      assert At(s, t) == Absent && Queued(s, t) == 0 && History([], t) == Unseen;
    }
  }

  lemma AbsentBalanced()
    ensures Balanced(Absent, 0, Nothing, Unseen)
  {
  }

  lemma InitialSum(cpus: seq<Cpu>, t: Tid)
    requires forall c :: 0 <= c < |cpus| ==> PoweredOn(cpus[c])
    ensures Sum(cpus, t) == Nothing
  {
    forall k: Kind { InitialTally(k, cpus, t); }
  }

  lemma {:induction false} InitialTally(k: Kind, cpus: seq<Cpu>, t: Tid)
    requires forall c :: 0 <= c < |cpus| ==> PoweredOn(cpus[c])
    ensures InCpus(k, cpus, t) == 0
  {
    if cpus != [] {
      assert PoweredOn(cpus[0]);
      assert InStack(k, cpus[0].stack.rest, t) == 0;
      InitialTally(k, cpus[1..], t);
    }
  }
}
