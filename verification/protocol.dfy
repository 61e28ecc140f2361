/**
 The thread, scheduler and upcall protocol as a step machine over any number of CPUs.

 One step performs one effect on shared memory: a critical section, a reference-count
 update, a run-queue operation, or an access to the upcall's user data. `unblock` holds
 the thread's lock across several steps, so its window is visible to the other CPUs.
 Server code (an upcall handler, or a server being started) runs on the kernel stack
 with no thread lock held: whenever it is on top of a CPU's stack it may call any thread
 operation on any thread whose `Arc<Thread>` is alive.
 */
module Protocol {
  import opened Prelude
  import opened Monitor

  type CpuId = nat

  datatype RunState = Runnable | Blocked | Terminated

  /** The heap box that `Upcall::new` allocates for the handler and its thread. */
  datatype UserData = Uninit | Live | Reclaimed | Released

  datatype Thread = Thread(
    state: RunState,
    inUpcalls: int,
    lock: Option<CpuId>,  // holder of the `mutable` lock, while held across steps
    counter: int,         // the reference count of the kernel object
    made: bool,           // the kernel object has been allocated
    handle: bool,         // a `Handle` owns one reference
    data: UserData,
    arcs: int,            // strong count of the server's `Arc<Thread>`
    shared: int,          // those of them in the hands of server code
    published: bool)      // `Thread::create` has returned it

  /** A thread before `SharedRef::new`: only the box for its user data exists. */
  const Boxed := Thread(Blocked, 0, None, 0, false, false, Uninit, 0, 0, false)

  /** Stands for every thread identifier that is not in use. */
  const Absent := Boxed.(data := Released)

  /** Where a CPU is. Each frame names the thread it works on. */
  datatype Frame =
    // the bottom of a kernel stack
    | Booting
    | Idling
    | InUser(t: Tid)
    | SyscallEntry(t: Tid)        // syscall.rs: handle_syscall
    | SyscallCloned(t: Tid)       //   after current_thread.thread()
    | SyscallCleared(t: Tid)      //   after current_thread.clear()
    | InSyscallUpcall(t: Tid)     //   thread.rs: the Syscall upcall is running
    | SyscallTerminating(t: Tid)  //   terminate_now
    | SyscallDone(t: Tid)         //   about to drop(current)
    | Returning(held: Option<Tid>)  // scheduler.rs: return_to_user
    | ReturnCloned(t: Tid)        //   after current.thread()
    | Requeueing(t: Tid)          //   about to push_front
    | Picking                     //   the pop loop
    | Popped(t: Tid)              //   about to ask is_runnable
    | Releasing(t: Tid)           //   dropping a reference that is not needed
    | Clearing                    //   the run queue was empty
    | Entering(t: Tid)            //   about to update the current thread
    | Switching(t: Tid)           //   about to leave the kernel
    | Panicked(held: Option<Tid>)
    // calls made by server code
    | TerminateCalled(t: Tid)
    | TerminatePending(t: Tid)
    | InTerminatedUpcall(t: Tid)
    | UnblockCalled(t: Tid)
    | UnblockLocked(t: Tid)
    | UnblockCloned(t: Tid)
    | UnblockFailed(t: Tid)
    | UnblockPushed(t: Tid)
    | ContextCalled(t: Tid)
    | CallDone(t: Tid)            // about to drop the reference taken from the handle
    | CreateBoxed(t: Tid)
    | CreateKernel(t: Tid)
    | CreateReturning(t: Tid)

  datatype Stack = Bottom | Push(top: Frame, rest: Stack)

  datatype Cpu = Cpu(current: Option<Tid>, stack: Stack)

  /** `event` is what the step that led here reported to an observer, if anything. */
  datatype State = State(threads: map<Tid, Thread>, queue: seq<Tid>, cpus: seq<Cpu>, event: Option<Event>)

  datatype Action =
    | Advance(ok: bool)  // the kernel's next step; `ok` is whether an allocation in it succeeds
    | Trap               // SYSCALL instruction
    | Interrupt
    | HandlerReturns
    | CallTerminate(u: Tid)
    | CallUnblock(u: Tid)
    | CallContext(u: Tid)
    | CallCreate(u: Tid)  // with a fresh identifier
    | ShareArc(u: Tid)
    | DropArc(u: Tid)

  predicate Initial(s: State) {
    && s.threads == map[] && s.queue == [] && s.event == None
    && forall c :: 0 <= c < |s.cpus| ==> PoweredOn(s.cpus[c])
  }

  predicate PoweredOn(cpu: Cpu) {
    cpu == Cpu(None, Push(Booting, Bottom)) || cpu == Cpu(None, Push(Idling, Bottom))
  }

  function At(s: State, t: Tid): Thread {
    if t in s.threads then s.threads[t] else Absent
  }

  function Put(s: State, t: Tid, th: Thread): State {
    s.(threads := s.threads[t := th])
  }

  function Emit(s: State, e: Event): State {
    s.(event := Some(e))
  }

  /** CPU `c` continues as `cpu`. */
  function Become(s: State, c: CpuId, cpu: Cpu): State
    requires c < |s.cpus|
  {
    s.(cpus := s.cpus[c := cpu])
  }

  /** Replaces the top frame of CPU `c`. */
  function Goto(s: State, c: CpuId, f: Frame): State
    requires c < |s.cpus| && s.cpus[c].stack.Push?
  {
    Become(s, c, s.cpus[c].(stack := Push(f, s.cpus[c].stack.rest)))
  }

  function Pop(s: State, c: CpuId): State
    requires c < |s.cpus| && s.cpus[c].stack.Push?
  {
    Become(s, c, s.cpus[c].(stack := s.cpus[c].stack.rest))
  }

  function Call(s: State, c: CpuId, f: Frame): State
    requires c < |s.cpus|
  {
    Become(s, c, s.cpus[c].(stack := Push(f, s.cpus[c].stack)))
  }

  /** The top frame of CPU `c` becomes `f`, and calls `g`. */
  function GotoAndCall(s: State, c: CpuId, f: Frame, g: Frame): State
    requires c < |s.cpus| && s.cpus[c].stack.Push?
  {
    Become(s, c, s.cpus[c].(stack := Push(g, Push(f, s.cpus[c].stack.rest))))
  }

  /** `SharedRef::clone`. */
  function CloneRef(s: State, t: Tid): State {
    Put(s, t, At(s, t).(counter := At(s, t).counter + 1))
  }

  /** Dropping a `SharedRef`: the object is freed when the count was one. */
  function DropRef(s: State, t: Tid): State {
    var th := At(s, t);
    var s' := Put(s, t, th.(counter := th.counter - 1));
    if th.counter == 1 then Emit(s', Freed(t)) else s'
  }

  function DropCurrent(s: State, current: Option<Tid>): State {
    if current.Some? then DropRef(s, current.value) else s
  }

  /** Dropping an `Arc<Thread>`: the last one destroys the handle, and with it one reference. */
  function ReleaseArc(s: State, t: Tid): State {
    var th := At(s, t);
    if th.arcs != 1 then Put(s, t, th.(arcs := th.arcs - 1))
    else
      var s' := Put(s, t, th.(arcs := 0, handle := false, counter := th.counter - 1));
      if th.counter == 1 then Emit(s', Freed(t)) else s'
  }

  /** Frames whose next step takes the thread's lock. */
  predicate NeedsLock(f: Frame) {
    f.SyscallCleared? || f.InSyscallUpcall? || f.ReturnCloned? || f.Popped? ||
    f.TerminateCalled? || f.UnblockCalled? || f.ContextCalled?
  }

  /** Frames in which server code runs. */
  predicate RunsServer(f: Frame) {
    f.Booting? || f.InSyscallUpcall? || f.InTerminatedUpcall?
  }

  predicate Advances(f: Frame) {
    !RunsServer(f) && !f.InUser? && !f.Idling? && !f.Panicked?
  }

  predicate LockFree(s: State, f: Frame) {
    NeedsLock(f) ==> At(s, f.t).lock.None?
  }

  /** A server can reach thread `u` through an `Arc<Thread>`. */
  predicate Reachable(s: State, u: Tid) {
    At(s, u).published && At(s, u).arcs > 0
  }

  predicate Enabled(s: State, c: CpuId, a: Action) {
    && c < |s.cpus|
    && s.cpus[c].stack.Push?
    && var f := s.cpus[c].stack.top;
    match a
    case Advance(_) => Advances(f) && LockFree(s, f)
    case Trap => f.InUser?
    case Interrupt => f.InUser? || f.Idling?
    case HandlerReturns => RunsServer(f) && LockFree(s, f)
    case CallCreate(u) => RunsServer(f) && u !in s.threads
    case CallTerminate(u) => RunsServer(f) && Reachable(s, u)
    case CallUnblock(u) => RunsServer(f) && Reachable(s, u)
    case CallContext(u) => RunsServer(f) && Reachable(s, u)
    case ShareArc(u) => RunsServer(f) && Reachable(s, u)
    case DropArc(u) => RunsServer(f) && At(s, u).shared > 0
  }

  function Apply(s: State, c: CpuId, a: Action): State
    requires Enabled(s, c, a)
  {
    Perform(s.(event := None), c, a)
  }

  function Perform(s: State, c: CpuId, a: Action): State
    requires Enabled(s, c, a)
  {
    var f := s.cpus[c].stack.top;
    match a
    case Advance(ok) =>
      if f.SyscallEntry? || f.SyscallCloned? || f.SyscallCleared? || f.SyscallTerminating? || f.SyscallDone? then
        AdvanceSyscall(s, c, f)
      else if f.TerminateCalled? || f.TerminatePending? || f.ContextCalled? || f.CallDone? then
        AdvanceCall(s, c, f)
      else if f.UnblockCalled? || f.UnblockLocked? || f.UnblockCloned? || f.UnblockFailed? || f.UnblockPushed? then
        AdvanceUnblock(s, c, f, ok)
      else if f.CreateBoxed? || f.CreateKernel? || f.CreateReturning? then
        AdvanceCreate(s, c, f, ok)
      else if f.Returning? || f.ReturnCloned? || f.Requeueing? || f.Releasing? then
        AdvanceReturn(s, c, f, ok)
      else
        AdvancePick(s, c, f)
    case Trap => Emit(Goto(s, c, SyscallEntry(f.t)), Left(f.t))
    case Interrupt =>
      if f.InUser? then Emit(Goto(s, c, Returning(Some(f.t))), Left(f.t)) else Goto(s, c, Returning(None))
    case HandlerReturns => ReturnFromHandler(s, c, f)
    case CallCreate(u) => Call(Put(s, u, Boxed), c, CreateBoxed(u))
    case CallTerminate(u) => Call(CloneRef(s, u), c, TerminateCalled(u))
    case CallUnblock(u) => Call(CloneRef(s, u), c, UnblockCalled(u))
    case CallContext(u) => Call(CloneRef(s, u), c, ContextCalled(u))
    case ShareArc(u) =>
      var th := At(s, u);
      Put(s, u, th.(arcs := th.arcs + 1, shared := th.shared + 1))
    case DropArc(u) =>
      var th := At(s, u);
      ReleaseArc(Put(s, u, th.(shared := th.shared - 1)), u)
  }

  /** `syscall::handle_syscall` and `Thread::handle_syscall` up to and after the upcall. */
  function AdvanceSyscall(s: State, c: CpuId, f: Frame): State
    requires c < |s.cpus| && s.cpus[c].stack.Push? && s.cpus[c].stack.top == f
    requires f.SyscallEntry? || f.SyscallCloned? || f.SyscallCleared? || f.SyscallTerminating? || f.SyscallDone?
  {
    var cpu := s.cpus[c];
    var th := At(s, f.t);
    match f
    case SyscallEntry(_) =>
      if cpu.current.None? then Goto(s, c, Panicked(None))
      else Goto(CloneRef(s, cpu.current.value), c, SyscallCloned(cpu.current.value))
    case SyscallCloned(t) =>
      DropCurrent(Become(s, c, Cpu(None, Push(SyscallCleared(t), cpu.stack.rest))), cpu.current)
    case SyscallCleared(t) =>
      if th.state == Terminated then Goto(s, c, SyscallDone(t))
      else if th.state == Blocked then Emit(Goto(s, c, Panicked(Some(t))), AssertFailed(t))
      else
        Emit(Goto(Put(s, t, th.(state := Blocked, inUpcalls := th.inUpcalls + 1)), c, InSyscallUpcall(t)), Begin(t))
    case SyscallTerminating(t) =>
      GotoAndCall(Reclaim(s, t), c, SyscallDone(t), InTerminatedUpcall(t))
    case SyscallDone(t) =>
      DropRef(Goto(s, c, Returning(cpu.current)), t)
  }

  /** The Terminated upcall takes the user data, and the `Arc` in it, out of its box. */
  function Reclaim(s: State, t: Tid): State {
    Emit(Put(s, t, At(s, t).(data := UserData.Reclaimed)), Event.Reclaimed(t))
  }

  /** The server's code returns to the kernel. */
  function ReturnFromHandler(s: State, c: CpuId, f: Frame): State
    requires c < |s.cpus| && s.cpus[c].stack.Push? && s.cpus[c].stack.top == f && RunsServer(f)
  {
    match f
    case Booting => Goto(s, c, Returning(s.cpus[c].current))
    case InSyscallUpcall(t) =>
      var th := At(s, t);
      var now := th.inUpcalls - 1 == 0 && th.state == Terminated;
      var s' := Put(s, t, th.(inUpcalls := th.inUpcalls - 1));
      Emit(Goto(s', c, if now then SyscallTerminating(t) else SyscallDone(t)), End(t))
    case InTerminatedUpcall(t) => ReleaseArc(Pop(s, c), t)
  }

  /** `scheduler::return_to_user`, up to the pop loop. */
  function AdvanceReturn(s: State, c: CpuId, f: Frame, ok: bool): State
    requires c < |s.cpus| && s.cpus[c].stack.Push? && s.cpus[c].stack.top == f
    requires f.Returning? || f.ReturnCloned? || f.Requeueing? || f.Releasing?
  {
    var cpu := s.cpus[c];
    match f
    case Returning(_) =>
      if cpu.current.None? then Goto(s, c, Picking)
      else Goto(CloneRef(s, cpu.current.value), c, ReturnCloned(cpu.current.value))
    case ReturnCloned(t) => Goto(s, c, if At(s, t).state == Runnable then Requeueing(t) else Releasing(t))
    case Requeueing(t) =>
      if ok then Goto(s.(queue := [t] + s.queue), c, Picking)
      else DropRef(Goto(s, c, Panicked(cpu.current)), t)
    case Releasing(t) => DropRef(Goto(s, c, Picking), t)
  }

  /** The pop loop of `scheduler::return_to_user`, and `CurrentThread::enter`. */
  function AdvancePick(s: State, c: CpuId, f: Frame): State
    requires c < |s.cpus| && s.cpus[c].stack.Push? && s.cpus[c].stack.top == f
    requires f.Picking? || f.Popped? || f.Clearing? || f.Entering? || f.Switching?
  {
    var cpu := s.cpus[c];
    match f
    case Picking =>
      if s.queue == [] then Goto(s, c, Clearing)
      else Goto(s.(queue := s.queue[1..]), c, Popped(s.queue[0]))
    case Popped(t) =>
      if At(s, t).state == Runnable then Goto(s, c, Entering(t))
      else Emit(Goto(s, c, Releasing(t)), Discarded(t))
    case Clearing => DropCurrent(Become(s, c, Cpu(None, Push(Idling, cpu.stack.rest))), cpu.current)
    case Entering(t) => DropCurrent(Become(s, c, Cpu(Some(t), Push(Switching(t), cpu.stack.rest))), cpu.current)
    case Switching(t) => Emit(Goto(s, c, InUser(t)), Entered(t))
  }

  /** `Thread::terminate`, `read_context` and `write_context`. */
  function AdvanceCall(s: State, c: CpuId, f: Frame): State
    requires c < |s.cpus| && s.cpus[c].stack.Push? && s.cpus[c].stack.top == f
    requires f.TerminateCalled? || f.TerminatePending? || f.ContextCalled? || f.CallDone?
  {
    var th := At(s, f.t);
    match f
    case TerminateCalled(t) =>
      if th.state == Terminated then Goto(s, c, CallDone(t))
      else
        var s' := Put(s, t, th.(state := Terminated));
        Emit(Goto(s', c, if th.inUpcalls == 0 then TerminatePending(t) else CallDone(t)), Requested(t))
    case TerminatePending(t) => GotoAndCall(Reclaim(s, t), c, CallDone(t), InTerminatedUpcall(t))
    case ContextCalled(t) =>
      if th.state == Blocked then Emit(Goto(s, c, CallDone(t)), Context(t)) else Goto(s, c, CallDone(t))
    case CallDone(t) => DropRef(Pop(s, c), t)
  }

  /** `Thread::unblock`. */
  function AdvanceUnblock(s: State, c: CpuId, f: Frame, ok: bool): State
    requires c < |s.cpus| && s.cpus[c].stack.Push? && s.cpus[c].stack.top == f
    requires f.UnblockCalled? || f.UnblockLocked? || f.UnblockCloned? || f.UnblockFailed? || f.UnblockPushed?
  {
    var th := At(s, f.t);
    match f
    case UnblockCalled(t) =>
      if th.state != Blocked then Goto(s, c, CallDone(t))
      else Goto(Put(s, t, th.(lock := Some(c))), c, UnblockLocked(t))
    case UnblockLocked(t) => Goto(CloneRef(s, t), c, UnblockCloned(t))
    case UnblockCloned(t) =>
      if ok then Goto(s.(queue := s.queue + [t]), c, UnblockPushed(t))
      else DropRef(Goto(s, c, UnblockFailed(t)), t)
    case UnblockFailed(t) => Goto(Put(s, t, th.(lock := None)), c, CallDone(t))
    case UnblockPushed(t) => Goto(Put(s, t, th.(state := Runnable, lock := None)), c, CallDone(t))
  }

  /** The server's `Thread::create` and `Upcall::new`. */
  function AdvanceCreate(s: State, c: CpuId, f: Frame, ok: bool): State
    requires c < |s.cpus| && s.cpus[c].stack.Push? && s.cpus[c].stack.top == f
    requires f.CreateBoxed? || f.CreateKernel? || f.CreateReturning?
  {
    var th := At(s, f.t);
    match f
    case CreateBoxed(t) =>
      var th' := th.(made := true, counter := 1, handle := true, arcs := 1);
      if ok then Emit(Goto(Put(s, t, th'), c, CreateKernel(t)), Made(t))
      else Pop(Put(s, t, th.(data := Released)), c)
    case CreateKernel(t) =>
      Emit(Goto(Put(s, t, th.(data := Live, arcs := th.arcs + 1)), c, CreateReturning(t)), Event.Init(t))
    case CreateReturning(t) => Pop(Put(s, t, th.(shared := 1, published := true)), c)
  }

  datatype Move = Move(cpu: CpuId, action: Action)

  /** `states` is a run from an initial state, in which `moves[k]` leads from `states[k]` to `states[k+1]`. */
  predicate IsRun(states: seq<State>, moves: seq<Move>) {
    && |states| == |moves| + 1
    && Initial(states[0])
    && forall k :: 0 <= k < |moves| ==>
                     && Enabled(states[k], moves[k].cpu, moves[k].action)
                     && states[k + 1] == Apply(states[k], moves[k].cpu, moves[k].action)
  }

  /** All that a run reported. */
  function Trace(states: seq<State>): seq<Event> {
    if states == [] then []
    else
      var last := states[|states| - 1];
      Trace(states[..|states| - 1]) + if last.event.Some? then [last.event.value] else []
  }
}
