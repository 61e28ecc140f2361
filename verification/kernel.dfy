/**
 The functions of `thread.rs`, `scheduler.rs` and `syscall.rs` as each runs on one CPU while the others run too. A
 function is a sequence of the machine's steps; between any two of them every other CPU may take any steps it can, and
 a step that takes a thread's lock waits until the lock is free. What a function returns and leaves behind is stated
 by the state in which its critical section ran.
 */
module KernelCode {
  import opened Prelude
  import opened Monitor
  import opened Protocol
  import opened ProtocolInvariant
  import opened ProtocolProof
  import opened ProtocolLocks
  import ProtocolTheorems

  // -- what a run says about one CPU

  /** The actions that CPU `c` took, in order. */
  ghost function Own(moves: seq<Move>, c: CpuId): seq<Action> {
    if moves == [] then []
    else
      var before, last := Own(moves[..|moves| - 1], c), moves[|moves| - 1];
      if last.cpu == c then before + [last.action] else before
  }

  lemma OwnAppend(moves: seq<Move>, m: Move, c: CpuId)
    ensures Own(moves + [m], c) == if m.cpu == c then Own(moves, c) + [m.action] else Own(moves, c)
  {
    assert (moves + [m])[..|moves|] == moves;
  }

  /** A step changes no other CPU. */
  lemma {:induction false} StepSpares(states: seq<State>, moves: seq<Move>, c: CpuId, a: Action)
    requires IsRun(states, moves) && Enabled(states[|moves|], c, a)
    ensures var s, s' := states[|moves|], Apply(states[|moves|], c, a);
      |s'.cpus| == |s.cpus| && forall d :: 0 <= d < |s.cpus| && d != c ==> s'.cpus[d] == s.cpus[d]
  {
    hide Trace, Perform, WellStacked, Turned;
    ProtocolTheorems.RunInv(states, moves, |moves|);
    ProtocolTheorems.StepIsLocal(states[|moves|].(event := None), Apply(states[|moves|], c, a), c, a);
  }

  lemma StackShape(states: seq<State>, moves: seq<Move>, c: CpuId)
    requires IsRun(states, moves) && c < |states[|moves|].cpus|
    ensures var cpu := states[|moves|].cpus[c]; WellStacked(cpu.stack, cpu.current)
  {
    hide Trace, WellStacked;
    ProtocolTheorems.RunInv(states, moves, |moves|);
  }

  lemma RunGrows(states: seq<State>, moves: seq<Move>, c: CpuId, a: Action)
    requires IsRun(states, moves) && Enabled(states[|moves|], c, a)
    ensures IsRun(states + [Apply(states[|moves|], c, a)], moves + [Move(c, a)]) && |states| == |moves| + 1
  {
    hide Apply, Enabled;
  }

  /** What a step does is no matter of what the last one reported. */
  lemma SameView(s: State, c: CpuId, a: Action)
    ensures Enabled(s, c, a) <==> Enabled(s.(event := None), c, a)
    ensures Enabled(s, c, a) ==> Apply(s, c, a) == Apply(s.(event := None), c, a)
  {
    hide Perform;
  }

  /** How often the run queue has grown. */
  ghost function Pushes(states: seq<State>): nat {
    if |states| < 2 then 0
    else
      var n := |states| - 1;
      Pushes(states[..n]) + if |states[n].queue| > |states[n - 1].queue| then 1 else 0
  }

  lemma PushesGrow(states: seq<State>, c: CpuId, a: Action)
    requires states != [] && Enabled(states[|states| - 1], c, a)
    ensures var s, s' := states[|states| - 1], Apply(states[|states| - 1], c, a);
      Pushes(states) <= Pushes(states + [s']) && |s'.queue| + Pushes(states) <= |s.queue| + Pushes(states + [s'])
  {
    var s := states[|states| - 1];
    var s' := Apply(s, c, a);
    assert (states + [s'])[..|states|] == states;
    QueueStep(s, c, a);
  }

  lemma {:induction false} QueueInCalls(s: State, c: CpuId, ok: bool)
    requires Enabled(s, c, Advance(ok))
    requires var f := s.cpus[c].stack.top; InSyscall(f) || InCall(f) || InUnblock(f)
    ensures |Apply(s, c, Advance(ok)).queue| <= |s.queue| + 1
  {
    hide AdvanceCreate, AdvanceReturn, AdvancePick, ReturnFromHandler, At, LockFree;
  }

  lemma {:induction false} QueueInReturn(s: State, c: CpuId, ok: bool)
    requires Enabled(s, c, Advance(ok))
    requires var f := s.cpus[c].stack.top; InCreate(f) || InReturn(f) || InPick(f)
    ensures |Apply(s, c, Advance(ok)).queue| <= |s.queue| + 1
  {
    hide AdvanceSyscall, AdvanceCall, AdvanceUnblock, ReturnFromHandler, At, LockFree;
  }

  /** A step adds at most one entry to the queue. */
  lemma {:induction false} QueueStep(s: State, c: CpuId, a: Action)
    requires Enabled(s, c, a)
    ensures |Apply(s, c, a).queue| <= |s.queue| + 1
  {
    hide AdvanceSyscall, AdvanceCall, AdvanceUnblock, AdvanceCreate, AdvanceReturn, AdvancePick;
    var f := s.cpus[c].stack.top;
    if a.Advance? {
      if InSyscall(f) || InCall(f) || InUnblock(f) { QueueInCalls(s, c, a.ok); } else { QueueInReturn(s, c, a.ok); }
    }
  }

  // -- where the next step of a CPU leads, and what a critical section does to its thread

  /** The next step of CPU `c` is enabled: no lock is in its way. */
  predicate Unhindered(s: State, c: CpuId) {
    c < |s.cpus| && s.cpus[c].stack.Push? && Advances(s.cpus[c].stack.top) && LockFree(s, s.cpus[c].stack.top)
  }

  function Then(cpu: Cpu, f: Frame): Cpu
    requires cpu.stack.Push?
  {
    cpu.(stack := Push(f, cpu.stack.rest))
  }

  lemma SyscallGoes(s: State, c: CpuId, ok: bool)
    requires Unhindered(s, c) && InSyscall(s.cpus[c].stack.top)
    requires s.cpus[c].stack.top.SyscallEntry? ==> s.cpus[c].current == Some(s.cpus[c].stack.top.t)
    ensures Enabled(s, c, Advance(ok))
    ensures var s', cpu := Apply(s, c, Advance(ok)), s.cpus[c]; var f := cpu.stack.top; var th := At(s, f.t);
      && c < |s'.cpus|
      && s'.cpus[c] == (
        if f.SyscallEntry? then Then(cpu, SyscallCloned(f.t))
        else if f.SyscallCloned? then Then(cpu, SyscallCleared(f.t)).(current := None)
        else if f.SyscallCleared? then
          Then(cpu, if th.state == Terminated then SyscallDone(f.t)
                    else if th.state == Blocked then Panicked(Some(f.t)) else InSyscallUpcall(f.t))
        else if f.SyscallTerminating? then
          cpu.(stack := Push(InTerminatedUpcall(f.t), Push(SyscallDone(f.t), cpu.stack.rest)))
        else Then(cpu, Returning(cpu.current)))
      && (f.SyscallTerminating? ==> s'.event == Some(Event.Reclaimed(f.t)))
      && (f.SyscallCleared? && th.state == Runnable ==>
            At(s', f.t) == th.(state := Blocked, inUpcalls := th.inUpcalls + 1) && s'.event == Some(Begin(f.t)))
  {
    hide AdvanceCall, AdvanceUnblock, AdvanceCreate, AdvanceReturn, AdvancePick, ReturnFromHandler;
  }

  lemma CallGoes(s: State, c: CpuId, ok: bool)
    requires Unhindered(s, c) && InCall(s.cpus[c].stack.top)
    ensures Enabled(s, c, Advance(ok))
    ensures var s', cpu := Apply(s, c, Advance(ok)), s.cpus[c]; var f := cpu.stack.top; var th := At(s, f.t);
      && c < |s'.cpus|
      && s'.cpus[c] == (
        if f.TerminateCalled? then
          Then(cpu, if th.state != Terminated && th.inUpcalls == 0 then TerminatePending(f.t) else CallDone(f.t))
        else if f.TerminatePending? then
          cpu.(stack := Push(InTerminatedUpcall(f.t), Push(CallDone(f.t), cpu.stack.rest)))
        else if f.ContextCalled? then Then(cpu, CallDone(f.t))
        else cpu.(stack := cpu.stack.rest))
      && (f.TerminateCalled? ==> At(s', f.t) == th.(state := Terminated))
      && (f.TerminateCalled? ==> s'.event == if th.state == Terminated then None else Some(Requested(f.t)))
      && (f.TerminatePending? ==> s'.event == Some(Event.Reclaimed(f.t)))
      && (f.ContextCalled? ==> s'.event == if th.state == Blocked then Some(Context(f.t)) else None)
  {
    hide AdvanceSyscall, AdvanceUnblock, AdvanceCreate, AdvanceReturn, AdvancePick, ReturnFromHandler;
  }

  lemma UnblockGoes(s: State, c: CpuId, ok: bool)
    requires Unhindered(s, c) && InUnblock(s.cpus[c].stack.top)
    ensures Enabled(s, c, Advance(ok))
    ensures var s', cpu := Apply(s, c, Advance(ok)), s.cpus[c]; var f := cpu.stack.top; var th := At(s, f.t);
      && c < |s'.cpus|
      && s'.cpus[c] == Then(cpu,
        if f.UnblockCalled? && th.state == Blocked then UnblockLocked(f.t)
        else if f.UnblockLocked? then UnblockCloned(f.t)
        else if f.UnblockCloned? then (if ok then UnblockPushed(f.t) else UnblockFailed(f.t))
        else CallDone(f.t))
      && (f.UnblockCloned? ==> s'.queue == if ok then s.queue + [f.t] else s.queue)
      && At(s', f.t).state == if f.UnblockPushed? then Runnable else th.state
  {
    hide AdvanceSyscall, AdvanceCall, AdvanceCreate, AdvanceReturn, AdvancePick, ReturnFromHandler;
  }

  lemma ReturnGoes(s: State, c: CpuId, ok: bool)
    requires Unhindered(s, c) && InReturn(s.cpus[c].stack.top)
    ensures Enabled(s, c, Advance(ok))
    ensures var s', cpu := Apply(s, c, Advance(ok)), s.cpus[c]; var f := cpu.stack.top;
      && c < |s'.cpus|
      && s'.cpus[c] == Then(cpu, match f {
        case Returning(_) => if cpu.current.None? then Picking else ReturnCloned(cpu.current.value)
        case ReturnCloned(t) => if At(s, t).state == Runnable then Requeueing(t) else Releasing(t)
        case Requeueing(t) => if ok then Picking else Panicked(cpu.current)
        case _ => Picking
      })
      && s'.queue == if f.Requeueing? && ok then [f.t] + s.queue else s.queue
  {
    hide AdvanceSyscall, AdvanceCall, AdvanceUnblock, AdvanceCreate, AdvancePick, ReturnFromHandler;
  }

  lemma PickGoes(s: State, c: CpuId, ok: bool)
    requires Unhindered(s, c) && InPick(s.cpus[c].stack.top)
    ensures Enabled(s, c, Advance(ok))
    ensures var s', cpu := Apply(s, c, Advance(ok)), s.cpus[c]; var f := cpu.stack.top;
      && c < |s'.cpus|
      && s'.cpus[c] == (
        if f.Picking? then Then(cpu, if s.queue == [] then Clearing else Popped(s.queue[0]))
        else if f.Popped? then Then(cpu, if At(s, f.t).state == Runnable then Entering(f.t) else Releasing(f.t))
        else if f.Clearing? then Then(cpu, Idling).(current := None)
        else if f.Entering? then Then(cpu, Switching(f.t)).(current := Some(f.t))
        else Then(cpu, InUser(f.t)))
      && s'.queue == (if f.Picking? && s.queue != [] then s.queue[1..] else s.queue)
      && (f.Popped? ==> s'.event == if At(s, f.t).state == Runnable then None else Some(Discarded(f.t)))
      && (f.Switching? ==> s'.event == Some(Entered(f.t)))
  {
    hide AdvanceSyscall, AdvanceCall, AdvanceUnblock, AdvanceCreate, AdvanceReturn, ReturnFromHandler;
  }

  lemma UpcallEnds(s: State, c: CpuId, t: Tid)
    requires c < |s.cpus| && s.cpus[c].stack.Push? && s.cpus[c].stack.top == InSyscallUpcall(t) && At(s, t).lock == None
    ensures Enabled(s, c, HandlerReturns)
    ensures var s', cpu, th := Apply(s, c, HandlerReturns), s.cpus[c], At(s, t);
      && c < |s'.cpus|
      && s'.cpus[c] == Then(cpu, if th.inUpcalls == 1 && th.state == Terminated then SyscallTerminating(t)
                                 else SyscallDone(t))
      && At(s', t) == th.(inUpcalls := th.inUpcalls - 1) && s'.event == Some(End(t))
  {
    hide AdvanceSyscall, AdvanceCall, AdvanceUnblock, AdvanceCreate, AdvanceReturn, AdvancePick;
  }

  lemma TerminatedEnds(s: State, c: CpuId, t: Tid)
    requires c < |s.cpus| && s.cpus[c].stack.Push? && s.cpus[c].stack.top == InTerminatedUpcall(t)
    ensures Enabled(s, c, HandlerReturns)
    ensures var s', cpu, th := Apply(s, c, HandlerReturns), s.cpus[c], At(s, t);
      && c < |s'.cpus| && s'.cpus[c] == cpu.(stack := cpu.stack.rest)
      && At(s', t) == (if th.arcs != 1 then th.(arcs := th.arcs - 1)
                       else th.(arcs := 0, handle := false, counter := th.counter - 1))
      && s'.event == if th.arcs == 1 && th.counter == 1 then Some(Freed(t)) else None
  {
    hide AdvanceSyscall, AdvanceCall, AdvanceUnblock, AdvanceCreate, AdvanceReturn, AdvancePick;
  }

  /** What enters the kernel from outside it: a trap, an interrupt, or the end of booting. No thread changes. */
  lemma EntryGoes(s: State, c: CpuId, a: Action)
    requires c < |s.cpus| && s.cpus[c].stack.Push?
    requires var f := s.cpus[c].stack.top;
      || (a.Trap? && f.InUser?)
      || (a.Interrupt? && (f.InUser? || f.Idling?))
      || (a.HandlerReturns? && f.Booting?)
    ensures Enabled(s, c, a)
    ensures var s', cpu := Apply(s, c, a), s.cpus[c]; var f := cpu.stack.top;
      && c < |s'.cpus| && s'.threads == s.threads && s'.queue == s.queue
      && s'.cpus[c] == Then(cpu,
        if a.Trap? then SyscallEntry(f.t)
        else if f.InUser? then Returning(Some(f.t)) else if f.Idling? then Returning(None) else Returning(cpu.current))
      && s'.event == if f.InUser? then Some(Event.Left(f.t)) else None
  {
    hide AdvanceSyscall, AdvanceCall, AdvanceUnblock, AdvanceCreate, AdvanceReturn, AdvancePick;
  }

  function Called(a: Action): Frame
    requires a.CallTerminate? || a.CallUnblock? || a.CallContext?
  {
    match a
    case CallTerminate(t) => TerminateCalled(t)
    case CallUnblock(t) => UnblockCalled(t)
    case CallContext(t) => ContextCalled(t)
  }

  /** Server code calls into the kernel, which takes a reference from the handle. */
  lemma CallsIn(s: State, c: CpuId, a: Action)
    requires c < |s.cpus| && s.cpus[c].stack.Push? && RunsServer(s.cpus[c].stack.top)
    requires a.CallTerminate? || a.CallUnblock? || a.CallContext?
    requires Reachable(s, a.u)
    ensures Enabled(s, c, a) && c < |Apply(s, c, a).cpus|
    ensures Apply(s, c, a).cpus[c] == s.cpus[c].(stack := Push(Called(a), s.cpus[c].stack))
  {
  }

  lemma CreateGoes(s: State, c: CpuId, ok: bool)
    requires Unhindered(s, c) && InCreate(s.cpus[c].stack.top)
    ensures Enabled(s, c, Advance(ok))
    ensures var s', cpu := Apply(s, c, Advance(ok)), s.cpus[c]; var f := cpu.stack.top; var th := At(s, f.t);
      && c < |s'.cpus|
      && s'.cpus[c] == (
        if f.CreateBoxed? && ok then Then(cpu, CreateKernel(f.t))
        else if f.CreateKernel? then Then(cpu, CreateReturning(f.t))
        else cpu.(stack := cpu.stack.rest))
      && s'.event == (if f.CreateBoxed? && ok then Some(Made(f.t))
                      else if f.CreateKernel? then Some(Event.Init(f.t)) else None)
      && (f.CreateBoxed? && !ok ==> At(s', f.t) == th.(data := Released))
      && (f.CreateReturning? ==> At(s', f.t) == th.(shared := 1, published := true))
  {
    hide AdvanceSyscall, AdvanceCall, AdvanceUnblock, AdvanceReturn, AdvancePick, ReturnFromHandler;
  }

  lemma StartsCreating(s: State, c: CpuId, t: Tid)
    requires c < |s.cpus| && s.cpus[c].stack.Push? && RunsServer(s.cpus[c].stack.top) && t !in s.threads
    ensures Enabled(s, c, CallCreate(t)) && c < |Apply(s, c, CallCreate(t)).cpus|
    ensures Apply(s, c, CallCreate(t)).cpus[c] == s.cpus[c].(stack := Push(CreateBoxed(t), s.cpus[c].stack))
  {
  }

  /** Server code clones an `Arc<Thread>` that it can reach, and drops one that it holds. */
  lemma ArcGoes(s: State, c: CpuId, a: Action)
    requires c < |s.cpus| && s.cpus[c].stack.Push? && RunsServer(s.cpus[c].stack.top)
    requires (a.ShareArc? && Reachable(s, a.u)) || (a.DropArc? && At(s, a.u).shared > 0)
    ensures Enabled(s, c, a)
    ensures var s', th, th' := Apply(s, c, a), At(s, a.u), At(Apply(s, c, a), a.u);
      && s'.cpus == s.cpus && s'.queue == s.queue
      && (a.ShareArc? ==> th' == th.(arcs := th.arcs + 1, shared := th.shared + 1))
      && (a.DropArc? ==> th'.arcs == th.arcs - 1 && th'.shared == th.shared - 1)
      && (a.DropArc? ==> th'.handle == (th.handle && th.arcs != 1))
      && (a.DropArc? ==> th'.counter == if th.arcs == 1 then th.counter - 1 else th.counter)
      && s'.event == if a.DropArc? && th.arcs == 1 && th.counter == 1 then Some(Freed(a.u)) else None
  {
    hide AdvanceSyscall, AdvanceCall, AdvanceUnblock, AdvanceCreate, AdvanceReturn, AdvancePick, ReturnFromHandler;
  }

  /** A thread that is about to be returned by `Thread::create` is blocked. */
  lemma {:induction false} NewIsBlocked(states: seq<State>, moves: seq<Move>, k: nat, c: CpuId, t: Tid)
    requires IsRun(states, moves) && k < |states| && c < |states[k].cpus| && states[k].cpus[c].stack.Push?
    requires states[k].cpus[c].stack.top == CreateReturning(t)
    ensures At(states[k], t).state == Blocked && At(states[k], t).data == Live
  {
    hide IsRun, Trace, InCpus, InStack;
    var cpu := states[k].cpus[c];
    ProtocolTheorems.ReachableOk(states, moves, k, t);
    ProtocolTheorems.InCpusCounts(Handing, states[k].cpus, c, t);
    ProtocolTheorems.InStackCounts(Handing, cpu.stack, CreateReturning(t), t);
  }

  /** The handle lives as long as some `Arc<Thread>` does. */
  lemma {:induction false} ArcsKeepHandle(states: seq<State>, moves: seq<Move>, k: nat, t: Tid)
    requires IsRun(states, moves) && k < |states|
    ensures var th := At(states[k], t);
      && (th.handle <==> th.arcs > 0) && (th.shared > 0 ==> th.arcs > 0) && (th.handle ==> th.counter > 0)
      && (Reachable(states[k], t) ==> th.arcs > 0)
  {
    hide IsRun, Trace, InCpus;
    ProtocolTheorems.ReachableOk(states, moves, k, t);
  }

  /** A thread in the hands of server code can be reached. */
  lemma {:induction false} SharedIsReachable(states: seq<State>, moves: seq<Move>, k: nat, t: Tid)
    requires IsRun(states, moves) && k < |states|
    requires At(states[k], t).published && At(states[k], t).shared > 0
    ensures Reachable(states[k], t)
  {
    hide IsRun, Trace, InCpus;
    ProtocolTheorems.ReachableOk(states, moves, k, t);
  }

  /** While the Terminated upcall runs, the `Arc` that it took keeps the handle, and so the thread. */
  lemma {:induction false} HandleLives(states: seq<State>, moves: seq<Move>, k: nat, c: CpuId, t: Tid)
    requires IsRun(states, moves) && k < |states| && c < |states[k].cpus| && states[k].cpus[c].stack.Push?
    requires states[k].cpus[c].stack.top == InTerminatedUpcall(t)
    ensures At(states[k], t).handle && At(states[k], t).arcs > 0 && At(states[k], t).counter > 0
  {
    hide IsRun, Trace, InCpus, InStack;
    var cpu := states[k].cpus[c];
    ProtocolTheorems.ReachableOk(states, moves, k, t);
    ProtocolTheorems.InCpusCounts(Reaping, states[k].cpus, c, t);
    ProtocolTheorems.InStackCounts(Reaping, cpu.stack, InTerminatedUpcall(t), t);
  }

  /** A frame that holds the right to run a thread finds the thread not blocked. */
  lemma {:induction false} NotBlocked(s: State, c: CpuId, t: Tid, rest: Held, seen: Seen)
    requires c < |s.cpus| && WellStacked(s.cpus[c].stack, s.cpus[c].current) && Sane(rest)
    requires rest == Minus(Sum(s.cpus, t), OnTop(s.cpus[c], t)) && At(s, t).lock.None?
    requires Balanced(At(s, t), Queued(s, t), Sum(s.cpus, t), seen)
    requires var f := s.cpus[c].stack.top; f == SyscallCleared(t) || f == Popped(t)
    ensures At(s, t).state != Blocked
  {
    hide InCpus;
  }

  /** A blocked thread becomes runnable as it gets a right to run, or stays blocked and has none. */
  ghost predicate WokenUp(s: State, s': State, t: Tid, ok: bool) {
    && At(s, t).state == Blocked && At(s', t).state == (if ok then Runnable else Blocked)
    && ProtocolTheorems.RightsToRun(s, t) == if ok then 1 else 0
  }

  /** In every reachable state, a CPU about to start an upcall or to enter a popped thread finds it not blocked. */
  lemma {:induction false} HolderIsNotBlocked(states: seq<State>, moves: seq<Move>, k: nat, c: CpuId, t: Tid)
    requires IsRun(states, moves) && k < |states|
    requires var s := states[k];
      && c < |s.cpus| && s.cpus[c].stack.Push? && At(s, t).lock.None?
      && (s.cpus[c].stack.top == SyscallCleared(t) || s.cpus[c].stack.top == Popped(t))
    ensures At(states[k], t).state != Blocked
  {
    hide IsRun, Trace, Sum, Balanced;
    ProtocolTheorems.ReachableOk(states, moves, k, t);
    RestSane(states[k].cpus, c, t);
    NotBlocked(states[k], c, t, Minus(Sum(states[k].cpus, t), OnTop(states[k].cpus[c], t)),
               History(Trace(states[..k + 1]), t));
  }

  /** In user mode the current thread is the one that runs; a CPU that is idle or boots has none. */
  lemma CurrentOf(states: seq<State>, moves: seq<Move>, c: CpuId)
    requires IsRun(states, moves) && c < |states[|moves|].cpus| && states[|moves|].cpus[c].stack.Push?
    requires var f := states[|moves|].cpus[c].stack.top; f.InUser? || f.Idling? || f.Booting?
    ensures var f := states[|moves|].cpus[c].stack.top;
      states[|moves|].cpus[c].current == if f.InUser? then Some(f.t) else None
  {
    hide IsRun;
    StackShape(states, moves, c);
  }

  lemma CurrentAtEntry(states: seq<State>, moves: seq<Move>, c: CpuId, t: Tid)
    requires IsRun(states, moves) && c < |states[|moves|].cpus| && states[|moves|].cpus[c].stack.Push?
    requires var f := states[|moves|].cpus[c].stack.top; f == SyscallEntry(t) || f == InUser(t)
    ensures states[|moves|].cpus[c].current == Some(t)
  {
    hide IsRun;
    StackShape(states, moves, c);
  }

  class Kernel {
    var threads: map<Tid, Thread>
    var runqueue: seq<Tid>
    var cpus: seq<Cpu>  // each CPU's current thread, and its kernel stack
    ghost var states: seq<State>
    ghost var moves: seq<Move>

    function View(): State
      reads this
    {
      State(threads, runqueue, cpus, None)
    }

    /** What has happened so far is a run of the machine. */
    ghost predicate Valid()
      reads this
    {
      |states| == |moves| + 1 && IsRun(states, moves) && states[|moves|].(event := None) == View()
    }

    function Get(t: Tid): Thread
      reads this
    {
      if t in threads then threads[t] else Absent
    }

    /** CPU `c` is about to do what `f` says. */
    ghost predicate IsAt(c: CpuId, f: Frame)
      reads this
    {
      c < |cpus| && cpus[c].stack.Push? && cpus[c].stack.top == f
    }

    /** The run went on, and the queue grew by no more than was pushed. */
    twostate predicate Fed()
      reads this
    {
      && old(states) <= states && old(moves) <= moves && |cpus| == |old(cpus)|
      && old(Pushes(states)) <= Pushes(states)
      && |runqueue| + old(Pushes(states)) <= |old(runqueue)| + Pushes(states)
    }

    /** Only CPUs other than `c` moved. */
    twostate predicate OthersMoved(c: CpuId)
      reads this
    {
      Fed() && Own(moves, c) == old(Own(moves, c)) && (c < |cpus| ==> cpus[c] == old(cpus)[c])
    }

    /** CPU `c` took the actions `own`; the others took any. */
    twostate predicate Ran(c: CpuId, own: seq<Action>)
      reads this
    {
      Fed() && Own(moves, c) == old(Own(moves, c)) + own
    }

    /** Move `at`, made since, was CPU `c`'s. */
    ghost predicate IsMove(before: seq<Move>, c: CpuId, at: nat)
      reads this
    {
      |before| <= at < |moves| && |states| == |moves| + 1 && moves[at].cpu == c
    }

    constructor (n: nat)
      requires n > 0
      ensures Valid() && |cpus| == n && moves == []
    {
      threads, runqueue, moves := map[], [], [];
      cpus := seq(n, i => Cpu(None, Push(if i == 0 then Booting else Idling, Bottom)));
      new;
      states := [View()];
    }

    /** One step of CPU `c`. */
    method Take(c: CpuId, a: Action)
      requires Valid() && Enabled(View(), c, a)
      modifies this
      ensures Valid() && View() == Apply(old(View()), c, a).(event := None)
      ensures states == old(states) + [Apply(old(View()), c, a)] && moves == old(moves) + [Move(c, a)]
      ensures |cpus| == |old(cpus)| && forall d :: 0 <= d < |cpus| && d != c ==> cpus[d] == old(cpus)[d]
      ensures Fed()
    {
      hide IsRun, Apply, Enabled, Pushes;
      SameView(states[|moves|], c, a);
      StepSpares(states, moves, c, a);
      RunGrows(states, moves, c, a);
      PushesGrow(states, c, a);
      var s := Apply(View(), c, a);
      states, moves := states + [s], moves + [Move(c, a)];
      threads, runqueue, cpus := s.threads, s.queue, s.cpus;
    }

    /** The other CPUs take any number of any steps that they can. */
    method Interfere(c: CpuId)
      requires Valid()
      modifies this
      ensures Valid() && OthersMoved(c)
    {
      hide IsRun, Apply, Enabled, Own, Pushes;
      var n: int := *;
      while n > 0
        invariant Valid() && OthersMoved(c)
      {
        var d: CpuId := *;
        var a: Action := *;
        if d != c && Enabled(View(), d, a) {
          OwnAppend(moves, Move(d, a), c);
          Take(d, a);
        }
        n := n - 1;
      }
    }

    /** Spinning on a thread's lock: it ends, since whoever holds it can always move on and then releases it. */
    method AwaitLock(c: CpuId, t: Tid)
      requires Valid() && !HoldsLock(View(), c, t)
      modifies this
      ensures Valid() && OthersMoved(c) && Get(t).lock == None
    {
      hide IsRun, Apply, Enabled, Own, Pushes;
      Interfere(c);
      while Get(t).lock.Some?
        invariant Valid() && OthersMoved(c)
        decreases Rank(View(), t)
      {
        var d := Get(t).lock.value;
        var ok: bool := *;
        HolderMoves(t, d, ok);
        OwnAppend(moves, Move(d, Advance(ok)), c);
        Take(d, Advance(ok));
      }
    }

    lemma HolderMoves(t: Tid, d: CpuId, ok: bool)
      requires Valid() && Get(t).lock == Some(d)
      ensures HoldsLock(View(), d, t) && Enabled(View(), d, Advance(ok))
      ensures Rank(Apply(View(), d, Advance(ok)), t) < Rank(View(), t)
    {
      var k := |moves|;
      LockHolderAdvances(states, moves, k, t, ok);
      RunLocks(states, moves, k, d, t);
      ProtocolTheorems.RunInv(states, moves, k);
      hide IsRun, Apply, Enabled;
      Progress(states[k], Apply(states[k], d, Advance(ok)), d, Advance(ok), d, t);
    }

    /** A step of CPU `c`, and when it was. */
    method Step(c: CpuId, a: Action) returns (ghost at: nat)
      requires Valid() && Enabled(View(), c, a)
      modifies this
      ensures Valid() && Ran(c, [a]) && View() == Apply(old(View()), c, a).(event := None)
      ensures at == |old(moves)| && moves == old(moves) + [Move(c, a)]
      ensures states[at].(event := None) == old(View()) && states[at + 1] == Apply(old(View()), c, a)
    {
      hide IsRun, Apply, Enabled, Own, Pushes;
      at := |moves|;
      OwnAppend(moves, Move(c, a), c);
      Take(c, a);
    }

    /** The other CPUs move, and then CPU `c` takes its next step, which needs no lock. `s` is what it finds. */
    method Next(c: CpuId, ok: bool) returns (ghost s: State)
      requires Valid() && c < |cpus| && cpus[c].stack.Push?
      requires Advances(cpus[c].stack.top) && !NeedsLock(cpus[c].stack.top)
      modifies this
      ensures Valid() && Ran(c, [Advance(ok)])
      ensures Unhindered(s, c) && Enabled(s, c, Advance(ok)) && s.cpus[c] == old(cpus)[c] && s in states
      ensures View() == Apply(s, c, Advance(ok)).(event := None) && states[|moves|] == Apply(s, c, Advance(ok))
      ensures |s.queue| + old(Pushes(states)) <= |old(runqueue)| + Pushes(states)
    {
      hide IsRun, Apply, Own, Pushes;
      Interfere(c);
      s := states[|moves|];
      SameView(s, c, Advance(ok));
      hide Enabled;
      var _ := Step(c, Advance(ok));
    }

    // -- calls that server code makes

    /** Server code calls into the kernel. */
    method CallIn(c: CpuId, a: Action)
      requires Valid() && c < |cpus| && cpus[c].stack.Push? && RunsServer(cpus[c].stack.top)
      requires a.CallTerminate? || a.CallUnblock? || a.CallContext?
      requires Reachable(View(), a.u)
      modifies this
      ensures Valid() && Ran(c, [a])
      ensures cpus[c] == old(cpus)[c].(stack := Push(Called(a), old(cpus)[c].stack))
    {
      hide IsRun, Apply, Enabled, Own, Pushes;
      CallsIn(View(), c, a);
      var _ := Step(c, a);
    }

    /** The call is over: the reference that it took from the handle is dropped. */
    method CallReturns(c: CpuId, t: Tid)
      requires Valid() && IsAt(c, CallDone(t))
      modifies this
      ensures Valid() && Ran(c, [Advance(true)])
      ensures cpus[c] == old(cpus)[c].(stack := old(cpus)[c].stack.rest)
    {
      hide IsRun, Apply, Enabled, Own, Pushes;
      ghost var s := Next(c, true);
      CallGoes(s, c, true);
    }

    method TerminateSection(c: CpuId, t: Tid) returns (r: Result<()>, due: bool, ghost at: nat)
      requires Valid() && IsAt(c, TerminateCalled(t))
      modifies this
      ensures Valid() && Ran(c, [Advance(true)]) && IsMove(old(moves), c, at)
      ensures r == if At(states[at], t).state == Terminated then Err(InvalidState) else Ok(())
      ensures due <==> r.Ok? && At(states[at], t).inUpcalls == 0
      ensures At(states[at + 1], t) == At(states[at], t).(state := Terminated)
      ensures states[at + 1].event == if r.Ok? then Some(Requested(t)) else None
      ensures cpus[c] == Then(old(cpus)[c], if due then TerminatePending(t) else CallDone(t))
    {
      hide IsRun, Apply, Enabled, Own, Pushes;
      AwaitLock(c, t);
      r := if Get(t).state == Terminated then Err(InvalidState) else Ok(());
      due := Get(t).state != Terminated && Get(t).inUpcalls == 0;
      CallGoes(View(), c, true);
      at := Step(c, Advance(true));
    }

    /** `Thread::terminate`, up to the upcall if that is due. `at` is when its critical section ran. */
    method Terminate(c: CpuId, t: Tid) returns (r: Result<()>, due: bool, ghost at: nat)
      requires Valid() && c < |cpus| && cpus[c].stack.Push? && RunsServer(cpus[c].stack.top) && Reachable(View(), t)
      modifies this
      ensures Valid() && Ran(c, [CallTerminate(t), Advance(true), Advance(true)]) && IsMove(old(moves), c, at)
      ensures r == if At(states[at], t).state == Terminated then Err(InvalidState) else Ok(())
      ensures due <==> r.Ok? && At(states[at], t).inUpcalls == 0
      ensures At(states[at + 1], t) == At(states[at], t).(state := Terminated)
      ensures states[at + 1].event == if r.Ok? then Some(Requested(t)) else None
      ensures due ==> IsAt(c, InTerminatedUpcall(t)) && states[|moves|].event == Some(Event.Reclaimed(t))
      ensures !due ==> cpus[c].stack == old(cpus)[c].stack
    {
      hide IsRun, Apply, Enabled, Own, Pushes, At;
      CallIn(c, CallTerminate(t));
      r, due, at := TerminateSection(c, t);
      if due {
        ghost var s := Next(c, true);
        CallGoes(s, c, true);
      } else {
        CallReturns(c, t);
      }
    }

    method ContextSection(c: CpuId, t: Tid) returns (r: Result<()>, ghost at: nat)
      requires Valid() && IsAt(c, ContextCalled(t))
      modifies this
      ensures Valid() && Ran(c, [Advance(true)]) && IsMove(old(moves), c, at)
      ensures r == if At(states[at], t).state == Blocked then Ok(()) else Err(InvalidState)
      ensures states[at + 1].event == if r.Ok? then Some(Context(t)) else None
      ensures cpus[c] == Then(old(cpus)[c], CallDone(t))
    {
      hide IsRun, Apply, Enabled, Own, Pushes;
      AwaitLock(c, t);
      r := if Get(t).state == Blocked then Ok(()) else Err(InvalidState);
      CallGoes(View(), c, true);
      at := Step(c, Advance(true));
    }

    /** `read_context` and `write_context`, but for the copying: allowed exactly if the thread is blocked then. */
    method AccessContext(c: CpuId, t: Tid) returns (r: Result<()>, ghost at: nat)
      requires Valid() && c < |cpus| && cpus[c].stack.Push? && RunsServer(cpus[c].stack.top) && Reachable(View(), t)
      modifies this
      ensures Valid() && Ran(c, [CallContext(t), Advance(true), Advance(true)]) && IsMove(old(moves), c, at)
      ensures r == if At(states[at], t).state == Blocked then Ok(()) else Err(InvalidState)
      ensures states[at + 1].event == if r.Ok? then Some(Context(t)) else None
      ensures cpus[c].stack == old(cpus)[c].stack
    {
      hide IsRun, Apply, Enabled, Own, Pushes, At;
      CallIn(c, CallContext(t));
      r, at := ContextSection(c, t);
      CallReturns(c, t);
    }

    /** `unblock` takes the lock, and keeps it if it finds the thread blocked. */
    method LockBlocked(c: CpuId, t: Tid) returns (blocked: bool, ghost at: nat)
      requires Valid() && IsAt(c, UnblockCalled(t))
      modifies this
      ensures Valid() && Ran(c, [Advance(true)]) && IsMove(old(moves), c, at)
      ensures blocked <==> At(states[at], t).state == Blocked
      ensures cpus[c] == Then(old(cpus)[c], if blocked then UnblockLocked(t) else CallDone(t))
    {
      hide IsRun, Apply, Enabled, Own, Pushes;
      AwaitLock(c, t);
      blocked := Get(t).state == Blocked;
      UnblockGoes(View(), c, true);
      at := Step(c, Advance(true));
    }

    /** With the lock held: `push_back`, which succeeds if `ok`. */
    method PushLocked(c: CpuId, t: Tid, ok: bool)
      requires Valid() && IsAt(c, UnblockLocked(t))
      modifies this
      ensures Valid() && Ran(c, [Advance(true), Advance(ok)])
      ensures cpus[c] == Then(old(cpus)[c], if ok then UnblockPushed(t) else UnblockFailed(t))
    {
      hide IsRun, Apply, Enabled, Own, Pushes, At;
      ghost var s := Next(c, true);
      UnblockGoes(s, c, true);
      s := Next(c, ok);
      UnblockGoes(s, c, ok);
    }

    /** The new state, and the release of the lock, at `at`. */
    method ReleaseLock(c: CpuId, t: Tid, ok: bool) returns (ghost at: nat)
      requires Valid() && IsAt(c, if ok then UnblockPushed(t) else UnblockFailed(t))
      modifies this
      ensures Valid() && Ran(c, [Advance(true)]) && IsMove(old(moves), c, at)
      ensures WokenUp(states[at], states[at + 1], t, ok)
      ensures cpus[c] == Then(old(cpus)[c], CallDone(t))
    {
      hide IsRun, Apply, Enabled, Own, Pushes, ProtocolTheorems.RightsToRun;
      Interfere(c);
      UnblockGoes(View(), c, true);
      ProtocolTheorems.WakeUpIsKept(states, moves, |moves|, c, t, true);
      at := Step(c, Advance(true));
    }

    method PushAndRelease(c: CpuId, t: Tid, ok: bool) returns (ghost at: nat)
      requires Valid() && IsAt(c, UnblockLocked(t))
      modifies this
      ensures Valid() && Fed() && IsMove(old(moves), c, at)
      ensures WokenUp(states[at], states[at + 1], t, ok)
      ensures cpus[c] == Then(old(cpus)[c], CallDone(t))
    {
      hide IsRun, Apply, Enabled, Own, Pushes, At, WokenUp;
      PushLocked(c, t, ok);
      at := ReleaseLock(c, t, ok);
    }

    method UnblockSection(c: CpuId, t: Tid, ok: bool) returns (r: Result<()>, ghost at: nat, ghost end: nat)
      requires Valid() && IsAt(c, UnblockCalled(t))
      modifies this
      ensures Valid() && Fed() && cpus[c] == Then(old(cpus)[c], CallDone(t))
      ensures IsMove(old(moves), c, at) && at <= end < |moves|
      ensures r == if At(states[at], t).state != Blocked then Err(InvalidState)
                   else if ok then Ok(()) else Err(OutOfMemory)
      ensures At(states[at], t).state == Blocked ==> WokenUp(states[end], states[end + 1], t, ok)
    {
      hide IsRun, Apply, Enabled, Own, Pushes, At, ProtocolTheorems.RightsToRun;
      var blocked;
      blocked, at := LockBlocked(c, t);
      end := at;
      if blocked {
        end := PushAndRelease(c, t, ok);
        r := if ok then Ok(()) else Err(OutOfMemory);
      } else {
        r := Err(InvalidState);
      }
    }

    /**
     `Thread::unblock`, which succeeds if it finds the thread blocked and the queue can grow (`ok`). Then, when it
     releases the lock, there is one right to run the thread, and the thread becomes runnable; otherwise there is
     none, and it stays as it was.
     */
    method Unblock(c: CpuId, t: Tid, ok: bool) returns (r: Result<()>, ghost at: nat, ghost end: nat)
      requires Valid() && c < |cpus| && cpus[c].stack.Push? && RunsServer(cpus[c].stack.top) && Reachable(View(), t)
      modifies this
      ensures Valid() && Fed() && cpus[c].stack == old(cpus)[c].stack
      ensures IsMove(old(moves), c, at) && at <= end < |moves|
      ensures r == if At(states[at], t).state != Blocked then Err(InvalidState)
                   else if ok then Ok(()) else Err(OutOfMemory)
      ensures At(states[at], t).state == Blocked ==> WokenUp(states[end], states[end + 1], t, ok)
    {
      hide IsRun, Apply, Enabled, Own, Pushes, At, WokenUp;
      CallIn(c, CallUnblock(t));
      r, at, end := UnblockSection(c, t, ok);
      CallReturns(c, t);
    }

    // -- Thread::create

    method StartCreate(c: CpuId, t: Tid, ok: bool) returns (ghost at: nat)
      requires Valid() && c < |cpus| && cpus[c].stack.Push? && RunsServer(cpus[c].stack.top) && t !in threads
      modifies this
      ensures Valid() && Ran(c, [CallCreate(t), Advance(ok)]) && IsMove(old(moves), c, at)
      ensures states[at + 1].event == if ok then Some(Made(t)) else None
      ensures !ok ==> At(states[at + 1], t) == At(states[at], t).(data := Released)
      ensures cpus[c] == if ok then old(cpus)[c].(stack := Push(CreateKernel(t), old(cpus)[c].stack)) else old(cpus)[c]
    {
      hide IsRun, Apply, Enabled, Own, Pushes;
      StartsCreating(View(), c, t);
      var _ := Step(c, CallCreate(t));
      Interfere(c);
      CreateGoes(View(), c, ok);
      at := Step(c, Advance(ok));
    }

    method InitUpcall(c: CpuId, t: Tid) returns (ghost at: nat)
      requires Valid() && IsAt(c, CreateKernel(t))
      modifies this
      ensures Valid() && Ran(c, [Advance(true)]) && IsMove(old(moves), c, at)
      ensures states[at + 1].event == Some(Event.Init(t)) && cpus[c] == Then(old(cpus)[c], CreateReturning(t))
    {
      hide IsRun, Apply, Enabled, Own, Pushes;
      Interfere(c);
      CreateGoes(View(), c, true);
      at := Step(c, Advance(true));
    }

    method Publish(c: CpuId, t: Tid) returns (ghost at: nat)
      requires Valid() && IsAt(c, CreateReturning(t))
      modifies this
      ensures Valid() && Ran(c, [Advance(true)]) && IsMove(old(moves), c, at)
      ensures Reachable(states[at + 1], t) && At(states[at + 1], t).state == Blocked
      ensures cpus[c] == old(cpus)[c].(stack := old(cpus)[c].stack.rest)
    {
      hide IsRun, Apply, Enabled, Own, Pushes;
      Interfere(c);
      NewIsBlocked(states, moves, |moves|, c, t);
      CreateGoes(View(), c, true);
      at := Step(c, Advance(true));
      SharedIsReachable(states, moves, at + 1, t);
    }

    /** From the kernel object on. */
    method FinishCreate(c: CpuId, t: Tid) returns (ghost init: nat, ghost end: nat)
      requires Valid() && IsAt(c, CreateKernel(t))
      modifies this
      ensures Valid() && Fed() && IsMove(old(moves), c, init) && IsMove(old(moves), c, end) && init < end
      ensures states[init + 1].event == Some(Event.Init(t))
      ensures Reachable(states[end + 1], t) && At(states[end + 1], t).state == Blocked
      ensures cpus[c] == old(cpus)[c].(stack := old(cpus)[c].stack.rest)
    {
      hide IsRun, Apply, Enabled, Own, Pushes, At, Reachable;
      init := InitUpcall(c, t);
      end := Publish(c, t);
    }

    /**
     The server library's `Thread::create`: the kernel object is allocated, if that succeeds (`ok`), before the
     upcall's user data is written, and both before other server code can reach the thread, which is blocked then.
     */
    method CreateThread(c: CpuId, t: Tid, ok: bool) returns (ghost made: nat, ghost init: nat, ghost end: nat)
      requires Valid() && c < |cpus| && cpus[c].stack.Push? && RunsServer(cpus[c].stack.top) && t !in threads
      modifies this
      ensures Valid() && Fed() && cpus[c] == old(cpus)[c] && IsMove(old(moves), c, made)
      ensures states[made + 1].event == if ok then Some(Made(t)) else None
      ensures !ok ==> At(states[made + 1], t) == At(states[made], t).(data := Released)
      ensures ok ==> IsMove(old(moves), c, init) && IsMove(old(moves), c, end) && made < init < end
      ensures ok ==> states[init + 1].event == Some(Event.Init(t))
      ensures ok ==> Reachable(states[end + 1], t) && At(states[end + 1], t).state == Blocked
    {
      hide IsRun, Apply, Enabled, Own, Pushes, At, Reachable, RunsServer;
      init, end := 0, 0;
      made := StartCreate(c, t, ok);
      if ok { init, end := FinishCreate(c, t); }
    }

    /** `Arc::clone` and `drop` in server code: the last drop destroys the handle, and with it one reference. */
    method UseArc(c: CpuId, a: Action) returns (ghost at: nat)
      requires Valid() && c < |cpus| && cpus[c].stack.Push? && RunsServer(cpus[c].stack.top)
      requires (a.ShareArc? && Reachable(View(), a.u)) || (a.DropArc? && At(View(), a.u).shared > 0)
      modifies this
      ensures Valid() && Ran(c, [a]) && IsMove(old(moves), c, at) && cpus == old(cpus) && runqueue == old(runqueue)
      ensures var th, th', n := At(states[at], a.u), At(states[at + 1], a.u), if a.ShareArc? then 1 else -1;
        && th'.arcs == th.arcs + n && th'.shared == th.shared + n && th.handle && (th'.handle <==> th'.arcs > 0)
        && th'.counter == (if th'.arcs > 0 then th.counter else th.counter - 1)
        && states[at + 1].event == if th'.counter == 0 then Some(Freed(a.u)) else None
    {
      hide IsRun, Apply, Enabled, Own, Pushes;
      ArcsKeepHandle(states, moves, |moves|, a.u);
      ArcGoes(View(), c, a);
      at := Step(c, a);
    }

    // -- ways into the kernel

    /** The next move was action `a` of CPU `c`, in `s`: it changed no thread and not the queue, and reported `e`. */
    ghost predicate Arrived(before: seq<Move>, c: CpuId, a: Action, s: State, e: Option<Event>)
      reads this
    {
      var n := |before|;
      && n < |moves| && |states| == |moves| + 1 && moves[n] == Move(c, a) && states[n].(event := None) == s
      && states[n + 1].threads == s.threads && states[n + 1].queue == s.queue && states[n + 1].event == e
    }

    /** A trap or an interrupt, or the server has been started. */
    method Arrive(c: CpuId, a: Action)
      requires Valid() && c < |cpus| && cpus[c].stack.Push?
      requires var f := cpus[c].stack.top;
        (a.Trap? && f.InUser?) || (a.Interrupt? && (f.InUser? || f.Idling?)) || (a.HandlerReturns? && f.Booting?)
      modifies this
      ensures Valid() && Ran(c, [a]) && moves == old(moves) + [Move(c, a)] && runqueue == old(runqueue)
      ensures var f := old(cpus)[c].stack.top;
        && Arrived(old(moves), c, a, old(View()), if f.InUser? then Some(Event.Left(f.t)) else None)
        && cpus[c] == (if a.Trap? then Then(old(cpus)[c], SyscallEntry(f.t))
                       else Then(old(cpus)[c], Returning(old(cpus)[c].current)))
    {
      hide IsRun, Apply, Enabled, Own, Pushes, At;
      CurrentOf(states, moves, c);
      EntryGoes(View(), c, a);
      var _ := Step(c, a);
    }

    // -- system calls

    /** The critical section that starts a Syscall upcall. Its assertion holds, whatever the other CPUs do. */
    method EnterUpcall(c: CpuId, t: Tid) returns (called: bool, ghost at: nat)
      requires Valid() && IsAt(c, SyscallCleared(t))
      modifies this
      ensures Valid() && Ran(c, [Advance(true)]) && IsMove(old(moves), c, at)
      ensures At(states[at], t).state == if called then Runnable else Terminated
      ensures called ==> At(states[at + 1], t) ==
                         At(states[at], t).(state := Blocked, inUpcalls := At(states[at], t).inUpcalls + 1)
      ensures called ==> states[at + 1].event == Some(Begin(t))
      ensures cpus[c] == Then(old(cpus)[c], if called then InSyscallUpcall(t) else SyscallDone(t))
    {
      hide IsRun, Apply, Enabled, Own, Pushes;
      AwaitLock(c, t);
      HolderIsNotBlocked(states, moves, |moves|, c, t);
      SyscallGoes(View(), c, true);
      called := Get(t).state != Terminated;
      assert called ==> Get(t).state == Runnable;
      at := Step(c, Advance(true));
    }

    /** `thread().unwrap()` and `clear()`: there is a current thread, and then there is none. */
    method TakeCurrent(c: CpuId, t: Tid)
      requires Valid() && IsAt(c, SyscallEntry(t))
      modifies this
      ensures Valid() && Ran(c, [Advance(true), Advance(true)]) && old(cpus)[c].current == Some(t)
      ensures cpus[c] == Then(old(cpus)[c], SyscallCleared(t)).(current := None)
    {
      hide IsRun, Apply, Enabled, Own, Pushes, At;
      CurrentAtEntry(states, moves, c, t);
      ghost var s := Next(c, true);
      SyscallGoes(s, c, true);
      s := Next(c, true);
      SyscallGoes(s, c, true);
    }

    /** `drop(current)` at the end of handle_syscall. */
    method DropSyscall(c: CpuId, t: Tid)
      requires Valid() && IsAt(c, SyscallDone(t))
      modifies this
      ensures Valid() && Ran(c, [Advance(true)]) && cpus[c] == Then(old(cpus)[c], Returning(old(cpus)[c].current))
    {
      hide IsRun, Apply, Enabled, Own, Pushes, At;
      ghost var s := Next(c, true);
      SyscallGoes(s, c, true);
    }

    /** The trap of the current thread, up to the critical section. */
    method TrapIn(c: CpuId, t: Tid)
      requires Valid() && IsAt(c, InUser(t))
      modifies this
      ensures Valid() && Fed() && Arrived(old(moves), c, Trap, old(View()), Some(Event.Left(t)))
      ensures old(cpus)[c].current == Some(t)
      ensures cpus[c] == Then(old(cpus)[c], SyscallCleared(t)).(current := None)
    {
      hide IsRun, Apply, Enabled, Own, Pushes, At;
      CurrentAtEntry(states, moves, c, t);
      Arrive(c, Trap);
      TakeCurrent(c, t);
    }

    /**
     `syscall_handler` and `syscall::handle_syscall`, from the trap of thread `t` on: up to its Syscall upcall if it
     is runnable at the critical section, or on to return_to_user if it has been terminated; nothing else can be.
     */
    method HandleSyscall(c: CpuId, t: Tid) returns (called: bool, ghost at: nat)
      requires Valid() && IsAt(c, InUser(t))
      modifies this
      ensures Valid() && Fed() && Arrived(old(moves), c, Trap, old(View()), Some(Event.Left(t)))
      ensures IsMove(old(moves), c, at)
      ensures At(states[at], t).state == if called then Runnable else Terminated
      ensures called ==> At(states[at + 1], t) ==
                         At(states[at], t).(state := Blocked, inUpcalls := At(states[at], t).inUpcalls + 1)
      ensures called ==> states[at + 1].event == Some(Begin(t))
      ensures old(cpus)[c].current == Some(t)
      ensures cpus[c] == Then(old(cpus)[c], if called then InSyscallUpcall(t) else Returning(None)).(current := None)
    {
      hide IsRun, Apply, Enabled, Own, Pushes, At;
      TrapIn(c, t);
      called, at := EnterUpcall(c, t);
      if !called { DropSyscall(c, t); }
    }

    method LeaveUpcall(c: CpuId, t: Tid) returns (due: bool, ghost at: nat)
      requires Valid() && IsAt(c, InSyscallUpcall(t))
      modifies this
      ensures Valid() && Ran(c, [HandlerReturns]) && IsMove(old(moves), c, at)
      ensures At(states[at + 1], t) == At(states[at], t).(inUpcalls := At(states[at], t).inUpcalls - 1)
      ensures states[at + 1].event == Some(End(t))
      ensures due <==> At(states[at + 1], t).inUpcalls == 0 && At(states[at + 1], t).state == Terminated
      ensures cpus[c] == Then(old(cpus)[c], if due then SyscallTerminating(t) else SyscallDone(t))
    {
      hide IsRun, Apply, Enabled, Own, Pushes;
      AwaitLock(c, t);
      due := Get(t).inUpcalls == 1 && Get(t).state == Terminated;
      UpcallEnds(View(), c, t);
      at := Step(c, HandlerReturns);
    }

    /** What follows the Syscall upcall: the Terminated upcall exactly if it is due then, or on to return_to_user. */
    method FinishSyscall(c: CpuId, t: Tid) returns (due: bool, ghost at: nat)
      requires Valid() && IsAt(c, InSyscallUpcall(t))
      modifies this
      ensures Valid() && Ran(c, [HandlerReturns, Advance(true)]) && IsMove(old(moves), c, at)
      ensures At(states[at + 1], t) == At(states[at], t).(inUpcalls := At(states[at], t).inUpcalls - 1)
      ensures states[at + 1].event == Some(End(t))
      ensures due <==> At(states[at + 1], t).inUpcalls == 0 && At(states[at + 1], t).state == Terminated
      ensures IsAt(c, if due then InTerminatedUpcall(t) else Returning(old(cpus)[c].current))
      ensures due ==> states[|moves|].event == Some(Event.Reclaimed(t))
    {
      hide IsRun, Apply, Enabled, Own, Pushes, At;
      due, at := LeaveUpcall(c, t);
      if due {
        ghost var s := Next(c, true);
        SyscallGoes(s, c, true);
      } else {
        DropSyscall(c, t);
      }
    }

    /** The Terminated upcall drops the `Arc` that it took out of the user data, and with the last one the handle. */
    method FinishTerminated(c: CpuId, t: Tid) returns (ghost at: nat)
      requires Valid() && IsAt(c, InTerminatedUpcall(t))
      modifies this
      ensures Valid() && Ran(c, [HandlerReturns]) && IsMove(old(moves), c, at)
      ensures var th, th' := At(states[at], t), At(states[at + 1], t);
        && th'.arcs == th.arcs - 1 && (th'.handle <==> th'.arcs > 0)
        && th'.counter == (if th'.arcs > 0 then th.counter else th.counter - 1)
        && states[at + 1].event == if th'.counter == 0 then Some(Freed(t)) else None
      ensures cpus[c] == old(cpus)[c].(stack := old(cpus)[c].stack.rest)
    {
      hide IsRun, Apply, Enabled, Own, Pushes;
      Interfere(c);
      TerminatedEnds(View(), c, t);
      HandleLives(states, moves, |moves|, c, t);
      at := Step(c, HandlerReturns);
    }

    // -- the scheduler

    /** `is_runnable`, which takes the thread's lock. What it throws away was terminated, whatever the other CPUs do. */
    method PoppedIsRunnable(c: CpuId, t: Tid) returns (runnable: bool, ghost at: nat)
      requires Valid() && IsAt(c, Popped(t))
      modifies this
      ensures Valid() && Ran(c, [Advance(true)]) && IsMove(old(moves), c, at)
      ensures At(states[at], t).state == if runnable then Runnable else Terminated
      ensures states[at + 1].event == if runnable then None else Some(Discarded(t))
      ensures cpus[c] == Then(old(cpus)[c], if runnable then Entering(t) else Releasing(t))
    {
      hide IsRun, Apply, Enabled, Own, Pushes;
      AwaitLock(c, t);
      HolderIsNotBlocked(states, moves, |moves|, c, t);
      runnable := Get(t).state == Runnable;
      PickGoes(View(), c, true);
      at := Step(c, Advance(true));
    }

    /** `SCHEDULER.pop()`: nothing exactly if the queue is empty at that time. */
    method PopFront(c: CpuId) returns (r: Option<Tid>, ghost at: nat)
      requires Valid() && IsAt(c, Picking)
      modifies this
      ensures Valid() && Ran(c, [Advance(true)]) && IsMove(old(moves), c, at)
      ensures r.None? ==> states[at].queue == [] && cpus[c] == Then(old(cpus)[c], Clearing)
      ensures r.Some? ==> states[at].queue == [r.value] + states[at + 1].queue
      ensures r.Some? ==> cpus[c] == Then(old(cpus)[c], Popped(r.value))
      ensures r.Some? ==> |runqueue| + 1 + old(Pushes(states)) <= |old(runqueue)| + Pushes(states)
    {
      hide IsRun, Apply, Enabled, Own, Pushes, At;
      Interfere(c);
      r := if runqueue == [] then None else Some(runqueue[0]);
      PickGoes(View(), c, true);
      at := Step(c, Advance(true));
    }

    /** `CurrentThread::enter`, or `clear` and the idle loop: on to user mode, or idle with no current thread. */
    method Leave(c: CpuId)
      requires Valid() && c < |cpus| && cpus[c].stack.Push?
      requires cpus[c].stack.top.Entering? || cpus[c].stack.top.Clearing?
      modifies this
      ensures Valid() && Fed()
      ensures var f := old(cpus)[c].stack.top;
        cpus[c] == if f.Entering? then Then(old(cpus)[c], InUser(f.t)).(current := Some(f.t))
                   else Then(old(cpus)[c], Idling).(current := None)
      ensures old(cpus)[c].stack.top.Entering? ==> states[|moves|].event == Some(Entered(old(cpus)[c].stack.top.t))
    {
      hide IsRun, Apply, Enabled, Own, Pushes, At;
      var entering := cpus[c].stack.top.Entering?;
      ghost var s := Next(c, true);
      PickGoes(s, c, true);
      if entering {
        s := Next(c, true);
        PickGoes(s, c, true);
      }
    }

    /** Dropping a reference that is not needed. */
    method Release(c: CpuId, t: Tid)
      requires Valid() && IsAt(c, Releasing(t))
      modifies this
      ensures Valid() && Fed() && cpus[c] == Then(old(cpus)[c], Picking)
    {
      hide IsRun, Apply, Enabled, Own, Pushes, At;
      ghost var s := Next(c, true);
      ReturnGoes(s, c, true);
    }

    /** One turn of the pop loop: whether it was the last, and why. */
    method PickOnce(c: CpuId) returns (done: bool, ghost at: nat)
      requires Valid() && IsAt(c, Picking)
      modifies this
      ensures Valid() && Fed() && c < |cpus| && cpus[c].stack.Push? && IsMove(old(moves), c, at)
      ensures !done ==> IsAt(c, Picking) && |runqueue| + 1 + old(Pushes(states)) <= |old(runqueue)| + Pushes(states)
      ensures done ==> || (cpus[c].stack.top.Clearing? && states[at].queue == [])
                       || (cpus[c].stack.top.Entering? && At(states[at], cpus[c].stack.top.t).state == Runnable)
    {
      hide IsRun, Apply, Enabled, Own, Pushes, At;
      var popped;
      popped, at := PopFront(c);
      if popped.None? { return true, at; }
      done, at := PoppedIsRunnable(c, popped.value);
      if !done { Release(c, popped.value); }
    }

    /**
     The pop loop of return_to_user, for at most `turns` turns, and what follows it. It ends in user mode, in a thread
     that it found runnable, or idle, having found the queue empty; it goes on for `turns` turns only if the queue was
     that long or pushes were that many meanwhile. Every entry that it throws away is of a terminated thread.
     */
    method PickNext(c: CpuId, turns: nat) returns (done: bool, ghost at: nat)
      requires Valid() && IsAt(c, Picking)
      modifies this
      ensures Valid() && Fed() && DiscardsTerminated(old(moves), c)
      ensures done ==> IsMove(old(moves), c, at) && Left(c, states[at])
      ensures !done ==> turns <= |old(runqueue)| + (Pushes(states) - old(Pushes(states)))
    {
      hide IsRun, Apply, Enabled, Own, Pushes, At, Kernel.DiscardsTerminated;
      done, at := false, 0;
      for i := 0 to turns
        invariant Valid() && Fed() && IsAt(c, Picking)
        invariant |runqueue| + i + old(Pushes(states)) <= |old(runqueue)| + Pushes(states)
      {
        done, at := PickOnce(c);
        if done {
          Leave(c);
          OnlyTerminated(old(moves), c);
          return;
        }
      }
      OnlyTerminated(old(moves), c);
    }

    /** At `asked` CPU `c` found out whether `t` is still runnable; if so, it put it first in the queue at `put`. */
    ghost predicate Requeued(before: seq<Move>, c: CpuId, t: Tid, ok: bool, asked: nat, put: nat)
      reads this
    {
      && IsMove(before, c, asked)
      && (At(states[asked], t).state == Runnable && ok ==>
            IsMove(before, c, put) && states[put + 1].queue == [t] + states[put].queue)
    }

    method IsStillRunnable(c: CpuId, t: Tid) returns (runnable: bool, ghost at: nat)
      requires Valid() && IsAt(c, ReturnCloned(t))
      modifies this
      ensures Valid() && Fed() && IsMove(old(moves), c, at) && (runnable <==> At(states[at], t).state == Runnable)
      ensures cpus[c] == Then(old(cpus)[c], if runnable then Requeueing(t) else Releasing(t))
    {
      hide IsRun, Apply, Enabled, Own, Pushes;
      AwaitLock(c, t);
      runnable := Get(t).state == Runnable;
      ReturnGoes(View(), c, true);
      at := Step(c, Advance(true));
    }

    /** `push_front`, which panics if the queue cannot grow. */
    method PushFront(c: CpuId, t: Tid, ok: bool) returns (ghost at: nat)
      requires Valid() && IsAt(c, Requeueing(t))
      modifies this
      ensures Valid() && Fed() && IsMove(old(moves), c, at)
      ensures ok ==> states[at + 1].queue == [t] + states[at].queue
      ensures cpus[c] == Then(old(cpus)[c], if ok then Picking else Panicked(old(cpus)[c].current))
    {
      hide IsRun, Apply, Enabled, Own, Pushes, At;
      Interfere(c);
      ReturnGoes(View(), c, ok);
      at := Step(c, Advance(ok));
    }

    method RequeueIfRunnable(c: CpuId, t: Tid, ok: bool) returns (panicked: bool, ghost asked: nat, ghost put: nat)
      requires Valid() && IsAt(c, ReturnCloned(t))
      modifies this
      ensures Valid() && Fed() && Requeued(old(moves), c, t, ok, asked, put)
      ensures panicked <==> !ok && At(states[asked], t).state == Runnable
      ensures cpus[c] == Then(old(cpus)[c], if panicked then Panicked(old(cpus)[c].current) else Picking)
    {
      hide IsRun, Apply, Enabled, Own, Pushes, At;
      panicked, put := false, 0;
      var runnable;
      runnable, asked := IsStillRunnable(c, t);
      if runnable {
        put := PushFront(c, t, ok);
        panicked := !ok;
      } else {
        Release(c, t);
      }
    }

    /** The start of return_to_user: a current thread that is still runnable goes to the front of the queue. */
    method Requeue(c: CpuId, ok: bool) returns (panicked: bool, ghost asked: nat, ghost put: nat)
      requires Valid() && c < |cpus| && IsAt(c, Returning(cpus[c].current))
      modifies this
      ensures Valid() && Fed()
      ensures var current := old(cpus)[c].current;
        if current.Some? then
          && Requeued(old(moves), c, current.value, ok, asked, put)
          && (panicked <==> !ok && At(states[asked], current.value).state == Runnable)
        else !panicked
      ensures cpus[c] == Then(old(cpus)[c], if panicked then Panicked(old(cpus)[c].current) else Picking)
    {
      hide IsRun, Apply, Enabled, Own, Pushes, At;
      ghost var s := Next(c, true);
      ReturnGoes(s, c, true);
      panicked, asked, put := false, 0, 0;
      if cpus[c].current.None? { return; }
      panicked, asked, put := RequeueIfRunnable(c, cpus[c].current.value, ok);
    }

    /** What return_to_user did since `before`, with `current` as the current thread; no wake-up was lost on the way. */
    ghost predicate Returned(
      before: seq<Move>, c: CpuId, current: Option<Tid>, ok: bool, done: bool, at: nat, asked: nat, put: nat)
      reads this
    {
      && DiscardsTerminated(before, c)
      && (current.Some? ==> Requeued(before, c, current.value, ok, asked, put))
      && if !ok && current.Some? && At(states[asked], current.value).state == Runnable then
           done && IsAt(c, Panicked(current))
         else done ==> IsMove(before, c, at) && Left(c, states[at])
    }

    /**
     `return_to_user`, with at most `turns` turns of its loop: ends in user mode or idle, or panics because the queue
     could not grow (`!ok`). A current thread that is still runnable becomes the first in the queue.
     */
    method ReturnToUser(c: CpuId, ok: bool, turns: nat)
      returns (done: bool, ghost at: nat, ghost asked: nat, ghost put: nat)
      requires Valid() && c < |cpus| && IsAt(c, Returning(cpus[c].current))
      modifies this
      ensures Valid() && Fed() && Returned(old(moves), c, old(cpus)[c].current, ok, done, at, asked, put)
      ensures !done ==> turns <= |old(runqueue)| + (Pushes(states) - old(Pushes(states)))
    {
      hide IsRun, Apply, Enabled, Own, Pushes, At, Kernel.DiscardsTerminated, Kernel.Left;
      at := 0;
      done, asked, put := Requeue(c, ok);
      if !done { done, at := PickNext(c, turns); }
      OnlyTerminated(old(moves), c);
    }

    // -- what ends in return_to_user

    /**
     An interrupt in user mode or while idle: no thread changes, and return_to_user goes on from there; the thread that
     was interrupted goes to the front of the queue if it is still runnable.
     */
    method HandleInterrupt(c: CpuId, ok: bool, turns: nat)
      returns (done: bool, ghost at: nat, ghost asked: nat, ghost put: nat)
      requires Valid() && c < |cpus| && cpus[c].stack.Push?
      requires cpus[c].stack.top.InUser? || cpus[c].stack.top.Idling?
      modifies this
      ensures var f := old(cpus)[c].stack.top;
        && Arrived(old(moves), c, Interrupt, old(View()), if f.InUser? then Some(Event.Left(f.t)) else None)
        && old(cpus)[c].current == if f.InUser? then Some(f.t) else None
      ensures Valid() && Fed() && Returned(old(moves), c, old(cpus)[c].current, ok, done, at, asked, put)
      ensures !done ==> turns <= |old(runqueue)| + (Pushes(states) - old(Pushes(states)))
    {
      hide IsRun, Apply, Enabled, Own, Pushes, At, Kernel.Left, Kernel.DiscardsTerminated;
      CurrentOf(states, moves, c);
      Arrive(c, Interrupt);
      done, at, asked, put := ReturnToUser(c, ok, turns);
      OnlyTerminated(old(moves), c);
    }

    /** The end of `boot`, once the server has been started. */
    method FinishBoot(c: CpuId, ok: bool, turns: nat)
      returns (done: bool, ghost at: nat, ghost asked: nat, ghost put: nat)
      requires Valid() && IsAt(c, Booting)
      modifies this
      ensures Arrived(old(moves), c, HandlerReturns, old(View()), None)
      ensures Valid() && Fed() && Returned(old(moves), c, None, ok, done, at, asked, put)
      ensures !done ==> turns <= |old(runqueue)| + (Pushes(states) - old(Pushes(states)))
    {
      hide IsRun, Apply, Enabled, Own, Pushes, At, Kernel.Left, Kernel.DiscardsTerminated;
      CurrentOf(states, moves, c);
      Arrive(c, HandlerReturns);
      done, at, asked, put := ReturnToUser(c, ok, turns);
      OnlyTerminated(old(moves), c);
    }

    /** In user mode, in the current thread, which was runnable in `s`; or idle without one, the queue empty in `s`. */
    ghost predicate Left(c: CpuId, s: State)
      reads this
    {
      && c < |cpus| && cpus[c].stack.Push?
      && match cpus[c].stack.top
         case InUser(t) => cpus[c].current == Some(t) && At(s, t).state == Runnable
         case Idling => cpus[c].current == None && s.queue == []
         case _ => false
    }

    /** Every entry of the queue that CPU `c` threw away since was of a thread that was terminated by then. */
    ghost predicate DiscardsTerminated(before: seq<Move>, c: CpuId)
      reads this
    {
      forall k :: |before| <= k < |moves| && |states| == |moves| + 1 && moves[k].cpu == c ==>
        NoWakeUpLost(states[k], states[k + 1], c)
    }

    lemma OnlyTerminated(before: seq<Move>, c: CpuId)
      requires Valid()
      ensures DiscardsTerminated(before, c)
    {
      hide IsRun, NoWakeUpLost;
      forall k | |before| <= k < |moves| && moves[k].cpu == c ensures NoWakeUpLost(states[k], states[k + 1], c) {
        DiscardIsTerminated(states, moves, k);
      }
    }
  }

  /** If CPU `c` went from a popped thread to dropping it, the thread was terminated. */
  predicate NoWakeUpLost(s: State, s': State, c: CpuId) {
    c < |s.cpus| && s.cpus[c].stack.Push? && s.cpus[c].stack.top.Popped?
    && c < |s'.cpus| && s'.cpus[c].stack.Push? && s'.cpus[c].stack.top.Releasing? ==>
      At(s, s.cpus[c].stack.top.t).state == Terminated
  }

  /** In every step of every run. */
  lemma {:induction false} DiscardIsTerminated(states: seq<State>, moves: seq<Move>, k: nat)
    requires IsRun(states, moves) && k < |moves|
    ensures NoWakeUpLost(states[k], states[k + 1], moves[k].cpu)
  {
    var s, c, a := states[k], moves[k].cpu, moves[k].action;
    var f := s.cpus[c].stack.top;
    if f.Popped? {
      assert a.Advance? && At(s, f.t).lock.None?;
      hide IsRun, Apply, Enabled;
      HolderIsNotBlocked(states, moves, k, c, f.t);
      PickGoes(s, c, a.ok);
    }
  }
}
