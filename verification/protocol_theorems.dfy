/** What holds in every run of the protocol, over any number of CPUs and any interleaving. */
module ProtocolTheorems {
  import opened Prelude
  import opened Monitor
  import opened Protocol
  import opened ProtocolInvariant
  import opened ProtocolProof

  function Extend(log: seq<Event>, s: State): seq<Event> {
    if s.event.Some? then log + [s.event.value] else log
  }

  /** What the books of one thread say before and after a step. */
  lemma {:induction false} Books(s: State, s': State, c: CpuId, turn: Turn, t: Tid, rest: Held)
    requires CpusOk(s.cpus) && Local(s, s', c, turn)
    requires rest == Minus(Sum(s.cpus, t), OnTop(s.cpus[c], t))
    ensures Sane(rest)
    ensures Total(rest, s.cpus[c].stack.top, s.cpus[c].current, t) == Sum(s.cpus, t)
    ensures var cpu := s'.cpus[c];
            match turn
            case Returns => Pointed(rest, cpu.current, t) == Sum(s'.cpus, t)
            case Continues => Total(rest, cpu.stack.top, cpu.current, t) == Sum(s'.cpus, t)
            case Calls => Total(Plus(rest, Of(cpu.stack.rest.top, t)), cpu.stack.top, cpu.current, t) == Sum(s'.cpus, t)
  {
    hide Sum, Share, Below, WellStacked, Of;
    var cpu, cpu' := s.cpus[c], s'.cpus[c];
    RestSane(s.cpus, c, t);
    SumUpdate(s.cpus, c, cpu', t);
    ShareTop(cpu, t);
    match turn
    case Returns =>
      SharePointed(cpu', t);
    case Continues =>
      ShareTop(cpu', t);
    case Calls =>
      ShareTop(cpu', t);
      BelowPush(cpu'.stack.rest.top, cpu'.stack.rest.rest, t);
  }

  lemma SharePointed(cpu: Cpu, t: Tid)
    ensures Share(cpu, t) == Pointed(Below(cpu.stack, t), cpu.current, t)
  {
    hide InStack;
  }

  /** Every step keeps the invariant, and reports only what the monitor allows. */
  lemma {:induction false} Step(s: State, log: seq<Event>, c: CpuId, a: Action)
    requires Inv(s, log) && Enabled(s, c, a)
    ensures Inv(Apply(s, c, a), Extend(log, Apply(s, c, a)))
  {
    hide WellStacked, Balanced, Perform, Allowed, Sum;
    var s0, s' := s.(event := None), Apply(s, c, a);
    forall t: Tid
      ensures ThreadOk(s', Extend(log, s'), t) && Reported(History(log, t), s'.event, t)
    {
      StepOne(s, s0, s', log, c, a, t);
    }
    if s'.event.Some? { Append(log, s'.event.value); }
    StepIsLocal(s0, s', c, a);
    assert CpusOk(s'.cpus);
  }

  lemma {:induction false} StepOne(s: State, s0: State, s': State, log: seq<Event>, c: CpuId, a: Action, t: Tid)
    requires Inv(s, log) && Enabled(s, c, a) && s0 == s.(event := None) && s' == Apply(s, c, a)
    ensures Local(s0, s', c, TurnOf(s.cpus[c].stack.top, a))
    ensures ThreadOk(s', Extend(log, s'), t) && Reported(History(log, t), s'.event, t)
  {
    hide WellStacked, Balanced, Perform, Allowed, Sum, Total, Pointed, Plus, Of;
    var turn := TurnOf(s.cpus[c].stack.top, a);
    assert ThreadOk(s, log, t);
    RestSane(s.cpus, c, t);
    var rest := Minus(Sum(s.cpus, t), OnTop(s.cpus[c], t));
    StepIsLocal(s0, s', c, a);
    Books(s0, s', c, turn, t, rest);
    ThreadStep(s0, s', c, a, t, rest, History(log, t));
    if s'.event.Some? { Append(log, s'.event.value); }
  }

  lemma {:induction false} StepIsLocal(s: State, s': State, c: CpuId, a: Action)
    requires CpusOk(s.cpus) && Enabled(s, c, a) && s' == Perform(s, c, a)
    ensures Local(s, s', c, TurnOf(s.cpus[c].stack.top, a))
  {
    hide Local, WellStacked, AdvanceSyscall, AdvanceCall, AdvanceUnblock, AdvanceCreate, AdvanceReturn, AdvancePick,
      ReturnFromHandler;
    var f := s.cpus[c].stack.top;
    if a.Advance? {
      if InSyscall(f) { SyscallLocal(s, s', c, a.ok); }
      else if InCall(f) { CallLocal(s, s', c, a.ok); }
      else if InUnblock(f) { UnblockLocal(s, s', c, a.ok); }
      else if InCreate(f) { CreateLocal(s, s', c, a.ok); }
      else if InReturn(f) { ReturnLocal(s, s', c, a.ok); }
      else { PickLocal(s, s', c, a.ok); }
    } else {
      HandlerLocal(s, s', c, a);
    }
  }

  /** Every state of every run satisfies the invariant, with all that the run has reported so far. */
  lemma {:induction false} RunInv(states: seq<State>, moves: seq<Move>, k: nat)
    requires IsRun(states, moves) && k < |states|
    ensures Inv(states[k], Trace(states[..k + 1]))
  {
    hide Inv, Enabled, Apply;
    assert states[..k + 1][..k] == states[..k];
    if k == 0 {
      assert Trace(states[..0]) == [];
      assert Trace(states[..1]) == [];
      InitialOk(states[0]);
    } else {
      RunInv(states, moves, k - 1);
      Step(states[k - 1], Trace(states[..k]), moves[k - 1].cpu, moves[k - 1].action);
      assert states[k] == Apply(states[k - 1], moves[k - 1].cpu, moves[k - 1].action);
      assert Trace(states[..k + 1]) == Extend(Trace(states[..k]), states[k]);
    }
  }

  /** The monitor accepts every run. */
  lemma {:induction false} RunsAreLawful(states: seq<State>, moves: seq<Move>)
    requires IsRun(states, moves)
    ensures Lawful(Trace(states))
  {
    assert states[..|moves| + 1] == states;
    hide IsRun, Trace, Lawful;
    RunInv(states, moves, |moves|);
  }

  // -- what a run never does

  /** At each event, what had been seen before it allowed it. */
  lemma {:induction false} LawfulAt(log: seq<Event>, i: nat)
    requires Lawful(log) && i < |log|
    ensures Allowed(History(log[..i], log[i].t), log[i])
  {
    if i < |log| - 1 {
      LawfulAt(log[..|log| - 1], i);
      assert log[..|log| - 1][..i] == log[..i];
    }
  }

  /** What has happened cannot unhappen. */
  lemma {:induction false} Remembered(log: seq<Event>, i: nat, t: Tid)
    requires i < |log| && log[i].t == t
    ensures log[i].Reclaimed? ==> History(log, t).reclaimed
    ensures log[i].Requested? ==> History(log, t).requested
    ensures log[i].Freed? ==> History(log, t).freed
  {
    if i < |log| - 1 {
      assert log[..|log| - 1][i] == log[i];
      Remembered(log[..|log| - 1], i, t);
    }
  }

  /** Only an event can be the reason for what has been seen. */
  lemma {:induction false} Recalled(log: seq<Event>, t: Tid)
    ensures History(log, t).init ==> Event.Init(t) in log
    ensures History(log, t).requested ==> Requested(t) in log
    ensures History(log, t).reclaimed ==> Event.Reclaimed(t) in log
  {
    if log != [] {
      assert log == log[..|log| - 1] + [log[|log| - 1]];
      Recalled(log[..|log| - 1], t);
    }
  }

  function Count(log: seq<Event>, e: Event): nat {
    if log == [] then 0 else Count(log[..|log| - 1], e) + if log[|log| - 1] == e then 1 else 0
  }

  lemma ObservedUpcalls(seen: Seen, e: Event)
    ensures Observe(seen, e).upcalls == seen.upcalls + (if e.Begin? then 1 else 0) - (if e.End? then 1 else 0)
  {
  }

  lemma ObservedRunners(seen: Seen, e: Event)
    ensures Observe(seen, e).running == seen.running + (if e.Entered? then 1 else 0) - (if e.Left? then 1 else 0)
  {
  }

  /** The upcalls seen in flight are the ones that began and did not end. */
  lemma {:induction false} UpcallsCounted(log: seq<Event>, t: Tid)
    ensures History(log, t).upcalls == Count(log, Begin(t)) - Count(log, End(t))
  {
    hide Observe;
    if log != [] {
      UpcallsCounted(log[..|log| - 1], t);
      ObservedUpcalls(History(log[..|log| - 1], t), log[|log| - 1]);
    }
  }

  /** The CPUs seen running a thread are the ones that entered it and did not leave. */
  lemma {:induction false} RunnersCounted(log: seq<Event>, t: Tid)
    ensures History(log, t).running == Count(log, Entered(t)) - Count(log, Left(t))
  {
    hide Observe;
    if log != [] {
      RunnersCounted(log[..|log| - 1], t);
      ObservedRunners(History(log[..|log| - 1], t), log[|log| - 1]);
    }
  }

  /**
   In every run, the Terminated upcall of a thread is issued only after it was asked for, when every
   Syscall upcall that began has ended; after it no Syscall upcall begins or ends, and it is never issued a
   second time.
   */
  lemma TerminatedUpcallIsLast(states: seq<State>, moves: seq<Move>, i: nat, j: nat, t: Tid)
    requires IsRun(states, moves)
    requires i < |Trace(states)| && Trace(states)[i] == Event.Reclaimed(t)
    ensures Requested(t) in Trace(states)[..i]
    ensures Count(Trace(states)[..i], Begin(t)) == Count(Trace(states)[..i], End(t))
    ensures i < j < |Trace(states)| ==>
              Trace(states)[j] != Event.Reclaimed(t) && Trace(states)[j] != Begin(t) && Trace(states)[j] != End(t)
    ensures j < i ==> Trace(states)[j] != Event.Reclaimed(t)
  {
    hide IsRun, Trace, History;
    RunsAreLawful(states, moves);
    var log := Trace(states);
    LawfulAt(log, i);
    Recalled(log[..i], t);
    UpcallsCounted(log[..i], t);
    if i < j < |log| {
      LawfulAt(log, j);
      Remembered(log[..j], i, log[i].t);
    } else if j < i {
      if log[j] == Event.Reclaimed(t) { Remembered(log[..i], j, t); }
    }
  }

  /** In every run, no upcall borrows the user data before it was written or after it was reclaimed. */
  lemma UserDataIsLive(states: seq<State>, moves: seq<Move>, i: nat, t: Tid)
    requires IsRun(states, moves) && i < |Trace(states)|
    requires Trace(states)[i] == Begin(t) || Trace(states)[i] == End(t) || Trace(states)[i] == Event.Reclaimed(t)
    ensures Event.Init(t) in Trace(states)[..i] && Event.Reclaimed(t) !in Trace(states)[..i]
  {
    hide IsRun, Trace, History;
    RunsAreLawful(states, moves);
    var log := Trace(states);
    LawfulAt(log, i);
    Recalled(log[..i], t);
    if Event.Reclaimed(t) in log[..i] {
      var j :| 0 <= j < i && log[..i][j] == Event.Reclaimed(t);
      Remembered(log[..i], j, t);
    }
  }

  /** In every run, a thread is freed at most once, and nothing happens to it afterwards. */
  lemma FreedIsLast(states: seq<State>, moves: seq<Move>, i: nat, j: nat, t: Tid)
    requires IsRun(states, moves) && i < j < |Trace(states)|
    requires Trace(states)[i] == Freed(t)
    ensures Trace(states)[j].t != t
  {
    hide IsRun, Trace, History;
    RunsAreLawful(states, moves);
    var log := Trace(states);
    LawfulAt(log, j);
    if log[j].t == t { Remembered(log[..j], i, t); }
  }

  /**
   In every run, a thread is entered, and its registers are read or written, only while no CPU runs it;
   the assertion in handle_syscall never fails; and the scheduler discards an entry only of a thread whose
   termination was asked for, so that no wake-up is lost.
   */
  lemma SchedulerIsSafe(states: seq<State>, moves: seq<Move>, i: nat, t: Tid)
    requires IsRun(states, moves) && i < |Trace(states)|
    ensures Trace(states)[i] == Entered(t) || Trace(states)[i] == Context(t) ==>
              Count(Trace(states)[..i], Entered(t)) == Count(Trace(states)[..i], Left(t))
    ensures !Trace(states)[i].AssertFailed?
    ensures Trace(states)[i] == Discarded(t) ==> Requested(t) in Trace(states)[..i]
  {
    hide IsRun, Trace, History;
    RunsAreLawful(states, moves);
    LawfulAt(Trace(states), i);
    Recalled(Trace(states)[..i], t);
    RunnersCounted(Trace(states)[..i], t);
  }

  // -- what every reachable state satisfies

  /** How many there are of: run-queue entries of `t`, CPUs running it, and CPUs in the kernel about to. */
  function RightsToRun(s: State, t: Tid): int {
    Queued(s, t) + InCpus(Tokens, s.cpus, t) + InCpus(Running, s.cpus, t)
  }

  lemma {:induction false} ReachableOk(states: seq<State>, moves: seq<Move>, k: nat, t: Tid)
    requires IsRun(states, moves) && k < |states|
    ensures CpusOk(states[k].cpus) && ThreadOk(states[k], Trace(states[..k + 1]), t) && Sane(Sum(states[k].cpus, t))
  {
    hide IsRun, Trace, ThreadOk, Sum, WellStacked;
    RunInv(states, moves, k);
    SumSane(states[k].cpus, t);
  }

  /**
   The right to run a thread exists exactly once while it is runnable, at most once once it is terminated,
   and not at all while it is blocked; only while unblock holds the thread's lock can a blocked thread be queued.
   */
  lemma RightToRun(states: seq<State>, moves: seq<Move>, k: nat, t: Tid)
    requires IsRun(states, moves) && k < |states|
    ensures var s := states[k]; var th := At(s, t);
            && (th.state == Runnable ==> RightsToRun(s, t) == 1)
            && (th.state == Terminated ==> 0 <= RightsToRun(s, t) <= 1)
            && (th.state == Blocked && th.lock.None? ==> RightsToRun(s, t) == 0)
            && (th.lock.Some? ==> th.state == Blocked && RightsToRun(s, t) == InCpus(Woken, s.cpus, t) <= 1)
  {
    hide IsRun, Trace, InCpus;
    ReachableOk(states, moves, k, t);
  }

  /**
   No wake-up is lost: when unblock has enqueued a thread it is the one right to run it, and unblock makes the thread
   runnable next; when it could not, there is none, and the thread stays blocked.
   */
  lemma {:induction false} WakeUpIsKept(states: seq<State>, moves: seq<Move>, k: nat, c: CpuId, t: Tid, ok: bool)
    requires IsRun(states, moves) && k < |states| && c < |states[k].cpus| && states[k].cpus[c].stack.Push?
    requires var f := states[k].cpus[c].stack.top; f == UnblockPushed(t) || f == UnblockFailed(t)
    ensures var s, f := states[k], states[k].cpus[c].stack.top;
            && At(s, t).state == Blocked && At(s, t).lock.Some?
            && RightsToRun(s, t) == (if f.UnblockPushed? then 1 else 0)
            && Enabled(s, c, Advance(ok))
            && At(Apply(s, c, Advance(ok)), t).state == if f.UnblockPushed? then Runnable else Blocked
  {
    hide IsRun, Trace, Sum, Balanced;
    ReachableOk(states, moves, k, t);
    RestSane(states[k].cpus, c, t);
    WakeUp(states[k], c, t, Minus(Sum(states[k].cpus, t), OnTop(states[k].cpus[c], t)),
      History(Trace(states[..k + 1]), t));
  }

  lemma {:induction false} WakeUp(s: State, c: CpuId, t: Tid, rest: Held, seen: Seen)
    requires c < |s.cpus| && WellStacked(s.cpus[c].stack, s.cpus[c].current) && Sane(rest)
    requires rest == Minus(Sum(s.cpus, t), OnTop(s.cpus[c], t))
    requires Balanced(At(s, t), Queued(s, t), Sum(s.cpus, t), seen)
    requires var f := s.cpus[c].stack.top; f == UnblockPushed(t) || f == UnblockFailed(t)
    ensures At(s, t).state == Blocked && At(s, t).lock.Some?
    ensures RightsToRun(s, t) == (if s.cpus[c].stack.top.UnblockPushed? then 1 else 0)
  {
    hide InCpus;
  }

  /** Once a terminated thread has no upcall in flight, its Terminated upcall was issued or is about to be, once. */
  lemma TerminatedUpcallIsDue(states: seq<State>, moves: seq<Move>, k: nat, t: Tid)
    requires IsRun(states, moves) && k < |states|
    ensures var s := states[k]; var th := At(s, t);
            && th.inUpcalls == InCpus(Upcalls, s.cpus, t)
            && (th.state == Terminated && th.inUpcalls == 0 <==>
                (th.data == UserData.Reclaimed && InCpus(Pending, s.cpus, t) == 0) ||
                (th.data == Live && InCpus(Pending, s.cpus, t) == 1))
            && (!(th.state == Terminated && th.inUpcalls == 0) ==> InCpus(Pending, s.cpus, t) == 0)
  {
    hide IsRun, Trace, InCpus;
    ReachableOk(states, moves, k, t);
  }

  /**
   The reference count of a thread is the number of its references: run-queue entries, references held by
   CPUs, and the handle. The handle lives exactly as long as some `Arc<Thread>` does.
   */
  lemma ReferencesAreConserved(states: seq<State>, moves: seq<Move>, k: nat, t: Tid)
    requires IsRun(states, moves) && k < |states|
    ensures var s := states[k]; var th := At(s, t);
            && th.counter == Queued(s, t) + InCpus(Refs, s.cpus, t) + (if th.handle then 1 else 0)
            && (th.handle <==> th.arcs > 0)
            && (th.data == Live ==> th.counter > 0)
            && (th.made && th.counter == 0 <==> History(Trace(states[..k + 1]), t).freed)
  {
    hide IsRun, Trace, InCpus, History;
    ReachableOk(states, moves, k, t);
  }

  /** On a CPU in user mode no temporary reference is left over: it holds its current thread and nothing else. */
  lemma UserModeHoldsNothingElse(states: seq<State>, moves: seq<Move>, k: nat, c: CpuId, t: Tid, u: Tid)
    requires IsRun(states, moves) && k < |states| && c < |states[k].cpus|
    requires states[k].cpus[c].stack.Push? && states[k].cpus[c].stack.top == InUser(t)
    ensures states[k].cpus[c] == Cpu(Some(t), Push(InUser(t), Bottom))
    ensures InCpu(Refs, states[k].cpus[c], u) == if u == t then 1 else 0
  {
    hide IsRun, Trace;
    RunInv(states, moves, k);
    assert WellStacked(states[k].cpus[c].stack, states[k].cpus[c].current);
    assert InStack(Refs, Bottom, u) == 0;
  }

  // -- nothing is used after it was freed

  predicate OnStack(s: Stack, f: Frame) {
    s.Push? && (s.top == f || OnStack(s.rest, f))
  }

  /** A frame that uses its thread: all but the first step of its creation, and a CPU that has stopped. */
  predicate UsesThread(f: Frame, t: Tid) {
    Subject(f) == Some(t) && !f.CreateBoxed? && !f.Panicked?
  }

  /** The state can reach `t`: from the run queue, a CPU's current thread, or any frame of any kernel stack. */
  ghost predicate Refers(s: State, t: Tid) {
    || t in s.queue
    || (exists c :: 0 <= c < |s.cpus| && s.cpus[c].current == Some(t))
    || (exists c, f :: 0 <= c < |s.cpus| && OnStack(s.cpus[c].stack, f) && UsesThread(f, t))
  }

  lemma {:induction false} InStackCounts(k: Kind, s: Stack, f: Frame, t: Tid)
    ensures InStack(k, s, t) >= 0 && (OnStack(s, f) ==> InStack(k, s, t) >= InFrame(k, f, t))
  {
    if s.Push? { InStackCounts(k, s.rest, f, t); }
  }

  lemma {:induction false} InCpusCounts(k: Kind, cpus: seq<Cpu>, c: CpuId, t: Tid)
    ensures InCpus(k, cpus, t) >= 0 && (c < |cpus| ==> InCpus(k, cpus, t) >= InCpu(k, cpus[c], t) >= 0)
  {
    hide InStack;
    if cpus != [] {
      InStackCounts(k, cpus[0].stack, Booting, t);
      if c < |cpus| { InStackCounts(k, cpus[c].stack, Booting, t); }
      InCpusCounts(k, cpus[1..], if c > 0 then c - 1 else 0, t);
    }
  }

  lemma {:induction false} NotACall(s: Stack, current: Option<Tid>, f: Frame)
    requires WellStacked(s, current) && OnStack(s, f) && !IsCall(f)
    ensures Base(f, current)
  {
    if s.rest.Push? { NotACall(s.rest, current, f); }
  }

  /** A frame keeps its thread alive by a reference of its own, by an `Arc`, or through the current thread. */
  lemma {:induction false} FrameKeeps(cpu: Cpu, f: Frame, t: Tid)
    requires WellStacked(cpu.stack, cpu.current) && OnStack(cpu.stack, f) && UsesThread(f, t)
    ensures InFrame(Refs, f, t) >= 1 || InFrame(Reaping, f, t) >= 1 || InFrame(Making, f, t) >= 1
            || InFrame(Handing, f, t) >= 1 || cpu.current == Some(t)
  {
    hide WellStacked, OnStack;
    if !IsCall(f) { NotACall(cpu.stack, cpu.current, f); }
  }

  /** A CPU's current thread and frames are part of what all CPUs hold. */
  lemma {:induction false} CpuKeeps(cpus: seq<Cpu>, c: CpuId, f: Frame, t: Tid)
    requires CpusOk(cpus) && c < |cpus|
    requires cpus[c].current == Some(t) || (OnStack(cpus[c].stack, f) && UsesThread(f, t))
    ensures InCpus(Refs, cpus, t) >= 1 || InCpus(Reaping, cpus, t) >= 1 || InCpus(Making, cpus, t) >= 1
            || InCpus(Handing, cpus, t) >= 1
  {
    hide InCpus, InStack, WellStacked, UsesThread, InFrame;
    var cpu := cpus[c];
    assert WellStacked(cpu.stack, cpu.current);
    InCpusCounts(Refs, cpus, c, t);
    InCpusCounts(Reaping, cpus, c, t);
    InCpusCounts(Making, cpus, c, t);
    InCpusCounts(Handing, cpus, c, t);
    InStackCounts(Refs, cpu.stack, f, t);
    InStackCounts(Reaping, cpu.stack, f, t);
    InStackCounts(Making, cpu.stack, f, t);
    InStackCounts(Handing, cpu.stack, f, t);
    if cpu.current != Some(t) { FrameKeeps(cpu, f, t); }
  }

  /** In every reachable state, every thread that can be reached exists and has not been freed. */
  lemma {:induction false} NoUseAfterFree(states: seq<State>, moves: seq<Move>, k: nat, t: Tid)
    requires IsRun(states, moves) && k < |states| && Refers(states[k], t)
    ensures At(states[k], t).made && At(states[k], t).counter > 0
  {
    hide IsRun, Trace, InCpus, WellStacked, OnStack, UsesThread;
    ReachableOk(states, moves, k, t);
    var s := states[k];
    if t !in s.queue {
      if c :| 0 <= c < |s.cpus| && s.cpus[c].current == Some(t) {
        CpuKeeps(s.cpus, c, Booting, t);
      } else {
        var c, f :| 0 <= c < |s.cpus| && OnStack(s.cpus[c].stack, f) && UsesThread(f, t);
        CpuKeeps(s.cpus, c, f, t);
      }
    }
  }
}
