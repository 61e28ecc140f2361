/** What becomes of a system call over whole runs: every trap is answered, and every upcall answers a trap. */
module SystemCalls {
  import opened Prelude
  import opened Monitor
  import opened Protocol
  import opened ProtocolInvariant
  import opened ProtocolProof
  import opened ProtocolLocks
  import ProtocolTheorems
  import opened KernelCode

  /** CPU `c` is in the frame `f`. */
  predicate Top(s: State, c: CpuId, f: Frame) {
    c < |s.cpus| && s.cpus[c].stack.Push? && s.cpus[c].stack.top == f
  }

  /** CPU `c` is on its way from a trap in `t` to the critical section of handle_syscall. */
  predicate OnItsWay(s: State, c: CpuId, t: Tid) {
    Top(s, c, SyscallEntry(t)) || Top(s, c, SyscallCloned(t)) || Top(s, c, SyscallCleared(t))
  }

  /** A step of CPU `c` is that critical section: it starts the upcall, or finds that `t` has been terminated. */
  predicate Answers(s: State, s': State, c: CpuId, t: Tid) {
    && Top(s, c, SyscallCleared(t))
    && if At(s, t).state == Runnable then s'.event == Some(Begin(t)) && Top(s', c, InSyscallUpcall(t))
       else At(s, t).state == Terminated && Top(s', c, SyscallDone(t))
  }

  predicate IsEntry(e: Option<Event>) {
    e.Some? && e.value.Entered?
  }

  // -- one step

  /** CPU `c` moves as the run's CPUs and stacks allow. */
  lemma {:induction false} MoveOf(states: seq<State>, moves: seq<Move>, k: nat)
    requires IsRun(states, moves) && k < |moves|
    ensures Enabled(states[k], moves[k].cpu, moves[k].action)
    ensures states[k + 1] == Apply(states[k], moves[k].cpu, moves[k].action)
    ensures CpusOk(states[k].cpus) && |states[k + 1].cpus| == |states[k].cpus|
    ensures forall d :: 0 <= d < |states[k].cpus| && d != moves[k].cpu ==> states[k + 1].cpus[d] == states[k].cpus[d]
  {
    hide Trace, Perform, WellStacked, Turned;
    ProtocolTheorems.RunInv(states, moves, k);
    ProtocolTheorems.StepIsLocal(states[k].(event := None), states[k + 1], moves[k].cpu, moves[k].action);
  }

  /** A CPU on its way stays on its way, or answers; it does not go back to user mode. */
  lemma {:induction false} WayStep(states: seq<State>, moves: seq<Move>, k: nat, c: CpuId, t: Tid)
    requires IsRun(states, moves) && k < |moves| && OnItsWay(states[k], c, t)
    ensures OnItsWay(states[k + 1], c, t) || (moves[k].cpu == c && Answers(states[k], states[k + 1], c, t))
    ensures moves[k].cpu == c ==> !IsEntry(states[k + 1].event)
  {
    MoveOf(states, moves, k);
    if moves[k].cpu == c {
      var s, a := states[k], moves[k].action;
      assert WellStacked(s.cpus[c].stack, s.cpus[c].current);
      assert a.Advance? && LockFree(s, s.cpus[c].stack.top);
      hide IsRun, Apply, Enabled;
      if Top(s, c, SyscallCleared(t)) { HolderIsNotBlocked(states, moves, k, c, t); }
      SyscallGoes(s, c, a.ok);
    }
  }

  predicate IsWay(f: Frame) {
    f.SyscallEntry? || f.SyscallCloned? || f.SyscallCleared?
  }

  /** Below the top of a stack there is no such frame, and at such a frame's start the current thread is its own. */
  predicate Ordinary(cpu: Cpu) {
    && cpu.stack.Push?
    && (cpu.stack.rest.Push? ==> !IsWay(cpu.stack.rest.top))
    && (cpu.stack.top.SyscallEntry? ==> cpu.current == Some(cpu.stack.top.t))
  }

  /** The kernel's own steps set no CPU on its way. */
  lemma {:induction false} CallsElsewhere(s: State, c: CpuId, ok: bool, t: Tid)
    requires Unhindered(s, c) && Ordinary(s.cpus[c]) && !OnItsWay(s, c, t)
    requires var f := s.cpus[c].stack.top; InSyscall(f) || InCall(f) || InUnblock(f)
    ensures !OnItsWay(Apply(s, c, Advance(ok)), c, t)
  {
    hide Apply, Enabled, At, LockFree;
    var f := s.cpus[c].stack.top;
    if InSyscall(f) { SyscallGoes(s, c, ok); }
    else if InCall(f) { CallGoes(s, c, ok); }
    else { UnblockGoes(s, c, ok); }
  }

  lemma {:induction false} ReturnsElsewhere(s: State, c: CpuId, ok: bool, t: Tid)
    requires Unhindered(s, c) && Ordinary(s.cpus[c]) && !OnItsWay(s, c, t)
    requires var f := s.cpus[c].stack.top; InCreate(f) || InReturn(f) || InPick(f)
    ensures !OnItsWay(Apply(s, c, Advance(ok)), c, t)
  {
    hide Apply, Enabled, At, LockFree;
    var f := s.cpus[c].stack.top;
    if InCreate(f) { CreateGoes(s, c, ok); }
    else if InReturn(f) { ReturnGoes(s, c, ok); }
    else { PickGoes(s, c, ok); }
  }

  /** Nor does anything else but a trap. */
  lemma {:induction false} ActsElsewhere(s: State, c: CpuId, a: Action, t: Tid)
    requires Enabled(s, c, a) && Ordinary(s.cpus[c]) && !OnItsWay(s, c, t)
    requires !a.Advance? && !(a.Trap? && Top(s, c, InUser(t)))
    ensures !OnItsWay(Apply(s, c, a), c, t)
  {
    hide At, LockFree;
  }

  lemma {:induction false} OtherwiseNot(s: State, c: CpuId, a: Action, t: Tid)
    requires Enabled(s, c, a) && WellStacked(s.cpus[c].stack, s.cpus[c].current)
    requires !OnItsWay(s, c, t) && !(a.Trap? && Top(s, c, InUser(t)))
    ensures !OnItsWay(Apply(s, c, a), c, t)
  {
    hide Apply, OnItsWay;
    var f := s.cpus[c].stack.top;
    if !a.Advance? { ActsElsewhere(s, c, a, t); }
    else if InSyscall(f) || InCall(f) || InUnblock(f) { CallsElsewhere(s, c, a.ok, t); }
    else { ReturnsElsewhere(s, c, a.ok, t); }
  }

  /** Only a trap sets a CPU on its way. */
  lemma {:induction false} WayStarts(states: seq<State>, moves: seq<Move>, k: nat, c: CpuId, t: Tid)
    requires IsRun(states, moves) && k < |moves| && OnItsWay(states[k + 1], c, t)
    ensures OnItsWay(states[k], c, t) || (moves[k] == Move(c, Trap) && Top(states[k], c, InUser(t)))
  {
    MoveOf(states, moves, k);
    hide IsRun, Apply, Enabled, WellStacked;
    if moves[k].cpu == c && !OnItsWay(states[k], c, t) && !(moves[k].action.Trap? && Top(states[k], c, InUser(t))) {
      OtherwiseNot(states[k], c, moves[k].action, t);
    }
  }

  /** A Syscall upcall begins in no other step. */
  lemma {:induction false} BeginsCleared(states: seq<State>, moves: seq<Move>, k: nat, t: Tid)
    requires IsRun(states, moves) && k < |moves| && states[k + 1].event == Some(Begin(t))
    ensures Top(states[k], moves[k].cpu, SyscallCleared(t))
  {
  }

  // -- whole runs

  /** A CPU that was on its way at `i` and is not at `j` has answered in between. */
  lemma {:induction false} WayEnds(states: seq<State>, moves: seq<Move>, i: nat, j: nat, c: CpuId, t: Tid)
    returns (k: nat)
    requires IsRun(states, moves) && i <= j < |states| && OnItsWay(states[i], c, t) && !OnItsWay(states[j], c, t)
    ensures i <= k < j && moves[k].cpu == c && Answers(states[k], states[k + 1], c, t)
    decreases j - i
  {
    hide *;
    RunLength(states, moves);
    WayStep(states, moves, i, c, t);
    if OnItsWay(states[i + 1], c, t) {
      k := WayEnds(states, moves, i + 1, j, c, t);
    } else {
      k := i;
    }
  }

  /**
   In every run, between a system call of thread `t` on a CPU and the next time that this CPU enters user mode, it
   started the Syscall upcall of `t`, or found in its critical section that `t` had been terminated.
   */
  lemma TrapIsAnswered(states: seq<State>, moves: seq<Move>, i: nat, j: nat, c: CpuId, t: Tid)
    requires IsRun(states, moves) && i < j < |moves|
    requires moves[i] == Move(c, Trap) && Top(states[i], c, InUser(t))
    requires moves[j].cpu == c && IsEntry(states[j + 1].event)
    ensures exists k :: i < k < j && moves[k].cpu == c && Answers(states[k], states[k + 1], c, t)
  {
    MoveOf(states, moves, i);
    EntryGoes(states[i], c, Trap);
    if OnItsWay(states[j], c, t) { WayStep(states, moves, j, c, t); }
    hide IsRun, Answers;
    var k := WayEnds(states, moves, i + 1, j, c, t);
  }

  predicate StaysOnItsWay(states: seq<State>, i: nat, k: nat, c: CpuId, t: Tid) {
    k < |states| && forall m :: i <= m <= k ==> OnItsWay(states[m], c, t)
  }

  lemma NotAtFirst(states: seq<State>, moves: seq<Move>, c: CpuId, t: Tid)
    requires IsRun(states, moves)
    ensures |states| == |moves| + 1 && !OnItsWay(states[0], c, t)
  {
  }

  /** A CPU that is on its way set out with a trap. */
  lemma {:induction false} WayBack(states: seq<State>, moves: seq<Move>, k: nat, c: CpuId, t: Tid) returns (i: nat)
    requires IsRun(states, moves) && k < |states| && OnItsWay(states[k], c, t)
    ensures i < k && moves[i] == Move(c, Trap) && Top(states[i], c, InUser(t))
    ensures StaysOnItsWay(states, i + 1, k, c, t)
  {
    hide IsRun, OnItsWay, Top;
    NotAtFirst(states, moves, c, t);
    WayStarts(states, moves, k - 1, c, t);
    i := k - 1;
    if OnItsWay(states[k - 1], c, t) { i := WayBack(states, moves, k - 1, c, t); }
  }

  /** In every run, a Syscall upcall of `t` begins only on a CPU that `t` made a system call on and never left since. */
  lemma {:induction false} UpcallAnswersTrap(states: seq<State>, moves: seq<Move>, k: nat, t: Tid)
    requires IsRun(states, moves) && k < |moves| && states[k + 1].event == Some(Begin(t))
    ensures exists i ::
      && 0 <= i < k && moves[i] == Move(moves[k].cpu, Trap) && Top(states[i], moves[k].cpu, InUser(t))
      && StaysOnItsWay(states, i + 1, k, moves[k].cpu, t)
  {
    RunLength(states, moves);
    hide IsRun;
    BeginsCleared(states, moves, k, t);
    var i := WayBack(states, moves, k, moves[k].cpu, t);
  }
}
