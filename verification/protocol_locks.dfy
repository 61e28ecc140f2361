/** Who holds a thread's lock across steps, how soon it is released, and why nobody waits forever. */
module ProtocolLocks {
  import opened Prelude
  import opened Monitor
  import opened Protocol
  import opened ProtocolInvariant
  import opened ProtocolProof
  import opened ProtocolTheorems

  // -- the lock belongs to the CPU that is inside unblock's window

  predicate InWindow(f: Frame, t: Tid) {
    f == UnblockLocked(t) || f == UnblockCloned(t) || f == UnblockFailed(t) || f == UnblockPushed(t)
  }

  predicate HoldsLock(s: State, d: CpuId, t: Tid) {
    d < |s.cpus| && s.cpus[d].stack.Push? && InWindow(s.cpus[d].stack.top, t)
  }

  /** The lock names the CPU that is in the window, and no other CPU is. */
  predicate LockOk(s: State, d: CpuId, t: Tid) {
    At(s, t).lock == Some(d) <==> HoldsLock(s, d, t)
  }

  /** The lock of `t` after CPU `c`, with `f` on top of its stack, took action `a`. */
  function LockAfter(s: State, c: CpuId, f: Frame, a: Action, t: Tid): Option<CpuId> {
    if a.Advance? && f == UnblockCalled(t) && At(s, t).state == Blocked then Some(c)
    else if a.Advance? && (f == UnblockFailed(t) || f == UnblockPushed(t)) then None
    else At(s, t).lock
  }

  /** Whether that leaves CPU `c` in the window. */
  predicate Stays(s: State, f: Frame, a: Action, t: Tid) {
    && a.Advance?
    && ((f == UnblockCalled(t) && At(s, t).state == Blocked) || f == UnblockLocked(t) || f == UnblockCloned(t))
  }

  /** What a step does to a lock and its holder. */
  predicate LockMoved(s: State, s': State, c: CpuId, a: Action, t: Tid)
    requires c < |s.cpus| && s.cpus[c].stack.Push?
  {
    var f := s.cpus[c].stack.top;
    && At(s', t).lock == LockAfter(s, c, f, a, t)
    && (HoldsLock(s', c, t) <==> Stays(s, f, a, t))
  }

  lemma {:induction false} UnblockMoves(s: State, s': State, c: CpuId, ok: bool, t: Tid)
    requires c < |s.cpus| && s.cpus[c].stack.Push? && InUnblock(s.cpus[c].stack.top)
    requires s' == AdvanceUnblock(s, c, s.cpus[c].stack.top, ok)
    ensures LockMoved(s, s', c, Advance(ok), t)
  {
  }

  lemma {:induction false} SyscallMoves(s: State, s': State, c: CpuId, ok: bool, t: Tid)
    requires c < |s.cpus| && s.cpus[c].stack.Push? && InSyscall(s.cpus[c].stack.top)
    requires s' == AdvanceSyscall(s, c, s.cpus[c].stack.top)
    ensures LockMoved(s, s', c, Advance(ok), t)
  {
  }

  lemma {:induction false} CallMoves(s: State, s': State, c: CpuId, ok: bool, t: Tid)
    requires c < |s.cpus| && WellStacked(s.cpus[c].stack, s.cpus[c].current) && InCall(s.cpus[c].stack.top)
    requires s' == AdvanceCall(s, c, s.cpus[c].stack.top)
    ensures LockMoved(s, s', c, Advance(ok), t)
  {
  }

  lemma {:induction false} CreateMoves(s: State, s': State, c: CpuId, ok: bool, t: Tid)
    requires c < |s.cpus| && WellStacked(s.cpus[c].stack, s.cpus[c].current) && InCreate(s.cpus[c].stack.top)
    requires s' == AdvanceCreate(s, c, s.cpus[c].stack.top, ok)
    ensures LockMoved(s, s', c, Advance(ok), t)
  {
  }

  lemma {:induction false} ReturnMoves(s: State, s': State, c: CpuId, ok: bool, t: Tid)
    requires c < |s.cpus| && s.cpus[c].stack.Push? && InReturn(s.cpus[c].stack.top)
    requires s' == AdvanceReturn(s, c, s.cpus[c].stack.top, ok)
    ensures LockMoved(s, s', c, Advance(ok), t)
  {
  }

  lemma {:induction false} PickMoves(s: State, s': State, c: CpuId, ok: bool, t: Tid)
    requires c < |s.cpus| && s.cpus[c].stack.Push? && InPick(s.cpus[c].stack.top)
    requires s' == AdvancePick(s, c, s.cpus[c].stack.top)
    ensures LockMoved(s, s', c, Advance(ok), t)
  {
  }

  lemma {:induction false} HandlerMoves(s: State, s': State, c: CpuId, t: Tid)
    requires c < |s.cpus| && WellStacked(s.cpus[c].stack, s.cpus[c].current) && RunsServer(s.cpus[c].stack.top)
    requires s' == ReturnFromHandler(s, c, s.cpus[c].stack.top)
    ensures LockMoved(s, s', c, HandlerReturns, t)
  {
  }

  lemma {:induction false} OtherMoves(s: State, s': State, c: CpuId, a: Action, t: Tid)
    requires Enabled(s, c, a) && !a.Advance? && !a.HandlerReturns?
    requires s' == Perform(s, c, a)
    ensures LockMoved(s, s', c, a, t)
  {
  }

  lemma {:induction false} StepMoves(s: State, s': State, c: CpuId, a: Action, t: Tid)
    requires CpusOk(s.cpus) && Enabled(s, c, a) && s' == Perform(s, c, a)
    ensures LockMoved(s, s', c, a, t)
  {
    hide LockMoved, WellStacked, AdvanceSyscall, AdvanceCall, AdvanceUnblock, AdvanceCreate, AdvanceReturn;
    hide AdvancePick, ReturnFromHandler;
    var f := s.cpus[c].stack.top;
    assert WellStacked(s.cpus[c].stack, s.cpus[c].current);
    if a.HandlerReturns? { HandlerMoves(s, s', c, t); }
    else if !a.Advance? { OtherMoves(s, s', c, a, t); }
    else if InSyscall(f) { SyscallMoves(s, s', c, a.ok, t); }
    else if InCall(f) { CallMoves(s, s', c, a.ok, t); }
    else if InUnblock(f) { UnblockMoves(s, s', c, a.ok, t); }
    else if InCreate(f) { CreateMoves(s, s', c, a.ok, t); }
    else if InReturn(f) { ReturnMoves(s, s', c, a.ok, t); }
    else { PickMoves(s, s', c, a.ok, t); }
  }

  /** Every step keeps every lock in the hands of the CPU it names. */
  lemma {:induction false} LockStep(s: State, s': State, c: CpuId, a: Action, d: CpuId, t: Tid)
    requires CpusOk(s.cpus) && Enabled(s, c, a) && s' == Apply(s, c, a)
    requires LockOk(s, d, t) && LockOk(s, c, t)
    ensures LockOk(s', d, t)
    ensures |s'.cpus| == |s.cpus| && (d != c && d < |s.cpus| ==> s'.cpus[d] == s.cpus[d])
  {
    hide Perform, WellStacked, Turned;
    var s0 := s.(event := None);
    StepMoves(s0, s', c, a, t);
    StepIsLocal(s0, s', c, a);
  }

  lemma {:induction false} RunLocks(states: seq<State>, moves: seq<Move>, k: nat, d: CpuId, t: Tid)
    requires IsRun(states, moves) && k < |states|
    ensures LockOk(states[k], d, t)
  {
    hide Apply, Enabled, Trace, LockOk, CpusOk;
    if k == 0 {
      NoLocksYet(states[0], d, t);
    } else {
      var m := moves[k - 1];
      RunLocks(states, moves, k - 1, d, t);
      RunLocks(states, moves, k - 1, m.cpu, t);
      RunInv(states, moves, k - 1);
      LockStep(states[k - 1], states[k], m.cpu, m.action, d, t);
    }
  }

  lemma NoLocksYet(s: State, d: CpuId, t: Tid)
    requires Initial(s)
    ensures LockOk(s, d, t)
  {
    if d < |s.cpus| { assert PoweredOn(s.cpus[d]); }
  }

  // -- the holder can always move, and three moves of its own release the lock

  /** How many moves the holder of `t`'s lock has left before it releases it. */
  function Rank(s: State, t: Tid): nat {
    match At(s, t).lock
    case None => 0
    case Some(d) =>
      if !HoldsLock(s, d, t) then 0
      else if s.cpus[d].stack.top.UnblockLocked? then 3
      else if s.cpus[d].stack.top.UnblockCloned? then 2
      else 1
  }

  /**
   A lock held across steps belongs to the CPU that it names, which is past taking it in `unblock` of that very
   thread, and whose next step is enabled, whatever it allocates.
   */
  lemma {:induction false} LockHolderAdvances(states: seq<State>, moves: seq<Move>, k: nat, t: Tid, ok: bool)
    requires IsRun(states, moves) && k < |states| && At(states[k], t).lock.Some?
    ensures var s := states[k]; var d := At(s, t).lock.value;
      HoldsLock(s, d, t) && Enabled(s, d, Advance(ok)) && 1 <= Rank(s, t) <= 3
  {
    hide IsRun;
    RunLocks(states, moves, k, At(states[k], t).lock.value, t);
  }

  /** In every step of every run: a move of the holder brings the release nearer, no other CPU's move puts it off. */
  lemma {:induction false} HolderProgresses(states: seq<State>, moves: seq<Move>, k: nat, t: Tid)
    requires IsRun(states, moves) && k < |moves| && At(states[k], t).lock.Some?
    ensures var s, s', d := states[k], states[k + 1], At(states[k], t).lock.value;
      if moves[k].cpu != d then At(s', t).lock == Some(d) && Rank(s', t) == Rank(s, t)
      else moves[k].action.Advance? && Rank(s', t) == Rank(s, t) - 1
           && At(s', t).lock == if Rank(s, t) == 1 then None else Some(d)
  {
    hide Trace, WellStacked;
    var s, s', d, m := states[k], states[k + 1], At(states[k], t).lock.value, moves[k];
    RunLocks(states, moves, k, d, t);
    RunLocks(states, moves, k, m.cpu, t);
    RunInv(states, moves, k);
    Progress(s, s', m.cpu, m.action, d, t);
  }

  lemma {:induction false} Progress(s: State, s': State, c: CpuId, a: Action, d: CpuId, t: Tid)
    requires CpusOk(s.cpus) && Enabled(s, c, a) && s' == Apply(s, c, a)
    requires At(s, t).lock == Some(d) && LockOk(s, d, t) && LockOk(s, c, t)
    ensures if c != d then At(s', t).lock == Some(d) && Rank(s', t) == Rank(s, t)
      else a.Advance? && Rank(s', t) == Rank(s, t) - 1 && At(s', t).lock == if Rank(s, t) == 1 then None else Some(d)
  {
    hide WellStacked, Turned, Perform;
    var s0 := s.(event := None);
    LockStep(s, s', c, a, d, t);
    StepMoves(s0, s', c, a, t);
    if c == d { HolderStep(s, s', d, a, t); }
  }

  lemma {:induction false} HolderStep(s: State, s': State, d: CpuId, a: Action, t: Tid)
    requires HoldsLock(s, d, t) && Enabled(s, d, a) && s' == Apply(s, d, a)
    ensures a.Advance? && d < |s'.cpus| && s'.cpus[d].stack.Push?
    ensures s.cpus[d].stack.top.UnblockLocked? ==> s'.cpus[d].stack.top.UnblockCloned?
    ensures s.cpus[d].stack.top.UnblockCloned? ==>
              s'.cpus[d].stack.top.UnblockPushed? || s'.cpus[d].stack.top.UnblockFailed?
  {
    hide AdvanceSyscall, AdvanceCall, AdvanceCreate, AdvanceReturn, AdvancePick, ReturnFromHandler;
  }

  function MovesOf(moves: seq<Move>, d: CpuId): nat {
    if moves == [] then 0 else MovesOf(moves[..|moves| - 1], d) + if moves[|moves| - 1].cpu == d then 1 else 0
  }

  /**
   However the CPUs interleave, the lock is free again by the time its holder has moved three times: in any stretch of
   a run through which a CPU keeps it, that CPU moved as often as the rank fell, so at most twice.
   */
  lemma {:induction false} LockIsReleased(states: seq<State>, moves: seq<Move>, i: nat, j: nat, t: Tid, d: CpuId)
    requires IsRun(states, moves) && i <= j < |states|
    requires forall k :: i <= k <= j ==> At(states[k], t).lock == Some(d)
    ensures MovesOf(moves[i..j], d) == Rank(states[i], t) - Rank(states[j], t) <= 2
    decreases j
  {
    hide IsRun, Trace, Rank, At;
    LockHolderAdvances(states, moves, i, t, true);
    LockHolderAdvances(states, moves, j, t, true);
    RunLength(states, moves);
    if i < j {
      LockIsReleased(states, moves, i, j - 1, t, d);
      HolderProgresses(states, moves, j - 1, t);
      assert moves[i..j][..j - 1 - i] == moves[i..j - 1];
    }
  }

  lemma RunLength(states: seq<State>, moves: seq<Move>)
    requires IsRun(states, moves)
    ensures |states| == |moves| + 1
  {
  }

  /**
   No deadlock: in every reachable state, a CPU in the kernel or in a handler that is done can take its next step, or
   it waits for a thread's lock whose holder, another CPU, can take its own.
   */
  lemma {:induction false} NoDeadlock(states: seq<State>, moves: seq<Move>, k: nat, c: CpuId, ok: bool)
    requires IsRun(states, moves) && k < |states| && c < |states[k].cpus| && states[k].cpus[c].stack.Push?
    requires var f := states[k].cpus[c].stack.top; Advances(f) || RunsServer(f)
    ensures var s, f := states[k], states[k].cpus[c].stack.top;
      || Enabled(s, c, if RunsServer(f) then HandlerReturns else Advance(ok))
      || (NeedsLock(f) && At(s, f.t).lock.Some? && At(s, f.t).lock.value != c
          && Enabled(s, At(s, f.t).lock.value, Advance(ok)))
  {
    hide IsRun;
    var s, f := states[k], states[k].cpus[c].stack.top;
    if NeedsLock(f) && At(s, f.t).lock.Some? {
      LockHolderAdvances(states, moves, k, f.t, ok);
    }
  }
}
