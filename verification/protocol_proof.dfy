/** Every step of the protocol keeps the balance of every thread. */
module ProtocolProof {
  import opened Prelude
  import opened Monitor
  import opened Protocol
  import opened ProtocolInvariant

  // -- one thread, one step: the books before and after

  /** `held` together with the reference that a current-thread pointer owns. */
  function Pointed(held: Held, current: Option<Tid>, t: Tid): Held {
    held.(refs := held.refs + if current == Some(t) then 1 else 0)
  }

  /** `rest` together with what frame `f` on top of a CPU and its current-thread pointer hold. */
  function Total(rest: Held, f: Frame, current: Option<Tid>, t: Tid): Held {
    Pointed(Plus(rest, Of(f, t)), current, t)
  }

  function After(seen: Seen, event: Option<Event>, t: Tid): Seen {
    if event.Some? && event.value.t == t then Observe(seen, event.value) else seen
  }

  predicate Reported(seen: Seen, event: Option<Event>, t: Tid) {
    event.Some? && event.value.t == t ==> Allowed(seen, event.value)
  }

  /** What is known of a thread before a step; `rest` is held without the top of the CPU that takes it. */
  predicate Known(th: Thread, q: int, rest: Held, f: Frame, current: Option<Tid>, t: Tid, seen: Seen) {
    Balanced(th, q, Total(rest, f, current, t), seen) && Sane(rest) && 0 <= q
  }

  /** The books balance again, with frame `f` on top, and the step reported nothing it must not. */
  predicate Kept(th: Thread, q: int, rest: Held, f: Frame, current: Option<Tid>, t: Tid, seen: Seen,
                 event: Option<Event>) {
    Balanced(th, q, Total(rest, f, current, t), After(seen, event, t)) && Reported(seen, event, t)
  }

  /** The same when the top frame has returned. */
  predicate KeptBelow(th: Thread, q: int, rest: Held, current: Option<Tid>, t: Tid, seen: Seen, event: Option<Event>) {
    Balanced(th, q, Pointed(rest, current, t), After(seen, event, t)) && Reported(seen, event, t)
  }

  /** What dropping a reference reports. */
  function FreeEvent(th: Thread, t: Tid): Option<Event> {
    if th.counter == 1 then Some(Freed(t)) else None
  }

  lemma {:induction false} TrapStep(th: Thread, q: int, rest: Held, current: Option<Tid>, t: Tid, seen: Seen)
    requires Known(th, q, rest, InUser(t), current, t, seen) && current == Some(t)
    ensures Kept(th, q, rest, SyscallEntry(t), current, t, seen, Some(Left(t)))
    ensures Kept(th, q, rest, Returning(Some(t)), current, t, seen, Some(Left(t)))
  {
  }

  lemma {:induction false} SyscallEntryStep(th: Thread, q: int, rest: Held, current: Option<Tid>, t: Tid, seen: Seen)
    requires Known(th, q, rest, SyscallEntry(t), current, t, seen) && current == Some(t)
    ensures Kept(th.(counter := th.counter + 1), q, rest, SyscallCloned(t), current, t, seen, None)
  {
  }

  lemma {:induction false} SyscallClonedStep(th: Thread, q: int, rest: Held, current: Option<Tid>, t: Tid, seen: Seen)
    requires Known(th, q, rest, SyscallCloned(t), current, t, seen) && current == Some(t)
    ensures Kept(th.(counter := th.counter - 1), q, rest, SyscallCleared(t), None, t, seen, FreeEvent(th, t))
  {
  }

  lemma {:induction false} SyscallClearedStep(th: Thread, q: int, rest: Held, current: Option<Tid>, t: Tid, seen: Seen)
    requires Known(th, q, rest, SyscallCleared(t), current, t, seen) && th.lock.None?
    ensures th.state == Terminated ==> Kept(th, q, rest, SyscallDone(t), current, t, seen, None)
    ensures th.state == Runnable ==>
              Kept(th.(state := Blocked, inUpcalls := th.inUpcalls + 1), q, rest, InSyscallUpcall(t), current, t,
                seen, Some(Begin(t)))
    ensures th.state != Blocked
  {
  }

  lemma {:induction false} SyscallTerminatingStep(th: Thread, q: int, rest: Held, current: Option<Tid>, t: Tid,
                                                  seen: Seen)
    requires Known(th, q, rest, SyscallTerminating(t), current, t, seen)
    ensures Kept(th.(data := UserData.Reclaimed), q, Plus(rest, Of(SyscallDone(t), t)), InTerminatedUpcall(t),
      current, t, seen, Some(Event.Reclaimed(t)))
  {
  }

  lemma {:induction false} SyscallDoneStep(th: Thread, q: int, rest: Held, current: Option<Tid>, t: Tid, seen: Seen)
    requires Known(th, q, rest, SyscallDone(t), current, t, seen) && current == None
    ensures Kept(th.(counter := th.counter - 1), q, rest, Returning(None), current, t, seen, FreeEvent(th, t))
  {
  }

  lemma {:induction false} ReturningStep(th: Thread, q: int, rest: Held, current: Option<Tid>, t: Tid, seen: Seen)
    requires Known(th, q, rest, Returning(Some(t)), current, t, seen) && current == Some(t)
    ensures Kept(th.(counter := th.counter + 1), q, rest, ReturnCloned(t), current, t, seen, None)
  {
  }

  lemma {:induction false} ReturnClonedStep(th: Thread, q: int, rest: Held, current: Option<Tid>, t: Tid, seen: Seen)
    requires Known(th, q, rest, ReturnCloned(t), current, t, seen) && th.lock.None?
    ensures th.state == Runnable ==> Kept(th, q, rest, Requeueing(t), current, t, seen, None)
    ensures th.state != Runnable ==> Kept(th, q, rest, Releasing(t), current, t, seen, None)
  {
  }

  lemma {:induction false} Requeued(th: Thread, q: int, rest: Held, current: Option<Tid>, t: Tid, seen: Seen)
    requires Known(th, q, rest, Requeueing(t), current, t, seen) && current == Some(t)
    ensures Kept(th, q + 1, rest, Picking, current, t, seen, None)
  {
  }

  lemma {:induction false} NotRequeued(th: Thread, q: int, rest: Held, current: Option<Tid>, t: Tid, seen: Seen)
    requires Known(th, q, rest, Requeueing(t), current, t, seen) && current == Some(t)
    ensures Kept(th.(counter := th.counter - 1), q, rest, Panicked(current), current, t, seen, FreeEvent(th, t))
  {
  }

  lemma {:induction false} RequeueingStep(th: Thread, q: int, rest: Held, current: Option<Tid>, t: Tid, seen: Seen)
    requires Known(th, q, rest, Requeueing(t), current, t, seen) && current == Some(t)
    ensures Kept(th, q + 1, rest, Picking, current, t, seen, None)
    ensures Kept(th.(counter := th.counter - 1), q, rest, Panicked(current), current, t, seen, FreeEvent(th, t))
  {
    hide Known, Kept;
    Requeued(th, q, rest, current, t, seen);
    NotRequeued(th, q, rest, current, t, seen);
  }

  lemma {:induction false} PickingStep(th: Thread, q: int, rest: Held, current: Option<Tid>, t: Tid, seen: Seen)
    requires Known(th, q, rest, Picking, current, t, seen) && q > 0
    ensures Kept(th, q - 1, rest, Popped(t), current, t, seen, None)
  {
  }

  lemma {:induction false} PoppedStep(th: Thread, q: int, rest: Held, current: Option<Tid>, t: Tid, seen: Seen)
    requires Known(th, q, rest, Popped(t), current, t, seen) && th.lock.None?
    ensures th.state == Runnable ==> Kept(th, q, rest, Entering(t), current, t, seen, None)
    ensures th.state != Runnable ==> Kept(th, q, rest, Releasing(t), current, t, seen, Some(Discarded(t)))
  {
  }

  lemma {:induction false} ReleasingStep(th: Thread, q: int, rest: Held, current: Option<Tid>, t: Tid, seen: Seen)
    requires Known(th, q, rest, Releasing(t), current, t, seen)
    ensures Kept(th.(counter := th.counter - 1), q, rest, Picking, current, t, seen, FreeEvent(th, t))
  {
  }

  lemma {:induction false} ClearingStep(th: Thread, q: int, rest: Held, current: Option<Tid>, t: Tid, seen: Seen)
    requires Known(th, q, rest, Clearing, current, t, seen) && current == Some(t)
    ensures Kept(th.(counter := th.counter - 1), q, rest, Idling, None, t, seen, FreeEvent(th, t))
  {
  }

  lemma {:induction false} EnteringStep(th: Thread, q: int, rest: Held, current: Option<Tid>, t: Tid, seen: Seen)
    requires Known(th, q, rest, Entering(t), current, t, seen) && current != Some(t)
    ensures Kept(th, q, rest, Switching(t), Some(t), t, seen, None)
  {
  }

  lemma {:induction false} ReenteringStep(th: Thread, q: int, rest: Held, current: Option<Tid>, t: Tid, seen: Seen)
    requires Known(th, q, rest, Entering(t), current, t, seen) && current == Some(t)
    ensures Kept(th.(counter := th.counter - 1), q, rest, Switching(t), current, t, seen, FreeEvent(th, t))
  {
  }

  lemma {:induction false} LeavingStep(th: Thread, q: int, rest: Held, current: Option<Tid>, t: Tid, seen: Seen, u: Tid)
    requires Known(th, q, rest, Entering(u), current, t, seen) && current == Some(t) && u != t
    ensures Kept(th.(counter := th.counter - 1), q, rest, Switching(u), Some(u), t, seen, FreeEvent(th, t))
  {
  }

  lemma {:induction false} SwitchingStep(th: Thread, q: int, rest: Held, current: Option<Tid>, t: Tid, seen: Seen)
    requires Known(th, q, rest, Switching(t), current, t, seen) && current == Some(t)
    ensures Kept(th, q, rest, InUser(t), current, t, seen, Some(Entered(t)))
  {
  }

  lemma {:induction false} TerminatedAgain(th: Thread, q: int, rest: Held, current: Option<Tid>, t: Tid, seen: Seen)
    requires Known(th, q, rest, TerminateCalled(t), current, t, seen) && th.lock.None? && th.state == Terminated
    ensures Kept(th, q, rest, CallDone(t), current, t, seen, None)
  {
  }

  lemma {:induction false} TerminatedNow(th: Thread, q: int, rest: Held, current: Option<Tid>, t: Tid, seen: Seen)
    requires Known(th, q, rest, TerminateCalled(t), current, t, seen) && th.lock.None?
    requires th.state != Terminated && th.inUpcalls == 0
    ensures Kept(th.(state := Terminated), q, rest, TerminatePending(t), current, t, seen, Some(Requested(t)))
  {
  }

  lemma {:induction false} TerminatedLater(th: Thread, q: int, rest: Held, current: Option<Tid>, t: Tid, seen: Seen)
    requires Known(th, q, rest, TerminateCalled(t), current, t, seen) && th.lock.None?
    requires th.state != Terminated && th.inUpcalls != 0
    ensures Kept(th.(state := Terminated), q, rest, CallDone(t), current, t, seen, Some(Requested(t)))
  {
  }

  lemma {:induction false} TerminateCalledStep(th: Thread, q: int, rest: Held, current: Option<Tid>, t: Tid, seen: Seen)
    requires Known(th, q, rest, TerminateCalled(t), current, t, seen) && th.lock.None?
    ensures th.state == Terminated ==> Kept(th, q, rest, CallDone(t), current, t, seen, None)
    ensures th.state != Terminated && th.inUpcalls == 0 ==>
              Kept(th.(state := Terminated), q, rest, TerminatePending(t), current, t, seen, Some(Requested(t)))
    ensures th.state != Terminated && th.inUpcalls != 0 ==>
              Kept(th.(state := Terminated), q, rest, CallDone(t), current, t, seen, Some(Requested(t)))
  {
    hide Known, Kept;
    if th.state == Terminated {
      TerminatedAgain(th, q, rest, current, t, seen);
    } else if th.inUpcalls == 0 {
      TerminatedNow(th, q, rest, current, t, seen);
    } else {
      TerminatedLater(th, q, rest, current, t, seen);
    }
  }

  lemma {:induction false} TerminatePendingStep(th: Thread, q: int, rest: Held, current: Option<Tid>, t: Tid,
                                                seen: Seen)
    requires Known(th, q, rest, TerminatePending(t), current, t, seen)
    ensures Kept(th.(data := UserData.Reclaimed), q, Plus(rest, Of(CallDone(t), t)), InTerminatedUpcall(t), current,
      t, seen, Some(Event.Reclaimed(t)))
  {
  }

  lemma {:induction false} ContextCalledStep(th: Thread, q: int, rest: Held, current: Option<Tid>, t: Tid, seen: Seen)
    requires Known(th, q, rest, ContextCalled(t), current, t, seen) && th.lock.None?
    ensures Kept(th, q, rest, CallDone(t), current, t, seen, None)
    ensures th.state == Blocked ==> Kept(th, q, rest, CallDone(t), current, t, seen, Some(Context(t)))
  {
  }

  lemma {:induction false} CallDoneStep(th: Thread, q: int, rest: Held, current: Option<Tid>, t: Tid, seen: Seen)
    requires Known(th, q, rest, CallDone(t), current, t, seen)
    ensures KeptBelow(th.(counter := th.counter - 1), q, rest, current, t, seen, FreeEvent(th, t))
  {
  }

  lemma {:induction false} UnblockCalledStep(th: Thread, q: int, rest: Held, current: Option<Tid>, t: Tid,
                                             seen: Seen, c: CpuId)
    requires Known(th, q, rest, UnblockCalled(t), current, t, seen) && th.lock.None?
    ensures th.state != Blocked ==> Kept(th, q, rest, CallDone(t), current, t, seen, None)
    ensures th.state == Blocked ==> Kept(th.(lock := Some(c)), q, rest, UnblockLocked(t), current, t, seen, None)
  {
  }

  lemma {:induction false} UnblockLockedStep(th: Thread, q: int, rest: Held, current: Option<Tid>, t: Tid, seen: Seen)
    requires Known(th, q, rest, UnblockLocked(t), current, t, seen)
    ensures Kept(th.(counter := th.counter + 1), q, rest, UnblockCloned(t), current, t, seen, None)
  {
  }

  lemma {:induction false} Enqueued(th: Thread, q: int, rest: Held, current: Option<Tid>, t: Tid, seen: Seen)
    requires Known(th, q, rest, UnblockCloned(t), current, t, seen)
    ensures Kept(th, q + 1, rest, UnblockPushed(t), current, t, seen, None)
  {
  }

  lemma {:induction false} NotEnqueued(th: Thread, q: int, rest: Held, current: Option<Tid>, t: Tid, seen: Seen)
    requires Known(th, q, rest, UnblockCloned(t), current, t, seen)
    ensures Kept(th.(counter := th.counter - 1), q, rest, UnblockFailed(t), current, t, seen, FreeEvent(th, t))
  {
  }

  lemma {:induction false} UnblockClonedStep(th: Thread, q: int, rest: Held, current: Option<Tid>, t: Tid, seen: Seen)
    requires Known(th, q, rest, UnblockCloned(t), current, t, seen)
    ensures Kept(th, q + 1, rest, UnblockPushed(t), current, t, seen, None)
    ensures Kept(th.(counter := th.counter - 1), q, rest, UnblockFailed(t), current, t, seen, FreeEvent(th, t))
  {
    hide Known, Kept;
    Enqueued(th, q, rest, current, t, seen);
    NotEnqueued(th, q, rest, current, t, seen);
  }

  lemma {:induction false} UnblockFailedStep(th: Thread, q: int, rest: Held, current: Option<Tid>, t: Tid, seen: Seen)
    requires Known(th, q, rest, UnblockFailed(t), current, t, seen)
    ensures Kept(th.(lock := None), q, rest, CallDone(t), current, t, seen, None)
  {
  }

  lemma {:induction false} UnblockPushedStep(th: Thread, q: int, rest: Held, current: Option<Tid>, t: Tid, seen: Seen)
    requires Known(th, q, rest, UnblockPushed(t), current, t, seen)
    ensures Kept(th.(state := Runnable, lock := None), q, rest, CallDone(t), current, t, seen, None)
  {
  }

  lemma {:induction false} Created(th: Thread, q: int, rest: Held, current: Option<Tid>, t: Tid, seen: Seen)
    requires Known(th, q, rest, CreateBoxed(t), current, t, seen)
    ensures Kept(th.(made := true, counter := 1, handle := true, arcs := 1), q, rest, CreateKernel(t), current, t,
      seen, Some(Made(t)))
  {
  }

  lemma {:induction false} NotCreated(th: Thread, q: int, rest: Held, current: Option<Tid>, t: Tid, seen: Seen)
    requires Known(th, q, rest, CreateBoxed(t), current, t, seen)
    ensures KeptBelow(th.(data := Released), q, rest, current, t, seen, None)
  {
  }

  lemma {:induction false} CreateBoxedStep(th: Thread, q: int, rest: Held, current: Option<Tid>, t: Tid, seen: Seen)
    requires Known(th, q, rest, CreateBoxed(t), current, t, seen)
    ensures Kept(th.(made := true, counter := 1, handle := true, arcs := 1), q, rest, CreateKernel(t), current, t,
      seen, Some(Made(t)))
    ensures KeptBelow(th.(data := Released), q, rest, current, t, seen, None)
  {
    hide Known, Kept, KeptBelow;
    Created(th, q, rest, current, t, seen);
    NotCreated(th, q, rest, current, t, seen);
  }

  lemma {:induction false} CreateKernelStep(th: Thread, q: int, rest: Held, current: Option<Tid>, t: Tid, seen: Seen)
    requires Known(th, q, rest, CreateKernel(t), current, t, seen)
    ensures Kept(th.(data := Live, arcs := th.arcs + 1), q, rest, CreateReturning(t), current, t, seen,
      Some(Event.Init(t)))
  {
  }

  lemma {:induction false} CreateReturningStep(th: Thread, q: int, rest: Held, current: Option<Tid>, t: Tid, seen: Seen)
    requires Known(th, q, rest, CreateReturning(t), current, t, seen)
    ensures KeptBelow(th.(shared := 1, published := true), q, rest, current, t, seen, None)
  {
  }

  lemma {:induction false} InSyscallUpcallStep(th: Thread, q: int, rest: Held, current: Option<Tid>, t: Tid, seen: Seen)
    requires Known(th, q, rest, InSyscallUpcall(t), current, t, seen) && th.lock.None?
    ensures th.inUpcalls == 1 && th.state == Terminated ==>
              Kept(th.(inUpcalls := th.inUpcalls - 1), q, rest, SyscallTerminating(t), current, t, seen, Some(End(t)))
    ensures !(th.inUpcalls == 1 && th.state == Terminated) ==>
              Kept(th.(inUpcalls := th.inUpcalls - 1), q, rest, SyscallDone(t), current, t, seen, Some(End(t)))
  {
  }

  /** Releasing an `Arc<Thread>` that was counted as `rest` says, minus itself. */
  lemma {:induction false} InTerminatedUpcallStep(th: Thread, q: int, rest: Held, current: Option<Tid>, t: Tid,
                                                  seen: Seen)
    requires Known(th, q, rest, InTerminatedUpcall(t), current, t, seen)
    ensures th.arcs != 1 ==> KeptBelow(th.(arcs := th.arcs - 1), q, rest, current, t, seen, None)
    ensures th.arcs == 1 ==>
              KeptBelow(th.(arcs := 0, handle := false, counter := th.counter - 1), q, rest, current, t, seen,
                FreeEvent(th, t))
  {
  }

  lemma {:induction false} CallThreadStep(th: Thread, q: int, rest: Held, current: Option<Tid>, t: Tid, seen: Seen,
                                          g: Frame, f: Frame)
    requires Known(th, q, rest, g, current, t, seen) && RunsServer(g) && th.published && th.arcs > 0
    requires f == TerminateCalled(t) || f == UnblockCalled(t) || f == ContextCalled(t)
    ensures Kept(th.(counter := th.counter + 1), q, Plus(rest, Of(g, t)), f, current, t, seen, None)
  {
  }

  lemma {:induction false} ShareArcStep(th: Thread, q: int, rest: Held, current: Option<Tid>, t: Tid, seen: Seen,
                                        g: Frame)
    requires Known(th, q, rest, g, current, t, seen) && RunsServer(g) && th.published && th.arcs > 0
    ensures Kept(th.(arcs := th.arcs + 1, shared := th.shared + 1), q, rest, g, current, t, seen, None)
  {
  }

  lemma {:induction false} DropArcStep(th: Thread, q: int, rest: Held, current: Option<Tid>, t: Tid, seen: Seen,
                                       g: Frame)
    requires Known(th, q, rest, g, current, t, seen) && RunsServer(g) && th.shared > 0
    ensures th.arcs != 1 ==> Kept(th.(shared := th.shared - 1, arcs := th.arcs - 1), q, rest, g, current, t, seen, None)
    ensures th.arcs == 1 ==>
              Kept(th.(shared := th.shared - 1, arcs := 0, handle := false, counter := th.counter - 1), q, rest, g,
                current, t, seen, FreeEvent(th, t))
  {
  }

  lemma {:induction false} CallCreateStep(th: Thread, q: int, rest: Held, current: Option<Tid>, t: Tid, seen: Seen,
                                          g: Frame)
    requires Known(th, q, rest, g, current, t, seen) && RunsServer(g) && th == Absent
    ensures Kept(Boxed, q, Plus(rest, Of(g, t)), CreateBoxed(t), current, t, seen, None)
  {
  }

  // -- from one thread to the whole state

  /** How a step changes the stack: the top frame returns, goes on, or calls. */
  datatype Turn = Returns | Continues | Calls

  function TurnOf(f: Frame, a: Action): Turn {
    match a
    case CallCreate(_) | CallTerminate(_) | CallUnblock(_) | CallContext(_) => Calls
    case HandlerReturns => if f.InTerminatedUpcall? then Returns else Continues
    case Advance(ok) =>
      if f.CallDone? || f.CreateReturning? || (f.CreateBoxed? && !ok) then Returns
      else if f.SyscallTerminating? || f.TerminatePending? then Calls
      else Continues
    case Trap | Interrupt | ShareArc(_) | DropArc(_) => Continues
  }

  predicate Turned(before: Stack, after: Stack, turn: Turn) {
    && before.Push?
    && match turn
       case Returns => after == before.rest
       case Continues => after.Push? && after.rest == before.rest
       case Calls => after.Push? && after.rest.Push? && after.rest.rest == before.rest
  }

  /** The step of CPU `c` from `s` to `s'` touches that CPU only. */
  predicate Local(s: State, s': State, c: CpuId, turn: Turn) {
    && c < |s.cpus| == |s'.cpus|
    && s'.cpus == s.cpus[c := s'.cpus[c]]
    && WellStacked(s'.cpus[c].stack, s'.cpus[c].current)
    && Turned(s.cpus[c].stack, s'.cpus[c].stack, turn)
  }

  predicate Ready(s: State, c: CpuId, t: Tid, rest: Held, seen: Seen) {
    && c < |s.cpus|
    && WellStacked(s.cpus[c].stack, s.cpus[c].current)
    && Known(At(s, t), Queued(s, t), rest, s.cpus[c].stack.top, s.cpus[c].current, t, seen)
    && s.event == None
  }

  predicate Settled(s: State, s': State, c: CpuId, turn: Turn, t: Tid, rest: Held, seen: Seen) {
    && c < |s'.cpus|
    && var cpu := s'.cpus[c];
    && cpu.stack.Push?
    && match turn
       case Returns => KeptBelow(At(s', t), Queued(s', t), rest, cpu.current, t, seen, s'.event)
       case Continues => Kept(At(s', t), Queued(s', t), rest, cpu.stack.top, cpu.current, t, seen, s'.event)
       case Calls =>
         cpu.stack.rest.Push? &&
         Kept(At(s', t), Queued(s', t), Plus(rest, Of(cpu.stack.rest.top, t)), cpu.stack.top, cpu.current, t, seen,
           s'.event)
  }

  /** A thread that a step does not concern keeps its balance. */
  lemma Bystander(s: State, s': State, c: CpuId, turn: Turn, t: Tid, rest: Held, seen: Seen)
    requires Ready(s, c, t, rest, seen) && Local(s, s', c, turn) && Subject(s.cpus[c].stack.top) != Some(t)
    requires Passed(s, s', t) && PassedOn(s, s', c, turn, t)
    ensures Settled(s, s', c, turn, t, rest, seen)
  {
    hide Balanced, Holding, Subject;
  }

  /** A step passes the thread by: its record, its queue entries, and what is reported of it. */
  predicate Passed(s: State, s': State, t: Tid) {
    At(s', t) == At(s, t) && Queued(s', t) == Queued(s, t) && (s'.event.Some? ==> s'.event.value.t != t)
  }

  /** The same of the CPU that takes the step. */
  predicate PassedOn(s: State, s': State, c: CpuId, turn: Turn, t: Tid) {
    && c < |s.cpus| == |s'.cpus| && s'.cpus[c].stack.Push?
    && (s.cpus[c].current == Some(t) <==> s'.cpus[c].current == Some(t))
    && (turn.Continues? || turn.Calls? ==> Subject(s'.cpus[c].stack.top) != Some(t))
    && (turn.Calls? ==> s'.cpus[c].stack.rest.Push? && Subject(s'.cpus[c].stack.rest.top) != Some(t))
  }

  lemma QueuedPop(queue: seq<Tid>, t: Tid)
    requires queue != []
    ensures multiset(queue)[t] == multiset(queue[1..])[t] + if queue[0] == t then 1 else 0
  {
    assert queue == [queue[0]] + queue[1..];
  }

  predicate InSyscall(f: Frame) {
    f.SyscallEntry? || f.SyscallCloned? || f.SyscallCleared? || f.SyscallTerminating? || f.SyscallDone?
  }

  lemma {:induction false} SyscallLocal(s: State, s': State, c: CpuId, ok: bool)
    requires c < |s.cpus| && WellStacked(s.cpus[c].stack, s.cpus[c].current) && InSyscall(s.cpus[c].stack.top)
    requires s' == AdvanceSyscall(s, c, s.cpus[c].stack.top)
    ensures Local(s, s', c, TurnOf(s.cpus[c].stack.top, Advance(ok)))
  {
  }

  lemma {:induction false} SyscallElsewhere(s: State, s': State, c: CpuId, ok: bool, t: Tid)
    requires c < |s.cpus| && WellStacked(s.cpus[c].stack, s.cpus[c].current) && InSyscall(s.cpus[c].stack.top)
    requires s.cpus[c].stack.top.t != t && s.event == None
    requires s' == AdvanceSyscall(s, c, s.cpus[c].stack.top)
    ensures Passed(s, s', t)
  {
  }

  lemma {:induction false} SyscallTurn(s: State, s': State, c: CpuId, ok: bool, t: Tid)
    requires c < |s.cpus| && WellStacked(s.cpus[c].stack, s.cpus[c].current) && InSyscall(s.cpus[c].stack.top)
    requires s.cpus[c].stack.top.t != t && s.event == None
    requires s' == AdvanceSyscall(s, c, s.cpus[c].stack.top)
    ensures PassedOn(s, s', c, TurnOf(s.cpus[c].stack.top, Advance(ok)), t)
  {
    hide At;
  }

  lemma {:induction false} SyscallBystander(s: State, s': State, c: CpuId, ok: bool, t: Tid, rest: Held, seen: Seen)
    requires Ready(s, c, t, rest, seen) && InSyscall(s.cpus[c].stack.top)
    requires var f := s.cpus[c].stack.top; f.t != t
    requires s' == AdvanceSyscall(s, c, s.cpus[c].stack.top)
    ensures Settled(s, s', c, TurnOf(s.cpus[c].stack.top, Advance(ok)), t, rest, seen)
  {
    hide Known, Settled, Holding, AdvanceSyscall, Local, Passed, PassedOn;
    SyscallLocal(s, s', c, ok);
    SyscallElsewhere(s, s', c, ok, t);
    SyscallTurn(s, s', c, ok, t);
    Bystander(s, s', c, TurnOf(s.cpus[c].stack.top, Advance(ok)), t, rest, seen);
  }

  lemma {:induction false} SyscallBegins(s: State, s': State, c: CpuId, ok: bool, t: Tid, rest: Held, seen: Seen)
    requires Ready(s, c, t, rest, seen) && InSyscall(s.cpus[c].stack.top) && LockFree(s, s.cpus[c].stack.top)
    requires s' == AdvanceSyscall(s, c, s.cpus[c].stack.top)
    requires s.cpus[c].stack.top.t == t
    requires var f := s.cpus[c].stack.top; f.SyscallEntry? || f.SyscallCloned? || f.SyscallCleared?
    ensures Settled(s, s', c, TurnOf(s.cpus[c].stack.top, Advance(ok)), t, rest, seen)
  {
    hide Balanced, Known, Kept, KeptBelow, Holding;
    var f := s.cpus[c].stack.top;
    var th, q, current := At(s, t), Queued(s, t), s.cpus[c].current;
    match f
    case SyscallEntry(_) => SyscallEntryStep(th, q, rest, current, t, seen);
    case SyscallCloned(_) => SyscallClonedStep(th, q, rest, current, t, seen);
    case SyscallCleared(_) => SyscallClearedStep(th, q, rest, current, t, seen);
  }

  lemma {:induction false} SyscallEnds(s: State, s': State, c: CpuId, ok: bool, t: Tid, rest: Held, seen: Seen)
    requires Ready(s, c, t, rest, seen) && InSyscall(s.cpus[c].stack.top) && LockFree(s, s.cpus[c].stack.top)
    requires s' == AdvanceSyscall(s, c, s.cpus[c].stack.top)
    requires s.cpus[c].stack.top.t == t
    requires s.cpus[c].stack.top.SyscallTerminating? || s.cpus[c].stack.top.SyscallDone?
    ensures Settled(s, s', c, TurnOf(s.cpus[c].stack.top, Advance(ok)), t, rest, seen)
  {
    hide Balanced, Known, Kept, KeptBelow, Holding;
    var f := s.cpus[c].stack.top;
    var th, q, current := At(s, t), Queued(s, t), s.cpus[c].current;
    match f
    case SyscallTerminating(_) => SyscallTerminatingStep(th, q, rest, current, t, seen);
    case SyscallDone(_) => SyscallDoneStep(th, q, rest, current, t, seen);
  }

  lemma {:induction false} SyscallSteps(s: State, s': State, c: CpuId, ok: bool, t: Tid, rest: Held, seen: Seen)
    requires Ready(s, c, t, rest, seen) && InSyscall(s.cpus[c].stack.top) && LockFree(s, s.cpus[c].stack.top)
    requires s' == AdvanceSyscall(s, c, s.cpus[c].stack.top)
    ensures Settled(s, s', c, TurnOf(s.cpus[c].stack.top, Advance(ok)), t, rest, seen)
  {
    hide Known, Settled, AdvanceSyscall, TurnOf, LockFree;
    var f := s.cpus[c].stack.top;
    if f.t != t {
      SyscallBystander(s, s', c, ok, t, rest, seen);
    } else {
      if f.SyscallTerminating? || f.SyscallDone? {
        SyscallEnds(s, s', c, ok, t, rest, seen);
      } else {
        SyscallBegins(s, s', c, ok, t, rest, seen);
      }
    }
  }

  predicate InCall(f: Frame) {
    f.TerminateCalled? || f.TerminatePending? || f.ContextCalled? || f.CallDone?
  }

  lemma {:induction false} CallLocal(s: State, s': State, c: CpuId, ok: bool)
    requires c < |s.cpus| && WellStacked(s.cpus[c].stack, s.cpus[c].current) && InCall(s.cpus[c].stack.top)
    requires s' == AdvanceCall(s, c, s.cpus[c].stack.top)
    ensures Local(s, s', c, TurnOf(s.cpus[c].stack.top, Advance(ok)))
  {
  }

  lemma {:induction false} CallElsewhere(s: State, s': State, c: CpuId, ok: bool, t: Tid)
    requires c < |s.cpus| && WellStacked(s.cpus[c].stack, s.cpus[c].current) && s.event == None
    requires InCall(s.cpus[c].stack.top)
    requires var f := s.cpus[c].stack.top; f.t != t
    requires s' == AdvanceCall(s, c, s.cpus[c].stack.top)
    ensures Passed(s, s', t)
  {
  }

  lemma {:induction false} CallTurn(s: State, s': State, c: CpuId, ok: bool, t: Tid)
    requires c < |s.cpus| && WellStacked(s.cpus[c].stack, s.cpus[c].current) && s.event == None
    requires InCall(s.cpus[c].stack.top)
    requires var f := s.cpus[c].stack.top; f.t != t
    requires s' == AdvanceCall(s, c, s.cpus[c].stack.top)
    ensures PassedOn(s, s', c, TurnOf(s.cpus[c].stack.top, Advance(ok)), t)
  {
    hide At;
  }

  lemma {:induction false} CallBystander(s: State, s': State, c: CpuId, ok: bool, t: Tid, rest: Held, seen: Seen)
    requires Ready(s, c, t, rest, seen) && InCall(s.cpus[c].stack.top)
    requires var f := s.cpus[c].stack.top; f.t != t
    requires s' == AdvanceCall(s, c, s.cpus[c].stack.top)
    ensures Settled(s, s', c, TurnOf(s.cpus[c].stack.top, Advance(ok)), t, rest, seen)
  {
    hide Known, Settled, Holding, AdvanceCall, Local, Passed, PassedOn;
    CallLocal(s, s', c, ok);
    CallElsewhere(s, s', c, ok, t);
    CallTurn(s, s', c, ok, t);
    Bystander(s, s', c, TurnOf(s.cpus[c].stack.top, Advance(ok)), t, rest, seen);
  }

  lemma {:induction false} CallBegins(s: State, s': State, c: CpuId, ok: bool, t: Tid, rest: Held, seen: Seen)
    requires Ready(s, c, t, rest, seen) && InCall(s.cpus[c].stack.top) && LockFree(s, s.cpus[c].stack.top)
    requires s' == AdvanceCall(s, c, s.cpus[c].stack.top)
    requires s.cpus[c].stack.top.t == t
    requires s.cpus[c].stack.top.TerminateCalled? || s.cpus[c].stack.top.ContextCalled?
    ensures Settled(s, s', c, TurnOf(s.cpus[c].stack.top, Advance(ok)), t, rest, seen)
  {
    hide Balanced, Known, Kept, KeptBelow, Holding;
    var f := s.cpus[c].stack.top;
    var th, q, current := At(s, t), Queued(s, t), s.cpus[c].current;
    match f
    case TerminateCalled(_) => TerminateCalledStep(th, q, rest, current, t, seen);
    case ContextCalled(_) => ContextCalledStep(th, q, rest, current, t, seen);
  }

  lemma {:induction false} CallEnds(s: State, s': State, c: CpuId, ok: bool, t: Tid, rest: Held, seen: Seen)
    requires Ready(s, c, t, rest, seen) && InCall(s.cpus[c].stack.top) && LockFree(s, s.cpus[c].stack.top)
    requires s' == AdvanceCall(s, c, s.cpus[c].stack.top)
    requires s.cpus[c].stack.top.t == t
    requires s.cpus[c].stack.top.TerminatePending? || s.cpus[c].stack.top.CallDone?
    ensures Settled(s, s', c, TurnOf(s.cpus[c].stack.top, Advance(ok)), t, rest, seen)
  {
    hide Balanced, Known, Kept, KeptBelow, Holding;
    var f := s.cpus[c].stack.top;
    var th, q, current := At(s, t), Queued(s, t), s.cpus[c].current;
    match f
    case TerminatePending(_) => TerminatePendingStep(th, q, rest, current, t, seen);
    case CallDone(_) => CallDoneStep(th, q, rest, current, t, seen);
  }

  lemma {:induction false} CallSteps(s: State, s': State, c: CpuId, ok: bool, t: Tid, rest: Held, seen: Seen)
    requires Ready(s, c, t, rest, seen) && InCall(s.cpus[c].stack.top) && LockFree(s, s.cpus[c].stack.top)
    requires s' == AdvanceCall(s, c, s.cpus[c].stack.top)
    ensures Settled(s, s', c, TurnOf(s.cpus[c].stack.top, Advance(ok)), t, rest, seen)
  {
    hide Known, Settled, AdvanceCall, TurnOf, LockFree;
    var f := s.cpus[c].stack.top;
    if f.t != t {
      CallBystander(s, s', c, ok, t, rest, seen);
    } else {
      if f.TerminateCalled? || f.ContextCalled? {
        CallBegins(s, s', c, ok, t, rest, seen);
      } else {
        CallEnds(s, s', c, ok, t, rest, seen);
      }
    }
  }

  predicate InUnblock(f: Frame) {
    f.UnblockCalled? || f.UnblockLocked? || f.UnblockCloned? || f.UnblockFailed? || f.UnblockPushed?
  }

  lemma {:induction false} UnblockLocal(s: State, s': State, c: CpuId, ok: bool)
    requires c < |s.cpus| && WellStacked(s.cpus[c].stack, s.cpus[c].current) && InUnblock(s.cpus[c].stack.top)
    requires s' == AdvanceUnblock(s, c, s.cpus[c].stack.top, ok)
    ensures Local(s, s', c, TurnOf(s.cpus[c].stack.top, Advance(ok)))
  {
    hide At;
  }

  lemma {:induction false} UnblockElsewhere(s: State, s': State, c: CpuId, ok: bool, t: Tid)
    requires c < |s.cpus| && WellStacked(s.cpus[c].stack, s.cpus[c].current) && s.event == None
    requires InUnblock(s.cpus[c].stack.top)
    requires var f := s.cpus[c].stack.top; f.t != t
    requires s' == AdvanceUnblock(s, c, s.cpus[c].stack.top, ok)
    ensures Passed(s, s', t)
  {
  }

  lemma {:induction false} UnblockTurn(s: State, s': State, c: CpuId, ok: bool, t: Tid)
    requires c < |s.cpus| && WellStacked(s.cpus[c].stack, s.cpus[c].current) && s.event == None
    requires InUnblock(s.cpus[c].stack.top)
    requires var f := s.cpus[c].stack.top; f.t != t
    requires s' == AdvanceUnblock(s, c, s.cpus[c].stack.top, ok)
    ensures PassedOn(s, s', c, TurnOf(s.cpus[c].stack.top, Advance(ok)), t)
  {
    hide At;
  }

  lemma {:induction false} UnblockBystander(s: State, s': State, c: CpuId, ok: bool, t: Tid, rest: Held, seen: Seen)
    requires Ready(s, c, t, rest, seen) && InUnblock(s.cpus[c].stack.top)
    requires var f := s.cpus[c].stack.top; f.t != t
    requires s' == AdvanceUnblock(s, c, s.cpus[c].stack.top, ok)
    ensures Settled(s, s', c, TurnOf(s.cpus[c].stack.top, Advance(ok)), t, rest, seen)
  {
    hide Known, Settled, Holding, AdvanceUnblock, Local, Passed, PassedOn;
    UnblockLocal(s, s', c, ok);
    UnblockElsewhere(s, s', c, ok, t);
    UnblockTurn(s, s', c, ok, t);
    Bystander(s, s', c, TurnOf(s.cpus[c].stack.top, Advance(ok)), t, rest, seen);
  }

  lemma {:induction false} UnblockBegins(s: State, s': State, c: CpuId, ok: bool, t: Tid, rest: Held, seen: Seen)
    requires Ready(s, c, t, rest, seen) && InUnblock(s.cpus[c].stack.top) && LockFree(s, s.cpus[c].stack.top)
    requires s' == AdvanceUnblock(s, c, s.cpus[c].stack.top, ok)
    requires s.cpus[c].stack.top.t == t
    requires s.cpus[c].stack.top.UnblockCalled? || s.cpus[c].stack.top.UnblockLocked?
    ensures Settled(s, s', c, TurnOf(s.cpus[c].stack.top, Advance(ok)), t, rest, seen)
  {
    hide Balanced, Known, Kept, KeptBelow, Holding;
    var f := s.cpus[c].stack.top;
    var th, q, current := At(s, t), Queued(s, t), s.cpus[c].current;
    match f
    case UnblockCalled(_) => UnblockCalledStep(th, q, rest, current, t, seen, c);
    case UnblockLocked(_) => UnblockLockedStep(th, q, rest, current, t, seen);
  }

  lemma {:induction false} UnblockEnds(s: State, s': State, c: CpuId, ok: bool, t: Tid, rest: Held, seen: Seen)
    requires Ready(s, c, t, rest, seen) && InUnblock(s.cpus[c].stack.top) && LockFree(s, s.cpus[c].stack.top)
    requires s' == AdvanceUnblock(s, c, s.cpus[c].stack.top, ok)
    requires s.cpus[c].stack.top.t == t
    requires var f := s.cpus[c].stack.top; f.UnblockCloned? || f.UnblockFailed? || f.UnblockPushed?
    ensures Settled(s, s', c, TurnOf(s.cpus[c].stack.top, Advance(ok)), t, rest, seen)
  {
    hide Balanced, Known, Kept, KeptBelow, Holding;
    var f := s.cpus[c].stack.top;
    var th, q, current := At(s, t), Queued(s, t), s.cpus[c].current;
    match f
    case UnblockCloned(_) => UnblockClonedStep(th, q, rest, current, t, seen);
    case UnblockFailed(_) => UnblockFailedStep(th, q, rest, current, t, seen);
    case UnblockPushed(_) => UnblockPushedStep(th, q, rest, current, t, seen);
  }

  lemma {:induction false} UnblockSteps(s: State, s': State, c: CpuId, ok: bool, t: Tid, rest: Held, seen: Seen)
    requires Ready(s, c, t, rest, seen) && InUnblock(s.cpus[c].stack.top) && LockFree(s, s.cpus[c].stack.top)
    requires s' == AdvanceUnblock(s, c, s.cpus[c].stack.top, ok)
    ensures Settled(s, s', c, TurnOf(s.cpus[c].stack.top, Advance(ok)), t, rest, seen)
  {
    hide Known, Settled, AdvanceUnblock, TurnOf, LockFree;
    var f := s.cpus[c].stack.top;
    if f.t != t {
      UnblockBystander(s, s', c, ok, t, rest, seen);
    } else {
      if f.UnblockCalled? || f.UnblockLocked? {
        UnblockBegins(s, s', c, ok, t, rest, seen);
      } else {
        UnblockEnds(s, s', c, ok, t, rest, seen);
      }
    }
  }

  predicate InCreate(f: Frame) {
    f.CreateBoxed? || f.CreateKernel? || f.CreateReturning?
  }

  lemma {:induction false} CreateLocal(s: State, s': State, c: CpuId, ok: bool)
    requires c < |s.cpus| && WellStacked(s.cpus[c].stack, s.cpus[c].current) && InCreate(s.cpus[c].stack.top)
    requires s' == AdvanceCreate(s, c, s.cpus[c].stack.top, ok)
    ensures Local(s, s', c, TurnOf(s.cpus[c].stack.top, Advance(ok)))
  {
    hide At;
  }

  lemma {:induction false} CreateElsewhere(s: State, s': State, c: CpuId, ok: bool, t: Tid)
    requires c < |s.cpus| && WellStacked(s.cpus[c].stack, s.cpus[c].current) && s.event == None
    requires InCreate(s.cpus[c].stack.top)
    requires var f := s.cpus[c].stack.top; f.t != t
    requires s' == AdvanceCreate(s, c, s.cpus[c].stack.top, ok)
    ensures Passed(s, s', t) && PassedOn(s, s', c, TurnOf(s.cpus[c].stack.top, Advance(ok)), t)
  {
  }

  lemma {:induction false} CreateBystander(s: State, s': State, c: CpuId, ok: bool, t: Tid, rest: Held, seen: Seen)
    requires Ready(s, c, t, rest, seen) && InCreate(s.cpus[c].stack.top)
    requires var f := s.cpus[c].stack.top; f.t != t
    requires s' == AdvanceCreate(s, c, s.cpus[c].stack.top, ok)
    ensures Settled(s, s', c, TurnOf(s.cpus[c].stack.top, Advance(ok)), t, rest, seen)
  {
    hide Known, Settled, Holding, AdvanceCreate, Local, Passed, PassedOn;
    CreateLocal(s, s', c, ok);
    CreateElsewhere(s, s', c, ok, t);
    Bystander(s, s', c, TurnOf(s.cpus[c].stack.top, Advance(ok)), t, rest, seen);
  }

  lemma {:induction false} CreateOwn(s: State, s': State, c: CpuId, ok: bool, t: Tid, rest: Held, seen: Seen)
    requires Ready(s, c, t, rest, seen) && InCreate(s.cpus[c].stack.top) && LockFree(s, s.cpus[c].stack.top)
    requires s' == AdvanceCreate(s, c, s.cpus[c].stack.top, ok)
    requires s.cpus[c].stack.top.t == t
    ensures Settled(s, s', c, TurnOf(s.cpus[c].stack.top, Advance(ok)), t, rest, seen)
  {
    hide Balanced, Known, Kept, KeptBelow, Holding;
    var f := s.cpus[c].stack.top;
    var th, q, current := At(s, t), Queued(s, t), s.cpus[c].current;
    match f
    case CreateBoxed(_) => CreateBoxedStep(th, q, rest, current, t, seen);
    case CreateKernel(_) => CreateKernelStep(th, q, rest, current, t, seen);
    case CreateReturning(_) => CreateReturningStep(th, q, rest, current, t, seen);
  }

  lemma {:induction false} CreateSteps(s: State, s': State, c: CpuId, ok: bool, t: Tid, rest: Held, seen: Seen)
    requires Ready(s, c, t, rest, seen) && InCreate(s.cpus[c].stack.top) && LockFree(s, s.cpus[c].stack.top)
    requires s' == AdvanceCreate(s, c, s.cpus[c].stack.top, ok)
    ensures Settled(s, s', c, TurnOf(s.cpus[c].stack.top, Advance(ok)), t, rest, seen)
  {
    hide Known, Settled, AdvanceCreate, TurnOf, LockFree;
    var f := s.cpus[c].stack.top;
    if f.t != t {
      CreateBystander(s, s', c, ok, t, rest, seen);
    } else {
      CreateOwn(s, s', c, ok, t, rest, seen);
    }
  }

  predicate InReturn(f: Frame) {
    f.Returning? || f.ReturnCloned? || f.Requeueing? || f.Releasing?
  }

  lemma {:induction false} ReturnLocal(s: State, s': State, c: CpuId, ok: bool)
    requires c < |s.cpus| && WellStacked(s.cpus[c].stack, s.cpus[c].current) && InReturn(s.cpus[c].stack.top)
    requires s' == AdvanceReturn(s, c, s.cpus[c].stack.top, ok)
    ensures Local(s, s', c, TurnOf(s.cpus[c].stack.top, Advance(ok)))
  {
    hide At;
  }

  lemma {:induction false} ReturnElsewhere(s: State, s': State, c: CpuId, ok: bool, t: Tid)
    requires c < |s.cpus| && WellStacked(s.cpus[c].stack, s.cpus[c].current) && s.event == None
    requires InReturn(s.cpus[c].stack.top)
    requires var f := s.cpus[c].stack.top; Subject(f) != Some(t)
    requires s' == AdvanceReturn(s, c, s.cpus[c].stack.top, ok)
    ensures Passed(s, s', t)
  {
  }

  lemma {:induction false} ReturnTurn(s: State, s': State, c: CpuId, ok: bool, t: Tid)
    requires c < |s.cpus| && WellStacked(s.cpus[c].stack, s.cpus[c].current) && s.event == None
    requires InReturn(s.cpus[c].stack.top)
    requires var f := s.cpus[c].stack.top; Subject(f) != Some(t)
    requires s' == AdvanceReturn(s, c, s.cpus[c].stack.top, ok)
    ensures PassedOn(s, s', c, TurnOf(s.cpus[c].stack.top, Advance(ok)), t)
  {
    hide At;
  }

  lemma {:induction false} ReturnBystander(s: State, s': State, c: CpuId, ok: bool, t: Tid, rest: Held, seen: Seen)
    requires Ready(s, c, t, rest, seen) && InReturn(s.cpus[c].stack.top)
    requires var f := s.cpus[c].stack.top; Subject(f) != Some(t)
    requires s' == AdvanceReturn(s, c, s.cpus[c].stack.top, ok)
    ensures Settled(s, s', c, TurnOf(s.cpus[c].stack.top, Advance(ok)), t, rest, seen)
  {
    hide Known, Settled, Holding, AdvanceReturn, Local, Passed, PassedOn;
    ReturnLocal(s, s', c, ok);
    ReturnElsewhere(s, s', c, ok, t);
    ReturnTurn(s, s', c, ok, t);
    Bystander(s, s', c, TurnOf(s.cpus[c].stack.top, Advance(ok)), t, rest, seen);
  }

  lemma {:induction false} ReturnBegins(s: State, s': State, c: CpuId, ok: bool, t: Tid, rest: Held, seen: Seen)
    requires Ready(s, c, t, rest, seen) && InReturn(s.cpus[c].stack.top) && LockFree(s, s.cpus[c].stack.top)
    requires s' == AdvanceReturn(s, c, s.cpus[c].stack.top, ok)
    requires Subject(s.cpus[c].stack.top) == Some(t)
    requires s.cpus[c].stack.top.Returning? || s.cpus[c].stack.top.ReturnCloned?
    ensures Settled(s, s', c, TurnOf(s.cpus[c].stack.top, Advance(ok)), t, rest, seen)
  {
    hide Balanced, Known, Kept, KeptBelow, Holding;
    var f := s.cpus[c].stack.top;
    var th, q, current := At(s, t), Queued(s, t), s.cpus[c].current;
    match f
    case Returning(_) => ReturningStep(th, q, rest, current, t, seen);
    case ReturnCloned(_) => ReturnClonedStep(th, q, rest, current, t, seen);
  }

  lemma {:induction false} ReturnEnds(s: State, s': State, c: CpuId, ok: bool, t: Tid, rest: Held, seen: Seen)
    requires Ready(s, c, t, rest, seen) && InReturn(s.cpus[c].stack.top) && LockFree(s, s.cpus[c].stack.top)
    requires s' == AdvanceReturn(s, c, s.cpus[c].stack.top, ok)
    requires Subject(s.cpus[c].stack.top) == Some(t)
    requires s.cpus[c].stack.top.Requeueing? || s.cpus[c].stack.top.Releasing?
    ensures Settled(s, s', c, TurnOf(s.cpus[c].stack.top, Advance(ok)), t, rest, seen)
  {
    hide Balanced, Known, Kept, KeptBelow, Holding;
    var f := s.cpus[c].stack.top;
    var th, q, current := At(s, t), Queued(s, t), s.cpus[c].current;
    match f
    case Requeueing(_) => RequeueingStep(th, q, rest, current, t, seen);
    case Releasing(_) => ReleasingStep(th, q, rest, current, t, seen);
  }

  lemma {:induction false} ReturnSteps(s: State, s': State, c: CpuId, ok: bool, t: Tid, rest: Held, seen: Seen)
    requires Ready(s, c, t, rest, seen) && InReturn(s.cpus[c].stack.top) && LockFree(s, s.cpus[c].stack.top)
    requires s' == AdvanceReturn(s, c, s.cpus[c].stack.top, ok)
    ensures Settled(s, s', c, TurnOf(s.cpus[c].stack.top, Advance(ok)), t, rest, seen)
  {
    hide Known, Settled, AdvanceReturn, TurnOf, LockFree;
    var f := s.cpus[c].stack.top;
    if Subject(f) != Some(t) {
      ReturnBystander(s, s', c, ok, t, rest, seen);
    } else {
      if f.Returning? || f.ReturnCloned? {
        ReturnBegins(s, s', c, ok, t, rest, seen);
      } else {
        ReturnEnds(s, s', c, ok, t, rest, seen);
      }
    }
  }

  lemma {:induction false} PickingBystander(s: State, s': State, c: CpuId, ok: bool, t: Tid, rest: Held, seen: Seen)
    requires Ready(s, c, t, rest, seen) && s.cpus[c].stack.top.Picking? && (s.queue == [] || s.queue[0] != t)
    requires s' == AdvancePick(s, c, s.cpus[c].stack.top)
    ensures Settled(s, s', c, Continues, t, rest, seen)
  {
    hide Known, Settled, Holding;
    PickLocal(s, s', c, ok);
    if s.queue != [] { QueuedPop(s.queue, t); }
    Bystander(s, s', c, Continues, t, rest, seen);
  }

  lemma {:induction false} EnterStep(s: State, s': State, c: CpuId, t: Tid, rest: Held, seen: Seen)
    requires Ready(s, c, t, rest, seen) && s.cpus[c].stack.top == Entering(t)
    requires s' == AdvancePick(s, c, s.cpus[c].stack.top)
    ensures Settled(s, s', c, Continues, t, rest, seen)
  {
    hide Balanced, Known, Holding, Allowed;
    var th, q, current := At(s, t), Queued(s, t), s.cpus[c].current;
    if current == Some(t) {
      ReenteringStep(th, q, rest, current, t, seen);
    } else {
      EnteringStep(th, q, rest, current, t, seen);
    }
  }

  lemma {:induction false} LeaveStep(s: State, s': State, c: CpuId, t: Tid, rest: Held, seen: Seen)
    requires Ready(s, c, t, rest, seen) && s.cpus[c].current == Some(t)
    requires var f := s.cpus[c].stack.top; f.Clearing? || (f.Entering? && f.t != t)
    requires s' == AdvancePick(s, c, s.cpus[c].stack.top)
    ensures Settled(s, s', c, Continues, t, rest, seen)
  {
    hide Balanced, Known, Kept, Holding;
    var th, q, current, f := At(s, t), Queued(s, t), s.cpus[c].current, s.cpus[c].stack.top;
    if f.Clearing? {
      ClearingStep(th, q, rest, current, t, seen);
    } else {
      LeavingStep(th, q, rest, current, t, seen, f.t);
    }
  }

  predicate InPick(f: Frame) {
    f.Picking? || f.Popped? || f.Clearing? || f.Entering? || f.Switching?
  }

  lemma {:induction false} PickLocal(s: State, s': State, c: CpuId, ok: bool)
    requires c < |s.cpus| && WellStacked(s.cpus[c].stack, s.cpus[c].current) && InPick(s.cpus[c].stack.top)
    requires s' == AdvancePick(s, c, s.cpus[c].stack.top)
    ensures Local(s, s', c, TurnOf(s.cpus[c].stack.top, Advance(ok)))
  {
    hide At;
  }

  lemma {:induction false} PickElsewhere(s: State, s': State, c: CpuId, ok: bool, t: Tid)
    requires c < |s.cpus| && WellStacked(s.cpus[c].stack, s.cpus[c].current) && s.event == None
    requires InPick(s.cpus[c].stack.top)
    requires var f := s.cpus[c].stack.top;
      !f.Picking? && Subject(f) != Some(t) && (f.Clearing? || f.Entering? ==> s.cpus[c].current != Some(t))
    requires s' == AdvancePick(s, c, s.cpus[c].stack.top)
    ensures Passed(s, s', t)
  {
  }

  lemma {:induction false} PickTurn(s: State, s': State, c: CpuId, ok: bool, t: Tid)
    requires c < |s.cpus| && WellStacked(s.cpus[c].stack, s.cpus[c].current) && s.event == None
    requires InPick(s.cpus[c].stack.top)
    requires var f := s.cpus[c].stack.top;
      !f.Picking? && Subject(f) != Some(t) && (f.Clearing? || f.Entering? ==> s.cpus[c].current != Some(t))
    requires s' == AdvancePick(s, c, s.cpus[c].stack.top)
    ensures PassedOn(s, s', c, TurnOf(s.cpus[c].stack.top, Advance(ok)), t)
  {
    hide At;
  }

  lemma {:induction false} PickBystander(s: State, s': State, c: CpuId, ok: bool, t: Tid, rest: Held, seen: Seen)
    requires Ready(s, c, t, rest, seen) && InPick(s.cpus[c].stack.top)
    requires var f := s.cpus[c].stack.top;
      !f.Picking? && Subject(f) != Some(t) && (f.Clearing? || f.Entering? ==> s.cpus[c].current != Some(t))
    requires s' == AdvancePick(s, c, s.cpus[c].stack.top)
    ensures Settled(s, s', c, TurnOf(s.cpus[c].stack.top, Advance(ok)), t, rest, seen)
  {
    hide Known, Settled, Holding, AdvancePick, Local, Passed, PassedOn;
    PickLocal(s, s', c, ok);
    PickElsewhere(s, s', c, ok, t);
    PickTurn(s, s', c, ok, t);
    Bystander(s, s', c, TurnOf(s.cpus[c].stack.top, Advance(ok)), t, rest, seen);
  }

  lemma {:induction false} PickingSteps(s: State, s': State, c: CpuId, ok: bool, t: Tid, rest: Held, seen: Seen)
    requires Ready(s, c, t, rest, seen) && s.cpus[c].stack.top.Picking?
    requires s' == AdvancePick(s, c, s.cpus[c].stack.top)
    ensures Settled(s, s', c, Continues, t, rest, seen)
  {
    hide Balanced, Known, Kept, KeptBelow, Holding;
    if s.queue == [] || s.queue[0] != t {
      PickingBystander(s, s', c, ok, t, rest, seen);
    } else {
      QueuedPop(s.queue, t);
      PickingStep(At(s, t), Queued(s, t), rest, s.cpus[c].current, t, seen);
    }
  }

  lemma {:induction false} PickedSteps(s: State, s': State, c: CpuId, ok: bool, t: Tid, rest: Held, seen: Seen)
    requires Ready(s, c, t, rest, seen) && LockFree(s, s.cpus[c].stack.top)
    requires s.cpus[c].stack.top == Popped(t) || s.cpus[c].stack.top == Switching(t)
    requires s' == AdvancePick(s, c, s.cpus[c].stack.top)
    ensures Settled(s, s', c, Continues, t, rest, seen)
  {
    hide Balanced, Known, Kept, KeptBelow, Holding;
    var th, q, current := At(s, t), Queued(s, t), s.cpus[c].current;
    if s.cpus[c].stack.top.Popped? {
      PoppedStep(th, q, rest, current, t, seen);
    } else {
      SwitchingStep(th, q, rest, current, t, seen);
    }
  }

  lemma {:induction false} PickSteps(s: State, s': State, c: CpuId, ok: bool, t: Tid, rest: Held, seen: Seen)
    requires Ready(s, c, t, rest, seen) && InPick(s.cpus[c].stack.top) && LockFree(s, s.cpus[c].stack.top)
    requires s' == AdvancePick(s, c, s.cpus[c].stack.top)
    ensures Settled(s, s', c, TurnOf(s.cpus[c].stack.top, Advance(ok)), t, rest, seen)
  {
    hide Settled, Known, AdvancePick, LockFree;
    var f := s.cpus[c].stack.top;
    if f.Picking? {
      PickingSteps(s, s', c, ok, t, rest, seen);
    } else if Subject(f) == Some(t) {
      if f.Entering? { EnterStep(s, s', c, t, rest, seen); } else { PickedSteps(s, s', c, ok, t, rest, seen); }
    } else if (f.Clearing? || f.Entering?) && s.cpus[c].current == Some(t) {
      LeaveStep(s, s', c, t, rest, seen);
    } else {
      PickBystander(s, s', c, ok, t, rest, seen);
    }
  }

  lemma {:induction false} HandlerLocal(s: State, s': State, c: CpuId, a: Action)
    requires c < |s.cpus| && WellStacked(s.cpus[c].stack, s.cpus[c].current) && Enabled(s, c, a) && !a.Advance?
    requires s' == Perform(s, c, a)
    ensures Local(s, s', c, TurnOf(s.cpus[c].stack.top, a))
  {
    hide At;
  }

  lemma {:induction false} EntrySteps(s: State, s': State, c: CpuId, a: Action, t: Tid, rest: Held, seen: Seen)
    requires Ready(s, c, t, rest, seen) && (a.Trap? || a.Interrupt?) && Enabled(s, c, a)
    requires s' == Perform(s, c, a)
    ensures Settled(s, s', c, TurnOf(s.cpus[c].stack.top, a), t, rest, seen)
  {
    hide Balanced, Known, Kept, Holding;
    if s.cpus[c].stack.top == InUser(t) {
      TrapStep(At(s, t), Queued(s, t), rest, s.cpus[c].current, t, seen);
    } else {
      HandlerLocal(s, s', c, a);
      Bystander(s, s', c, Continues, t, rest, seen);
    }
  }

  lemma {:induction false} HandlerElsewhere(s: State, s': State, c: CpuId, t: Tid)
    requires c < |s.cpus| && WellStacked(s.cpus[c].stack, s.cpus[c].current) && s.event == None
    requires Enabled(s, c, HandlerReturns) && Subject(s.cpus[c].stack.top) != Some(t)
    requires s' == Perform(s, c, HandlerReturns)
    ensures Passed(s, s', t)
  {
  }

  lemma {:induction false} HandlerTurn(s: State, s': State, c: CpuId, t: Tid)
    requires c < |s.cpus| && WellStacked(s.cpus[c].stack, s.cpus[c].current) && s.event == None
    requires Enabled(s, c, HandlerReturns) && Subject(s.cpus[c].stack.top) != Some(t)
    requires s' == Perform(s, c, HandlerReturns)
    ensures PassedOn(s, s', c, TurnOf(s.cpus[c].stack.top, HandlerReturns), t)
  {
    hide At;
  }

  lemma {:induction false} HandlerBystander(s: State, s': State, c: CpuId, t: Tid, rest: Held, seen: Seen)
    requires Ready(s, c, t, rest, seen) && Enabled(s, c, HandlerReturns) && Subject(s.cpus[c].stack.top) != Some(t)
    requires s' == Perform(s, c, HandlerReturns)
    ensures Settled(s, s', c, TurnOf(s.cpus[c].stack.top, HandlerReturns), t, rest, seen)
  {
    hide Known, Settled, Holding, Local, Passed, PassedOn, Perform, Enabled;
    HandlerLocal(s, s', c, HandlerReturns);
    HandlerElsewhere(s, s', c, t);
    HandlerTurn(s, s', c, t);
    Bystander(s, s', c, TurnOf(s.cpus[c].stack.top, HandlerReturns), t, rest, seen);
  }

  lemma {:induction false} HandlerReturnsSteps(s: State, s': State, c: CpuId, t: Tid, rest: Held, seen: Seen)
    requires Ready(s, c, t, rest, seen) && Enabled(s, c, HandlerReturns)
    requires s' == Perform(s, c, HandlerReturns)
    ensures Settled(s, s', c, TurnOf(s.cpus[c].stack.top, HandlerReturns), t, rest, seen)
  {
    hide Balanced, Known, Kept, KeptBelow, Holding;
    var f := s.cpus[c].stack.top;
    if f == InSyscallUpcall(t) {
      InSyscallUpcallStep(At(s, t), Queued(s, t), rest, s.cpus[c].current, t, seen);
    } else if f == InTerminatedUpcall(t) {
      InTerminatedUpcallStep(At(s, t), Queued(s, t), rest, s.cpus[c].current, t, seen);
    } else {
      HandlerBystander(s, s', c, t, rest, seen);
    }
  }

  /** A thread that server code does not name keeps its balance. */
  lemma {:induction false} Unnamed(s: State, s': State, c: CpuId, turn: Turn, t: Tid, rest: Held, seen: Seen)
    requires Ready(s, c, t, rest, seen) && Local(s, s', c, turn) && !turn.Returns?
    requires Passed(s, s', t) && GoesOn(s, s', c, turn, t)
    ensures Settled(s, s', c, turn, t, rest, seen)
  {
    hide Balanced, Holding, Subject;
  }

  /** The CPU goes on where it was, or calls something that does not concern the thread. */
  predicate GoesOn(s: State, s': State, c: CpuId, turn: Turn, t: Tid) {
    && c < |s.cpus| == |s'.cpus| && s.cpus[c].stack.Push? && s'.cpus[c].stack.Push?
    && s'.cpus[c].current == s.cpus[c].current
    && (turn.Continues? ==> s'.cpus[c].stack.top == s.cpus[c].stack.top)
    && (turn.Calls? ==> s'.cpus[c].stack.rest == s.cpus[c].stack && Subject(s'.cpus[c].stack.top) != Some(t))
  }

  lemma {:induction false} ServerElsewhere(s: State, s': State, c: CpuId, a: Action, t: Tid)
    requires c < |s.cpus| && WellStacked(s.cpus[c].stack, s.cpus[c].current) && s.event == None && Enabled(s, c, a)
    requires a.CallTerminate? || a.CallUnblock? || a.CallContext? || a.ShareArc? || a.DropArc? || a.CallCreate?
    requires a.u != t && s' == Perform(s, c, a)
    ensures Passed(s, s', t)
  {
  }

  lemma {:induction false} ServerTurn(s: State, s': State, c: CpuId, a: Action, t: Tid)
    requires c < |s.cpus| && WellStacked(s.cpus[c].stack, s.cpus[c].current) && s.event == None && Enabled(s, c, a)
    requires a.CallTerminate? || a.CallUnblock? || a.CallContext? || a.ShareArc? || a.DropArc? || a.CallCreate?
    requires a.u != t && s' == Perform(s, c, a)
    ensures GoesOn(s, s', c, TurnOf(s.cpus[c].stack.top, a), t)
  {
    hide At;
  }

  lemma {:induction false} ServerBystander(s: State, s': State, c: CpuId, a: Action, t: Tid, rest: Held, seen: Seen)
    requires Ready(s, c, t, rest, seen) && Enabled(s, c, a)
    requires a.CallTerminate? || a.CallUnblock? || a.CallContext? || a.ShareArc? || a.DropArc? || a.CallCreate?
    requires a.u != t && s' == Perform(s, c, a)
    ensures Settled(s, s', c, TurnOf(s.cpus[c].stack.top, a), t, rest, seen)
  {
    hide Known, Settled, Holding, Perform, Enabled, Local, Passed, GoesOn;
    HandlerLocal(s, s', c, a);
    ServerElsewhere(s, s', c, a, t);
    ServerTurn(s, s', c, a, t);
    Unnamed(s, s', c, TurnOf(s.cpus[c].stack.top, a), t, rest, seen);
  }

  lemma {:induction false} CallThreadGoes(s: State, s': State, c: CpuId, a: Action, t: Tid)
    requires c < |s.cpus| && WellStacked(s.cpus[c].stack, s.cpus[c].current) && s.event == None && Enabled(s, c, a)
    requires (a.CallTerminate? || a.CallUnblock? || a.CallContext?) && a.u == t && s' == Perform(s, c, a)
    ensures var th, f := At(s, t), s.cpus[c].stack.top;
      && RunsServer(f) && th.published && th.arcs > 0 && s'.event == None
      && At(s', t) == th.(counter := th.counter + 1) && Queued(s', t) == Queued(s, t) && c < |s'.cpus|
      && s'.cpus[c].current == s.cpus[c].current && s'.cpus[c].stack.Push? && s'.cpus[c].stack.rest == s.cpus[c].stack
      && s'.cpus[c].stack.top in {TerminateCalled(t), UnblockCalled(t), ContextCalled(t)}
  {
  }

  lemma {:induction false} CallThreadSteps(s: State, s': State, c: CpuId, a: Action, t: Tid, rest: Held, seen: Seen)
    requires Ready(s, c, t, rest, seen) && Enabled(s, c, a)
    requires (a.CallTerminate? || a.CallUnblock? || a.CallContext?) && a.u == t
    requires s' == Perform(s, c, a)
    ensures Settled(s, s', c, TurnOf(s.cpus[c].stack.top, a), t, rest, seen)
  {
    hide Balanced, Known, Kept, Holding;
    CallThreadGoes(s, s', c, a, t);
    hide Perform, Enabled;
    var th, q, current, f := At(s, t), Queued(s, t), s.cpus[c].current, s.cpus[c].stack.top;
    CallThreadStep(th, q, rest, current, t, seen, f, s'.cpus[c].stack.top);
  }

  lemma {:induction false} ShareArcSteps(s: State, s': State, c: CpuId, a: Action, t: Tid, rest: Held, seen: Seen)
    requires Ready(s, c, t, rest, seen) && Enabled(s, c, a)
    requires a.ShareArc? && a.u == t
    requires s' == Perform(s, c, a)
    ensures Settled(s, s', c, TurnOf(s.cpus[c].stack.top, a), t, rest, seen)
  {
    hide Balanced, Known, Kept, Holding;
    var th, q, current, f := At(s, t), Queued(s, t), s.cpus[c].current, s.cpus[c].stack.top;
    ShareArcStep(th, q, rest, current, t, seen, f);
  }

  lemma {:induction false} DropArcSteps(s: State, s': State, c: CpuId, a: Action, t: Tid, rest: Held, seen: Seen)
    requires Ready(s, c, t, rest, seen) && Enabled(s, c, a)
    requires a.DropArc? && a.u == t
    requires s' == Perform(s, c, a)
    ensures Settled(s, s', c, TurnOf(s.cpus[c].stack.top, a), t, rest, seen)
  {
    hide Balanced, Known, Kept, Holding;
    var th, q, current, f := At(s, t), Queued(s, t), s.cpus[c].current, s.cpus[c].stack.top;
    DropArcStep(th, q, rest, current, t, seen, f);
  }

  lemma {:induction false} CallCreateSteps(s: State, s': State, c: CpuId, a: Action, t: Tid, rest: Held, seen: Seen)
    requires Ready(s, c, t, rest, seen) && Enabled(s, c, a)
    requires a.CallCreate? && a.u == t
    requires s' == Perform(s, c, a)
    ensures Settled(s, s', c, TurnOf(s.cpus[c].stack.top, a), t, rest, seen)
  {
    hide Balanced, Known, Kept, Holding;
    var th, q, current, f := At(s, t), Queued(s, t), s.cpus[c].current, s.cpus[c].stack.top;
    CallCreateStep(th, q, rest, current, t, seen, f);
  }

  lemma {:induction false} ServerSteps(s: State, s': State, c: CpuId, a: Action, t: Tid, rest: Held, seen: Seen)
    requires Ready(s, c, t, rest, seen) && Enabled(s, c, a)
    requires a.CallTerminate? || a.CallUnblock? || a.CallContext? || a.ShareArc? || a.DropArc? || a.CallCreate?
    requires s' == Perform(s, c, a)
    ensures Settled(s, s', c, TurnOf(s.cpus[c].stack.top, a), t, rest, seen)
  {
    hide Ready, Settled, Enabled, Perform, TurnOf;
    if a.u != t {
      ServerBystander(s, s', c, a, t, rest, seen);
    } else {
      match a
      case ShareArc(_) => ShareArcSteps(s, s', c, a, t, rest, seen);
      case DropArc(_) => DropArcSteps(s, s', c, a, t, rest, seen);
      case CallCreate(_) => CallCreateSteps(s, s', c, a, t, rest, seen);
      case _ => CallThreadSteps(s, s', c, a, t, rest, seen);
    }
  }

  lemma {:induction false} ThreadStep(s: State, s': State, c: CpuId, a: Action, t: Tid, rest: Held, seen: Seen)
    requires Ready(s, c, t, rest, seen) && Enabled(s, c, a) && s' == Perform(s, c, a)
    ensures Settled(s, s', c, TurnOf(s.cpus[c].stack.top, a), t, rest, seen)
  {
    hide Ready, Settled, AdvanceSyscall, AdvanceCall, AdvanceUnblock, AdvanceCreate, AdvanceReturn, AdvancePick,
      ReturnFromHandler;
    var f := s.cpus[c].stack.top;
    match a
    case Advance(ok) =>
      if InSyscall(f) { SyscallSteps(s, s', c, ok, t, rest, seen); }
      else if InCall(f) { CallSteps(s, s', c, ok, t, rest, seen); }
      else if InUnblock(f) { UnblockSteps(s, s', c, ok, t, rest, seen); }
      else if InCreate(f) { CreateSteps(s, s', c, ok, t, rest, seen); }
      else if InReturn(f) { ReturnSteps(s, s', c, ok, t, rest, seen); }
      else { PickSteps(s, s', c, ok, t, rest, seen); }
    case HandlerReturns => HandlerReturnsSteps(s, s', c, t, rest, seen);
    case Trap | Interrupt => EntrySteps(s, s', c, a, t, rest, seen);
    case _ => ServerSteps(s, s', c, a, t, rest, seen);
  }
}
