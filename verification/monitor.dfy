/**
 A monitor for the thread, upcall and reference-count protocol.

 It judges a whole run from the outside, by the sequence of events alone: it knows
 nothing of run queues, program counters, locks or counters.
 */
module Monitor {

  type Tid = nat

  datatype Event =
    | Made(t: Tid)          // the kernel thread object was allocated
    | Init(t: Tid)          // the upcall's user data was written
    | Begin(t: Tid)         // a Syscall upcall starts borrowing the user data
    | End(t: Tid)           // a Syscall upcall stopped borrowing it
    | Requested(t: Tid)     // terminate() was accepted
    | Reclaimed(t: Tid)     // the Terminated upcall took the user data back
    | Entered(t: Tid)       // a CPU starts running the thread in user mode
    | Left(t: Tid)          // that CPU is back in the kernel, registers saved
    | Context(t: Tid)       // the saved registers were read or written
    | Discarded(t: Tid)     // the scheduler threw a run-queue entry away
    | Freed(t: Tid)         // the kernel thread object was freed
    | AssertFailed(t: Tid)  // handle_syscall found the thread not runnable

  /** What an observer has seen of one thread. */
  datatype Seen = Seen(
    made: bool, init: bool, requested: bool, reclaimed: bool, freed: bool,
    upcalls: int, running: int)

  const Unseen := Seen(false, false, false, false, false, 0, 0)

  function Observe(seen: Seen, e: Event): Seen {
    match e
    case Made(_) => seen.(made := true)
    case Init(_) => seen.(init := true)
    case Begin(_) => seen.(upcalls := seen.upcalls + 1)
    case End(_) => seen.(upcalls := seen.upcalls - 1)
    case Requested(_) => seen.(requested := true)
    case Reclaimed(_) => seen.(reclaimed := true)
    case Entered(_) => seen.(running := seen.running + 1)
    case Left(_) => seen.(running := seen.running - 1)
    case Freed(_) => seen.(freed := true)
    case Context(_) | Discarded(_) | AssertFailed(_) => seen
  }

  /** Everything seen of thread `t` in a log. */
  function History(log: seq<Event>, t: Tid): Seen {
    if log == [] then Unseen
    else
      var before := History(log[..|log| - 1], t);
      var e := log[|log| - 1];
      if e.t == t then Observe(before, e) else before
  }

  /** Whether the protocol allows event `e` on a thread of which `seen` has been seen. */
  predicate Allowed(seen: Seen, e: Event) {
    !seen.freed &&
    match e
    case Made(_) => !seen.made
    case Init(_) => seen.made && !seen.init
    case Begin(_) => seen.init && !seen.requested && !seen.reclaimed
    case End(_) => seen.init && !seen.reclaimed && seen.upcalls > 0
    case Requested(_) => seen.init && !seen.requested && !seen.reclaimed
    case Reclaimed(_) => seen.init && seen.requested && !seen.reclaimed && seen.upcalls == 0
    case Entered(_) => seen.init && seen.running == 0
    case Left(_) => seen.running == 1
    case Context(_) => seen.init && seen.running == 0
    case Discarded(_) => seen.requested
    case Freed(_) => seen.made && seen.running == 0 && seen.upcalls == 0 && (seen.init ==> seen.reclaimed)
    case AssertFailed(_) => false
  }

  predicate Lawful(log: seq<Event>) {
    log == [] ||
    (Lawful(log[..|log| - 1]) && Allowed(History(log[..|log| - 1], log[|log| - 1].t), log[|log| - 1]))
  }

  lemma Append(log: seq<Event>, e: Event)
    ensures forall t :: History(log + [e], t) == if e.t == t then Observe(History(log, t), e) else History(log, t)
    ensures Lawful(log + [e]) <==> Lawful(log) && Allowed(History(log, e.t), e)
  {
    assert (log + [e])[..|log|] == log;
  }
}
