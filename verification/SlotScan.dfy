/** `_try_acquire` and `acquire` as they run, with the steps of everybody else in between:
    core/gpu_lock.py, over the machine of SlotLock. */
module SlotScan {
  import opened Options
  import opened SlotLock

  datatype Outcome = Got(slot: nat, fd: nat) | Full | Raised | Cancelled

  /** What the surroundings do to one scan: the steps of others between the scan's own, and the
      slots whose file cannot be opened, or whose lock call fails for another reason. */
  datatype Attempt = Attempt(rivals: seq<seq<Action>>, openFails: set<nat>, lockFails: set<nat>)

  function Batch(a: Attempt, n: nat): seq<Action> {
    if n < |a.rivals| then a.rivals[n] else []
  }

  predicate Foreign(a: Action, me: Task) {
    if a.Crash? then a.pid != me.pid else a.task != me
  }

  lemma {:induction false} ForeignLeavesPhase(s: State, a: Action, me: Task)
    requires Enabled(s, a) && Foreign(a, me)
    ensures PhaseOf(Apply(s, a), me) == PhaseOf(s, me)
  {
  }

  /** During the part of the run from index `from` on, `me` stayed in a scan. */
  ghost predicate Stayed(s: State, log: seq<Action>, from: nat, me: Task)
    requires Legal(s, log)
  {
    forall m :: from <= m <= |log| ==> InScan(PhaseOf(At(s, log, m), me))
  }

  lemma {:induction false} StayedExtends(s: State, log: seq<Action>, a: Action, from: nat, me: Task)
    requires Legal(s, log) && Stayed(s, log, from, me)
    requires Legal(s, log + [a]) && InScan(PhaseOf(After(s, log + [a]), me))
    ensures Stayed(s, log + [a], from, me)
  {
    var more := log + [a];
    assert more[..|log|] == log && more[..|more|] == more;
    forall m | from <= m <= |more| ensures InScan(PhaseOf(At(s, more, m), me)) {
      if m <= |log| {
        AtPrefix(s, more, |log|, m);
      }
    }
  }

  /** Each of the first n slots was in another task's hands at some moment since `from`. */
  ghost predicate SawHeldUpTo(s: State, log: seq<Action>, from: nat, me: Task, n: nat)
    requires Legal(s, log)
  {
    forall k: nat {:trigger SawHeld(s, log, from, me, k)} :: k < n ==> SawHeld(s, log, from, me, k)
  }

  lemma {:induction false} StayedSaw(s: State, log: seq<Action>, from: nat, me: Task, n: nat)
    requires WellFormed(s) && Legal(s, log) && from <= |log|
    requires PhaseOf(At(s, log, from), me) == Scanning(0)
    requires forall m :: from <= m < |log| ==> InScan(PhaseOf(At(s, log, m), me))
    requires forall k: nat :: k < n ==> PassedBy(After(s, log), me, k)
    ensures SawHeldUpTo(s, log, from, me, n)
  {
    forall k: nat | k < n ensures SawHeld(s, log, from, me, k) {
      ScanSees(s, log, from, me, k);
    }
  }

  lemma {:induction false} SawExtends(s: State, log: seq<Action>, from: nat, me: Task, n: nat)
    requires Legal(s, log) && log != [] && SawHeldUpTo(s, log[..|log| - 1], from, me, n)
    ensures SawHeldUpTo(s, log, from, me, n)
  {
    forall k: nat | k < n ensures SawHeld(s, log, from, me, k) {
      SawHeldExtends(s, log, from, me, k);
    }
  }

  class Kernel {
    var state: State
    ghost const start: State
    ghost var log: seq<Action>

    ghost predicate Valid()
      reads this
    {
      WellFormed(start) && Legal(start, log) && state == After(start, log)
    }

    constructor (slots: int)
      ensures Valid() && state == Initial(slots) && log == []
    {
      state, start, log := Initial(slots), Initial(slots), [];
    }

    method Perform(a: Action)
      requires Valid() && Enabled(state, a)
      modifies this
      ensures Valid()
      ensures state == Apply(old(state), a) && log == old(log) + [a]
    {
      assert (log + [a])[..|log|] == log;
      state, log := Apply(state, a), log + [a];
    }

    /** `me` began a scan at `from` and is still in it. */
    ghost predicate Scanned(me: Task, from: nat)
      reads this
    {
      && Valid() && from <= |log| && Stayed(start, log, from, me)
      && PhaseOf(At(start, log, from), me) == Scanning(0)
    }

    /** One step, of anybody, that keeps the scan going. */
    method Advance(me: Task, a: Action, ghost from: nat)
      requires Scanned(me, from) && Enabled(state, a) && InScan(PhaseOf(Apply(state, a), me))
      modifies this
      ensures Scanned(me, from) && log == old(log) + [a] && state == Apply(old(state), a)
    {
      ghost var was := log;
      Perform(a);
      StayedExtends(start, was, a, from, me);
      assert log[..|was|] == was;
      AtPrefix(start, log, |was|, from);
    }

    /** The others move; whatever of the batch is not theirs to do, or not possible, is skipped. */
    method Interleave(me: Task, batch: seq<Action>, ghost from: nat)
      requires Scanned(me, from) && InScan(PhaseOf(state, me))
      modifies this
      ensures Scanned(me, from) && old(log) <= log
      ensures PhaseOf(state, me) == old(PhaseOf(state, me)) && state.slots == old(state.slots)
    {
      for i := 0 to |batch|
        invariant Scanned(me, from) && old(log) <= log
        invariant PhaseOf(state, me) == old(PhaseOf(state, me)) && state.slots == old(state.slots)
      {
        if Foreign(batch[i], me) && Enabled(state, batch[i]) {
          ForeignLeavesPhase(state, batch[i], me);
          Advance(me, batch[i], from);
        }
      }
    }

    /** A step that ends the scan: everything passed over by then has been seen held. */
    method Leave(me: Task, a: Action, n: nat, ghost from: nat)
      requires Scanned(me, from) && Enabled(state, a)
      requires forall k: nat :: k < n ==> PassedBy(state, me, k)
      modifies this
      ensures Valid() && log == old(log) + [a] && state == Apply(old(state), a)
      ensures SawHeldUpTo(start, log, from, me, n)
    {
      StayedSaw(start, log, from, me, n);
      ghost var was := log;
      Perform(a);
      assert log[..|log| - 1] == was;
      SawExtends(start, log, from, me, n);
    }

    lemma {:induction false} NothingLeft(me: Task)
      requires Valid() && !HasFd(PhaseOf(state, me))
      ensures OwnsNothing(state, me)
    {
      RunKeepsWellFormed(start, log);
      forall fd | fd in state.open ensures state.open[fd].task != me {
        assert FdWell(state, fd);
      }
    }

    /** The lock call and what follows it; None when the slot was taken and its descriptor is
        closed again. */
    method TryLock(me: Task, k: nat, around: Attempt, ghost from: nat) returns (r: Option<Outcome>)
      requires Scanned(me, from) && PhaseOf(state, me).Opened? && PhaseOf(state, me).slot == k
      modifies this
      ensures Valid() && old(log) <= log && state.slots == old(state.slots)
      ensures Progress(r, me, k, from)
    {
      if k in around.lockFails {
        Perform(LockFails(me));
        Perform(Close(me));
        return Some(Raised);
      }
      if k !in state.locks {
        r := Some(Got(k, PhaseOf(state, me).fd));
        Leave(me, Lock(me), k, from);
        return;
      }
      Advance(me, Lock(me), from);
      Interleave(me, Batch(around, 3 * k + 2), from);
      Advance(me, Close(me), from);
      r := None;
    }

    /** What one round of the loop comes to. */
    ghost predicate Progress(r: Option<Outcome>, me: Task, k: nat, from: nat)
      reads this
      requires Valid()
    {
      match r
      case None => Scanned(me, from) && PhaseOf(state, me) == Scanning(k + 1)
      case Some(Raised) => PhaseOf(state, me) == Idle
      case Some(Got(slot, fd)) =>
        slot == k && PhaseOf(state, me) == Holding(k, fd) && SawHeldUpTo(start, log, from, me, k)
      case _ => false
    }

    method TrySlot(me: Task, k: nat, around: Attempt, ghost from: nat) returns (r: Option<Outcome>)
      requires Scanned(me, from) && PhaseOf(state, me) == Scanning(k) && k < state.slots
      modifies this
      ensures Valid() && old(log) <= log && state.slots == old(state.slots)
      ensures Progress(r, me, k, from)
    {
      Interleave(me, Batch(around, 3 * k), from);
      if k in around.openFails {
        Perform(OpenFails(me));
        return Some(Raised);
      }
      Advance(me, Open(me), from);
      Interleave(me, Batch(around, 3 * k + 1), from);
      r := TryLock(me, k, around, from);
    }

    /** One scan over the slot files. Whatever the others do meanwhile: success holds a slot, every
        slot passed over was seen in another task's hands, and any other outcome leaves no
        descriptor and no lock behind. */
    method TryAcquire(me: Task, around: Attempt) returns (r: Outcome)
      requires Valid() && (PhaseOf(state, me) == Idle || PhaseOf(state, me) == Waiting)
      modifies this
      ensures Valid() && old(log) < log && state.slots == old(state.slots) && !r.Cancelled?
      ensures r.Got? ==> PhaseOf(state, me) == Holding(r.slot, r.fd)
      ensures r.Full? ==> PhaseOf(state, me) == Waiting
      ensures r.Raised? ==> PhaseOf(state, me) == Idle
      ensures !r.Got? ==> OwnsNothing(state, me)
      ensures r.Full? ==> SawHeldUpTo(start, log, |old(log)| + 1, me, state.slots)
      ensures r.Got? ==> SawHeldUpTo(start, log, |old(log)| + 1, me, r.slot)
    {
      Perform(Begin(me));
      ghost var from := |log|;
      assert log[..from] == log;
      var k := 0;
      while k < state.slots
        invariant Scanned(me, from) && old(log) < log && state.slots == old(state.slots)
        invariant k <= state.slots && PhaseOf(state, me) == Scanning(k)
        decreases state.slots - k
      {
        var got := TrySlot(me, k, around, from);
        if got != None {
          if got.value == Raised {
            NothingLeft(me);
          }
          return got.value;
        }
        k := k + 1;
      }
      Leave(me, GiveUp(me), state.slots, from);
      NothingLeft(me);
      r := Full;
    }

    /** `acquire` up to its `yield`: scan, sleep and scan again. The sleep after the last attempt
        listed is the one the caller is cancelled in; whatever the ending, only success leaves a
        descriptor open. */
    method Acquire(me: Task, attempts: seq<Attempt>) returns (r: Outcome)
      requires Valid() && PhaseOf(state, me) == Idle
      modifies this
      ensures Valid() && old(log) <= log && !r.Full?
      ensures r.Got? <==> PhaseOf(state, me).Holding?
      ensures r.Got? ==> PhaseOf(state, me) == Holding(r.slot, r.fd)
      ensures !r.Got? ==> PhaseOf(state, me) == Idle && OwnsNothing(state, me)
    {
      var i := 0;
      while i < |attempts|
        invariant Valid() && old(log) <= log
        invariant PhaseOf(state, me) == Idle || PhaseOf(state, me) == Waiting
      {
        r := TryAcquire(me, attempts[i]);
        if !r.Full? {
          return;
        }
        i := i + 1;
      }
      if PhaseOf(state, me) == Waiting {
        Perform(Cancel(me));
      }
      NothingLeft(me);
      r := Cancelled;
    }

    /** The `finally` of `acquire`: closing the descriptor gives up that slot and no other. */
    method Release(me: Task)
      requires Valid() && PhaseOf(state, me).Holding?
      modifies this
      ensures Valid() && OwnsNothing(state, me)
      ensures state.locks.Keys == old(state.locks.Keys) - {old(PhaseOf(state, me).slot)}
      ensures state.open == old(state.open) - {old(PhaseOf(state, me).fd)}
    {
      RunKeepsWellFormed(start, log);
      ReleaseFreesSlot(state, me);
      Perform(Close(me));
      NothingLeft(me);
    }
  }
}
