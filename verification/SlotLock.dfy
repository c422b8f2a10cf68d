/** The cross-process slot lock as interleaved steps: core/gpu_lock.py. */
module SlotLock {

  /** One coroutine inside `acquire`; several may share a process. */
  datatype Task = Task(pid: nat, num: nat)

  /** Where a task stands. A descriptor exists exactly in the phases that carry one. */
  datatype Phase =
    | Idle
    | Scanning(slot: nat)             // about to open this slot's file
    | Opened(slot: nat, fd: nat)      // about to try the lock
    | Refused(slot: nat, fd: nat)     // the lock was taken: about to close
    | Erring(slot: nat, fd: nat)      // another error: about to close and raise
    | Holding(slot: nat, fd: nat)
    | Waiting                         // the scan found nothing: sleeping

  datatype Lease = Lease(task: Task, slot: nat)

  /** The kernel's view: open descriptors (never reused here) and who holds each file's lock. */
  datatype State = State(
    slots: nat,
    phase: map<Task, Phase>,
    open: map<nat, Lease>,
    locks: map<nat, nat>,
    next: nat)

  datatype Action =
    | Begin(task: Task)
    | Open(task: Task)
    | OpenFails(task: Task)
    | Lock(task: Task)
    | LockFails(task: Task)
    | Close(task: Task)
    | GiveUp(task: Task)
    | Cancel(task: Task)
    | Crash(pid: nat)

  function Initial(slots: int): State {
    State(if slots > 1 then slots else 1, map[], map[], map[], 0)
  }

  function PhaseOf(s: State, t: Task): Phase {
    if t in s.phase then s.phase[t] else Idle
  }

  predicate HasFd(p: Phase) {
    p.Opened? || p.Refused? || p.Erring? || p.Holding?
  }

  predicate Enabled(s: State, a: Action) {
    match a
    case Begin(t) => PhaseOf(s, t) == Idle || PhaseOf(s, t) == Waiting
    case Open(t) => PhaseOf(s, t).Scanning? && PhaseOf(s, t).slot < s.slots
    case OpenFails(t) => PhaseOf(s, t).Scanning? && PhaseOf(s, t).slot < s.slots
    case Lock(t) => PhaseOf(s, t).Opened?
    case LockFails(t) => PhaseOf(s, t).Opened?
    case Close(t) => PhaseOf(s, t).Refused? || PhaseOf(s, t).Erring? || PhaseOf(s, t).Holding?
    case GiveUp(t) => PhaseOf(s, t).Scanning? && PhaseOf(s, t).slot >= s.slots
    case Cancel(t) => PhaseOf(s, t) == Waiting
    case Crash(_) => true
  }

  function To(s: State, t: Task, p: Phase): State {
    s.(phase := s.phase[t := p])
  }

  /** Closing a descriptor also drops the lock it holds. */
  function Closed(s: State, fd: nat): State {
    s.(open := s.open - {fd},
       locks := map k | k in s.locks && s.locks[k] != fd :: s.locks[k])
  }

  /** The death of a process: its coroutines are gone and every descriptor of it is closed. */
  function Crashed(s: State, pid: nat): State {
    s.(phase := map t | t in s.phase && t.pid != pid :: s.phase[t],
       open := map fd | fd in s.open && s.open[fd].task.pid != pid :: s.open[fd],
       locks := map k | k in s.locks &&
                        !(s.locks[k] in s.open && s.open[s.locks[k]].task.pid == pid) :: s.locks[k])
  }

  function Apply(s: State, a: Action): State
    requires Enabled(s, a)
  {
    match a
    case Begin(t) => To(s, t, Scanning(0))
    case Open(t) =>
      var k := PhaseOf(s, t).slot;
      To(s, t, Opened(k, s.next)).(open := s.open[s.next := Lease(t, k)], next := s.next + 1)
    case OpenFails(t) => To(s, t, Idle)
    case Lock(t) =>
      var p := PhaseOf(s, t);
      if p.slot in s.locks then To(s, t, Refused(p.slot, p.fd))
      else To(s, t, Holding(p.slot, p.fd)).(locks := s.locks[p.slot := p.fd])
    case LockFails(t) => To(s, t, Erring(PhaseOf(s, t).slot, PhaseOf(s, t).fd))
    case Close(t) =>
      var p := PhaseOf(s, t);
      To(Closed(s, p.fd), t, if p.Refused? then Scanning(p.slot + 1) else Idle)
    case GiveUp(t) => To(s, t, Waiting)
    case Cancel(t) => To(s, t, Idle)
    case Crash(pid) => Crashed(s, pid)
  }

  // ---- runs ----

  ghost predicate Legal(s: State, log: seq<Action>)
    decreases |log|, 0
  {
    log == [] ||
    (Legal(s, log[..|log| - 1]) && Enabled(After(s, log[..|log| - 1]), log[|log| - 1]))
  }

  ghost function After(s: State, log: seq<Action>): (r: State)
    requires Legal(s, log)
    ensures r.slots == s.slots
    decreases |log|, 1
  {
    if log == [] then s else Apply(After(s, log[..|log| - 1]), log[|log| - 1])
  }

  lemma {:induction false} LegalPrefix(s: State, log: seq<Action>, m: nat)
    requires Legal(s, log) && m <= |log|
    ensures Legal(s, log[..m])
  {
    if m == |log| {
      assert log[..m] == log;
    } else {
      var init := log[..|log| - 1];
      LegalPrefix(s, init, m);
      assert init[..m] == log[..m];
    }
  }

  /** The state a run had reached after its first m steps. */
  ghost function At(s: State, log: seq<Action>, m: nat): State
    requires Legal(s, log) && m <= |log|
  {
    LegalPrefix(s, log, m);
    After(s, log[..m])
  }

  // ---- the invariant ----

  predicate TaskWell(s: State, t: Task) {
    var p := PhaseOf(s, t);
    && (HasFd(p) ==> p.fd in s.open && s.open[p.fd] == Lease(t, p.slot))
    && (p.Holding? ==> p.slot in s.locks && s.locks[p.slot] == p.fd)
    && (p.Scanning? ==> p.slot <= s.slots)
  }

  predicate FdWell(s: State, fd: nat)
    requires fd in s.open
  {
    var p := PhaseOf(s, s.open[fd].task);
    fd < s.next && s.open[fd].slot < s.slots && HasFd(p) && p.fd == fd && p.slot == s.open[fd].slot
  }

  predicate LockWell(s: State, k: nat)
    requires k in s.locks
  {
    s.locks[k] in s.open && PhaseOf(s, s.open[s.locks[k]].task) == Holding(k, s.locks[k])
  }

  /** Every descriptor is the one its task is using, and a slot is locked exactly while held. */
  predicate WellFormed(s: State) {
    && s.slots >= 1
    && (forall t :: t in s.phase ==> TaskWell(s, t))
    && (forall fd :: fd in s.open ==> FdWell(s, fd))
    && (forall k :: k in s.locks ==> LockWell(s, k))
  }

  lemma {:induction false} MoveKeeps(s: State, t: Task, p: Phase)
    requires WellFormed(s) && !HasFd(PhaseOf(s, t)) && !HasFd(p)
    requires p.Scanning? ==> p.slot <= s.slots
    ensures WellFormed(To(s, t, p))
  {
    var r := To(s, t, p);
    assert t in s.phase ==> TaskWell(s, t);
    forall fd | fd in r.open ensures FdWell(r, fd) {
      assert FdWell(s, fd);
    }
    forall k | k in r.locks ensures LockWell(r, k) {
      assert LockWell(s, k);
    }
    forall u | u in r.phase ensures TaskWell(r, u) {
      assert u in s.phase ==> TaskWell(s, u);
    }
  }

  lemma {:induction false} OpenKeeps(s: State, t: Task)
    requires WellFormed(s) && Enabled(s, Open(t))
    ensures WellFormed(Apply(s, Open(t)))
  {
    var r := Apply(s, Open(t));
    forall fd | fd in r.open ensures FdWell(r, fd) {
      assert fd in s.open ==> FdWell(s, fd);
    }
    forall k | k in r.locks ensures LockWell(r, k) {
      assert LockWell(s, k) && FdWell(s, s.locks[k]);
    }
    forall u | u in r.phase ensures TaskWell(r, u) {
      assert u in s.phase ==> TaskWell(s, u);
      assert u in s.phase && HasFd(s.phase[u]) ==> FdWell(s, s.phase[u].fd);
    }
  }

  lemma {:induction false} LockKeeps(s: State, t: Task)
    requires WellFormed(s) && Enabled(s, Lock(t))
    ensures WellFormed(Apply(s, Lock(t)))
  {
    var r := Apply(s, Lock(t));
    assert TaskWell(s, t);
    forall fd | fd in r.open ensures FdWell(r, fd) {
      assert FdWell(s, fd);
    }
    forall k | k in r.locks ensures LockWell(r, k) {
      assert k in s.locks ==> LockWell(s, k);
    }
    forall u | u in r.phase ensures TaskWell(r, u) {
      assert TaskWell(s, u);
    }
  }

  lemma {:induction false} LockFailsKeeps(s: State, t: Task)
    requires WellFormed(s) && Enabled(s, LockFails(t))
    ensures WellFormed(Apply(s, LockFails(t)))
  {
    var r := Apply(s, LockFails(t));
    assert TaskWell(s, t);
    forall fd | fd in r.open ensures FdWell(r, fd) {
      assert FdWell(s, fd);
    }
    forall k | k in r.locks ensures LockWell(r, k) {
      assert LockWell(s, k);
    }
    forall u | u in r.phase ensures TaskWell(r, u) {
      assert TaskWell(s, u);
    }
  }

  lemma {:induction false} CloseKeeps(s: State, t: Task)
    requires WellFormed(s) && Enabled(s, Close(t))
    ensures WellFormed(Apply(s, Close(t)))
  {
    var r := Apply(s, Close(t));
    assert TaskWell(s, t) && FdWell(s, PhaseOf(s, t).fd);
    forall fd | fd in r.open ensures FdWell(r, fd) {
      assert FdWell(s, fd);
    }
    forall k | k in r.locks ensures LockWell(r, k) {
      assert LockWell(s, k);
    }
    forall u | u in r.phase ensures TaskWell(r, u) {
      assert u in s.phase ==> TaskWell(s, u);
    }
  }

  lemma {:induction false} CrashKeeps(s: State, pid: nat)
    requires WellFormed(s)
    ensures WellFormed(Crashed(s, pid))
  {
    var r := Crashed(s, pid);
    forall fd | fd in r.open ensures FdWell(r, fd) {
      assert FdWell(s, fd);
    }
    forall k | k in r.locks ensures LockWell(r, k) {
      assert LockWell(s, k);
    }
    forall u | u in r.phase ensures TaskWell(r, u) {
      assert TaskWell(s, u);
    }
  }

  lemma {:induction false} StepKeepsWellFormed(s: State, a: Action)
    requires WellFormed(s) && Enabled(s, a)
    ensures WellFormed(Apply(s, a))
  {
    match a
    case Begin(t) => MoveKeeps(s, t, Scanning(0));
    case Open(t) => OpenKeeps(s, t);
    case OpenFails(t) => MoveKeeps(s, t, Idle);
    case Lock(t) => LockKeeps(s, t);
    case LockFails(t) => LockFailsKeeps(s, t);
    case Close(t) => CloseKeeps(s, t);
    case GiveUp(t) => MoveKeeps(s, t, Waiting);
    case Cancel(t) => MoveKeeps(s, t, Idle);
    case Crash(pid) => CrashKeeps(s, pid);
  }

  lemma {:induction false} RunKeepsWellFormed(s: State, log: seq<Action>)
    requires WellFormed(s) && Legal(s, log)
    ensures WellFormed(After(s, log))
  {
    if log != [] {
      var init := log[..|log| - 1];
      RunKeepsWellFormed(s, init);
      StepKeepsWellFormed(After(s, init), log[|log| - 1]);
    }
  }

  // ---- at most `slots` holders, no slot with two ----

  function Holders(s: State): set<Task> {
    set t | t in s.phase && s.phase[t].Holding?
  }

  function Taken(s: State): set<nat> {
    set k | k in s.locks
  }

  function SlotsOf(s: State, ts: set<Task>): set<nat>
    requires ts <= Holders(s)
  {
    set t | t in ts :: s.phase[t].slot
  }

  predicate HeldBy(s: State, k: nat, t: Task) {
    PhaseOf(s, t).Holding? && PhaseOf(s, t).slot == k
  }

  lemma {:induction false} OneHolderPerSlot(s: State, t: Task, u: Task, k: nat)
    requires WellFormed(s) && HeldBy(s, k, t) && HeldBy(s, k, u)
    ensures t == u
  {
    assert TaskWell(s, t) && TaskWell(s, u);
  }

  function Upto(n: nat): (r: set<nat>)
    ensures forall k: nat :: k in r <==> k < n
    ensures |r| == n
  {
    if n == 0 then {}
    else
      var rest := Upto(n - 1);
      assert n - 1 !in rest;
      rest + {n - 1}
  }

  lemma {:induction false} SubsetSize<T>(a: set<T>, b: set<T>)
    requires a <= b
    ensures |a| <= |b| && (|a| == |b| <==> b <= a)
  {
    assert b == a + (b - a);
    assert b <= a ==> a == b;
  }

  /** Holders and locked slots correspond one to one. */
  lemma {:induction false} SameSize(s: State, ts: set<Task>, ks: set<nat>)
    requires WellFormed(s)
    requires ts <= Holders(s) && ks == SlotsOf(s, ts)
    ensures |ts| == |ks|
  {
    if ts == {} {
      assert ks == {};
    } else {
      var t :| t in ts;
      var k := s.phase[t].slot;
      forall u | u in ts - {t} ensures s.phase[u].slot != k {
        if s.phase[u].slot == k {
          OneHolderPerSlot(s, t, u, k);
        }
      }
      assert ks - {k} == SlotsOf(s, ts - {t});
      SameSize(s, ts - {t}, ks - {k});
    }
  }

  lemma {:induction false} LockedIsHeld(s: State)
    requires WellFormed(s)
    ensures SlotsOf(s, Holders(s)) == Taken(s) && Taken(s) <= Upto(s.slots)
  {
    forall k | k in s.locks ensures k in SlotsOf(s, Holders(s)) {
      assert LockWell(s, k);
      var t := s.open[s.locks[k]].task;
      assert t in Holders(s) && s.phase[t].slot == k;
    }
    forall t | t in Holders(s) ensures s.phase[t].slot in Taken(s) && s.phase[t].slot < s.slots {
      assert TaskWell(s, t) && FdWell(s, s.phase[t].fd);
    }
  }

  lemma {:induction false} HoldersAndSlots(s: State)
    requires WellFormed(s)
    ensures |Holders(s)| <= s.slots
    ensures |Holders(s)| == s.slots <==> Upto(s.slots) <= Taken(s)
  {
    LockedIsHeld(s);
    SameSize(s, Holders(s), Taken(s));
    SubsetSize(Taken(s), Upto(s.slots));
  }

  /** In every reachable state: at most `slots` holders, and while there are fewer, some slot is
      free. A slot is never lost to a task that no longer uses it. */
  lemma {:induction false} HoldersFillSlots(start: int, log: seq<Action>)
    requires Legal(Initial(start), log)
    ensures var s := After(Initial(start), log);
      && |Holders(s)| <= s.slots
      && (|Holders(s)| == s.slots <==> forall k: nat :: k < s.slots ==> k in Taken(s))
  {
    RunKeepsWellFormed(Initial(start), log);
    HoldersAndSlots(After(Initial(start), log));
  }

  // ---- crash and release ----

  /** A crash frees exactly the slots its process held, leaves none of its descriptors open and
      changes nothing for any other process. */
  lemma {:induction false} CrashFreesItsSlots(s: State, pid: nat, k: nat)
    requires WellFormed(s)
    ensures var r := Apply(s, Crash(pid));
      && (k in r.locks <==> exists t: Task :: t.pid != pid && HeldBy(s, k, t))
      && (forall fd :: fd in r.open ==> r.open[fd].task.pid != pid)
      && (forall t: Task :: t.pid != pid ==> PhaseOf(r, t) == PhaseOf(s, t))
      && (forall fd :: fd in s.open && s.open[fd].task.pid != pid ==> fd in r.open)
  {
    var r := Apply(s, Crash(pid));
    if k in s.locks {
      assert LockWell(s, k);
      var t := s.open[s.locks[k]].task;
      assert HeldBy(s, k, t);
      forall u | HeldBy(s, k, u) ensures u == t {
        OneHolderPerSlot(s, t, u, k);
      }
    } else {
      forall t ensures !HeldBy(s, k, t) {
        assert t in s.phase ==> TaskWell(s, t);
      }
    }
  }

  /** Leaving `acquire` frees the slot it held, that slot only, and its descriptor. */
  lemma {:induction false} ReleaseFreesSlot(s: State, t: Task)
    requires WellFormed(s) && PhaseOf(s, t).Holding?
    ensures var r := Apply(s, Close(t));
      && r.locks.Keys == s.locks.Keys - {PhaseOf(s, t).slot}
      && r.open == s.open - {PhaseOf(s, t).fd}
      && PhaseOf(r, t) == Idle
  {
    var p := PhaseOf(s, t);
    assert TaskWell(s, t);
    forall k | k in s.locks && s.locks[k] == p.fd ensures k == p.slot {
      assert LockWell(s, k);
    }
  }

  // ---- the scan ----

  predicate InScan(p: Phase) {
    p.Scanning? || p.Opened? || p.Refused?
  }

  ghost predicate HeldByOther(s: State, k: nat, t: Task) {
    exists u :: u != t && HeldBy(s, k, u)
  }

  ghost predicate SawHeld(s: State, log: seq<Action>, from: nat, t: Task, k: nat)
    requires Legal(s, log)
  {
    exists m :: from <= m < |log| && HeldByOther(At(s, log, m), k, t)
  }

  /** The scan has already been refused slot k. */
  predicate PassedBy(s: State, t: Task, k: nat) {
    match PhaseOf(s, t)
    case Scanning(j) => k < j
    case Opened(j, _) => k < j
    case Refused(j, _) => k <= j
    case Waiting => k < s.slots
    case _ => false
  }

  ghost predicate ScanningSince(s: State, log: seq<Action>, from: nat, t: Task)
    requires Legal(s, log) && from <= |log|
  {
    && PhaseOf(At(s, log, from), t) == Scanning(0)
    && forall m :: from <= m < |log| ==> InScan(PhaseOf(At(s, log, m), t))
  }

  lemma {:induction false} AtPrefix(s: State, log: seq<Action>, n: nat, m: nat)
    requires Legal(s, log) && m <= n <= |log|
    ensures Legal(s, log[..n]) && At(s, log[..n], m) == At(s, log, m)
  {
    LegalPrefix(s, log, n);
    assert log[..n][..m] == log[..m];
  }

  lemma {:induction false} SawHeldExtends(s: State, log: seq<Action>, from: nat, t: Task, k: nat)
    requires Legal(s, log) && log != []
    requires SawHeld(s, log[..|log| - 1], from, t, k)
    ensures SawHeld(s, log, from, t, k)
  {
    var init := log[..|log| - 1];
    var m :| from <= m < |init| && HeldByOther(At(s, init, m), k, t);
    AtPrefix(s, log, |log| - 1, m);
  }

  /** A task that is refused a slot sees it in another task's hands. */
  lemma {:induction false} RefusalSeesHolder(s: State, t: Task)
    requires WellFormed(s) && PhaseOf(s, t).Opened? && PhaseOf(s, t).slot in s.locks
    ensures HeldByOther(s, PhaseOf(s, t).slot, t)
  {
    var k := PhaseOf(s, t).slot;
    assert LockWell(s, k);
    assert HeldBy(s, k, s.open[s.locks[k]].task);
  }

  /** One step of anybody takes a scan past slot k only when k is in another task's hands. */
  lemma {:induction false} StepPasses(s: State, a: Action, t: Task, k: nat)
    requires WellFormed(s) && Enabled(s, a) && InScan(PhaseOf(s, t))
    requires PassedBy(Apply(s, a), t, k)
    ensures PassedBy(s, t, k) || HeldByOther(s, k, t)
  {
    var p := PhaseOf(s, t);
    if p.Opened? && p.slot in s.locks {
      RefusalSeesHolder(s, t);
    }
  }

  lemma {:induction false} ScanSees(s: State, log: seq<Action>, from: nat, t: Task, k: nat)
    requires WellFormed(s) && Legal(s, log) && from <= |log|
    requires ScanningSince(s, log, from, t)
    requires PassedBy(After(s, log), t, k)
    ensures SawHeld(s, log, from, t, k)
  {
    assert log[..|log|] == log;
    if from < |log| {
      var n := |log| - 1;
      var init := log[..n];
      assert At(s, log, n) == After(s, init);
      RunKeepsWellFormed(s, init);
      StepPasses(After(s, init), log[n], t, k);
      if PassedBy(After(s, init), t, k) {
        ScanningPrefix(s, log, from, t);
        ScanSees(s, init, from, t, k);
        SawHeldExtends(s, log, from, t, k);
      }
    }
  }

  lemma {:induction false} ScanningPrefix(s: State, log: seq<Action>, from: nat, t: Task)
    requires Legal(s, log) && from < |log| && ScanningSince(s, log, from, t)
    ensures ScanningSince(s, log[..|log| - 1], from, t)
  {
    var n := |log| - 1;
    AtPrefix(s, log, n, from);
    forall m | from <= m < n ensures InScan(PhaseOf(At(s, log[..n], m), t)) {
      AtPrefix(s, log, n, m);
    }
  }

  ghost predicate OwnsNothing(s: State, t: Task) {
    && (forall fd :: fd in s.open ==> s.open[fd].task != t)
    && (forall k :: k in s.locks ==> !HeldBy(s, k, t))
  }

  /** A scan that comes back empty-handed closed every descriptor it opened, and saw each slot in
      another task's hands at some moment of the scan. */
  lemma {:induction false} FailedScan(s: State, log: seq<Action>, from: nat, t: Task)
    requires WellFormed(s) && Legal(s, log) && from <= |log|
    requires ScanningSince(s, log, from, t)
    requires PhaseOf(After(s, log), t) == Waiting
    ensures OwnsNothing(After(s, log), t)
    ensures forall k: nat :: k < s.slots ==> SawHeld(s, log, from, t, k)
  {
    RunKeepsWellFormed(s, log);
    var r := After(s, log);
    forall fd | fd in r.open ensures r.open[fd].task != t {
      assert FdWell(r, fd);
    }
    forall k: nat | k < s.slots ensures SawHeld(s, log, from, t, k) {
      ScanSees(s, log, from, t, k);
    }
  }

  /** So a slot that nobody else holds from start to end of a scan cannot be missed. */
  lemma {:induction false} FreeSlotIsFound(s: State, log: seq<Action>, from: nat, t: Task, k: nat)
    requires WellFormed(s) && Legal(s, log) && from <= |log| && k < s.slots
    requires ScanningSince(s, log, from, t)
    requires forall m :: from <= m < |log| ==> !HeldByOther(At(s, log, m), k, t)
    ensures PhaseOf(After(s, log), t) != Waiting
  {
    var saw := SawHeld(s, log, from, t, k);
    if PhaseOf(After(s, log), t) == Waiting {
      FailedScan(s, log, from, t);
    }
  }

  // ---- how a task gets on ----

  /** There are as many slots as configured, and one at least; at first no lock is held and no
      descriptor open. */
  lemma {:induction false} SlotsAre(start: int, log: seq<Action>, t: Task)
    requires Legal(Initial(start), log)
    ensures After(Initial(start), log).slots == if start >= 1 then start else 1
    ensures PhaseOf(Initial(start), t) == Idle && Initial(start).open == map[] && Initial(start).locks == map[]
  {
  }

  /** A task that is idle or asleep can scan from the first slot; at each slot it can open the file, try
      the lock, and holds the slot exactly when nobody did; if not, it closes and goes on to the next
      slot; past the last it goes to sleep. */
  lemma {:induction false} TaskGetsOn(s: State, t: Task, k: nat, fd: nat)
    ensures PhaseOf(s, t) == Idle || PhaseOf(s, t) == Waiting ==>
              Enabled(s, Begin(t)) && PhaseOf(Apply(s, Begin(t)), t) == Scanning(0)
    ensures PhaseOf(s, t) == Scanning(k) && k < s.slots ==>
              Enabled(s, Open(t)) && PhaseOf(Apply(s, Open(t)), t) == Opened(k, s.next) &&
              !Enabled(s, GiveUp(t))
    ensures PhaseOf(s, t) == Opened(k, fd) ==>
              Enabled(s, Lock(t)) &&
              PhaseOf(Apply(s, Lock(t)), t) == if k in s.locks then Refused(k, fd) else Holding(k, fd)
    ensures PhaseOf(s, t) == Opened(k, fd) && k !in s.locks ==> Apply(s, Lock(t)).locks == s.locks[k := fd]
    ensures PhaseOf(s, t) == Refused(k, fd) ==>
              Enabled(s, Close(t)) && PhaseOf(Apply(s, Close(t)), t) == Scanning(k + 1)
    ensures PhaseOf(s, t) == Scanning(k) && k >= s.slots ==>
              Enabled(s, GiveUp(t)) && PhaseOf(Apply(s, GiveUp(t)), t) == Waiting && !Enabled(s, Open(t))
  {
  }
}
