/** The exclusive-section protocol of cpus-common.c.

Any number of CPU threads run `cpu_exec_start`/`cpu_exec_end` around guest code and may, outside
of it, run `start_exclusive`/`end_exclusive`.  They share one lock, one counter (`pending_cpus`),
two condition variables and two flags per CPU.  `running` and `pending_cpus` are read and written
without the lock, so every such access is a step of its own; `has_waiter` is only touched under
the lock.  Memory is sequentially consistent, which is what the full barriers in the code buy.
*/
module Exclusive {
  import opened Wrappers

  /** Where a thread stands.  Names starting with Sx, Ex, St and En belong to start_exclusive,
      end_exclusive, cpu_exec_start and cpu_exec_end. */
  datatype Pc =
    | Idle                           // outside cpu_exec and outside any exclusive section
    | SxLock                         // about to take the lock (first time, or after a wake-up)
    | SxCheck                        // exclusive_idle: test pending_cpus
    | SxAsleep                       // asleep on exclusive_resume
    | SxAnnounce                     // about to set pending_cpus to 1
    | SxScan(cpu: nat, count: nat)   // about to look at `cpu`
    | SxPublish(count: nat)          // about to set pending_cpus to count + 1
    | SxWait                         // test pending_cpus > 1
    | SxBlocked                      // asleep on exclusive_cond
    | SxRelock                       // woken, about to take the lock again
    | SxUnlock
    | Exclusive                      // start_exclusive has returned
    | ExLock
    | ExClear                        // about to set pending_cpus to 0
    | ExBroadcast
    | ExUnlock
    | StRead                         // running is set, about to read pending_cpus
    | StLock
    | StTest                         // test has_waiter
    | StRetract                      // about to clear running
    | StIdle                         // exclusive_idle: test pending_cpus
    | StAsleep                       // asleep on exclusive_resume
    | StRelock
    | StResume                       // about to set running again
    | StUnlock
    | Running                        // cpu_exec_start has returned, cpu_exec_end has not begun
    | EnRead                         // running is cleared, about to read pending_cpus
    | EnLock
    | EnTest                         // test has_waiter
    | EnSignal
    | EnUnlock

  datatype State = State(
    pc: seq<Pc>,
    running: seq<bool>,
    waiter: seq<bool>,               // has_waiter
    pending: int,                    // pending_cpus
    lock: Option<nat>,               // who holds qemu_cpu_list_lock
    owner: Option<nat>)              // history: who made pending_cpus non-zero; no step reads it

  ghost predicate Init(s: State) {
    && |s.running| == |s.pc| && |s.waiter| == |s.pc|
    && (forall t :: 0 <= t < |s.pc| ==> s.pc[t] == Idle && !s.running[t] && !s.waiter[t])
    && s.pending == 0 && s.lock == None && s.owner == None
  }

  function Go(s: State, t: nat, p: Pc): State
    requires t < |s.pc|
  {
    s.(pc := s.pc[t := p])
  }

  function Acquire(s: State, t: nat, p: Pc): State
    requires t < |s.pc|
  {
    Go(s, t, p).(lock := Some(t))
  }

  function Release(s: State, t: nat, p: Pc): State
    requires t < |s.pc|
  {
    Go(s, t, p).(lock := None)
  }

  /** What a broadcast on exclusive_resume does to one thread. */
  function Wake(p: Pc): Pc {
    match p
    case SxAsleep => SxLock
    case StAsleep => StRelock
    case _ => p
  }

  ghost predicate WellShaped(s: State) {
    |s.running| == |s.pc| && |s.waiter| == |s.pc|
  }

  /** start_exclusive up to the announcement: wait for a running section to end. */
  ghost predicate Announce(s: State, t: nat, s': State)
    requires WellShaped(s) && t < |s.pc|
  {
    match s.pc[t]
    case SxLock => s.lock == None && s' == Acquire(s, t, SxCheck)
    case SxCheck => if s.pending != 0 then s' == Release(s, t, SxAsleep) else s' == Go(s, t, SxAnnounce)
    case SxAnnounce => s' == Go(s, t, SxScan(0, 0)).(pending := 1, owner := Some(t))
    case _ => false
  }

  /** The loop of start_exclusive over the CPUs: mark and count those that run. */
  ghost predicate Scan(s: State, t: nat, s': State)
    requires WellShaped(s) && t < |s.pc|
  {
    && s.pc[t].SxScan?
    && var SxScan(cpu, count) := s.pc[t];
       if cpu >= |s.pc| then s' == Go(s, t, SxPublish(count))
       else if s.running[cpu] then s' == Go(s, t, SxScan(cpu + 1, count + 1)).(waiter := s.waiter[cpu := true])
       else s' == Go(s, t, SxScan(cpu + 1, count))
  }

  /** The rest of start_exclusive: publish the count and wait for it to reach 1. */
  ghost predicate Collect(s: State, t: nat, s': State)
    requires WellShaped(s) && t < |s.pc|
  {
    match s.pc[t]
    case SxPublish(count) => s' == Go(s, t, SxWait).(pending := count + 1)
    case SxWait => if s.pending > 1 then s' == Release(s, t, SxBlocked) else s' == Go(s, t, SxUnlock)
    case SxRelock => s.lock == None && s' == Acquire(s, t, SxWait)
    case SxUnlock => s' == Release(s, t, Exclusive)
    case _ => false
  }

  /** The steps of end_exclusive. */
  ghost predicate EndExclusive(s: State, t: nat, s': State)
    requires WellShaped(s) && t < |s.pc|
  {
    match s.pc[t]
    case Exclusive => s' == Go(s, t, ExLock)
    case ExLock => s.lock == None && s' == Acquire(s, t, ExClear)
    case ExClear => s' == Go(s, t, ExBroadcast).(pending := 0, owner := None)
    case ExBroadcast => s' == s.(pc := seq(|s.pc|, i requires 0 <= i < |s.pc| => if i == t then ExUnlock else Wake(s.pc[i])))
    case ExUnlock => s' == Release(s, t, Idle)
    case _ => false
  }

  /** The steps of cpu_exec_start, after the thread has left Idle. */
  ghost predicate ExecStart(s: State, t: nat, s': State)
    requires WellShaped(s) && t < |s.pc|
  {
    match s.pc[t]
    case StRead => if s.pending != 0 then s' == Go(s, t, StLock) else s' == Go(s, t, Running)
    case StLock => s.lock == None && s' == Acquire(s, t, StTest)
    case StTest => s' == Go(s, t, if s.waiter[t] then StUnlock else StRetract)
    case StUnlock => s' == Release(s, t, Running)
    case _ => false
  }

  /** The branch of cpu_exec_start that lets an exclusive section go first. */
  ghost predicate StandBack(s: State, t: nat, s': State)
    requires WellShaped(s) && t < |s.pc|
  {
    match s.pc[t]
    case StRetract => s' == Go(s, t, StIdle).(running := s.running[t := false])
    case StIdle => if s.pending != 0 then s' == Release(s, t, StAsleep) else s' == Go(s, t, StResume)
    case StRelock => s.lock == None && s' == Acquire(s, t, StIdle)
    case StResume => s' == Go(s, t, StUnlock).(running := s.running[t := true])
    case _ => false
  }

  /** The steps of cpu_exec_end. */
  ghost predicate ExecEnd(s: State, t: nat, s': State)
    requires WellShaped(s) && t < |s.pc|
  {
    match s.pc[t]
    case Running => s' == Go(s, t, EnRead).(running := s.running[t := false])
    case EnRead => s' == Go(s, t, if s.pending != 0 then EnLock else Idle)
    case EnLock => s.lock == None && s' == Acquire(s, t, EnTest)
    case EnUnlock => s' == Release(s, t, Idle)
    case _ => false
  }

  /** The locked part of cpu_exec_end: a CPU that was counted takes itself off the count. */
  ghost predicate Countdown(s: State, t: nat, s': State)
    requires WellShaped(s) && t < |s.pc|
  {
    && s.pc[t] == EnTest
    && if s.waiter[t] then
         s' == Go(s, t, if s.pending - 1 == 1 then EnSignal else EnUnlock)
               .(waiter := s.waiter[t := false], pending := s.pending - 1)
       else
         s' == Go(s, t, EnUnlock)
  }

  /** Signalling exclusive_cond at the end of cpu_exec_end wakes one sleeper, `w`, ... */
  ghost predicate SignalTo(s: State, t: nat, w: nat, s': State)
    requires WellShaped(s) && t < |s.pc|
  {
    s.pc[t] == EnSignal && w < |s.pc| && s.pc[w] == SxBlocked && s' == Go(Go(s, t, EnUnlock), w, SxRelock)
  }

  /** ... if there is one. */
  ghost predicate SignalNone(s: State, t: nat, s': State)
    requires WellShaped(s) && t < |s.pc|
  {
    s.pc[t] == EnSignal && (forall w: nat :: w < |s.pc| ==> s.pc[w] != SxBlocked) && s' == Go(s, t, EnUnlock)
  }

  /** An idle thread decides to execute guest code or to ask for exclusivity. */
  ghost predicate Depart(s: State, t: nat, s': State)
    requires WellShaped(s) && t < |s.pc|
  {
    && s.pc[t] == Idle
    && (s' == Go(s, t, SxLock) || s' == Go(s, t, StRead).(running := s.running[t := true]))
  }

  /** Condition variables may wake a sleeper for no reason. */
  ghost predicate SpuriousWake(s: State, t: nat, s': State)
    requires WellShaped(s) && t < |s.pc|
  {
    match s.pc[t]
    case SxAsleep => s' == Go(s, t, SxLock)
    case StAsleep => s' == Go(s, t, StRelock)
    case SxBlocked => s' == Go(s, t, SxRelock)
    case _ => false
  }

  ghost predicate Step(s: State, t: nat, s': State)
    requires WellShaped(s) && t < |s.pc|
  {
    || Announce(s, t, s')
    || Scan(s, t, s')
    || Collect(s, t, s')
    || EndExclusive(s, t, s')
    || ExecStart(s, t, s')
    || StandBack(s, t, s')
    || ExecEnd(s, t, s')
    || Countdown(s, t, s')
    || SignalNone(s, t, s')
    || (exists w: nat :: SignalTo(s, t, w, s'))
  }

  ghost predicate Next(s: State, s': State) {
    && WellShaped(s)
    && exists t: nat :: t < |s.pc| && (Step(s, t, s') || Depart(s, t, s') || SpuriousWake(s, t, s'))
  }

  ghost predicate Run(states: seq<State>) {
    && |states| > 0
    && Init(states[0])
    && forall i :: 0 <= i < |states| - 1 ==> Next(states[i], states[i + 1])
  }

  // ---------------------------------------------------------------- invariant

  predicate HoldsLock(p: Pc) {
    match p
    case SxCheck | SxAnnounce | SxScan(_, _) | SxPublish(_) | SxWait | SxUnlock => true
    case ExClear | ExBroadcast | ExUnlock => true
    case StTest | StRetract | StIdle | StResume | StUnlock => true
    case EnTest | EnSignal | EnUnlock => true
    case _ => false
  }

  predicate RunningFlag(p: Pc) {
    match p
    case StRead | StLock | StTest | StRetract | StUnlock | Running => true
    case _ => false
  }

  /** The owner counts down the CPUs it found running. */
  predicate Draining(p: Pc) {
    p.SxWait? || p.SxBlocked? || p.SxRelock?
  }

  /** The owner has found the count to be 1. */
  predicate Granted(p: Pc) {
    p.SxUnlock? || p.Exclusive? || p.ExLock? || p.ExClear?
  }

  /** The thread has announced its exclusive section and not yet withdrawn it. */
  predicate Owns(p: Pc) {
    match p
    case SxScan(_, _) | SxPublish(_) => true
    case SxWait | SxBlocked | SxRelock => true
    case SxUnlock | Exclusive | ExLock | ExClear => true
    case _ => false
  }

  /** Where a CPU can be that the owner is waiting for. */
  predicate Counted(p: Pc) {
    match p
    case StRead | StLock | StTest | StUnlock | Running | EnRead | EnLock | EnTest => true
    case _ => false
  }

  ghost predicate Parked(p: Pc) {
    p.SxAsleep? || p.StAsleep?
  }

  function Count(w: seq<bool>): nat {
    if w == [] then 0 else Count(w[..|w| - 1]) + if w[|w| - 1] then 1 else 0
  }

  lemma {:induction false} CountUpdate(w: seq<bool>, i: nat, b: bool)
    requires i < |w|
    ensures Count(w[i := b]) == Count(w) - (if w[i] then 1 else 0) + (if b then 1 else 0)
  {
    var n := |w| - 1;
    if i == n {
      assert w[i := b][..n] == w[..n];
    } else {
      assert w[i := b][..n] == w[..n][i := b];
      CountUpdate(w[..n], i, b);
    }
  }

  lemma {:induction false} CountZero(w: seq<bool>)
    ensures Count(w) == 0 <==> forall i :: 0 <= i < |w| ==> !w[i]
  {
    if w != [] {
      CountZero(w[..|w| - 1]);
      assert forall i :: 0 <= i < |w| - 1 ==> w[i] == w[..|w| - 1][i];
    }
  }

  /** Has the owner at `p` already looked at CPU `u`? */
  predicate Scanned(p: Pc, u: nat) {
    if p.SxScan? then u < p.cpu else Owns(p)
  }

  ghost predicate LockHolderAt(s: State, p: Pc) {
    s.lock.Some? && s.lock.value < |s.pc| && s.pc[s.lock.value] == p
  }

  /** What holds of the counter, by the phase of the owner. */
  ghost predicate PhaseInv(s: State)
    requires WellShaped(s)
  {
    && (s.lock.Some? ==> s.lock.value < |s.pc|)
    && (s.owner.Some? ==> s.owner.value < |s.pc| && OwnerInv(s, s.pc[s.owner.value]))
    && (s.owner.None? ==> s.pending == 0 && Count(s.waiter) == 0)
  }

  ghost predicate OwnerInv(s: State, p: Pc)
    requires WellShaped(s)
  {
    match p
    case SxScan(cpu, count) =>
      && s.pending == 1 && cpu <= |s.pc| && count == Count(s.waiter)
      && (forall u: nat :: cpu <= u < |s.pc| ==> !s.waiter[u])
    case SxPublish(count) => s.pending == 1 && count == Count(s.waiter)
    case _ =>
      if Draining(p) then s.pending == 1 + Count(s.waiter)
      else Granted(p) && s.pending == 1 && Count(s.waiter) == 0
  }

  /** What holds of each thread. */
  ghost predicate ThreadInv(s: State, u: nat)
    requires WellShaped(s) && u < |s.pc|
  {
    var p := s.pc[u];
    && (HoldsLock(p) <==> s.lock == Some(u))
    && (Owns(p) <==> s.owner == Some(u))
    && s.running[u] == RunningFlag(p)
    && (s.waiter[u] ==> Counted(p))
    && (p == SxAnnounce || p == StResume || p == ExBroadcast ==> s.owner == None)
    && (p == StUnlock ==> s.waiter[u] || s.owner == None)
    && (p == Running && s.owner.Some? && s.owner.value < |s.pc| && Scanned(s.pc[s.owner.value], u) ==> s.waiter[u])
    && (p == SxBlocked ==> s.pending > 1 || LockHolderAt(s, EnSignal))
    && (Parked(p) ==> s.pending > 0 || LockHolderAt(s, ExBroadcast))
  }

  ghost predicate Inv(s: State) {
    && WellShaped(s)
    && PhaseInv(s)
    && forall u: nat :: u < |s.pc| ==> ThreadInv(s, u)
  }

  // ---------------------------------------------------------------- preservation

  lemma InitInv(s: State)
    requires Init(s)
    ensures Inv(s)
  {
    CountZero(s.waiter);
  }

  /** The invariant as far as thread `u` is concerned, without the phase of the owner. */
  ghost predicate Near(s: State, u: nat) {
    && WellShaped(s) && u < |s.pc|
    && s.pending >= 0
    && (s.pending == 0 <==> s.owner == None)
    && (s.lock.Some? ==> s.lock.value < |s.pc|)
    && (s.owner.Some? ==> s.owner.value < |s.pc| && Owns(s.pc[s.owner.value]))
    && ThreadInv(s, u)
    && (s.waiter[u] ==> s.owner.Some?)
  }

  lemma OwnerFacts(s: State, u: nat)
    requires Inv(s) && u < |s.pc|
    ensures Near(s, u)
    ensures s.waiter[u] && s.pc[u] == EnTest ==> s.pending > 1 && Draining(s.pc[s.owner.value])
  {
    CountZero(s.waiter);
    assert ThreadInv(s, u);
    if s.owner.Some? {
      assert ThreadInv(s, s.owner.value);
    }
  }

  lemma AnnounceSelf(s: State, t: nat, s': State)
    requires Near(s, t) && Announce(s, t, s')
    ensures WellShaped(s') && |s'.pc| == |s.pc| && ThreadInv(s', t)
  {
  }

  lemma AnnounceRest(s: State, t: nat, s': State, u: nat)
    requires Near(s, t) && Near(s, u) && u != t && Announce(s, t, s')
    ensures WellShaped(s') && |s'.pc| == |s.pc| && ThreadInv(s', u)
  {
  }

  lemma AnnounceKeeps(s: State, t: nat, s': State)
    requires Inv(s) && t < |s.pc| && Announce(s, t, s')
    ensures Inv(s')
  {
    OwnerFacts(s, t);
    CountZero(s.waiter);
    AnnounceSelf(s, t, s');
    forall u: nat | u < |s.pc| && u != t ensures ThreadInv(s', u) {
      OwnerFacts(s, u);
      AnnounceRest(s, t, s', u);
    }
  }

  lemma ScanSelf(s: State, t: nat, s': State)
    requires Near(s, t) && Scan(s, t, s')
    ensures WellShaped(s') && |s'.pc| == |s.pc| && ThreadInv(s', t)
  {
  }

  lemma ScanRest(s: State, t: nat, s': State, u: nat)
    requires Near(s, t) && Near(s, u) && u != t && Scan(s, t, s')
    ensures WellShaped(s') && |s'.pc| == |s.pc| && ThreadInv(s', u)
  {
    assert s'.owner == s.owner == Some(t) && s'.pc[u] == s.pc[u];
  }

  lemma ScanKeeps(s: State, t: nat, s': State)
    requires Inv(s) && t < |s.pc| && Scan(s, t, s')
    ensures Inv(s')
  {
    OwnerFacts(s, t);
    if s.pc[t].cpu < |s.pc| {
      CountUpdate(s.waiter, s.pc[t].cpu, true);
    }
    ScanSelf(s, t, s');
    forall u: nat | u < |s.pc| && u != t ensures ThreadInv(s', u) {
      OwnerFacts(s, u);
      ScanRest(s, t, s', u);
    }
  }

  lemma CollectSelf(s: State, t: nat, s': State)
    requires Near(s, t) && Collect(s, t, s')
    ensures WellShaped(s') && |s'.pc| == |s.pc| && ThreadInv(s', t)
  {
  }

  lemma CollectRest(s: State, t: nat, s': State, u: nat)
    requires Near(s, t) && Near(s, u) && u != t && Collect(s, t, s')
    ensures WellShaped(s') && |s'.pc| == |s.pc| && ThreadInv(s', u)
  {
    assert s'.owner == s.owner == Some(t) && s'.pc[u] == s.pc[u];
  }

  lemma CollectKeeps(s: State, t: nat, s': State)
    requires Inv(s) && t < |s.pc| && Collect(s, t, s')
    ensures Inv(s')
  {
    OwnerFacts(s, t);
    CollectSelf(s, t, s');
    forall u: nat | u < |s.pc| && u != t ensures ThreadInv(s', u) {
      OwnerFacts(s, u);
      CollectRest(s, t, s', u);
    }
  }

  lemma EndExclusiveSelf(s: State, t: nat, s': State)
    requires Near(s, t) && EndExclusive(s, t, s')
    ensures WellShaped(s') && |s'.pc| == |s.pc| && ThreadInv(s', t)
  {
  }

  lemma EndExclusiveRest(s: State, t: nat, s': State, u: nat)
    requires Near(s, t) && Near(s, u) && u != t && EndExclusive(s, t, s')
    ensures WellShaped(s') && |s'.pc| == |s.pc| && ThreadInv(s', u)
  {
  }

  lemma EndExclusiveKeeps(s: State, t: nat, s': State)
    requires Inv(s) && t < |s.pc| && EndExclusive(s, t, s')
    ensures Inv(s')
  {
    OwnerFacts(s, t);
    EndExclusiveSelf(s, t, s');
    forall u: nat | u < |s.pc| && u != t ensures ThreadInv(s', u) {
      OwnerFacts(s, u);
      EndExclusiveRest(s, t, s', u);
    }
  }

  lemma ExecStartSelf(s: State, t: nat, s': State)
    requires Near(s, t) && ExecStart(s, t, s')
    ensures WellShaped(s') && |s'.pc| == |s.pc| && ThreadInv(s', t)
  {
  }

  lemma ExecStartRest(s: State, t: nat, s': State, u: nat)
    requires Near(s, t) && Near(s, u) && u != t && ExecStart(s, t, s')
    ensures WellShaped(s') && |s'.pc| == |s.pc| && ThreadInv(s', u)
  {
  }

  lemma ExecStartKeeps(s: State, t: nat, s': State)
    requires Inv(s) && t < |s.pc| && ExecStart(s, t, s')
    ensures Inv(s')
  {
    OwnerFacts(s, t);
    ExecStartSelf(s, t, s');
    forall u: nat | u < |s.pc| && u != t ensures ThreadInv(s', u) {
      OwnerFacts(s, u);
      ExecStartRest(s, t, s', u);
    }
  }

  lemma StandBackSelf(s: State, t: nat, s': State)
    requires Near(s, t) && StandBack(s, t, s')
    ensures WellShaped(s') && |s'.pc| == |s.pc| && ThreadInv(s', t)
  {
  }

  lemma StandBackRest(s: State, t: nat, s': State, u: nat)
    requires Near(s, t) && Near(s, u) && u != t && StandBack(s, t, s')
    ensures WellShaped(s') && |s'.pc| == |s.pc| && ThreadInv(s', u)
  {
  }

  lemma StandBackKeeps(s: State, t: nat, s': State)
    requires Inv(s) && t < |s.pc| && StandBack(s, t, s')
    ensures Inv(s')
  {
    OwnerFacts(s, t);
    StandBackSelf(s, t, s');
    forall u: nat | u < |s.pc| && u != t ensures ThreadInv(s', u) {
      OwnerFacts(s, u);
      StandBackRest(s, t, s', u);
    }
  }

  lemma ExecEndSelf(s: State, t: nat, s': State)
    requires Near(s, t) && ExecEnd(s, t, s')
    ensures WellShaped(s') && |s'.pc| == |s.pc| && ThreadInv(s', t)
  {
    assert !Owns(s'.pc[t]) && s'.owner == s.owner;
  }

  lemma ExecEndRest(s: State, t: nat, s': State, u: nat)
    requires Near(s, t) && Near(s, u) && u != t && ExecEnd(s, t, s')
    ensures WellShaped(s') && |s'.pc| == |s.pc| && ThreadInv(s', u)
  {
  }

  lemma ExecEndKeeps(s: State, t: nat, s': State)
    requires Inv(s) && t < |s.pc| && ExecEnd(s, t, s')
    ensures Inv(s')
  {
    OwnerFacts(s, t);
    ExecEndSelf(s, t, s');
    forall u: nat | u < |s.pc| && u != t ensures ThreadInv(s', u) {
      OwnerFacts(s, u);
      ExecEndRest(s, t, s', u);
    }
  }

  lemma CountdownSelf(s: State, t: nat, s': State)
    requires Near(s, t) && Countdown(s, t, s')
    requires s.waiter[t] ==> s.pending > 1 && Draining(s.pc[s.owner.value])
    ensures WellShaped(s') && |s'.pc| == |s.pc| && ThreadInv(s', t)
  {
  }

  lemma CountdownRest(s: State, t: nat, s': State, u: nat)
    requires Near(s, t) && Near(s, u) && u != t && Countdown(s, t, s')
    requires s.waiter[t] ==> s.pending > 1 && Draining(s.pc[s.owner.value])
    ensures WellShaped(s') && |s'.pc| == |s.pc| && ThreadInv(s', u)
  {
  }

  lemma CountdownPhase(s: State, t: nat, s': State)
    requires Near(s, t) && PhaseInv(s) && Countdown(s, t, s')
    requires s.waiter[t] ==> s.pending > 1 && Draining(s.pc[s.owner.value])
    ensures WellShaped(s') && PhaseInv(s')
  {
    CountUpdate(s.waiter, t, false);
  }

  lemma CountdownKeeps(s: State, t: nat, s': State)
    requires Inv(s) && t < |s.pc| && Countdown(s, t, s')
    ensures Inv(s')
  {
    hide ThreadInv;
    OwnerFacts(s, t);
    CountdownPhase(s, t, s');
    CountdownSelf(s, t, s');
    forall u: nat | u < |s.pc| && u != t ensures ThreadInv(s', u) {
      OwnerFacts(s, u);
      CountdownRest(s, t, s', u);
    }
  }

  lemma SignalToSelf(s: State, t: nat, w: nat, s': State)
    requires Near(s, t) && Near(s, w) && SignalTo(s, t, w, s')
    ensures WellShaped(s') && |s'.pc| == |s.pc| && ThreadInv(s', t)
  {
  }

  lemma SignalToRest(s: State, t: nat, w: nat, s': State, u: nat)
    requires Near(s, t) && Near(s, w) && Near(s, u) && u != t && SignalTo(s, t, w, s')
    ensures WellShaped(s') && |s'.pc| == |s.pc| && ThreadInv(s', u)
  {
  }

  lemma SignalToKeeps(s: State, t: nat, w: nat, s': State)
    requires Inv(s) && t < |s.pc| && SignalTo(s, t, w, s')
    ensures Inv(s')
  {
    hide ThreadInv;
    OwnerFacts(s, t);
    OwnerFacts(s, w);
    SignalToSelf(s, t, w, s');
    forall u: nat | u < |s.pc| && u != t ensures ThreadInv(s', u) {
      OwnerFacts(s, u);
      SignalToRest(s, t, w, s', u);
    }
  }

  lemma SignalNoneSelf(s: State, t: nat, s': State)
    requires Near(s, t) && SignalNone(s, t, s')
    ensures WellShaped(s') && |s'.pc| == |s.pc| && ThreadInv(s', t)
  {
  }

  lemma SignalNoneRest(s: State, t: nat, s': State, u: nat)
    requires Near(s, t) && Near(s, u) && u != t && SignalNone(s, t, s')
    ensures WellShaped(s') && |s'.pc| == |s.pc| && ThreadInv(s', u)
  {
  }

  lemma SignalNoneKeeps(s: State, t: nat, s': State)
    requires Inv(s) && t < |s.pc| && SignalNone(s, t, s')
    ensures Inv(s')
  {
    hide ThreadInv;
    OwnerFacts(s, t);
    SignalNoneSelf(s, t, s');
    forall u: nat | u < |s.pc| && u != t ensures ThreadInv(s', u) {
      OwnerFacts(s, u);
      SignalNoneRest(s, t, s', u);
    }
  }

  lemma DepartSelf(s: State, t: nat, s': State)
    requires Near(s, t) && Depart(s, t, s')
    ensures WellShaped(s') && |s'.pc| == |s.pc| && ThreadInv(s', t)
  {
  }

  lemma DepartRest(s: State, t: nat, s': State, u: nat)
    requires Near(s, t) && Near(s, u) && u != t && Depart(s, t, s')
    ensures WellShaped(s') && |s'.pc| == |s.pc| && ThreadInv(s', u)
  {
  }

  lemma DepartKeeps(s: State, t: nat, s': State)
    requires Inv(s) && t < |s.pc| && Depart(s, t, s')
    ensures Inv(s')
  {
    OwnerFacts(s, t);
    DepartSelf(s, t, s');
    forall u: nat | u < |s.pc| && u != t ensures ThreadInv(s', u) {
      OwnerFacts(s, u);
      DepartRest(s, t, s', u);
    }
  }

  lemma SpuriousWakeSelf(s: State, t: nat, s': State)
    requires Near(s, t) && SpuriousWake(s, t, s')
    ensures WellShaped(s') && |s'.pc| == |s.pc| && ThreadInv(s', t)
  {
  }

  lemma SpuriousWakeRest(s: State, t: nat, s': State, u: nat)
    requires Near(s, t) && Near(s, u) && u != t && SpuriousWake(s, t, s')
    ensures WellShaped(s') && |s'.pc| == |s.pc| && ThreadInv(s', u)
  {
  }

  lemma SpuriousWakeKeeps(s: State, t: nat, s': State)
    requires Inv(s) && t < |s.pc| && SpuriousWake(s, t, s')
    ensures Inv(s')
  {
    OwnerFacts(s, t);
    SpuriousWakeSelf(s, t, s');
    forall u: nat | u < |s.pc| && u != t ensures ThreadInv(s', u) {
      OwnerFacts(s, u);
      SpuriousWakeRest(s, t, s', u);
    }
  }

  lemma NextKeeps(s: State, s': State)
    requires Inv(s) && Next(s, s')
    ensures Inv(s')
  {
    var t: nat :| t < |s.pc| && (Step(s, t, s') || Depart(s, t, s') || SpuriousWake(s, t, s'));
    if Announce(s, t, s') { AnnounceKeeps(s, t, s'); }
    else if Scan(s, t, s') { ScanKeeps(s, t, s'); }
    else if Collect(s, t, s') { CollectKeeps(s, t, s'); }
    else if EndExclusive(s, t, s') { EndExclusiveKeeps(s, t, s'); }
    else if ExecStart(s, t, s') { ExecStartKeeps(s, t, s'); }
    else if StandBack(s, t, s') { StandBackKeeps(s, t, s'); }
    else if ExecEnd(s, t, s') { ExecEndKeeps(s, t, s'); }
    else if Countdown(s, t, s') { CountdownKeeps(s, t, s'); }
    else if SignalNone(s, t, s') { SignalNoneKeeps(s, t, s'); }
    else if w: nat :| SignalTo(s, t, w, s') { SignalToKeeps(s, t, w, s'); }
    else if Depart(s, t, s') { DepartKeeps(s, t, s'); }
    else { SpuriousWakeKeeps(s, t, s'); }
  }

  lemma {:induction false} RunInv(states: seq<State>, i: nat)
    requires Run(states) && i < |states|
    ensures Inv(states[i])
  {
    if i == 0 {
      InitInv(states[0]);
    } else {
      RunInv(states, i - 1);
      NextKeeps(states[i - 1], states[i]);
    }
  }

  // ---------------------------------------------------------------- main results

  /** While one thread is between the return of start_exclusive and end_exclusive, no CPU executes
      guest code and no other thread is exclusive. */
  ghost predicate Excludes(s: State) {
    forall t: nat, u: nat :: t < |s.pc| && u < |s.pc| && s.pc[t] == Exclusive ==>
      s.pc[u] != Running && (u != t ==> s.pc[u] != Exclusive)
  }

  lemma MutualExclusion(states: seq<State>)
    requires Run(states)
    ensures forall s :: s in states ==> Excludes(s)
  {
    forall s | s in states ensures Excludes(s) {
      var i: nat :| i < |states| && states[i] == s;
      RunInv(states, i);
      CountZero(s.waiter);
      forall t: nat, u: nat | t < |s.pc| && u < |s.pc| && s.pc[t] == Exclusive
        ensures s.pc[u] != Running && (u != t ==> s.pc[u] != Exclusive)
      {
        assert ThreadInv(s, t) && ThreadInv(s, u);
      }
    }
  }

  /** While the owner waits on exclusive_cond, the counter is one more than the number of CPUs it
      still waits for, none of those CPUs is parked in exclusive_idle waiting for the owner, and
      the owner sleeps only if there is such a CPU or a signal is on its way. */
  ghost predicate WaitIsCounted(s: State) {
    && WellShaped(s)
    && forall t: nat :: t < |s.pc| && Draining(s.pc[t]) ==> CountedAt(s, t)
  }

  lemma WaitingIsCounted(states: seq<State>)
    requires Run(states)
    ensures forall s :: s in states ==> WaitIsCounted(s)
  {
    forall s | s in states ensures WaitIsCounted(s) {
      var i: nat :| i < |states| && states[i] == s;
      RunInv(states, i);
      forall t: nat | t < |s.pc| && Draining(s.pc[t]) ensures CountedAt(s, t) {
        WaitingAt(s, t);
      }
    }
  }

  ghost predicate CountedAt(s: State, t: nat)
    requires WellShaped(s) && t < |s.pc|
  {
    && s.pending == 1 + Count(s.waiter)
    && (forall u: nat :: u < |s.pc| && s.waiter[u] ==> !Parked(s.pc[u]) && u != t)
    && (s.pc[t] == SxBlocked ==>
          (exists u: nat :: u < |s.pc| && (s.waiter[u] || s.pc[u] == EnSignal)))
  }

  lemma WaitingAt(s: State, t: nat)
    requires Inv(s) && t < |s.pc| && Draining(s.pc[t])
    ensures CountedAt(s, t)
  {
    assert ThreadInv(s, t);
    CountZero(s.waiter);
    forall u: nat | u < |s.pc| && s.waiter[u] ensures !Parked(s.pc[u]) && u != t {
      assert ThreadInv(s, u);
    }
  }

  lemma StepCountsOnce(s: State, t: nat, s': State, o: nat)
    requires Inv(s) && t < |s.pc| && o < |s.pc| && Draining(s.pc[o])
    requires Step(s, t, s') || Depart(s, t, s') || SpuriousWake(s, t, s')
    ensures s'.pending != s.pending || s'.waiter != s.waiter ==> TakesOff(s, t, s')
  {
    OwnerFacts(s, o);
    OwnerFacts(s, t);
  }

  /** Thread `t` was counted and takes itself, and only itself, off the count. */
  ghost predicate TakesOff(s: State, t: nat, s': State) {
    && WellShaped(s) && t < |s.pc| && s.waiter[t]
    && s'.waiter == s.waiter[t := false]
    && s'.pending == s.pending - 1 && s'.pending >= 1
  }

  /** Each counted CPU leaves the count exactly once: in every run, while an owner waits, the
      counter and the flags change only by a counted CPU taking itself off.  No flag is raised. */
  lemma CountedOnce(states: seq<State>, i: nat, o: nat)
    requires Run(states) && i + 1 < |states| && o < |states[i].pc| && Draining(states[i].pc[o])
    ensures
      var s, s' := states[i], states[i + 1];
      || (s'.pending == s.pending && s'.waiter == s.waiter)
      || exists t: nat :: TakesOff(s, t, s')
  {
    var s, s' := states[i], states[i + 1];
    RunInv(states, i);
    assert Next(s, s');
    var t: nat :| t < |s.pc| && (Step(s, t, s') || Depart(s, t, s') || SpuriousWake(s, t, s'));
    StepCountsOnce(s, t, s', o);
  }

  /** Is the thread in the middle of one of the four functions? */
  predicate Underway(p: Pc) {
    !p.Idle? && !p.Running? && !p.Exclusive?
  }

  predicate Asleep(p: Pc) {
    p.SxAsleep? || p.StAsleep? || p.SxBlocked?
  }

  /** A thread in the middle of a function can move unless it sleeps or the lock is taken. */
  lemma CanMove(s: State, t: nat) returns (s': State)
    requires Inv(s) && t < |s.pc| && Underway(s.pc[t]) && !Asleep(s.pc[t])
    requires s.lock == None || s.lock == Some(t)
    ensures Step(s, t, s')
  {
    assert ThreadInv(s, t);
    if s.pc[t].StRead? || s.pc[t].StLock? || s.pc[t].StTest? || s.pc[t].StRetract? || s.pc[t].StIdle?
       || s.pc[t].StRelock? || s.pc[t].StResume? || s.pc[t].StUnlock?
    {
      s' := StartCanMove(s, t);
    } else if s.pc[t].EnRead? || s.pc[t].EnLock? || s.pc[t].EnTest? || s.pc[t].EnSignal? || s.pc[t].EnUnlock? {
      s' := EndCanMove(s, t);
    } else {
      s' := ExclusiveCanMove(s, t);
    }
  }

  lemma ExclusiveCanMove(s: State, t: nat) returns (s': State)
    requires WellShaped(s) && t < |s.pc|
    requires s.pc[t].SxLock? || s.pc[t].SxRelock? || s.pc[t].ExLock? ==> s.lock == None
    requires
      || s.pc[t].SxLock? || s.pc[t].SxCheck? || s.pc[t].SxAnnounce? || s.pc[t].SxScan? || s.pc[t].SxPublish?
      || s.pc[t].SxWait? || s.pc[t].SxRelock? || s.pc[t].SxUnlock?
      || s.pc[t].ExLock? || s.pc[t].ExClear? || s.pc[t].ExBroadcast? || s.pc[t].ExUnlock?
    ensures Announce(s, t, s') || Scan(s, t, s') || Collect(s, t, s') || EndExclusive(s, t, s')
  {
    match s.pc[t]
    case SxLock => s' := Acquire(s, t, SxCheck);
    case SxCheck => s' := if s.pending != 0 then Release(s, t, SxAsleep) else Go(s, t, SxAnnounce);
    case SxAnnounce => s' := Go(s, t, SxScan(0, 0)).(pending := 1, owner := Some(t));
    case SxScan(cpu, count) =>
      s' := if cpu >= |s.pc| then Go(s, t, SxPublish(count))
      else if s.running[cpu] then Go(s, t, SxScan(cpu + 1, count + 1)).(waiter := s.waiter[cpu := true])
      else Go(s, t, SxScan(cpu + 1, count));
    case SxPublish(count) => s' := Go(s, t, SxWait).(pending := count + 1);
    case SxWait => s' := if s.pending > 1 then Release(s, t, SxBlocked) else Go(s, t, SxUnlock);
    case SxRelock => s' := Acquire(s, t, SxWait);
    case SxUnlock => s' := Release(s, t, Exclusive);
    case ExLock => s' := Acquire(s, t, ExClear);
    case ExClear => s' := Go(s, t, ExBroadcast).(pending := 0, owner := None);
    case ExBroadcast =>
      s' := s.(pc := seq(|s.pc|, i requires 0 <= i < |s.pc| => if i == t then ExUnlock else Wake(s.pc[i])));
    case ExUnlock => s' := Release(s, t, Idle);
  }

  lemma StartCanMove(s: State, t: nat) returns (s': State)
    requires WellShaped(s) && t < |s.pc|
    requires s.pc[t].StLock? || s.pc[t].StRelock? ==> s.lock == None
    requires
      || s.pc[t].StRead? || s.pc[t].StLock? || s.pc[t].StTest? || s.pc[t].StRetract?
      || s.pc[t].StIdle? || s.pc[t].StRelock? || s.pc[t].StResume? || s.pc[t].StUnlock?
    ensures ExecStart(s, t, s') || StandBack(s, t, s')
  {
    match s.pc[t]
    case StRead => s' := Go(s, t, if s.pending != 0 then StLock else Running);
    case StLock => s' := Acquire(s, t, StTest);
    case StTest => s' := Go(s, t, if s.waiter[t] then StUnlock else StRetract);
    case StRetract => s' := Go(s, t, StIdle).(running := s.running[t := false]);
    case StIdle => s' := if s.pending != 0 then Release(s, t, StAsleep) else Go(s, t, StResume);
    case StRelock => s' := Acquire(s, t, StIdle);
    case StResume => s' := Go(s, t, StUnlock).(running := s.running[t := true]);
    case StUnlock => s' := Release(s, t, Running);
  }

  lemma EndCanMove(s: State, t: nat) returns (s': State)
    requires WellShaped(s) && t < |s.pc|
    requires s.pc[t].EnLock? ==> s.lock == None
    requires s.pc[t].EnRead? || s.pc[t].EnLock? || s.pc[t].EnTest? || s.pc[t].EnSignal? || s.pc[t].EnUnlock?
    ensures Step(s, t, s')
  {
    match s.pc[t]
    case EnRead => s' := Go(s, t, if s.pending != 0 then EnLock else Idle);
    case EnLock => s' := Acquire(s, t, EnTest);
    case EnTest =>
      s' := if s.waiter[t] then
        Go(s, t, if s.pending - 1 == 1 then EnSignal else EnUnlock).(waiter := s.waiter[t := false], pending := s.pending - 1)
      else Go(s, t, EnUnlock);
    case EnSignal =>
      s' := Go(s, t, EnUnlock);
      if w: nat :| w < |s.pc| && s.pc[w] == SxBlocked {
        s' := Go(Go(s, t, EnUnlock), w, SxRelock);
        assert SignalTo(s, t, w, s');
      }
    case EnUnlock => s' := Release(s, t, Idle);
  }

  /** No deadlock: if some thread is in the middle of a function, then some such thread can take a
      step without a spurious wake-up, or guest code that was told to stop is still running, or
      a thread is inside its exclusive section. */
  ghost predicate Alive(s: State) {
    && WellShaped(s)
    && ((exists t: nat :: t < |s.pc| && Underway(s.pc[t])) ==>
          || (exists u: nat, s' :: u < |s.pc| && Underway(s.pc[u]) && Step(s, u, s'))
          || (exists u: nat :: u < |s.pc| && s.pc[u] == Running && s.waiter[u])
          || (exists u: nat :: u < |s.pc| && s.pc[u] == Exclusive))
  }

  lemma NoDeadlock(states: seq<State>)
    requires Run(states)
    ensures forall s :: s in states ==> Alive(s)
  {
    forall s | s in states ensures Alive(s) {
      var i: nat :| i < |states| && states[i] == s;
      RunInv(states, i);
      if t: nat :| t < |s.pc| && Underway(s.pc[t]) {
        MoverExists(s, t);
      }
    }
  }

  lemma MoverExists(s: State, t: nat)
    requires Inv(s) && t < |s.pc| && Underway(s.pc[t])
    ensures Alive(s)
  {
    OwnerFacts(s, t);
    if s.lock.Some? {
      assert ThreadInv(s, s.lock.value);
      var s' := CanMove(s, s.lock.value);
    } else if !Asleep(s.pc[t]) {
      var s' := CanMove(s, t);
    } else {
      SleeperHasMover(s, t);
    }
  }

  lemma SleeperHasMover(s: State, t: nat)
    requires Inv(s) && t < |s.pc| && Asleep(s.pc[t]) && s.lock == None
    ensures Alive(s)
  {
    OwnerFacts(s, t);
    var o := s.owner.value;
    OwnerFacts(s, o);
    if s.pc[o] == SxBlocked {
      CountZero(s.waiter);
      var u: nat :| u < |s.pc| && s.waiter[u];
      assert ThreadInv(s, u);
      if s.pc[u] != Running {
        var s' := CanMove(s, u);
      }
    } else if s.pc[o] != Exclusive {
      var s' := CanMove(s, o);
    }
  }

  // ---------------------------------------------------------------- calls return

  predicate InStartExclusive(p: Pc) {
    match p
    case SxLock | SxCheck | SxAsleep | SxAnnounce | SxScan(_, _) | SxPublish(_) | SxWait | SxBlocked | SxRelock | SxUnlock => true
    case _ => false
  }

  predicate InEndExclusive(p: Pc) {
    p.ExLock? || p.ExClear? || p.ExBroadcast? || p.ExUnlock?
  }

  predicate InExecStart(p: Pc) {
    match p
    case StRead | StLock | StTest | StRetract | StIdle | StAsleep | StRelock | StResume | StUnlock => true
    case _ => false
  }

  predicate InExecEnd(p: Pc) {
    p.EnRead? || p.EnLock? || p.EnTest? || p.EnSignal? || p.EnUnlock?
  }

  /** A thread leaves start_exclusive only with exclusivity, cpu_exec_start only to execute guest code, and
      the other two only to be outside; and it enters a function only from where its caller may. */
  ghost predicate MovesOn(p: Pc, p': Pc) {
    && (InStartExclusive(p) ==> InStartExclusive(p') || p' == Exclusive)
    && (p == Exclusive ==> p' == Exclusive || p' == ExLock)
    && (InEndExclusive(p) ==> InEndExclusive(p') || p' == Idle)
    && (InExecStart(p) ==> InExecStart(p') || p' == Running)
    && (p == Running ==> p' == Running || p' == EnRead)
    && (InExecEnd(p) ==> InExecEnd(p') || p' == Idle)
    && (p == Idle ==> p' == Idle || p' == SxLock || p' == StRead)
  }

  lemma NextMovesOn(s: State, s': State, u: nat)
    requires Next(s, s') && u < |s.pc|
    ensures |s'.pc| == |s.pc| && MovesOn(s.pc[u], s'.pc[u])
  {
    var t: nat :| t < |s.pc| && (Step(s, t, s') || Depart(s, t, s') || SpuriousWake(s, t, s'));
    hide MovesOn;
    if Step(s, t, s') {
      StepMovesOn(s, t, s', u);
    } else {
      OtherMovesOn(s, t, s', u);
    }
  }

  lemma OtherMovesOn(s: State, t: nat, s': State, u: nat)
    requires WellShaped(s) && t < |s.pc| && u < |s.pc| && (Depart(s, t, s') || SpuriousWake(s, t, s'))
    ensures |s'.pc| == |s.pc| && MovesOn(s.pc[u], s'.pc[u])
  {
  }

  lemma StepMovesOn(s: State, t: nat, s': State, u: nat)
    requires WellShaped(s) && t < |s.pc| && u < |s.pc| && Step(s, t, s')
    ensures |s'.pc| == |s.pc| && MovesOn(s.pc[u], s'.pc[u])
  {
    hide Announce, Scan, Collect, EndExclusive, ExecStart, StandBack, ExecEnd, Countdown, SignalTo, SignalNone, MovesOn;
    if Announce(s, t, s') || Scan(s, t, s') || Collect(s, t, s') {
      ExclusiveMovesOn(s, t, s', u);
    } else if EndExclusive(s, t, s') {
      EndMovesOn(s, t, s', u);
    } else if ExecStart(s, t, s') || StandBack(s, t, s') {
      StartMovesOn(s, t, s', u);
    } else if w: nat :| SignalTo(s, t, w, s') {
      SignalMovesOn(s, t, w, s', u);
    } else {
      ExecEndMovesOn(s, t, s', u);
    }
  }

  lemma SignalMovesOn(s: State, t: nat, w: nat, s': State, u: nat)
    requires WellShaped(s) && t < |s.pc| && u < |s.pc| && SignalTo(s, t, w, s')
    ensures |s'.pc| == |s.pc| && MovesOn(s.pc[u], s'.pc[u])
  {
  }

  lemma ExclusiveMovesOn(s: State, t: nat, s': State, u: nat)
    requires WellShaped(s) && t < |s.pc| && u < |s.pc| && (Announce(s, t, s') || Scan(s, t, s') || Collect(s, t, s'))
    ensures |s'.pc| == |s.pc| && MovesOn(s.pc[u], s'.pc[u])
  {
    assert s'.pc == s.pc[t := s'.pc[t]];
  }

  lemma EndMovesOn(s: State, t: nat, s': State, u: nat)
    requires WellShaped(s) && t < |s.pc| && u < |s.pc| && EndExclusive(s, t, s')
    ensures |s'.pc| == |s.pc| && MovesOn(s.pc[u], s'.pc[u])
  {
  }

  lemma StartMovesOn(s: State, t: nat, s': State, u: nat)
    requires WellShaped(s) && t < |s.pc| && u < |s.pc| && (ExecStart(s, t, s') || StandBack(s, t, s'))
    ensures |s'.pc| == |s.pc| && MovesOn(s.pc[u], s'.pc[u])
  {
    assert s'.pc == s.pc[t := s'.pc[t]];
  }

  lemma ExecEndMovesOn(s: State, t: nat, s': State, u: nat)
    requires WellShaped(s) && t < |s.pc| && u < |s.pc|
    requires ExecEnd(s, t, s') || Countdown(s, t, s') || SignalNone(s, t, s')
    ensures |s'.pc| == |s.pc| && MovesOn(s.pc[u], s'.pc[u])
  {
    assert s'.pc == s.pc[t := s'.pc[t]];
  }

  /** In every run: where a thread goes from each function, and that it owns the exclusive section when
      start_exclusive returns, that its CPU is marked as running when cpu_exec_start returns, and that it is
      not when it is outside. */
  lemma Returns(states: seq<State>, i: nat, t: nat)
    requires Run(states) && i + 1 < |states| && t < |states[i].pc|
    ensures |states[i + 1].pc| == |states[i].pc| == |states[i + 1].running| && MovesOn(states[i].pc[t], states[i + 1].pc[t])
    ensures states[i + 1].pc[t] == Exclusive ==> states[i + 1].owner == Some(t) && states[i + 1].pending == 1
    ensures states[i + 1].pc[t] == Running ==> states[i + 1].running[t]
    ensures states[i + 1].pc[t] == Idle ==> !states[i + 1].running[t] && states[i + 1].owner != Some(t) && states[i + 1].lock != Some(t)
  {
    NextMovesOn(states[i], states[i + 1], t);
    RunInv(states, i + 1);
    assert ThreadInv(states[i + 1], t);
  }

  /** How much a thread has still to do, if no thread starts a new call: waking all sleepers at the end of
      an exclusive section counts for more than what the sleepers do when they are woken. */
  function Weight(p: Pc, n: nat): nat {
    match p
    case Idle => 0
    case ExUnlock | EnUnlock => 1
    case EnSignal => 4
    case EnTest => 5
    case EnLock => 6
    case EnRead => 7
    case Running => 8
    case StUnlock => 9
    case StResume | StAsleep => 10
    case StIdle => 11
    case StRetract | StRelock => 12
    case StTest => 13
    case StLock => 14
    case StRead => 15
    case ExBroadcast => 2 * n + 3
    case ExClear => 2 * n + 4
    case ExLock => 2 * n + 5
    case Exclusive => 2 * n + 6
    case SxUnlock | SxBlocked => 2 * n + 7
    case SxWait => 2 * n + 8
    case SxRelock | SxPublish(_) => 2 * n + 9
    case SxScan(cpu, _) => 2 * n + 10 + if cpu <= n then n - cpu else 0
    case SxAnnounce | SxAsleep => 3 * n + 11
    case SxCheck => 3 * n + 12
    case SxLock => 3 * n + 13
  }

  function Total(pc: seq<Pc>, n: nat): nat {
    if pc == [] then 0 else Total(pc[..|pc| - 1], n) + Weight(pc[|pc| - 1], n)
  }

  lemma {:induction false} TotalUpdate(pc: seq<Pc>, n: nat, t: nat, p: Pc)
    requires t < |pc|
    ensures Total(pc[t := p], n) == Total(pc, n) - Weight(pc[t], n) + Weight(p, n)
  {
    hide Weight;
    var k := |pc| - 1;
    if t == k {
      assert pc[t := p][..k] == pc[..k];
    } else {
      assert pc[t := p][..k] == pc[..k][t := p];
      TotalUpdate(pc[..k], n, t, p);
    }
  }

  /** Waking the sleepers adds little. */
  lemma {:induction false} TotalWake(pc: seq<Pc>, pc': seq<Pc>, n: nat)
    requires |pc'| == |pc| && forall u :: 0 <= u < |pc| ==> pc'[u] == Wake(pc[u])
    ensures Total(pc', n) <= Total(pc, n) + 2 * |pc|
  {
    if pc != [] {
      var k := |pc| - 1;
      TotalWake(pc[..k], pc'[..k], n);
      assert Weight(Wake(pc[k]), n) <= Weight(pc[k], n) + 2;
    }
  }

  lemma BroadcastShrinks(s: State, t: nat, s': State)
    requires WellShaped(s) && t < |s.pc| && s.pc[t] == ExBroadcast && EndExclusive(s, t, s')
    ensures |s'.pc| == |s.pc| && Total(s'.pc, |s.pc|) < Total(s.pc, |s.pc|)
  {
    var n := |s.pc|;
    var woken := seq(n, i requires 0 <= i < n => Wake(s.pc[i]));
    TotalWake(s.pc, woken, n);
    TotalUpdate(woken, n, t, ExUnlock);
    assert s'.pc == woken[t := ExUnlock];
  }

  /** Every step that is not the beginning of a call or a spurious wake-up leaves less to do. */
  lemma StepShrinks(s: State, t: nat, s': State)
    requires WellShaped(s) && t < |s.pc| && Step(s, t, s')
    ensures |s'.pc| == |s.pc| && Total(s'.pc, |s.pc|) < Total(s.pc, |s.pc|)
  {
    hide Total;
    var n := |s.pc|;
    if s.pc[t] == ExBroadcast {
      BroadcastShrinks(s, t, s');
    } else if w: nat :| SignalTo(s, t, w, s') {
      TotalUpdate(s.pc, n, t, EnUnlock);
      TotalUpdate(s.pc[t := EnUnlock], n, w, SxRelock);
    } else {
      hide Weight, Announce, Scan, Collect, EndExclusive, ExecStart, StandBack, ExecEnd, Countdown, SignalTo, SignalNone;
      TotalUpdate(s.pc, n, t, s'.pc[t]);
      OneMoves(s, t, s');
    }
  }

  lemma OneMoves(s: State, t: nat, s': State)
    requires WellShaped(s) && t < |s.pc| && Step(s, t, s') && s.pc[t] != ExBroadcast && forall w: nat :: !SignalTo(s, t, w, s')
    ensures |s'.pc| == |s.pc| && s'.pc == s.pc[t := s'.pc[t]] && Weight(s'.pc[t], |s.pc|) < Weight(s.pc[t], |s.pc|)
  {
    hide Announce, Scan, Collect, EndExclusive, ExecStart, StandBack, ExecEnd, Countdown, SignalTo, SignalNone, Weight;
    if Announce(s, t, s') || Scan(s, t, s') || Collect(s, t, s') {
      ExclusiveShrinks(s, t, s');
    } else if EndExclusive(s, t, s') || ExecStart(s, t, s') || StandBack(s, t, s') {
      StartShrinks(s, t, s');
    } else {
      ExecEndShrinks(s, t, s');
    }
  }

  lemma ExclusiveShrinks(s: State, t: nat, s': State)
    requires WellShaped(s) && t < |s.pc| && (Announce(s, t, s') || Scan(s, t, s') || Collect(s, t, s'))
    ensures |s'.pc| == |s.pc| && s'.pc == s.pc[t := s'.pc[t]] && Weight(s'.pc[t], |s.pc|) < Weight(s.pc[t], |s.pc|)
  {
  }

  lemma StartShrinks(s: State, t: nat, s': State)
    requires WellShaped(s) && t < |s.pc| && s.pc[t] != ExBroadcast
    requires EndExclusive(s, t, s') || ExecStart(s, t, s') || StandBack(s, t, s')
    ensures |s'.pc| == |s.pc| && s'.pc == s.pc[t := s'.pc[t]] && Weight(s'.pc[t], |s.pc|) < Weight(s.pc[t], |s.pc|)
  {
  }

  lemma ExecEndShrinks(s: State, t: nat, s': State)
    requires WellShaped(s) && t < |s.pc| && (ExecEnd(s, t, s') || Countdown(s, t, s') || SignalNone(s, t, s'))
    ensures |s'.pc| == |s.pc| && s'.pc == s.pc[t := s'.pc[t]] && Weight(s'.pc[t], |s.pc|) < Weight(s.pc[t], |s.pc|)
  {
  }

  /** Some thread goes on with what it is in the middle of. */
  ghost predicate GoesOn(s: State, s': State) {
    WellShaped(s) && exists t: nat :: t < |s.pc| && Step(s, t, s')
  }

  ghost predicate Steps(states: seq<State>) {
    states != [] && forall i :: 0 <= i < |states| - 1 ==> GoesOn(states[i], states[i + 1])
  }

  /** Without new calls and spurious wake-ups no run is endless: it takes no more steps than the threads
      have to do. */
  lemma {:induction false} NoEndlessRun(states: seq<State>)
    requires Steps(states)
    ensures |states[|states| - 1].pc| == |states[0].pc|
    ensures |states| - 1 + Total(states[|states| - 1].pc, |states[0].pc|) <= Total(states[0].pc, |states[0].pc|)
    decreases |states|
  {
    hide Step, Total;
    var k := |states| - 1;
    if k > 0 {
      var rest := states[..k];
      forall i | 0 <= i < k - 1
        ensures GoesOn(rest[i], rest[i + 1])
      {
        assert rest[i] == states[i] && rest[i + 1] == states[i + 1];
      }
      NoEndlessRun(rest);
      assert GoesOn(states[k - 1], states[k]);
      var t: nat :| t < |states[k - 1].pc| && Step(states[k - 1], t, states[k]);
      StepShrinks(states[k - 1], t, states[k]);
    }
  }

  ghost predicate AllIdle(s: State) {
    forall t :: 0 <= t < |s.pc| ==> s.pc[t] == Idle
  }

  /** Unless all threads are outside one of them can step. */
  lemma SomeoneSteps(s: State) returns (t: nat, s': State)
    requires Inv(s) && !AllIdle(s)
    ensures t < |s.pc| && Step(s, t, s')
  {
    t :| t < |s.pc| && s.pc[t] != Idle;
    if Underway(s.pc[t]) {
      MoverExists(s, t);
      if u: nat, s1 :| u < |s.pc| && Step(s, u, s1) {
        return u, s1;
      }
      t :| t < |s.pc| && (s.pc[t] == Running || s.pc[t] == Exclusive);
    }
    s' := if s.pc[t] == Running then Go(s, t, EnRead).(running := s.running[t := false]) else Go(s, t, ExLock);
  }

  lemma RunExtends(states: seq<State>, s': State)
    requires Run(states) && Next(states[|states| - 1], s')
    ensures Run(states + [s'])
  {
    hide Next;
    var all := states + [s'];
    forall i | 0 <= i < |all| - 1 ensures Next(all[i], all[i + 1]) {
      assert all[i] == states[i];
    }
  }

  /** Every run can be continued, by the calls that are under way, until all threads are outside. */
  lemma {:induction false} RunsOut(states: seq<State>) returns (all: seq<State>)
    requires Run(states)
    ensures states <= all && Run(all) && AllIdle(all[|all| - 1])
    decreases Total(states[|states| - 1].pc, |states[|states| - 1].pc|)
  {
    hide Step, Total, Inv;
    var s := states[|states| - 1];
    RunInv(states, |states| - 1);
    if AllIdle(s) {
      all := states;
    } else {
      var t, s' := SomeoneSteps(s);
      InvShaped(s);
      StepShrinks(s, t, s');
      RunExtends(states, s');
      all := RunsOut(states + [s']);
    }
  }

  lemma InvShaped(s: State)
    requires Inv(s)
    ensures WellShaped(s)
  {
  }

  /** A thread that is inside a function at i and outside at the end leaves it in between, for where that
      function returns to. */
  lemma {:induction false} LeavesFor(states: seq<State>, i: nat, t: nat) returns (k: nat)
    requires Run(states) && i < |states| && t < |states[i].pc| && Underway(states[i].pc[t]) && AllIdle(states[|states| - 1])
    ensures i < k < |states| && t < |states[k].pc| && states[k].pc[t] == Home(states[i].pc[t])
    decreases |states| - i
  {
    hide Next, Init;
    RunSize(states, i);
    Returns(states, i, t);
    var p, p' := states[i].pc[t], states[i + 1].pc[t];
    if Underway(p') {
      k := LeavesFor(states, i + 1, t);
    } else {
      k := i + 1;
    }
  }

  lemma {:induction false} RunSize(states: seq<State>, i: nat)
    requires Run(states) && i < |states|
    ensures |states[i].pc| == |states[|states| - 1].pc|
    decreases |states| - i
  {
    if i < |states| - 1 {
      RunSize(states, i + 1);
      NextSize(states[i], states[i + 1]);
    }
  }

  lemma NextSize(s: State, s': State)
    requires Next(s, s')
    ensures |s'.pc| == |s.pc|
  {
  }

  /** Where a function returns to. */
  function Home(p: Pc): Pc {
    if InStartExclusive(p) then Exclusive else if InExecStart(p) then Running else Idle
  }

  /** Every call can return: from every state of every run, whatever the other threads are doing, the run
      can be continued so that a thread inside start_exclusive gets to be exclusive, one inside
      cpu_exec_start gets to execute, and one inside the others gets outside. */
  lemma CallsReturn(states: seq<State>, t: nat) returns (all: seq<State>, k: nat)
    requires Run(states) && t < |states[|states| - 1].pc|
    requires Underway(states[|states| - 1].pc[t])
    ensures states <= all && Run(all) && |states| <= k < |all| && t < |all[k].pc|
    ensures var p := states[|states| - 1].pc[t];
            && (InStartExclusive(p) ==> all[k].pc[t] == Exclusive && all[k].owner == Some(t))
            && (InExecStart(p) ==> all[k].pc[t] == Running)
            && (InEndExclusive(p) || InExecEnd(p) ==> all[k].pc[t] == Idle)
  {
    hide Next, Init, AllIdle, MovesOn;
    all := RunsOut(states);
    k := LeavesFor(all, |states| - 1, t);
    RunSize(all, k);
    RunSize(all, k - 1);
    Returns(all, k - 1, t);
  }

  /** Whatever the others are doing, a thread that is outside can come to be exclusive. */
  lemma CanBeExclusive(states: seq<State>, t: nat) returns (all: seq<State>, k: nat)
    requires Run(states) && t < |states[|states| - 1].pc| && states[|states| - 1].pc[t] == Idle
    ensures states <= all && Run(all) && k < |all| && t < |all[k].pc| && all[k].pc[t] == Exclusive
  {
    hide Init;
    var s := states[|states| - 1];
    RunInv(states, |states| - 1);
    hide Inv, Step;
    InvShaped(s);
    assert Depart(s, t, Go(s, t, SxLock));
    RunExtends(states, Go(s, t, SxLock));
    hide Next;
    all, k := CallsReturn(states + [Go(s, t, SxLock)], t);
  }

  /** And it can come to execute guest code. */
  lemma CanExecute(states: seq<State>, t: nat) returns (all: seq<State>, k: nat)
    requires Run(states) && t < |states[|states| - 1].pc| && states[|states| - 1].pc[t] == Idle
    ensures states <= all && Run(all) && k < |all| && t < |all[k].pc| && all[k].pc[t] == Running
  {
    hide Init;
    var s := states[|states| - 1];
    RunInv(states, |states| - 1);
    InvShaped(s);
    hide Inv, Step;
    var s' := Go(s, t, StRead).(running := s.running[t := true]);
    assert Depart(s, t, s');
    RunExtends(states, s');
    hide Next;
    all, k := CallsReturn(states + [s'], t);
  }
}
