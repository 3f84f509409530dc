/** The bounce buffer of exec.c and the clients that wait for it: one buffer, claimed with an atomic
exchange, and a list of clients to wake when it is free, guarded by a lock of its own.  Threads map,
unmap, register and unregister in any interleaving of the steps below.
*/
module BounceBuffer {
  import opened Wrappers

  /** Where a thread is.  From Draining on to Leaving it holds the lock of the list. */
  datatype Pc =
    | Idle
    | Filling(addr: nat)          // has claimed the buffer
    | Mapped(addr: nat)           // address_space_map has returned
    | Clearing                    // has freed the memory, has yet to release the buffer
    | Notifying                   // has released the buffer, has yet to take the lock
    | Draining
    | Registering(client: nat)    // has yet to take the lock
    | Inserted                    // has put its client into the list, has yet to look at the buffer
    | Waking                      // has found the buffer free
    | Unregistering(client: nat)
    | Leaving

  /** bounce.in_use, the content of the buffer, the list and its lock; which thread has claimed the
      buffer; and the clients ever registered, woken and unregistered. */
  datatype State = State(
    pc: seq<Pc>, inUse: bool, content: Option<(nat, nat)>, queue: seq<nat>, lock: Option<nat>, owner: Option<nat>,
    registered: multiset<nat>, woken: multiset<nat>, removed: multiset<nat>)

  datatype Step =
    | Map(addr: nat) | Fill | Unmap | Clear | LockToNotify | Drain
    | Register(client: nat) | LockToRegister | Look | Wake | Unregister(client: nat) | LockToUnregister | Unlock

  predicate Enabled(s: State, t: nat, a: Step) {
    && t < |s.pc|
    && match a
       case Map(_) => s.pc[t].Idle?
       case Fill => s.pc[t].Filling?
       case Unmap => s.pc[t].Mapped?
       case Clear => s.pc[t].Clearing?
       case LockToNotify => s.pc[t].Notifying? && s.lock == None
       case Drain => s.pc[t].Draining?
       case Register(_) => s.pc[t].Idle?
       case LockToRegister => s.pc[t].Registering? && s.lock == None
       case Look => s.pc[t].Inserted?
       case Wake => s.pc[t].Waking?
       case Unregister(_) => s.pc[t].Idle?
       case LockToUnregister => s.pc[t].Unregistering? && s.lock == None
       case Unlock => s.pc[t].Leaving?
  }

  function At(s: State, t: nat, p: Pc): State
    requires t < |s.pc|
  {
    s.(pc := s.pc[t := p])
  }

  /** QLIST_FOREACH until the client is found, and its removal */
  function Remove(q: seq<nat>, c: nat): seq<nat> {
    if q == [] then [] else if q[0] == c then q[1..] else [q[0]] + Remove(q[1..], c)
  }

  /** cpu_notify_map_clients_locked */
  function WakeAll(s: State): State {
    s.(queue := [], woken := s.woken + multiset(s.queue))
  }

  function Take(s: State, t: nat, a: Step): State
    requires Enabled(s, t, a)
  {
    match a
    // address_space_map
    case Map(addr) => if s.inUse then s else At(s, t, Filling(addr)).(inUse := true, owner := Some(t))
    case Fill => At(s, t, Mapped(s.pc[t].addr)).(content := Some((t, s.pc[t].addr)))
    // address_space_unmap
    case Unmap => At(s, t, Clearing).(content := None)
    case Clear => At(s, t, Notifying).(inUse := false, owner := None)
    case LockToNotify => At(s, t, Draining).(lock := Some(t))
    case Drain => WakeAll(At(s, t, Leaving))
    // cpu_register_map_client
    case Register(c) => At(s, t, Registering(c))
    case LockToRegister =>
      At(s, t, Inserted).(lock := Some(t), queue := [s.pc[t].client] + s.queue, registered := s.registered + multiset{s.pc[t].client})
    case Look => if s.inUse then At(s, t, Leaving) else At(s, t, Waking)
    case Wake => WakeAll(At(s, t, Leaving))
    // cpu_unregister_map_client
    case Unregister(c) => At(s, t, Unregistering(c))
    case LockToUnregister =>
      var c := s.pc[t].client;
      At(s, t, Leaving).(lock := Some(t), queue := Remove(s.queue, c),
                         removed := if c in s.queue then s.removed + multiset{c} else s.removed)
    case Unlock => At(s, t, Idle).(lock := None)
  }

  predicate Owns(p: Pc) {
    p.Filling? || p.Mapped? || p.Clearing?
  }

  predicate Locks(p: Pc) {
    p.Draining? || p.Inserted? || p.Waking? || p.Leaving?
  }

  /** The thread that holds the lock has yet to look after the list. */
  predicate WillLook(p: Pc) {
    p.Draining? || p.Inserted? || p.Waking?
  }

  /** The buffer belongs to the thread that has claimed it. */
  ghost predicate OwnerOk(s: State) {
    && (forall t :: 0 <= t < |s.pc| ==> (Owns(s.pc[t]) <==> s.owner == Some(t)))
    && (forall t :: 0 <= t < |s.pc| && s.pc[t].Mapped? ==> s.content == Some((t, s.pc[t].addr)))
    && (s.inUse <==> s.owner.Some?) && (s.owner.Some? ==> s.owner.value < |s.pc|)
  }

  ghost predicate LockOk(s: State) {
    && (forall t :: 0 <= t < |s.pc| ==> (Locks(s.pc[t]) <==> s.lock == Some(t)))
    && (s.lock.Some? ==> s.lock.value < |s.pc|)
  }

  /** Someone will look after the clients in the list. */
  ghost predicate Awaited(s: State) {
    s.queue != [] ==> s.inUse || SomeNotifies(s) || (s.lock.Some? && s.lock.value < |s.pc| && WillLook(s.pc[s.lock.value]))
  }

  ghost predicate Conserved(s: State) {
    s.registered == s.woken + s.removed + multiset(s.queue)
  }

  ghost predicate Inv(s: State) {
    OwnerOk(s) && LockOk(s) && Awaited(s) && Conserved(s)
  }

  /** Some thread has released the buffer and has yet to wake the clients. */
  ghost predicate SomeNotifies(s: State) {
    exists t :: 0 <= t < |s.pc| && s.pc[t].Notifying?
  }

  lemma NotifiesKept(s: State, s': State, t: nat)
    requires SomeNotifies(s) && |s'.pc| == |s.pc| && t < |s.pc| && !s.pc[t].Notifying? && s'.pc == s.pc[t := s'.pc[t]]
    ensures SomeNotifies(s')
  {
    var u :| 0 <= u < |s.pc| && s.pc[u].Notifying?;
    assert s'.pc[u].Notifying?;
  }

  lemma {:induction false} RemoveOne(q: seq<nat>, c: nat)
    ensures multiset(q) == multiset(Remove(q, c)) + if c in q then multiset{c} else multiset{}
  {
    if q != [] {
      assert q == [q[0]] + q[1..];
      if q[0] != c {
        RemoveOne(q[1..], c);
      }
    }
  }

  lemma OwnerKept(s: State, t: nat, a: Step)
    requires OwnerOk(s) && Enabled(s, t, a)
    ensures OwnerOk(Take(s, t, a))
  {
  }

  lemma LockKept(s: State, t: nat, a: Step)
    requires LockOk(s) && Enabled(s, t, a)
    ensures LockOk(Take(s, t, a))
  {
  }

  lemma AwaitedKept(s: State, t: nat, a: Step)
    requires OwnerOk(s) && LockOk(s) && Awaited(s) && Enabled(s, t, a)
    ensures Awaited(Take(s, t, a))
  {
    var s' := Take(s, t, a);
    if SomeNotifies(s) && !a.LockToNotify? {
      NotifiesKept(s, s', t);
    }
    if a.Clear? {
      assert s'.pc[t].Notifying?;
    }
  }

  lemma ConservedKept(s: State, t: nat, a: Step)
    requires Conserved(s) && Enabled(s, t, a)
    ensures Conserved(Take(s, t, a))
  {
    if a.LockToUnregister? {
      RemoveOne(s.queue, s.pc[t].client);
    }
  }

  lemma TakeKeeps(s: State, t: nat, a: Step)
    requires Inv(s) && Enabled(s, t, a)
    ensures Inv(Take(s, t, a))
  {
    hide OwnerOk, LockOk, Awaited, Conserved, Take, Enabled;
    OwnerKept(s, t, a);
    LockKept(s, t, a);
    AwaitedKept(s, t, a);
    ConservedKept(s, t, a);
  }

  // ---------------------------------------------------------------- runs

  predicate Start(s: State) {
    && (forall t :: 0 <= t < |s.pc| ==> s.pc[t].Idle?)
    && s == State(s.pc, false, None, [], None, None, multiset{}, multiset{}, multiset{})
  }

  /** Steps that cannot be taken are skipped. */
  function Run(s: State, steps: seq<(nat, Step)>): State
    decreases |steps|
  {
    if steps == [] then s
    else Run(if Enabled(s, steps[0].0, steps[0].1) then Take(s, steps[0].0, steps[0].1) else s, steps[1..])
  }

  lemma {:induction false} RunKeeps(s: State, steps: seq<(nat, Step)>)
    requires Inv(s)
    ensures Inv(Run(s, steps))
    decreases |steps|
  {
    if steps != [] {
      var (t, a) := steps[0];
      if Enabled(s, t, a) {
        TakeKeeps(s, t, a);
        RunKeeps(Take(s, t, a), steps[1..]);
      } else {
        RunKeeps(s, steps[1..]);
      }
    }
  }

  /** At most one thread has the bounce buffer at any time between claiming and releasing it, and while
      that thread is mapped the buffer holds what its mapping put there. */
  lemma OneMapping(s: State, steps: seq<(nat, Step)>, t: nat, u: nat)
    requires Start(s) && t < |Run(s, steps).pc| && u < |Run(s, steps).pc|
    requires Owns(Run(s, steps).pc[t]) && Owns(Run(s, steps).pc[u])
    ensures var s' := Run(s, steps);
            && t == u && s'.inUse
            && (s'.pc[t].Mapped? ==> s'.content == Some((t, s'.pc[t].addr)))
  {
    RunKeeps(s, steps);
  }

  /** No wakeup is lost: a client stays in the list only while the buffer is in use or a thread that has
      released it has yet to wake the clients. */
  lemma NoLostWakeup(s: State, steps: seq<(nat, Step)>)
    requires Start(s)
    ensures var s' := Run(s, steps); s'.lock == None && s'.queue != [] ==> s'.inUse || SomeNotifies(s')
  {
    RunKeeps(s, steps);
  }

  /** Every registered client is woken once, or unregistered, or still in the list. */
  lemma ClientsConserved(s: State, steps: seq<(nat, Step)>)
    requires Start(s)
    ensures var s' := Run(s, steps); s'.registered == s'.woken + s'.removed + multiset(s'.queue)
  {
    RunKeeps(s, steps);
  }

  /** When all threads are idle nobody waits and the buffer is free. */
  lemma QuietMeansServed(s: State, steps: seq<(nat, Step)>)
    requires Start(s) && forall t :: 0 <= t < |Run(s, steps).pc| ==> Run(s, steps).pc[t].Idle?
    ensures var s' := Run(s, steps); !s'.inUse && s'.lock == None && s'.queue == [] && s'.registered == s'.woken + s'.removed
  {
    RunKeeps(s, steps);
  }

  // ---------------------------------------------------------------- what the calls do

  /** Steps of one thread, one after the other. */
  function Solo(s: State, t: nat, steps: seq<Step>): State
    decreases |steps|
  {
    if steps == [] then s else Solo(if Enabled(s, t, steps[0]) then Take(s, t, steps[0]) else s, t, steps[1..])
  }

  /** They are a run. */
  lemma {:induction false} SoloIsRun(s: State, t: nat, steps: seq<Step>)
    ensures Solo(s, t, steps) == Run(s, seq(|steps|, i requires 0 <= i < |steps| => (t, steps[i])))
    decreases |steps|
  {
    hide Take, Enabled;
    if steps != [] {
      var s1 := if Enabled(s, t, steps[0]) then Take(s, t, steps[0]) else s;
      SoloIsRun(s1, t, steps[1..]);
      assert seq(|steps|, i requires 0 <= i < |steps| => (t, steps[i]))[1..] ==
             seq(|steps[1..]|, i requires 0 <= i < |steps[1..]| => (t, steps[1..][i]));
    }
  }

  lemma SoloFirst(s: State, t: nat, a: Step, rest: seq<Step>)
    ensures Solo(s, t, [a] + rest) == Solo(if Enabled(s, t, a) then Take(s, t, a) else s, t, rest)
  {
    assert ([a] + rest)[1..] == rest;
  }

  /** address_space_map, undisturbed: it takes the buffer and fills it if and only if that is free. */
  lemma MapCall(s: State, t: nat, addr: nat)
    requires t < |s.pc| && s.pc[t].Idle?
    ensures Solo(s, t, [Map(addr), Fill]) ==
            if s.inUse then s
            else s.(pc := s.pc[t := Mapped(addr)], inUse := true, owner := Some(t), content := Some((t, addr)))
  {
    assert [Map(addr), Fill] == [Map(addr)] + [Fill];
    SoloFirst(s, t, Map(addr), [Fill]);
    assert [Fill][1..] == [];
    assert s.pc[t := Filling(addr)][t := Mapped(addr)] == s.pc[t := Mapped(addr)];
  }

  /** cpu_notify_map_clients, undisturbed. */
  lemma NotifyCall(s: State, t: nat)
    requires t < |s.pc| && s.pc[t].Notifying? && s.lock == None
    ensures Solo(s, t, [LockToNotify, Drain, Unlock]) ==
            s.(pc := s.pc[t := Idle], queue := [], woken := s.woken + multiset(s.queue))
  {
    hide Solo, Remove;
    assert [LockToNotify, Drain, Unlock] == [LockToNotify] + [Drain, Unlock];
    SoloFirst(s, t, LockToNotify, [Drain, Unlock]);
    var s1 := s.(pc := s.pc[t := Draining], lock := Some(t));
    assert Take(s, t, LockToNotify) == s1;
    DrainCall(s1, t);
    assert s1.pc[t := Idle] == s.pc[t := Idle];
  }

  lemma DrainCall(s: State, t: nat)
    requires t < |s.pc| && s.pc[t].Draining?
    ensures Solo(s, t, [Drain, Unlock]) == s.(pc := s.pc[t := Idle], lock := None, queue := [], woken := s.woken + multiset(s.queue))
  {
    hide Solo, Remove;
    assert [Drain, Unlock] == [Drain] + [Unlock];
    SoloFirst(s, t, Drain, [Unlock]);
    UnlockCall(Take(s, t, Drain), t);
    assert s.pc[t := Leaving][t := Idle] == s.pc[t := Idle];
  }

  lemma UnlockCall(s: State, t: nat)
    requires t < |s.pc| && s.pc[t].Leaving?
    ensures Solo(s, t, [Unlock]) == s.(pc := s.pc[t := Idle], lock := None)
  {
    assert [Unlock][1..] == [];
  }

  /** address_space_unmap, undisturbed: the buffer is free and all clients have been woken. */
  lemma UnmapCall(s: State, t: nat)
    requires t < |s.pc| && s.pc[t].Mapped? && s.lock == None
    ensures Solo(s, t, [Unmap, Clear, LockToNotify, Drain, Unlock]) ==
            s.(pc := s.pc[t := Idle], inUse := false, owner := None, content := None, queue := [], woken := s.woken + multiset(s.queue))
  {
    hide Solo, Remove;
    assert [Unmap, Clear, LockToNotify, Drain, Unlock] == [Unmap] + [Clear, LockToNotify, Drain, Unlock];
    SoloFirst(s, t, Unmap, [Clear, LockToNotify, Drain, Unlock]);
    var s1 := s.(pc := s.pc[t := Clearing], content := None);
    assert Take(s, t, Unmap) == s1;
    assert [Clear, LockToNotify, Drain, Unlock] == [Clear] + [LockToNotify, Drain, Unlock];
    SoloFirst(s1, t, Clear, [LockToNotify, Drain, Unlock]);
    var s2 := s.(pc := s.pc[t := Notifying], inUse := false, owner := None, content := None);
    assert s1.pc[t := Notifying] == s2.pc;
    assert Take(s1, t, Clear) == s2;
    NotifyCall(s2, t);
    assert s2.pc[t := Idle] == s.pc[t := Idle];
  }

  /** cpu_register_map_client, undisturbed: while the buffer is in use the client waits, and otherwise it is
      woken with all others. */
  lemma RegisterCall(s: State, t: nat, c: nat)
    requires t < |s.pc| && s.pc[t].Idle? && s.lock == None
    ensures Solo(s, t, [Register(c), LockToRegister, Look, Wake, Unlock]) ==
            if s.inUse then s.(queue := [c] + s.queue, registered := s.registered + multiset{c})
            else s.(queue := [], registered := s.registered + multiset{c}, woken := s.woken + multiset([c] + s.queue))
  {
    hide Solo, Remove;
    var s2 := s.(pc := s.pc[t := Inserted], lock := Some(t), queue := [c] + s.queue, registered := s.registered + multiset{c});
    RegisterFirst(s, t, c, s2);
    LookCall(s2, t);
    assert s2.pc[t := Idle] == s.pc;
  }

  lemma RegisterFirst(s: State, t: nat, c: nat, s2: State)
    requires t < |s.pc| && s.pc[t].Idle? && s.lock == None
    requires s2 == s.(pc := s.pc[t := Inserted], lock := Some(t), queue := [c] + s.queue, registered := s.registered + multiset{c})
    ensures Solo(s, t, [Register(c), LockToRegister, Look, Wake, Unlock]) == Solo(s2, t, [Look, Wake, Unlock])
  {
    hide Solo, Remove;
    assert [Register(c), LockToRegister, Look, Wake, Unlock] == [Register(c)] + [LockToRegister, Look, Wake, Unlock];
    SoloFirst(s, t, Register(c), [LockToRegister, Look, Wake, Unlock]);
    var s1 := s.(pc := s.pc[t := Registering(c)]);
    assert Take(s, t, Register(c)) == s1;
    assert [LockToRegister, Look, Wake, Unlock] == [LockToRegister] + [Look, Wake, Unlock];
    SoloFirst(s1, t, LockToRegister, [Look, Wake, Unlock]);
    assert s1.pc[t := Inserted] == s2.pc;
  }

  lemma LookCall(s: State, t: nat)
    requires t < |s.pc| && s.pc[t].Inserted?
    ensures Solo(s, t, [Look, Wake, Unlock]) ==
            if s.inUse then s.(pc := s.pc[t := Idle], lock := None)
            else s.(pc := s.pc[t := Idle], lock := None, queue := [], woken := s.woken + multiset(s.queue))
  {
    hide Solo, Remove;
    assert [Look, Wake, Unlock] == [Look] + [Wake, Unlock];
    SoloFirst(s, t, Look, [Wake, Unlock]);
    var s1 := s.(pc := s.pc[t := if s.inUse then Leaving else Waking]);
    assert Take(s, t, Look) == s1;
    assert [Wake, Unlock] == [Wake] + [Unlock];
    SoloFirst(s1, t, Wake, [Unlock]);
    UnlockCall(if s.inUse then s1 else Take(s1, t, Wake), t);
    assert s1.pc[t := Leaving][t := Idle] == s.pc[t := Idle] && s1.pc[t := Idle] == s.pc[t := Idle];
  }

  lemma UnregisterSteps(s: State, t: nat, c: nat)
    requires t < |s.pc| && s.pc[t].Idle? && s.lock == None
    ensures Solo(s, t, [Unregister(c), LockToUnregister, Unlock]) ==
            s.(queue := Remove(s.queue, c), removed := if c in s.queue then s.removed + multiset{c} else s.removed)
  {
    hide Remove;
    hide Solo;
    assert [Unregister(c), LockToUnregister, Unlock] == [Unregister(c)] + [LockToUnregister, Unlock];
    SoloFirst(s, t, Unregister(c), [LockToUnregister, Unlock]);
    var s1 := s.(pc := s.pc[t := Unregistering(c)]);
    assert Take(s, t, Unregister(c)) == s1;
    assert [LockToUnregister, Unlock] == [LockToUnregister] + [Unlock];
    SoloFirst(s1, t, LockToUnregister, [Unlock]);
    UnlockCall(Take(s1, t, LockToUnregister), t);
    assert s1.pc[t := Leaving][t := Idle] == s.pc;
  }

  /** cpu_unregister_map_client, undisturbed: the client waits no longer, if it did. */
  lemma UnregisterCall(s: State, t: nat, c: nat)
    requires t < |s.pc| && s.pc[t].Idle? && s.lock == None
    ensures var s' := Solo(s, t, [Unregister(c), LockToUnregister, Unlock]);
            && s' == s.(queue := s'.queue, removed := s'.removed)
            && multiset(s'.queue) == multiset(s.queue) - multiset{c}
            && s'.removed == if c in s.queue then s.removed + multiset{c} else s.removed
  {
    hide Solo, Remove;
    UnregisterSteps(s, t, c);
    RemoveOne(s.queue, c);
  }

  // ---------------------------------------------------------------- everybody is served

  /** How many steps a thread has still to do. */
  function Weight(p: Pc): nat {
    match p
    case Idle => 0
    case Leaving => 1
    case Unregistering(_) => 2
    case Draining | Waking => 2
    case Notifying | Inserted => 3
    case Clearing | Registering(_) => 4
    case Mapped(_) => 5
    case Filling(_) => 6
  }

  function Total(pc: seq<Pc>): nat {
    if pc == [] then 0 else Total(pc[..|pc| - 1]) + Weight(pc[|pc| - 1])
  }

  lemma {:induction false} TotalUpdate(pc: seq<Pc>, t: nat, p: Pc)
    requires t < |pc|
    ensures Total(pc[t := p]) == Total(pc) - Weight(pc[t]) + Weight(p)
  {
    var k := |pc| - 1;
    if t == k {
      assert pc[t := p][..k] == pc[..k];
    } else {
      assert pc[t := p][..k] == pc[..k][t := p];
      TotalUpdate(pc[..k], t, p);
    }
  }

  /** The step goes on with a call. */
  predicate GoesOn(a: Step) {
    !a.Map? && !a.Register? && !a.Unregister?
  }

  /** Going on leaves less to do, so without new calls no run is endless. */
  lemma StepShrinks(s: State, t: nat, a: Step)
    requires Enabled(s, t, a) && GoesOn(a)
    ensures |Take(s, t, a).pc| == |s.pc| && Total(Take(s, t, a).pc) < Total(s.pc)
  {
    TotalUpdate(s.pc, t, Take(s, t, a).pc[t]);
    assert Take(s, t, a).pc == s.pc[t := Take(s, t, a).pc[t]];
  }

  /** Unless all threads are idle one can go on. */
  lemma SomeoneGoesOn(s: State) returns (t: nat, a: Step)
    requires Inv(s) && exists u :: 0 <= u < |s.pc| && !s.pc[u].Idle?
    ensures Enabled(s, t, a) && GoesOn(a)
  {
    if s.lock.Some? {
      t := s.lock.value;
      assert Locks(s.pc[t]);
    } else {
      t :| t < |s.pc| && !s.pc[t].Idle?;
      assert !Locks(s.pc[t]);
    }
    match s.pc[t] {
      case Filling(_) => a := Fill;
      case Mapped(_) => a := Unmap;
      case Clearing => a := Clear;
      case Notifying => a := LockToNotify;
      case Draining => a := Drain;
      case Registering(_) => a := LockToRegister;
      case Inserted => a := Look;
      case Waking => a := Wake;
      case Unregistering(_) => a := LockToUnregister;
      case Leaving => a := Unlock;
    }
  }

  lemma {:induction false} RunAppend(s: State, a: seq<(nat, Step)>, b: seq<(nat, Step)>)
    ensures Run(s, a + b) == Run(Run(s, a), b)
    decreases |a|
  {
    if a == [] {
      assert a + b == b;
    } else {
      assert (a + b)[1..] == a[1..] + b;
      RunAppend(if Enabled(s, a[0].0, a[0].1) then Take(s, a[0].0, a[0].1) else s, a[1..], b);
    }
  }

  /** Every run can be continued, by the calls under way, until all threads are idle; then the buffer is
      free and every client that was registered has been woken or unregistered. */
  lemma {:induction false} RunsOut(s: State, steps: seq<(nat, Step)>) returns (more: seq<(nat, Step)>)
    requires Start(s)
    ensures forall i :: 0 <= i < |more| ==> GoesOn(more[i].1)
    ensures var s' := Run(s, steps + more);
            && (forall t :: 0 <= t < |s'.pc| ==> s'.pc[t].Idle?)
            && !s'.inUse && s'.queue == [] && s'.registered == s'.woken + s'.removed
    decreases Total(Run(s, steps).pc)
  {
    hide Take, Enabled, Total;
    var s1 := Run(s, steps);
    RunKeeps(s, steps);
    if exists u :: 0 <= u < |s1.pc| && !s1.pc[u].Idle? {
      var t, a := SomeoneGoesOn(s1);
      StepShrinks(s1, t, a);
      RunAppend(s, steps, [(t, a)]);
      RunOne(s1, t, a);
      var rest := RunsOut(s, steps + [(t, a)]);
      more := [(t, a)] + rest;
      assert steps + more == (steps + [(t, a)]) + rest;
    } else {
      more := [];
      assert steps + more == steps;
      QuietMeansServed(s, steps);
    }
  }

  lemma RunOne(s: State, t: nat, a: Step)
    requires Enabled(s, t, a)
    ensures Run(s, [(t, a)]) == Take(s, t, a)
  {
    assert [(t, a)][1..] == [];
  }
}
