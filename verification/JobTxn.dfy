/** Jobs and job transactions (job.c): the state transition table, and how the jobs of a transaction
complete, abort and are finalised together.

A transaction that aborts cancels the other jobs and then waits, in a nested event loop, for those
that are not done.  The steps below are those the event loop can take: they may come in any order,
also while an abort is waiting.
*/
module JobTxn {
  import opened Lists
  import opened Wrappers

  datatype Status =
    | Undefined | Created | Running | Paused | Ready | Standby | Waiting | Pending | Aborting | Concluded | Null

  /** JobSTT */
  predicate Allowed(s0: Status, s1: Status) {
    match s0
    case Undefined => s1.Created?
    case Created => s1.Running? || s1.Aborting? || s1.Null?
    case Running => s1.Paused? || s1.Ready? || s1.Waiting? || s1.Aborting?
    case Paused => s1.Running?
    case Ready => s1.Standby? || s1.Waiting? || s1.Aborting?
    case Standby => s1.Ready?
    case Waiting => s1.Pending? || s1.Aborting?
    case Pending => s1.Aborting? || s1.Concluded?
    case Aborting => s1.Aborting? || s1.Concluded?
    case Concluded => s1.Null?
    case Null => false
  }

  datatype Verb = Cancel | Pause | Resume | SetSpeed | Complete | Finalize | Dismiss

  /** JobVerbTable */
  predicate Accepts(v: Verb, s: Status) {
    match v
    case Cancel => !s.Undefined? && !s.Aborting? && !s.Concluded? && !s.Null?
    case Pause | Resume | SetSpeed => s.Created? || s.Running? || s.Paused? || s.Ready? || s.Standby?
    case Complete => s.Ready?
    case Finalize => s.Pending?
    case Dismiss => s.Concluded?
  }

  /** job_is_completed */
  predicate IsCompleted(s: Status) {
    s.Waiting? || s.Pending? || s.Aborting? || s.Concluded? || s.Null?
  }

  /** How far a job has come: pausing and becoming ready do not count. */
  function Phase(s: Status): nat {
    match s
    case Undefined => 0
    case Created => 1
    case Running | Paused | Ready | Standby => 2
    case Waiting => 3
    case Pending => 4
    case Aborting => 5
    case Concluded => 6
    case Null => 7
  }

  /** The tables agree: no transition leads back, a job is gone only from its conclusion or if it never
      started, and concludes only after it was pending or aborting; a job can be paused and resumed exactly
      until it completes, cancelled exactly as long as it may yet abort, finalised where it can only
      conclude or abort, and dismissed exactly once it has concluded. */
  lemma TablesAgree(s: Status, s1: Status)
    ensures Allowed(s, s1) ==> Phase(s) <= Phase(s1) && !s.Null?
    ensures Allowed(s, Null) <==> s.Created? || s.Concluded?
    ensures Allowed(s, Concluded) <==> s.Pending? || s.Aborting?
    ensures Allowed(s, Waiting) <==> s.Running? || s.Ready?
    ensures Accepts(Pause, s) <==> !s.Undefined? && !IsCompleted(s)
    ensures Accepts(Resume, s) == Accepts(SetSpeed, s) == Accepts(Pause, s)
    ensures Accepts(Cancel, s) <==>
              !s.Undefined? && !s.Aborting? && (Allowed(s, Aborting) || exists m :: Allowed(s, m) && Allowed(m, Aborting))
    ensures Accepts(Complete, s) <==> Allowed(s, Standby)
    ensures Accepts(Finalize, s) <==> Allowed(s, Concluded) && !s.Aborting?
    ensures Accepts(Dismiss, s) <==> Allowed(s, Null) && Phase(s) > Phase(Pending)
  {
    assert Allowed(Paused, Running) && Allowed(Running, Aborting) && Allowed(Standby, Ready) && Allowed(Ready, Aborting);
  }

  const ECANCELED := 125

  /** A job.  `deferred` says that its coroutine has returned and `exiting` that job_exit has yet to run
      for it; commits and aborts count the calls of the driver's functions, and dismissals what the user has
      dismissed. */
  datatype Job = Job(
    status: Status, ret: int, cancelled: bool, started: bool, deferred: bool, exiting: bool,
    autoFinalize: bool, autoDismiss: bool, hasPrepare: bool, commits: nat, aborts: nat, dismissals: nat)

  /** job_create */
  function NewJob(autoFinalize: bool, autoDismiss: bool, hasPrepare: bool): Job {
    Job(Created, 0, false, false, false, false, autoFinalize, autoDismiss, hasPrepare, 0, 0, 0)
  }

  /** What a job is like in each of its states; a member is still in the list of the transaction. */
  predicate JobOk(x: Job, member: bool) {
    && (member <==> !x.status.Concluded? && !x.status.Null?)
    && (if member then x.commits == 0 && x.aborts == 0 && x.dismissals == 0
        else x.commits + x.aborts == 1 && (x.commits == 1 <==> x.ret == 0) && !x.exiting && (x.started ==> x.deferred))
    && match x.status
       case Undefined => false
       case Created => !x.started && !x.deferred && !x.exiting && x.ret == 0
       case Running | Ready => x.started && x.exiting == x.deferred && (!x.deferred ==> x.ret == 0)
       case Paused | Standby => x.started && !x.deferred && !x.exiting && x.ret == 0
       case Waiting | Pending => x.started && x.deferred && !x.exiting && x.ret == 0
       case Aborting => x.ret != 0 && !x.exiting && (x.started ==> x.deferred)
       case Concluded => Manual(x) && x.dismissals == 0
       case Null => x.dismissals == if Manual(x) then 1 else 0
  }

  /** The user is to dismiss the job. */
  predicate Manual(x: Job) {
    x.started && !x.autoDismiss
  }

  predicate SameKind(x: Job, y: Job) {
    y.autoFinalize == x.autoFinalize && y.autoDismiss == x.autoDismiss && y.hasPrepare == x.hasPrepare
  }

  /** The jobs are of the same kinds. */
  ghost predicate SameKinds(jobs: seq<Job>, jobs': seq<Job>) {
    |jobs'| == |jobs| && forall k :: 0 <= k < |jobs| ==> SameKind(jobs[k], jobs'[k])
  }

  /** Besides, the same have been started and dismissed. */
  ghost predicate SameLives(jobs: seq<Job>, jobs': seq<Job>) {
    |jobs'| == |jobs| && forall k :: 0 <= k < |jobs| ==> SameLife(jobs[k], jobs'[k])
  }

  predicate SameLife(x: Job, y: Job) {
    SameKind(x, y) && y.started == x.started && y.dismissals == x.dismissals
  }

  lemma SameLivesTrans(a: seq<Job>, b: seq<Job>, c: seq<Job>)
    requires SameLives(a, b) && SameLives(b, c)
    ensures SameLives(a, c)
  {
    forall k | 0 <= k < |a| ensures SameLife(a[k], c[k]) {
      assert SameLife(a[k], b[k]) && SameLife(b[k], c[k]);
    }
  }

  lemma SameLivesSelf(a: seq<Job>)
    ensures SameLives(a, a)
  {
  }

  lemma SameLivesKinds(a: seq<Job>, b: seq<Job>)
    requires SameLives(a, b)
    ensures SameKinds(a, b)
  {
    forall k | 0 <= k < |a| ensures SameKind(a[k], b[k]) {
      assert SameLife(a[k], b[k]);
    }
  }

  lemma SameKindsTrans(a: seq<Job>, b: seq<Job>, c: seq<Job>)
    requires SameKinds(a, b) && SameKinds(b, c)
    ensures SameKinds(a, c)
  {
    forall k | 0 <= k < |a| ensures SameKind(a[k], c[k]) {
      assert SameKind(a[k], b[k]) && SameKind(b[k], c[k]);
    }
  }

  lemma SameLivesAt(jobs: seq<Job>, j: nat, x: Job)
    requires j < |jobs| && SameKind(jobs[j], x)
    ensures SameKinds(jobs, jobs[j := x]) && (SameLife(jobs[j], x) ==> SameLives(jobs, jobs[j := x]))
  {
  }

  /** Why a transaction aborts: a job failed or was cancelled, or, when job `initiator` was finalised, a prepare
      function failed. */
  datatype Cause = Failure | Prepare(initiator: nat, failed: nat)

  datatype Txn = Txn(jobs: seq<Job>, list: seq<nat>, aborting: bool, cause: Option<Cause>)

  /** Holds at every moment. */
  ghost predicate Sane(t: Txn) {
    && Distinct(t.list) && (forall i :: 0 <= i < |t.list| ==> t.list[i] < |t.jobs|)
    && (forall j :: 0 <= j < |t.jobs| ==> JobOk(t.jobs[j], j in t.list))
    && (t.aborting <==> t.cause.Some?)
  }

  /** While the transaction is not aborting, its jobs complete together. */
  ghost predicate Together(t: Txn)
    requires Sane(t)
  {
    && (t.list == [] || forall j :: 0 <= j < |t.jobs| ==> j in t.list)
    && (forall j :: 0 <= j < |t.jobs| ==> !t.jobs[j].status.Aborting? && t.jobs[j].aborts == 0)
    && (forall j :: j in t.list && IsCompleted(t.jobs[j].status) ==> !t.jobs[j].cancelled)
    && ((exists j :: j in t.list && t.jobs[j].status.Pending?) || (forall j :: j in t.list ==> IsCompleted(t.jobs[j].status)) ==>
          forall j :: j in t.list ==> t.jobs[j].status.Pending?)
  }

  /** While it is aborting, no job that is left can succeed. */
  ghost predicate GivingUp(t: Txn)
    requires Sane(t) && t.aborting
  {
    && (t.list != [] ==> t.cause == Some(Failure))
    && (t.cause.value.Failure? ==> forall j :: 0 <= j < |t.jobs| ==> t.jobs[j].commits == 0)
    && (forall j :: j in t.list ==> Doomed(t.jobs[j]) && !t.jobs[j].status.Pending?)
    && (t.cause.value.Prepare? ==> PrepareFailed(t))
  }

  /** The job cannot succeed any more. */
  predicate Doomed(x: Job) {
    x.cancelled || x.status.Aborting?
  }

  /** After a failed prepare function every job has aborted, except that the job that was finalised has
      committed unless it is the one that failed. */
  ghost predicate PrepareFailed(t: Txn)
    requires t.cause.Some? && t.cause.value.Prepare?
  {
    && t.cause.value.initiator < |t.jobs| && t.cause.value.failed < |t.jobs|
    && forall j :: 0 <= j < |t.jobs| ==>
      t.jobs[j].commits == if j == t.cause.value.initiator && j != t.cause.value.failed then 1 else 0
  }

  /** Holds between the steps. */
  ghost predicate Inv(t: Txn) {
    Sane(t) && if t.aborting then GivingUp(t) else Together(t)
  }

  /** All jobs of the transaction have been finalised. */
  predicate Over(t: Txn) {
    t.list == []
  }

  /** Every job of a transaction that is over has committed or aborted, once.  They have all committed
      if the transaction did not abort and all aborted if it did, except for a job that was finalised when
      the prepare function of another job failed: it has committed.  A job that was started and is not
      dismissed automatically has concluded until the user dismisses it, once; any other is gone. */
  lemma Outcome(t: Txn, j: nat)
    requires Inv(t) && Over(t) && j < |t.jobs|
    ensures t.jobs[j].commits + t.jobs[j].aborts == 1
    ensures t.jobs[j].commits == 1 <==>
              (t.aborting ==> t.cause.value.Prepare? && t.cause.value.initiator == j && t.cause.value.failed != j)
    ensures t.jobs[j].commits == 1 <==> t.jobs[j].ret == 0
    ensures var x := t.jobs[j];
            && (x.status.Concluded? <==> x.started && !x.autoDismiss && x.dismissals == 0)
            && (x.status.Null? <==> !x.started || x.autoDismiss || x.dismissals == 1)
            && x.dismissals <= 1
  {
    assert JobOk(t.jobs[j], false);
  }

  /** All commit or all abort, exactly unless the prepare function of a job other than the finalised one
      failed. */
  lemma AllOrNothing(t: Txn)
    requires Inv(t) && Over(t)
    ensures Alike(t.jobs) <==>
              !(t.aborting && t.cause.value.Prepare? && t.cause.value.initiator != t.cause.value.failed)
  {
    hide JobOk;
    forall j | 0 <= j < |t.jobs|
      ensures t.jobs[j].commits == if !t.aborting then 1
                                   else if t.cause.value.Prepare? && t.cause.value.initiator == j && t.cause.value.failed != j then 1
                                   else 0
    {
      Outcome(t, j);
    }
    if t.aborting && t.cause.value.Prepare? {
      PrepareIn(t);
      var i, f := t.cause.value.initiator, t.cause.value.failed;
      assert i != f ==> t.jobs[i].commits != t.jobs[f].commits;
    }
  }

  lemma PrepareIn(t: Txn)
    requires Inv(t) && t.aborting && t.cause.value.Prepare?
    ensures t.cause.value.initiator < |t.jobs| && t.cause.value.failed < |t.jobs|
  {
  }

  // ---------------------------------------------------------------- one job

  /** job_update_rc */
  function UpdatedRc(x: Job): Job {
    var ret := if x.ret == 0 && x.cancelled then -ECANCELED else x.ret;
    x.(ret := ret, status := if ret != 0 then Aborting else x.status)
  }

  /** job_do_dismiss, as far as the job itself is concerned */
  function Dismissed(x: Job): Job {
    x.(status := Null, deferred := true)
  }

  /** job_finalize_single */
  function Finalized(x: Job): Job {
    var y := UpdatedRc(x);
    var z := if y.ret == 0 then y.(commits := y.commits + 1) else y.(aborts := y.aborts + 1);
    if z.autoDismiss || !z.started then Dismissed(z) else z.(status := Concluded)
  }

  lemma FinalizedOk(x: Job)
    requires JobOk(x, true) && IsCompleted(x.status)
    ensures JobOk(Finalized(x), false)
    ensures Finalized(x).commits == (if Doomed(x) then 0 else 1)
  {
  }

  // ---------------------------------------------------------------- the list

  /** Each job of list0 that is not in the list any more has been finalised; the others are as before. */
  ghost predicate Finalizing(jobs0: seq<Job>, list0: seq<nat>, jobs: seq<Job>, list: seq<nat>) {
    && |jobs| == |jobs0| && (forall j :: j in list ==> j in list0)
    && forall j :: 0 <= j < |jobs| ==> jobs[j] == if j in list0 && j !in list then Finalized(jobs0[j]) else jobs0[j]
  }

  lemma FinalizingSame(jobs0: seq<Job>, list0: seq<nat>, jobs: seq<Job>, list: seq<nat>)
    requires Finalizing(jobs0, list0, jobs, list)
    ensures SameLives(jobs0, jobs)
  {
    hide Finalized;
    forall k | 0 <= k < |jobs| ensures SameLife(jobs0[k], jobs[k]) {
      FinalizedCancelled(jobs0[k]);
    }
  }

  lemma FinalizingMore(jobs0: seq<Job>, list0: seq<nat>, jobs: seq<Job>, list: seq<nat>, j: nat)
    requires Finalizing(jobs0, list0, jobs, list) && j in list && j < |jobs|
    ensures Finalizing(jobs0, list0, jobs[j := Finalized(jobs[j])], Without(list, j))
  {
    WithoutIs(list, j);
  }

  lemma SaneFinalized(t: Txn, j: nat)
    requires Sane(t) && j in t.list && IsCompleted(t.jobs[j].status)
    ensures Sane(t.(jobs := t.jobs[j := Finalized(t.jobs[j])], list := Without(t.list, j)))
  {
    hide Finalized, IsCompleted;
    WithoutIs(t.list, j);
    FinalizedOk(t.jobs[j]);
    var list := Without(t.list, j);
    forall i | 0 <= i < |list| ensures list[i] < |t.jobs| {
      assert list[i] in list;
    }
  }

  lemma MemberOk(t: Txn, j: nat)
    requires Sane(t) && j in t.list
    ensures j < |t.jobs| && JobOk(t.jobs[j], true)
  {
    hide JobOk;
  }

  lemma PendingRet(x: Job)
    requires JobOk(x, true) && x.status.Pending?
    ensures x.ret == 0 && x.started && x.dismissals == 0
  {
  }

  lemma MemberLife(t: Txn, j: nat)
    requires Sane(t) && j in t.list && t.jobs[j].status.Pending?
    ensures t.jobs[j].started && t.jobs[j].dismissals == 0
  {
    hide JobOk;
    MemberOk(t, j);
    PendingRet(t.jobs[j]);
  }

  /** A job whose coroutine has just returned, or that is cancelled before it started. */
  lemma NotDone(t: Txn, j: nat)
    requires Inv(t) && j < |t.jobs|
    requires if t.jobs[j].started then t.jobs[j].exiting else t.jobs[j].status.Created? && t.jobs[j].cancelled
    ensures j in t.list && !IsCompleted(t.jobs[j].status) && Allowed(t.jobs[j].status, Aborting)
    ensures var x := UpdatedRc(t.jobs[j]).(exiting := false);
            if x.ret != 0 then x.status.Aborting? && JobOk(x, true)
            else !t.jobs[j].cancelled && Allowed(x.status, Waiting) && JobOk(x.(status := Waiting), true)
  {
    assert JobOk(t.jobs[j], j in t.list);
  }

  /** A job that can succeed shows that its transaction is not aborting. */
  lemma SuccessMeansTogether(t: Txn, j: nat)
    requires Inv(t) && j < |t.jobs| && !IsCompleted(t.jobs[j].status) && !t.jobs[j].cancelled
    ensures !t.aborting
  {
    assert JobOk(t.jobs[j], j in t.list);
  }

  lemma InvSane(t: Txn)
    requires Inv(t)
    ensures Sane(t)
  {
  }

  /** A new transaction: its jobs are created and in its list. */
  lemma NewInv(t: Txn)
    requires forall j :: 0 <= j < |t.jobs| ==> t.jobs[j].status.Created? && JobOk(t.jobs[j], true) && t.jobs[j].aborts == 0
    requires |t.list| == |t.jobs| && (forall k :: 0 <= k < |t.list| ==> t.list[k] == |t.jobs| - 1 - k)
    requires !t.aborting && t.cause == None
    ensures Inv(t)
  {
    hide JobOk;
    forall j | 0 <= j < |t.jobs| ensures j in t.list {
      assert t.list[|t.jobs| - 1 - j] == j;
    }
  }

  // ---------------------------------------------------------------- the transaction

  /** The other jobs of the list are cancelled. */
  function CancelOthers(jobs: seq<Job>, list: seq<nat>, j: nat): seq<Job> {
    seq(|jobs|, k requires 0 <= k < |jobs| => if k in list && k != j then jobs[k].(cancelled := true) else jobs[k])
  }

  lemma CancelSane(t: Txn, jobs: seq<Job>)
    requires Sane(t) && |jobs| == |t.jobs|
    requires forall k :: 0 <= k < |jobs| ==> jobs[k] == t.jobs[k] || jobs[k] == t.jobs[k].(cancelled := true)
    ensures Sane(t.(jobs := jobs))
  {
    forall k | 0 <= k < |jobs| ensures JobOk(jobs[k], k in t.list) {
      assert JobOk(t.jobs[k], k in t.list);
    }
  }

  /** A transaction whose job j has failed or been cancelled, or has seen a prepare function fail, before
      it aborts: no job has been finalised yet, and if one is pending all have completed. */
  ghost predicate Unfinished(t: Txn, j: nat) {
    && Sane(t) && j in t.list && (forall k :: 0 <= k < |t.jobs| ==> k in t.list)
    && ((exists k :: 0 <= k < |t.jobs| && t.jobs[k].status.Pending?) ==> forall k :: 0 <= k < |t.jobs| ==> IsCompleted(t.jobs[k].status))
  }

  lemma AbortedFailure(t0: Txn, t: Txn, j: nat)
    requires Unfinished(t0, j) && Doomed(t0.jobs[j])
    requires Sane(t) && t.aborting && t.cause == Some(Failure)
    requires Finalizing(CancelOthers(t0.jobs, t0.list, j), t0.list, t.jobs, t.list)
    requires t.list != [] ==> !IsCompleted(t.jobs[t.list[0]].status)
    ensures Inv(t)
  {
    hide Finalized;
    forall k | 0 <= k < |t.jobs| ensures t.jobs[k].commits == 0 && (k in t.list ==> Doomed(t.jobs[k]) && !t.jobs[k].status.Pending?) {
      assert JobOk(t0.jobs[k], true) && JobOk(t.jobs[k], k in t.list);
      var x := CancelOthers(t0.jobs, t0.list, j)[k];
      if k in t.list {
        assert t.list[0] in t0.list;
      } else {
        FinalizedDoomed(x);
      }
    }
  }

  lemma FinalizedCancelled(x: Job)
    ensures Finalized(x).cancelled == x.cancelled && SameLife(x, Finalized(x))
  {
    UpdatedSame(x);
    hide UpdatedRc;
  }

  lemma UpdatedSame(x: Job)
    ensures UpdatedRc(x).cancelled == x.cancelled && SameLife(x, UpdatedRc(x))
  {
  }

  lemma FinalizedDoomed(x: Job)
    requires JobOk(x, true) && Doomed(x)
    ensures Finalized(x).commits == 0
  {
  }

  lemma FirstCompleted(t0: Txn, t: Txn, j: nat)
    requires Sane(t0) && Sane(t) && t.list != [] && forall k :: 0 <= k < |t0.jobs| ==> IsCompleted(t0.jobs[k].status)
    requires Finalizing(CancelOthers(t0.jobs, t0.list, j), t0.list, t.jobs, t.list)
    ensures IsCompleted(t.jobs[t.list[0]].status)
  {
    hide Finalized, JobOk;
    assert t.list[0] in t.list;
  }

  lemma AbortedPrepare(t0: Txn, t: Txn, j: nat, f: nat)
    requires Unfinished(t0, j) && f < |t0.jobs| && t0.jobs[f].status.Aborting?
    requires j != f ==> !Doomed(t0.jobs[j]) && t0.jobs[j].status.Pending?
    requires forall k :: 0 <= k < |t0.jobs| ==> IsCompleted(t0.jobs[k].status)
    requires Sane(t) && t.aborting && t.cause == Some(Prepare(j, f))
    requires Finalizing(CancelOthers(t0.jobs, t0.list, j), t0.list, t.jobs, t.list)
    requires t.list != [] ==> !IsCompleted(t.jobs[t.list[0]].status)
    ensures Inv(t) && Over(t)
  {
    hide Finalized, JobOk, Finalizing, CancelOthers;
    if t.list != [] {
      FirstCompleted(t0, t, j);
    }
    FinalizedSize(CancelOthers(t0.jobs, t0.list, j), t0.list, t.jobs, t.list);
    CancelSize(t0.jobs, t0.list, j);
    forall k | 0 <= k < |t.jobs| ensures t.jobs[k].commits == if k == j && k != f then 1 else 0 {
      MemberOk(t0, k);
      CommitsAt(t0, t, j, k);
    }
  }

  lemma FinalizedSize(jobs0: seq<Job>, list0: seq<nat>, jobs: seq<Job>, list: seq<nat>)
    requires Finalizing(jobs0, list0, jobs, list)
    ensures |jobs| == |jobs0|
  {
    hide Finalized;
  }

  lemma CancelSize(jobs: seq<Job>, list: seq<nat>, j: nat)
    ensures |CancelOthers(jobs, list, j)| == |jobs| && SameLives(jobs, CancelOthers(jobs, list, j))
  {
  }

  lemma CommitsAt(t0: Txn, t: Txn, j: nat, k: nat)
    requires k < |t0.jobs| == |t.jobs| && k in t0.list && JobOk(t0.jobs[k], true) && IsCompleted(t0.jobs[k].status)
    requires Finalizing(CancelOthers(t0.jobs, t0.list, j), t0.list, t.jobs, t.list) && t.list == []
    ensures t.jobs[k].commits == if k != j || Doomed(t0.jobs[k]) then 0 else 1
  {
    hide Finalized, JobOk;
    CancelledCommits(t0.jobs[k], k != j);
  }

  lemma CancelledCommits(x: Job, cancel: bool)
    requires JobOk(x, true) && IsCompleted(x.status)
    ensures Finalized(if cancel then x.(cancelled := true) else x).commits == if cancel || Doomed(x) then 0 else 1
  {
    hide Finalized;
    FinalizedOk(if cancel then x.(cancelled := true) else x);
  }

  // ---------------------------------------------------------------- completing together

  /** All jobs of the transaction are there, and have the status. */
  ghost predicate AllIn(t: Txn, s: Status) {
    && Sane(t) && !t.aborting && t.list != []
    && (forall k :: 0 <= k < |t.jobs| ==> k in t.list && t.jobs[k].status == s && !t.jobs[k].cancelled)
  }

  /** The job whose prepare function fails first, if prep says how they end. */
  function FirstFailure(jobs: seq<Job>, list: seq<nat>, prep: seq<int>): Option<nat>
    requires |prep| == |jobs| && forall i :: 0 <= i < |list| ==> list[i] < |jobs|
  {
    if list == [] then None
    else if jobs[list[0]].hasPrepare && prep[list[0]] != 0 then Some(list[0])
    else FirstFailure(jobs, list[1..], prep)
  }

  lemma ListInRange(t: Txn)
    requires AllIn(t, Pending)
    ensures forall i :: 0 <= i < |t.list| ==> t.list[i] < |t.jobs|
  {
  }

  lemma PendingMember(t: Txn, i: nat)
    requires AllIn(t, Pending) && i < |t.list| && t.list[i] < |t.jobs|
    ensures var x := t.jobs[t.list[i]]; x.status.Pending? && !x.cancelled && x.ret == 0
  {
    hide JobOk;
    MemberOk(t, t.list[i]);
    PendingRet(t.jobs[t.list[i]]);
  }

  lemma NoFailure(jobs: seq<Job>, list: seq<nat>, prep: seq<int>)
    requires |prep| == |jobs| && list == []
    ensures FirstFailure(jobs, list, prep) == None
  {
  }

  lemma FirstFailureNext(jobs: seq<Job>, list: seq<nat>, prep: seq<int>, i: nat)
    requires |prep| == |jobs| && i < |list| && forall k :: 0 <= k < |list| ==> list[k] < |jobs|
    ensures FirstFailure(jobs, list[i..], prep) ==
            if jobs[list[i]].hasPrepare && prep[list[i]] != 0 then Some(list[i]) else FirstFailure(jobs, list[i + 1..], prep)
  {
    assert list[i..][0] == list[i] && list[i..][1..] == list[i + 1..];
  }

  /** The jobs end alike: all have committed, or none. */
  ghost predicate Alike(jobs: seq<Job>) {
    forall j, k :: 0 <= j < |jobs| && 0 <= k < |jobs| ==> jobs[j].commits == jobs[k].commits
  }

  /** How a transaction ends that is finalised by job j: if no prepare function fails all jobs commit; if
      one fails all abort, except that j commits unless it is the one that failed.  So they end alike
      exactly if none fails, or that of j fails first. */
  ghost predicate Finished(t: Txn, t': Txn, j: nat, prep: seq<int>) {
    && |prep| == |t.jobs| == |t'.jobs| && (forall i :: 0 <= i < |t.list| ==> t.list[i] < |t.jobs|)
    && var f := FirstFailure(t.jobs, t.list, prep);
       && Over(t')
       && (if f.None? then !t'.aborting else t'.aborting && t'.cause == Some(Prepare(j, f.value)))
       && (forall k :: 0 <= k < |t'.jobs| ==>
             && t'.jobs[k].commits == (if f.None? || (k == j && f != Some(j)) then 1 else 0)
             && t'.jobs[k].aborts == 1 - t'.jobs[k].commits
             && t'.jobs[k].status == (if t.jobs[k].autoDismiss then Null else Concluded))
       && SameKinds(t.jobs, t'.jobs)
       && (Alike(t'.jobs) <==> f.None? || f == Some(j))
  }

  lemma FinishedAs(t: Txn, t': Txn, j: nat, prep: seq<int>)
    requires AllIn(t, Pending) && j < |t.jobs| && |prep| == |t.jobs| == |t'.jobs| && Inv(t') && Over(t')
    requires var f := FirstFailure(t.jobs, t.list, prep);
             if f.None? then !t'.aborting else t'.aborting && t'.cause == Some(Prepare(j, f.value))
    requires SameLives(t.jobs, t'.jobs)
    ensures Finished(t, t', j, prep)
  {
    hide JobOk, FirstFailure;
    var f := FirstFailure(t.jobs, t.list, prep);
    forall k | 0 <= k < |t'.jobs|
      ensures t'.jobs[k].commits == (if f.None? || (k == j && f != Some(j)) then 1 else 0)
      ensures t'.jobs[k].aborts == 1 - t'.jobs[k].commits
      ensures t'.jobs[k].status == if t.jobs[k].autoDismiss then Null else Concluded
    {
      Outcome(t', k);
      MemberLife(t, k);
    }
    AllOrNothing(t');
  }

  lemma FinishedSame(t: Txn, t1: Txn, t': Txn, j: nat, prep: seq<int>)
    requires Finished(t1, t', j, prep) && t.list == t1.list && SameKinds(t.jobs, t1.jobs)
    requires FirstFailure(t1.jobs, t1.list, prep) == FirstFailure(t.jobs, t.list, prep)
    ensures Finished(t, t', j, prep)
  {
  }

  /** How a transaction goes on when its last job, j, has come to wait for the others: all jobs are
      pending if one of them is to be finalised by the user, and otherwise j finalises them. */
  ghost predicate GoesOn(t: Txn, t': Txn, j: nat, prep: seq<int>) {
    && |t'.jobs| == |t.jobs| && (forall i :: 0 <= i < |t.list| ==> t.list[i] < |t.jobs|)
    && if exists i :: 0 <= i < |t.list| && !t.jobs[t.list[i]].autoFinalize
       then
         && AllIn(t', Pending) && t' == t.(jobs := t'.jobs)
         && forall k :: 0 <= k < |t.jobs| ==> t'.jobs[k] == t.jobs[k].(status := Pending)
       else Finished(t, t', j, prep)
  }

  lemma {:induction false} FirstFailureSame(jobs: seq<Job>, jobs': seq<Job>, list: seq<nat>, prep: seq<int>)
    requires |prep| == |jobs| == |jobs'| && (forall i :: 0 <= i < |list| ==> list[i] < |jobs|)
    requires forall k :: 0 <= k < |jobs| ==> jobs'[k].hasPrepare == jobs[k].hasPrepare
    ensures FirstFailure(jobs', list, prep) == FirstFailure(jobs, list, prep)
  {
    if list != [] {
      FirstFailureSame(jobs, jobs', list[1..], prep);
    }
  }

  lemma PendingInv(t: Txn)
    requires AllIn(t, Pending)
    ensures Inv(t)
  {
    forall k | 0 <= k < |t.jobs| ensures t.jobs[k].aborts == 0 {
      assert JobOk(t.jobs[k], true);
    }
  }

  lemma PrepareAborts(t: Txn, f: nat, r: int, j: nat)
    requires AllIn(t, Pending) && f < |t.jobs| && r != 0 && j < |t.jobs|
    ensures var t' := t.(jobs := t.jobs[f := t.jobs[f].(ret := r, status := Aborting)]);
            Unfinished(t', j) && (forall k :: 0 <= k < |t.jobs| ==> IsCompleted(t'.jobs[k].status))
  {
    var t' := t.(jobs := t.jobs[f := t.jobs[f].(ret := r, status := Aborting)]);
    forall k | 0 <= k < |t.jobs| ensures JobOk(t'.jobs[k], k in t'.list) {
      assert JobOk(t.jobs[k], true);
    }
  }

  lemma AllCommitted(t0: Txn, t: Txn)
    requires AllIn(t0, Pending) && Sane(t) && !t.aborting && t.list == [] && Finalizing(t0.jobs, t0.list, t.jobs, t.list)
    ensures Inv(t) && forall k :: 0 <= k < |t.jobs| ==> t.jobs[k].commits == 1 && t.jobs[k].aborts == 0
  {
    hide Finalized;
    forall k | 0 <= k < |t.jobs| ensures t.jobs[k].commits == 1 && t.jobs[k].aborts == 0 && !t.jobs[k].status.Aborting? {
      assert JobOk(t0.jobs[k], true) && JobOk(t.jobs[k], false);
      FinalizedOk(t0.jobs[k]);
    }
  }

  /** Every job is there and has not completed, or is waiting for the others. */
  ghost predicate SomeWait(t: Txn) {
    && Sane(t) && !t.aborting && t.list != []
    && forall k :: 0 <= k < |t.jobs| ==>
         && k in t.list && !t.jobs[k].status.Aborting? && !t.jobs[k].status.Pending?
         && (t.jobs[k].status.Waiting? ==> !t.jobs[k].cancelled)
  }

  lemma SomeWaitInv(t: Txn, k: nat)
    requires SomeWait(t) && k < |t.jobs| && !IsCompleted(t.jobs[k].status)
    ensures Inv(t)
  {
    forall k | 0 <= k < |t.jobs| ensures t.jobs[k].aborts == 0 {
      assert JobOk(t.jobs[k], true);
    }
  }

  lemma DoneIsWaiting(t: Txn, k: nat)
    requires SomeWait(t) && k < |t.jobs| && IsCompleted(t.jobs[k].status)
    ensures t.jobs[k].status.Waiting? && t.jobs[k].ret == 0
  {
    assert JobOk(t.jobs[k], true);
  }

  lemma ToPending(t: Txn, jobs: seq<Job>)
    requires AllIn(t, Waiting) && |jobs| == |t.jobs|
    requires forall k :: 0 <= k < |jobs| ==> jobs[k] == t.jobs[k].(status := Pending)
    ensures AllIn(t.(jobs := jobs), Pending)
  {
    forall k | 0 <= k < |jobs| ensures JobOk(jobs[k], k in t.list) {
      assert JobOk(t.jobs[k], true);
    }
  }

  /** A job that is not done while its transaction is not aborting. */
  lemma JobWaits(t: Txn, j: nat, x: Job)
    requires Inv(t) && !t.aborting && j < |t.jobs| && !IsCompleted(t.jobs[j].status)
    requires JobOk(x, true) && !x.status.Aborting? && !x.status.Pending? && (x.status.Waiting? ==> !x.cancelled)
    ensures j in t.list && SomeWait(t.(jobs := t.jobs[j := x]))
  {
    forall k | 0 <= k < |t.jobs| ensures !t.jobs[k].status.Pending? && k in t.list && JobOk(t.jobs[k], true) {
      assert JobOk(t.jobs[j], j in t.list) && JobOk(t.jobs[k], k in t.list);
    }
  }

  /** A job that is not done while its transaction is aborting. */
  lemma JobDoomed(t: Txn, j: nat, x: Job)
    requires Inv(t) && t.aborting && j < |t.jobs| && !IsCompleted(t.jobs[j].status)
    requires JobOk(x, true) && Doomed(x) && !x.status.Pending?
    ensures j in t.list && t.jobs[j].cancelled && Inv(t.(jobs := t.jobs[j := x]))
  {
    assert JobOk(t.jobs[j], j in t.list);
    var t' := t.(jobs := t.jobs[j := x]);
    forall k | 0 <= k < |t.jobs| ensures JobOk(t'.jobs[k], k in t'.list) {
      assert JobOk(t.jobs[k], k in t.list);
    }
  }

  /** A job that fails, or is cancelled, while its transaction is not aborting. */
  lemma JobFails(t: Txn, j: nat, x: Job)
    requires Inv(t) && !t.aborting && j < |t.jobs| && j in t.list
    requires JobOk(x, true) && Doomed(x) && (IsCompleted(t.jobs[j].status) ==> x.status == t.jobs[j].status)
    requires !x.status.Pending? || t.jobs[j].status.Pending?
    ensures Unfinished(t.(jobs := t.jobs[j := x]), j)
  {
    var t' := t.(jobs := t.jobs[j := x]);
    forall k | 0 <= k < |t.jobs| ensures JobOk(t'.jobs[k], k in t'.list) {
      assert JobOk(t.jobs[k], k in t.list);
    }
  }

  // ---------------------------------------------------------------- steps

  /** What becomes of a transaction when job j completes: if the job has failed or is cancelled the
      transaction aborts; otherwise the job waits, and the last one to do so lets all go on. */
  ghost predicate CompletedAs(t: Txn, t': Txn, j: nat, prep: seq<int>) {
    && j < |t.jobs| == |t'.jobs|
    && if t.jobs[j].ret != 0 || t.jobs[j].cancelled then
         && t'.aborting && t'.cause == (if t.aborting then t.cause else Some(Failure))
         && t'.jobs[j].cancelled == t.jobs[j].cancelled && SameKinds(t.jobs, t'.jobs)
         && (t.aborting ==> t' == t.(jobs := t.jobs[j := UpdatedRc(t.jobs[j]).(exiting := false)]))
       else
         && !t.aborting
         && var t1 := t.(jobs := t.jobs[j := t.jobs[j].(exiting := false, status := Waiting)]);
            if exists k :: 0 <= k < |t1.jobs| && !IsCompleted(t1.jobs[k].status) then t' == t1 else GoesOn(t1, t', j, prep)
  }

  /** The coroutine of the job is running. */
  predicate InCoroutine(x: Job) {
    x.started && !x.deferred && (x.status.Running? || x.status.Ready?)
  }

  /** A step of a job that has not completed. */
  lemma CoroutineStep(t: Txn, j: nat, x: Job)
    requires Inv(t) && j < |t.jobs| && !IsCompleted(t.jobs[j].status)
    requires !IsCompleted(x.status) && x.cancelled == t.jobs[j].cancelled && (JobOk(t.jobs[j], true) ==> JobOk(x, true))
    ensures Inv(t.(jobs := t.jobs[j := x]))
  {
    assert JobOk(t.jobs[j], j in t.list);
    if t.aborting {
      JobDoomed(t, j, t.jobs[j]);
      JobDoomed(t, j, x);
    } else {
      JobWaits(t, j, x);
      SomeWaitInv(t.(jobs := t.jobs[j := x]), j);
    }
  }

  lemma StillGivingUp(t: Txn, t': Txn)
    requires Inv(t) && t.aborting && Sane(t') && t'.aborting && t'.cause == t.cause
    requires Finalizing(t.jobs, t.list, t'.jobs, t'.list)
    ensures Inv(t')
  {
    hide Finalized;
    forall j | 0 <= j < |t.jobs| && j in t.list ensures JobOk(t.jobs[j], true) && Finalized(t.jobs[j]).commits == 0 {
      assert JobOk(t.jobs[j], true);
      FinalizedDoomed(t.jobs[j]);
    }
    if t'.list != [] {
      assert t'.list[0] in t.list;
    }
  }

  lemma MemberByStatus(t: Txn, j: nat)
    requires Inv(t) && j < |t.jobs| && Accepts(Cancel, t.jobs[j].status)
    ensures j in t.list && JobOk(t.jobs[j], true)
  {
    assert JobOk(t.jobs[j], j in t.list);
  }

  /** Cancelling a job that has not completed, or one of an aborting transaction, changes nothing else. */
  lemma CancelKeepsInv(t: Txn, j: nat)
    requires Inv(t) && j < |t.jobs| && (t.aborting || !IsCompleted(t.jobs[j].status))
    ensures Inv(t.(jobs := t.jobs[j := t.jobs[j].(cancelled := true)]))
  {
    hide JobOk;
    var t' := t.(jobs := t.jobs[j := t.jobs[j].(cancelled := true)]);
    CancelSane(t, t'.jobs);
    forall k | 0 <= k < |t.jobs| ensures t'.jobs[k].status == t.jobs[k].status && t'.jobs[k].commits == t.jobs[k].commits && t'.jobs[k].aborts == t.jobs[k].aborts {
    }
  }

  lemma PendingMeansAll(t: Txn, j: nat)
    requires Inv(t) && j < |t.jobs| && t.jobs[j].status.Pending?
    ensures AllIn(t, Pending)
  {
    assert JobOk(t.jobs[j], j in t.list);
  }

  lemma DismissKeepsInv(t: Txn, j: nat)
    requires Inv(t) && j < |t.jobs| && t.jobs[j].status.Concluded?
    ensures t.jobs[j].dismissals == 0 && Inv(t.(jobs := t.jobs[j := Dismissed(t.jobs[j]).(dismissals := 1)]))
  {
    assert JobOk(t.jobs[j], j in t.list);
    var t' := t.(jobs := t.jobs[j := Dismissed(t.jobs[j]).(dismissals := 1)]);
    forall k | 0 <= k < |t.jobs| ensures JobOk(t'.jobs[k], k in t.list) {
      assert JobOk(t.jobs[k], k in t.list);
    }
  }

  class Transaction {
    var jobs: seq<Job>
    var list: seq<nat>
    var aborting: bool
    ghost var cause: Option<Cause>

    /** job_create and job_txn_add_job for each of the jobs, which are put in front of the list. */
    constructor (kinds: seq<Job>)
      requires forall j :: 0 <= j < |kinds| ==> kinds[j] == NewJob(kinds[j].autoFinalize, kinds[j].autoDismiss, kinds[j].hasPrepare)
      ensures Inv(T()) && jobs == kinds && !aborting
      ensures |list| == |kinds| && forall k :: 0 <= k < |list| ==> list[k] == |kinds| - 1 - k
    {
      jobs, list, aborting, cause := [], [], false, None;
      new;
      hide Inv;
      for i := 0 to |kinds|
        invariant jobs == kinds[..i] && !aborting && cause == None
        invariant |list| == i && forall k :: 0 <= k < i ==> list[k] == i - 1 - k
      {
        list := [i] + list;
        jobs := jobs + [kinds[i]];
      }
      assert kinds[..|kinds|] == kinds;
      NewInv(T());
    }

    ghost function T(): Txn
      reads this
    {
      Txn(jobs, list, aborting, cause)
    }

    /** job_state_transition */
    method Transition(j: nat, s: Status)
      requires j < |jobs| && Allowed(jobs[j].status, s)
      modifies `jobs
      ensures jobs == old(jobs)[j := old(jobs)[j].(status := s)]
    {
      jobs := jobs[j := jobs[j].(status := s)];
    }

    /** job_update_rc */
    method UpdateRc(j: nat)
      requires j < |jobs| && (jobs[j].ret != 0 || jobs[j].cancelled ==> Allowed(jobs[j].status, Aborting))
      modifies `jobs
      ensures jobs == old(jobs)[j := UpdatedRc(old(jobs)[j])]
    {
      if jobs[j].ret == 0 && jobs[j].cancelled {
        jobs := jobs[j := jobs[j].(ret := -ECANCELED)];
      }
      if jobs[j].ret != 0 {
        Transition(j, Aborting);
      }
    }

    /** job_do_dismiss, for a job that has left the list */
    method DoDismiss(j: nat)
      requires j < |jobs| && Allowed(jobs[j].status, Null)
      modifies `jobs
      ensures jobs == old(jobs)[j := Dismissed(old(jobs)[j])]
    {
      jobs := jobs[j := jobs[j].(deferred := true)];
      Transition(j, Null);
    }

    /** job_finalize_single */
    method FinalizeSingle(j: nat)
      requires Sane(T()) && j in list && IsCompleted(jobs[j].status) && (jobs[j].status.Waiting? ==> jobs[j].cancelled)
      modifies `jobs, `list
      ensures Sane(T())
      ensures jobs == old(jobs)[j := Finalized(old(jobs)[j])] && list == Without(old(list), j)
      ensures jobs[j].status == if old(jobs)[j].autoDismiss || !old(jobs)[j].started then Null else Concluded
      ensures jobs[j].ret == if old(jobs)[j].ret == 0 && old(jobs)[j].cancelled then -125 else old(jobs)[j].ret
      ensures if jobs[j].ret == 0 then jobs[j].commits == 1 && jobs[j].aborts == 0 else jobs[j].commits == 0 && jobs[j].aborts == 1
    {
      hide Sane, Without;
      MemberOk(T(), j);
      SaneFinalized(T(), j);
      UpdateRc(j);
      if jobs[j].ret == 0 {
        jobs := jobs[j := jobs[j].(commits := jobs[j].commits + 1)];
      } else {
        jobs := jobs[j := jobs[j].(aborts := jobs[j].aborts + 1)];
      }
      list := Without(list, j);
      // job_conclude
      Transition(j, Concluded);
      if jobs[j].autoDismiss || !jobs[j].started {
        DoDismiss(j);
      }
      assert jobs == old(jobs)[j := Finalized(old(jobs)[j])];
    }

    /** The loop of job_completed_txn_abort, until it has to wait for the first job of the list. */
    method AbortLoop()
      requires Sane(T())
      requires forall j :: j in list && (!IsCompleted(jobs[j].status) || jobs[j].status.Waiting?) ==> jobs[j].cancelled
      modifies `jobs, `list
      ensures Sane(T()) && Finalizing(old(jobs), old(list), jobs, list)
      ensures list != [] ==> !IsCompleted(jobs[list[0]].status)
    {
      while list != []
        invariant Sane(T()) && Finalizing(old(jobs), old(list), jobs, list)
        decreases |list|
      {
        var other := list[0];
        if !IsCompleted(jobs[other].status) {
          // the assertion of the source, before it waits in job_finish_sync
          assert jobs[other].cancelled;
          return;
        }
        FinalizingMore(old(jobs), old(list), jobs, list, other);
        WithoutIs(list, other);
        FinalizeSingle(other);
      }
    }

    /** The first loop of job_completed_txn_abort. */
    method CancelOtherJobs(j: nat)
      requires forall i :: 0 <= i < |list| ==> list[i] < |jobs|
      modifies `jobs
      ensures jobs == CancelOthers(old(jobs), list, j)
    {
      var i := 0;
      while i < |list|
        invariant 0 <= i <= |list| && jobs == CancelOthers(old(jobs), list[..i], j)
      {
        var other := list[i];
        assert list[..i + 1] == list[..i] + [other];
        if other != j {
          // job_cancel_async
          jobs := jobs[other := jobs[other].(cancelled := true)];
        }
        i := i + 1;
      }
      assert list[..i] == list;
    }

    /** job_completed_txn_abort, up to where it first waits. */
    method TxnAbort(j: nat, ghost why: Cause)
      requires Sane(T()) && j in list
      requires !IsCompleted(jobs[j].status) || jobs[j].status.Waiting? ==> jobs[j].cancelled
      modifies this
      ensures SameLives(old(jobs), jobs) && jobs[j].cancelled == old(jobs)[j].cancelled
      ensures if old(aborting) then T() == old(T())
              else
                && Sane(T()) && aborting && cause == Some(why)
                && Finalizing(CancelOthers(old(jobs), old(list), j), old(list), jobs, list)
                && (list != [] ==> !IsCompleted(jobs[list[0]].status))
    {
      hide JobOk, Finalized, SameLife;
      if aborting {
        SameLivesSelf(jobs);
        return;
      }
      aborting, cause := true, Some(why);
      CancelOtherJobs(j);
      CancelSane(old(T()).(aborting := true, cause := Some(why)), jobs);
      FinalizedCancelled(jobs[j]);
      ghost var jobs1 := jobs;
      CancelSize(old(jobs), list, j);
      AbortLoop();
      hide SameLives;
      FinalizingSame(jobs1, old(list), jobs, list);
      SameLivesTrans(old(jobs), jobs1, jobs);
    }

    /** job_prepare, where r is what the driver's function returns */
    method PrepareJob(j: nat, r: int) returns (rc: int)
      requires j < |jobs| && jobs[j].status.Pending? && !jobs[j].cancelled && jobs[j].ret == 0
      modifies `jobs
      ensures rc == if old(jobs)[j].hasPrepare then r else 0
      ensures jobs == if rc == 0 then old(jobs) else old(jobs)[j := old(jobs)[j].(ret := rc, status := Aborting)]
    {
      if jobs[j].ret == 0 && jobs[j].hasPrepare {
        jobs := jobs[j := jobs[j].(ret := r)];
        UpdateRc(j);
      }
      rc := jobs[j].ret;
    }

    /** job_txn_apply of job_prepare */
    method PrepareAll(prep: seq<int>) returns (failed: Option<nat>)
      requires AllIn(T(), Pending) && |prep| == |jobs|
      modifies `jobs
      ensures failed == FirstFailure(old(jobs), list, prep)
      ensures failed.None? ==> jobs == old(jobs)
      ensures failed.Some? ==>
                && failed.value < |jobs| == |prep| && prep[failed.value] != 0
                && jobs == old(jobs)[failed.value := old(jobs)[failed.value].(ret := prep[failed.value], status := Aborting)]
    {
      ListInRange(T());
      hide AllIn, FirstFailure;
      ghost var first := FirstFailure(jobs, list, prep);
      var i := 0;
      assert list[i..] == list;
      while i < |list|
        invariant 0 <= i <= |list| && jobs == old(jobs)
        invariant FirstFailure(jobs, list[i..], prep) == first
      {
        var other := list[i];
        FirstFailureNext(jobs, list, prep, i);
        PendingMember(T(), i);
        var rc := PrepareJob(other, prep[other]);
        if rc != 0 {
          return Some(other);
        }
        i := i + 1;
      }
      NoFailure(jobs, list[i..], prep);
      failed := None;
    }

    /** job_txn_apply of job_finalize_single */
    method FinalizeAll()
      requires AllIn(T(), Pending)
      modifies `jobs, `list
      ensures Inv(T()) && Over(T()) && SameLives(old(jobs), jobs)
      ensures forall k :: 0 <= k < |jobs| ==> jobs[k].commits == 1 && jobs[k].aborts == 0
    {
      hide JobOk, Finalized;
      while list != []
        invariant Sane(T()) && Finalizing(old(jobs), old(list), jobs, list)
        decreases |list|
      {
        FinalizingMore(old(jobs), old(list), jobs, list, list[0]);
        WithoutIs(list, list[0]);
        FinalizeSingle(list[0]);
      }
      FinalizingSame(old(jobs), old(list), jobs, list);
      AllCommitted(old(T()), T());
    }

    /** job_do_finalize: prep says how the prepare functions of the drivers end. */
    method DoFinalize(j: nat, prep: seq<int>)
      requires AllIn(T(), Pending) && j < |jobs| && |prep| == |jobs|
      modifies this
      ensures Inv(T()) && Finished(old(T()), T(), j, prep)
    {
      hide JobOk, Finalized, Finalizing, CancelOthers, Finished;
      ghost var t := T();
      var failed := PrepareAll(prep);
      if failed.Some? {
        PrepareAborts(t, failed.value, prep[failed.value], j);
        ghost var t1 := T();
        TxnAbort(j, Prepare(j, failed.value));
        AbortedPrepare(t1, T(), j, failed.value);
      } else {
        FinalizeAll();
      }
      FinishedAs(t, T(), j, prep);
    }

    /** The loop of job_completed_txn_success. */
    method OthersDone() returns (done: bool)
      requires SomeWait(T())
      ensures done ==> AllIn(T(), Waiting)
      ensures !done ==> Inv(T()) && exists k :: 0 <= k < |jobs| && !IsCompleted(jobs[k].status)
    {
      hide JobOk;
      for i := 0 to |list|
        invariant forall k :: 0 <= k < i ==> IsCompleted(jobs[list[k]].status)
      {
        var other := list[i];
        if !IsCompleted(jobs[other].status) {
          SomeWaitInv(T(), other);
          return false;
        }
        DoneIsWaiting(T(), other);
        // the assertion of the source
        assert jobs[other].ret == 0;
      }
      forall k | 0 <= k < |jobs| ensures jobs[k].status == Waiting {
        assert k in list;
        DoneIsWaiting(T(), k);
      }
      done := true;
    }

    /** job_completed_txn_success, once the job is waiting. */
    method TxnSuccess(j: nat, prep: seq<int>)
      requires SomeWait(T()) && j < |jobs| && jobs[j].status.Waiting? && |prep| == |jobs|
      modifies this
      ensures Inv(T())
      ensures if exists k :: 0 <= k < |old(jobs)| && !IsCompleted(old(jobs)[k].status) then T() == old(T())
              else GoesOn(old(T()), T(), j, prep)
    {
      hide JobOk, Finished, Inv;
      var done := OthersDone();
      if !done {
        return;
      }
      ghost var t := T();
      AllToPending();
      ToPending(t, jobs);
      PendingInv(T());
      var manual := NeedsFinalize();
      if !manual {
        FirstFailureSame(t.jobs, jobs, list, prep);
        ghost var t1 := T();
        DoFinalize(j, prep);
        FinishedSame(t, t1, T(), j, prep);
      }
    }

    /** job_txn_apply of job_transition_to_pending */
    method AllToPending()
      requires AllIn(T(), Waiting)
      modifies `jobs
      ensures |jobs| == |old(jobs)| && forall k :: 0 <= k < |jobs| ==> jobs[k] == old(jobs)[k].(status := Pending)
    {
      hide JobOk;
      var i := 0;
      while i < |list|
        invariant 0 <= i <= |list| && |jobs| == |old(jobs)|
        invariant forall k :: 0 <= k < |jobs| ==> jobs[k] == if k in list[..i] then old(jobs)[k].(status := Pending) else old(jobs)[k]
      {
        assert list[..i + 1] == list[..i] + [list[i]];
        Transition(list[i], Pending);
        i := i + 1;
      }
      assert list[..i] == list;
    }

    /** job_txn_apply of job_needs_finalize */
    method NeedsFinalize() returns (manual: bool)
      requires forall i :: 0 <= i < |list| ==> list[i] < |jobs|
      ensures manual <==> exists i :: 0 <= i < |list| && !jobs[list[i]].autoFinalize
    {
      for i := 0 to |list|
        invariant forall k :: 0 <= k < i ==> jobs[list[k]].autoFinalize
      {
        if !jobs[list[i]].autoFinalize {
          return true;
        }
      }
      manual := false;
    }

    /** job_completed */
    method Completed(j: nat, prep: seq<int>)
      requires Inv(T()) && j < |jobs| && |prep| == |jobs|
      requires if jobs[j].started then jobs[j].exiting else jobs[j].status.Created? && jobs[j].cancelled
      modifies this
      ensures Inv(T()) && CompletedAs(old(T()), T(), j, prep)
    {
      ghost var t := T();
      // the assertion of the source
      assert j in list && !IsCompleted(jobs[j].status) by { NotDone(t, j); }
      hide JobOk, Inv, IsCompleted, SameKinds, GoesOn;
      NotDone(t, j);
      UpdatedSame(t.jobs[j]);
      UpdateRc(j);
      jobs := jobs[j := jobs[j].(exiting := false)];
      ghost var x := UpdatedRc(t.jobs[j]).(exiting := false);
      assert jobs == t.jobs[j := x];
      if jobs[j].ret != 0 {
        CompletedBadly(j, t, x);
      } else {
        Transition(j, Waiting);
        assert jobs == t.jobs[j := x.(status := Waiting)];
        SuccessMeansTogether(t, j);
        JobWaits(t, j, jobs[j]);
        TxnSuccess(j, prep);
      }
    }

    method CompletedBadly(j: nat, ghost t: Txn, ghost x: Job)
      requires Inv(t) && j < |t.jobs| && j in t.list && !IsCompleted(t.jobs[j].status)
      requires JobOk(x, true) && x.status.Aborting? && T() == t.(jobs := t.jobs[j := x]) && SameKind(t.jobs[j], x)
      modifies this
      ensures Inv(T()) && SameKinds(t.jobs, jobs) && aborting && jobs[j].cancelled == old(jobs)[j].cancelled
      ensures if t.aborting then T() == old(T()) else cause == Some(Failure)
    {
      hide JobOk, Inv, SameKind, SameLives, SameKinds;
      SameLivesAt(t.jobs, j, x);
      if aborting {
        JobDoomed(t, j, x);
        InvSane(T());
        TxnAbort(j, Failure);
      } else {
        JobFails(t, j, x);
        TxnAbort(j, Failure);
        AbortedFailure(old(T()), T(), j);
      }
      SameLivesKinds(old(jobs), jobs);
      SameKindsTrans(t.jobs, old(jobs), jobs);
    }

    // -------------------------------------------------------------- steps of the job's coroutine

    /** job_start */
    method Start(j: nat)
      requires Inv(T()) && j < |jobs| && jobs[j].status.Created?
      modifies `jobs
      ensures Inv(T()) && jobs == old(jobs)[j := old(jobs)[j].(started := true, status := Running)]
    {
      ghost var t := T();
      CoroutineStep(t, j, jobs[j].(started := true, status := Running));
      jobs := jobs[j := jobs[j].(started := true)];
      Transition(j, Running);
      assert jobs == t.jobs[j := t.jobs[j].(started := true, status := Running)];
    }

    /** job_pause_point, up to where it yields */
    method PausePoint(j: nat)
      requires Inv(T()) && j < |jobs| && InCoroutine(jobs[j])
      modifies `jobs
      ensures Inv(T())
      ensures jobs == if old(jobs)[j].cancelled then old(jobs)
                      else old(jobs)[j := old(jobs)[j].(status := if old(jobs)[j].status.Ready? then Standby else Paused)]
    {
      ghost var t := T();
      if !jobs[j].cancelled {
        var status := if jobs[j].status.Ready? then Standby else Paused;
        CoroutineStep(t, j, jobs[j].(status := status));
        Transition(j, status);
      }
    }

    /** job_pause_point, after it has been entered again */
    method Unpause(j: nat)
      requires Inv(T()) && j < |jobs| && (jobs[j].status.Paused? || jobs[j].status.Standby?)
      modifies `jobs
      ensures Inv(T())
      ensures jobs == old(jobs)[j := old(jobs)[j].(status := if old(jobs)[j].status.Standby? then Ready else Running)]
    {
      ghost var t := T();
      var status := if jobs[j].status.Standby? then Ready else Running;
      CoroutineStep(t, j, jobs[j].(status := status));
      Transition(j, status);
    }

    /** job_transition_to_ready */
    method ToReady(j: nat)
      requires Inv(T()) && j < |jobs| && InCoroutine(jobs[j]) && jobs[j].status.Running?
      modifies `jobs
      ensures Inv(T()) && jobs == old(jobs)[j := old(jobs)[j].(status := Ready)]
    {
      CoroutineStep(T(), j, jobs[j].(status := Ready));
      Transition(j, Ready);
    }

    /** job_co_entry, when the driver's run function returns */
    method Return(j: nat, ret: int)
      requires Inv(T()) && j < |jobs| && InCoroutine(jobs[j])
      modifies `jobs
      ensures Inv(T()) && jobs == old(jobs)[j := old(jobs)[j].(ret := ret, deferred := true, exiting := true)]
    {
      CoroutineStep(T(), j, jobs[j].(ret := ret, deferred := true, exiting := true));
      jobs := jobs[j := jobs[j].(ret := ret, deferred := true, exiting := true)];
    }

    // -------------------------------------------------------------- steps of the main loop

    /** job_exit */
    method Exit(j: nat, prep: seq<int>)
      requires Inv(T()) && j < |jobs| && jobs[j].exiting && |prep| == |jobs|
      modifies this
      ensures Inv(T()) && CompletedAs(old(T()), T(), j, prep)
    {
      assert jobs[j].started by { assert JobOk(jobs[j], j in list); }
      hide Inv;
      Completed(j, prep);
    }

    /** job_completed_txn_abort, when the job it waits for has completed */
    method ContinueAbort()
      requires Inv(T()) && aborting
      modifies `jobs, `list
      ensures Inv(T()) && Finalizing(old(jobs), old(list), jobs, list) && SameLives(old(jobs), jobs)
      ensures list != [] ==> !IsCompleted(jobs[list[0]].status)
    {
      ghost var t := T();
      AbortLoop();
      FinalizingSame(t.jobs, t.list, jobs, list);
      StillGivingUp(t, T());
    }

    /** job_user_cancel */
    method UserCancel(j: nat, prep: seq<int>) returns (ok: bool)
      requires Inv(T()) && j < |jobs| && |prep| == |jobs|
      modifies this
      ensures Inv(T()) && SameKinds(old(jobs), jobs)
      ensures !ok <==> old(jobs)[j].status in {Aborting, Concluded, Null}
      ensures !ok ==> T() == old(T())
      ensures ok ==> jobs[j].cancelled && (!old(jobs)[j].started || old(jobs)[j].deferred ==> aborting)
      ensures ok && !old(aborting) && aborting ==> cause == Some(Failure)
      ensures ok && old(jobs)[j].started && !old(jobs)[j].deferred ==> T() == old(T()).(jobs := old(jobs)[j := old(jobs)[j].(cancelled := true)])
    {
      hide Finalizing, CancelOthers;
      ghost var t := T();
      ok := Accepts(Cancel, jobs[j].status);
      if !ok {
        return;
      }
      MemberByStatus(t, j);
      jobs := jobs[j := jobs[j].(cancelled := true)];
      if !jobs[j].started {
        CancelKeepsInv(t, j);
        Completed(j, prep);
      } else if jobs[j].deferred {
        CancelDone(j, t);
      } else {
        CancelKeepsInv(t, j);
      }
    }

    /** job_cancel for a job whose coroutine has returned */
    method CancelDone(j: nat, ghost t: Txn)
      requires Inv(t) && j < |t.jobs| && j in t.list && T() == t.(jobs := t.jobs[j := t.jobs[j].(cancelled := true)])
      modifies this
      ensures Inv(T()) && SameLives(old(jobs), jobs) && aborting && jobs[j].cancelled
      ensures if t.aborting then T() == old(T()) else cause == Some(Failure)
    {
      hide Finalizing, CancelOthers;
      CancelSane(t, jobs);
      MemberOk(T(), j);
      if aborting {
        CancelKeepsInv(t, j);
        TxnAbort(j, Failure);
      } else {
        JobFails(t, j, jobs[j]);
        TxnAbort(j, Failure);
        AbortedFailure(old(T()), T(), j);
      }
    }

    /** job_finalize */
    method UserFinalize(j: nat, prep: seq<int>) returns (ok: bool)
      requires Inv(T()) && j < |jobs| && |prep| == |jobs|
      modifies this
      ensures Inv(T())
      ensures ok <==> old(jobs)[j].status == Pending
      ensures !ok ==> T() == old(T())
      ensures ok ==> Finished(old(T()), T(), j, prep)
    {
      ok := Accepts(Finalize, jobs[j].status);
      if !ok {
        return;
      }
      PendingMeansAll(T(), j);
      hide Inv;
      DoFinalize(j, prep);
    }

    /** job_dismiss */
    method UserDismiss(j: nat) returns (ok: bool)
      requires Inv(T()) && j < |jobs|
      modifies `jobs
      ensures Inv(T())
      ensures ok <==> old(jobs)[j].status == Concluded
      ensures jobs == if ok then old(jobs)[j := old(jobs)[j].(status := Null, deferred := true, dismissals := 1)] else old(jobs)
    {
      ok := Accepts(Dismiss, jobs[j].status);
      if !ok {
        return;
      }
      DismissKeepsInv(T(), j);
      DoDismiss(j);
      jobs := jobs[j := jobs[j].(dismissals := jobs[j].dismissals + 1)];
    }
  }

  // ---------------------------------------------------------------- runs

  /** The steps the event loop and the users can take. */
  datatype Step =
    | Started(j: nat) | AtPausePoint(j: nat) | Entered(j: nat) | BecameReady(j: nat) | Returned(j: nat, ret: int)
    | Exited(j: nat, prep: seq<int>) | AbortGoesOn
    | CancelledBy(j: nat, prep: seq<int>) | FinalizedBy(j: nat, prep: seq<int>) | DismissedBy(j: nat)

  /** A step that cannot be taken is skipped. */
  predicate Enabled(jobs: seq<Job>, aborting: bool, s: Step) {
    match s
    case Started(j) => j < |jobs| && jobs[j].status.Created?
    case AtPausePoint(j) => j < |jobs| && InCoroutine(jobs[j])
    case Entered(j) => j < |jobs| && (jobs[j].status.Paused? || jobs[j].status.Standby?)
    case BecameReady(j) => j < |jobs| && InCoroutine(jobs[j]) && jobs[j].status.Running?
    case Returned(j, _) => j < |jobs| && InCoroutine(jobs[j])
    case Exited(j, prep) => j < |jobs| && jobs[j].exiting && |prep| == |jobs|
    case AbortGoesOn => aborting
    case CancelledBy(j, prep) => j < |jobs| && |prep| == |jobs|
    case FinalizedBy(j, prep) => j < |jobs| && |prep| == |jobs|
    case DismissedBy(j) => j < |jobs|
  }

  /** Two jobs whose coroutines have returned. */
  method TwoReturned(ghost done: Job) returns (x: Transaction)
    requires done == NewJob(false, false, true).(started := true, status := Running, deferred := true, exiting := true)
    ensures fresh(x) && Inv(x.T()) && x.jobs == [done, done] && x.list == [1, 0] && !x.aborting
  {
    hide Inv, JobOk;
    var kind := NewJob(false, false, true);
    x := new Transaction([kind, kind]);
    assert x.list == [1, 0];
    x.Start(0);
    x.Start(1);
    ghost var run := kind.(started := true, status := Running);
    assert x.jobs == [run, run];
    x.Return(0, 0);
    x.Return(1, 0);
  }

  /** Two jobs that run to their end and wait for the user. */
  method TwoPending() returns (x: Transaction)
    ensures fresh(x) && Inv(x.T()) && |x.jobs| == 2 && x.list == [1, 0]
    ensures forall k :: 0 <= k < 2 ==> x.jobs[k].status.Pending? && x.jobs[k].hasPrepare
  {
    hide Inv, JobOk, Finished;
    ghost var done := NewJob(false, false, true).(started := true, status := Running, deferred := true, exiting := true);
    x := TwoReturned(done);
    ghost var wait := done.(exiting := false, status := Waiting);
    ghost var t := x.T();
    assert t.jobs[0 := wait] == [wait, done] && !IsCompleted([wait, done][1].status);
    x.Exit(0, [0, 0]);
    assert x.T() == Txn([wait, done], [1, 0], false, t.cause);
    assert [wait, done][1 := wait] == [wait, wait];
    x.Exit(1, [0, 0]);
    assert !t.jobs[t.list[0]].autoFinalize;
  }

  /** The second of two jobs fails to prepare when the first is finalised: the first commits and the
      second aborts. */
  method SplitOutcome() returns (x: Transaction)
    ensures Inv(x.T()) && Over(x.T()) && |x.jobs| == 2
    ensures x.jobs[0].commits == 1 && x.jobs[0].aborts == 0 && x.jobs[1].commits == 0 && x.jobs[1].aborts == 1
  {
    hide Inv;
    x := TwoPending();
    assert FirstFailure(x.jobs, x.list, [0, -5]) == Some(1);
    var ok := x.UserFinalize(0, [0, -5]);
  }

  method TakeStep(x: Transaction, s: Step)
    requires Inv(x.T())
    modifies x
    ensures Inv(x.T()) && SameKinds(old(x.jobs), x.jobs)
  {
    hide Inv, Finalizing;
    if Enabled(x.jobs, x.aborting, s) {
      match s {
        case Started(j) => x.Start(j);
        case AtPausePoint(j) => x.PausePoint(j);
        case Entered(j) => x.Unpause(j);
        case BecameReady(j) => x.ToReady(j);
        case Returned(j, ret) => x.Return(j, ret);
        case Exited(j, prep) => x.Exit(j, prep);
        case AbortGoesOn => x.ContinueAbort();
        case CancelledBy(j, prep) => var _ := x.UserCancel(j, prep);
        case FinalizedBy(j, prep) => var _ := x.UserFinalize(j, prep);
        case DismissedBy(j) => var _ := x.UserDismiss(j);
      }
    }
  }

  /** Whatever steps are taken in whatever order: no assertion of job.c fails, every transition is allowed
      by the table, and if the transaction is over each job has committed or aborted once; a job that was
      started and is not dismissed automatically has concluded until the user dismisses it, once, and any
      other is gone. */
  method Run(n: nat, kinds: seq<Job>, steps: seq<Step>) returns (x: Transaction)
    requires |kinds| == n && forall j :: 0 <= j < n ==> kinds[j] == NewJob(kinds[j].autoFinalize, kinds[j].autoDismiss, kinds[j].hasPrepare)
    ensures Inv(x.T()) && |x.jobs| == n
    ensures Over(x.T()) ==> forall j :: 0 <= j < n ==>
              && x.jobs[j].commits + x.jobs[j].aborts == 1 && x.jobs[j].dismissals <= 1
              && x.jobs[j].status == if x.jobs[j].started && !kinds[j].autoDismiss && x.jobs[j].dismissals == 0 then Concluded else Null
  {
    x := new Transaction(kinds);
    for i := 0 to |steps|
      invariant fresh(x) && Inv(x.T()) && SameKinds(kinds, x.jobs)
    {
      TakeStep(x, steps[i]);
    }
    if Over(x.T()) {
      forall j | 0 <= j < n
        ensures x.jobs[j].commits + x.jobs[j].aborts == 1 && x.jobs[j].dismissals <= 1
        ensures x.jobs[j].status == if x.jobs[j].started && !kinds[j].autoDismiss && x.jobs[j].dismissals == 0 then Concluded else Null
      {
        Outcome(x.T(), j);
      }
    }
  }
}
