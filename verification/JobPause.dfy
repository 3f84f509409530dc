/** Why a block job is paused (job.c and blockjob.c): the pause counter, the user's pause and the I/O
status, kept consistent by user commands, drained sections and I/O errors in any order.
*/
module JobPause {

  datatype IoStatus = OK | Failed | NoSpace

  const ENOSPC := 28

  datatype OnError = Report | Ignore | EnoSpc | Stop | Auto

  datatype Action = ReportIt | IgnoreIt | StopJob

  /** The action of block_job_error_action. */
  function ErrorAction(onError: OnError, error: int): Action {
    match onError
    case EnoSpc | Auto => if error == ENOSPC then StopJob else ReportIt
    case Stop => StopJob
    case Report => ReportIt
    case Ignore => IgnoreIt
  }

  /** The reasons for which the job is to be paused. */
  function Reasons(started: bool, userPaused: bool, drains: nat): nat {
    (if started then 0 else 1) + (if userPaused then 1 else 0) + drains
  }

  class BlockJob {
    var started: bool
    var cancelled: bool
    var userPaused: bool
    var pauseCount: int
    var ioStatus: IoStatus
    ghost var drains: nat                 // drained sections that have begun and not ended

    /** The counter counts the reasons, and after an I/O error the user has to resume the job. */
    ghost predicate Valid()
      reads this
    {
      && pauseCount == Reasons(started, userPaused, drains)
      && (ioStatus != OK ==> userPaused)
    }

    /** job_create */
    constructor ()
      ensures Valid() && !started && !userPaused && !cancelled && drains == 0 && ioStatus == OK
    {
      started, cancelled, userPaused := false, false, false;
      pauseCount := 1;
      ioStatus := OK;
      drains := 0;
    }

    /** job_should_pause: exactly when there is a reason. */
    method ShouldPause() returns (yes: bool)
      requires Valid()
      ensures yes <==> !started || userPaused || drains > 0
    {
      yes := pauseCount > 0;
    }

    /** job_pause */
    method PauseJob()
      modifies `pauseCount
      ensures pauseCount == old(pauseCount) + 1
    {
      pauseCount := pauseCount + 1;
    }

    /** job_resume: the job is entered when the last reason is gone. */
    method ResumeJob() returns (enter: bool)
      requires pauseCount > 0
      modifies `pauseCount
      ensures pauseCount == old(pauseCount) - 1 && (enter <==> pauseCount == 0)
    {
      pauseCount := pauseCount - 1;
      enter := pauseCount == 0;
    }

    /** job_start */
    method Start()
      requires Valid() && !started
      modifies `started, `pauseCount
      ensures Valid() && started
    {
      started := true;
      pauseCount := pauseCount - 1;
    }

    /** child_job_drained_begin */
    method DrainedBegin()
      requires Valid()
      modifies `pauseCount, `drains
      ensures Valid() && drains == old(drains) + 1
    {
      PauseJob();
      drains := drains + 1;
    }

    /** child_job_drained_end: the assertion of job_resume holds. */
    method DrainedEnd() returns (enter: bool)
      requires Valid() && drains > 0
      modifies `pauseCount, `drains
      ensures Valid() && drains == old(drains) - 1
      ensures enter <==> started && !userPaused && drains == 0
    {
      enter := ResumeJob();
      drains := drains - 1;
    }

    /** job_user_pause, where `allowed` says whether the status accepts the verb. */
    method UserPause(allowed: bool) returns (ok: bool)
      requires Valid()
      modifies `pauseCount, `userPaused
      ensures Valid() && (ok <==> allowed && !old(userPaused))
      ensures userPaused == (old(userPaused) || ok)
    {
      if !allowed || userPaused {
        return false;
      }
      userPaused := true;
      PauseJob();
      ok := true;
    }

    /** block_job_iostatus_reset: the assertion holds. */
    method IoStatusReset()
      requires Valid()
      modifies `ioStatus
      ensures Valid() && ioStatus == OK
    {
      if ioStatus == OK {
        return;
      }
      assert userPaused && pauseCount > 0;
      ioStatus := OK;
    }

    /** job_user_resume */
    method UserResume(allowed: bool) returns (ok: bool, enter: bool)
      requires Valid()
      modifies `pauseCount, `userPaused, `ioStatus
      ensures Valid() && (ok <==> allowed && old(userPaused))
      ensures ok ==> !userPaused && ioStatus == OK && (enter <==> started && drains == 0)
      ensures !ok ==> !enter && userPaused == old(userPaused) && ioStatus == old(ioStatus)
    {
      if !userPaused || pauseCount <= 0 || !allowed {
        return false, false;
      }
      IoStatusReset();
      userPaused := false;
      enter := ResumeJob();
      ok := true;
    }

    /** job_cancel_async: a cancelled job is not held back by the user's pause. */
    method CancelAsync()
      requires Valid()
      modifies `pauseCount, `userPaused, `ioStatus, `cancelled
      ensures Valid() && cancelled && !userPaused && ioStatus == OK
    {
      if userPaused {
        IoStatusReset();
        userPaused := false;
        assert pauseCount > 0;
        pauseCount := pauseCount - 1;
      }
      cancelled := true;
    }

    /** block_job_error_action: the first error after a resume decides the I/O status. */
    method HandleError(onError: OnError, error: int) returns (action: Action)
      requires Valid()
      modifies `pauseCount, `userPaused, `ioStatus
      ensures Valid()
      ensures action == StopJob <==> onError == Stop || (error == 28 && (onError == EnoSpc || onError == Auto))
      ensures action == IgnoreIt <==> onError == Ignore
      ensures userPaused == (old(userPaused) || action.StopJob?)
      ensures ioStatus == if action.StopJob? && old(ioStatus) == OK then (if error == ENOSPC then NoSpace else Failed) else old(ioStatus)
    {
      action := ErrorAction(onError, error);
      if action.StopJob? {
        if !userPaused {
          PauseJob();
          userPaused := true;
        }
        // block_job_iostatus_set_err
        if ioStatus == OK {
          ioStatus := if error == ENOSPC then NoSpace else Failed;
        }
      }
    }
  }

  // ---------------------------------------------------------------- runs

  datatype Step =
    | StartStep | DrainBegin | DrainEnd | PauseStep(allowed: bool) | ResumeStep(allowed: bool) | CancelStep
    | ErrorStep(onError: OnError, error: int) | ResetStep

  /** Any steps in any order, a start or the end of a drained section only where there is something to
      start or to end: no assertion fails, and the job is to be paused exactly when there is a reason. */
  method Run(steps: seq<Step>) returns (job: BlockJob, paused: bool)
    ensures job.Valid()
    ensures paused <==> !job.started || job.userPaused || job.drains > 0
    ensures job.ioStatus != OK ==> paused
  {
    job := new BlockJob();
    var open := 0;
    for i := 0 to |steps|
      invariant fresh(job) && job.Valid() && open == job.drains
    {
      match steps[i] {
        case StartStep =>
          if !job.started {
            job.Start();
          }
        case DrainBegin =>
          job.DrainedBegin();
          open := open + 1;
        case DrainEnd =>
          if open > 0 {
            var _ := job.DrainedEnd();
            open := open - 1;
          }
        case PauseStep(allowed) =>
          var _ := job.UserPause(allowed);
        case ResumeStep(allowed) =>
          var _, _ := job.UserResume(allowed);
        case CancelStep =>
          job.CancelAsync();
        case ErrorStep(onError, error) =>
          var _ := job.HandleError(onError, error);
        case ResetStep =>
          job.IoStatusReset();
      }
    }
    paused := job.ShouldPause();
  }
}
