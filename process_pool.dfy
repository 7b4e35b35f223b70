/** `ProcessPool`: the bookkeeping around a lazily created process executor
    — the worker limit, one `ProcessInfo` record per submitted task, the
    futures, and the completion callback.  Running tasks is not modelled:
    a future is a number, and a completion is delivered by calling
    `OnTaskComplete` with its outcome. */
module Pool {
  import opened Data

  datatype Status = Pending | Running | Completed | Failed

  predicate IsActive(s: Status) {
    s == Pending || s == Running
  }

  /** How a finished future looks to `_on_task_complete`. */
  datatype Completion =
    | Returned       // `future.exception()` is None
    | TaskRaised     // `future.exception()` is an exception
    | CheckRaised    // asking the future raised (e.g. it was cancelled)

  /** The status `_on_task_complete` records. */
  function CompletionStatus(c: Completion): (s: Status)
    ensures !IsActive(s)
    ensures s == Completed <==> c.Returned?
  {
    if c.Returned? then Completed else Failed
  }

  /** `ProcessInfo`; only `status` is ever reassigned. */
  class ProcessInfo {
    const pid: Option<int>
    const startedAt: string
    const taskName: string
    var status: Status

    constructor (taskName: string, startedAt: string)
      ensures this.pid.None? && this.startedAt == startedAt && this.taskName == taskName && status == Pending
    {
      pid := None;
      this.startedAt := startedAt;
      this.taskName := taskName;
      status := Pending;
    }
  }

  /** The number of pending or running statuses. */
  function ActiveCount(s: seq<Status>): (n: nat)
    ensures n <= |s|
  {
    if s == [] then 0 else (if IsActive(s[0]) then 1 else 0) + ActiveCount(s[1..])
  }

  lemma {:induction false} ActiveCountAppend(s: seq<Status>, t: seq<Status>)
    ensures ActiveCount(s + t) == ActiveCount(s) + ActiveCount(t)
    decreases |s|
  {
    if s != [] {
      assert (s + t)[0] == s[0] && (s + t)[1..] == s[1..] + t;
      ActiveCountAppend(s[1..], t);
    } else {
      assert s + t == t;
    }
  }

  /** A submission adds one active task. */
  lemma SubmitAddsActive(s: seq<Status>)
    ensures ActiveCount(s + [Pending]) == ActiveCount(s) + 1
  {
    ActiveCountAppend(s, [Pending]);
  }

  /** A completion makes the task inactive: the count drops by one exactly
      when the task was still active. */
  lemma {:induction false} CompletionLowersActive(s: seq<Status>, i: nat, c: Completion)
    requires i < |s|
    ensures ActiveCount(s[i := CompletionStatus(c)]) == ActiveCount(s) - (if IsActive(s[i]) then 1 else 0)
    decreases i
  {
    if i > 0 {
      assert s[i := CompletionStatus(c)][1..] == s[1..][i - 1 := CompletionStatus(c)];
      CompletionLowersActive(s[1..], i - 1, c);
    }
  }

  /** The statuses of the records, in order. */
  function StatusesOf(rs: seq<ProcessInfo>): (r: seq<Status>)
    reads set p | p in rs
    ensures |r| == |rs| && forall i :: 0 <= i < |rs| ==> r[i] == rs[i].status
  {
    if rs == [] then [] else [rs[0].status] + StatusesOf(rs[1..])
  }

  /** `__init__`'s choice of `max_workers`: an explicit value, even 0, wins;
      otherwise the resource manager's recommendation when a manager is
      given (`managerMax` is what its `get_max_processes()` returns);
      otherwise the CPU count. */
  function ChooseMaxWorkers(maxWorkers: Option<int>, managerMax: Option<int>, cpuCount: nat): (w: int)
    ensures maxWorkers.Some? ==> w == maxWorkers.value
    ensures maxWorkers.None? && managerMax.Some? ==> w == managerMax.value
    ensures maxWorkers.None? && managerMax.None? ==> w == cpuCount
  {
    if maxWorkers.None? && managerMax.Some? then managerMax.value
    else if maxWorkers.None? then cpuCount
    else maxWorkers.value
  }

  class ProcessPool {
    var maxWorkers: int
    /** Whether `_executor` currently holds an executor. */
    var executorStarted: bool
    var activeProcesses: seq<ProcessInfo>
    var futures: seq<nat>
    var nextFuture: nat

    /** At most one future per record (a record is appended before its task
        is handed to the executor, which may refuse it), futures numbered
        below `nextFuture`, and each record a distinct object (every
        submission creates a new one). */
    ghost predicate Valid()
      reads this
    {
      && |futures| <= |activeProcesses|
      && (forall k :: 0 <= k < |futures| ==> futures[k] < nextFuture)
      && (forall i, j :: 0 <= i < j < |activeProcesses| ==> activeProcesses[i] != activeProcesses[j])
    }

    constructor (maxWorkers: Option<int>, managerMax: Option<int>, cpuCount: nat)
      ensures Valid()
      ensures this.maxWorkers == ChooseMaxWorkers(maxWorkers, managerMax, cpuCount)
      ensures !executorStarted && activeProcesses == [] && futures == []
    {
      this.maxWorkers := ChooseMaxWorkers(maxWorkers, managerMax, cpuCount);
      executorStarted := false;
      activeProcesses := [];
      futures := [];
      nextFuture := 0;
    }

    /** `submit`: start the executor if there is none, record the task as
        pending, then hand it to the executor and keep its future.
        `ProcessPoolExecutor` refuses a limit below one with ValueError
        (`future` and `info` None) before anything is recorded.  The
        executor's own `submit` may raise as well (a broken pool, or an
        interpreter shutting down; `accepts` false): the pending record is
        then already stored and no future is kept (`future` None, `info`
        Some), so that record counts as active until the pool is shut
        down. */
    method Submit(taskName: string, startedAt: string, accepts: bool) returns (future: Option<nat>, info: Option<ProcessInfo>)
      requires Valid()
      modifies this
      ensures Valid() && maxWorkers == old(maxWorkers)
      ensures info.None? <==> !old(executorStarted) && old(maxWorkers) <= 0
      ensures info.None? ==> future.None? && activeProcesses == old(activeProcesses) && futures == old(futures)
                             && executorStarted == old(executorStarted)
      ensures info.Some? ==>
                executorStarted && fresh(info.value) &&
                activeProcesses == old(activeProcesses) + [info.value] &&
                info.value.taskName == taskName && info.value.status == Pending && info.value.pid.None? &&
                (future.Some? <==> accepts)
      ensures future.Some? ==> futures == old(futures) + [future.value] && future.value !in old(futures)
      ensures future.None? ==> futures == old(futures)
      ensures StatusesOf(activeProcesses) == old(StatusesOf(activeProcesses)) + (if info.Some? then [Pending] else [])
    {
      if !executorStarted && maxWorkers <= 0 {
        // ValueError("max_workers must be greater than 0")
        return None, None;
      }
      executorStarted := true;
      var processInfo := Record(taskName, startedAt);
      info := Some(processInfo);
      if !accepts {
        // the executor's submit raised; the exception leaves `submit`
        return None, info;
      }
      var f := AddFuture();
      future := Some(f);
    }

    /** The first bookkeeping step of `submit`: a fresh pending record is
        appended. */
    method Record(taskName: string, startedAt: string) returns (processInfo: ProcessInfo)
      requires Valid()
      modifies this
      ensures Valid() && maxWorkers == old(maxWorkers) && executorStarted == old(executorStarted)
      ensures futures == old(futures) && nextFuture == old(nextFuture)
      ensures fresh(processInfo) && activeProcesses == old(activeProcesses) + [processInfo]
      ensures processInfo.taskName == taskName && processInfo.status == Pending && processInfo.pid.None?
      ensures StatusesOf(activeProcesses) == old(StatusesOf(activeProcesses)) + [Pending]
    {
      processInfo := new ProcessInfo(taskName, startedAt);
      activeProcesses := activeProcesses + [processInfo];
      StatusesAppend(old(activeProcesses), processInfo);
    }

    /** The second bookkeeping step of `submit`, once the executor accepted
        the task: its new future is kept. */
    method AddFuture() returns (f: nat)
      requires Valid() && |futures| < |activeProcesses|
      modifies this
      ensures Valid() && maxWorkers == old(maxWorkers) && executorStarted == old(executorStarted)
      ensures activeProcesses == old(activeProcesses)
      ensures futures == old(futures) + [f] && f !in old(futures)
    {
      f := nextFuture;
      nextFuture := nextFuture + 1;
      futures := futures + [f];
    }

    /** `_on_task_complete`: "completed" when the task returned, "failed"
        otherwise; nothing else changes. */
    static method OnTaskComplete(outcome: Completion, processInfo: ProcessInfo)
      modifies processInfo
      ensures processInfo.status == CompletionStatus(outcome)
      ensures outcome.Returned? ==> processInfo.status == Completed
      ensures !outcome.Returned? ==> processInfo.status == Failed
    {
      match outcome
      case Returned => processInfo.status := Completed;
      case TaskRaised => processInfo.status := Failed;
      case CheckRaised =>
        // the exception from the check is logged
        processInfo.status := Failed;
    }

    /** The callback `submit` attaches to the `i`-th task's future: it runs
        `_on_task_complete` on that task's record, and no other record
        changes, so the active count drops by one exactly when the task was
        still pending or running. */
    method CompleteTask(i: nat, outcome: Completion)
      requires Valid() && i < |activeProcesses|
      modifies activeProcesses[i]
      ensures Valid()
      ensures StatusesOf(activeProcesses) == old(StatusesOf(activeProcesses))[i := CompletionStatus(outcome)]
      ensures ActiveCount(StatusesOf(activeProcesses)) ==
                old(ActiveCount(StatusesOf(activeProcesses))) - (if old(IsActive(activeProcesses[i].status)) then 1 else 0)
    {
      ghost var before := StatusesOf(activeProcesses);
      OnTaskComplete(outcome, activeProcesses[i]);
      ghost var after := StatusesOf(activeProcesses);
      assert |after| == |before|;
      forall j | 0 <= j < |after| ensures after[j] == before[i := CompletionStatus(outcome)][j] {
      }
      assert after == before[i := CompletionStatus(outcome)];
      CompletionLowersActive(before, i, outcome);
    }

    /** `shutdown`: drop the executor and forget every record and future. */
    method Shutdown(wait: bool)
      requires Valid()
      modifies this
      ensures Valid() && maxWorkers == old(maxWorkers)
      ensures !executorStarted && activeProcesses == [] && futures == []
      ensures ActiveCount(StatusesOf(activeProcesses)) == 0
    {
      if executorStarted {
        executorStarted := false;
      }
      activeProcesses := [];
      futures := [];
    }

    /** `get_active_count`. */
    method GetActiveCount() returns (n: nat)
      ensures n == ActiveCount(StatusesOf(activeProcesses))
      ensures n <= |activeProcesses|
    {
      n := 0;
      var i := 0;
      while i < |activeProcesses|
        invariant 0 <= i <= |activeProcesses|
        invariant n + ActiveCount(StatusesOf(activeProcesses[i..])) == ActiveCount(StatusesOf(activeProcesses))
      {
        assert activeProcesses[i..][0] == activeProcesses[i] && activeProcesses[i..][1..] == activeProcesses[i + 1..];
        if IsActive(activeProcesses[i].status) {
          n := n + 1;
        }
        i := i + 1;
      }
      assert activeProcesses[i..] == [];
    }

    /** `get_process_info`: a new list holding the same record objects. */
    method GetProcessInfo() returns (infos: seq<ProcessInfo>)
      ensures infos == activeProcesses
    {
      infos := activeProcesses;
    }

    /** `has_capacity`. */
    method HasCapacity() returns (b: bool)
      ensures b <==> ActiveCount(StatusesOf(activeProcesses)) < maxWorkers
    {
      var n := GetActiveCount();
      b := n < maxWorkers;
    }
  }

  lemma StatusesAppend(rs: seq<ProcessInfo>, p: ProcessInfo)
    ensures StatusesOf(rs + [p]) == StatusesOf(rs) + [p.status]
  {
    var l := StatusesOf(rs + [p]);
    var r := StatusesOf(rs) + [p.status];
    assert |l| == |r|;
    forall i | 0 <= i < |l| ensures l[i] == r[i] {
      if i < |rs| {
        assert (rs + [p])[i] == rs[i];
      }
    }
  }
}
