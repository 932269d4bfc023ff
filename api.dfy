/** The in-memory task table behind the HTTP service, the status checks of
    the result endpoint and the file-name check of the upload endpoint.
    Clock readings are passed in as `now`; the lock, the background worker
    and the web framework are not part of this model. */
module Api {
  import opened Common

  datatype TaskStatus = Pending | Processing | Completed | Failed

  /** The result document of a finished task. */
  type ResultDoc = map<string, string>

  /** One task entry; timestamps are abstract clock readings. */
  datatype Task = Task(
    taskId: string,
    status: TaskStatus,
    progress: int,
    message: Option<string>,
    createdAt: int,
    updatedAt: Option<int>,
    completedAt: Option<int>,
    errorMessage: Option<string>,
    result: Option<ResultDoc>,
    tempDir: Option<string>)

  type Table = map<string, Task>

  /** Every entry is stored under its own id, and a completed task has a
      completion time. */
  predicate WellFormed(tasks: Table) {
    forall id :: id in tasks ==>
      tasks[id].taskId == id && (tasks[id].status == Completed ==> tasks[id].completedAt.Some?)
  }

  // ---------------------------------------------------------------------
  // The operations on the table

  /** The entry `create_task` stores. */
  function NewTask(taskId: string, now: int): Task {
    Task(taskId, Pending, 0, Some("任务已创建，等待处理"), now, Some(now), None, None, None, None)
  }

  function Created(tasks: Table, taskId: string, now: int): Table {
    tasks[taskId := NewTask(taskId, now)]
  }

  /** An entry after `update_task`: only the given fields change, the
      update time always does, and the completion time only when the new
      status is "completed". */
  function Updated(t: Task, status: Option<TaskStatus>, progress: Option<int>, message: Option<string>,
                   errorMessage: Option<string>, now: int): Task {
    t.(status := status.GetOr(t.status),
       progress := progress.GetOr(t.progress),
       message := if message.Some? then message else t.message,
       errorMessage := if errorMessage.Some? then errorMessage else t.errorMessage,
       updatedAt := Some(now),
       completedAt := if status == Some(Completed) then Some(now) else t.completedAt)
  }

  function UpdatedTable(tasks: Table, taskId: string, status: Option<TaskStatus>, progress: Option<int>,
                        message: Option<string>, errorMessage: Option<string>, now: int): Table {
    if taskId in tasks then tasks[taskId := Updated(tasks[taskId], status, progress, message, errorMessage, now)]
    else tasks
  }

  /** An entry after `set_result`. */
  function WithResult(t: Task, result: ResultDoc, now: int): Task {
    t.(result := Some(result), status := Completed, completedAt := Some(now), updatedAt := Some(now))
  }

  function ResultSet(tasks: Table, taskId: string, result: ResultDoc, now: int): Table {
    if taskId in tasks then tasks[taskId := WithResult(tasks[taskId], result, now)] else tasks
  }

  /** The upload handler's `task["temp_dir"] = temp_dir` on the entry
      `create_task` returned: that entry is the stored one, so the write
      lands in the table. */
  function WithTempDir(tasks: Table, taskId: string, dir: string): Table {
    if taskId in tasks then tasks[taskId := tasks[taskId].(tempDir := Some(dir))] else tasks
  }

  /** The temporary directory `cleanup_task` deletes: a non-empty one
      recorded on an existing entry. */
  function DirToRemove(tasks: Table, taskId: string): Option<string> {
    if taskId in tasks && tasks[taskId].tempDir.Some? && tasks[taskId].tempDir.value != "" then tasks[taskId].tempDir
    else None
  }

  function Lookup(tasks: Table, taskId: string): (r: Option<Task>)
    ensures r.Some? <==> taskId in tasks
    ensures r.Some? ==> r.value == tasks[taskId]
  {
    if taskId in tasks then Some(tasks[taskId]) else None
  }

  /** A new task is pending at progress 0 with no result, error or
      completion time, and replaces any entry of the same id; every other
      entry stays. */
  lemma CreatedFacts(tasks: Table, taskId: string, now: int)
    ensures var r := Created(tasks, taskId, now);
      r.Keys == tasks.Keys + {taskId} &&
      r[taskId].status == Pending && r[taskId].progress == 0 && r[taskId].result.None? &&
      r[taskId].errorMessage.None? && r[taskId].completedAt.None? && r[taskId].createdAt == now &&
      (forall id :: id in tasks && id != taskId ==> r[id] == tasks[id])
  {
  }

  /** An update of an unknown id changes nothing; an update of a known id
      changes only that entry, in which every given field is written and
      every field whose argument is missing stays as it was. */
  lemma UpdatedFacts(tasks: Table, taskId: string, status: Option<TaskStatus>, progress: Option<int>,
                     message: Option<string>, errorMessage: Option<string>, now: int)
    ensures var r := UpdatedTable(tasks, taskId, status, progress, message, errorMessage, now);
      (taskId !in tasks ==> r == tasks) &&
      r.Keys == tasks.Keys &&
      (forall id :: id in tasks && id != taskId ==> r[id] == tasks[id]) &&
      (taskId in tasks ==>
        var (t, u) := (tasks[taskId], r[taskId]);
        u.taskId == t.taskId && u.createdAt == t.createdAt && u.result == t.result && u.tempDir == t.tempDir &&
        u.updatedAt == Some(now) &&
        (status.None? ==> u.status == t.status) && (progress.None? ==> u.progress == t.progress) &&
        (message.None? ==> u.message == t.message) && (errorMessage.None? ==> u.errorMessage == t.errorMessage) &&
        (message.Some? ==> u.message == message) && (errorMessage.Some? ==> u.errorMessage == errorMessage) &&
        (status.Some? ==> u.status == status.value) && (progress.Some? ==> u.progress == progress.value) &&
        (u.completedAt == Some(now) || u.completedAt == t.completedAt) &&
        (status == Some(Completed) ==> u.completedAt == Some(now)) &&
        (status != Some(Completed) ==> u.completedAt == t.completedAt))
  {
  }

  /** Repeating an update with the same arguments at the same time changes
      nothing more, and an update with no arguments only stamps the update
      time. */
  lemma UpdateIdempotent(t: Task, status: Option<TaskStatus>, progress: Option<int>, message: Option<string>,
                         errorMessage: Option<string>, now: int)
    ensures var u := Updated(t, status, progress, message, errorMessage, now);
      Updated(u, status, progress, message, errorMessage, now) == u
    ensures Updated(t, None, None, None, None, now) == t.(updatedAt := Some(now))
  {
  }

  /** Setting a result on an unknown id changes nothing; on a known id it
      completes that entry with the result and leaves the others. */
  lemma ResultSetFacts(tasks: Table, taskId: string, result: ResultDoc, now: int)
    ensures var r := ResultSet(tasks, taskId, result, now);
      r.Keys == tasks.Keys &&
      (taskId !in tasks ==> r == tasks) &&
      (forall id :: id in tasks && id != taskId ==> r[id] == tasks[id]) &&
      (taskId in tasks ==>
        r[taskId].status == Completed && r[taskId].result == Some(result) &&
        r[taskId].completedAt == Some(now) && r[taskId].progress == tasks[taskId].progress &&
        r[taskId].message == tasks[taskId].message && r[taskId].createdAt == tasks[taskId].createdAt)
  {
  }

  /** Every operation keeps the table well formed. */
  lemma OperationsKeepWellFormed(tasks: Table, taskId: string, status: Option<TaskStatus>, progress: Option<int>,
                                 message: Option<string>, errorMessage: Option<string>, result: ResultDoc, now: int)
    requires WellFormed(tasks)
    ensures WellFormed(Created(tasks, taskId, now))
    ensures WellFormed(UpdatedTable(tasks, taskId, status, progress, message, errorMessage, now))
    ensures WellFormed(ResultSet(tasks, taskId, result, now))
    ensures WellFormed(tasks - {taskId})
  {
  }

  // ---------------------------------------------------------------------
  // The result endpoint and the upload check

  datatype ResultResponse =
    | HttpError(code: int)
    | Finished(taskId: string, status: TaskStatus, result: ResultDoc, completedAt: Option<int>)

  /** `get_task_result`: 404 for an unknown task, 400 for an unfinished
      one, 500 for a finished one without a result. */
  function ResultDecision(t: Option<Task>): ResultResponse {
    if t.None? then HttpError(404)
    else if t.value.status != Completed then HttpError(400)
    else if t.value.result.None? then HttpError(500)
    else Finished(t.value.taskId, t.value.status, t.value.result.value, t.value.completedAt)
  }

  /** Each answer of the result endpoint, with the condition that leads to
      it, and a finished answer of a well-formed table always has a
      completion time. */
  lemma DecisionFacts(tasks: Table, taskId: string)
    requires WellFormed(tasks)
    ensures var d := ResultDecision(Lookup(tasks, taskId));
      (d == HttpError(404) <==> taskId !in tasks) &&
      (d == HttpError(400) <==> taskId in tasks && tasks[taskId].status != Completed) &&
      (d == HttpError(500) <==> taskId in tasks && tasks[taskId].status == Completed && tasks[taskId].result.None?) &&
      (d.Finished? <==> taskId in tasks && tasks[taskId].status == Completed && tasks[taskId].result.Some?) &&
      (d.Finished? ==> d.taskId == taskId && d.result == tasks[taskId].result.value && d.completedAt.Some?)
  {
  }

  /** The life of one task as the endpoint sees it: pending after creation
      (400), finished with its result after `set_result`, gone after
      cleanup (404), and completed by a status update alone without a
      result (500). */
  lemma Lifecycle(tasks: Table, taskId: string, result: ResultDoc, t0: int, t1: int)
    ensures var c := Created(tasks, taskId, t0);
      ResultDecision(Lookup(c, taskId)) == HttpError(400) &&
      ResultDecision(Lookup(ResultSet(c, taskId, result, t1), taskId)) == Finished(taskId, Completed, result, Some(t1)) &&
      ResultDecision(Lookup(ResultSet(c, taskId, result, t1) - {taskId}, taskId)) == HttpError(404) &&
      ResultDecision(Lookup(UpdatedTable(c, taskId, Some(Completed), None, None, None, t1), taskId)) == HttpError(500)
  {
  }

  /** A freshly created task has no directory to delete; once the upload
      handler records a non-empty directory on it, cleanup deletes exactly
      that directory and removes its entry, and an empty one is not deleted. */
  lemma UploadCleanup(tasks: Table, taskId: string, dir: string, now: int)
    ensures DirToRemove(Created(tasks, taskId, now), taskId) == None
    ensures var t := WithTempDir(Created(tasks, taskId, now), taskId, dir);
      t.Keys == tasks.Keys + {taskId} &&
      (forall id :: id in tasks && id != taskId ==> t[id] == tasks[id]) &&
      DirToRemove(t, taskId) == (if dir != "" then Some(dir) else None) &&
      taskId !in t - {taskId}
  {
  }

  /** The upload check: the lower-cased file name ends in ".txt". */
  predicate AcceptedUpload(filename: string) {
    var f := LowerString(filename);
    |f| >= 4 && f[|f| - 4..] == ".txt"
  }

  /** The check accepts exactly the names whose last four characters are a
      dot and "txt" in any mix of cases. */
  lemma AcceptedUploadIff(filename: string)
    ensures AcceptedUpload(filename) <==>
      |filename| >= 4 && filename[|filename| - 4] == '.' &&
      filename[|filename| - 3] in {'t', 'T'} && filename[|filename| - 2] in {'x', 'X'} &&
      filename[|filename| - 1] in {'t', 'T'}
  {
    var f, n := LowerString(filename), |filename|;
    if n >= 4 {
      assert f[n - 4..] == [f[n - 4], f[n - 3], f[n - 2], f[n - 1]];
    }
  }

  // ---------------------------------------------------------------------
  // The store

  class TaskStore {
    var tasks: Table

    ghost predicate Valid()
      reads this
    {
      WellFormed(tasks)
    }

    constructor()
      ensures Valid() && tasks == map[]
    {
      tasks := map[];
    }

    method CreateTask(taskId: string, now: int) returns (task: Task)
      requires Valid()
      modifies this
      ensures Valid()
      ensures task == NewTask(taskId, now) && tasks == Created(old(tasks), taskId, now)
    {
      task := Task(taskId, Pending, 0, Some("任务已创建，等待处理"), now, Some(now), None, None, None, None);
      tasks := tasks[taskId := task];
    }

    function GetTask(taskId: string): (r: Option<Task>)
      reads this
      ensures r == Lookup(tasks, taskId)
    {
      if taskId in tasks then Some(tasks[taskId]) else None
    }

    /** `update_task`, field by field. */
    method UpdateTask(taskId: string, status: Option<TaskStatus>, progress: Option<int>, message: Option<string>,
                      errorMessage: Option<string>, now: int) returns (r: Option<Task>)
      requires Valid()
      modifies this
      ensures Valid()
      ensures tasks == UpdatedTable(old(tasks), taskId, status, progress, message, errorMessage, now)
      ensures r == Lookup(UpdatedTable(old(tasks), taskId, status, progress, message, errorMessage, now), taskId)
    {
      if taskId !in tasks {
        return None;
      }
      var task := tasks[taskId];
      if status.Some? {
        task := task.(status := status.value);
      }
      if progress.Some? {
        task := task.(progress := progress.value);
      }
      if message.Some? {
        task := task.(message := message);
      }
      if errorMessage.Some? {
        task := task.(errorMessage := errorMessage);
      }
      task := task.(updatedAt := Some(now));
      if status == Some(Completed) {
        task := task.(completedAt := Some(now));
      }
      tasks := tasks[taskId := task];
      r := Some(task);
    }

    method SetResult(taskId: string, result: ResultDoc, now: int) returns (found: bool)
      requires Valid()
      modifies this
      ensures Valid()
      ensures found <==> taskId in old(tasks)
      ensures tasks == ResultSet(old(tasks), taskId, result, now)
    {
      if taskId !in tasks {
        return false;
      }
      var task := tasks[taskId];
      task := task.(result := Some(result));
      task := task.(status := Completed);
      task := task.(completedAt := Some(now));
      task := task.(updatedAt := Some(now));
      tasks := tasks[taskId := task];
      found := true;
    }

    /** The upload handler's write of the temporary directory through the
        entry `create_task` returned. */
    method RecordTempDir(taskId: string, dir: string)
      requires Valid()
      modifies this
      ensures Valid()
      ensures tasks == WithTempDir(old(tasks), taskId, dir)
    {
      if taskId in tasks {
        tasks := tasks[taskId := tasks[taskId].(tempDir := Some(dir))];
      }
    }

    /** `cleanup_task`; `removed` is the directory it deletes, if any. */
    method CleanupTask(taskId: string) returns (removed: Option<string>)
      requires Valid()
      modifies this
      ensures Valid()
      ensures removed == DirToRemove(old(tasks), taskId)
      ensures tasks == old(tasks) - {taskId}
    {
      removed := None;
      if taskId in tasks && tasks[taskId].tempDir.Some? && tasks[taskId].tempDir.value != "" {
        removed := tasks[taskId].tempDir;
      }
      if taskId in tasks {
        tasks := tasks - {taskId};
      }
    }

    /** `get_task_result`. */
    function GetTaskResult(taskId: string): (r: ResultResponse)
      reads this
      requires Valid()
      ensures r == ResultDecision(Lookup(tasks, taskId))
      ensures r.Finished? ==> r.completedAt.Some?
    {
      DecisionFacts(tasks, taskId);
      ResultDecision(GetTask(taskId))
    }
  }
}
