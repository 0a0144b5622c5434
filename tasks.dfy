/** The task list mutation engine of internal/core/tasks.go: the `Task`
    record and the four operations over an ordered list of tasks. */
module Tasks {
  import opened GoStrings

  /** `time.Time` read from the clock when a task is created; the model only
      stores and compares it. */
  datatype Timestamp = Timestamp(unixNanos: int)

  datatype Task = Task(id: int, title: string, done: bool, createdAt: Timestamp)

  /** An error the engine returns. Go's `errors.New` values carry only a
      message; the two constructors are this model's own grouping of those
      messages (a bad title or filter, a missing ID). */
  datatype Error = InvalidArgument(message: string) | NotFound(message: string)

  /** A Go `(value, error)` pair: on an error the slice returned is nil. */
  datatype Result<T> = Ok(value: T) | Err(error: Error)

  const EmptyTitleMessage: string := "AddTask: title cannot be empty"
  const DeleteNotFoundMessage: string := "DeleteTask: task not found"
  const MarkDoneNotFoundMessage: string := "MarkDone: task not found"
  const UnknownFilterMessage: string := "ListTasks: unknown filter (use all|done|todo)"

  // ---------------------------------------------------------------------------
  // Go's `int` on a 64-bit platform

  const MinInt: int := -0x8000_0000_0000_0000
  const MaxInt: int := 0x7fff_ffff_ffff_ffff

  /** Go's `m + 1` on `int` on a 64-bit platform: it wraps around from the
      largest value to the smallest. */
  function Increment(m: int): int {
    if m == MaxInt then MinInt else m + 1
  }

  // ---------------------------------------------------------------------------
  // Facts about a list of tasks

  predicate HasId(ts: seq<Task>, id: int) {
    exists i :: 0 <= i < |ts| && ts[i].id == id
  }

  /** The IDs are exactly 1..|ts|, in order. */
  predicate Contiguous(ts: seq<Task>) {
    forall i :: 0 <= i < |ts| ==> ts[i].id == i + 1
  }

  predicate UniqueIds(ts: seq<Task>) {
    forall i, j :: 0 <= i < j < |ts| ==> ts[i].id != ts[j].id
  }

  function Ids(ts: seq<Task>): set<int> {
    set i | 0 <= i < |ts| :: ts[i].id
  }

  /** Two tasks that differ at most in their IDs. */
  predicate SameContent(a: Task, b: Task) {
    a.title == b.title && a.done == b.done && a.createdAt == b.createdAt
  }

  predicate IsDone(t: Task) { t.done }

  predicate IsPending(t: Task) { !t.done }

  /** `idx` embeds `a` into `b` in order: `a[k]` is `b[idx[k]]`, and the
      positions increase. */
  ghost predicate EmbedsVia(a: seq<Task>, b: seq<Task>, idx: seq<nat>) {
    && |idx| == |a|
    && (forall k :: 0 <= k < |idx| ==> idx[k] < |b| && a[k] == b[idx[k]])
    && (forall k, l :: 0 <= k < l < |idx| ==> idx[k] < idx[l])
  }

  /** `a` is `b` with some of its elements removed, the rest in their order. */
  ghost predicate IsSubsequence(a: seq<Task>, b: seq<Task>) {
    exists idx :: EmbedsVia(a, b, idx)
  }

  // ---------------------------------------------------------------------------
  // Specification functions

  /** The running maximum that AddTask computes, starting from 0. */
  function MaxId(ts: seq<Task>): (m: int)
    ensures m >= 0
    ensures forall i :: 0 <= i < |ts| ==> ts[i].id <= m
    ensures m == 0 || exists i :: 0 <= i < |ts| && ts[i].id == m
  {
    if ts == [] then 0
    else
      var m := MaxId(ts[..|ts| - 1]);
      if ts[|ts| - 1].id > m then ts[|ts| - 1].id else m
  }

  /** The tasks of `ts` that `keep` accepts, in their order (KeptIndices
      gives their positions in `ts`). */
  function Select(ts: seq<Task>, keep: Task -> bool): (r: seq<Task>)
    ensures |r| <= |ts|
    ensures forall k :: 0 <= k < |r| ==> keep(r[k])
    ensures (exists j :: 0 <= j < |ts| && !keep(ts[j])) ==> |r| < |ts|
  {
    if ts == [] then []
    else
      var init, last := ts[..|ts| - 1], ts[|ts| - 1];
      assert ts == init + [last];
      var r := Select(init, keep);
      if keep(last) then r + [last] else r
  }

  /** The positions in `ts` of the tasks `Select` keeps: they embed the
      selection into `ts`, and a position is among them exactly when its task
      is kept. */
  ghost function KeptIndices(ts: seq<Task>, keep: Task -> bool): (idx: seq<nat>)
    ensures EmbedsVia(Select(ts, keep), ts, idx)
  {
    if ts == [] then []
    else
      var n := |ts|;
      var init, last := ts[..n - 1], ts[n - 1];
      var idx := KeptIndices(init, keep);
      var sel := Select(init, keep);
      assert forall k :: 0 <= k < |idx| ==> idx[k] < n - 1 && sel[k] == ts[idx[k]];
      assert forall j :: 0 <= j < n - 1 ==> ts[j] == init[j];
      if keep(last) then
        idx + [n - 1]
      else idx
  }

  /** The tasks whose ID is not `id`. */
  function Without(ts: seq<Task>, id: int): seq<Task> {
    Select(ts, (t: Task) => t.id != id)
  }

  /** The tasks of `ts` with their IDs rewritten to 1..|ts|. */
  function Renumbered(ts: seq<Task>): (r: seq<Task>)
    ensures |r| == |ts| && Contiguous(r)
    ensures forall i :: 0 <= i < |ts| ==> SameContent(r[i], ts[i])
  {
    seq(|ts|, i requires 0 <= i < |ts| => ts[i].(id := i + 1))
  }

  /** The position of the first task whose ID is `id`. */
  function FirstIndex(ts: seq<Task>, id: int): (k: nat)
    requires HasId(ts, id)
    ensures k < |ts| && ts[k].id == id
    ensures forall j :: 0 <= j < k ==> ts[j].id != id
  {
    if ts[0].id == id then 0
    else
      assert HasId(ts[1..], id) by {
        var i :| 0 <= i < |ts| && ts[i].id == id;
        assert ts[1..][i - 1].id == id;
      }
      1 + FirstIndex(ts[1..], id)
  }

  /** AddTask: fails exactly when the title is all white space; otherwise
      appends one task, not done, stamped `now`, titled with the trimmed
      title, whose ID follows the largest ID in the list. */
  function Added(ts: seq<Task>, title: string, now: Timestamp): (r: Result<seq<Task>>)
    ensures r.Err? <==> AllSpace(title)
    ensures r.Err? ==> r.error == InvalidArgument(EmptyTitleMessage)
    ensures r.Ok? ==> |r.value| == |ts| + 1 && r.value[..|ts|] == ts
    ensures r.Ok? ==> var t := r.value[|ts|];
                      && t.title == TrimSpace(title) && t.title != []
                      && !IsSpace(t.title[0]) && !IsSpace(t.title[|t.title| - 1])
                      && !t.done && t.createdAt == now
                      && (MaxId(ts) < MaxInt ==> t.id == MaxId(ts) + 1)
                      && (MaxId(ts) < MaxInt ==> forall i :: 0 <= i < |ts| ==> ts[i].id < t.id)
  {
    var cleanTitle := TrimSpace(title);
    TrimSpaceEnds(title);
    if cleanTitle == [] then Err(InvalidArgument(EmptyTitleMessage))
    else Ok(ts + [Task(Increment(MaxId(ts)), cleanTitle, false, now)])
  }

  /** DeleteTask: fails exactly when no task has ID `id`; otherwise removes
      every task with that ID and leaves the others, in their order and with
      their contents, numbered 1..N. */
  function Deleted(ts: seq<Task>, id: int): (r: Result<seq<Task>>)
    ensures r.Err? <==> !HasId(ts, id)
    ensures r.Err? ==> r.error == NotFound(DeleteNotFoundMessage)
    ensures r.Ok? ==> Contiguous(r.value) && |r.value| < |ts|
    ensures r.Ok? ==> var kept := Without(ts, id);
                      && |r.value| == |kept|
                      && forall i :: 0 <= i < |kept| ==> SameContent(r.value[i], kept[i])
  {
    if !HasId(ts, id) then Err(NotFound(DeleteNotFoundMessage))
    else Ok(Renumbered(Without(ts, id)))
  }

  /** MarkDone: fails exactly when no task has ID `id`; otherwise sets `done`
      on the first such task and on nothing else. */
  function MarkedDone(ts: seq<Task>, id: int): (r: Result<seq<Task>>)
    ensures r.Err? <==> !HasId(ts, id)
    ensures r.Err? ==> r.error == NotFound(MarkDoneNotFoundMessage)
    ensures r.Ok? ==> |r.value| == |ts|
    ensures r.Ok? ==> forall j :: 0 <= j < |ts| ==>
              if j == FirstIndex(ts, id) then r.value[j] == ts[j].(done := true)
              else r.value[j] == ts[j]
  {
    if !HasId(ts, id) then Err(NotFound(MarkDoneNotFoundMessage))
    else
      var k := FirstIndex(ts, id);
      Ok(ts[k := ts[k].(done := true)])
  }

  /** The filter as ListTasks compares it: lower-cased, then trimmed. */
  function Normalize(filter: string): string {
    TrimSpace(ToLower(filter))
  }

  /** The filters ListTasks accepts, after normalisation. */
  const KnownFilters: set<string> := {"", "all", "done", "todo", "pending"}

  /** The switch of ListTasks on the normalised filter: fails exactly on an
      unknown filter; "" and "all" give the whole list, "done" only done
      tasks and "todo"/"pending" only tasks not done. */
  function ListedBy(ts: seq<Task>, normalized: string): (r: Result<seq<Task>>)
    ensures r.Err? <==> normalized !in KnownFilters
    ensures r.Err? ==> r.error == InvalidArgument(UnknownFilterMessage)
    ensures normalized in {"", "all"} ==> r == Ok(ts)
    ensures normalized == "done" ==> r.Ok? && forall k :: 0 <= k < |r.value| ==> r.value[k].done
    ensures normalized in {"todo", "pending"} ==> r.Ok? && forall k :: 0 <= k < |r.value| ==> !r.value[k].done
  {
    if normalized == "" || normalized == "all" then Ok(ts)
    else if normalized == "done" then Ok(Select(ts, IsDone))
    else if normalized == "todo" || normalized == "pending" then Ok(Select(ts, IsPending))
    else Err(InvalidArgument(UnknownFilterMessage))
  }

  /** ListTasks: the switch applied to the lower-cased, trimmed filter. */
  function Listed(ts: seq<Task>, filter: string): Result<seq<Task>> {
    ListedBy(ts, Normalize(filter))
  }

  // ---------------------------------------------------------------------------
  // The operations of internal/core/tasks.go

  method AddTask(tasks: seq<Task>, title: string, now: Timestamp) returns (r: Result<seq<Task>>)
    ensures r == Added(tasks, title, now)
  {
    var cleanTitle := TrimSpace(title);
    if cleanTitle == [] {
      return Err(InvalidArgument(EmptyTitleMessage));
    }
    var maxId := 0;
    for i := 0 to |tasks|
      invariant maxId == MaxId(tasks[..i])
    {
      assert tasks[..i + 1][..i] == tasks[..i];
      if tasks[i].id > maxId {
        maxId := tasks[i].id;
      }
    }
    assert tasks[..|tasks|] == tasks;
    var newTask := Task(Increment(maxId), cleanTitle, false, now);
    return Ok(tasks + [newTask]);
  }

  method DeleteTask(tasks: seq<Task>, id: int) returns (r: Result<seq<Task>>)
    ensures r == Deleted(tasks, id)
  {
    var found := false;
    var updated: seq<Task> := [];
    for i := 0 to |tasks|
      invariant updated == Without(tasks[..i], id)
      invariant found <==> HasId(tasks[..i], id)
    {
      assert tasks[..i + 1][..i] == tasks[..i];
      var t := tasks[i];
      if t.id == id {
        found := true;
        continue;
      }
      updated := updated + [t];
    }
    assert tasks[..|tasks|] == tasks;
    if !found {
      return Err(NotFound(DeleteNotFoundMessage));
    }
    ghost var kept := updated;
    for i := 0 to |updated|
      invariant |updated| == |kept|
      invariant forall j :: 0 <= j < i ==> updated[j] == kept[j].(id := j + 1)
      invariant forall j :: i <= j < |updated| ==> updated[j] == kept[j]
    {
      updated := updated[i := updated[i].(id := i + 1)];
    }
    assert updated == Renumbered(kept);
    return Ok(updated);
  }

  /** Writes into the caller's slice in place, as the Go code does, and
      returns the same slice on success. */
  method MarkDone(tasks: array<Task>, id: int) returns (r: Result<seq<Task>>)
    modifies tasks
    ensures r == MarkedDone(old(tasks[..]), id)
    ensures r.Ok? ==> r.value == tasks[..]
    ensures r.Err? ==> tasks[..] == old(tasks[..])
  {
    for i := 0 to tasks.Length
      invariant forall j :: 0 <= j < i ==> tasks[j].id != id
    {
      if tasks[i].id == id {
        ghost var before := tasks[..];
        tasks[i] := tasks[i].(done := true);
        assert FirstIndex(before, id) == i;
        return Ok(tasks[..]);
      }
    }
    return Err(NotFound(MarkDoneNotFoundMessage));
  }

  /** The two filtering loops of ListTasks: appends, in order, every task
      that `keep` accepts. */
  method FilterTasks(tasks: seq<Task>, keep: Task -> bool) returns (filtered: seq<Task>)
    ensures filtered == Select(tasks, keep)
  {
    filtered := [];
    for i := 0 to |tasks|
      invariant filtered == Select(tasks[..i], keep)
    {
      assert tasks[..i + 1][..i] == tasks[..i];
      if keep(tasks[i]) {
        filtered := filtered + [tasks[i]];
      }
    }
    assert tasks[..|tasks|] == tasks;
  }

  method ListTasks(tasks: seq<Task>, filter: string) returns (r: Result<seq<Task>>)
    ensures r == Listed(tasks, filter)
  {
    var normalized := Normalize(filter);
    if normalized == "" || normalized == "all" {
      return Ok(tasks);
    }
    var filtered: seq<Task>;
    if normalized == "done" {
      filtered := FilterTasks(tasks, IsDone);
    } else if normalized == "todo" || normalized == "pending" {
      filtered := FilterTasks(tasks, IsPending);
    } else {
      return Err(InvalidArgument(UnknownFilterMessage));
    }
    return Ok(filtered);
  }
}
