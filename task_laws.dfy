/** Properties of the task engine that relate several calls, or a call to an
    independent description of its result. */
module TaskLaws {
  import opened GoStrings
  import opened Tasks

  // ---------------------------------------------------------------------------
  // IDs

  /** The set {1, ..., n}. */
  function OneTo(n: nat): (r: set<int>)
    ensures forall k :: k in r <==> 1 <= k <= n
  {
    if n == 0 then {} else OneTo(n - 1) + {n}
  }

  /** Contiguous IDs are unique, and they are exactly {1, ..., N}. */
  lemma ContiguousIds(ts: seq<Task>)
    requires Contiguous(ts)
    ensures UniqueIds(ts)
    ensures Ids(ts) == OneTo(|ts|)
    ensures forall id :: HasId(ts, id) <==> 1 <= id <= |ts|
  {
    forall k | 1 <= k <= |ts| ensures k in Ids(ts) && HasId(ts, k) {
      assert ts[k - 1].id == k;
    }
  }

  /** On contiguous IDs the running maximum is the length of the list. */
  lemma {:induction false} MaxIdOfContiguous(ts: seq<Task>)
    requires Contiguous(ts)
    ensures MaxId(ts) == |ts|
  {
    if ts != [] {
      MaxIdOfContiguous(ts[..|ts| - 1]);
    }
  }

  // ---------------------------------------------------------------------------
  // AddTask

  /** Adding to a list with IDs 1..N gives a list with IDs 1..N+1. */
  lemma AddKeepsContiguous(ts: seq<Task>, title: string, now: Timestamp)
    requires Contiguous(ts) && |ts| < MaxInt
    requires !AllSpace(title)
    ensures Added(ts, title, now).Ok?
    ensures Contiguous(Added(ts, title, now).value)
  {
    MaxIdOfContiguous(ts);
  }

  /** Adding keeps IDs unique and adds exactly the one new ID, as long as the
      ID does not wrap around. */
  lemma AddKeepsUniqueIds(ts: seq<Task>, title: string, now: Timestamp)
    requires UniqueIds(ts) && MaxId(ts) < MaxInt
    requires !AllSpace(title)
    ensures Added(ts, title, now).Ok?
    ensures UniqueIds(Added(ts, title, now).value)
    ensures Ids(Added(ts, title, now).value) == Ids(ts) + {MaxId(ts) + 1}
  {
    var r := Added(ts, title, now).value;
    var added := r[|ts|];
    assert r == ts + [added] by {
      assert r[..|ts|] == ts;
    }
    AppendLargerId(ts, added);
  }

  /** Appending a task whose ID is larger than every ID keeps the IDs unique
      and adds that one ID. */
  lemma AppendLargerId(ts: seq<Task>, t: Task)
    requires UniqueIds(ts)
    requires forall i :: 0 <= i < |ts| ==> ts[i].id < t.id
    ensures UniqueIds(ts + [t])
    ensures Ids(ts + [t]) == Ids(ts) + {t.id}
  {
    var r := ts + [t];
    forall x | x in Ids(r) ensures x in Ids(ts) + {t.id} {
      var i :| 0 <= i < |r| && r[i].id == x;
      if i < |ts| { assert ts[i].id == x; }
    }
    forall x | x in Ids(ts) ensures x in Ids(r) {
      var i :| 0 <= i < |ts| && ts[i].id == x;
      assert r[i].id == x;
    }
    assert r[|ts|].id == t.id;
  }

  /** When a stored ID is the largest 64-bit value, `maxID + 1` wraps around
      and the new task's ID is smaller than that stored ID. */
  lemma AddWrapsAtMaxInt(ts: seq<Task>, title: string, now: Timestamp, i: nat)
    requires i < |ts| && ts[i].id == MaxInt
    requires forall j :: 0 <= j < |ts| ==> ts[j].id <= MaxInt
    requires !AllSpace(title)
    ensures Added(ts, title, now).Ok?
    ensures Added(ts, title, now).value[|ts|].id == MinInt < ts[i].id
  {
    var m := MaxId(ts);
    assert m == MaxInt by {
      if m != 0 {
        var k :| 0 <= k < |ts| && ts[k].id == m;
      }
    }
  }

  /** What the wrap breaks: when both the largest and the smallest 64-bit
      value are stored IDs, the new task gets an ID that is already taken. */
  lemma AddWrapDuplicatesId(ts: seq<Task>, title: string, now: Timestamp, i: nat, j: nat)
    requires i < |ts| && ts[i].id == MaxInt
    requires j < |ts| && ts[j].id == MinInt
    requires forall l :: 0 <= l < |ts| ==> ts[l].id <= MaxInt
    requires !AllSpace(title)
    ensures Added(ts, title, now).Ok?
    ensures !UniqueIds(Added(ts, title, now).value)
  {
    AddWrapsAtMaxInt(ts, title, now, i);
    var r := Added(ts, title, now).value;
    assert r[j] == ts[j];
    assert r[j].id == r[|ts|].id;
  }

  /** AddTask trims the title: `"  foo  "` is stored as `"foo"`. */
  lemma AddTrimsTitle(ts: seq<Task>, now: Timestamp)
    ensures Added(ts, "  foo  ", now).Ok?
    ensures Added(ts, "  foo  ", now).value[|ts|].title == "foo"
  {
    TrimFooExample();
  }

  lemma TrimFooExample()
    ensures TrimSpace("  foo  ") == "foo"
  {
    assert "  foo  " == "  " + "foo" + "  ";
    TrimSpaceAround("  ", "foo", "  ");
  }

  // ---------------------------------------------------------------------------
  // Selecting tasks (the loops of DeleteTask and ListTasks)

  /** Each task occurs in the selection as often as in `ts` when it is kept,
      and not at all otherwise. */
  lemma {:induction false} SelectCount(ts: seq<Task>, keep: Task -> bool)
    ensures forall t :: multiset(Select(ts, keep))[t] == if keep(t) then multiset(ts)[t] else 0
  {
    if ts != [] {
      var init, last := ts[..|ts| - 1], ts[|ts| - 1];
      assert ts == init + [last];
      SelectCount(init, keep);
    }
  }

  /** The selection is an order-preserving subsequence of `ts`. */
  lemma SelectIsSubsequence(ts: seq<Task>, keep: Task -> bool)
    ensures IsSubsequence(Select(ts, keep), ts)
  {
    var idx := KeptIndices(ts, keep);
    assert EmbedsVia(Select(ts, keep), ts, idx);
  }

  /** A task is selected exactly when it is in `ts` and kept. */
  lemma SelectMembers(ts: seq<Task>, keep: Task -> bool)
    ensures forall t :: t in Select(ts, keep) <==> t in ts && keep(t)
  {
    SelectCount(ts, keep);
    forall t ensures t in Select(ts, keep) <==> t in ts && keep(t) {
      assert t in Select(ts, keep) <==> multiset(Select(ts, keep))[t] > 0;
      assert t in ts <==> multiset(ts)[t] > 0;
    }
  }

  /** Selecting with `keep` and with its negation splits `ts` in two. */
  lemma {:induction false} SelectSplits(ts: seq<Task>, keep: Task -> bool, drop: Task -> bool)
    requires forall t :: drop(t) == !keep(t)
    ensures |Select(ts, keep)| + |Select(ts, drop)| == |ts|
    ensures multiset(Select(ts, keep)) + multiset(Select(ts, drop)) == multiset(ts)
  {
    if ts != [] {
      var init, last := ts[..|ts| - 1], ts[|ts| - 1];
      assert ts == init + [last];
      SelectSplits(init, keep, drop);
    }
  }

  // ---------------------------------------------------------------------------
  // DeleteTask

  /** The tasks DeleteTask keeps are those of `ts` whose ID is not `id`, in
      their order and as often as in `ts`: every task with that ID goes,
      duplicates included. */
  lemma WithoutIsFilter(ts: seq<Task>, id: int)
    ensures IsSubsequence(Without(ts, id), ts)
    ensures forall t :: multiset(Without(ts, id))[t] == if t.id != id then multiset(ts)[t] else 0
    ensures forall t :: t in Without(ts, id) <==> t in ts && t.id != id
  {
    SelectIsSubsequence(ts, (t: Task) => t.id != id);
    SelectCount(ts, (t: Task) => t.id != id);
    SelectMembers(ts, (t: Task) => t.id != id);
  }

  /** When only position `p` carries `id`, deleting it removes exactly that
      task. */
  lemma {:induction false} WithoutUnique(ts: seq<Task>, id: int, p: nat)
    requires p < |ts| && ts[p].id == id
    requires forall j :: 0 <= j < |ts| && j != p ==> ts[j].id != id
    ensures Without(ts, id) == ts[..p] + ts[p + 1..]
  {
    var n := |ts|;
    var init := ts[..n - 1];
    if p == n - 1 {
      assert Without(init, id) == init by {
        WithoutAll(init, id);
      }
    } else {
      WithoutUnique(init, id, p);
      assert init[..p] + init[p + 1..] + [ts[n - 1]] == ts[..p] + ts[p + 1..];
    }
  }

  /** Deleting an ID no task has leaves the list as it was. */
  lemma {:induction false} WithoutAll(ts: seq<Task>, id: int)
    requires forall j :: 0 <= j < |ts| ==> ts[j].id != id
    ensures Without(ts, id) == ts
  {
    if ts != [] {
      var init := ts[..|ts| - 1];
      WithoutAll(init, id);
      assert init + [ts[|ts| - 1]] == ts;
    }
  }

  /** From IDs 1..N, deleting ID `id` in 1..N drops exactly task `id` and
      renumbers the rest: so the task after it moves down by one. */
  lemma DeleteFromContiguous(ts: seq<Task>, id: int)
    requires Contiguous(ts) && 1 <= id <= |ts|
    ensures Deleted(ts, id) == Ok(Renumbered(ts[..id - 1] + ts[id..]))
    ensures |Deleted(ts, id).value| == |ts| - 1
  {
    assert ts[id - 1].id == id;
    WithoutUnique(ts, id, id - 1);
  }

  /** Deleting task 2 of three tasks numbered 1, 2, 3 leaves the first and
      the third, the third now numbered 2. */
  lemma DeleteRenumbersExample(a: Task, b: Task, c: Task)
    requires a.id == 1 && b.id == 2 && c.id == 3
    ensures Deleted([a, b, c], 2) == Ok([a, c.(id := 2)])
  {
    DeleteFromContiguous([a, b, c], 2);
    assert [a, b, c][..1] + [a, b, c][2..] == [a, c];
    assert a.(id := 1) == a;
    assert Renumbered([a, c]) == [a, c.(id := 2)];
  }

  // ---------------------------------------------------------------------------
  // MarkDone

  /** MarkDone changes no ID, so it keeps every invariant about IDs. */
  lemma MarkDoneKeepsIds(ts: seq<Task>, id: int)
    requires MarkedDone(ts, id).Ok?
    ensures forall j :: 0 <= j < |ts| ==> MarkedDone(ts, id).value[j].id == ts[j].id
    ensures Contiguous(ts) ==> Contiguous(MarkedDone(ts, id).value)
    ensures Ids(MarkedDone(ts, id).value) == Ids(ts)
  {
    var r := MarkedDone(ts, id).value;
    assert forall j :: 0 <= j < |ts| ==> r[j].id == ts[j].id;
  }

  /** Marking the same ID done twice is the same as marking it once. */
  lemma MarkDoneIdempotent(ts: seq<Task>, id: int)
    requires MarkedDone(ts, id).Ok?
    ensures MarkedDone(MarkedDone(ts, id).value, id) == MarkedDone(ts, id)
  {
    var r := MarkedDone(ts, id).value;
    var k := FirstIndex(ts, id);
    MarkDoneKeepsIds(ts, id);
    assert HasId(r, id) by {
      assert r[k].id == id;
    }
    assert FirstIndex(r, id) == k;
    var r2 := MarkedDone(r, id).value;
    assert r[k].done && r[k].(done := true) == r[k];
    assert forall j :: 0 <= j < |ts| ==> r2[j] == r[j];
    assert r2 == r;
  }

  // ---------------------------------------------------------------------------
  // ListTasks

  /** Every listing that succeeds is an order-preserving subsequence. */
  lemma ListedIsSubsequence(ts: seq<Task>, filter: string)
    requires Listed(ts, filter).Ok?
    ensures IsSubsequence(Listed(ts, filter).value, ts)
  {
    var n := Normalize(filter);
    if n == "" || n == "all" {
      var idx := seq(|ts|, k requires 0 <= k < |ts| => k);
      assert EmbedsVia(ts, ts, idx);
    } else if n == "done" {
      SelectIsSubsequence(ts, IsDone);
    } else {
      SelectIsSubsequence(ts, IsPending);
    }
  }

  /** The "done" and the "todo" listings partition the list: their lengths
      add up, together they hold every task as often as the list, no task is
      in both, and with unique IDs their ID sets split the list's IDs. */
  lemma ListedPartition(ts: seq<Task>, doneFilter: string, todoFilter: string)
    requires Normalize(doneFilter) == "done"
    requires Normalize(todoFilter) in {"todo", "pending"}
    ensures var d, p := Listed(ts, doneFilter), Listed(ts, todoFilter);
            && d.Ok? && p.Ok?
            && |d.value| + |p.value| == |ts|
            && multiset(d.value) + multiset(p.value) == multiset(ts)
            && (forall t :: !(t in d.value && t in p.value))
            && Ids(d.value) + Ids(p.value) == Ids(ts)
            && (UniqueIds(ts) ==> Ids(d.value) * Ids(p.value) == {})
  {
    assert Listed(ts, doneFilter) == Ok(Select(ts, IsDone));
    assert Listed(ts, todoFilter) == Ok(Select(ts, IsPending));
    DoneAndPendingPartition(ts);
  }

  /** The done and the not-done tasks partition the list. */
  lemma DoneAndPendingPartition(ts: seq<Task>)
    ensures var d, p := Select(ts, IsDone), Select(ts, IsPending);
            && |d| + |p| == |ts|
            && multiset(d) + multiset(p) == multiset(ts)
            && (forall t :: !(t in d && t in p))
            && Ids(d) + Ids(p) == Ids(ts)
            && (UniqueIds(ts) ==> Ids(d) * Ids(p) == {})
  {
    var d, p := Select(ts, IsDone), Select(ts, IsPending);
    SelectSplits(ts, IsDone, IsPending);
    SelectMembers(ts, IsDone);
    SelectMembers(ts, IsPending);
    IdsOfSplit(ts, d, p);
  }

  /** Two lists that hold together exactly the tasks of `ts` hold together
      exactly its IDs. */
  lemma IdsOfSplit(ts: seq<Task>, d: seq<Task>, p: seq<Task>)
    requires multiset(d) + multiset(p) == multiset(ts)
    ensures Ids(d) + Ids(p) == Ids(ts)
  {
    forall x | x in Ids(d) + Ids(p) ensures x in Ids(ts) {
      if x in Ids(d) {
        var i :| 0 <= i < |d| && d[i].id == x;
        assert d[i] in multiset(ts);
        var a :| 0 <= a < |ts| && ts[a] == d[i];
      } else {
        var i :| 0 <= i < |p| && p[i].id == x;
        assert p[i] in multiset(ts);
        var a :| 0 <= a < |ts| && ts[a] == p[i];
      }
    }
    forall x | x in Ids(ts) ensures x in Ids(d) + Ids(p) {
      var a :| 0 <= a < |ts| && ts[a].id == x;
      assert ts[a] in multiset(d) + multiset(p);
      if ts[a] in multiset(d) {
        var i :| 0 <= i < |d| && d[i] == ts[a];
      } else {
        var i :| 0 <= i < |p| && p[i] == ts[a];
      }
    }
  }

  /** The filter is compared case-insensitively and without surrounding
      white space. */
  lemma NormalizeExample()
    ensures Normalize(" Done\n") == "done"
  {
    LowerExample();
    TrimExample();
  }

  lemma LowerExample()
    ensures ToLower(" Done\n") == " done\n"
  {
  }

  lemma TrimExample()
    ensures TrimSpace(" done\n") == "done"
  {
    assert TrimLeft(" done\n") == "done\n";
    assert TrimRight("done\n") == "done";
  }

  /** `" Done\n"` lists the done tasks. */
  lemma ListedDoneCaseInsensitive(ts: seq<Task>)
    ensures Listed(ts, " Done\n") == Ok(Select(ts, IsDone))
  {
    NormalizeExample();
  }

  /** The filter is matched case-insensitively and without surrounding white
      space: any spelling `k` of a known filter, in any case and padded with
      white space on either side, lists what its lower-case form lists. */
  lemma ListedIgnoresCaseAndSpace(ts: seq<Task>, w1: string, k: string, w2: string)
    requires AllSpace(w1) && AllSpace(w2)
    requires ToLower(k) in KnownFilters
    ensures Listed(ts, w1 + k + w2) == ListedBy(ts, ToLower(k))
  {
    var n := ToLower(k);
    ToLowerAround(w1, k, w2);
    KnownFilterEdges(n);
    TrimSpaceAround(w1, n, w2);
  }

  /** No known filter starts or ends with white space. */
  lemma KnownFilterEdges(n: string)
    requires n in KnownFilters
    ensures n != [] ==> !IsSpace(n[0]) && !IsSpace(n[|n| - 1])
  {
    if n == "all" {
    } else if n == "done" {
    } else if n == "todo" {
    } else if n == "pending" {
    }
  }

  /** Lower-casing the filter first never changes what is listed. */
  lemma ListedCaseInsensitive(ts: seq<Task>, filter: string)
    ensures Listed(ts, ToLower(filter)) == Listed(ts, filter)
  {
    ToLowerIdempotent(filter);
  }

  /** `"DONE"` lists the done tasks. */
  lemma ListedDoneUpperCase(ts: seq<Task>)
    ensures Listed(ts, "DONE") == Ok(Select(ts, IsDone))
  {
    assert ToLower("DONE") == "done";
    assert TrimSpace("done") == "done" by {
      assert TrimLeft("done") == "done";
      assert TrimRight("done") == "done";
    }
  }

  // ---------------------------------------------------------------------------
  // Sequences of operations

  /** One mutating call of a front end. */
  datatype Command = Add(title: string, now: Timestamp) | Delete(id: int) | Done(id: int)

  function Step(ts: seq<Task>, c: Command): Result<seq<Task>> {
    match c
    case Add(title, now) => Added(ts, title, now)
    case Delete(id) => Deleted(ts, id)
    case Done(id) => MarkedDone(ts, id)
  }

  /** Runs the commands in turn; a command that fails leaves the list as it
      was, as a front end that reports the error and keeps its list does. */
  function Run(ts: seq<Task>, cs: seq<Command>): seq<Task>
    decreases |cs|
  {
    if cs == [] then ts
    else
      var r := Step(ts, cs[0]);
      Run(if r.Ok? then r.value else ts, cs[1..])
  }

  /** One command keeps IDs 1..N contiguous and grows the list by at most one. */
  lemma StepKeepsContiguous(ts: seq<Task>, c: Command)
    requires Contiguous(ts) && |ts| < MaxInt
    ensures Step(ts, c).Ok? ==> Contiguous(Step(ts, c).value) && |Step(ts, c).value| <= |ts| + 1
  {
    match c
    case Add(title, now) =>
      if Step(ts, c).Ok? {
        AddKeepsContiguous(ts, title, now);
      }
    case Delete(id) =>
    case Done(id) =>
      if Step(ts, c).Ok? {
        MarkDoneKeepsIds(ts, id);
      }
  }

  /** Starting from IDs 1..N, any sequence of commands keeps the IDs exactly
      {1, ..., |list|} (as long as the list stays shorter than the largest
      64-bit `int`). */
  lemma {:induction false} RunKeepsContiguous(ts: seq<Task>, cs: seq<Command>)
    requires Contiguous(ts) && |ts| + |cs| <= MaxInt
    ensures Contiguous(Run(ts, cs)) && |Run(ts, cs)| <= |ts| + |cs|
    ensures Ids(Run(ts, cs)) == OneTo(|Run(ts, cs)|)
    decreases |cs|
  {
    if cs != [] {
      StepKeepsContiguous(ts, cs[0]);
      var r := Step(ts, cs[0]);
      RunKeepsContiguous(if r.Ok? then r.value else ts, cs[1..]);
    } else {
      ContiguousIds(ts);
    }
  }
}
