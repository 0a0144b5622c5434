# Task list mutation engine of todo-tui, in Dafny

This project models the task engine of `internal/core/tasks.go` and proves
properties of it. It covers the `Task` record and the four operations the
command-line and terminal front ends call on an ordered list of tasks:

- `AddTask` trims the title and refuses a title that is all white space. It
  gives the new task the ID `max(existing IDs, 0) + 1` and appends it, not done.
- `DeleteTask` drops every task carrying the ID and fails when there is none.
  It then renumbers the survivors `1..N` in their order.
- `MarkDone` sets `done` on the first task with the ID, writing into the
  caller's slice. It fails when no task has the ID.
- `ListTasks` lower-cases and trims the filter. It returns everything for `""`
  and `all`, the done tasks for `done`, and the others for `todo` and
  `pending`. Any other filter fails.

Files:

- `go_strings.dfy`, module `GoStrings`: the Go library functions the engine
  calls, `strings.TrimSpace` (with `unicode.IsSpace`) and `strings.ToLower`.
- `tasks.dfy`, module `Tasks`: the data model and one specification function
  per operation (`Added`, `Deleted`, `MarkedDone`, `ListedBy`/`Listed`). It
  also holds the operations as imperative methods with the Go code's loops
  (`AddTask`, `DeleteTask`, `MarkDone`, `ListTasks`). Each method is proved to
  compute its specification function.
- `task_laws.dfy`, module `TaskLaws`: lemmas about the specification
  functions. They cover fresh IDs, contiguous IDs, deletion as an
  order-preserving filter, idempotent marking, and the done/todo partition.
  A last lemma covers whole sequences of commands.

Modelling decisions:

- A Go `([]Task, error)` result is `Result<seq<Task>>`. On an error the Go code
  returns a nil slice, so `Err` carries no list. `Error` pairs the kind of
  error (`InvalidArgument` for a bad title or filter, `NotFound` for a missing
  ID) with the exact message the Go code builds.
- `AddTask`, `DeleteTask` and `ListTasks` take and return slices by value, so
  they are methods over `seq<Task>`. The Go code writes into the caller's
  slice only in `MarkDone`, so that method works on an `array<Task>` with
  `modifies`.
- `CreatedAt` came from `time.Now()`. Here it is a `Timestamp` value that the
  caller passes to `AddTask`.
- Go's `int` is 32 or 64 bits wide depending on the platform; the model
  assumes a 64-bit platform. `maxID + 1` is modelled with wrap-around
  (`Tasks.Increment`). The freshness of the new ID is therefore proved only
  while the largest stored ID is below 2^63 - 1. `AddWrapsAtMaxInt` shows
  the wrap when a stored ID is 2^63 - 1.
- `unicode.IsSpace` is modelled exactly: the six Latin-1 spaces, U+0085,
  U+00A0 and the other Unicode White_Space code points.
- `strings.ToLower` is modelled on the letters whose lower case is ASCII:
  `A`-`Z`, U+0130 and U+212A. All other code points are left as they are. The
  lowered filter is only compared with the ASCII words `all`, `done`, `todo`
  and `pending`. No letter outside that set lowers to ASCII, and none lowers
  to white space. So `ListTasks` makes the same choice as with Go's full
  case mapping.
- Strings are sequences of code points. The byte-level UTF-8 handling of
  Go's string functions is not modelled.
- The terminal UI offers a toggle (its help text at internal/ui/tui.go:141)
  and calls `core.ToggleDone` (internal/ui/tui.go:183), but
  internal/core/tasks.go does not define it. The model follows the code and
  leaves it out.

## Model

| member | source | states |
|---|---|---|
| GoStrings.TrimLeftKeepsSuffix | internal/core/tasks.go:20 | the leading trim keeps a suffix of the string; what it drops is all white space; what it keeps does not start with white space |
| GoStrings.TrimRightKeepsPrefix | internal/core/tasks.go:20 | the trailing trim keeps a prefix; what it drops is all white space; what it keeps does not end with white space |
| GoStrings.TrimSpaceEnds | internal/core/tasks.go:20-23 | the trimmed string is empty exactly when the input is all white space; otherwise it neither starts nor ends with white space |
| GoStrings.TrimSpaceIsSlice | internal/core/tasks.go:20 | the trimmed string is a contiguous slice of the input with only white space before and after it |
| GoStrings.ToLower | internal/core/tasks.go:90 | lower-casing maps code point to code point, so the length is kept |
| GoStrings.LowerRuneKeepsSpace | internal/core/tasks.go:90 | lower-casing maps white space to itself and nothing else to white space |
| GoStrings.LowerRuneIdempotent | internal/core/tasks.go:90 | lower-casing a code point twice is lower-casing it once |
| GoStrings.ToLowerAppend | internal/core/tasks.go:90 | lower-casing distributes over concatenation |
| GoStrings.ToLowerAllSpace | internal/core/tasks.go:90 | lower-casing leaves a string of white space unchanged |
| GoStrings.ToLowerAround | internal/core/tasks.go:90 | lower-casing a string padded with white space keeps the padding and lower-cases the rest |
| GoStrings.ToLowerIdempotent | internal/core/tasks.go:90 | lower-casing a string twice is lower-casing it once |
| GoStrings.TrimLeftSkipsSpace | internal/core/tasks.go:90 | leading white space does not change the result of the leading trim |
| GoStrings.TrimRightSkipsSpace | internal/core/tasks.go:90 | trailing white space does not change the result of the trailing trim |
| GoStrings.TrimSpaceAround | internal/core/tasks.go:90 | trimming a string that neither starts nor ends with white space, padded with white space on both sides, gives back that string |
| Tasks.MaxId | internal/core/tasks.go:25-31 | the running maximum is at least 0 and at least every ID, and it is 0 or one of the IDs |
| Tasks.Select | internal/core/tasks.go:98-111 | a filtering loop keeps only accepted tasks and is no longer than its input; it is strictly shorter when some task is rejected |
| Tasks.KeptIndices | internal/core/tasks.go:98-111 | the kept tasks sit at strictly increasing positions of the input, so the filter preserves order |
| Tasks.Renumbered | internal/core/tasks.go:66-69 | renumbering gives IDs exactly 1..N in order and changes no title, done flag or timestamp |
| Tasks.FirstIndex | internal/core/tasks.go:77-78 | the position found carries the ID and no earlier task does |
| Tasks.Added | internal/core/tasks.go:18-44 | fails with "title cannot be empty" exactly when the title is all white space; otherwise the input is kept as a prefix and one task is appended, not done, stamped with the given time, titled with the non-empty trimmed title; its ID is max(IDs, 0) + 1 and larger than every existing ID unless that maximum is the largest int |
| Tasks.Deleted | internal/core/tasks.go:47-72 | fails with "task not found" exactly when no task has the ID; otherwise the result is shorter than the input, has IDs 1..N, and matches the tasks without that ID one by one in title, done flag and timestamp |
| Tasks.MarkedDone | internal/core/tasks.go:75-85 | fails with "task not found" exactly when no task has the ID; otherwise the length is unchanged, the first task with the ID gets done = true, and every other task is unchanged |
| Tasks.ListedBy | internal/core/tasks.go:92-116 | fails with "unknown filter" exactly when the normalised filter is none of "", all, done, todo, pending; "" and all return the input unchanged; done returns only done tasks; todo and pending return only tasks not done |
| Tasks.AddTask | internal/core/tasks.go:18-44 | the method with the max-ID loop computes Added |
| Tasks.DeleteTask | internal/core/tasks.go:47-72 | the method with the found flag and the renumbering loop computes Deleted |
| Tasks.MarkDone | internal/core/tasks.go:75-85 | the in-place method computes MarkedDone of the old array; on success the returned list is the array's new contents; on failure the array is unchanged |
| Tasks.FilterTasks | internal/core/tasks.go:98-111 | the appending loop computes Select |
| Tasks.ListTasks | internal/core/tasks.go:88-117 | the method computes ListedBy of the lower-cased, trimmed filter |
| TaskLaws.ContiguousIds | internal/core/tasks.go:66-69 | IDs 1..N are unique, form the set {1..N}, and an ID is present exactly when it is in 1..N |
| TaskLaws.MaxIdOfContiguous | internal/core/tasks.go:25-31 | on IDs 1..N the running maximum is N |
| TaskLaws.AddKeepsContiguous | internal/core/tasks.go:25-43 | adding to a list with IDs 1..N succeeds for a title that is not blank and gives IDs 1..N+1 |
| TaskLaws.AddKeepsUniqueIds | internal/core/tasks.go:25-43 | with unique IDs and no wrap-around, adding keeps the IDs unique and adds exactly the new ID to the ID set |
| TaskLaws.AppendLargerId | internal/core/tasks.go:42 | appending a task with an ID above every existing ID keeps the IDs unique and adds that ID |
| TaskLaws.AddWrapsAtMaxInt | internal/core/tasks.go:35 | when a stored ID is the largest 64-bit int, the new ID wraps to the smallest and is below that stored ID |
| TaskLaws.AddWrapDuplicatesId | internal/core/tasks.go:25-42 | when the largest and the smallest 64-bit values are both stored IDs, adding succeeds but gives a list with a duplicate ID |
| TaskLaws.AddTrimsTitle | internal/core/tasks.go:20-36 | adding "  foo  " stores the title "foo" |
| TaskLaws.TrimFooExample | internal/core/tasks.go:20 | trimming "  foo  " gives "foo" |
| TaskLaws.SelectCount | internal/core/tasks.go:98-111 | each task occurs in a filter's result as often as in the input when accepted, and never when rejected |
| TaskLaws.SelectIsSubsequence | internal/core/tasks.go:98-111 | a filter's result is an order-preserving subsequence of the input |
| TaskLaws.SelectMembers | internal/core/tasks.go:98-111 | a task is in a filter's result exactly when it is in the input and accepted |
| TaskLaws.SelectSplits | internal/core/tasks.go:98-111 | filtering with a condition and with its negation splits the input: the lengths add up and the multisets add up |
| TaskLaws.WithoutIsFilter | internal/core/tasks.go:52-59 | the tasks kept by delete are an order-preserving subsequence; each task without the ID keeps its multiplicity, and every task with the ID goes, duplicates included |
| TaskLaws.WithoutUnique | internal/core/tasks.go:52-59 | when only one position carries the ID, delete removes exactly that task |
| TaskLaws.WithoutAll | internal/core/tasks.go:52-59 | when no task carries the ID, the filtering loop keeps the whole list |
| TaskLaws.DeleteFromContiguous | internal/core/tasks.go:47-72 | from IDs 1..N, deleting an ID in 1..N removes exactly that task and renumbers the rest; the length drops by one |
| TaskLaws.DeleteRenumbersExample | internal/core/tasks.go:52-71 | deleting 2 from tasks 1, 2, 3 leaves task 1 and the old task 3 renumbered 2 |
| TaskLaws.MarkDoneKeepsIds | internal/core/tasks.go:77-80 | marking done changes no ID, so IDs 1..N and the ID set are kept |
| TaskLaws.MarkDoneIdempotent | internal/core/tasks.go:75-85 | marking the same ID done twice equals marking it once |
| TaskLaws.ListedIsSubsequence | internal/core/tasks.go:88-117 | every successful listing is an order-preserving subsequence of the input |
| TaskLaws.ListedPartition | internal/core/tasks.go:98-111 | the done and todo listings have lengths summing to the input's length and multisets summing to the input's; no task is in both; their ID sets cover the input's ID set; with unique IDs the ID sets are disjoint |
| TaskLaws.DoneAndPendingPartition | internal/core/tasks.go:100-110 | the done and the not-done tasks partition the list, as in ListedPartition |
| TaskLaws.NormalizeExample | internal/core/tasks.go:90 | the filter " Done\n" normalises to "done" |
| TaskLaws.LowerExample | internal/core/tasks.go:90 | lower-casing " Done\n" gives " done\n" |
| TaskLaws.TrimExample | internal/core/tasks.go:90 | trimming " done\n" gives "done" |
| TaskLaws.ListedDoneCaseInsensitive | internal/core/tasks.go:90-105 | listing with " Done\n" returns the done tasks |
| TaskLaws.ListedIgnoresCaseAndSpace | internal/core/tasks.go:89-113 | any spelling of a known filter, in any case and padded with any white space, lists the same as its lower-case form |
| TaskLaws.KnownFilterEdges | internal/core/tasks.go:93-113 | no accepted filter word starts or ends with white space |
| TaskLaws.ListedCaseInsensitive | internal/core/tasks.go:89-90 | lower-casing the filter first never changes the listing, whatever the filter |
| TaskLaws.ListedDoneUpperCase | internal/core/tasks.go:89-105 | listing with "DONE" returns the done tasks |
| TaskLaws.StepKeepsContiguous | internal/core/tasks.go:18-85 | one successful add, delete or mark-done on IDs 1..N again gives contiguous IDs, with the list grown by at most one |
| TaskLaws.RunKeepsContiguous | internal/ui/tui.go:116-122 | from IDs 1..N, any sequence of commands leaves IDs exactly {1..len}; a failing command keeps the list, as the front ends do |

## Left out

- internal/store/json_store.go (`Load`, `Save`): file I/O, JSON encoding and the atomic rename belong to the OS and to Go's libraries. The model has no file system.
- cmd/todo-tui/main.go and internal/ui/tui.go: argument dispatch, `parseID` (a wrapper over `strconv.Atoi`), printing, exit codes, and the widget and row-selection state. These are presentation code.
- `ToggleDone`: it is called from internal/ui/tui.go:183, but internal/core/tasks.go does not define it, so it is not modelled.
- Tasks.Added: its ID arithmetic (`Tasks.Increment`) models the wrap of `maxID + 1` at 2^63 - 1 only; on a 32-bit platform Go's `int` wraps at 2^31 - 1 (to -2^31), which the model does not capture.
- `time.Now()`: the timestamp is a parameter, and wall-clock semantics are not modelled.
- Slice aliasing: `append` in `AddTask` may reuse the caller's backing array, and `ListTasks` returns the caller's slice itself for `""`/`all`. The model captures the returned values only. The one explicit in-place write is modelled: `MarkDone` on its array.
- GoStrings.LowerRune: lowers only `A`-`Z`, U+0130 and U+212A. Other letters keep their case, so `strings.ToLower` is modelled weaker than Go's full Unicode mapping. This is enough for the filter comparison.
- Tasks.Listed: it only applies `ListedBy` to the normalised filter. Its properties are stated on `ListedBy` and in the `TaskLaws` lemmas.
- Invalid UTF-8 in titles and filters: strings are modelled as code-point sequences.
