/** The task collection and the `add` operation of the command-line task
    tracker: ID assignment as `max(ids, default 0) + 1`, construction of a
    fresh `todo` record and appending it to the collection. Reading and
    writing `tasks.json` is abstracted as a `LoadResult` going in and the
    collection to be saved coming out. */
module TaskStore {
  import opened Text

  /** One task record as it appears in the JSON file. */
  datatype Task = Task(
    id: int,
    description: string,
    status: string,
    createdAt: string,
    updatedAt: string)

  /** The status every new task starts with. */
  const Todo: string := "todo"

  /** What reading `tasks.json` produced: no file, a file that does not
      decode as JSON (an empty file included), or a list of task records. */
  datatype LoadResult = Missing | Corrupt | Loaded(tasks: seq<Task>)

  /** What one `add` leaves behind: the collection written back to the file,
      the ID it handed out and the line it printed. */
  datatype AddOutcome = AddOutcome(saved: seq<Task>, newId: int, message: string)

  /** The arguments of one `add` call: the description and the clock reading. */
  datatype AddRequest = AddRequest(description: string, now: string)

  /** No two tasks share an ID. */
  ghost predicate UniqueIds(tasks: seq<Task>) {
    forall i, j :: 0 <= i < j < |tasks| ==> tasks[i].id != tasks[j].id
  }

  /** IDs strictly increase along the collection. */
  ghost predicate AscendingIds(tasks: seq<Task>) {
    forall i, j :: 0 <= i < j < |tasks| ==> tasks[i].id < tasks[j].id
  }

  /** The collection `add` works on: a missing or undecodable file counts as
      an empty collection. */
  function LoadPermissive(store: LoadResult): (tasks: seq<Task>)
    ensures store.Loaded? ==> tasks == store.tasks
    ensures !store.Loaded? ==> tasks == []
  {
    match store
    case Missing => []
    case Corrupt => []
    case Loaded(ts) => ts
  }

  /** The list `[task['id'] for task in tasks]`. */
  function IdsOf(tasks: seq<Task>): (ids: seq<int>)
    ensures |ids| == |tasks|
    ensures forall i :: 0 <= i < |tasks| ==> ids[i] == tasks[i].id
  {
    seq(|tasks|, i requires 0 <= i < |tasks| => tasks[i].id)
  }

  /** Python's `max(xs, default=d)` on integers. */
  function MaxOrDefault(xs: seq<int>, d: int): (m: int)
    ensures |xs| == 0 ==> m == d
    ensures |xs| > 0 ==> m in xs
    ensures forall i :: 0 <= i < |xs| ==> xs[i] <= m
    decreases |xs|
  {
    if |xs| == 0 then d
    else if |xs| == 1 then xs[0]
    else
      var m' := MaxOrDefault(xs[..|xs| - 1], d);
      if xs[|xs| - 1] > m' then xs[|xs| - 1] else m'
  }

  /** The ID the next added task receives. */
  function NextId(tasks: seq<Task>): (id: int)
    ensures |tasks| == 0 ==> id == 1
    ensures forall i :: 0 <= i < |tasks| ==> tasks[i].id < id
    ensures |tasks| > 0 ==> exists i :: 0 <= i < |tasks| && tasks[i].id == id - 1
  {
    var ids := IdsOf(tasks);
    var m := MaxOrDefault(ids, 0);
    assert |tasks| > 0 ==> exists i :: 0 <= i < |ids| && ids[i] == m;
    m + 1
  }

  /** The record a new task is created as. */
  function NewTask(id: int, description: string, now: string): Task {
    Task(id, description, Todo, now, now)
  }

  /** The confirmation line `add` prints, "✅ Task added (ID: n)". */
  function AddedMessage(id: int): string {
    "\U{2705} Task added (ID: " + IntToString(id) + ")"
  }

  /** `add_task(description)` with the clock read `now`: load permissively,
      append a `todo` task whose ID exceeds every existing one, save. */
  function Add(store: LoadResult, description: string, now: string): (r: AddOutcome)
    ensures var before := LoadPermissive(store);
      && |r.saved| == |before| + 1
      && r.saved[..|before|] == before
      && r.saved[|before|] == Task(r.newId, description, Todo, now, now)
      && (forall i :: 0 <= i < |before| ==> before[i].id < r.newId)
      && (|before| == 0 ==> r.newId == 1)
      && (|before| > 0 ==> exists i :: 0 <= i < |before| && before[i].id == r.newId - 1)
    ensures r.message == AddedMessage(r.newId)
  {
    var tasks := LoadPermissive(store);
    var id := NextId(tasks);
    AddOutcome(tasks + [NewTask(id, description, now)], id, AddedMessage(id))
  }

  /** The collection written back after `add`. */
  function AddedTasks(store: LoadResult, request: AddRequest): seq<Task> {
    Add(store, request.description, request.now).saved
  }

  /** Runs `add` once per request, each call reading the file the previous
      one wrote. */
  function AddMany(store: LoadResult, requests: seq<AddRequest>): LoadResult
    decreases |requests|
  {
    if |requests| == 0 then store
    else AddMany(Loaded(AddedTasks(store, requests[0])), requests[1..])
  }

  /** The tasks a run of `add` calls creates when the IDs `1..k` are taken:
      request `i` becomes the task with ID `k + i + 1`. */
  function Numbered(k: nat, requests: seq<AddRequest>): (tasks: seq<Task>)
    ensures |tasks| == |requests|
  {
    seq(|requests|, i requires 0 <= i < |requests| =>
      NewTask(k + i + 1, requests[i].description, requests[i].now))
  }

  // ---------------------------------------------------------------------
  // Properties of `add`
  // ---------------------------------------------------------------------

  /** Stated over the ID list itself: the new ID is one past an ID that is
      present, and exceeds every ID present, so it is `max(ids) + 1`. */
  lemma NextIdIsMaxPlusOne(tasks: seq<Task>)
    requires |tasks| > 0
    ensures NextId(tasks) - 1 in IdsOf(tasks)
    ensures forall x :: x in IdsOf(tasks) ==> x < NextId(tasks)
  {
    var id := NextId(tasks);
    var i :| 0 <= i < |tasks| && tasks[i].id == id - 1;
    assert IdsOf(tasks)[i] == id - 1;
  }

  /** Unique IDs before `add` means unique IDs after, and conversely. */
  lemma AddPreservesUniqueIds(store: LoadResult, description: string, now: string)
    ensures UniqueIds(LoadPermissive(store)) <==> UniqueIds(Add(store, description, now).saved)
  {
    var before := LoadPermissive(store);
    var saved := Add(store, description, now).saved;
    if UniqueIds(before) {
      forall i, j | 0 <= i < j < |saved|
        ensures saved[i].id != saved[j].id
      {
        if j == |before| {
          assert saved[i] == before[i];
        } else {
          assert saved[i] == before[i] && saved[j] == before[j];
        }
      }
    }
    if UniqueIds(saved) {
      forall i, j | 0 <= i < j < |before|
        ensures before[i].id != before[j].id
      {
        assert saved[i] == before[i] && saved[j] == before[j];
      }
    }
  }

  /** `add` keeps a collection sorted by ascending ID sorted. */
  lemma AddPreservesAscendingIds(store: LoadResult, description: string, now: string)
    requires AscendingIds(LoadPermissive(store))
    ensures AscendingIds(Add(store, description, now).saved)
  {
    var before := LoadPermissive(store);
    var saved := Add(store, description, now).saved;
    forall i, j | 0 <= i < j < |saved|
      ensures saved[i].id < saved[j].id
    {
      assert saved[i] == before[i];
      if j < |before| {
        assert saved[j] == before[j];
      }
    }
  }

  /** A missing file, an undecodable file and an empty list all lead `add`
      to the same result: a collection holding only the new task, with ID 1. */
  lemma AddToEmptyStore(store: LoadResult, description: string, now: string)
    requires store.Missing? || store.Corrupt? || store == Loaded([])
    ensures Add(store, description, now).saved == [NewTask(1, description, now)]
    ensures Add(store, description, now) == Add(Missing, description, now)
  {
  }

  /** One `add` onto a collection numbered `1..k` in order appends the task
      numbered `k + 1`. */
  lemma AddToNumbered(tasks: seq<Task>, request: AddRequest)
    requires forall i :: 0 <= i < |tasks| ==> tasks[i].id == i + 1
    ensures AddedTasks(Loaded(tasks), request) == tasks + Numbered(|tasks|, [request])
  {
    var id := NextId(tasks);
    if |tasks| > 0 {
      var i :| 0 <= i < |tasks| && tasks[i].id == id - 1;
      assert tasks[|tasks| - 1].id == |tasks|;
    }
    assert id == |tasks| + 1;
  }

  /** Numbering the first request and then the rest from one further on is
      numbering them all. */
  lemma NumberedSplit(k: nat, requests: seq<AddRequest>)
    requires |requests| > 0
    ensures Numbered(k, [requests[0]]) + Numbered(k + 1, requests[1..]) == Numbered(k, requests)
  {
  }

  /** Appending the next numbered task keeps the collection numbered `1..k+1`. */
  lemma NumberedExtends(tasks: seq<Task>, request: AddRequest)
    requires forall i :: 0 <= i < |tasks| ==> tasks[i].id == i + 1
    ensures var next := tasks + Numbered(|tasks|, [request]);
      forall i :: 0 <= i < |next| ==> next[i].id == i + 1
  {
  }

  /** Successive adds onto a collection numbered `1..k` continue the
      numbering `k + 1, k + 2, ...` in call order. */
  lemma {:induction false} AddManyContinuesNumbering(tasks: seq<Task>, requests: seq<AddRequest>)
    requires forall i :: 0 <= i < |tasks| ==> tasks[i].id == i + 1
    ensures AddMany(Loaded(tasks), requests) == Loaded(tasks + Numbered(|tasks|, requests))
    decreases |requests|
  {
    if |requests| > 0 {
      var next := tasks + Numbered(|tasks|, [requests[0]]);
      AddToNumbered(tasks, requests[0]);
      NumberedExtends(tasks, requests[0]);
      AddManyContinuesNumbering(next, requests[1..]);
      NumberedAppend(tasks, requests);
    }
  }

  /** The tasks numbered from `k + 1` for the rest of the requests, after
      the first request's task, are the tasks numbered from `k` for all of
      them. */
  lemma NumberedAppend(tasks: seq<Task>, requests: seq<AddRequest>)
    requires |requests| > 0
    ensures var next := tasks + Numbered(|tasks|, [requests[0]]);
      next + Numbered(|next|, requests[1..]) == tasks + Numbered(|tasks|, requests)
  {
    NumberedSplit(|tasks|, requests);
    var next := tasks + Numbered(|tasks|, [requests[0]]);
    assert next + Numbered(|next|, requests[1..])
      == tasks + (Numbered(|tasks|, [requests[0]]) + Numbered(|tasks| + 1, requests[1..]));
  }

  /** Starting from an empty store, N successive adds produce the tasks with
      IDs `1..N`, in call order, each a `todo` task stamped with its own
      call's clock reading. */
  lemma AddManyFromEmpty(store: LoadResult, requests: seq<AddRequest>)
    requires store.Missing? || store.Corrupt? || store == Loaded([])
    ensures |LoadPermissive(AddMany(store, requests))| == |requests|
    ensures forall i :: 0 <= i < |requests| ==>
      LoadPermissive(AddMany(store, requests))[i]
        == Task(i + 1, requests[i].description, Todo, requests[i].now, requests[i].now)
  {
    if |requests| > 0 {
      AddToEmptyStore(store, requests[0].description, requests[0].now);
      AddToNumbered([], requests[0]);
      AddManyContinuesNumbering([], requests);
      assert AddMany(store, requests) == AddMany(Loaded([]), requests);
    }
  }

  /** Any number of adds keeps IDs unique. */
  lemma {:induction false} AddManyPreservesUniqueIds(store: LoadResult, requests: seq<AddRequest>)
    requires UniqueIds(LoadPermissive(store))
    ensures UniqueIds(LoadPermissive(AddMany(store, requests)))
    decreases |requests|
  {
    if |requests| > 0 {
      AddPreservesUniqueIds(store, requests[0].description, requests[0].now);
      AddManyPreservesUniqueIds(Loaded(AddedTasks(store, requests[0])), requests[1..]);
    }
  }
}
