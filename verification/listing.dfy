/** The `list` operation of the task tracker: one line per task,
    `[id] (status) - description`, in collection order, or the single line
    "No tasks found." when there is no file or the list is empty. Unlike
    `add`, `list` decodes the file without a guard, so an undecodable file
    ends the program with an uncaught decoding error. */
module Listing {
  import opened Wrappers
  import opened Text
  import opened TaskStore

  const NoTasksFound: string := "No tasks found."

  /** What `list` does: print some lines, or stop on a decoding error. */
  datatype ListOutcome = Printed(lines: seq<string>) | DecodeError

  /** The line printed for one task: `[id] (status) - description`. The ID
      sits right after the opening bracket, the status between `] (` and
      `) - `, and the description ends the line. */
  function FormatLine(t: Task): (line: string)
    ensures |line| == |IntToString(t.id)| + |t.status| + |t.description| + 8
    ensures line[0] == '['
    ensures line[1..1 + |IntToString(t.id)|] == IntToString(t.id)
    ensures line[1 + |IntToString(t.id)|..4 + |IntToString(t.id)|] == "] ("
    ensures line[|line| - |t.description| - 4..|line| - |t.description|] == ") - "
    ensures line[4 + |IntToString(t.id)|..|line| - |t.description| - 4] == t.status
    ensures line[|line| - |t.description|..] == t.description
  {
    "[" + IntToString(t.id) + "] (" + t.status + ") - " + t.description
  }

  /** `list_tasks()` on the given file state. */
  function ListTasks(store: LoadResult): (r: ListOutcome)
    ensures r.DecodeError? <==> store.Corrupt?
    ensures store.Missing? ==> r == Printed([NoTasksFound])
    ensures store == Loaded([]) ==> r == Printed([NoTasksFound])
    ensures store.Loaded? && |store.tasks| > 0 ==>
      && r.Printed?
      && |r.lines| == |store.tasks|
      && forall i :: 0 <= i < |store.tasks| ==> r.lines[i] == FormatLine(store.tasks[i])
  {
    match store
    case Missing => Printed([NoTasksFound])
    case Corrupt => DecodeError
    case Loaded(ts) =>
      if |ts| == 0 then Printed([NoTasksFound])
      else Printed(seq(|ts|, i requires 0 <= i < |ts| => FormatLine(ts[i])))
  }

  /** Reads the ID back from a listing line: the integer between the
      leading `[` and the first `]`. */
  function IdOfLine(line: string): Option<int> {
    if |line| > 0 && line[0] == '[' && ']' in line[1..] then
      var rest := line[1..];
      ParseInt(rest[..IndexOf(rest, ']')])
    else None
  }

  /** Every formatted line carries its task's ID, readable back. */
  lemma FormatLineId(t: Task)
    ensures IdOfLine(FormatLine(t)) == Some(t.id)
  {
    var digits := IntToString(t.id);
    var line := FormatLine(t);
    var rest := line[1..];
    assert rest == digits + "] (" + t.status + ") - " + t.description;
    assert rest[|digits|] == ']';
    assert forall j :: 0 <= j < |digits| ==> rest[j] == digits[j];
    assert IndexOf(rest, ']') == |digits|;
    assert rest[..|digits|] == digits;
    IntToStringRoundTrip(t.id);
  }

  /** The listing of a non-empty collection names every task's ID, in
      collection order. */
  lemma ListedIds(tasks: seq<Task>)
    requires |tasks| > 0
    ensures ListTasks(Loaded(tasks)).Printed?
    ensures forall i :: 0 <= i < |tasks| ==>
      IdOfLine(ListTasks(Loaded(tasks)).lines[i]) == Some(tasks[i].id)
  {
    forall i | 0 <= i < |tasks|
      ensures IdOfLine(ListTasks(Loaded(tasks)).lines[i]) == Some(tasks[i].id)
    {
      FormatLineId(tasks[i]);
    }
  }

  /** `list` prints exactly "No tasks found." if and only if there is no
      file or the file holds an empty list. */
  lemma ListEmptyIff(store: LoadResult)
    requires !store.Corrupt?
    ensures ListTasks(store) == Printed([NoTasksFound]) <==> LoadPermissive(store) == []
  {
    if store.Loaded? && |store.tasks| == 1 {
      var line := FormatLine(store.tasks[0]);
      assert line[0] == '[';
      assert NoTasksFound[0] == 'N';
    }
  }

  /** The line of a freshly created task shows it as `todo`. */
  lemma NewTaskLine(id: int, description: string, now: string)
    ensures FormatLine(NewTask(id, description, now))
      == "[" + IntToString(id) + "] (todo) - " + description
  {
  }

  /** After `add`, `list` shows the earlier tasks unchanged and in order,
      followed by the new task as a `todo` line with the new ID. */
  lemma AddThenList(store: LoadResult, description: string, now: string)
    ensures var before := LoadPermissive(store);
      var added := Add(store, description, now);
      var out := ListTasks(Loaded(added.saved));
      && out.Printed?
      && |out.lines| == |before| + 1
      && (forall i :: 0 <= i < |before| ==> out.lines[i] == FormatLine(before[i]))
      && out.lines[|before|] == "[" + IntToString(added.newId) + "] (todo) - " + description
  {
    var before := LoadPermissive(store);
    var added := Add(store, description, now);
    var saved := added.saved;
    assert forall i :: 0 <= i < |before| ==> saved[i] == before[i] by {
      forall i | 0 <= i < |before|
        ensures saved[i] == before[i]
      {
        assert saved[..|before|][i] == before[i];
      }
    }
    assert saved[|before|] == NewTask(added.newId, description, now);
    NewTaskLine(added.newId, description, now);
  }
}
