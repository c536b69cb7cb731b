/** The entry point `main()` of the task tracker: a pure function from the
    argument vector (script name first, as in `sys.argv`) and the state of
    `tasks.json` to the lines printed and the collection written back, if
    any. */
module Cli {
  import opened Wrappers
  import opened Text
  import opened TaskStore
  import opened Listing

  /** What the arguments ask for. */
  datatype Command =
    | ShowUsage
    | MissingDescription
    | AddCommand(description: string)
    | ListCommand
    | UnknownCommand(name: string)

  /** What one run of the program does: print lines and possibly rewrite
      the file, or stop with an uncaught decoding error. */
  datatype Outcome = Finished(output: seq<string>, saved: Option<seq<Task>>) | Crashed

  /** "❗ Usage: python task_cli.py <command> [task description]" */
  const UsageMessage: string := "\U{2757} Usage: python task_cli.py <command> [task description]"

  /** "❗ Please enter a task description." */
  const MissingDescriptionMessage: string := "\U{2757} Please enter a task description."

  /** "❌ Unknown command: <name>" */
  function UnknownCommandMessage(name: string): string {
    "\U{274C} Unknown command: " + name
  }

  /** Decides what `main()` does from `sys.argv`. */
  function ParseArgs(argv: seq<string>): (c: Command)
    ensures c.ShowUsage? <==> |argv| < 2
    ensures c.MissingDescription? <==> |argv| == 2 && argv[1] == "add"
    ensures c.AddCommand? <==> |argv| >= 3 && argv[1] == "add"
    ensures c.AddCommand? ==> c.description == JoinWords(argv[2..])
    ensures c.ListCommand? <==> |argv| >= 2 && argv[1] == "list"
    ensures c.UnknownCommand? <==> |argv| >= 2 && argv[1] != "add" && argv[1] != "list"
    ensures c.UnknownCommand? ==> c.name == argv[1]
  {
    if |argv| < 2 then ShowUsage
    else if argv[1] == "add" then
      if |argv| < 3 then MissingDescription else AddCommand(JoinWords(argv[2..]))
    else if argv[1] == "list" then ListCommand
    else UnknownCommand(argv[1])
  }

  /** One run of `main()` against the file state `store`, with the clock
      reading `now` used if a task is added. */
  function Run(argv: seq<string>, store: LoadResult, now: string): (r: Outcome)
    ensures r.Crashed? <==> ParseArgs(argv).ListCommand? && store.Corrupt?
    ensures r.Finished? && r.saved.Some? <==> ParseArgs(argv).AddCommand?
    ensures r.Finished? ==> |r.output| > 0
    ensures ParseArgs(argv).AddCommand? ==>
      var added := Add(store, JoinWords(argv[2..]), now);
      r == Finished([added.message], Some(added.saved))
  {
    match ParseArgs(argv)
    case ShowUsage => Finished([UsageMessage], None)
    case MissingDescription => Finished([MissingDescriptionMessage], None)
    case AddCommand(d) =>
      var added := Add(store, d, now);
      Finished([added.message], Some(added.saved))
    case ListCommand =>
      (match ListTasks(store)
       case Printed(lines) => Finished(lines, None)
       case DecodeError => Crashed)
    case UnknownCommand(name) => Finished([UnknownCommandMessage(name)], None)
  }

  /** Only `add` with a description writes the file; everything else leaves
      it as it was. */
  lemma RunWritesOnlyOnAdd(argv: seq<string>, store: LoadResult, now: string)
    ensures (Run(argv, store, now).Finished? && Run(argv, store, now).saved.Some?)
      <==> |argv| >= 3 && argv[1] == "add"
  {
  }

  /** The usage error, the missing description and an unknown command print
      one fixed line and neither read nor write the file: the outcome does
      not depend on the file state or the clock. */
  lemma RunWithoutFileAccess(argv: seq<string>, s1: LoadResult, s2: LoadResult, now1: string, now2: string)
    requires |argv| < 2 || (argv[1] == "add" && |argv| == 2) || (argv[1] != "add" && argv[1] != "list")
    ensures Run(argv, s1, now1) == Run(argv, s2, now2)
    ensures Run(argv, s1, now1).Finished? && Run(argv, s1, now1).saved.None?
    ensures |argv| < 2 ==> Run(argv, s1, now1).output == [UsageMessage]
    ensures |argv| == 2 && argv[1] == "add" ==> Run(argv, s1, now1).output == [MissingDescriptionMessage]
    ensures |argv| >= 2 && argv[1] != "add" && argv[1] != "list" ==>
      Run(argv, s1, now1).output == [UnknownCommandMessage(argv[1])]
  {
  }

  /** `add` stores the words after the command joined by single spaces;
      when no word holds a space, splitting the stored description on
      spaces gives the words back. */
  lemma AddDescriptionWords(argv: seq<string>, store: LoadResult, now: string)
    requires |argv| >= 3 && argv[1] == "add"
    requires forall i :: 2 <= i < |argv| ==> ' ' !in argv[i]
    ensures Run(argv, store, now).Finished?
    ensures SplitOnSpace(Run(argv, store, now).saved.value[|LoadPermissive(store)|].description) == argv[2..]
  {
    var words := argv[2..];
    assert forall i :: 0 <= i < |words| ==> ' ' !in words[i] by {
      forall i | 0 <= i < |words| ensures ' ' !in words[i] {
        assert words[i] == argv[i + 2];
      }
    }
    SplitJoinRoundTrip(words);
  }

  /** `list` prints what `list_tasks()` prints. */
  lemma RunList(argv: seq<string>, store: LoadResult, now: string)
    requires |argv| >= 2 && argv[1] == "list" && !store.Corrupt?
    ensures Run(argv, store, now) == Finished(ListTasks(store).lines, None)
    ensures LoadPermissive(store) == [] ==> Run(argv, store, now).output == [NoTasksFound]
    ensures |LoadPermissive(store)| > 0 ==>
      forall i :: 0 <= i < |store.tasks| ==> Run(argv, store, now).output[i] == FormatLine(store.tasks[i])
  {
  }

  /** Adding "Buy milk" to an empty store reports ID 1, and listing the
      result shows `[1] (todo) - Buy milk`. */
  lemma BuyMilkScenario(now: string)
    ensures var first := Run(["task_cli.py", "add", "Buy", "milk"], Missing, now);
      && first == Finished(["\U{2705} Task added (ID: 1)"],
                           Some([Task(1, "Buy milk", "todo", now, now)]))
      && Run(["task_cli.py", "list"], Loaded(first.saved.value), now)
           == Finished(["[1] (todo) - Buy milk"], None)
  {
    var argv := ["task_cli.py", "add", "Buy", "milk"];
    assert argv[2..] == ["Buy", "milk"];
    assert JoinWords(argv[2..]) == "Buy milk";
    assert IntToString(1) == "1";
    var added := Add(Missing, "Buy milk", now);
    assert added.newId == 1;
    assert added.message == "\U{2705} Task added (ID: 1)";
    assert added.saved == [Task(1, "Buy milk", "todo", now, now)];
    var line := FormatLine(Task(1, "Buy milk", "todo", now, now));
    assert line == "[1] (todo) - Buy milk";
  }
}
