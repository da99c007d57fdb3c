/** users.json across crashes: every step of a store operation and of persistLocked, and a crash
    followed by Open between any two of them. */
module Journal {
  import opened Bytes
  import opened Accounts

  // What a file holds: nothing, a partly written array, or a whole one.
  datatype File = Absent | Torn | Whole(list: seq<User>)

  datatype Phase = Ready | Changed | Writing | Written

  datatype Fs = Fs(mem: Users, phase: Phase, tmp: File, file: File)

  datatype Step =
    | Begin(op: Op)                 // the operation changes the map, under the lock
    | OpenTmp                       // WriteFile truncates users.json.tmp
    | FinishTmp(list: seq<User>)    // the whole array, in any map order, is in the temporary file
    | WriteFails
    | Rename
    | RenameFails
    | CrashAndOpen

  /** What Open builds from users.json; None is a parse error. */
  function Recover(f: File): Option<Users> {
    match f
    case Absent => Some(map[])
    case Torn => None
    case Whole(list) => Some(Load(list))
  }

  ghost predicate Possible(s: Fs, step: Step) {
    match step
    // A missing id is reported before anything changes.
    case Begin(op) => s.phase == Ready && (op.Create? || op.id in s.mem)
    case OpenTmp => s.phase == Changed
    case FinishTmp(list) => s.phase == Writing && Listing(list, s.mem)
    case WriteFails => s.phase == Changed || s.phase == Writing
    case Rename => s.phase == Written
    case RenameFails => s.phase == Written
    case CrashAndOpen => Recover(s.file).Some?
  }

  ghost function Take(s: Fs, step: Step): Fs
    requires Possible(s, step)
  {
    match step
    case Begin(op) => s.(mem := Perform(s.mem, op), phase := Changed)
    case OpenTmp => s.(phase := Writing, tmp := Torn)
    case FinishTmp(list) => s.(phase := Written, tmp := Whole(list))
    case WriteFails => s.(phase := Ready)
    case Rename => s.(phase := Ready, tmp := Absent, file := s.tmp)
    case RenameFails => s.(phase := Ready)
    case CrashAndOpen => s.(mem := Recover(s.file).value, phase := Ready)
  }

  /** A store just opened on whatever file an earlier run left. */
  ghost predicate Opened(s: Fs) {
    s.phase == Ready && KeyedById(s.mem) && Recover(s.file) == Some(s.mem)
  }

  ghost predicate Legal(s0: Fs, run: seq<Step>)
    decreases |run|, 0
  {
    run == [] ||
    (Legal(s0, run[..|run| - 1]) && Possible(End(s0, run[..|run| - 1]), run[|run| - 1]))
  }

  ghost function End(s0: Fs, run: seq<Step>): Fs
    requires Legal(s0, run)
    decreases |run|, 1
  {
    if run == [] then s0 else Take(End(s0, run[..|run| - 1]), run[|run| - 1])
  }

  /** The map as it was when a rename last took effect, or at the start. */
  ghost function LastCommitted(s0: Fs, run: seq<Step>): Users
    requires Legal(s0, run)
  {
    if run == [] then s0.mem
    else if run[|run| - 1].Rename? then End(s0, run).mem
    else LastCommitted(s0, run[..|run| - 1])
  }

  /** Stopping anywhere, Open succeeds and returns exactly the last committed map. */
  lemma {:induction false} CrashSafe(s0: Fs, run: seq<Step>)
    requires Opened(s0) && Legal(s0, run)
    ensures Recover(End(s0, run).file) == Some(LastCommitted(s0, run))
    ensures KeyedById(End(s0, run).mem) && KeyedById(LastCommitted(s0, run))
    ensures var s := End(s0, run); s.phase == Written ==> s.tmp.Whole? && Listing(s.tmp.list, s.mem)
  {
    if run != [] {
      var front := run[..|run| - 1];
      CrashSafe(s0, front);
      var s := End(s0, front);
      if run[|run| - 1].Rename? {
        LoadListing(s.tmp.list, s.mem);
      }
    }
  }

  /** After a successful persist the file and the map agree. */
  lemma CommittedIsCurrent(s0: Fs, run: seq<Step>)
    requires Opened(s0) && Legal(s0, run) && run != [] && run[|run| - 1].Rename?
    ensures Recover(End(s0, run).file) == Some(End(s0, run).mem)
  {
    CrashSafe(s0, run);
  }

  ghost predicate NoNewOperation(steps: seq<Step>) {
    forall step :: step in steps ==> !step.Begin? && !step.CrashAndOpen?
  }

  /** However the earlier writes went, an operation is, at every later moment until the next one,
      wholly in the file or wholly absent from it: its rename commits the map with it, and with
      every earlier operation whose own write failed; before that the file is as it was. */
  lemma {:induction false} AllOrNothing(s0: Fs, run: seq<Step>, op: Op, rest: seq<Step>)
    requires Opened(s0) && Legal(s0, run)
    requires Legal(s0, run + [Begin(op)] + rest) && NoNewOperation(rest)
    ensures Recover(End(s0, run + [Begin(op)] + rest).file)
         == if Rename in rest then Some(Perform(End(s0, run).mem, op)) else Recover(End(s0, run).file)
    ensures End(s0, run + [Begin(op)] + rest).mem == Perform(End(s0, run).mem, op)
  {
    var all := run + [Begin(op)] + rest;
    if rest == [] {
      assert all[..|all| - 1] == run;
    } else {
      var rest' := rest[..|rest| - 1];
      assert all[..|all| - 1] == run + [Begin(op)] + rest';
      assert rest == rest' + [rest[|rest| - 1]];
      AllOrNothing(s0, run, op, rest');
      if rest[|rest| - 1].Rename? {
        CommittedIsCurrent(s0, all);
      }
    }
  }
}
