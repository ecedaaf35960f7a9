/**
 The migration runner `applyMigrations` of `backend/src/database/tenant-init.ts`: what one run does to
 a tenant database when it may die after any statement, and what histories of such runs add up to.
*/
module Migrations {
  import opened Options
  import opened SqlStatements

  /** The schema and the data are opaque; a statement gives a new state or an error that changes nothing. */
  datatype Env<!D> = Env(
    exec: (D, string) -> Option<D>,
    hasUsers: D -> bool,
    content: string -> string)

  datatype LogEntry =
    | Ran(file: string, index: nat)
    | Recorded(file: string)

  /** `tracking` is the table tenant_schema_migrations, when it exists; `log` is the history of all runs. */
  datatype Db<D> = Db(data: D, tracking: Option<seq<string>>, log: seq<LogEntry>)

  /** How a run ends. A run dies when its budget of queries is used up. */
  datatype Outcome = Completed | Untouched | Failed | Died

  function Statements<D>(env: Env<D>, file: string): seq<string> {
    StatementsOf(env.content(file))
  }

  /** The statements of one file: the state they lead to, how many were run, and how it ended. */
  function RunStatements<D>(env: Env<D>, d: D, ss: seq<string>, budget: nat): (D, nat, Outcome) {
    if ss == [] then (d, 0, Completed)
    else if budget == 0 then (d, 0, Died)
    else
      match env.exec(d, ss[0])
      case None => (d, 0, Failed)
      case Some(d') =>
        var (end, n, outcome) := RunStatements(env, d', ss[1..], budget - 1);
        (end, n + 1, outcome)
  }

  function Steps(file: string, n: nat): seq<LogEntry> {
    seq(n, i requires 0 <= i < n => Ran(file, i))
  }

  function Rows<D>(db: Db<D>): seq<string> {
    match db.tracking
    case None => []
    case Some(rows) => rows
  }

  /** One file: run its statements, then record it. Also returns what is left of the budget. */
  function RunFile<D>(env: Env<D>, db: Db<D>, file: string, budget: nat): (Db<D>, nat, Outcome) {
    var (data, n, outcome) := RunStatements(env, db.data, Statements(env, file), budget);
    var ran := db.(data := data, log := db.log + Steps(file, n));
    if outcome != Completed then (ran, 0, outcome)
    else if budget <= n then (ran, 0, Died)
    else (ran.(tracking := Some(Rows(db) + [file]), log := ran.log + [Recorded(file)]), budget - n - 1, Completed)
  }

  function RunFiles<D>(env: Env<D>, db: Db<D>, pending: seq<string>, budget: nat): (Db<D>, Outcome)
    decreases |pending|
  {
    if pending == [] then (db, Completed)
    else
      var (next, left, outcome) := RunFile(env, db, pending[0], budget);
      if outcome == Completed then RunFiles(env, next, pending[1..], left) else (next, outcome)
  }

  function Pending(files: seq<string>, rows: seq<string>): seq<string> {
    if files == [] then []
    else (if files[0] in rows then [] else [files[0]]) + Pending(files[1..], rows)
  }

  predicate Fenced<D>(env: Env<D>, db: Db<D>) {
    env.hasUsers(db.data) && db.tracking.None?
  }

  function Run<D>(env: Env<D>, db: Db<D>, files: seq<string>, budget: nat): (Db<D>, Outcome) {
    if Fenced(env, db) then (db, Untouched)
    else if budget == 0 then (db, Died)
    else
      var rows := Rows(db);
      RunFiles(env, db.(tracking := Some(rows)), Pending(files, rows), budget - 1)
  }

  /** One start of the init service: the sorted migration files it finds and the queries it lives for. */
  datatype Start = Start(files: seq<string>, budget: nat)

  function History<D>(env: Env<D>, db: Db<D>, starts: seq<Start>): Db<D>
    decreases |starts|
  {
    if starts == [] then db
    else History(env, Run(env, db, starts[0].files, starts[0].budget).0, starts[1..])
  }

  // ----- Statements -----

  function ExecAll<D>(env: Env<D>, d: D, ss: seq<string>): Option<D> {
    if ss == [] then Some(d)
    else
      match env.exec(d, ss[0])
      case None => None
      case Some(d') => ExecAll(env, d', ss[1..])
  }

  /** Statements run one after the other on the database, until one fails. */
  lemma {:induction false} ExecExactly<D>(env: Env<D>, d: D, statement: string, rest: seq<string>)
    ensures ExecAll(env, d, []) == Some(d)
    ensures ExecAll(env, d, [statement] + rest) ==
      match env.exec(d, statement) case None => None case Some(d') => ExecAll(env, d', rest)
  {
    assert ([statement] + rest)[1..] == rest;
  }

  /** The log has one entry for each statement that was run, in order. */
  lemma {:induction false} StepsExactly(file: string, n: nat)
    ensures |Steps(file, n)| == n && forall i :: 0 <= i < n ==> Steps(file, n)[i] == Ran(file, i)
  {
  }

  /**
   However a run of statements ends, it has run the first ones in order, and no others: all of them when it
   completes, those before the one that fails, or as many as it had queries for when it dies.
  */
  lemma {:induction false} RunStatementsExecutes<D>(env: Env<D>, d: D, ss: seq<string>, budget: nat)
    ensures var (end, n, outcome) := RunStatements(env, d, ss, budget);
      && n <= |ss| && n <= budget && ExecAll(env, d, ss[..n]) == Some(end)
      && (outcome == Completed ==> n == |ss| && ExecAll(env, d, ss) == Some(end))
      && (outcome == Failed ==> ExecAll(env, d, ss) == None && n < |ss| && n < budget && env.exec(end, ss[n]) == None)
      && (outcome == Died ==> n == budget < |ss|)
      && outcome != Untouched
  {
    if ss != [] && budget > 0 && env.exec(d, ss[0]).Some? {
      var d' := env.exec(d, ss[0]).value;
      RunStatementsExecutes(env, d', ss[1..], budget - 1);
      var n := RunStatements(env, d', ss[1..], budget - 1).1;
      assert ss[..n + 1][1..] == ss[1..][..n];
    }
  }

  // ----- The log -----

  /**
   The position of a record comes right after all statements of its file, in order, and nothing of the file
   follows.
  */
  ghost predicate RecordedWell<D>(env: Env<D>, log: seq<LogEntry>, p: nat)
    requires p < |log| && log[p].Recorded?
  {
    var file := log[p].file;
    var n := |Statements(env, file)|;
    && n <= p
    && log[p - n..p] == Steps(file, n)
    && forall q :: p < q < |log| ==> log[q].file != file
  }

  ghost predicate LogInv<D>(env: Env<D>, db: Db<D>) {
    && (forall p :: 0 <= p < |db.log| && db.log[p].Recorded? ==> RecordedWell(env, db.log, p))
    && (forall p :: 0 <= p < |db.log| && db.log[p].Recorded? ==> db.log[p].file in Rows(db))
    && (forall file :: file in Rows(db) ==> Recorded(file) in db.log)
  }

  lemma {:induction false} RanKeepsLog<D>(env: Env<D>, db: Db<D>, data: D, file: string, n: nat)
    requires LogInv(env, db) && file !in Rows(db)
    ensures LogInv(env, db.(data := data, log := db.log + Steps(file, n)))
  {
    var log := db.log + Steps(file, n);
    forall p | 0 <= p < |log| && log[p].Recorded? ensures RecordedWell(env, log, p) {
      assert p < |db.log| && RecordedWell(env, db.log, p);
      var k := |Statements(env, log[p].file)|;
      assert log[p - k..p] == db.log[p - k..p];
    }
  }

  lemma {:induction false} RecordKeepsLog<D>(env: Env<D>, db: Db<D>, data: D, file: string)
    requires LogInv(env, db) && file !in Rows(db)
    ensures
      var n := |Statements(env, file)|;
      LogInv(env, Db(data, Some(Rows(db) + [file]), db.log + Steps(file, n) + [Recorded(file)]))
  {
    hide Statements, Steps;
    var ss := Statements(env, file);
    RanKeepsLog(env, db, data, file, |ss|);
    AppendRecord(env, db.(data := data, log := db.log + Steps(file, |ss|)), file, db.log);
  }

  lemma RecordStays<D>(env: Env<D>, log: seq<LogEntry>, entry: LogEntry, p: nat)
    requires p < |log| && log[p].Recorded? && RecordedWell(env, log, p) && entry.file != log[p].file
    ensures RecordedWell(env, log + [entry], p)
  {
    hide Statements, Steps;
    var k := |Statements(env, log[p].file)|;
    assert (log + [entry])[p - k..p] == log[p - k..p];
  }

  lemma NewRecord<D>(env: Env<D>, before: seq<LogEntry>, file: string)
    ensures var ran := before + Steps(file, |Statements(env, file)|);
      RecordedWell(env, ran + [Recorded(file)], |ran|)
  {
    hide Statements;
    var steps := Steps(file, |Statements(env, file)|);
    var ran := before + steps;
    assert (ran + [Recorded(file)])[|before|..|ran|] == steps;
  }

  lemma {:induction false} AppendRecord<D>(env: Env<D>, ran: Db<D>, file: string, before: seq<LogEntry>)
    requires LogInv(env, ran) && file !in Rows(ran)
    requires ran.log == before + Steps(file, |Statements(env, file)|)
    ensures LogInv(env, Db(ran.data, Some(Rows(ran) + [file]), ran.log + [Recorded(file)]))
  {
    hide Statements, Steps, RecordedWell;
    var log := ran.log + [Recorded(file)];
    NewRecord(env, before, file);
    forall p | 0 <= p < |ran.log| && log[p].Recorded? ensures RecordedWell(env, log, p) {
      assert log[p].file in Rows(ran);
      RecordStays(env, ran.log, Recorded(file), p);
    }
    assert log[|ran.log|] == Recorded(file);
  }

  ghost predicate Distinct(files: seq<string>) {
    forall i, j :: 0 <= i < j < |files| ==> files[i] != files[j]
  }

  lemma {:induction false} PendingIsNew(files: seq<string>, rows: seq<string>)
    requires Distinct(files)
    ensures Distinct(Pending(files, rows))
    ensures forall f :: f in Pending(files, rows) <==> f in files && f !in rows
  {
    if files != [] {
      PendingIsNew(files[1..], rows);
      var rest := Pending(files[1..], rows);
      assert forall f :: f in files <==> f == files[0] || f in files[1..];
      assert files[0] !in rest;
      assert files[0] !in rows ==> Pending(files, rows) == [files[0]] + rest;
    }
  }

  lemma {:induction false} RunFileKeepsLog<D>(env: Env<D>, db: Db<D>, file: string, budget: nat)
    requires LogInv(env, db) && file !in Rows(db)
    ensures LogInv(env, RunFile(env, db, file, budget).0)
  {
    var (data, n, outcome) := RunStatements(env, db.data, Statements(env, file), budget);
    RunStatementsExecutes(env, db.data, Statements(env, file), budget);
    hide LogInv;
    RanKeepsLog(env, db, data, file, n);
    if outcome == Completed && n < budget {
      RecordKeepsLog(env, db, data, file);
    }
  }

  /** What a file leaves behind in the tracking table. */
  lemma RunFileTracks<D>(env: Env<D>, db: Db<D>, file: string, budget: nat)
    ensures var (next, left, outcome) := RunFile(env, db, file, budget);
      && outcome != Untouched
      && (if outcome == Completed then next.tracking == Some(Rows(db) + [file]) else next.tracking == db.tracking)
  {
    RunStatementsExecutes(env, db.data, Statements(env, file), budget);
  }

  lemma {:induction false} RunFilesKeepsLog<D>(env: Env<D>, db: Db<D>, pending: seq<string>, budget: nat)
    requires LogInv(env, db)
    requires Distinct(pending) && forall k :: 0 <= k < |pending| ==> pending[k] !in Rows(db)
    ensures LogInv(env, RunFiles(env, db, pending, budget).0)
    decreases |pending|
  {
    hide LogInv, RunFile;
    if pending != [] {
      var (next, left, outcome) := RunFile(env, db, pending[0], budget);
      RunFileKeepsLog(env, db, pending[0], budget);
      RunFileTracks(env, db, pending[0], budget);
      if outcome == Completed {
        RunFilesKeepsLog(env, next, pending[1..], left);
      }
    }
  }

  lemma {:induction false} RunKeepsLog<D>(env: Env<D>, db: Db<D>, files: seq<string>, budget: nat)
    requires LogInv(env, db) && Distinct(files)
    ensures LogInv(env, Run(env, db, files, budget).0)
  {
    hide RunFiles, RecordedWell, Pending, Distinct;
    if !Fenced(env, db) && budget > 0 {
      var pending := Pending(files, Rows(db));
      PendingIsNew(files, Rows(db));
      assert forall k :: 0 <= k < |pending| ==> pending[k] in pending;
      RunFilesKeepsLog(env, db.(tracking := Some(Rows(db))), pending, budget - 1);
    }
  }

  /**
   In every history of runs that die anywhere: a recorded file had all its statements run, in order, just
   before it was recorded, and no statement of it is ever run again.
  */
  lemma {:induction false} RecordedOnceAfterRunning<D>(env: Env<D>, db: Db<D>, starts: seq<Start>)
    requires LogInv(env, db)
    requires forall k :: 0 <= k < |starts| ==> Distinct(starts[k].files)
    ensures LogInv(env, History(env, db, starts))
    decreases |starts|
  {
    if starts != [] {
      RunKeepsLog(env, db, starts[0].files, starts[0].budget);
      RecordedOnceAfterRunning(env, Run(env, db, starts[0].files, starts[0].budget).0, starts[1..]);
    }
  }

  // ----- The fence -----

  /** A database with users but without the tracking table is never changed. */
  lemma {:induction false} FencedForever<D>(env: Env<D>, db: Db<D>, starts: seq<Start>)
    requires env.hasUsers(db.data) && db.tracking == None
    ensures History(env, db, starts) == db
    decreases |starts|
  {
    if starts != [] {
      FencedForever(env, db, starts[1..]);
    }
  }

  /** Any other database is worked on: the run makes sure of the tracking table with its first query. */
  lemma UntouchedExactly<D>(env: Env<D>, db: Db<D>, files: seq<string>, budget: nat)
    ensures var (end, outcome) := Run(env, db, files, budget);
      && (outcome == Untouched <==> env.hasUsers(db.data) && db.tracking == None)
      && (outcome != Untouched && budget > 0 ==> end.tracking.Some?)
      && (outcome == Untouched || budget == 0 ==> end == db)
  {
    if !(env.hasUsers(db.data) && db.tracking == None) && budget > 0 {
      var rows := Rows(db);
      RunFilesTracks(env, db.(tracking := Some(rows)), Pending(files, rows), budget - 1);
    }
  }

  lemma {:induction false} RunFilesTracks<D>(env: Env<D>, db: Db<D>, pending: seq<string>, budget: nat)
    requires db.tracking.Some?
    ensures var (end, outcome) := RunFiles(env, db, pending, budget);
      && end.tracking.Some?
      && Rows(db) <= Rows(end) <= Rows(db) + pending
      && outcome != Untouched
      && (outcome == Completed ==> Rows(end) == Rows(db) + pending)
    decreases |pending|
  {
    hide RunFile;
    if pending != [] {
      var (next, left, outcome) := RunFile(env, db, pending[0], budget);
      RunFileTracks(env, db, pending[0], budget);
      if outcome == Completed {
        RunFilesTracks(env, next, pending[1..], left);
        assert Rows(db) + [pending[0]] + pending[1..] == Rows(db) + pending;
      }
    }
  }

  /** A database that was created empty is never fenced off, wherever its runs died. */
  lemma {:induction false} OwnDatabaseIsNeverFenced<D>(env: Env<D>, db: Db<D>, starts: seq<Start>)
    requires db.tracking.Some? || !env.hasUsers(db.data)
    ensures var end := History(env, db, starts); end.tracking.Some? || !env.hasUsers(end.data)
    decreases |starts|
  {
    if starts != [] {
      var rows := Rows(db);
      if starts[0].budget > 0 {
        RunFilesTracks(env, db.(tracking := Some(rows)), Pending(starts[0].files, rows), starts[0].budget - 1);
      }
      OwnDatabaseIsNeverFenced(env, Run(env, db, starts[0].files, starts[0].budget).0, starts[1..]);
    }
  }

  // ----- Nothing left to do -----

  lemma {:induction false} NothingPending(files: seq<string>, rows: seq<string>)
    requires forall f :: f in files ==> f in rows
    ensures Pending(files, rows) == []
  {
    if files != [] {
      NothingPending(files[1..], rows);
    }
  }

  /** After a completed run the next run on the same files executes no statement and changes nothing. */
  lemma CompletedIsQuiet<D>(env: Env<D>, db: Db<D>, files: seq<string>, budget: nat, budget': nat)
    requires Distinct(files) && Run(env, db, files, budget).1 == Completed
    ensures Run(env, Run(env, db, files, budget).0, files, budget').0 == Run(env, db, files, budget).0
  {
    var rows := Rows(db);
    var pending := Pending(files, rows);
    RunFilesTracks(env, db.(tracking := Some(rows)), pending, budget - 1);
    PendingIsNew(files, rows);
    var end := Run(env, db, files, budget).0;
    NothingPending(files, Rows(end));
  }

  // ----- The recorded files are a prefix -----

  lemma PendingFirst(file: string, files: seq<string>, rows: seq<string>)
    ensures Pending([file] + files, rows) == (if file in rows then [] else [file]) + Pending(files, rows)
  {
    assert ([file] + files)[1..] == files;
  }

  lemma {:induction false} PendingSplit(a: seq<string>, b: seq<string>, rows: seq<string>)
    ensures Pending(a + b, rows) == Pending(a, rows) + Pending(b, rows)
  {
    if a == [] {
      assert a + b == b;
    } else {
      hide Pending;
      PendingSplit(a[1..], b, rows);
      PendingFirst(a[0], a[1..], rows);
      PendingFirst(a[0], a[1..] + b, rows);
      assert a == [a[0]] + a[1..] && a + b == [a[0]] + (a[1..] + b);
    }
  }

  lemma {:induction false} AllPending(files: seq<string>, rows: seq<string>)
    requires forall k :: 0 <= k < |files| ==> files[k] !in rows
    ensures Pending(files, rows) == files
  {
    if files != [] {
      AllPending(files[1..], rows);
    }
  }

  /** With the first `k` files recorded, what is pending of the first `m` is the stretch between. */
  lemma PendingOfPrefix(all: seq<string>, k: nat, m: nat)
    requires Distinct(all) && k <= |all| && m <= |all|
    ensures Pending(all[..m], all[..k]) == if k < m then all[k..m] else []
  {
    if k < m {
      assert all[..m] == all[..k] + all[k..m];
      PendingSplit(all[..k], all[k..m], all[..k]);
      NothingPending(all[..k], all[..k]);
      AllPending(all[k..m], all[..k]);
    } else {
      assert forall f :: f in all[..m] ==> f in all[..k];
      NothingPending(all[..m], all[..k]);
    }
  }

  lemma RunTracks<D>(env: Env<D>, db: Db<D>, files: seq<string>, budget: nat)
    ensures Rows(db) <= Rows(Run(env, db, files, budget).0) <= Rows(db) + Pending(files, Rows(db))
  {
    hide Pending, RunFiles;
    if !Fenced(env, db) && budget > 0 {
      RunFilesTracks(env, db.(tracking := Some(Rows(db))), Pending(files, Rows(db)), budget - 1);
    }
  }

  /** While new files only sort after old ones, the recorded files are always the first ones of the list. */
  lemma {:induction false} RecordedIsPrefix<D>(env: Env<D>, db: Db<D>, starts: seq<Start>, all: seq<string>)
    requires Distinct(all) && Rows(db) <= all
    requires forall k :: 0 <= k < |starts| ==> starts[k].files <= all
    ensures Rows(History(env, db, starts)) <= all
    decreases |starts|
  {
    hide Run, Rows, Pending, Distinct;
    if starts != [] {
      var start := starts[0];
      var rows := Rows(db);
      assert rows == all[..|rows|] && start.files == all[..|start.files|];
      PendingOfPrefix(all, |rows|, |start.files|);
      RunTracks(env, db, start.files, start.budget);
      assert rows + Pending(start.files, rows) <= all;
      RecordedIsPrefix(env, Run(env, db, start.files, start.budget).0, starts[1..], all);
    }
  }

  // ----- Crash convergence -----

  /** One clean run over a fresh database, without tracking or crashes. */
  function Clean<D>(env: Env<D>, d: D, files: seq<string>): Option<D> {
    if files == [] then Some(d)
    else
      match ExecAll(env, d, Statements(env, files[0]))
      case None => None
      case Some(d') => Clean(env, d', files[1..])
  }

  /** A clean run executes the statements cut from each file, file after file. */
  lemma {:induction false} CleanExactly<D>(env: Env<D>, d: D, file: string, files: seq<string>)
    ensures Clean(env, d, []) == Some(d)
    ensures Clean(env, d, [file] + files) ==
      match ExecAll(env, d, StatementsOf(env.content(file))) case None => None case Some(d') => Clean(env, d', files)
  {
    assert ([file] + files)[1..] == files;
  }

  /** Running the statements again after any number of them, up to all, comes to the same state as running them once. */
  ghost predicate Replayable<D(!new)>(env: Env<D>, ss: seq<string>) {
    forall d, k :: 0 <= k <= |ss| && ExecAll(env, d, ss).Some? ==> ReplayedAfter(env, d, ss, k)
  }

  ghost predicate ReplayedAfter<D>(env: Env<D>, d: D, ss: seq<string>, k: nat)
    requires k <= |ss|
  {
    var half := ExecAll(env, d, ss[..k]);
    half.Some? && ExecAll(env, half.value, ss) == ExecAll(env, d, ss)
  }

  // ----- Files that are replayable -----

  /**
   In this state there is nothing left to do for these statements, as for `CREATE TABLE IF NOT EXISTS` when the
   table exists.
  */
  ghost predicate IsDone<D>(env: Env<D>, d: D, block: seq<string>) {
    ExecAll(env, d, block) == Some(d)
  }

  /** `later` does not undo `earlier`, wherever it is interrupted. */
  ghost predicate Respects<D(!new)>(env: Env<D>, later: seq<string>, earlier: seq<string>) {
    forall d, k :: 0 <= k <= |later| && IsDone(env, d, earlier) && ExecAll(env, d, later[..k]).Some?
      ==> IsDone(env, ExecAll(env, d, later[..k]).value, earlier)
  }

  /** What can be seen from the blocks one by one and in pairs. */
  ghost predicate BlocksRepeatable<D(!new)>(env: Env<D>, blocks: seq<seq<string>>) {
    && (forall i :: 0 <= i < |blocks| ==> Replayable(env, blocks[i]))
    && (forall i, j :: 0 <= i < j < |blocks| ==> Respects(env, blocks[j], blocks[i]))
  }

  function Concat(blocks: seq<seq<string>>): seq<string> {
    if blocks == [] then [] else blocks[0] + Concat(blocks[1..])
  }

  lemma {:induction false} ExecConcat<D>(env: Env<D>, d: D, a: seq<string>, b: seq<string>)
    ensures ExecAll(env, d, a + b) ==
      match ExecAll(env, d, a) case None => None case Some(d') => ExecAll(env, d', b)
  {
    if a == [] {
      assert a + b == b;
    } else {
      assert (a + b)[1..] == a[1..] + b;
      if env.exec(d, a[0]).Some? {
        ExecConcat(env, env.exec(d, a[0]).value, a[1..], b);
      }
    }
  }

  /** A replayable block is done once it has run. */
  lemma BlockIsDone<D(!new)>(env: Env<D>, d: D, block: seq<string>)
    requires Replayable(env, block) && ExecAll(env, d, block).Some?
    ensures IsDone(env, ExecAll(env, d, block).value, block)
  {
    hide Replayable;
    ReplayedPrefix(env, d, block, |block|);
    assert block[..|block|] == block;
  }

  /** What is done stays done while later blocks run, in whole or in part. */
  lemma {:induction false} StaysDone<D(!new)>(env: Env<D>, d: D, blocks: seq<seq<string>>, done: seq<string>, k: nat)
    requires forall i :: 0 <= i < |blocks| ==> Respects(env, blocks[i], done)
    requires k <= |Concat(blocks)| && IsDone(env, d, done) && ExecAll(env, d, Concat(blocks)[..k]).Some?
    ensures IsDone(env, ExecAll(env, d, Concat(blocks)[..k]).value, done)
    decreases |blocks|
  {
    hide IsDone, ExecAll, Respects;
    if blocks != [] {
      var first, rest := blocks[0], Concat(blocks[1..]);
      var j := if k <= |first| then k else |first|;
      PrefixOfConcat(first, rest, k);
      assert Respects(env, blocks[0], done);
      ExecConcat(env, d, first[..j], rest[..k - j]);
      RespectedPrefix(env, d, first, done, j);
      StaysDone(env, ExecAll(env, d, first[..j]).value, blocks[1..], done, k - j);
    } else {
      NothingExecuted(env, d);
      assert Concat(blocks)[..k] == [];
    }
  }

  lemma NothingExecuted<D>(env: Env<D>, d: D)
    ensures ExecAll(env, d, []) == Some(d)
  {
  }

  lemma PrefixOfConcat(first: seq<string>, rest: seq<string>, k: nat)
    requires k <= |first + rest|
    ensures (first + rest)[..k] ==
      (if k <= |first| then first[..k] + rest[..0] else first[..|first|] + rest[..k - |first|])
  {
  }

  lemma RespectedPrefix<D(!new)>(env: Env<D>, d: D, later: seq<string>, earlier: seq<string>, k: nat)
    requires Respects(env, later, earlier) && k <= |later| && IsDone(env, d, earlier)
      && ExecAll(env, d, later[..k]).Some?
    ensures IsDone(env, ExecAll(env, d, later[..k]).value, earlier)
  {
  }

  /** A file of replayable blocks, none of which undoes an earlier one, is replayable. */
  lemma {:induction false} BlocksReplay<D(!new)>(env: Env<D>, blocks: seq<seq<string>>)
    requires BlocksRepeatable(env, blocks)
    ensures Replayable(env, Concat(blocks))
    decreases |blocks|
  {
    var ss := Concat(blocks);
    if blocks == [] {
    } else {
      BlocksReplay(env, blocks[1..]);
      forall d, k | 0 <= k <= |ss| && ExecAll(env, d, ss).Some? ensures ReplayedAfter(env, d, ss, k) {
        ReplayFirstBlock(env, d, blocks, k);
      }
    }
  }

  lemma ReplayFirstBlock<D(!new)>(env: Env<D>, d: D, blocks: seq<seq<string>>, k: nat)
    requires BlocksRepeatable(env, blocks) && blocks != [] && Replayable(env, Concat(blocks[1..]))
    requires k <= |Concat(blocks)| && ExecAll(env, d, Concat(blocks)).Some?
    ensures ReplayedAfter(env, d, Concat(blocks), k)
  {
    hide ExecAll, Replayable, Respects, IsDone;
    var first, rest := blocks[0], Concat(blocks[1..]);
    ExecConcat(env, d, first, rest);
    PrefixOfConcat(first, rest, k);
    if k <= |first| {
      assert rest[..0] == [] && first[..k] + [] == first[..k];
      ReplayedPrefix(env, d, first, k);
      ExecConcat(env, ExecAll(env, d, first[..k]).value, first, rest);
    } else {
      var between := ExecAll(env, d, first).value;
      assert first[..|first|] == first;
      ExecConcat(env, d, first, rest[..k - |first|]);
      ReplayedPrefix(env, between, rest, k - |first|);
      var half := ExecAll(env, between, rest[..k - |first|]).value;
      BlockIsDone(env, d, first);
      StaysDone(env, between, blocks[1..], first, k - |first|);
      DoneThenRest(env, half, first, rest);
    }
  }

  lemma DoneThenRest<D>(env: Env<D>, d: D, done: seq<string>, rest: seq<string>)
    requires IsDone(env, d, done)
    ensures ExecAll(env, d, done + rest) == ExecAll(env, d, rest)
  {
    ExecConcat(env, d, done, rest);
  }

  /** The statement does nothing when it is run again. */
  ghost predicate IsRepeatable<D(!new)>(env: Env<D>, statement: string) {
    forall d :: env.exec(d, statement).Some? ==> IsDone(env, env.exec(d, statement).value, [statement])
  }

  ghost predicate LeavesDone<D(!new)>(env: Env<D>, later: string, earlier: string) {
    forall d :: IsDone(env, d, [earlier]) && env.exec(d, later).Some?
      ==> IsDone(env, env.exec(d, later).value, [earlier])
  }

  ghost predicate AllRepeatable<D(!new)>(env: Env<D>, ss: seq<string>) {
    && (forall i :: 0 <= i < |ss| ==> IsRepeatable(env, ss[i]))
    && (forall i, j :: 0 <= i < j < |ss| ==> LeavesDone(env, ss[j], ss[i]))
  }

  lemma RepeatableStatement<D(!new)>(env: Env<D>, statement: string)
    requires IsRepeatable(env, statement)
    ensures Replayable(env, [statement])
  {
    var ss := [statement];
    forall d, k | 0 <= k <= 1 && ExecAll(env, d, ss).Some? ensures ReplayedAfter(env, d, ss, k) {
      SingleStatement(env, d, statement);
      assert ss[..0] == [] && ss[..1] == ss;
      assert IsDone(env, env.exec(d, statement).value, ss);
    }
  }

  lemma SingleRespects<D(!new)>(env: Env<D>, later: string, earlier: string)
    requires LeavesDone(env, later, earlier)
    ensures Respects(env, [later], [earlier])
  {
    var ss := [later];
    forall d, k | 0 <= k <= 1 && IsDone(env, d, [earlier]) && ExecAll(env, d, ss[..k]).Some?
      ensures IsDone(env, ExecAll(env, d, ss[..k]).value, [earlier])
    {
      SingleStatement(env, d, later);
      assert ss[..0] == [] && ss[..1] == ss;
    }
  }

  function Singles(ss: seq<string>): seq<seq<string>> {
    seq(|ss|, i requires 0 <= i < |ss| => [ss[i]])
  }

  lemma {:induction false} ConcatOfSingles(ss: seq<string>)
    ensures Concat(Singles(ss)) == ss
  {
    if ss != [] {
      ConcatOfSingles(ss[1..]);
      assert Singles(ss)[1..] == Singles(ss[1..]);
    }
  }

  /** A file of statements that can be repeated one by one, none of which undoes an earlier one, is replayable. */
  lemma {:induction false} RepeatableStatementsReplay<D(!new)>(env: Env<D>, ss: seq<string>)
    requires AllRepeatable(env, ss)
    ensures Replayable(env, ss)
  {
    var blocks := Singles(ss);
    hide Replayable, Respects, IsRepeatable, LeavesDone;
    forall i | 0 <= i < |blocks| ensures Replayable(env, blocks[i]) {
      RepeatableStatement(env, ss[i]);
    }
    forall i, j | 0 <= i < j < |blocks| ensures Respects(env, blocks[j], blocks[i]) {
      SingleRespects(env, ss[j], ss[i]);
    }
    ConcatOfSingles(ss);
    BlocksReplay(env, blocks);
  }

  lemma SingleStatement<D>(env: Env<D>, d: D, statement: string)
    ensures ExecAll(env, d, [statement]) == env.exec(d, statement)
  {
    assert [statement][1..] == [];
  }

  lemma TwoStatements<D>(env: Env<D>, d: D, first: string, second: string)
    ensures ExecAll(env, d, [first, second]) ==
      match env.exec(d, first) case None => None case Some(d') => env.exec(d', second)
  {
    assert [first, second] == [first] + [second];
    ExecConcat(env, d, [first], [second]);
    SingleStatement(env, d, first);
    if env.exec(d, first).Some? {
      SingleStatement(env, env.exec(d, first).value, second);
    }
  }

  /**
   `DROP ... IF EXISTS` followed by an `ADD` that fails on a second run: dropping takes back what was added, or
   does nothing.
  */
  lemma DropThenAddReplays<D(!new)>(env: Env<D>, drop: string, add: string)
    requires forall d :: env.exec(d, drop).Some? ==>
      var without := env.exec(d, drop).value;
      && env.exec(without, drop) == Some(without)
      && (env.exec(without, add).Some? ==> env.exec(env.exec(without, add).value, drop) == Some(without))
    ensures Replayable(env, [drop, add])
  {
    var ss := [drop, add];
    forall d, k | 0 <= k <= 2 && ExecAll(env, d, ss).Some? ensures ReplayedAfter(env, d, ss, k) {
      TwoStatements(env, d, drop, add);
      var half := if k == 0 then d else if k == 1 then env.exec(d, drop).value else ExecAll(env, d, ss).value;
      SingleStatement(env, d, drop);
      assert ss[..0] == [] && ss[..1] == [drop] && ss[..2] == ss;
      assert ExecAll(env, d, ss[..k]) == Some(half);
      TwoStatements(env, half, drop, add);
    }
  }

  /** From here, running what is left of `all` leads to `goal`. */
  ghost predicate OnCourse<D>(env: Env<D>, db: Db<D>, all: seq<string>, goal: D) {
    Rows(db) <= all && Clean(env, db.data, all[|Rows(db)|..]) == Some(goal)
  }

  lemma ReplayedPrefix<D(!new)>(env: Env<D>, d: D, ss: seq<string>, n: nat)
    requires Replayable(env, ss) && n <= |ss| && ExecAll(env, d, ss).Some?
    ensures ReplayedAfter(env, d, ss, n)
  {
  }

  // ----- Runs that die at points from which they can be replayed -----

  /**
   If the pending files are run and the run dies in one of them, then at a point from which that file replays
   in this state.
  */
  ghost predicate DiesReplayably<D>(env: Env<D>, db: Db<D>, pending: seq<string>, budget: nat)
    decreases |pending|
  {
    pending == [] ||
      var ss := Statements(env, pending[0]);
      var (next, left, outcome) := RunFile(env, db, pending[0], budget);
      var n := RunStatements(env, db.data, ss, budget).1;
      if outcome == Completed then DiesReplayably(env, next, pending[1..], left)
      else n <= |ss| && (ExecAll(env, db.data, ss).Some? ==> ReplayedAfter(env, db.data, ss, n))
  }

  ghost predicate RunDiesReplayably<D>(env: Env<D>, db: Db<D>, files: seq<string>, budget: nat) {
    Fenced(env, db) || budget == 0
    || DiesReplayably(env, db.(tracking := Some(Rows(db))), Pending(files, Rows(db)), budget - 1)
  }

  ghost predicate HistoryDiesReplayably<D>(env: Env<D>, db: Db<D>, starts: seq<Start>)
    decreases |starts|
  {
    starts == []
    || (RunDiesReplayably(env, db, starts[0].files, starts[0].budget)
        && HistoryDiesReplayably(env, Run(env, db, starts[0].files, starts[0].budget).0, starts[1..]))
  }

  lemma RunFileStaysOnCourse<D>(env: Env<D>, db: Db<D>, all: seq<string>, budget: nat, goal: D)
    requires OnCourse(env, db, all, goal) && |Rows(db)| < |all|
    ensures var file := all[|Rows(db)|];
      var (next, left, outcome) := RunFile(env, db, file, budget);
      && (outcome == Completed || outcome == Died)
      && (outcome == Completed || DiesReplayably(env, db, [file], budget) ==> OnCourse(env, next, all, goal))
  {
    var k := |Rows(db)|;
    var ss := Statements(env, all[k]);
    hide Statements, RunStatements;
    assert all[k..][0] == all[k] && all[k..][1..] == all[k + 1..];
    RunStatementsExecutes(env, db.data, ss, budget);
  }

  /** Where a run over the pending files dies does not depend on the files after that. */
  lemma DiesInFirst<D>(env: Env<D>, db: Db<D>, pending: seq<string>, budget: nat)
    requires pending != [] && RunFile(env, db, pending[0], budget).2 != Completed
    ensures DiesReplayably(env, db, pending, budget) <==> DiesReplayably(env, db, [pending[0]], budget)
  {
    hide RunFile, RunStatements, ReplayedAfter, ExecAll, Statements;
  }

  lemma {:induction false} RunFilesStaysOnCourse<D>(
      env: Env<D>, db: Db<D>, all: seq<string>, m: nat, budget: nat, goal: D)
    requires db.tracking.Some? && OnCourse(env, db, all, goal) && |Rows(db)| <= m <= |all|
    ensures var pending := all[|Rows(db)|..m];
      var (end, outcome) := RunFiles(env, db, pending, budget);
      && (outcome == Completed || outcome == Died)
      && (outcome == Completed || DiesReplayably(env, db, pending, budget) ==> OnCourse(env, end, all, goal))
    decreases m - |Rows(db)|
  {
    hide RunFile, RunStatements, ReplayedAfter, OnCourse, Statements, ExecAll;
    var k := |Rows(db)|;
    if k < m {
      var (next, left, outcome) := RunFile(env, db, all[k], budget);
      RunFileStaysOnCourse(env, db, all, budget, goal);
      RunFileTracks(env, db, all[k], budget);
      assert all[k..m][1..] == all[k + 1..m];
      if outcome == Completed {
        RunFilesStaysOnCourse(env, next, all, m, left, goal);
      } else {
        DiesInFirst(env, db, all[k..m], budget);
      }
    }
  }

  lemma {:induction false} RunStaysOnCourse<D>(
      env: Env<D>, db: Db<D>, all: seq<string>, m: nat, budget: nat, goal: D)
    requires Distinct(all) && m <= |all|
    requires (db.tracking.Some? || !env.hasUsers(db.data)) && OnCourse(env, db, all, goal)
    ensures var (end, outcome) := Run(env, db, all[..m], budget);
      && (end.tracking.Some? || !env.hasUsers(end.data))
      && (outcome == Completed || outcome == Died)
      && (outcome == Completed || RunDiesReplayably(env, db, all[..m], budget) ==> OnCourse(env, end, all, goal))
      && (outcome == Completed ==> m <= |Rows(end)|)
  {
    hide RunFiles, Clean, Distinct, Pending, DiesReplayably;
    if budget > 0 {
      var rows := Rows(db);
      var start := db.(tracking := Some(rows));
      assert rows == all[..|rows|];
      PendingOfPrefix(all, |rows|, m);
      if |rows| < m {
        RunFilesStaysOnCourse(env, start, all, m, budget - 1, goal);
        RunFilesTracks(env, start, all[|rows|..m], budget - 1);
      } else {
        NothingToRun(env, start, budget - 1);
      }
    }
  }

  lemma NothingToRun<D>(env: Env<D>, db: Db<D>, budget: nat)
    ensures RunFiles(env, db, [], budget) == (db, Completed)
  {
  }

  lemma {:induction false} HistoryStaysOnCourse<D>(
      env: Env<D>, db: Db<D>, all: seq<string>, starts: seq<Start>, goal: D)
    requires Distinct(all) && OnCourse(env, db, all, goal)
    requires db.tracking.Some? || !env.hasUsers(db.data)
    requires HistoryDiesReplayably(env, db, starts)
    requires forall k :: 0 <= k < |starts| ==> starts[k].files <= all
    ensures var end := History(env, db, starts);
      OnCourse(env, end, all, goal) && (end.tracking.Some? || !env.hasUsers(end.data))
    decreases |starts|
  {
    hide Run, RunDiesReplayably, OnCourse, Distinct;
    if starts != [] {
      var start := starts[0];
      assert start.files == all[..|start.files|];
      RunStaysOnCourse(env, db, all, |start.files|, start.budget, goal);
      HistoryStaysOnCourse(env, Run(env, db, start.files, start.budget).0, all, starts[1..], goal);
    }
  }

  /** The files that are not recorded can be replayed in every state and from every point. */
  ghost predicate PendingReplayable<D(!new)>(env: Env<D>, db: Db<D>, all: seq<string>) {
    forall k :: 0 <= k < |all| && all[k] !in Rows(db) ==> Replayable(env, Statements(env, all[k]))
  }

  lemma {:induction false} ReplayableFilesDieReplayably<D(!new)>(
      env: Env<D>, db: Db<D>, pending: seq<string>, budget: nat)
    requires forall k :: 0 <= k < |pending| ==> Replayable(env, Statements(env, pending[k]))
    ensures DiesReplayably(env, db, pending, budget)
    decreases |pending|
  {
    hide Statements, RunStatements, Replayable, ReplayedAfter, ExecAll;
    if pending != [] {
      var ss := Statements(env, pending[0]);
      var (next, left, outcome) := RunFile(env, db, pending[0], budget);
      var n := RunStatements(env, db.data, ss, budget).1;
      RunStatementsExecutes(env, db.data, ss, budget);
      if outcome == Completed {
        ReplayableFilesDieReplayably(env, next, pending[1..], left);
      } else if ExecAll(env, db.data, ss).Some? {
        ReplayedPrefix(env, db.data, ss, n);
      }
    }
  }

  lemma {:induction false} ReplayableHistory<D(!new)>(env: Env<D>, db: Db<D>, all: seq<string>, starts: seq<Start>)
    requires Distinct(all) && PendingReplayable(env, db, all)
    requires forall k :: 0 <= k < |starts| ==> starts[k].files <= all
    ensures HistoryDiesReplayably(env, db, starts)
    decreases |starts|
  {
    hide Run, Distinct, Replayable, DiesReplayably, Pending, Statements;
    if starts != [] {
      var files, budget := starts[0].files, starts[0].budget;
      var rows := Rows(db);
      PrefixIsDistinct(files, all);
      PendingIsNew(files, rows);
      var pending := Pending(files, rows);
      forall k | 0 <= k < |pending| ensures Replayable(env, Statements(env, pending[k])) {
        assert pending[k] in files;
        var i :| 0 <= i < |files| && files[i] == pending[k];
        assert all[i] == pending[k];
      }
      if budget > 0 {
        ReplayableFilesDieReplayably(env, db.(tracking := Some(rows)), pending, budget - 1);
      }
      RunTracks(env, db, files, budget);
      ReplayableHistory(env, Run(env, db, files, budget).0, all, starts[1..]);
    }
  }

  lemma PrefixIsDistinct(files: seq<string>, all: seq<string>)
    requires Distinct(all) && files <= all
    ensures Distinct(files)
  {
  }

  /** The queries a run over these files needs besides creating the tracking table. */
  function Cost<D>(env: Env<D>, files: seq<string>): nat {
    if files == [] then 0 else |Statements(env, files[0])| + 1 + Cost(env, files[1..])
  }

  lemma RunFileCost<D>(env: Env<D>, db: Db<D>, file: string, budget: nat)
    requires |Statements(env, file)| < budget
    ensures var (_, left, outcome) := RunFile(env, db, file, budget);
      outcome != Died && (outcome == Completed ==> left + |Statements(env, file)| + 1 == budget)
  {
    RunStatementsExecutes(env, db.data, Statements(env, file), budget);
  }

  lemma {:induction false} EnoughBudget<D>(env: Env<D>, db: Db<D>, pending: seq<string>, budget: nat)
    requires Cost(env, pending) <= budget
    ensures RunFiles(env, db, pending, budget).1 != Died
    decreases |pending|
  {
    hide RunFile, Statements;
    if pending != [] {
      RunFileCost(env, db, pending[0], budget);
      var (next, left, outcome) := RunFile(env, db, pending[0], budget);
      if outcome == Completed {
        EnoughBudget(env, next, pending[1..], left);
      }
    }
  }

  lemma {:induction false} CostOfSuffix<D>(env: Env<D>, files: seq<string>, k: nat)
    requires k <= |files|
    ensures Cost(env, files[k..]) <= Cost(env, files)
  {
    if k > 0 {
      CostOfSuffix(env, files[1..], k - 1);
      assert files[k..] == files[1..][k - 1..];
    }
  }

  /** A run over all files completes unless it is interrupted, and leaves the state of a clean run. */
  ghost predicate Converges<D>(env: Env<D>, db: Db<D>, all: seq<string>, budget: nat, goal: D) {
    var (end, outcome) := Run(env, db, all, budget);
    && (outcome == Completed || outcome == Died)
    && (outcome == Completed ==> end.data == goal && Rows(end) == all)
    && (Cost(env, all) < budget ==> outcome == Completed)
  }

  /**
   From any database that is on course, and after any history of runs over the files known at the time each of
   which, if it died, died at a point from which the pending file replays in that state: a run over all files
   never fails, completes when it is not interrupted, and then leaves the state of a single clean run.
  */
  lemma HistoryConverges<D>(env: Env<D>, db: Db<D>, all: seq<string>, starts: seq<Start>, budget: nat, goal: D)
    requires Distinct(all) && OnCourse(env, db, all, goal)
    requires db.tracking.Some? || !env.hasUsers(db.data)
    requires forall k :: 0 <= k < |starts| ==> starts[k].files <= all
    requires HistoryDiesReplayably(env, db, starts)
    ensures Converges(env, History(env, db, starts), all, budget, goal)
  {
    hide Converges, OnCourse, Distinct;
    HistoryStaysOnCourse(env, db, all, starts, goal);
    Finish(env, History(env, db, starts), all, budget, goal);
  }

  /** In particular if every file that is not recorded yet is replayable, wherever the runs died. */
  lemma {:induction false} CrashesConverge<D(!new)>(
      env: Env<D>, db: Db<D>, all: seq<string>, starts: seq<Start>, budget: nat, goal: D)
    requires Distinct(all) && OnCourse(env, db, all, goal)
    requires db.tracking.Some? || !env.hasUsers(db.data)
    requires PendingReplayable(env, db, all)
    requires forall k :: 0 <= k < |starts| ==> starts[k].files <= all
    ensures Converges(env, History(env, db, starts), all, budget, goal)
  {
    hide Converges, OnCourse, Distinct, PendingReplayable;
    ReplayableHistory(env, db, all, starts);
    HistoryConverges(env, db, all, starts, budget, goal);
  }

  lemma FreshIsOnCourse<D>(env: Env<D>, d: D, all: seq<string>, goal: D)
    requires Clean(env, d, all) == Some(goal)
    ensures OnCourse(env, Db(d, None, []), all, goal)
  {
    assert all[0..] == all;
  }

  lemma {:induction false} Finish<D>(env: Env<D>, db: Db<D>, all: seq<string>, budget: nat, goal: D)
    requires Distinct(all) && OnCourse(env, db, all, goal)
    requires db.tracking.Some? || !env.hasUsers(db.data)
    ensures Converges(env, db, all, budget, goal)
  {
    hide RunFiles, Distinct, Pending, Cost, RunDiesReplayably;
    assert all[..|all|] == all;
    RunStaysOnCourse(env, db, all, |all|, budget, goal);
    var end := Run(env, db, all, budget).0;
    assert |Rows(end)| == |all| ==> all[|Rows(end)|..] == [];
    if Cost(env, all) < budget {
      var rows := Rows(db);
      assert rows == all[..|rows|];
      PendingOfPrefix(all, |rows|, |all|);
      assert |rows| < |all| ==> all[|rows|..|all|] == all[|rows|..];
      CostOfSuffix(env, all, |rows|);
      EnoughBudget(env, db.(tracking := Some(rows)), Pending(all, rows), budget - 1);
    }
  }

  /** Whatever runs died over this file, the next uninterrupted run completes in the state of a single clean run. */
  ghost predicate SafeToInterrupt<D(!new)>(env: Env<D>, file: string) {
    forall d, starts, budget ::
      ExecAll(env, d, Statements(env, file)).Some? && OnlyFile(file, starts) && |Statements(env, file)| + 1 < budget
      ==> Recovers(env, d, file, starts, budget)
  }

  ghost predicate OnlyFile(file: string, starts: seq<Start>) {
    forall k :: 0 <= k < |starts| ==> starts[k].files == [file]
  }

  ghost predicate Recovers<D>(env: Env<D>, d: D, file: string, starts: seq<Start>, budget: nat) {
    var (end, outcome) := Run(env, History(env, Db(d, Some([]), []), starts), [file], budget);
    outcome == Completed && Some(end.data) == ExecAll(env, d, Statements(env, file))
  }

  lemma OneFileRun<D>(env: Env<D>, db: Db<D>, file: string, budget: nat)
    requires db.tracking == Some([]) && budget > 0
    ensures var (next, _, outcome) := RunFile(env, db, file, budget - 1);
      Run(env, db, [file], budget) == (next, outcome)
  {
    AllPending([file], []);
    assert [file][1..] == [];
    var (next, left, outcome) := RunFile(env, db, file, budget - 1);
    NothingToRun(env, next, left);
    hide RunFile;
  }

  /** A run over one file that dies after `k` of its statements, recording nothing. */
  lemma DiesAfter<D>(env: Env<D>, d: D, file: string, k: nat)
    requires k <= |Statements(env, file)| && ExecAll(env, d, Statements(env, file)).Some?
    ensures var end := Run(env, Db(d, Some([]), []), [file], k + 1).0;
      && ExecAll(env, d, Statements(env, file)[..k]) == Some(end.data)
      && end.tracking == Some([])
  {
    hide Run, Statements, RunStatements, ExecAll;
    OneFileRun(env, Db(d, Some([]), []), file, k + 1);
    RunStatementsExecutes(env, d, Statements(env, file), k);
  }

  lemma RunFileExecutes<D>(env: Env<D>, db: Db<D>, file: string, budget: nat)
    ensures var (next, _, outcome) := RunFile(env, db, file, budget);
      outcome == Completed ==> ExecAll(env, db.data, Statements(env, file)) == Some(next.data)
  {
    hide Statements, RunStatements, ExecAll, Steps;
    RunStatementsExecutes(env, db.data, Statements(env, file), budget);
  }

  lemma CompletedExecutes<D>(env: Env<D>, db: Db<D>, file: string, budget: nat)
    requires db.tracking == Some([]) && budget > 0 && Run(env, db, [file], budget).1 == Completed
    ensures ExecAll(env, db.data, Statements(env, file)) == Some(Run(env, db, [file], budget).0.data)
  {
    hide *;
    OneFileRun(env, db, file, budget);
    RunFileExecutes(env, db, file, budget - 1);
  }

  lemma CleanOneFile<D>(env: Env<D>, d: D, file: string)
    ensures Clean(env, d, [file]) == ExecAll(env, d, Statements(env, file))
    ensures Cost(env, [file]) == |Statements(env, file)| + 1
  {
    hide Statements, ExecAll;
    assert [file][1..] == [];
  }

  lemma RecoversWhenReplayable<D(!new)>(env: Env<D>, d: D, file: string, starts: seq<Start>, budget: nat)
    requires Replayable(env, Statements(env, file)) && OnlyFile(file, starts)
    requires ExecAll(env, d, Statements(env, file)).Some? && |Statements(env, file)| + 1 < budget
    ensures Recovers(env, d, file, starts, budget)
  {
    hide Run, History, Statements, ExecAll, Replayable, Clean;
    var db, goal := Db(d, Some([]), []), ExecAll(env, d, Statements(env, file)).value;
    CleanOneFile(env, d, file);
    assert [file][0..] == [file];
    CrashesConverge(env, db, [file], starts, budget, goal);
  }

  /** The promise that an interrupted run is continued correctly holds for a file exactly when it is replayable. */
  lemma {:induction false} InterruptionIsSafeExactly<D(!new)>(env: Env<D>, file: string)
    ensures SafeToInterrupt(env, file) <==> Replayable(env, Statements(env, file))
  {
    var ss := Statements(env, file);
    if Replayable(env, ss) {
      forall d, starts, budget |
        ExecAll(env, d, ss).Some? && OnlyFile(file, starts) && |ss| + 1 < budget
        ensures Recovers(env, d, file, starts, budget)
      {
        RecoversWhenReplayable(env, d, file, starts, budget);
      }
    }
    if SafeToInterrupt(env, file) {
      forall d, k | 0 <= k <= |ss| && ExecAll(env, d, ss).Some? ensures ReplayedAfter(env, d, ss, k) {
        var starts := [Start([file], k + 1)];
        var db := Db(d, Some([]), []);
        var half := Run(env, db, [file], k + 1).0;
        assert History(env, db, starts) == History(env, half, starts[1..]) == half;
        assert Recovers(env, d, file, starts, |ss| + 2);
        DiesAfter(env, d, file, k);
        CompletedExecutes(env, half, file, |ss| + 2);
      }
    }
  }

  /** An empty database gets the whole schema from one run that is not interrupted, and every file is recorded. */
  lemma {:induction false} EmptyDatabaseIsMigrated<D>(env: Env<D>, d: D, all: seq<string>, budget: nat, goal: D)
    requires Distinct(all) && !env.hasUsers(d) && Clean(env, d, all) == Some(goal) && Cost(env, all) < budget
    ensures var (end, outcome) := Run(env, Db(d, None, []), all, budget);
      outcome == Completed && end.data == goal && end.tracking == Some(all)
  {
    hide Run, Cost, Distinct, OnCourse;
    FreshIsOnCourse(env, d, all, goal);
    Finish(env, Db(d, None, []), all, budget, goal);
    UntouchedExactly(env, Db(d, None, []), all, budget);
  }

  // ----- One point of one file -----

  lemma LastFileRun<D>(env: Env<D>, db: Db<D>, files: seq<string>, file: string, budget: nat)
    requires db.tracking.Some? && Pending(files, Rows(db)) == [file] && budget > 0
    ensures var (next, _, outcome) := RunFile(env, db, file, budget - 1);
      Run(env, db, files, budget) == (next, outcome)
  {
    hide RunFile, Pending;
    var (next, left, outcome) := RunFile(env, db, file, budget - 1);
    assert [file][1..] == [];
    NothingToRun(env, next, left);
  }

  /** The run with `n + 1` queries: it looks at the tracking table and dies after `n` statements of the file. */
  lemma DiesAt<D>(env: Env<D>, db: Db<D>, files: seq<string>, file: string, n: nat)
    requires db.tracking.Some? && Pending(files, Rows(db)) == [file]
    requires n <= |Statements(env, file)| && ExecAll(env, db.data, Statements(env, file)).Some?
    ensures var (half, outcome) := Run(env, db, files, n + 1);
      && outcome == Died && half.tracking == db.tracking
      && ExecAll(env, db.data, Statements(env, file)[..n]) == Some(half.data)
  {
    hide Run, Statements, RunStatements, ExecAll, Pending;
    LastFileRun(env, db, files, file, n + 1);
    RunStatementsExecutes(env, db.data, Statements(env, file), n);
  }

  lemma UninterruptedRun<D>(env: Env<D>, db: Db<D>, files: seq<string>, file: string, budget: nat)
    requires db.tracking.Some? && Pending(files, Rows(db)) == [file] && |Statements(env, file)| + 1 < budget
    ensures var (end, outcome) := Run(env, db, files, budget);
      var result := ExecAll(env, db.data, Statements(env, file));
      if result.Some? then outcome == Completed && end.data == result.value else outcome == Failed
  {
    hide Run, Statements, RunStatements, ExecAll, Pending;
    LastFileRun(env, db, files, file, budget);
    RunStatementsExecutes(env, db.data, Statements(env, file), budget - 1);
  }

  /**
   With one file left to run, in whatever state: dying after `n` of its statements is made good by the next
   uninterrupted run exactly when the file replays from that point in that state.
  */
  lemma DyingThereIsSafeExactly<D>(
      env: Env<D>, db: Db<D>, files: seq<string>, file: string, n: nat, budget: nat)
    requires db.tracking.Some? && Pending(files, Rows(db)) == [file]
    requires n <= |Statements(env, file)| && ExecAll(env, db.data, Statements(env, file)).Some?
    requires |Statements(env, file)| + 1 < budget
    ensures var (end, outcome) := Run(env, Run(env, db, files, n + 1).0, files, budget);
      (outcome == Completed && Some(end.data) == ExecAll(env, db.data, Statements(env, file)))
      <==> ReplayedAfter(env, db.data, Statements(env, file), n)
  {
    hide Run, Statements, ExecAll, Pending;
    DiesAt(env, db, files, file, n);
    UninterruptedRun(env, Run(env, db, files, n + 1).0, files, file, budget);
  }

  // ----- The baseline -----

  /** The file has a function body, so it is one statement, which works here and fails when it is run again. */
  ghost predicate WorksOnce<D>(env: Env<D>, d: D, file: string) {
    && HasDollars(env.content(file))
    && env.exec(d, env.content(file)).Some?
    && env.exec(env.exec(d, env.content(file)).value, env.content(file)) == None
  }

  lemma OneStatement<D>(env: Env<D>, d: D, file: string, budget: nat)
    requires HasDollars(env.content(file))
    ensures Statements(env, file) == [env.content(file)]
    ensures var result := env.exec(d, env.content(file));
      RunStatements(env, d, Statements(env, file), budget) ==
        if budget == 0 then (d, 0, Died)
        else match result case None => (d, 0, Failed) case Some(d') => (d', 1, Completed)
  {
    hide HasDollars;
    var ss := Statements(env, file);
    assert ss[1..] == [];
    if budget > 0 && env.exec(d, ss[0]).Some? {
      assert RunStatements(env, env.exec(d, ss[0]).value, [], budget - 1)
        == (env.exec(d, ss[0]).value, 0, Completed);
    }
  }

  ghost predicate BeginWith(file: string, starts: seq<Start>) {
    forall k :: 0 <= k < |starts| ==> starts[k].files != [] && starts[k].files[0] == file
  }

  /** The baseline comes first in every list while nothing is recorded. */
  lemma BaselineFirst(file: string, files: seq<string>)
    requires files != [] && files[0] == file
    ensures Pending(files, []) == [file] + Pending(files[1..], [])
  {
  }

  /** A run that meets the baseline where it fails changes nothing and does not complete. */
  lemma BaselineFails<D>(env: Env<D>, db: Db<D>, file: string, files: seq<string>, budget: nat)
    requires db.tracking == Some([]) && files != [] && files[0] == file
    requires HasDollars(env.content(file)) && env.exec(db.data, env.content(file)) == None
    ensures Run(env, db, files, budget).0 == db && Run(env, db, files, budget).1 != Completed
  {
    hide HasDollars, Statements, RunStatements;
    if budget > 0 {
      BaselineFirst(file, files);
      OneStatement(env, db.data, file, budget - 1);
      assert db.log + Steps(file, 0) == db.log;
    }
  }

  /**
   Once the baseline has run without being recorded, no run over lists that begin with it ever changes or
   completes anything.
  */
  lemma {:induction false} StuckForever<D>(env: Env<D>, db: Db<D>, file: string, starts: seq<Start>)
    requires db.tracking == Some([]) && BeginWith(file, starts)
    requires HasDollars(env.content(file)) && env.exec(db.data, env.content(file)) == None
    ensures History(env, db, starts) == db
    ensures forall k :: 0 <= k < |starts| ==> Run(env, db, starts[k].files, starts[k].budget).1 != Completed
    decreases |starts|
  {
    hide Run, HasDollars;
    if starts != [] {
      BaselineFails(env, db, file, starts[0].files, starts[0].budget);
      StuckForever(env, db, file, starts[1..]);
      forall k | 0 <= k < |starts| ensures Run(env, db, starts[k].files, starts[k].budget).1 != Completed {
        BaselineFails(env, db, file, starts[k].files, starts[k].budget);
      }
    }
  }

  /**
   The first run that gets beyond the tracking table, its first query, and to the baseline, its second, also gets
   to the record, its third.
  */
  predicate SparesBaseline(starts: seq<Start>) {
    starts == [] || starts[0].budget > 2 || (starts[0].budget < 2 && SparesBaseline(starts[1..]))
  }

  /** Nothing is recorded, and the runner may work here. */
  ghost predicate BeforeBaseline<D>(env: Env<D>, db: Db<D>) {
    Rows(db) == [] && (db.tracking.Some? || !env.hasUsers(db.data))
  }

  lemma BaselineRunFile<D>(env: Env<D>, db: Db<D>, file: string, budget: nat)
    requires WorksOnce(env, db.data, file)
    ensures var (next, left, outcome) := RunFile(env, db, file, budget);
      && next.data == (if budget == 0 then db.data else env.exec(db.data, env.content(file)).value)
      && next.tracking == (if budget < 2 then db.tracking else Some(Rows(db) + [file]))
      && outcome == (if budget < 2 then Died else Completed)
  {
    hide HasDollars, Statements, RunStatements;
    OneStatement(env, db.data, file, budget);
  }

  /** What a run with too few queries to record the baseline leaves. */
  lemma ShortRun<D>(env: Env<D>, db: Db<D>, file: string, files: seq<string>, budget: nat)
    requires BeforeBaseline(env, db) && WorksOnce(env, db.data, file) && budget <= 2
    requires files != [] && files[0] == file
    ensures var end := Run(env, db, files, budget).0;
      && end.data == (if budget < 2 then db.data else env.exec(db.data, env.content(file)).value)
      && end.tracking == (if budget == 0 then db.tracking else Some([]))
  {
    hide RunFile, WorksOnce, Pending;
    if budget > 0 {
      BaselineFirst(file, files);
      BaselineRunFile(env, db.(tracking := Some([])), file, budget - 1);
    }
  }

  /** A run that records the baseline dies replayably if the other files are replayable. */
  lemma LongRun<D(!new)>(env: Env<D>, db: Db<D>, file: string, files: seq<string>, budget: nat)
    requires BeforeBaseline(env, db) && WorksOnce(env, db.data, file) && budget > 2
    requires files != [] && files[0] == file && Distinct(files)
    requires RestReplayable(env, files)
    ensures RunDiesReplayably(env, db, files, budget)
    ensures file in Rows(Run(env, db, files, budget).0)
  {
    hide RunFile, RunStatements, WorksOnce, Statements, Replayable, ReplayedAfter, ExecAll;
    var start := db.(tracking := Some([]));
    BaselineFirst(file, files);
    AllPending(files[1..], []);
    BaselineRunFile(env, start, file, budget - 1);
    var pending := Pending(files, []);
    assert pending[1..] == files[1..];
    var (next, left, _) := RunFile(env, start, file, budget - 1);
    ReplayableFilesDieReplayably(env, next, files[1..], left);
    RunFilesTracks(env, next, files[1..], left);
    assert file in Rows(next);
  }

  ghost predicate RestReplayable<D(!new)>(env: Env<D>, files: seq<string>) {
    forall k :: 1 <= k < |files| ==> Replayable(env, Statements(env, files[k]))
  }

  lemma {:induction false} BaselineRecorded<D(!new)>(
      env: Env<D>, db: Db<D>, all: seq<string>, starts: seq<Start>, budget: nat, goal: D)
    requires Distinct(all) && all != [] && BeforeBaseline(env, db) && OnCourse(env, db, all, goal)
    requires WorksOnce(env, db.data, all[0]) && RestReplayable(env, all)
    requires starts != [] && starts[0].budget > 2
    requires forall k :: 0 <= k < |starts| ==> starts[k].files <= all && starts[k].files != []
    ensures Converges(env, History(env, db, starts), all, budget, goal)
  {
    hide Run, RunDiesReplayably, WorksOnce, Converges, Replayable, Statements, OnCourse;
    var files := starts[0].files;
    PrefixIsDistinct(files, all);
    assert forall k :: 0 <= k < |files| ==> files[k] == all[k];
    LongRun(env, db, all[0], files, starts[0].budget);
    var next := Run(env, db, files, starts[0].budget).0;
    ReplayableHistory(env, next, all, starts[1..]);
    HistoryConverges(env, db, all, starts, budget, goal);
  }

  /**
   A list of files as it is in the repository: a baseline that works once, and behind it files that can be
   replayed. From a database where nothing is recorded, a history of runs that died anywhere is made good by a
   run that is not interrupted exactly when no run died between the baseline and its record.
  */
  lemma {:induction false} BaselineCrashesExactly<D(!new)>(
      env: Env<D>, db: Db<D>, all: seq<string>, starts: seq<Start>, budget: nat, goal: D)
    requires Distinct(all) && all != [] && BeforeBaseline(env, db) && OnCourse(env, db, all, goal)
    requires WorksOnce(env, db.data, all[0]) && RestReplayable(env, all)
    requires forall k :: 0 <= k < |starts| ==> starts[k].files <= all && starts[k].files != []
    requires Cost(env, all) < budget
    ensures var (end, outcome) := Run(env, History(env, db, starts), all, budget);
      (outcome == Completed && end.data == goal && Rows(end) == all) <==> SparesBaseline(starts)
    decreases |starts|
  {
    hide Run, WorksOnce, Replayable, Statements, OnCourse, Distinct, BeforeBaseline, Cost;
    if starts == [] {
      FinishFromBaseline(env, db, all, budget, goal);
    } else {
      var next := Run(env, db, starts[0].files, starts[0].budget).0;
      if starts[0].budget > 2 {
        BaselineRecorded(env, db, all, starts, budget, goal);
      } else {
        ShortRun(env, db, all[0], starts[0].files, starts[0].budget);
        if starts[0].budget == 2 {
          StuckAfterBaseline(env, db, next, all, starts[1..], budget);
        } else {
          ShortRunIsHarmless(env, db, next, all, goal);
          BaselineCrashesExactly(env, next, all, starts[1..], budget, goal);
        }
      }
    }
  }

  lemma FinishFromBaseline<D>(env: Env<D>, db: Db<D>, all: seq<string>, budget: nat, goal: D)
    requires Distinct(all) && BeforeBaseline(env, db) && OnCourse(env, db, all, goal) && Cost(env, all) < budget
    ensures var (end, outcome) := Run(env, db, all, budget);
      outcome == Completed && end.data == goal && Rows(end) == all
  {
    hide OnCourse, Distinct, Run;
    Finish(env, db, all, budget, goal);
  }

  lemma StuckAfterBaseline<D>(
      env: Env<D>, db: Db<D>, next: Db<D>, all: seq<string>, starts: seq<Start>, budget: nat)
    requires all != [] && WorksOnce(env, db.data, all[0])
    requires next.tracking == Some([]) && next.data == env.exec(db.data, env.content(all[0])).value
    requires forall k :: 0 <= k < |starts| ==> starts[k].files <= all && starts[k].files != []
    ensures Run(env, History(env, next, starts), all, budget).1 != Completed
  {
    hide Run, HasDollars;
    StuckForever(env, next, all[0], starts);
    BaselineFails(env, next, all[0], all, budget);
  }

  lemma ShortRunIsHarmless<D>(env: Env<D>, db: Db<D>, next: Db<D>, all: seq<string>, goal: D)
    requires BeforeBaseline(env, db) && OnCourse(env, db, all, goal)
    requires next.data == db.data && (next.tracking == db.tracking || next.tracking == Some([]))
    ensures BeforeBaseline(env, next) && OnCourse(env, next, all, goal)
  {
  }
}
