/** `applyMigrations` as it is written: two nested loops over a database that changes under them. */
module TenantDatabase {
  import opened Options
  import opened Migrations

  class Database<D> {
    var data: D
    var tracking: Option<seq<string>>
    ghost var log: seq<LogEntry>

    ghost function View(): Db<D>
      reads this
    {
      Db(data, tracking, log)
    }

    constructor (d: D)
      ensures View() == Db(d, None, [])
    {
      data, tracking, log := d, None, [];
    }

    /** The inner loop: statement after statement on one connection. */
    method ExecuteStatements(env: Env<D>, file: string, ss: seq<string>, budget: nat) returns (n: nat, outcome: Outcome)
      modifies this`data, this`log
      ensures (data, n, outcome) == RunStatements(env, old(data), ss, budget)
      ensures log == old(log) + Steps(file, n)
      ensures |log| == |old(log)| + n && forall i :: 0 <= i < n ==> log[|old(log)| + i] == Ran(file, i)
    {
      n := 0;
      while n < |ss|
        invariant n <= |ss| && n <= budget
        invariant log == old(log) + Steps(file, n)
        invariant
          var (end, left, o) := RunStatements(env, data, ss[n..], budget - n);
          RunStatements(env, old(data), ss, budget) == (end, n + left, o)
      {
        if n == budget {
          return n, Died;
        }
        var result := env.exec(data, ss[n]);
        if result.None? {
          return n, Failed;
        }
        data := result.value;
        log := log + [Ran(file, n)];
        assert ss[n..][1..] == ss[n + 1..];
        n := n + 1;
      }
      outcome := Completed;
    }

    method RecordFile(file: string)
      requires tracking.Some?
      modifies this`tracking, this`log
      ensures tracking == Some(old(tracking).value + [file])
      ensures log == old(log) + [Recorded(file)]
    {
      tracking := Some(tracking.value + [file]);
      log := log + [Recorded(file)];
    }

    /** One file: its statements, then its row in the tracking table. */
    method ApplyFile(env: Env<D>, file: string, budget: nat) returns (left: nat, outcome: Outcome)
      requires tracking.Some?
      modifies this
      ensures (View(), left, outcome) == RunFile(env, old(View()), file, budget)
    {
      var n;
      n, outcome := ExecuteStatements(env, file, Statements(env, file), budget);
      if outcome != Completed {
        return 0, outcome;
      }
      if budget <= n {
        return 0, Died;
      }
      RecordFile(file);
      left := budget - n - 1;
    }

    /** The outer loop over the pending files. */
    method ApplyPending(env: Env<D>, pending: seq<string>, budget: nat) returns (outcome: Outcome)
      requires tracking.Some?
      modifies this
      ensures (View(), outcome) == RunFiles(env, old(View()), pending, budget)
    {
      hide RunFile;
      var i, left := 0, budget;
      while i < |pending|
        invariant i <= |pending| && tracking.Some?
        invariant RunFiles(env, View(), pending[i..], left) == RunFiles(env, old(View()), pending, budget)
      {
        assert pending[i..][0] == pending[i] && pending[i..][1..] == pending[i + 1..];
        RunFileTracks(env, View(), pending[i], left);
        left, outcome := ApplyFile(env, pending[i], left);
        if outcome != Completed {
          return;
        }
        i := i + 1;
      }
      outcome := Completed;
    }

    /** One run of the service. It dies when `budget` queries have been made. */
    method ApplyMigrations(env: Env<D>, files: seq<string>, budget: nat) returns (outcome: Outcome)
      modifies this
      ensures (View(), outcome) == Run(env, old(View()), files, budget)
    {
      if env.hasUsers(data) && tracking.None? {
        return Untouched;
      }
      if budget == 0 {
        return Died;
      }
      if tracking.None? {
        tracking := Some([]);
      }
      outcome := ApplyPending(env, Pending(files, tracking.value), budget - 1);
    }
  }
}
