/**
  The supervisor of one Minecraft server process: the lock file `lock.pid` that keeps
  a second server from starting in the same directory, the launch that spawns `java`
  and waits for the readiness line, and the running server's command channel, stop
  and status.
 */
module ServerProcess {
  import opened Wrappers
  import opened PyStr
  import opened PidText
  import opened Readiness

  /** `ServerProcess.OFF` … `ServerProcess.UNKNOWN`. */
  datatype State = OFF | STARTING | RUNNING | STOPPING | UNKNOWN

  /** What the supervisor's operations raise. */
  datatype Failure =
    | PidNotInteger               // ValueError from int() on the lock text
    | PidNegative                 // ValueError from psutil.Process for a negative PID
    | LockFileMissing             // FileNotFoundError from os.remove
    | SpawnFailed                 // OSError when "java" cannot be started
    | ServerAlreadyRunningError
    | ServerRunningError(returnCode: int, lastMsg: string)

  /** The effects the host sees, in the order they happen. */
  datatype Event =
    | LockWritten(text: string)
    | LockRemoved
    | Spawned(pid: int, name: string)
    | StdoutRead(index: nat, state: State)
    | StdoutEnded(state: State)
    | Exited(pid: int, returnCode: int)

  /** The host the supervisor runs on: the lock file and the process table. */
  class Host {
    /** The content of `lock.pid` in the working directory, `None` when there is no such file. */
    var lock: Option<string>
    /** The live processes: PID to process name. */
    var procs: map<int, string>
    /** Everything that happened to the lock file, the processes and their output. */
    ghost var log: seq<Event>

    constructor (lock: Option<string>, procs: map<int, string>)
      ensures this.lock == lock && this.procs == procs && log == []
    {
      this.lock := lock;
      this.procs := procs;
      log := [];
    }

    /** The operating system starts a process called `name` under some PID that no live
        process has; which one it picks is left open. */
    method Spawn(name: string) returns (pid: int)
      modifies this`procs, this`log
      ensures pid > 0 && pid !in old(procs)
      ensures procs == old(procs)[pid := name]
      ensures log == old(log) + [Spawned(pid, name)]
    {
      var free := Above(procs.Keys);
      assert free > 0 && free !in procs;
      pid :| pid > 0 && pid !in procs;
      procs := procs[pid := name];
      log := log + [Spawned(pid, name)];
    }
  }

  /** A positive number above every PID in `pids`, so one that is not in use. */
  ghost function Above(pids: set<int>): (b: int)
    ensures b > 0 && forall p | p in pids :: p < b
    decreases |pids|
  {
    if pids == {} then 1
    else
      assert exists q :: q in pids by {
        if forall q :: q !in pids {
          assert false;
        }
      }
      var p :| p in pids;
      var rest := Above(pids - {p});
      assert forall q | q in pids :: q == p || q in pids - {p};
      if p < rest then rest else p + 1
  }

  /** The lock file was there before and is gone after. */
  function Removal(before: Option<string>, after: Option<string>): seq<Event> {
    if before.Some? && after.None? then [LockRemoved] else []
  }

  /** The lock names `pid`, and `pid` is a live process called "java". */
  ghost predicate ValidLock(lock: Option<string>, procs: map<int, string>, pid: int) {
    && lock.Some?
    && ParseInt(ReadLine(lock.value)) == Some(pid)
    && pid >= 0
    && pid in procs && procs[pid] == "java"
  }

  /** What `_check_lock` returns, and what the lock file holds afterwards. */
  datatype LockCheck = LockCheck(result: Result<Option<int>, Failure>, lock: Option<string>)

  /**
    `_check_lock`: the PID of a running server, or `None` once a missing, dead or
    foreign lock has been cleared away; lock text that is not an integer, or a negative
    PID, raises and leaves the file as it is.
   */
  function CheckLockOutcome(lock: Option<string>, procs: map<int, string>): (c: LockCheck)
    ensures forall pid :: c.result == Ok(Some(pid)) <==> ValidLock(lock, procs, pid)
    ensures c.result == Err(PidNotInteger)
            <==> lock.Some? && ParseInt(ReadLine(lock.value)).None?
    ensures c.result == Err(PidNegative)
            <==> lock.Some? && ParseInt(ReadLine(lock.value)).Some? && ParseInt(ReadLine(lock.value)).value < 0
    ensures c.result.Ok? || c.result == Err(PidNotInteger) || c.result == Err(PidNegative)
    ensures c.result == Ok(None) ==> c.lock == None
    ensures c.result != Ok(None) ==> c.lock == lock
  {
    match lock
    case None => LockCheck(Ok(None), None)
    case Some(text) =>
      match ParseInt(ReadLine(text))
      case None => LockCheck(Err(PidNotInteger), lock)
      case Some(pid) =>
        if pid < 0 then LockCheck(Err(PidNegative), lock)
        else if pid !in procs || procs[pid] != "java" then LockCheck(Ok(None), None)
        else LockCheck(Ok(Some(pid)), lock)
  }

  /** `if ServerProcess._check_lock():` holds: a PID came back and it is not 0. */
  predicate Blocks(r: Result<Option<int>, Failure>) {
    r.Ok? && r.value.Some? && r.value.value != 0
  }

  /** A check that neither raised nor found a running server lets the launch go ahead. */
  predicate Permits(r: Result<Option<int>, Failure>) {
    r.Ok? && !Blocks(r)
  }

  /** A lock naming PID 0 does not block a launch even when the check reports that PID,
      because `if` takes the returned 0 for false. */
  lemma ZeroPidDoesNotBlock(procs: map<int, string>)
    requires 0 in procs && procs[0] == "java"
    ensures CheckLockOutcome(Some("0"), procs) == LockCheck(Ok(Some(0)), Some("0"))
    ensures Permits(CheckLockOutcome(Some("0"), procs).result)
  {
    assert IntToDecimal(0) == "0";
    PidRoundTrip(0);
  }

  /** `_check_lock` on a directory without a lock file returns `None` and changes nothing. */
  lemma NoLockNoChange(procs: map<int, string>)
    ensures CheckLockOutcome(None, procs) == LockCheck(Ok(None), None)
  {
  }

  /** A lock whose non-negative PID is not a live "java" process is deleted, and the check
      returns `None`. */
  lemma StaleLockCleared(text: string, pid: int, procs: map<int, string>)
    requires ParseInt(ReadLine(text)) == Some(pid) && pid >= 0
    requires pid !in procs || procs[pid] != "java"
    ensures CheckLockOutcome(Some(text), procs) == LockCheck(Ok(None), None)
  {
  }

  /** The lock written for a server is seen by the next check: a live "java" process
      holds it, anything else makes the check clear it. */
  lemma CheckOwnLock(pid: int, procs: map<int, string>)
    requires pid >= 0
    ensures CheckLockOutcome(Some(IntToDecimal(pid)), procs)
            == if pid in procs && procs[pid] == "java"
               then LockCheck(Ok(Some(pid)), Some(IntToDecimal(pid)))
               else LockCheck(Ok(None), None)
  {
    PidRoundTrip(pid);
  }

  /** Checking twice is checking once: after a check the lock is stable. */
  lemma CheckLockIdempotent(lock: Option<string>, procs: map<int, string>)
    ensures CheckLockOutcome(CheckLockOutcome(lock, procs).lock, procs) == CheckLockOutcome(lock, procs)
  {
  }

  /**
    `_check_lock` as written, run against psutil 2.0 or later, where `name` is a method:
    `p.name != "java"` compares the bound method with a string and always holds, so a
    lock that names a live process is cleared just like one that names a dead process.
   */
  function CheckLockAsWritten(lock: Option<string>, procs: map<int, string>): (c: LockCheck)
    ensures !Blocks(c.result)
    ensures c.result.Ok? ==> c.result == Ok(None) && c.lock == None
    ensures c.result.Err? ==> c.result == CheckLockOutcome(lock, procs).result && c.lock == lock
    ensures CheckLockOutcome(lock, procs).result.Err? ==> c == CheckLockOutcome(lock, procs)
  {
    match lock
    case None => LockCheck(Ok(None), None)
    case Some(text) =>
      match ParseInt(ReadLine(text))
      case None => LockCheck(Err(PidNotInteger), lock)
      case Some(pid) =>
        if pid < 0 then LockCheck(Err(PidNegative), lock)
        else LockCheck(Ok(None), None)
  }

  /** With the check as written, the lock of a running server does not stop a second launch,
      although the intended check reports that server. */
  lemma AsWrittenAdmitsSecondServer(pid: int, procs: map<int, string>)
    requires pid > 0 && pid in procs && procs[pid] == "java"
    ensures Permits(CheckLockAsWritten(Some(IntToDecimal(pid)), procs).result)
    ensures CheckLockAsWritten(Some(IntToDecimal(pid)), procs).lock == None
    ensures Blocks(CheckLockOutcome(Some(IntToDecimal(pid)), procs).result)
  {
    PidRoundTrip(pid);
  }

  /** `_lockfile_delete`: `os.remove("lock.pid")`, which raises when the file is missing. */
  method LockfileDelete(host: Host) returns (r: Result<(), Failure>)
    modifies host`lock, host`log
    ensures host.lock == None
    ensures r == if old(host.lock).None? then Err(LockFileMissing) else Ok(())
    ensures host.log == old(host.log) + Removal(old(host.lock), None)
  {
    if host.lock.None? {
      return Err(LockFileMissing);
    }
    host.lock := None;
    host.log := host.log + [LockRemoved];
    return Ok(());
  }

  /** `_check_lock`, reading and possibly removing the lock file. */
  method CheckLock(host: Host) returns (r: Result<Option<int>, Failure>)
    modifies host`lock, host`log
    ensures LockCheck(r, host.lock) == CheckLockOutcome(old(host.lock), old(host.procs))
    ensures host.log == old(host.log) + Removal(old(host.lock), host.lock)
  {
    if host.lock.None? {
      return Ok(None);
    }
    var pidText := ReadLine(host.lock.value);
    var pid := ParseInt(pidText);
    if pid.None? {
      return Err(PidNotInteger);
    }
    if pid.value < 0 {
      return Err(PidNegative);
    }
    if pid.value !in host.procs || host.procs[pid.value] != "java" {
      var _ := LockfileDelete(host);
      return Ok(None);
    }
    return Ok(ParseInt(pidText));
  }

  /** What is logged while the server starts: the reads of its first `n` lines of output,
      then the end of that output when `ended`. */
  function Startup(n: nat, ended: bool): seq<Event>
    decreases n, ended
  {
    if ended then Startup(n, false) + [StdoutEnded(STARTING)]
    else if n == 0 then []
    else Startup(n - 1, false) + [StdoutRead(n - 1, STARTING)]
  }

  lemma LogAppend(log: seq<Event>, events: seq<Event>, e: Event)
    ensures log + events + [e] == log + (events + [e])
  {
  }

  /** A server process that this supervisor launched (`NewServerProcess`). */
  class NewServerProcess {
    /** `_status`, the cached state. */
    var status: State
    var pid: int
    /** Everything written to the server's standard input, in order. */
    var stdin: seq<string>
    /** Everything the server prints on standard output before it closes it. */
    var stdout: seq<RawLine>
    /** How many of those lines have been read. */
    var consumed: nat
    /** `process.returncode`: `None` while the process runs, its exit code once it has ended. */
    var returncode: Option<int>

    /** `ServerProcess.__init__`. */
    constructor ()
      ensures status == UNKNOWN && pid == -1
      ensures stdin == [] && stdout == [] && consumed == 0 && returncode == None
    {
      status := UNKNOWN;
      pid := -1;
      stdin := [];
      stdout := [];
      consumed := 0;
      returncode := None;
    }

    /** The lock file names this server. */
    predicate HoldsLock(host: Host)
      reads this, host
    {
      host.lock == Some(IntToDecimal(pid))
    }

    /** `_lockfile_create`: writes `str(self.pid)` to the lock file, replacing what was there. */
    method LockfileCreate(host: Host)
      modifies host`lock, host`log
      ensures HoldsLock(host)
      ensures host.log == old(host.log) + [LockWritten(IntToDecimal(pid))]
    {
      host.lock := Some(IntToDecimal(pid));
      host.log := host.log + [LockWritten(IntToDecimal(pid))];
    }

    /** `await process.stdout.readline()`: the next line, or "" at end of file. */
    method ReadStdout(host: Host) returns (raw: string)
      modifies this`consumed, host`log
      ensures old(consumed) < |stdout| ==>
                && raw == stdout[old(consumed)] && consumed == old(consumed) + 1
                && host.log == old(host.log) + [StdoutRead(old(consumed), status)]
      ensures old(consumed) >= |stdout| ==>
                && raw == "" && consumed == old(consumed)
                && host.log == old(host.log) + [StdoutEnded(status)]
    {
      if consumed < |stdout| {
        raw := stdout[consumed];
        host.log := host.log + [StdoutRead(consumed, status)];
        consumed := consumed + 1;
      } else {
        raw := "";
        host.log := host.log + [StdoutEnded(status)];
      }
    }

    /**
      The wait in `launch` for the server to start: reads the output line by line,
      remembering the last non-blank one, and stops right after the first line that
      carries the readiness marker, or at end of file.
     */
    method AwaitReady(host: Host) returns (done: bool, line: string)
      requires status == STARTING && consumed == 0
      modifies this`consumed, host`log
      ensures done <==> FirstReadyLine(stdout).Some?
      ensures done ==> consumed > 0 && FirstReadyLine(stdout) == Some(consumed - 1)
      ensures !done ==> consumed == |stdout| && line == LastNonBlank(stdout)
      ensures host.log == old(host.log) + Startup(consumed, !done)
    {
      done := false;
      var lineB: string := "nonempty";
      line := "";
      // `while line_b:` with a `break` once the marker is seen, as one loop condition.
      while lineB != "" && !done
        invariant consumed <= |stdout|
        invariant lineB == "" ==> consumed == |stdout|
        invariant !done ==> line == LastNonBlank(stdout[..consumed]) && !HasDoneMarker(line)
        invariant !done ==> FirstReadyLine(stdout[..consumed]) == None
        invariant done ==> lineB != "" && consumed > 0 && FirstReadyLine(stdout) == Some(consumed - 1)
        invariant host.log == old(host.log) + Startup(consumed, lineB == "")
        decreases |stdout| - consumed + (if lineB == "" || done then 0 else 1)
      {
        ghost var before, last := consumed, line;
        lineB := ReadStdout(host);
        var stripped := Strip(lineB);
        line := if stripped != "" then stripped else line;
        if before < |stdout| {
          LogAppend(old(host.log), Startup(before, false), StdoutRead(before, STARTING));
          ScanStep(stdout, before, last);
          ReadyStep(stdout, before);
        } else {
          LogAppend(old(host.log), Startup(before, false), StdoutEnded(STARTING));
          assert lineB == "" && line == last;
        }
        if HasDoneMarker(line) {
          done := true;
        }
      }
      if !done {
        assert stdout[..|stdout|] == stdout;
      }
    }

    /**
      The part of `launch` between the check and the wait: spawns `java`, marks the
      server STARTING with the new PID, and writes that PID to the lock file.
     */
    method Begin(host: Host, output: seq<RawLine>)
      modifies this`pid, this`status, this`stdout, host`procs, host`lock, host`log
      ensures pid > 0 && pid !in old(host.procs) && host.procs == old(host.procs)[pid := "java"]
      ensures status == STARTING && stdout == output && HoldsLock(host)
      ensures host.log == old(host.log) + [Spawned(pid, "java"), LockWritten(IntToDecimal(pid))]
    {
      pid := host.Spawn("java");
      status := STARTING;
      stdout := output;
      LockfileCreate(host);
    }

    /**
      The rest of `launch` once the check has let it go ahead: spawns `java`, writes the
      lock, waits for the readiness line and then marks the server RUNNING; `done` is
      false, and `line` the last non-blank line, when the output ended first.
     */
    method SpawnAndWait(host: Host, output: seq<RawLine>) returns (done: bool, line: string)
      requires consumed == 0
      modifies this`pid, this`status, this`stdout, this`consumed, host`procs, host`lock, host`log
      ensures pid > 0 && pid !in old(host.procs) && host.procs == old(host.procs)[pid := "java"]
      ensures HoldsLock(host) && stdout == output
      ensures done <==> FirstReadyLine(output).Some?
      ensures done ==> status == RUNNING && consumed > 0 && FirstReadyLine(output) == Some(consumed - 1)
      ensures !done ==> status == STARTING && consumed == |output| && line == LastNonBlank(output)
      ensures host.log == old(host.log) + [Spawned(pid, "java"), LockWritten(IntToDecimal(pid))]
                          + Startup(consumed, !done)
    {
      Begin(host, output);
      done, line := AwaitReady(host);
      if done {
        status := RUNNING;
      }
    }

    /**
      `NewServerProcess.launch`: refuses while the lock names a running server, otherwise
      spawns `java`, writes its PID to the lock and reads its output up to the first
      readiness line. `output` is what the server prints before closing its output, and
      `javaFound` whether the operating system can start `java` at all.
     */
    static method Launch(host: Host, output: seq<RawLine>, javaFound: bool)
      returns (r: Result<NewServerProcess, Failure>)
      modifies host`lock, host`procs, host`log
      // Refused or raised before anything was spawned: only the check has run.
      ensures !Permits(CheckLockOutcome(old(host.lock), old(host.procs)).result) ==>
                && r == Err(if Blocks(CheckLockOutcome(old(host.lock), old(host.procs)).result)
                            then ServerAlreadyRunningError
                            else CheckLockOutcome(old(host.lock), old(host.procs)).result.error)
                && host.lock == CheckLockOutcome(old(host.lock), old(host.procs)).lock
                && host.procs == old(host.procs)
                && host.log == old(host.log) + Removal(old(host.lock), host.lock)
      ensures Permits(CheckLockOutcome(old(host.lock), old(host.procs)).result) && !javaFound ==>
                && r == Err(SpawnFailed)
                && host.lock == CheckLockOutcome(old(host.lock), old(host.procs)).lock
                && host.procs == old(host.procs)
                && host.log == old(host.log) + Removal(old(host.lock), host.lock)
      ensures Permits(CheckLockOutcome(old(host.lock), old(host.procs)).result) && javaFound ==>
                r.Ok? || r.error.ServerRunningError?
      // Started: the PID is new, the lock names it, and reading stopped at the first ready line.
      ensures r.Ok? ==>
                && fresh(r.value)
                && r.value.pid > 0 && r.value.pid !in old(host.procs)
                && host.procs == old(host.procs)[r.value.pid := "java"]
                && r.value.HoldsLock(host)
                && r.value.status == RUNNING
                && r.value.stdin == [] && r.value.stdout == output && r.value.returncode == None
                && r.value.consumed > 0 && FirstReadyLine(output) == Some(r.value.consumed - 1)
                && host.log == old(host.log)
                     + Removal(old(host.lock), CheckLockOutcome(old(host.lock), old(host.procs)).lock)
                     + [Spawned(r.value.pid, "java"), LockWritten(IntToDecimal(r.value.pid))]
                     + Startup(r.value.consumed, false)
      // Output ended first: the error carries the PID and the last non-blank line; the lock stays.
      ensures r.Err? && r.error.ServerRunningError? ==>
                && r.error.returnCode > 0 && r.error.returnCode !in old(host.procs)
                && host.procs == old(host.procs)[r.error.returnCode := "java"]
                && host.lock == Some(IntToDecimal(r.error.returnCode))
                && FirstReadyLine(output) == None
                && r.error.lastMsg == LastNonBlank(output)
                && host.log == old(host.log)
                     + Removal(old(host.lock), CheckLockOutcome(old(host.lock), old(host.procs)).lock)
                     + [Spawned(r.error.returnCode, "java"), LockWritten(IntToDecimal(r.error.returnCode))]
                     + Startup(|output|, true)
    {
      var self := new NewServerProcess();
      self.status := OFF;

      var held := CheckLock(host);
      if held.Err? {
        return Err(held.error);
      }
      if Blocks(held) {
        return Err(ServerAlreadyRunningError);
      }
      if !javaFound {
        return Err(SpawnFailed);
      }

      var done, line := self.SpawnAndWait(host, output);
      if !done {
        return Err(ServerRunningError(self.pid, line));
      }
      return Ok(self);
    }

    /** `command`: writes the command and a line break to the server's standard input. */
    method Command(command: string)
      modifies this`stdin
      ensures stdin == old(stdin) + [command + "\n"]
    {
      stdin := stdin + [command + "\n"];
    }

    /** The server process ends with `code`: the operating system reaps it and
        `process.returncode` takes the exit code. */
    method ChildExits(host: Host, code: int)
      requires returncode.None?
      modifies this`returncode, host`procs, host`log
      ensures returncode == Some(code)
      ensures host.procs == old(host.procs) - {pid}
      ensures host.log == old(host.log) + [Exited(pid, code)]
    {
      returncode := Some(code);
      host.procs := host.procs - {pid};
      host.log := host.log + [Exited(pid, code)];
    }

    /** `await process.wait()`: returns at once when the process has already ended,
        otherwise once it ends with `code`. */
    method Wait(host: Host, code: int) returns (rc: int)
      modifies this`returncode, host`procs, host`log
      ensures returncode.Some? && rc == returncode.value
      ensures old(returncode).Some? ==>
                returncode == old(returncode) && host.procs == old(host.procs) && host.log == old(host.log)
      ensures old(returncode).None? ==>
                && returncode == Some(code)
                && host.procs == old(host.procs) - {pid}
                && host.log == old(host.log) + [Exited(pid, code)]
    {
      if returncode.None? {
        ChildExits(host, code);
      }
      rc := returncode.value;
    }

    /**
      `stop`: marks the server STOPPING, sends "stop", waits for the process to end
      (with `exitCode` if it is still running), removes the lock file and marks the
      server OFF. A lock file that is already gone raises, and the server stays STOPPING.
     */
    method Stop(host: Host, exitCode: int) returns (r: Result<(), Failure>)
      modifies this`status, this`stdin, this`returncode, host`lock, host`procs, host`log
      ensures stdin == old(stdin) + ["stop\n"]
      ensures returncode == if old(returncode).None? then Some(exitCode) else old(returncode)
      ensures host.procs == if old(returncode).None? then old(host.procs) - {pid} else old(host.procs)
      ensures host.lock == None
      ensures r == if old(host.lock).None? then Err(LockFileMissing) else Ok(())
      ensures status == if r.Ok? then OFF else STOPPING
      ensures host.log == old(host.log)
                          + (if old(returncode).None? then [Exited(pid, exitCode)] else [])
                          + Removal(old(host.lock), None)
    {
      status := STOPPING;
      Command("stop");
      assert "stop" + "\n" == "stop\n";
      var _ := Wait(host, exitCode);
      var deleted := LockfileDelete(host);
      if deleted.Err? {
        return deleted;
      }
      status := OFF;
      return Ok(());
    }

    /** The `status` property: OFF, and stored as such, once the process has ended with a
        non-zero exit code; otherwise the cached state, also when the exit code is 0. */
    method Status() returns (s: State)
      modifies this`status
      ensures returncode.Some? && returncode.value != 0 ==> s == OFF && status == OFF
      ensures !(returncode.Some? && returncode.value != 0) ==> s == old(status) && status == old(status)
    {
      if returncode.Some? && returncode.value != 0 {
        status := OFF;
        return OFF;
      }
      return status;
    }
  }

  /** A fresh directory: launching a server that prints its readiness line reports RUNNING,
      and after stopping it reports OFF. */
  method CreateAndStopNewServer(procs: map<int, string>, output: seq<RawLine>, exitCode: int)
    returns (running: State, stopped: State)
    requires FirstReadyLine(output).Some?
    ensures running == RUNNING && stopped == OFF
  {
    var host := new Host(None, procs);
    var launched := NewServerProcess.Launch(host, output, true);
    var server := launched.value;
    running := server.Status();
    var _ := server.Stop(host, exitCode);
    stopped := server.Status();
  }

  /** While the first server runs, launching a second one in the same directory raises
      `ServerAlreadyRunningError`. */
  method DenyToCreateTwoServers(procs: map<int, string>, output: seq<RawLine>, again: seq<RawLine>, exitCode: int)
    returns (raised: Option<Failure>)
    requires FirstReadyLine(output).Some?
    ensures raised == Some(ServerAlreadyRunningError)
  {
    var host := new Host(None, procs);
    var launched := NewServerProcess.Launch(host, output, true);
    var server := launched.value;
    CheckOwnLock(server.pid, host.procs);
    var second := NewServerProcess.Launch(host, again, true);
    raised := if second.Err? then Some(second.error) else None;
    var _ := server.Stop(host, exitCode);
  }

  /** A server that crashes is reported OFF, and its stale lock no longer blocks a new launch. */
  method RelaunchAfterCrash(procs: map<int, string>, output: seq<RawLine>, again: seq<RawLine>, code: int)
    returns (crashed: State, relaunched: bool)
    requires FirstReadyLine(output).Some? && FirstReadyLine(again).Some?
    requires code != 0
    ensures crashed == OFF && relaunched
  {
    var host := new Host(None, procs);
    var launched := NewServerProcess.Launch(host, output, true);
    var server := launched.value;
    server.ChildExits(host, code);
    crashed := server.Status();
    CheckOwnLock(server.pid, host.procs);
    var second := NewServerProcess.Launch(host, again, true);
    relaunched := second.Ok?;
  }
}
