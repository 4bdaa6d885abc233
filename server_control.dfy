/** The server lifecycle manager of a3sdt.py: the PID file, the orphan check, and the
    start, stop and restart commands, over an abstract operating system. */
module ServerControl {
  import opened Wrappers
  import NumberText
  import Launch

  datatype Signal = SigTerm | SigKill

  /** One `os.kill(pid, signal)`, stamped with the tick at which it was sent. */
  datatype Sent = Sent(pid: int, signal: Signal, at: nat)

  /** One server launch: its PID, executable, arguments and working directory. */
  datatype Spawn = Spawn(pid: int, command: string, args: seq<string>, cwd: string)

  /** The exceptions that end an invocation. */
  datatype Fault =
    | PidTextNotInteger      // ValueError from int() in read_pid
    | OrphanCheckAssertion   // AssertionError from `assert ARMA3_EXISTING_PID`
    | NoSuchProcess          // ProcessLookupError from os.kill(pid, SIGTERM)

  /** How an invocation ends: normally, by sys.exit(status), or by an uncaught exception. */
  datatype Outcome = Done | Exit(status: int) | Raised(fault: Fault)

  datatype Command = StartCommand | StopCommand | RestartCommand

  /** What becomes of handle_start's launch: the server is spawned; `os.fork` raises in
      the parent (the bare except exits 1); or the child fails to spawn the server (the
      child exits, the parent returns normally). */
  datatype SpawnAttempt = Spawned | ForkFails | ExecFails

  /** Python truthiness of ARMA3_EXISTING_PID, which is what every guard tests. */
  predicate Truthy(pid: Option<int>) {
    pid.Some? && pid.value != 0
  }

  /** The SIGKILLs handle_stop sends during its first `n` polls, started at tick `t0`:
      poll k (0-based) sends one when `k >= timeout`. */
  function KillLog(pid: int, timeout: nat, t0: nat, n: nat): (r: seq<Sent>)
    ensures |r| <= n
    ensures forall j :: 0 <= j < |r| ==> r[j].pid == pid && r[j].signal == SigKill
  {
    if n == 0 then []
    else KillLog(pid, timeout, t0, n - 1) + (if n - 1 >= timeout then [Sent(pid, SigKill, t0 + n - 1)] else [])
  }

  /** The escalation schedule in closed form: no SIGKILL before `timeout` seconds have
      been waited, then one every second, at consecutive ticks, while the server lives. */
  lemma {:induction false} KillLogShape(pid: int, timeout: nat, t0: nat, n: nat)
    ensures |KillLog(pid, timeout, t0, n)| == if n > timeout then n - timeout else 0
    ensures forall j :: 0 <= j < |KillLog(pid, timeout, t0, n)| ==>
      KillLog(pid, timeout, t0, n)[j] == Sent(pid, SigKill, t0 + timeout + j)
  {
    if n > 0 {
      KillLogShape(pid, timeout, t0, n - 1);
    }
  }

  /** Escalation happens if and only if the server outlives the grace period. */
  lemma EscalatesIffOutlivesGrace(pid: int, timeout: nat, t0: nat, diesAt: nat)
    ensures (exists j :: 0 <= j < |KillLog(pid, timeout, t0, diesAt)| &&
               KillLog(pid, timeout, t0, diesAt)[j].signal == SigKill) <==> diesAt > timeout
    ensures forall s :: s in KillLog(pid, timeout, t0, diesAt) ==> s.signal == SigKill && s.at >= t0 + timeout
  {
    KillLogShape(pid, timeout, t0, diesAt);
    if diesAt > timeout {
      assert KillLog(pid, timeout, t0, diesAt)[0].signal == SigKill;
    }
  }

  /** Under the assumption that SIGKILL ends the server before the next poll, it is sent
      at most once. */
  lemma SingleKillWhenKillIsImmediate(pid: int, timeout: nat, t0: nat, diesAt: nat)
    requires diesAt <= timeout + 1
    ensures |KillLog(pid, timeout, t0, diesAt)| <= 1
  {
    KillLogShape(pid, timeout, t0, diesAt);
  }

  /** With the default configuration, a server that exits within 5000 polls gets no
      SIGKILL, and one that ignores SIGTERM but dies on the first SIGKILL gets exactly
      one, 5000 seconds after SIGTERM. */
  lemma DefaultGracePeriod(pid: int, t0: nat, diesAt: nat)
    ensures diesAt <= Launch.DefaultSigtermTimeoutSeconds ==>
      KillLog(pid, Launch.DefaultSigtermTimeoutSeconds, t0, diesAt) == []
    ensures KillLog(pid, Launch.DefaultSigtermTimeoutSeconds, t0, Launch.DefaultSigtermTimeoutSeconds + 1) ==
      [Sent(pid, SigKill, t0 + 5000)]
  {
    var timeout := Launch.DefaultSigtermTimeoutSeconds;
    KillLogShape(pid, timeout, t0, diesAt);
    KillLogShape(pid, timeout, t0, timeout + 1);
    assert KillLog(pid, timeout, t0, timeout + 1)[0] == Sent(pid, SigKill, t0 + 5000);
  }

  /** A finite set of PIDs always leaves a positive PID free. */
  ghost function PidBound(s: set<int>): (b: int)
    ensures b > 0 && forall x :: x in s ==> x < b
    decreases |s|
  {
    if s == {} then 1
    else
      HasMember(s);
      var x :| x in s;
      var b := PidBound(s - {x});
      assert forall y :: y in s ==> y == x || y in s - {x};
      if x < b then b else x + 1
  }

  lemma HasMember(s: set<int>)
    requires s != {}
    ensures exists x :: x in s
  {
    if forall x :: x !in s {
      assert false;
    }
  }

  lemma FreshPidExists(s: set<int>)
    ensures exists pid :: pid > 0 && pid !in s
  {
    var b := PidBound(s);
    assert b !in s;
  }

  /** The machine the tool runs on, and the one piece of per-invocation state. */
  class Host {
    /** The PID file: its text, or None when it does not exist. */
    var pidFile: Option<string>
    /** The global ARMA3_EXISTING_PID of the running invocation. */
    var existingPid: Option<int>
    /** The processes `os.kill(pid, 0)` finds alive. */
    var live: set<int>
    /** Every signal sent, in order. */
    var signals: seq<Sent>
    /** Seconds slept; `time.sleep(1)` adds one. */
    var ticks: nat
    /** Every server launched, in order. */
    var spawns: seq<Spawn>

    constructor (pidFile: Option<string>, live: set<int>)
      ensures this.pidFile == pidFile && this.live == live
      ensures existingPid == None && signals == [] && ticks == 0 && spawns == []
    {
      this.pidFile := pidFile;
      this.live := live;
      existingPid := None;
      signals := [];
      ticks := 0;
      spawns := [];
    }

    /** The PID file is absent or holds a positive PID, as save_pid leaves it. */
    ghost predicate WellFormed()
      reads this
    {
      pidFile.Some? ==> NumberText.ParsePid(pidFile.value).Some? && NumberText.ParsePid(pidFile.value).value > 0
    }

    /** After a command: the PID file exists only while the PID it names is alive. */
    ghost predicate Settled()
      reads this
    {
      WellFormed() && (pidFile.Some? ==> NumberText.ParsePid(pidFile.value).value in live)
    }

    /** cleanup_pid_file: a missing file is not an error; afterwards there is no file and
        no recorded PID. */
    method CleanupPidFile()
      modifies this`pidFile, this`existingPid
      ensures pidFile == None && existingPid == None
    {
      pidFile := None;
      existingPid := None;
    }

    /** save_pid: the file holds the PID in decimal and nothing else. */
    method SavePid(pid: int)
      modifies this`pidFile
      ensures pidFile == Some(NumberText.IntText(pid))
      ensures NumberText.ParsePid(pidFile.value) == Some(pid)
    {
      pidFile := Some(NumberText.IntText(pid));
      NumberText.SavedPidReads(pid);
    }

    /** read_pid: parse the file, when there is one, into the recorded PID. */
    method ReadPid() returns (o: Outcome)
      modifies this`existingPid
      ensures pidFile.None? ==> o == Done && existingPid == old(existingPid)
      ensures pidFile.Some? && NumberText.ParsePid(pidFile.value).Some? ==>
        o == Done && existingPid == NumberText.ParsePid(pidFile.value)
      ensures pidFile.Some? && NumberText.ParsePid(pidFile.value).None? ==>
        o == Raised(PidTextNotInteger) && existingPid == old(existingPid)
    {
      o := Done;
      if pidFile.Some? {
        var parsed := NumberText.ParsePid(pidFile.value);
        if parsed.None? {
          o := Raised(PidTextNotInteger);
        } else {
          existingPid := parsed;
        }
      }
    }

    /** process_is_running: the liveness probe. */
    method ProcessIsRunning(pid: int) returns (running: bool)
      ensures running <==> pid in live
    {
      running := pid in live;
    }

    /** check_for_orphaned_pid_file: a PID file whose PID is not alive is removed;
        a live one is left alone. */
    method CheckForOrphanedPidFile() returns (o: Outcome)
      modifies this`pidFile, this`existingPid
      ensures old(pidFile).None? ==> o == Done && unchanged(this)
      ensures old(pidFile).Some? && !Truthy(old(existingPid)) ==>
        o == Raised(OrphanCheckAssertion) && unchanged(this)
      ensures old(pidFile).Some? && Truthy(old(existingPid)) && old(existingPid).value !in live ==>
        o == Done && pidFile == None && existingPid == None
      ensures old(pidFile).Some? && Truthy(old(existingPid)) && old(existingPid).value in live ==>
        o == Done && unchanged(this)
    {
      o := Done;
      if pidFile.Some? {
        if !Truthy(existingPid) {
          o := Raised(OrphanCheckAssertion);
          return;
        }
        var running := ProcessIsRunning(existingPid.value);
        if !running {
          CleanupPidFile();
        }
      }
    }

    /** handle_start: refuse while a PID is recorded; otherwise launch the server with
        a fresh PID and write that PID to the file right after the launch. A fork that
        fails exits 1; a launch that fails in the child leaves the invocation normal. */
    method Start(c: Launch.ServerConfig, attempt: SpawnAttempt) returns (o: Outcome, pid: Option<int>)
      modifies this`pidFile, this`live, this`spawns
      ensures Truthy(old(existingPid)) ==> o == Exit(1) && pid == None && unchanged(this)
      ensures !Truthy(old(existingPid)) && attempt == ForkFails ==> o == Exit(1) && pid == None && unchanged(this)
      ensures !Truthy(old(existingPid)) && attempt == ExecFails ==> o == Done && pid == None && unchanged(this)
      ensures !Truthy(old(existingPid)) && attempt == Spawned ==>
        o == Done && pid.Some? && pid.value > 0 && pid.value !in old(live) &&
        live == old(live) + {pid.value} &&
        pidFile == Some(NumberText.IntText(pid.value)) &&
        NumberText.ParsePid(pidFile.value) == pid &&
        spawns == old(spawns) + [Spawn(pid.value, Launch.ServerCommandPath(c), Launch.LaunchArgs(c), c.rootDirectory)]
    {
      if Truthy(existingPid) {
        o, pid := Exit(1), None;
        return;
      }
      if attempt == ForkFails {
        o, pid := Exit(1), None;
        return;
      }
      o, pid := Done, None;
      if attempt == Spawned {
        var p := LaunchServer(c);
        pid := Some(p);
      }
    }

    /** _launch_arma3_server: spawn the server with a fresh PID, the configured command
        line and the server root as working directory, then save its PID. */
    method LaunchServer(c: Launch.ServerConfig) returns (p: int)
      modifies this`pidFile, this`live, this`spawns
      ensures p > 0 && p !in old(live) && live == old(live) + {p}
      ensures spawns == old(spawns) + [Spawn(p, Launch.ServerCommandPath(c), Launch.LaunchArgs(c), c.rootDirectory)]
      ensures pidFile == Some(NumberText.IntText(p)) && NumberText.ParsePid(pidFile.value) == Some(p)
    {
      FreshPidExists(live);
      p :| p > 0 && p !in live;
      live := live + {p};
      spawns := spawns + [Spawn(p, Launch.ServerCommandPath(c), Launch.LaunchArgs(c), c.rootDirectory)];
      SavePid(p);
    }

    /** The environment: the server exits on its own once it has been polled `diesAt`
        times after SIGTERM (SIGKILL is one way it comes to exit). */
    method ServerExitsIfDue(pid: int, polls: nat, diesAt: nat)
      modifies this`live
      ensures live == if polls >= diesAt then old(live) - {pid} else old(live)
    {
      if polls >= diesAt {
        live := live - {pid};
      }
    }

    /** time.sleep(1). */
    method Sleep()
      modifies this`ticks
      ensures ticks == old(ticks) + 1
    {
      ticks := ticks + 1;
    }

    /** handle_stop: refuse without a recorded PID; otherwise one SIGTERM, then a poll
        every second with SIGKILL on each poll once `timeout` seconds have been waited,
        and the PID file removed only once the server is seen gone. `diesAt` is the
        number of polls the server survives. */
    method Stop(timeout: nat, diesAt: nat) returns (o: Outcome)
      modifies this`pidFile, this`existingPid, this`live, this`signals, this`ticks
      ensures !Truthy(old(existingPid)) ==> o == Exit(1) && unchanged(this)
      ensures Truthy(old(existingPid)) && old(existingPid).value !in old(live) ==>
        o == Raised(NoSuchProcess) && unchanged(this)
      ensures Truthy(old(existingPid)) && old(existingPid).value in old(live) ==>
        o == Done &&
        signals == old(signals) + [Sent(old(existingPid).value, SigTerm, old(ticks))]
                   + KillLog(old(existingPid).value, timeout, old(ticks), diesAt) &&
        ticks == old(ticks) + diesAt &&
        live == old(live) - {old(existingPid).value} &&
        pidFile == None && existingPid == None
    {
      if !Truthy(existingPid) {
        o := Exit(1);
        return;
      }
      var pid := existingPid.value;
      if pid !in live {
        o := Raised(NoSuchProcess);
        return;
      }
      signals := signals + [Sent(pid, SigTerm, ticks)];
      ghost var t0, s0, live0 := ticks, signals, live;

      var killWaitSeconds: nat := 0;
      ServerExitsIfDue(pid, killWaitSeconds, diesAt);
      var running := ProcessIsRunning(pid);
      while running
        invariant killWaitSeconds <= diesAt
        invariant running <==> killWaitSeconds < diesAt
        invariant live == if killWaitSeconds < diesAt then live0 else live0 - {pid}
        invariant ticks == t0 + killWaitSeconds
        invariant signals == s0 + KillLog(pid, timeout, t0, killWaitSeconds)
        invariant pidFile == old(pidFile) && existingPid == old(existingPid)
        decreases diesAt - killWaitSeconds
      {
        if killWaitSeconds >= timeout {
          signals := signals + [Sent(pid, SigKill, ticks)];
        }
        Sleep();
        killWaitSeconds := killWaitSeconds + 1;
        ServerExitsIfDue(pid, killWaitSeconds, diesAt);
        running := ProcessIsRunning(pid);
      }
      CleanupPidFile();
      o := Done;
    }

    /** handle_restart: stop, and start only when stop returned normally. */
    method Restart(c: Launch.ServerConfig, diesAt: nat, attempt: SpawnAttempt) returns (o: Outcome, pid: Option<int>)
      modifies this`pidFile, this`existingPid, this`live, this`signals, this`ticks, this`spawns
      ensures !Truthy(old(existingPid)) ==> o == Exit(1) && pid == None && unchanged(this)
      ensures Truthy(old(existingPid)) && old(existingPid).value !in old(live) ==>
        o == Raised(NoSuchProcess) && pid == None && unchanged(this)
      ensures Truthy(old(existingPid)) && old(existingPid).value in old(live) ==>
        o == (if attempt == ForkFails then Exit(1) else Done) && existingPid == None &&
        signals == old(signals) + [Sent(old(existingPid).value, SigTerm, old(ticks))]
                   + KillLog(old(existingPid).value, c.sigtermTimeoutSeconds, old(ticks), diesAt) &&
        ticks == old(ticks) + diesAt &&
        (attempt == Spawned ==>
          pid.Some? && pid.value > 0 && pid.value !in old(live) - {old(existingPid).value} &&
          live == old(live) - {old(existingPid).value} + {pid.value} &&
          pidFile == Some(NumberText.IntText(pid.value)) &&
          spawns == old(spawns) + [Spawn(pid.value, Launch.ServerCommandPath(c), Launch.LaunchArgs(c), c.rootDirectory)]) &&
        (attempt != Spawned ==> pid == None && pidFile == None && live == old(live) - {old(existingPid).value} && spawns == old(spawns))
      ensures old(Ready()) ==> !o.Raised? && Settled()
    {
      ghost var ready := Ready();
      o := Stop(c.sigtermTimeoutSeconds, diesAt);
      if o != Done {
        assert ready ==> o == Exit(1) && pidFile == None;
        pid := None;
        return;
      }
      assert existingPid == None && pidFile == None;
      o, pid := Start(c, attempt);
      if pid.Some? {
        NumberText.SavedPidReads(pid.value);
      }
    }

    /** The start of main in a fresh interpreter: read_pid, then
        check_for_orphaned_pid_file. A well-formed file naming a live server is
        recorded; an orphaned one is removed and nothing is recorded. */
    method Begin() returns (o: Outcome)
      modifies this`pidFile, this`existingPid
      ensures old(pidFile).None? ==> o == Done && pidFile == None && existingPid == None
      ensures old(pidFile).Some? && NumberText.ParsePid(old(pidFile).value).None? ==>
        o == Raised(PidTextNotInteger) && pidFile == old(pidFile)
      ensures old(WellFormed()) && old(pidFile).Some? &&
              NumberText.ParsePid(old(pidFile).value).value in live ==>
        o == Done && pidFile == old(pidFile) && existingPid == NumberText.ParsePid(old(pidFile).value) &&
        Truthy(existingPid)
      ensures old(WellFormed()) && old(pidFile).Some? &&
              NumberText.ParsePid(old(pidFile).value).value !in live ==>
        o == Done && pidFile == None && existingPid == None
    {
      existingPid := None;
      o := ReadPid();
      if o != Done {
        return;
      }
      o := CheckForOrphanedPidFile();
    }

    /** The state Begin leaves behind from a well-formed PID file: either no file and
        no record, or a file whose positive, live PID is the record. */
    ghost predicate Ready()
      reads this
    {
      (pidFile.None? && existingPid == None) ||
      (pidFile.Some? && existingPid == NumberText.ParsePid(pidFile.value) &&
       existingPid.Some? && existingPid.value > 0 && existingPid.value in live)
    }

    /** The dispatch of main; from the state Begin leaves, it raises nothing and
        settles the PID file. */
    method RunCommand(cmd: Command, c: Launch.ServerConfig, diesAt: nat, attempt: SpawnAttempt) returns (o: Outcome, pid: Option<int>)
      modifies this`pidFile, this`existingPid, this`live, this`signals, this`ticks, this`spawns
      ensures old(Ready()) ==> !o.Raised? && Settled()
      ensures old(Ready()) && old(pidFile).None? ==>
        pid.Some? == (cmd == StartCommand && attempt == Spawned) &&
        signals == old(signals) &&
        (cmd == StartCommand ==> o == if attempt == ForkFails then Exit(1) else Done) &&
        (cmd != StartCommand ==> o == Exit(1) && pidFile == None)
    {
      pid := None;
      ghost var idle := Ready() && pidFile.None?;
      assert idle ==> !Truthy(existingPid);
      match cmd {
        case StartCommand =>
          o, pid := Start(c, attempt);
        case StopCommand =>
          o := Stop(c.sigtermTimeoutSeconds, diesAt);
        case RestartCommand =>
          o, pid := Restart(c, diesAt, attempt);
          assert idle ==> o == Exit(1) && pid == None && pidFile == None;
      }
    }

    /** main: Begin, then the command. From a well-formed PID file no invocation raises,
        every one leaves the file naming a live server or absent, and an orphaned file
        is treated as a stopped server (so restart refuses it, as stop does). */
    method Invoke(cmd: Command, c: Launch.ServerConfig, diesAt: nat, attempt: SpawnAttempt) returns (o: Outcome, pid: Option<int>)
      modifies this`pidFile, this`existingPid, this`live, this`signals, this`ticks, this`spawns
      ensures old(WellFormed()) ==> !o.Raised? && Settled()
      ensures old(WellFormed()) && old(pidFile).Some? && NumberText.ParsePid(old(pidFile).value).value !in old(live) ==>
        pid.Some? == (cmd == StartCommand && attempt == Spawned) &&
        signals == old(signals) &&
        (cmd == StartCommand ==> o == if attempt == ForkFails then Exit(1) else Done) &&
        (cmd != StartCommand ==> o == Exit(1) && pidFile == None)
      ensures old(pidFile).Some? && NumberText.ParsePid(old(pidFile).value).None? ==>
        o == Raised(PidTextNotInteger) && pidFile == old(pidFile) && live == old(live) && signals == old(signals)
    {
      pid := None;
      o := Begin();
      if o != Done {
        return;
      }
      o, pid := RunCommand(cmd, c, diesAt, attempt);
    }
  }

  /** The grace-period scenario: a two-second grace period and a running server that
      ignores SIGTERM and dies on the first SIGKILL. Stop sends SIGTERM at once and
      SIGKILL two seconds later, then removes the PID file. */
  method GracePeriodScenario(h: Host, server: int)
    requires h.existingPid == Some(server) && server > 0 && server in h.live
    requires h.signals == [] && h.ticks == 0
    modifies h
  {
    var o := h.Stop(2, 3);
    assert o == Done && h.pidFile == None && server !in h.live && h.ticks == 3;
    KillLogShape(server, 2, 0, 3);
    assert h.signals == [Sent(server, SigTerm, 0), Sent(server, SigKill, 2)];
  }
}
