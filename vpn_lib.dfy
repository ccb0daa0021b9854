/**
  One managed OpenVPN instance of the library lineage (src/vpn.c with the types and
  constants of code/runvpn.h): how it is initialised from its directory, how its
  status is derived from the PID file and a kill(pid, 0) probe, and which lifecycle
  actions that status allows.
 */
module VpnLib {
  import opened Os
  import opened CStrings
  import opened ConfigChoice

  const PID_PREFIX: string := "/var/run"
  const PID_SUFFIX: string := ".runvpn.pid"
  const LOG_FILE: string := "openvpn.log"
  const DAEMON: int := 1
  const NO_DAEMON: int := 2
  const OPENVPN: string := "/usr/sbin/openvpn"

  /** vpn_status reads the PID file with fgets(line, 10, f) into `char line[11]`. */
  const FGETS_SIZE: nat := 10
  const LINE_CAPACITY: nat := 11

  /** enum vpn_status, in declaration order. */
  datatype Status = Error | Running | Dead | PermDenied | StalePid

  /** The integer value of each enumerator. */
  function StatusCode(s: Status): (c: int)
    ensures 0 <= c <= 4
  {
    match s
    case Error => 0
    case Running => 1
    case Dead => 2
    case PermDenied => 3
    case StalePid => 4
  }

  /** The fields vpn_init fills in. */
  datatype Descriptor = Descriptor(name: string, path: string, config: string, log: string, pidFile: string)

  // ---------------------------------------------------------------------------
  // vpn_init (src/vpn.c:242-312)
  // ---------------------------------------------------------------------------

  /** PID_PREFIX "/" name PID_SUFFIX. */
  function PidFilePath(name: string): string
  {
    PID_PREFIX + "/" + name + PID_SUFFIX
  }

  /**
    The fields vpn_init(vpn, folder, name) assigns, or None when it returns -1: the
    directory is missing, chdir into it fails, or glob finds no *.conf file or fails.
   */
  function InitDescriptor(folder: string, name: string, env: InitEnv): Option<Descriptor>
  {
    if !env.present || !env.chdirOk || !env.glob.Matched? then None
    else
      var path := Join(folder, name);
      Some(Descriptor(name, path, Join(path, env.glob.first), Join(path, LOG_FILE), PidFilePath(name)))
  }

  /**
    vpn_init succeeds exactly when the directory exists, chdir works and glob matches;
    then the instance lives in folder/name, its config and log lie inside that
    directory, its config is the first match, and its PID file is in the shared run
    directory.
   */
  lemma InitDescriptorFields(folder: string, name: string, env: InitEnv)
    ensures InitDescriptor(folder, name, env).Some? <==> env.present && env.chdirOk && env.glob.Matched?
    ensures InitDescriptor(folder, name, env).Some? ==>
      var d := InitDescriptor(folder, name, env).value;
      && d.name == name
      && d.path == folder + "/" + name
      && d.config[..|d.path| + 1] == d.path + "/" && d.config[|d.path| + 1..] == env.glob.first
      && d.log[..|d.path| + 1] == d.path + "/" && d.log[|d.path| + 1..] == LOG_FILE
      && d.pidFile[..|PID_PREFIX| + 1] == PID_PREFIX + "/"
  {
    if InitDescriptor(folder, name, env).Some? {
      var d := InitDescriptor(folder, name, env).value;
      JoinInjective(d.path, env.glob.first, env.glob.first);
      JoinInjective(d.path, LOG_FILE, LOG_FILE);
      assert d.config[|d.path| + 1..] == env.glob.first;
      assert d.log[|d.path| + 1..] == LOG_FILE;
      assert d.pidFile[..|PID_PREFIX| + 1] == PID_PREFIX + "/";
    }
  }

  /** Two instances share a PID file only if they have the same name. */
  lemma PidFilePathInjective(a: string, b: string)
    ensures PidFilePath(a) == PidFilePath(b) <==> a == b
  {
    if PidFilePath(a) == PidFilePath(b) {
      var n := |PID_PREFIX| + 1;
      assert |a| == |b|;
      assert a == PidFilePath(a)[n..n + |a|];
      assert b == PidFilePath(b)[n..n + |b|];
    }
  }

  // ---------------------------------------------------------------------------
  // vpn_status (src/vpn.c:37-91)
  // ---------------------------------------------------------------------------

  /**
    The first line of the PID file as vpn_status sees it: None when fopen fails
    (pidFile is None) or fgets reads nothing; otherwise at most nine characters,
    cut at any NUL, with one trailing newline removed.
   */
  function PidLine(pidFile: Option<seq<char>>): Option<seq<char>>
  {
    if pidFile.None? then None
    else match Fgets(pidFile.value, FGETS_SIZE)
      case None => None
      case Some(raw) => Some(Chomped(CStr(raw)))
  }

  /** The pid vpn_status passes to kill(pid, 0): atoi of the first line. */
  function ParsedPid(pidFile: Option<seq<char>>): Option<int>
  {
    match PidLine(pidFile)
    case None => None
    case Some(line) => Some(Atoi(line))
  }

  /** The switch on errno after a failed probe. */
  function ProbeFailureStatus(errno: int): Status
  {
    if errno == ESRCH then StalePid
    else if errno == EPERM then PermDenied
    else Error
  }

  /** The status vpn_status stores in vpn->status and returns. */
  function StatusOf(chdirOk: bool, pidFile: Option<seq<char>>, probe: KillResult): Status
  {
    if !chdirOk then Error
    else if PidLine(pidFile).None? then Dead
    else match probe
      case Delivered => Running
      case Failed(errno) => ProbeFailureStatus(errno)
  }

  /**
    The decision table of vpn_status: Error when chdir fails or the probe fails with an
    unexpected errno, Dead when there is no PID line (no file or an empty one),
    Running on a delivered probe, StalePid on ESRCH and PermDenied on EPERM.
   */
  lemma StatusTable(chdirOk: bool, pidFile: Option<seq<char>>, probe: KillResult)
    ensures PidLine(pidFile).None? <==> pidFile.None? || pidFile.value == []
    ensures var st := StatusOf(chdirOk, pidFile, probe);
      var probed := chdirOk && PidLine(pidFile).Some?;
      && (st == Error <==> !chdirOk || (probed && probe.Failed? && probe.errno != ESRCH && probe.errno != EPERM))
      && (st == Dead <==> chdirOk && (pidFile.None? || pidFile.value == []))
      && (st == Running <==> probed && probe == Delivered)
      && (st == StalePid <==> probed && probe == Failed(ESRCH))
      && (st == PermDenied <==> probed && probe == Failed(EPERM))
  {
  }

  /**
    The line is at most nine characters and holds neither a newline nor a NUL, so the
    pid parsed from it fits a 32-bit int.
   */
  lemma PidLineShape(pidFile: Option<seq<char>>)
    ensures PidLine(pidFile).Some? ==>
      var line := PidLine(pidFile).value;
      |line| <= 9 && '\n' !in line && NUL !in line
    ensures ParsedPid(pidFile).Some? ==> -99999999 <= ParsedPid(pidFile).value <= 999999999
  {
    if PidLine(pidFile).Some? {
      var raw := FgetsTake(pidFile.value, FGETS_SIZE - 1);
      FgetsTakeShape(pidFile.value, FGETS_SIZE - 1);
      CStrIgnoresTail(raw, []);
      assert raw + [NUL] + [] == raw + [NUL];
      CStrOfTerminated(raw + [NUL]);
      var view := CStr(raw);
      assert view == raw[..|view|];
      var line := PidLine(pidFile).value;
      assert line == Chomped(view);
      forall k | 0 <= k < |line|
        ensures line[k] != '\n'
      {
        assert line[k] == raw[k];
        if k == |raw| - 1 {
          assert |line| == |view| == |raw| && raw[|raw| - 1] != '\n';
        }
      }
      AtoiOfShortLine(line);
    }
  }

  /** A PID file whose first line has fewer than nine characters yields that line. */
  lemma PidLineOfShortLine(s: seq<char>)
    requires '\n' !in s && NUL !in s && |s| < 9
    ensures PidLine(Some(s + "\n")) == Some(s)
  {
    FgetsTakeLine(s, [], 9);
    assert s + ['\n'] + [] == s + "\n";
    CStrAt(s + "\n", |s| + 1);
    assert (s + "\n")[..|s| + 1] == s + "\n";
    ChompedInvertsNewline(s);
  }

  /**
    A PID file holding a pid as printf("%d\n") writes it gives that pid back, and with
    a delivered probe the instance is Running.
   */
  lemma PidFileRoundTrip(n: nat)
    requires n < 1000000000
    ensures PidLine(Some(Decimal(n) + "\n")) == Some(Decimal(n))
    ensures ParsedPid(Some(Decimal(n) + "\n")) == Some(n)
    ensures StatusOf(true, Some(Decimal(n) + "\n"), Delivered) == Running
  {
    var d := Decimal(n);
    assert Pow10(9) == 1000000000;
    DecimalLength(n, 9);
    assert forall k | 0 <= k < |d| :: IsDigit(d[k]);
    assert '\n' !in d && NUL !in d;
    if |d| < 9 {
      PidLineOfShortLine(d);
    } else {
      FgetsTakeLong(d, "\n", 9);
      assert d[..9] == d;
      CStrIgnoresTail(d, []);
      CStrAt(d + [NUL], |d|);
      assert (d + [NUL])[..|d|] == d;
      assert d + [NUL] + [] == d + [NUL];
      ChompedInvertsNewline(d);
    }
    AtoiOfDecimal(n);
  }

  /**
    vpn_status never checks that the parsed pid is positive. A PID file holding
    "-1" parses to -1; kill(-1, 0) addresses every process the caller may signal,
    so the probe is delivered and the instance reads as Running.
   */
  lemma MinusOnePidReadsRunning()
    ensures ParsedPid(Some("-1\n")) == Some(-1)
    ensures StatusOf(true, Some("-1\n"), Delivered) == Running
  {
    PidLineOfShortLine("-1");
    assert "-1" + "\n" == "-1\n";
    assert Atoi("-1") == -1 by {
      assert SkipSpace("-1") == "-1";
      assert "-1"[1..] == "1" && "1"[1..] == [];
      assert DigitPrefix("1") == "1";
      assert DecimalValue("1") == 1;
    }
  }

  /**
    A PID file holding text parses to pid 0; kill(0, 0) addresses the caller's own
    process group, so the probe is delivered and the instance reads as Running.
   */
  lemma TextPidReadsRunning()
    ensures ParsedPid(Some("garbage\n")) == Some(0)
    ensures StatusOf(true, Some("garbage\n"), Delivered) == Running
  {
    PidLineOfShortLine("garbage");
    assert "garbage" + "\n" == "garbage\n";
    assert Atoi("garbage") == 0 by {
      assert SkipSpace("garbage") == "garbage";
      assert DigitPrefix("garbage") == [];
    }
  }

  /** The status as evidently intended: a pid that is not positive counts as a dead instance and is never probed. */
  function CheckedStatusOf(chdirOk: bool, pidFile: Option<seq<char>>, probe: KillResult): Status
  {
    if chdirOk && ParsedPid(pidFile).Some? && ParsedPid(pidFile).value <= 0 then Dead
    else StatusOf(chdirOk, pidFile, probe)
  }

  /**
    With the check, Running always comes with a positive pid, and the result differs
    from the written one only for PID files whose pid is not positive.
   */
  lemma CheckedStatusRunningHasPositivePid(chdirOk: bool, pidFile: Option<seq<char>>, probe: KillResult)
    ensures CheckedStatusOf(chdirOk, pidFile, probe) == Running ==> ParsedPid(pidFile).Some? && ParsedPid(pidFile).value > 0
    ensures CheckedStatusOf(chdirOk, pidFile, probe) != StatusOf(chdirOk, pidFile, probe) ==>
      chdirOk && ParsedPid(pidFile).Some? && ParsedPid(pidFile).value <= 0
  {
  }

  // ---------------------------------------------------------------------------
  // vpn_start's argument vector (src/vpn.c:93-121)
  // ---------------------------------------------------------------------------

  /**
    The thirteen slots of vpn_start's `char *argv[]`; None is a NULL pointer. Outside
    daemon mode slot 9 is NULL.
   */
  function ArgvSlots(path: string, config: string, pidFile: string, asDaemon: int): (a: seq<Option<string>>)
    ensures |a| == 13
  {
    [Some(OPENVPN), Some("--cd"), Some(path), Some("--config"), Some(config),
     Some("--script-security"), Some("2"), Some("--writepid"), Some(pidFile),
     if asDaemon == DAEMON then Some("--daemon") else None,
     Some("--log"), Some(LOG_FILE), None]
  }

  /** What execv reads: the strings before the first NULL slot. */
  function UpToNull(a: seq<Option<string>>): seq<string>
  {
    if a == [] || a[0].None? then [] else [a[0].value] + UpToNull(a[1..])
  }

  /** The arguments openvpn actually receives. */
  function ExecArgv(path: string, config: string, pidFile: string, asDaemon: int): seq<string>
  {
    UpToNull(ArgvSlots(path, config, pidFile, asDaemon))
  }

  /** execv stops at the first NULL: everything listed before it, nothing after it. */
  lemma {:induction false} UpToNullStops(p: seq<Option<string>>, q: seq<Option<string>>)
    requires forall i :: 0 <= i < |p| ==> p[i].Some?
    ensures |UpToNull(p + [None] + q)| == |p|
    ensures forall i :: 0 <= i < |p| ==> UpToNull(p + [None] + q)[i] == p[i].value
  {
    if p != [] {
      assert (p + [None] + q)[1..] == p[1..] + [None] + q;
      UpToNullStops(p[1..], q);
    }
  }

  /**
    Outside daemon mode openvpn gets exactly nine arguments: the binary, --cd path,
    --config config, --script-security 2 and --writepid pidFile, and so never --log.
    In daemon mode the same nine are followed by --daemon --log openvpn.log.
   */
  lemma ExecArgvByMode(path: string, config: string, pidFile: string, asDaemon: int)
    ensures var fg := [OPENVPN, "--cd", path, "--config", config, "--script-security", "2", "--writepid", pidFile];
      && (asDaemon != DAEMON ==> ExecArgv(path, config, pidFile, asDaemon) == fg)
      && (asDaemon == DAEMON ==> ExecArgv(path, config, pidFile, asDaemon) == fg + ["--daemon", "--log", LOG_FILE])
  {
    var a := ArgvSlots(path, config, pidFile, asDaemon);
    var fg := [OPENVPN, "--cd", path, "--config", config, "--script-security", "2", "--writepid", pidFile];
    if asDaemon != DAEMON {
      UpToNullStops(a[..9], a[10..]);
      assert a[..9] + [None] + a[10..] == a;
    } else {
      UpToNullStops(a[..12], []);
      assert a[..12] + [None] + [] == a;
    }
  }

  // ---------------------------------------------------------------------------
  // Which actions a status allows
  // ---------------------------------------------------------------------------

  datatype Action = Start | Stop | Reload

  /** vpn_start refuses a Running instance; vpn_stop and vpn_reload refuse any other. */
  predicate Permits(st: Status, a: Action)
  {
    match a
    case Start => st != Running
    case Stop => st == Running
    case Reload => st == Running
  }

  /**
    From every status exactly one of start and stop is allowed, stop and reload are
    allowed together, and a successful stop (which leaves Dead) allows start again.
   */
  lemma PermitsPartition(st: Status)
    ensures Permits(st, Start) != Permits(st, Stop)
    ensures Permits(st, Stop) == Permits(st, Reload)
    ensures Permits(Dead, Start) && !Permits(Dead, Stop) && !Permits(Running, Start)
  {
  }

  /** The three ways vpn_start can end. */
  datatype Launch =
    | Refused                          // already running: return -1 before exec
    | ExecFailed(argv: seq<string>)    // execv returned: return -1
    | Replaced(argv: seq<string>)      // execv succeeded: the process is now openvpn

  // ---------------------------------------------------------------------------
  // struct vpn
  // ---------------------------------------------------------------------------

  class Vpn {
    var name: string
    var path: string
    var config: string
    var log: string
    var pidFile: string
    var status: Status
    var pid: int
    var next: Vpn?

    /** A freshly allocated struct vpn, before vpn_init fills it. */
    constructor ()
      ensures next == null
    {
      name, path, config, log, pidFile := "", "", "", "", "";
      status, pid, next := Error, 0, null;
    }

    /** The fields vpn_init assigns. */
    function Fields(): Descriptor
      reads this`name, this`path, this`config, this`log, this`pidFile
    {
      Descriptor(name, path, config, log, pidFile)
    }

    /**
      vpn_init: on success every path field is assigned and next is cleared; on any
      failure it returns -1 before touching the struct. The warning about several
      config files is printed only when glob matched more than two.
     */
    method Init(folder: string, name: string, env: InitEnv) returns (rc: int, warned: bool)
      modifies this
      ensures rc == 0 || rc == -1
      ensures rc == 0 <==> InitDescriptor(folder, name, env).Some?
      ensures rc == 0 ==> Fields() == InitDescriptor(folder, name, env).value && next == null
      ensures rc == 0 ==> status == old(status) && pid == old(pid)
      ensures rc == -1 ==> unchanged(this)
      ensures warned <==> rc == 0 && SeveralConfigsWarning(env.glob)
    {
      var path := Join(folder, name);
      if !env.present {
        return -1, false;
      }
      if !env.chdirOk {
        return -1, false;
      }
      var log := Join(path, LOG_FILE);
      match env.glob {
        case NoMatch =>
          return -1, false;
        case GlobFailed =>
          return -1, false;
        case Matched(first, _) =>
          warned := SeveralConfigsWarning(env.glob);
          var config := Join(path, first);
          this.pidFile := PidFilePath(name);
          this.name := name;
          this.path := path;
          this.log := log;
          this.config := config;
          this.next := null;
          rc := 0;
      }
    }

    /**
      vpn_status: derive the status, store it and return it. Only a delivered probe
      touches vpn->pid; `probed` is the pid passed to kill(pid, 0), if any.
     */
    method UpdateStatus(chdirOk: bool, pidFile: Option<seq<char>>, probe: KillResult) returns (r: Status, probed: Option<int>)
      modifies this`status, this`pid
      ensures r == status && status == StatusOf(chdirOk, pidFile, probe)
      ensures probed == (if chdirOk then ParsedPid(pidFile) else None)
      ensures pid == (if status == Running then ParsedPid(pidFile).value else old(pid))
    {
      probed := None;
      if !chdirOk {
        status := Error;
        return status, probed;
      }
      if pidFile.None? {
        status := Dead;
        return status, probed;
      }
      var got := Fgets(pidFile.value, FGETS_SIZE);
      if got.None? {
        status := Dead;
        return status, probed;
      }
      var raw := got.value;
      FgetsTakeShape(pidFile.value, FGETS_SIZE - 1);
      var line := new char[LINE_CAPACITY];
      forall i | 0 <= i < |raw| {
        line[i] := raw[i];
      }
      line[|raw|] := NUL;
      assert line[..] == raw + [NUL] + line[|raw| + 1..];
      CStrIgnoresTail(raw, line[|raw| + 1..]);
      Chomp(line);
      var p := Atoi(CStr(line[..]));
      probed := Some(p);
      match probe {
        case Delivered =>
          status := Running;
          pid := p;
        case Failed(errno) =>
          status := ProbeFailureStatus(errno);
      }
      r := status;
    }

    /**
      vpn_start: refuse a Running instance; otherwise exec openvpn with the fixed
      argument vector. Nothing in the struct changes.
     */
    method Start(asDaemon: int, execOk: bool) returns (launch: Launch)
      ensures launch.Refused? <==> !Permits(status, Action.Start)
      ensures Permits(status, Action.Start) ==>
        var argv := ExecArgv(path, config, pidFile, asDaemon);
        launch == (if execOk then Replaced(argv) else ExecFailed(argv))
    {
      var argv := UpToNull(ArgvSlots(path, config, pidFile, asDaemon));
      if status == Running {
        return Refused;
      }
      if !execOk {
        return ExecFailed(argv);
      }
      return Replaced(argv);
    }

    /**
      vpn_stop: refuse unless Running, without signalling; otherwise send SIGTERM to
      vpn->pid. Any kill failure returns -1 and keeps the status; success marks the
      instance Dead.
     */
    method Stop(kill: KillResult) returns (rc: int, sent: Option<Signal>)
      modifies this`status
      ensures sent.Some? <==> Permits(old(status), Action.Stop)
      ensures sent.Some? ==> sent.value == Signal(pid, SIGTERM)
      ensures rc == 0 <==> sent.Some? && kill.Delivered?
      ensures rc == 0 || rc == -1
      ensures status == (if rc == 0 then Dead else old(status))
    {
      if status != Running {
        return -1, None;
      }
      sent := Some(Signal(pid, SIGTERM));
      if kill.Failed? {
        return -1, sent;
      }
      status := Dead;
      rc := 0;
    }

    /**
      vpn_reload: refuse unless Running, without signalling; otherwise send SIGUSR1
      (signal 10) to vpn->pid. The status never changes.
     */
    method Reload(kill: KillResult) returns (rc: int, sent: Option<Signal>)
      ensures sent.Some? <==> Permits(status, Action.Reload)
      ensures sent.Some? ==> sent.value == Signal(pid, SIGUSR1)
      ensures rc == 0 <==> sent.Some? && kill.Delivered?
      ensures rc == 0 || rc == -1
    {
      if status != Running {
        return -1, None;
      }
      sent := Some(Signal(pid, SIGUSR1));
      if kill.Failed? {
        return -1, sent;
      }
      rc := 0;
    }
  }

  /**
    What a garbage PID file leads to: vpn_status reports Running with pid -1, and
    vpn_stop then sends SIGTERM to pid -1, that is to every process it may signal.
   */
  method StopAfterNegativePidFile() returns (st: Status, sent: Option<Signal>)
    ensures st == Running && sent == Some(Signal(-1, SIGTERM))
  {
    var v := new Vpn();
    MinusOnePidReadsRunning();
    var probed;
    st, probed := v.UpdateStatus(true, Some("-1\n"), Delivered);
    var rc;
    rc, sent := v.Stop(Delivered);
  }
}
