/**
  The second lineage of the instance manager (src/runvpn.c with the constants of
  src/runvpn.h): statuses are plain integers 1..4 with no error status, PID files live
  inside each instance directory, the instance list is built by prepending, and
  vpn_status ends the process when it cannot enter the instance directory.
 */
module RunVpn {
  import opened Os
  import opened CStrings
  import opened ConfigChoice
  import VpnLib

  const PID_FILE: string := "openvpn.pid"

  /** The #define statuses. */
  const VPN_RUNNING: int := 1
  const VPN_DEAD: int := 2
  const VPN_PERM_DENIED: int := 3
  const VPN_STALE_PID: int := 4

  /** A call either returns a value or ends the process with exit(EXIT_FAILURE). */
  datatype Outcome<T> = Exited | Returned(value: T)

  // ---------------------------------------------------------------------------
  // vpn_status (src/runvpn.c:189-220)
  // ---------------------------------------------------------------------------

  /**
    vpn_status: chdir into the instance directory or exit, read the first line of
    openvpn.pid (the same fgets/chomp/atoi reading as the other lineage) and probe the
    pid it names with kill(pid, 0). Only ESRCH and EPERM count as failures of the
    probe; any other errno falls through to VPN_RUNNING.
   */
  function StatusOf(chdirOk: bool, pidFile: Option<seq<char>>, probe: KillResult): (r: Outcome<int>)
    ensures r.Returned? ==> VPN_RUNNING <= r.value <= VPN_STALE_PID
  {
    if !chdirOk then Exited
    else if VpnLib.PidLine(pidFile).None? then Returned(VPN_DEAD)
    else match probe
      case Delivered => Returned(VPN_RUNNING)
      case Failed(errno) =>
        if errno == ESRCH then Returned(VPN_STALE_PID)
        else if errno == EPERM then Returned(VPN_PERM_DENIED)
        else Returned(VPN_RUNNING)
  }

  /**
    The decision table: exit exactly when chdir fails; DEAD exactly when there is no
    PID file or it is empty; STALE_PID and PERM_DENIED exactly on ESRCH and EPERM from
    the probe; RUNNING whenever a line was read and the probe did not fail with one of
    those two.
   */
  lemma StatusTable(chdirOk: bool, pidFile: Option<seq<char>>, probe: KillResult)
    ensures var r := StatusOf(chdirOk, pidFile, probe);
      var probed := chdirOk && pidFile.Some? && pidFile.value != [];
      && (r.Exited? <==> !chdirOk)
      && (r == Returned(VPN_DEAD) <==> chdirOk && (pidFile.None? || pidFile.value == []))
      && (r == Returned(VPN_STALE_PID) <==> probed && probe == Failed(ESRCH))
      && (r == Returned(VPN_PERM_DENIED) <==> probed && probe == Failed(EPERM))
      && (r == Returned(VPN_RUNNING) <==> probed && probe != Failed(ESRCH) && probe != Failed(EPERM))
  {
    VpnLib.StatusTable(chdirOk, pidFile, probe);
  }

  /**
    The two lineages against each other: they agree on every outcome the enum and the
    #defines share, and they part ways in two places. A failed chdir is VPN_ERROR
    there and the end of the process here; a probe failing with any errno other than
    ESRCH or EPERM is VPN_ERROR there and VPN_RUNNING here.
   */
  lemma LineagesDisagreeOnlyOnErrors(chdirOk: bool, pidFile: Option<seq<char>>, probe: KillResult)
    ensures var st := VpnLib.StatusOf(chdirOk, pidFile, probe);
      && (!chdirOk ==> st == VpnLib.Error && StatusOf(chdirOk, pidFile, probe) == Exited)
      && (st != VpnLib.Error ==> StatusOf(chdirOk, pidFile, probe) == Returned(VpnLib.StatusCode(st)))
      && (chdirOk && st == VpnLib.Error ==>
            probe.Failed? && probe.errno != ESRCH && probe.errno != EPERM
            && StatusOf(chdirOk, pidFile, probe) == Returned(VPN_RUNNING))
  {
  }

  // ---------------------------------------------------------------------------
  // The status switch of list mode (src/runvpn.c:36-53)
  // ---------------------------------------------------------------------------

  /** What list mode prints for one status, and whether it also deletes the PID file. */
  datatype ListAction = ListAction(text: string, deletesPidFile: bool)

  function Label(status: int): ListAction
  {
    if status == VPN_DEAD then ListAction("Down", false)
    else if status == VPN_RUNNING then ListAction("Up", false)
    else if status == VPN_PERM_DENIED then ListAction("Permission denied", false)
    else if status == VPN_STALE_PID then ListAction("Down", true)
    else ListAction("Unknown", false)
  }

  /**
    The switch: "Down" for a dead instance and for a stale PID file, "Up" only for a
    running one, "Permission denied" only for EPERM, "Unknown" for every value outside
    the four #defines; only a stale PID file is deleted.
   */
  lemma LabelTable(status: int)
    ensures Label(status).text == "Unknown" <==> !(VPN_RUNNING <= status <= VPN_STALE_PID)
    ensures Label(status).text == "Down" <==> status == VPN_DEAD || status == VPN_STALE_PID
    ensures Label(status).text == "Up" <==> status == VPN_RUNNING
    ensures Label(status).text == "Permission denied" <==> status == VPN_PERM_DENIED
    ensures Label(status).deletesPidFile <==> status == VPN_STALE_PID
  {
  }

  /** vpn_status never returns a value the switch does not list, so "Unknown" is never printed. */
  lemma StatusNeverUnknown(chdirOk: bool, pidFile: Option<seq<char>>, probe: KillResult)
    ensures StatusOf(chdirOk, pidFile, probe).Returned? ==>
      Label(StatusOf(chdirOk, pidFile, probe).value).text != "Unknown"
  {
    if StatusOf(chdirOk, pidFile, probe).Returned? {
      LabelTable(StatusOf(chdirOk, pidFile, probe).value);
    }
  }

  // ---------------------------------------------------------------------------
  // struct vpn and get_vpns (src/runvpn.c:99-140)
  // ---------------------------------------------------------------------------

  /** The name and path of a listed instance. */
  datatype Listing = Listing(name: string, path: string)

  /** The listing get_vpns makes for one selected directory entry of root. */
  function ListingOf(root: string, e: DirEntry): Listing
  {
    Listing(e.name, Join(root, e.name))
  }

  /**
    The listings of the subdirectories of root in readdir order (".", ".." and
    non-directories skipped).
   */
  function Selected(root: string, es: seq<DirEntry>): (r: seq<Listing>)
    ensures |r| <= |es|
  {
    if es == [] then []
    else
      var rest := Selected(root, es[..|es| - 1]);
      var e := es[|es| - 1];
      if IsInstanceDir(e) then rest + [ListingOf(root, e)] else rest
  }

  /** Exactly the instance directories of es are selected, and each listing is root/name. */
  lemma {:induction false} SelectedMembers(root: string, es: seq<DirEntry>)
    ensures forall l :: l in Selected(root, es) <==> exists e :: e in es && IsInstanceDir(e) && l == ListingOf(root, e)
    ensures Selected(root, es) == [] <==> forall e :: e in es ==> !IsInstanceDir(e)
  {
    if es != [] {
      var init := es[..|es| - 1];
      SelectedMembers(root, init);
      assert es == init + [es[|es| - 1]];
      forall l
        ensures l in Selected(root, es) <==> exists e :: e in es && IsInstanceDir(e) && l == ListingOf(root, e)
      {
        if l in Selected(root, es) && l !in Selected(root, init) {
          assert IsInstanceDir(es[|es| - 1]) && l == ListingOf(root, es[|es| - 1]);
        }
        if l in Selected(root, init) {
          var e :| e in init && IsInstanceDir(e) && l == ListingOf(root, e);
          assert e in es;
        }
      }
      if IsInstanceDir(es[|es| - 1]) {
        assert ListingOf(root, es[|es| - 1]) in Selected(root, es);
      }
    }
  }

  /** Reading one more entry adds its listing exactly when it is an instance directory. */
  lemma SelectedStep(root: string, es: seq<DirEntry>, i: nat)
    requires i < |es|
    ensures Selected(root, es[..i + 1]) ==
      Selected(root, es[..i]) + (if IsInstanceDir(es[i]) then [ListingOf(root, es[i])] else [])
  {
    assert es[..i + 1][..i] == es[..i];
  }

  class Vpn {
    var name: string
    var path: string
    var config: Option<string>
    var next: Vpn?

    /** A struct vpn before any field is filled; config stays unset in list mode. */
    constructor ()
      ensures next == null && config == None
    {
      name, path, config, next := "", "", None, null;
    }

    function Entry(): Listing
      reads this`name, this`path
    {
      Listing(name, path)
    }

    /**
      get_vpn(root, name, vpn): -1 when root/name does not exist, leaving the struct
      alone; otherwise name and path are set, a failed chdir is only reported, and the
      first *.conf match becomes config. No match, or a glob failure, ends the process.
      The several-files warning is printed only for more than two matches.
     */
    method Get(root: string, name: string, env: InitEnv) returns (r: Outcome<int>, warned: bool)
      modifies this`name, this`path, this`config
      ensures r == (match Lookup(root, name, env) case Exited => Exited case Returned(f) => Returned(if f.None? then -1 else 0))
      ensures r == Returned(0) ==> config.Some? && Lookup(root, name, env) == Returned(Some(Found(this.name, path, config.value)))
      ensures r == Returned(-1) ==> unchanged(this)
      ensures warned <==> r == Returned(0) && SeveralConfigsWarning(env.glob)
    {
      var p := Join(root, name);
      warned := false;
      if !env.present {
        return Returned(-1), warned;
      }
      this.name := name;
      this.path := p;
      match env.glob {
        case Matched(first, _) =>
          warned := SeveralConfigsWarning(env.glob);
          this.config := Some(Join(this.path, first));
          r := Returned(0);
        case NoMatch =>
          r := Exited;
        case GlobFailed =>
          r := Exited;
      }
    }

    /**
      delete_pid_file: unlink path/openvpn.pid and return 0 whatever unlink reports
      (unlinkOk is that report; a failure is only printed).
     */
    method DeletePidFile(unlinkOk: bool) returns (rc: int, target: string)
      ensures rc == 0
      ensures target == PidFileOf(path)
    {
      target := Join(path, PID_FILE);
      rc := 0;
    }
  }

  /** The PID file of the instance in directory path. */
  function PidFileOf(path: string): (f: string)
    ensures |f| == |path| + 1 + |PID_FILE|
  {
    Join(path, PID_FILE)
  }

  /** The PID file lies directly inside the instance directory, and each directory has its own. */
  lemma PidFileOfInside(path: string, other: string)
    ensures PidFileOf(path)[..|path| + 1] == path + "/"
    ensures PidFileOf(path)[|path| + 1..] == PID_FILE
    ensures PidFileOf(path) == PidFileOf(other) <==> path == other
  {
    assert PidFileOf(path)[|path| + 1..] == PID_FILE;
    if PidFileOf(path) == PidFileOf(other) {
      assert |path| == |other|;
      assert path == PidFileOf(path)[..|path|] == PidFileOf(other)[..|other|] == other;
    }
  }

  /** A singly linked list from head through exactly the nodes in nodes, in order. */
  ghost predicate IsList(head: Vpn?, nodes: seq<Vpn>)
    reads nodes
  {
    && (head == null <==> nodes == [])
    && (nodes != [] ==> head == nodes[0] && nodes[|nodes| - 1].next == null)
    && (forall i :: 0 <= i < |nodes| - 1 ==> nodes[i].next == nodes[i + 1])
    && (forall i, j :: 0 <= i < j < |nodes| ==> nodes[i] != nodes[j])
  }

  /**
    One iteration of get_vpns on a subdirectory: a fresh node for listing l, linked in
    front of next. If the list held the listings of sel from the last one read to the
    first, it now holds those of sel + [l] in the same reversed order.
   */
  method Prepend(next: Vpn?, ghost nodes: seq<Vpn>, ghost sel: seq<Listing>, l: Listing) returns (current: Vpn, ghost newNodes: seq<Vpn>)
    requires IsList(next, nodes) && |nodes| == |sel|
    requires forall m :: 0 <= m < |nodes| ==> nodes[m].Entry() == sel[|nodes| - 1 - m]
    ensures fresh(current) && newNodes == [current] + nodes
    ensures IsList(current, newNodes)
    ensures forall m :: 0 <= m < |newNodes| ==> newNodes[m].Entry() == (sel + [l])[|newNodes| - 1 - m]
  {
    current := new Vpn();
    current.name := l.name;
    current.path := l.path;
    current.next := null;
    if next != null {
      current.next := next;
    }
    newNodes := [current] + nodes;
    forall m | 0 <= m < |newNodes|
      ensures newNodes[m].Entry() == (sel + [l])[|newNodes| - 1 - m]
    {
      if m > 0 {
        assert newNodes[m] == nodes[m - 1];
      }
    }
  }

  /**
    The body of get_vpns's loop for one directory entry: skip "." and "..", and put a
    new node in front of next for a directory. current is left alone otherwise.
   */
  method Visit(root: string, e: DirEntry, next: Vpn?, ghost nodes: seq<Vpn>, ghost sel: seq<Listing>)
    returns (current: Vpn?, ghost newNodes: seq<Vpn>, ghost newSel: seq<Listing>)
    requires IsList(next, nodes) && |nodes| == |sel|
    requires forall m :: 0 <= m < |nodes| ==> nodes[m].Entry() == sel[|nodes| - 1 - m]
    ensures newSel == sel + (if IsInstanceDir(e) then [ListingOf(root, e)] else [])
    ensures IsList(current, newNodes) && |newNodes| == |newSel|
    ensures forall m :: 0 <= m < |newNodes| ==> newNodes[m].Entry() == newSel[|newNodes| - 1 - m]
    ensures newNodes == nodes || (current != null && fresh(current) && newNodes == [current] + nodes)
  {
    current, newNodes, newSel := next, nodes, sel;
    if e.name == "." || e.name == ".." {
      return;
    }
    if e.isDir {
      current, newNodes := Prepend(next, nodes, sel, ListingOf(root, e));
      newSel := sel + [ListingOf(root, e)];
    }
  }

  /**
    get_vpns(root): exit when root cannot be opened; otherwise allocate a node for every
    subdirectory other than "." and "..", in readdir order, and put it in front of the
    list built so far. The list is therefore the reverse of the read order, and it is
    null when root holds no subdirectory.
   */
  method GetVpns(root: string, rootOpens: bool, entries: seq<DirEntry>) returns (exited: bool, head: Vpn?, ghost nodes: seq<Vpn>)
    ensures exited <==> !rootOpens
    ensures !exited ==> IsList(head, nodes)
    ensures !exited ==> |nodes| == |Selected(root, entries)|
    ensures !exited ==> forall m :: 0 <= m < |nodes| ==> nodes[m].Entry() == Selected(root, entries)[|nodes| - 1 - m]
    ensures !exited ==> forall m :: 0 <= m < |nodes| ==> fresh(nodes[m])
  {
    nodes := [];
    head := null;
    if !rootOpens {
      return true, null, nodes;
    }
    exited := false;
    var current: Vpn? := null;
    var next: Vpn? := null;
    var i := 0;
    ghost var sel: seq<Listing> := [];
    while i < |entries|
      invariant 0 <= i <= |entries|
      invariant current == next
      invariant sel == Selected(root, entries[..i])
      invariant IsList(next, nodes) && |nodes| == |sel|
      invariant forall m :: 0 <= m < |nodes| ==> nodes[m].Entry() == sel[|nodes| - 1 - m]
      invariant forall m :: 0 <= m < |nodes| ==> fresh(nodes[m])
    {
      SelectedStep(root, entries, i);
      current, nodes, sel := Visit(root, entries[i], next, nodes, sel);
      next := current;
      i := i + 1;
    }
    assert entries[..i] == entries;
    head := current;
  }

  // ---------------------------------------------------------------------------
  // get_vpn (src/runvpn.c:142-187)
  // ---------------------------------------------------------------------------

  /** The fields get_vpn fills when it returns 0. */
  datatype Found = Found(name: string, path: string, config: string)

  /**
    What get_vpn does: Returned(None) for -1, Returned(Some(f)) for 0 with the fields
    it set, Exited when glob finds nothing or fails.
   */
  function Lookup(root: string, name: string, env: InitEnv): Outcome<Option<Found>>
  {
    if !env.present then Returned(None)
    else if !env.glob.Matched? then Exited
    else
      var path := Join(root, name);
      Returned(Some(Found(name, path, Join(path, env.glob.first))))
  }

  /**
    get_vpn against vpn_init of the other lineage: both fail on a missing directory
    (-1 and -1); where vpn_init succeeds get_vpn finds the same path and config; but
    get_vpn ignores a failed chdir and still succeeds, and it ends the process where
    vpn_init returns -1 for a missing or failed glob.
   */
  lemma LookupVersusInit(root: string, name: string, env: InitEnv)
    ensures Lookup(root, name, env) == Returned(None) <==> VpnLib.InitDescriptor(root, name, env).None? && !env.present
    ensures Lookup(root, name, env).Exited? <==> env.present && VpnLib.InitDescriptor(root, name, env).None? && !env.glob.Matched?
    ensures VpnLib.InitDescriptor(root, name, env).Some? ==>
      var d := VpnLib.InitDescriptor(root, name, env).value;
      Lookup(root, name, env) == Returned(Some(Found(d.name, d.path, d.config)))
    ensures Lookup(root, name, env).Returned? && Lookup(root, name, env).value.Some? && VpnLib.InitDescriptor(root, name, env).None?
      <==> env.present && !env.chdirOk && env.glob.Matched?
  {
  }

  /** On success the instance is root/name and its config is the first match inside it. */
  lemma LookupFields(root: string, name: string, env: InitEnv)
    ensures Lookup(root, name, env).Returned? && Lookup(root, name, env).value.Some? ==>
      var f := Lookup(root, name, env).value.value;
      && f.name == name
      && f.path == root + "/" + name
      && f.config[..|f.path| + 1] == f.path + "/" && f.config[|f.path| + 1..] == env.glob.first
  {
    if Lookup(root, name, env).Returned? && Lookup(root, name, env).value.Some? {
      var f := Lookup(root, name, env).value.value;
      JoinInjective(f.path, env.glob.first, env.glob.first);
      assert f.config[|f.path| + 1..] == env.glob.first;
    }
  }

  // ---------------------------------------------------------------------------
  // List mode of main (src/runvpn.c:27-56)
  // ---------------------------------------------------------------------------

  /** What the system reports while list mode looks at one instance. */
  datatype Observation = Observation(chdirOk: bool, pidFile: Option<seq<char>>, probe: KillResult, unlinkOk: bool)

  /** One printed line of the listing: the instance name and its label. */
  datatype Row = Row(name: string, text: string)

  /** The printed rows, the PID files unlinked, and whether vpn_status ended the process. */
  datatype Report = Report(rows: seq<Row>, deleted: seq<string>, exited: bool)

  /** vpn_status on what the system reports for one instance. */
  function Classify(o: Observation): Outcome<int>
  {
    StatusOf(o.chdirOk, o.pidFile, o.probe)
  }

  /** List mode over the listed instances, in list order, up to the first exit. */
  function ReportOf(ls: seq<Listing>, obs: seq<Observation>): Report
    requires |ls| == |obs|
  {
    if ls == [] then Report([], [], false)
    else
      var r := ReportOf(ls[..|ls| - 1], obs[..|obs| - 1]);
      var l := ls[|ls| - 1];
      var o := obs[|obs| - 1];
      if r.exited then r
      else match Classify(o)
        case Exited => r.(exited := true)
        case Returned(st) =>
          var a := Label(st);
          Report(r.rows + [Row(l.name, a.text)], r.deleted + (if a.deletesPidFile then [PidFileOf(l.path)] else []), false)
  }

  /**
    The reference for deletion: the PID files of the instances whose status is
    VPN_STALE_PID, in list order.
   */
  function StaleFiles(ls: seq<Listing>, obs: seq<Observation>): (fs: seq<string>)
    requires |ls| == |obs|
    ensures |fs| <= |ls|
  {
    if ls == [] then []
    else
      StaleFiles(ls[..|ls| - 1], obs[..|obs| - 1])
        + (if Classify(obs[|obs| - 1]) == Returned(VPN_STALE_PID) then [PidFileOf(ls[|ls| - 1].path)] else [])
  }

  /**
    What list mode reports. Row m is printed for instance m, with its name and the label
    of its status, which is never "Unknown". Rows stop only where vpn_status ends the
    process, at the first instance without a row. The deleted PID files are exactly
    those of the printed instances whose status is VPN_STALE_PID, in list order, so at
    most one per row.
   */
  lemma ReportShape(ls: seq<Listing>, obs: seq<Observation>)
    requires |ls| == |obs|
    ensures var r := ReportOf(ls, obs);
      && |r.deleted| <= |r.rows| <= |ls|
      && (!r.exited ==> |r.rows| == |ls|)
      && (r.exited ==> |r.rows| < |ls| && Classify(obs[|r.rows|]).Exited?)
      && (forall m :: 0 <= m < |r.rows| ==>
            && Classify(obs[m]).Returned?
            && r.rows[m] == Row(ls[m].name, Label(Classify(obs[m]).value).text)
            && r.rows[m].text != "Unknown")
      && r.deleted == StaleFiles(ls[..|r.rows|], obs[..|r.rows|])
  {
    ReportRows(ls, obs);
    ReportDeletes(ls, obs);
  }

  /** The rows part of ReportShape. */
  lemma {:induction false} ReportRows(ls: seq<Listing>, obs: seq<Observation>)
    requires |ls| == |obs|
    ensures var r := ReportOf(ls, obs);
      && |r.rows| <= |ls|
      && (!r.exited ==> |r.rows| == |ls|)
      && (r.exited ==> |r.rows| < |ls| && Classify(obs[|r.rows|]).Exited?)
      && (forall m :: 0 <= m < |r.rows| ==>
            && Classify(obs[m]).Returned?
            && r.rows[m] == Row(ls[m].name, Label(Classify(obs[m]).value).text)
            && r.rows[m].text != "Unknown")
  {
    if ls != [] {
      var ls', obs' := ls[..|ls| - 1], obs[..|obs| - 1];
      ReportRows(ls', obs');
      var r' := ReportOf(ls', obs');
      var o := obs[|obs| - 1];
      forall m | 0 <= m < |r'.rows|
        ensures ls[m] == ls'[m] && obs[m] == obs'[m]
      {
      }
      if !r'.exited && Classify(o).Returned? {
        StatusNeverUnknown(o.chdirOk, o.pidFile, o.probe);
      }
    }
  }

  /** The deletions part of ReportShape. */
  lemma {:induction false} ReportDeletes(ls: seq<Listing>, obs: seq<Observation>)
    requires |ls| == |obs|
    ensures var r := ReportOf(ls, obs);
      |r.rows| <= |ls| && r.deleted == StaleFiles(ls[..|r.rows|], obs[..|r.rows|])
  {
    if ls != [] {
      var ls', obs' := ls[..|ls| - 1], obs[..|obs| - 1];
      ReportDeletes(ls', obs');
      var r' := ReportOf(ls', obs');
      if r'.exited || Classify(obs[|obs| - 1]).Exited? {
        DeletesWhenNoRow(ls, obs);
      } else {
        ReportRows(ls', obs');
        DeletesWhenRow(ls, obs);
      }
    }
  }

  /** The last instance gets no row: the deletions stay those of the earlier rows. */
  lemma DeletesWhenNoRow(ls: seq<Listing>, obs: seq<Observation>)
    requires |ls| == |obs| && ls != []
    requires var r' := ReportOf(ls[..|ls| - 1], obs[..|obs| - 1]);
      && (r'.exited || Classify(obs[|obs| - 1]).Exited?)
      && |r'.rows| <= |ls| - 1
      && r'.deleted == StaleFiles(ls[..|ls| - 1][..|r'.rows|], obs[..|obs| - 1][..|r'.rows|])
    ensures var r := ReportOf(ls, obs);
      |r.rows| <= |ls| && r.deleted == StaleFiles(ls[..|r.rows|], obs[..|r.rows|])
  {
    var n := |ReportOf(ls[..|ls| - 1], obs[..|obs| - 1]).rows|;
    assert ls[..|ls| - 1][..n] == ls[..n] && obs[..|obs| - 1][..n] == obs[..n];
  }

  /** The last instance gets a row: its PID file is deleted exactly when its status is VPN_STALE_PID. */
  lemma DeletesWhenRow(ls: seq<Listing>, obs: seq<Observation>)
    requires |ls| == |obs| && ls != []
    requires var r' := ReportOf(ls[..|ls| - 1], obs[..|obs| - 1]);
      && !r'.exited && Classify(obs[|obs| - 1]).Returned?
      && |r'.rows| == |ls| - 1
      && r'.deleted == StaleFiles(ls[..|ls| - 1][..|r'.rows|], obs[..|obs| - 1][..|r'.rows|])
    ensures var r := ReportOf(ls, obs);
      |r.rows| <= |ls| && r.deleted == StaleFiles(ls[..|r.rows|], obs[..|r.rows|])
  {
    var ls', obs' := ls[..|ls| - 1], obs[..|obs| - 1];
    LabelTable(Classify(obs[|obs| - 1]).value);
    assert ls'[..|ls'|] == ls' && obs'[..|obs'|] == obs';
    assert ls[..|ls|] == ls && obs[..|obs|] == obs;
  }

  /** The name and path of every node, in list order. */
  ghost function Entries(nodes: seq<Vpn>): (ls: seq<Listing>)
    reads nodes
    ensures |ls| == |nodes| && forall m :: 0 <= m < |nodes| ==> ls[m] == nodes[m].Entry()
  {
    seq(|nodes|, m requires 0 <= m < |nodes| reads nodes => nodes[m].Entry())
  }

  /**
    The list-mode loop: for each node, classify it, print its row and delete its PID
    file when the status is VPN_STALE_PID; stop at the first vpn_status that exits.
   */
  method ListMode(head: Vpn?, ghost nodes: seq<Vpn>, obs: seq<Observation>) returns (r: Report)
    requires IsList(head, nodes) && |obs| == |nodes|
    ensures r == ReportOf(Entries(nodes), obs)
  {
    ghost var ls := Entries(nodes);
    var vpn := head;
    var i := 0;
    r := Report([], [], false);
    while vpn != null
      invariant 0 <= i <= |nodes|
      invariant vpn == (if i < |nodes| then nodes[i] else null)
      invariant r == ReportOf(ls[..i], obs[..i]) && !r.exited
      decreases |nodes| - i
    {
      var o := obs[i];
      ReportStep(ls, obs, i);
      var status := StatusOf(o.chdirOk, o.pidFile, o.probe);
      if status.Exited? {
        r := r.(exited := true);
        ReportStaysExited(ls, obs, i + 1);
        return;
      }
      var a := Label(status.value);
      var deleted := r.deleted;
      if a.deletesPidFile {
        var _, target := vpn.DeletePidFile(o.unlinkOk);
        deleted := deleted + [target];
      }
      r := Report(r.rows + [Row(vpn.name, a.text)], deleted, false);
      vpn := vpn.next;
      i := i + 1;
    }
    assert ls[..i] == ls && obs[..i] == obs;
  }

  /** One more node extends the report by exactly that node's row, deletion or exit. */
  lemma ReportStep(ls: seq<Listing>, obs: seq<Observation>, i: nat)
    requires |ls| == |obs| && i < |ls|
    ensures var r := ReportOf(ls[..i], obs[..i]);
      var o := obs[i];
      ReportOf(ls[..i + 1], obs[..i + 1]) ==
        if r.exited then r
        else match StatusOf(o.chdirOk, o.pidFile, o.probe)
          case Exited => r.(exited := true)
          case Returned(st) =>
            Report(r.rows + [Row(ls[i].name, Label(st).text)],
                   r.deleted + (if Label(st).deletesPidFile then [PidFileOf(ls[i].path)] else []), false)
  {
    assert ls[..i + 1][..i] == ls[..i] && obs[..i + 1][..i] == obs[..i];
    assert ls[..i + 1][i] == ls[i] && obs[..i + 1][i] == obs[i];
  }

  /** Once the process has ended, the rest of the list changes nothing. */
  lemma {:induction false} ReportStaysExited(ls: seq<Listing>, obs: seq<Observation>, k: nat)
    requires |ls| == |obs| && k <= |ls|
    requires ReportOf(ls[..k], obs[..k]).exited
    ensures ReportOf(ls, obs) == ReportOf(ls[..k], obs[..k])
  {
    if k < |ls| {
      assert ls[..|ls| - 1][..k] == ls[..k] && obs[..|obs| - 1][..k] == obs[..k];
      ReportStaysExited(ls[..|ls| - 1], obs[..|obs| - 1], k);
      assert ls[..|ls| - 1][..k] == ls[..k] && obs[..|obs| - 1][..k] == obs[..k];
    } else {
      assert ls[..k] == ls && obs[..k] == obs;
    }
  }
}
