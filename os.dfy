/**
  What the operating system reports to the instance manager. Every system call the
  manager makes (kill, fopen/fgets, readdir, access, chdir, glob, execv, unlink) is
  replaced by an outcome that the caller of the model supplies.
 */
module Os {

  /** Linux errno values the manager distinguishes after a failed kill(2). */
  const EPERM: int := 1
  const ESRCH: int := 3

  /** Signal numbers used by the manager: the existence probe, termination and reload. */
  const PROBE_SIGNAL: int := 0
  const SIGUSR1: int := 10
  const SIGTERM: int := 15

  /** The outcome of one kill(pid, sig) call. */
  datatype KillResult = Delivered | Failed(errno: int)

  /** A kill(pid, sig) request the manager issued. */
  datatype Signal = Signal(pid: int, sig: int)

  /**
    The outcome of glob("*.conf") in the current directory: a non-empty list of
    matches in the order glob returns them, GLOB_NOMATCH, or any other failure.
   */
  datatype Glob = Matched(first: string, rest: seq<string>) | NoMatch | GlobFailed
  {
    /** gl_pathc after a successful glob. */
    function Count(): (n: nat)
      requires Matched?
      ensures n >= 1
    {
      1 + |rest|
    }
  }

  /**
    What the file system says about one candidate instance directory folder/name:
    whether access(F_OK) succeeds, whether chdir succeeds, and what glob finds there.
   */
  datatype InitEnv = InitEnv(present: bool, chdirOk: bool, glob: Glob)

  /**
    One readdir entry of the root folder: its d_name, whether d_type is DT_DIR, and
    what the file system says about the directory root/d_name.
   */
  datatype DirEntry = DirEntry(name: string, isDir: bool, env: InitEnv)

  /** Entries both listings skip: "." and "..", and anything that is not a directory. */
  predicate IsInstanceDir(e: DirEntry)
  {
    e.name != "." && e.name != ".." && e.isDir
  }

  datatype Option<+T> = None | Some(value: T)
}

/**
  Which matching *.conf file an instance uses, and when the manager warns that there
  are several (src/vpn.c:281-285, src/runvpn.c:165-172).
 */
module ConfigChoice {
  import opened Os

  /** The warning as written: only when gl_pathc > 2. */
  predicate SeveralConfigsWarning(g: Glob)
  {
    g.Matched? && g.Count() > 2
  }

  /** With exactly two .conf files the code picks one and says nothing. */
  lemma TwoConfigsGoUnwarned()
    ensures var g := Matched("a.conf", ["b.conf"]); g.Count() == 2 && !SeveralConfigsWarning(g)
  {
  }

  /** The warning as evidently intended: whenever glob matched more than one file. */
  predicate AmbiguousConfig(g: Glob)
  {
    g.Matched? && g.Count() > 1
  }

  /**
    The corrected warning fires exactly when some match is ignored; the written one
    misses the two-file case and agrees everywhere else.
   */
  lemma AmbiguousConfigIffMatchIgnored(g: Glob)
    ensures AmbiguousConfig(g) <==> g.Matched? && g.rest != []
    ensures SeveralConfigsWarning(g) ==> AmbiguousConfig(g)
    ensures AmbiguousConfig(g) && !SeveralConfigsWarning(g) <==> g.Matched? && |g.rest| == 1
  {
  }
}
