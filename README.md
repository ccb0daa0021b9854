# runvpn instance manager, modelled in Dafny

runvpn manages OpenVPN instances. Each instance lives in its own subdirectory of a root
folder, holds a `*.conf` file and is tracked through a PID file. The program lists the
instances with their status and starts, stops and reloads them. The repository holds two
lineages of the same logic, and this model keeps them apart:

- the library lineage, `src/vpn.c` with the constants of `code/runvpn.h`. Its
  `enum vpn_status` includes `VPN_ERROR`. Its PID files live in `/var/run/<name>.runvpn.pid`.
  Its `get_vpns` keeps the instance list sorted by name under `strcasecmp`. Modules
  `VpnLib` (`vpn_lib.dfy`) and `VpnDiscovery` (`vpn_discovery.dfy`) model it.
- the command-line lineage, `src/runvpn.c` with the constants of `src/runvpn.h`. Its
  statuses are the `#define`s 1..4 with no error status. Its PID file is
  `<path>/openvpn.pid`. Its `get_vpns` prepends each instance to its list. Module
  `RunVpn` (`runvpn.dfy`) models it.

Shared pieces sit in `Os` and `ConfigChoice` (`os.dfy`) and `CStrings` (`cstrings.dfy`):
- what the operating system reports,
- the choice of config file,
- the NUL-terminated view of a buffer, `chomp`, `fgets`, `atoi`, `strcasecmp` with ASCII
  case folding, and the `"%s/%s"` path join.

Every system call is an input the caller supplies:
- `kill` gives a `KillResult`: delivered, or failed with an errno.
- `fopen`/`fgets` on the PID file gives the file content, or `None` when it cannot be opened.
- `readdir` gives a sequence of `DirEntry`.
- `access`, `chdir` and `glob` in an instance directory give an `InitEnv`.
- `execv` and `unlink` give a success flag.

A process-ending `exit(EXIT_FAILURE)` is the `Exited` outcome, or an `exited` result flag.

`struct vpn` of each lineage is a class. Its fields are the fields the C code assigns.
Methods that write them carry `modifies` clauses. The linked lists are real `next`
pointers, which the methods rewire. A ghost sequence of nodes (`IsList`) describes each
list.

The model follows the code in these places:
- `vpn_start` refuses only a Running instance. It does not refuse a PermDenied or Error
  instance.
- Neither lineage checks that the parsed pid is positive.
- `vpn_stop` only logs an EPERM failure. It returns -1 like every other failure.
- `get_vpn` in `src/runvpn.c` ignores a failed `chdir`.

## Model

| member | source | states |
|---|---|---|
| CStrings.Chomp | src/vpn.c:28-35 | chomp (corrected for the empty string) leaves the C string equal to its old value with one trailing newline removed, and changes no other buffer cell |
| CStrings.ChompAsWritten | src/runvpn.c:222-228 | chomp as written has the same effect (one trailing newline removed from the C string, no other buffer cell changed), but its precondition is a non-empty string, because it reads `string[length - 1]` unguarded |
| CStrings.ChompedDropsAtMostNewline | src/vpn.c:31-34 | the chomped string is a prefix of the input, at most one character shorter, and shorter exactly when the last character is a newline |
| CStrings.ChompedInvertsNewline | src/runvpn.c:225-227 | chomp removes an appended newline and leaves a string without a trailing newline unchanged |
| CStrings.CStrOfTerminated | src/vpn.c:31 | in a terminated buffer strlen finds the first NUL, and the C string is the prefix before it |
| CStrings.CStrIgnoresTail | src/vpn.c:57 | characters after a terminator never reach the C string |
| CStrings.NulLeadingLineIsEmpty | src/vpn.c:57-61 | fgets keeps a leading NUL, so the line's strlen is 0 and chomp reads before the buffer |
| CStrings.Fgets | src/vpn.c:57 | fgets yields a line exactly when the file is not empty, and the line holds at least one character |
| CStrings.FgetsTakeShape | src/vpn.c:57 | fgets stores at most n-1 characters, a prefix of the file, with no newline before its last character |
| CStrings.FgetsTakeLine | src/runvpn.c:205 | a short first line is read through its newline and no further |
| CStrings.FgetsTakeLong | src/runvpn.c:205 | a long first line is cut after n-1 characters |
| CStrings.AtoiOfShortLine | src/vpn.c:62 | atoi of at most nine characters lies between -99999999 and 999999999, so it fits an int |
| CStrings.AtoiOfDecimal | src/runvpn.c:209 | atoi gives back every non-negative number written in decimal |
| CStrings.DecimalValueBound | src/vpn.c:62 | k decimal digits denote a value below 10^k |
| CStrings.CaseCmpIsFoldedOrder | src/vpn.c:351 | strcasecmp is 0 exactly for equal lower-cased names, negative exactly when the lower-cased names are lexicographically less; the model keeps only the sign of strcasecmp, which is all src/vpn.c:354 tests |
| CStrings.CaseCmpAntisymmetric | src/vpn.c:351 | swapping the arguments of strcasecmp negates the sign of the result |
| CStrings.CaseCmpTransitive | src/vpn.c:351 | "not greater" under strcasecmp is transitive |
| CStrings.CaseCmpReflexive | src/vpn.c:351 | every name compares equal to itself |
| CStrings.JoinInjective | src/vpn.c:250-251 | within one directory the "%s/%s" join is injective, and the path starts with the directory and a slash |
| ConfigChoice.TwoConfigsGoUnwarned | src/vpn.c:281-282 | with exactly two `*.conf` matches no warning is given |
| ConfigChoice.AmbiguousConfigIffMatchIgnored | src/runvpn.c:165-167 | the corrected warning fires exactly when some match is ignored; the written one implies it and misses exactly the two-match case |
| VpnLib.StatusCode | code/runvpn.h:17-23 | the enumerators are numbered 0 to 4 in declaration order |
| VpnLib.InitDescriptorFields | src/vpn.c:250-299 | vpn_init succeeds exactly when the directory exists, chdir works and glob matches. Then path is folder/name, config is path/first match, log is path/openvpn.log, and the PID file is in /var/run |
| VpnLib.PidFilePathInjective | src/vpn.c:287-291 | two instances share a PID file only when they have the same name |
| VpnLib.Vpn.Init | src/vpn.c:242-312 | vpn_init assigns exactly the descriptor fields and clears next on success. On -1 the struct is unchanged. The warning is given exactly for a successful init with more than two matches |
| VpnLib.StatusTable | src/vpn.c:37-91 | the full decision table: Error on a failed chdir or an unknown errno; Dead exactly for a missing or empty PID file; Running exactly on a delivered probe; StalePid on ESRCH; PermDenied on EPERM |
| VpnLib.Vpn.UpdateStatus | src/vpn.c:37-91 | the returned status equals the stored one and follows the decision table. The pid probed is atoi of the chomped first line. vpn->pid changes only when Running |
| VpnLib.PidLineShape | src/vpn.c:57-62 | the PID line is at most nine characters with no newline or NUL, and the pid fits an int |
| VpnLib.PidLineOfShortLine | src/vpn.c:57-61 | a first line shorter than nine characters comes back without its newline |
| VpnLib.PidFileRoundTrip | src/vpn.c:57-84 | a pid written in decimal with a newline is read back as that pid, and a delivered probe makes it Running |
| VpnLib.MinusOnePidReadsRunning | src/vpn.c:62-84 | a PID file holding "-1" gives pid -1, and the instance reads as Running |
| VpnLib.TextPidReadsRunning | src/vpn.c:62-84 | a PID file holding text gives pid 0, and the instance reads as Running |
| VpnLib.StopAfterNegativePidFile | src/vpn.c:132 | after a "-1" PID file, vpn_stop sends SIGTERM to pid -1 |
| VpnLib.CheckedStatusRunningHasPositivePid | src/vpn.c:62-84 | with a positivity check, Running always carries a positive pid, and the checked status differs from the written one only for non-positive pids |
| VpnLib.ArgvSlots | src/vpn.c:96-105 | the argv array has thirteen slots |
| VpnLib.UpToNullStops | src/vpn.c:114 | execv reads the arguments before the first NULL and none after it |
| VpnLib.ExecArgvByMode | src/vpn.c:96-105 | outside daemon mode openvpn gets exactly the nine arguments binary, --cd path, --config config, --script-security 2, --writepid pid_file, and never --log. In daemon mode --daemon --log openvpn.log follow |
| VpnLib.PermitsPartition | src/vpn.c:107-110 | in every status exactly one of start and stop is allowed; stop and reload are allowed together; a stopped (Dead) instance may be started again |
| VpnLib.Vpn.Start | src/vpn.c:93-121 | start is refused exactly when the instance is Running. Otherwise execv gets the fixed argv, and its outcome decides between replacement and -1 |
| VpnLib.Vpn.Stop | src/vpn.c:123-155 | a signal is sent exactly when the instance is Running, and it is SIGTERM to vpn->pid. The result is 0 exactly when it was delivered. Only then does the status become Dead; otherwise it is unchanged |
| VpnLib.Vpn.Reload | src/vpn.c:157-189 | a signal is sent exactly when the instance is Running, and it is SIGUSR1 to vpn->pid. The result is 0 exactly when it was delivered. The status never changes |
| VpnDiscovery.InsertByNameAt | src/vpn.c:350-382 | the new descriptor lands before the first strictly greater name, after all not-greater ones |
| VpnDiscovery.InsertByNameSorted | src/vpn.c:350-382 | insertion keeps the list ascending under strcasecmp and adds exactly the new descriptor |
| VpnDiscovery.InsertByNameMultiset | src/vpn.c:350-382 | insertion adds exactly the new descriptor and drops nothing |
| VpnDiscovery.ScanStaysFailed | src/vpn.c:338-339 | once a vpn_init has failed, the result stays NULL |
| VpnDiscovery.ScanIsSortedPermutation | src/vpn.c:314-390 | get_vpns's list exists exactly when every subdirectory initialises. It is then ascending under strcasecmp and holds the same instances as the read-order list |
| VpnDiscovery.InitializedFailsIff | src/vpn.c:335-339 | the scan fails exactly when vpn_init fails on some subdirectory other than "." and ".." |
| VpnDiscovery.InsertNode | src/vpn.c:342-383 | the pointer splice leaves a well-formed list whose nodes, in order, carry the sorted insertion of the new descriptor |
| VpnDiscovery.LinkBefore | src/vpn.c:354-368 | linking the new node before the first greater one (and making it the head when that was the head) gives the sorted insertion |
| VpnDiscovery.LinkAtEnd | src/vpn.c:370-375 | appending at the tail when no name is greater gives the sorted insertion |
| VpnDiscovery.SplicedFields | src/vpn.c:356-360 | after splicing at position k the node fields read as the descriptors with the new one at k |
| VpnDiscovery.GetVpns | src/vpn.c:314-390 | exit exactly when the root cannot be opened; NULL when some vpn_init fails; otherwise a well-formed list of fresh nodes whose fields are the sorted scan |
| RunVpn.StatusOf | src/runvpn.c:189-220 | vpn_status either ends the process or returns one of the four #define statuses |
| RunVpn.StatusTable | src/runvpn.c:189-220 | exit exactly on a failed chdir; DEAD exactly for a missing or empty PID file; STALE_PID on ESRCH; PERM_DENIED on EPERM; RUNNING whenever a line was read and the probe did not fail with one of those two |
| RunVpn.LineagesDisagreeOnlyOnErrors | src/runvpn.c:212-219 | the two lineages agree wherever the library status is not VPN_ERROR. A failed chdir is VPN_ERROR there and an exit here. An unknown errno is VPN_ERROR there and RUNNING here |
| RunVpn.LabelTable | src/runvpn.c:36-53 | "Down" exactly for DEAD and STALE_PID; "Up" exactly for RUNNING; "Permission denied" exactly for PERM_DENIED; "Unknown" exactly outside 1..4; the PID file is deleted exactly for STALE_PID |
| RunVpn.StatusNeverUnknown | src/runvpn.c:36-53 | vpn_status never returns a value the switch labels "Unknown" |
| RunVpn.SelectedMembers | src/runvpn.c:113-134 | exactly the subdirectories other than "." and ".." are listed, each as name and root/name. The list is empty exactly when there are none |
| RunVpn.GetVpns | src/runvpn.c:99-140 | exit exactly when the root cannot be opened. Otherwise the result is a well-formed list of freshly allocated nodes; node m carries selected entry n-1-m in read order (the reverse of the read order), each with path root/name. It is NULL when there are none |
| RunVpn.Vpn.Get | src/runvpn.c:142-187 | get_vpn returns -1, leaving the struct alone, exactly when root/name does not exist. It sets name, path and config (path/first match) and returns 0 on a match, and it ends the process when glob finds nothing or fails. The warning is given only for more than two matches |
| RunVpn.LookupVersusInit | src/runvpn.c:151-184 | get_vpn and vpn_init fail together on a missing directory and agree on path and config where vpn_init succeeds. get_vpn alone succeeds after a failed chdir, and it exits where vpn_init returns -1 on a failed glob |
| RunVpn.LookupFields | src/runvpn.c:143-173 | on success name is the argument, path is root/name, and config is path/first match |
| RunVpn.Vpn.DeletePidFile | src/runvpn.c:79-97 | delete_pid_file targets path/openvpn.pid and returns 0 whatever unlink reports |
| RunVpn.PidFileOfInside | src/runvpn.c:80-84 | the PID file lies directly inside the instance directory, and each directory has its own |
| RunVpn.ReportShape | src/runvpn.c:31-56 | row m is printed for instance m with its name and the label of its status, never "Unknown"; rows stop only where vpn_status ends the process, at the first instance without a row; the deleted PID files are exactly those of printed instances whose status is VPN_STALE_PID, in list order |
| RunVpn.ReportStaysExited | src/runvpn.c:194-197 | once vpn_status has ended the process, the rest of the list adds nothing |
| RunVpn.ListMode | src/runvpn.c:27-56 | the list-mode loop over the linked list produces exactly the report of its nodes' names and paths |

## Left out

- The system calls are inputs, not behaviour: `execv`, `kill`, `fopen`/`fgets`, `opendir`/`readdir`, `access`, `chdir`, `glob` and `unlink`. The race between reading the PID file and probing the process is not modelled.
- The current-directory side effect of `chdir` is not modelled. `get_vpn` in `src/runvpn.c` runs glob in whatever directory is current when its `chdir` fails. The model takes the glob outcome as given.
- `d_type` is a plain "is a directory" flag. `DT_UNKNOWN` from file systems that do not fill `d_type` therefore counts as not a directory, as in the C code.
- `execv` succeeding does not return. The model reports it as the `Replaced` launch outcome.
- `vpn_dumplog`, `vpn_delete_logfile` and `vpn_delete_pidfile` of `src/vpn.c` are not modelled. They are fire-and-forget file I/O.
- Printing is not modelled: `print_color`, the ANSI colour macros, `log_error` and every message text. List mode's output is the row of name and label.
- Memory management is not modelled: `malloc`, `xmalloc`, `xstrdup`, `vpn_free`, the leaks on error paths, and the unclosed PID file in `src/runvpn.c`.
- Fields `malloc` leaves uninitialised start with fixed values: `status`/`pid` as Error/0, and `config` as `None` in list mode.
- The environment-variable and `argc` handling of `main`, and the stub `start_vpn`, are not modelled. They are command-line plumbing.
- `strcasecmp` is modelled with ASCII case folding only. The locale is not modelled.
- Integers are unbounded. The parsed pid is proved to fit a 32-bit int (`VpnLib.PidLineShape`), so no wrap-around arises.
- The PID-line reading (`fgets` of 10, `chomp`, `atoi`) is the same text in both lineages. It is modelled once (`VpnLib.PidLine`), and both status functions use it.
- CStrings.ChompAsWritten: requires a non-empty string. On an empty string the C code reads before the buffer, which is undefined behaviour and cannot be stated. The rest of the model uses the corrected `CStrings.Chomp`.

## Findings

| source | as written | input that shows it | evidently intended | confidence | as-written member | corrected member |
|---|---|---|---|---|---|---|
| src/vpn.c:281 | the several-configs warning tests `gl_pathc > 2` (also src/runvpn.c:165) | a directory with `a.conf` and `b.conf`: `b.conf` is ignored silently | warn whenever more than one config matched | not executed | ConfigChoice.TwoConfigsGoUnwarned | ConfigChoice.AmbiguousConfigIffMatchIgnored |
| src/vpn.c:62 | the parsed pid is passed to `kill` without a positivity check (also src/runvpn.c:209) | a PID file holding `-1`: the probe to pid -1 is delivered, the instance reads Running, and stop signals every process | treat a non-positive pid as a dead instance | not executed | VpnLib.MinusOnePidReadsRunning | VpnLib.CheckedStatusRunningHasPositivePid |
| src/vpn.c:33 | chomp reads `string[length - 1]` without checking `length > 0` (also src/runvpn.c:225) | a PID file starting with a NUL byte: fgets stores it, strlen is 0, and chomp reads before the buffer | leave the empty string alone | not executed | CStrings.NulLeadingLineIsEmpty | CStrings.Chomp |
