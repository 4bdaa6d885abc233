# a3tools core, modelled in Dafny

This project models the two pieces of decision logic in the Arma 3 server tools.

**The server lifecycle manager (`a3sdt.py`).** The only state that survives between two
invocations of the tool is a PID file holding the decimal PID of the last server it
started. Each invocation reads that file into the global `ARMA3_EXISTING_PID` and
removes it when the recorded process is no longer alive. `start` refuses while a PID is
recorded. `stop` refuses while none is recorded. Otherwise `stop` sends SIGTERM, polls
once a second, and sends SIGKILL on every poll once the configured timeout has been
waited. It removes the PID file only after the process is seen gone. `restart` is stop
followed by start.

The operating system is the class `ServerControl.Host`:
- `pidFile` is the text of the PID file, or `None` when the file does not exist.
- `existingPid` is the global `ARMA3_EXISTING_PID`.
- `live` is the set of PIDs the `kill(pid, 0)` probe finds alive.
- `signals` logs every signal sent, with the tick it was sent at.
- `ticks` counts `time.sleep(1)` calls.
- `spawns` logs every server launch with its executable, arguments and directory.

A launch picks a fresh positive PID outside `live`. How long the server survives after
SIGTERM is the parameter `diesAt` of `Stop`: the number of one-second polls it is still
seen alive. A server that ignores SIGTERM and dies on the first SIGKILL has
`diesAt == timeout + 1`. The guards test the recorded PID with Python truthiness
(`Truthy`), as the source does. `WellFormed()` says the PID file is absent or holds a
positive PID. Under it, truthiness and presence agree.

The pure parts are functions: the decimal text of the PID (`NumberText`), manifest
selection (`Manifests`) and the server command line (`Launch`).

**The build tool's argument handling (`a3bt.py`).** The module `BuildTool` holds the
argparse `type=` validators for `.pbo` and `.sqm` names and for map names, the
trailing-slash strip of the source directory, the map-name help text, and the base name
and output path of the packed PBO. A validator that raises `ValueError` returns a
`Failure`.

Two behaviours of the code are easy to misread, and the model keeps them as written:
- The server is launched in the forked child. When the launch fails there, the
  invocation itself still returns normally, so `Start` reports `Done` with no PID file
  and no server. Of the launch's outcomes, only a failing `os.fork` makes `start` exit with status 1.
- `restart` on a stopped server exits with status 1 from its internal `stop`, and
  never reaches `start`.

## Model

| member | source | states |
|---|---|---|
| NumberText.NatText | a3sdt.py:171 | the decimal text of a PID is a non-empty digit string with no leading zero |
| NumberText.NatTextValue | a3sdt.py:171 | the digits written for a number denote that number |
| NumberText.IntText | a3sdt.py:171 | the text of an integer is non-empty, starts with `-` exactly when the integer is negative, and is digits after that sign |
| NumberText.ParseInt | a3sdt.py:178 | `int()` accepts exactly a digit string with an optional `+` or `-`, and the sign of the result follows the sign written |
| NumberText.ParsePid | a3sdt.py:178 | blank text is rejected, and any accepted text contains a digit |
| NumberText.ParseIntText | a3sdt.py:178 | `int()` reads back exactly the integer that `'%s' %` wrote, sign included |
| NumberText.StripLeft | a3sdt.py:178 | left stripping removes only leading whitespace and leaves a non-space first character |
| NumberText.StripRight | a3sdt.py:178 | right stripping removes only trailing whitespace and leaves a non-space last character |
| NumberText.StripSurrounding | a3sdt.py:178 | `strip()` returns exactly the text between any surrounding whitespace |
| NumberText.PidRoundTrip | a3sdt.py:169-178 | the PID save_pid writes is the PID read_pid reads, even with whitespace around it |
| NumberText.SavedPidReads | a3sdt.py:169-178 | the exact file save_pid writes parses back to the saved PID |
| PosixPath.Join | a3bt.py:89 | an absolute second part is the whole result; otherwise the result is the first part, one `/` exactly when the first part is non-empty and does not end in `/`, then the second part |
| Manifests.Lookup | a3sdt.py:79-81 | a name is found iff some manifest has it, and the result is that manifest |
| Manifests.FindManifestAsWritten | a3sdt.py:75-86 | the code as written fails exactly for an unknown explicit name and for a sole manifest not called `default` with no name; the first fails building ArgumentError, the second indexing a dict view |
| Manifests.FindManifest | a3sdt.py:75-86 | the corrected rule fails exactly for an unknown explicit name, and whatever it returns is one of the manifests |
| Manifests.UnknownNameDiscrepancy | a3sdt.py:79-81 | for an unknown name, the code as written fails with argparse's AttributeError where the corrected rule reports the missing name |
| Manifests.FindManifestSelection | a3sdt.py:75-86 | an explicit name selects its manifest or fails naming it; without one, `default` wins, then the only manifest, else nothing |
| Manifests.SoleManifestDiscrepancy | a3sdt.py:83-86 | with one manifest not called `default` and no name, the code as written raises where the intended rule returns that manifest |
| Manifests.AsWrittenAgreesElsewhere | a3sdt.py:75-86 | wherever the code as written does not fail, it returns what the corrected rule returns; its two failures are the only differences |
| Launch.ServerCommandPath | a3sdt.py:244-245 | an absolute server command is the executable path itself; a relative one is placed under the server root, with one `/` added when the root lacks it |
| Launch.LaunchArgs | a3sdt.py:246-255 | eight arguments: the six setting flags in their order, each with its value, then `-nosound` and `-autoInit` |
| Launch.LaunchArgsRoundTrip | a3sdt.py:246-255 | the command line has 8 entries, ends in `-nosound` and `-autoInit`, and carries name, port, both configs, profiles and mods so that they read back unchanged |
| ServerControl.KillLog | a3sdt.py:281-288 | the stop loop sends only SIGKILLs, all to the stopped PID, at most one per poll |
| ServerControl.DefaultGracePeriod | a3sdt.py:25 | with the default 5000-second grace period, a server that exits within 5000 polls gets no SIGKILL, and one that ignores SIGTERM but dies on the first SIGKILL gets exactly one, 5000 seconds after SIGTERM |
| ServerControl.KillLogShape | a3sdt.py:281-288 | the stop loop sends no SIGKILL before `timeout` seconds have been waited, then one per second at consecutive ticks while the server lives |
| ServerControl.EscalatesIffOutlivesGrace | a3sdt.py:282-286 | SIGKILL is sent iff the server outlives the grace period, and never before it |
| ServerControl.SingleKillWhenKillIsImmediate | a3sdt.py:283-288 | if SIGKILL ends the server before the next poll, at most one SIGKILL is sent |
| ServerControl.Host.CleanupPidFile | a3sdt.py:159-166 | afterwards there is no PID file and no recorded PID, whether or not the file existed |
| ServerControl.Host.SavePid | a3sdt.py:169-171 | the file holds the PID's decimal text and parses back to it |
| ServerControl.Host.ReadPid | a3sdt.py:174-178 | an existing file's parsed PID becomes the recorded PID; unparsable text raises ValueError; a missing file changes nothing |
| ServerControl.Host.ProcessIsRunning | a3sdt.py:181-187 | the probe answers whether the PID is alive |
| ServerControl.Host.CheckForOrphanedPidFile | a3sdt.py:190-195 | a file whose PID is not alive is removed and the record cleared; a live one changes nothing; a falsy record fails the assertion |
| ServerControl.Host.Start | a3sdt.py:221-269 | with a PID recorded, or when `os.fork` fails: exit 1 and nothing changes; when the child's launch fails: a normal return and nothing changes; otherwise a fresh PID is launched with the fixed command line and written to the PID file |
| ServerControl.Host.LaunchServer | a3sdt.py:206-213 | the server gets a fresh positive PID, is launched with the configured executable, arguments and working directory, and its PID is saved so that it reads back |
| ServerControl.Host.Stop | a3sdt.py:273-290 | with no PID recorded: exit 1, no signal; otherwise one SIGTERM, then the SIGKILL schedule, one tick per poll, and the file removed once the process is gone |
| ServerControl.Host.Restart | a3sdt.py:295-297 | start runs only when stop returned; after a successful stop nothing is recorded, so start launches a new server, or exits 1 when the fork fails; from the state the prologue leaves it raises nothing and the PID file ends absent or naming a live server |
| ServerControl.Host.Begin | a3sdt.py:318-320 | a well-formed file naming a live PID is recorded; an orphaned one is removed; unparsable text raises |
| ServerControl.Host.Sleep | a3sdt.py:287 | each one-second sleep advances the tick counter by exactly one |
| ServerControl.Host.RunCommand | a3sdt.py:326-328 | from the state the prologue leaves, no command raises and the PID file ends absent or naming a live server; with no file, stop and restart exit 1, no signal is sent, and only a start whose launch succeeds yields a PID |
| ServerControl.Host.Invoke | a3sdt.py:318-328 | from a well-formed PID file no command raises, and afterwards the file is absent or names a live server; an orphaned file is treated as a stopped server |
| BuildTool.PboFilename | a3bt.py:53-56 | accepts a name, unchanged, iff it ends in a dot and `pbo` in any letter case; otherwise ValueError naming it |
| BuildTool.SqmFilename | a3bt.py:59-62 | accepts a name, unchanged, iff it ends in a dot and `sqm` in any letter case; otherwise ValueError naming it |
| BuildTool.MapType | a3bt.py:14-69 | accepts exactly `Altis`, `Stratis` and `Tanoa`, case-sensitively and unchanged |
| BuildTool.ValidatorsIdempotent | a3bt.py:53-69 | each validator returns its own result unchanged when applied to it again |
| BuildTool.MapTypesHelpText | a3bt.py:178 | the map names render as `Altis, Stratis or Tanoa` |
| BuildTool.OrList | a3bt.py:66 | the rendered list ends in ` or ` and the last name; a single name renders as ` or ` and that name |
| BuildTool.OrListMentionsEach | a3bt.py:67 | every map name appears whole in the rendered list |
| BuildTool.StripTrailingSlashes | a3bt.py:47 | the result is a prefix of the input, has no trailing `/`, and only `/` was removed |
| BuildTool.StripTrailingSlashesRestores | a3bt.py:47 | the result followed by the removed number of `/` is the input, and stripping again changes nothing |
| BuildTool.ModDirectory | a3bt.py:46-50 | succeeds iff the stripped path exists, and then returns the stripped path |
| BuildTool.PboBaseName | a3bt.py:83 | the base name is the printed base, one dot, then the printed map type, where an omitted option prints as `None` |
| BuildTool.OmittedNamesBaseName | a3bt.py:83 | with neither option given the base name is `None.None` |
| BuildTool.MapTypeFromBaseName | a3bt.py:83 | for a valid or omitted map type, the base name starts with the printed base and its text after the last dot is the printed map type |
| BuildTool.OutputPath | a3bt.py:86-89 | the output path is the forced name when one is given, otherwise it ends in `<base>_<timestamp>.pbo` |
| BuildTool.OutputPathIsPbo | a3bt.py:86-89 | the output path is always a `.pbo` name, forced or not |
| BuildTool.OutputPathLocation | a3bt.py:89 | without a forced name the file lands in the build directory, joined by one `/` when the directory lacks it; an absolute base name leaves the build directory out |

`ServerControl.GracePeriodScenario` is a scenario check with no contract of its own. It runs `Stop` with a two-second grace period on a server that dies on the first SIGKILL, and asserts the exact log: SIGTERM at tick 0, SIGKILL at tick 2.

## Findings

| source | as written | input that shows it | evidently intended | confidence | as-written member | corrected member |
|---|---|---|---|---|---|---|
| a3sdt.py:86 | `manifests.values()[0]` indexes a dict view, which raises TypeError in Python 3 | one manifest `altisLife`, no name given (lemma `Manifests.SoleManifestDiscrepancy`) | return the only manifest, as the selection comment at a3sdt.py:32-35 says | high; not executed | Manifests.FindManifestAsWritten | Manifests.FindManifest |
| a3sdt.py:81 | `ArgumentError('No manifest named "%s" found', desired_manifest)` passes a str where argparse expects an action, so the constructor itself raises AttributeError | one manifest `altisLife`, the name `x` given (lemma `Manifests.UnknownNameDiscrepancy`) | an error that names the missing manifest | high; not executed | Manifests.FindManifestAsWritten | Manifests.FindManifest |

## Left out

- Process creation is not modelled: `os.fork`, `asyncio.create_subprocess_exec`, the stdout/stderr mirroring and the Windows event-loop branch. A launch is the choice of a fresh PID, and its three possible ends (spawned, fork failed, child's launch failed) are the parameter `attempt`. The forked child's launch and PID write are folded into `Start`, so the model does not capture the parent returning before the child has written the PID file.
- ServerControl.Host.Stop: the model assumes the server exits after finitely many polls (`diesAt`). A server that survives SIGKILL makes the source loop poll forever, and that run is not modelled.
- Signals, the liveness probe and `time.sleep` are abstract. The server's own exit is the `diesAt` parameter of `Stop`, and the environment removes the PID from `live` only at a poll.
- ServerControl.Host.Stop: does not model a SIGKILL failing because the server died between the poll and the kill, since the server only exits at polls.
- ServerControl.Host.Invoke: states the guarantees that hold across commands only; the full effect of each command is in the contracts of Start, Stop and Restart.
- The PID file is present or absent. A path that exists but is not a regular file is not modelled.
- Logging configuration and log messages are not modelled: they are output only.
- Configuration loading is not modelled. `load_config` in a3sdt.py reads a missing key and has truncated strings, and `CONFIG` and `config_filename` are never defined. The configuration is the record `Launch.ServerConfig`; the grace period is a `nat`, so a negative timeout is not modelled.
- Argument parsing with argparse is not modelled: it is library code.
- The file-system work of `Commands.clean` and `Commands.pack` is not modelled: copying, removal, the external packer call and the existence checks. The existence check of `mod_directory` is the function parameter of `ModDirectory`.
- Timestamp production is not modelled; the timestamp is an opaque string.
- `deploy`, `start_server`, `stop_server` and `restart_server` only raise NotImplementedError, so they are not modelled.
- NumberText.ParseInt: does not accept the underscores between digits or the non-ASCII decimal digits that Python's `int()` accepts; `save_pid` never writes either.
- BuildTool.Lower: lowercases ASCII letters only. For the `.pbo` and `.sqm` tests this is exact: no other character lowercases to any of those letters.
- BuildTool.MapType: the first field of its error message formats the function object itself, with its address; the model renders it as a fixed placeholder.
- Manifests.FindManifestAsWritten: the AttributeError raised while building `ArgumentError` is modelled as one error value, without its message.
- Manifests.FindManifest: the unknown-name error keeps only the missing name, not a message text.
- The recorded PID is tested with Python truthiness as written, so a recorded PID 0 counts as "no PID" and fails the orphan check's assertion. No PID file written by `save_pid` holds 0.
