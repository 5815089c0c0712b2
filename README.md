# cs — a Dafny model of the concurrent ssh client's core

cs runs one command, copy or query against many hosts at once and prints
what each host answered, followed by a tally. This project models the
deterministic core of `cs/cs.go` and proves properties of it:

- **readFile** (`host_file.dfy`, module `HostFile`): the hosts file and the
  script file are read line by line with `ReadString('\n')`. Comment lines
  (starting with `#`) are dropped, and reading stops only at the end of the
  input. `ReadFile` is the loop. `Lines`/`Uncommented` specify it.
- **checkArgs and nocmd** (`args.dfy`, module `Args`): which arguments are
  hosts, which one is the command, and how a script becomes the command.
  The usage exit, an unopenable file and the `argv[0]` panic are modelled as
  `Failure` results. File contents are parameters (`None` = cannot open).
- **run** (`action.dfy`, module `Action`): the branch chosen by the fixed
  priority of the flags, the argument vector handed to `exec.Command`, and
  the report text `host: out` / `host:\nout`. The process is an oracle from
  argument vector to (output, failed). `exist` takes the `os.Stat` answer as
  a parameter. GOOS is a parameter.
- **the collecting loop of main** (`collector.dfy`, module `Collector`):
  - The channel is the sequence of reports in arrival order.
  - Standard output and the log file are the sequences of strings written
    to them.
  - `Collect` is the loop: classification, tally, `-e`, `-q`, `-o` and
    `-1` handling.
  - In sorted mode (`-s`) it fills the fresh arrays `mk`/`mk2` in place and
    sorts them in place with `Lex.SortStrings`.
  - Each method is proved against the functions `Stdout` and `Log`.
- **main put together** (`cs.dfy`, module `Cs`): `checkArgs`, `ddir`,
  one `run` per host, and the loop, over a `World` that fixes everything
  outside the program. The goroutines are a `deliver` function that
  permutes the reports.

Supporting modules:
- `GoStrings`: the few functions of `strings` and `fmt` that the code uses.
- `Lex`: Go's string order and `sort.Strings`.
- `Options`: the parsed flags.
- `Wrappers`: `Option`/`Result`.

Notes where the text of the program and its description differ (the model
follows the code):
- The sorted-mode slots `mk[i]`/`mk2[i]` are indexed by the arrival count
  `i`, not by the host's position. Since the slots are sorted before they
  are written, the output is the same either way (`SortedOrderIndependent`).
- The quiet line is the text before the first `:` of the whole report, not
  the host name as such. The two agree when the host name holds no `:`
  (`QuietReport`).
- Failures are classified by looking for `":\n"` in the report text. Under
  `-1` a successful report is `host: out`, so it counts as a failure unless
  the host or the output happens to contain `":\n"` (`Classification`).

## Model

| member | source | states |
|---|---|---|
| HostFile.ReadFile | cs/cs.go:53-67 | the loop returns exactly the non-comment lines of the text, in order, each with its newline |
| HostFile.ReadStep | cs/cs.go:56-63 | one `ReadString`: empty exactly at the end of the input; otherwise the line is kept or skipped and reading continues after it |
| HostFile.LinesConcat | cs/cs.go:57 | the lines read, put back together, are the whole text: nothing is lost or reordered |
| HostFile.LinesShape | cs/cs.go:57 | every line read is non-empty, holds a newline only at its end, and all but the last end with one |
| HostFile.NextLineShape | cs/cs.go:57 | one read stops at the first newline and includes it, or takes the rest of the input |
| HostFile.UncommentedMembers | cs/cs.go:58-63 | a line is returned iff it was read and does not start with `#` |
| HostFile.CommentSkipped | cs/cs.go:58-59 | a comment line is dropped and reading goes on |
| HostFile.LineKept | cs/cs.go:60-63 | any other newline-terminated line is kept and reading goes on |
| HostFile.BlankLineKept | cs/cs.go:60-63 | a blank line `"\n"` is kept and does not stop the reading |
| HostFile.LastLineKept | cs/cs.go:57-63 | a final line without newline is kept unless it is a comment |
| Args.CheckArgs | cs/cs.go:69-124 | without a hosts file the hosts are a suffix of the arguments; with one they are its non-comment lines; a usage exit happens only without a hosts file |
| Args.NoCommandRouting | cs/cs.go:74-80 | in a no-command mode every argument is a host and the command is empty; no argument means usage |
| Args.CommandRouting | cs/cs.go:110-115 | in command mode the first argument is the command and the rest are hosts; fewer than two means usage |
| Args.HostsFileRouting | cs/cs.go:81-85 | with a hosts file the hosts are its lines; an unopenable file stops cs before anything else; never a usage exit |
| Args.HostsFileWithoutCommand | cs/cs.go:116-119 | plain command mode with a hosts file: the first argument is the command and the hosts are the file's lines; with no argument it reaches `argv[0]` on an empty slice (index panic) |
| Args.ScriptRouting | cs/cs.go:90-107 | with -f, whether the hosts are the arguments or -h's lines, the script's non-comment lines, joined, become the command, wrapped in `sudo sh <<'EOF'`…`EOF` under `-t`; no argument without -h is a usage exit, an unopenable hosts file stops cs first, then an unopenable script does |
| Args.ScriptVerbatim | cs/cs.go:100-107 | a script without comment lines is sent exactly as written |
| Args.TransferWithoutScript | cs/cs.go:90-108 | copying or downloading without `-f` sends no command; with a readable -h file its lines are the hosts; without -h every argument is a host, and no argument at all is a usage exit |
| Action.SelectMode | cs/cs.go:157-318 | the branch taken is one whose guard holds |
| Action.SelectModeFirst | cs/cs.go:157-318 | no branch earlier in the chain applies: exactly one branch runs, the first that applies |
| Action.Verbosity | cs/cs.go:146-154 | the option prefix is `-` followed by one, two or three `v` for the first of -v, -vv, -vvv given, else none |
| Action.Exist | cs/cs.go:126-135 | the directory is path/host, with `.host` appended exactly when a non-directory is in the way |
| Action.SshArgv | cs/cs.go:207-318 | every ssh branch has twelve arguments with a login and ten without: verbosity prefix followed by `tti` for -dd, -du and -t in the default branch and `i` otherwise, identity, `-l login` exactly when a login is given, `-p port`, batch/strict/timeout options, the trimmed host, then the branch's remote command: the dmidecode script, du over -du's path, the top/uname/uptime/vmstat commands, or the command itself |
| Action.DirectArgv | cs/cs.go:205-278 | the one-program branches: the trimmed host is the last argument (for -nc followed by -P's port); -cname, -mx and -soa query host(1) for their record type and -ns queries it with the host alone; nmap, traceroute and `sudo traceroute -I`; -ping's shell line names the host and uses `-W3` exactly on linux |
| Action.RemoteCommandArgv | cs/cs.go:306-318 | the default branch sends the command with `tt` added under -t |
| Action.ScpArgv | cs/cs.go:157-204 | every scp branch: eleven arguments with `-r`, the prefix ending in `r` and the identity after `-i`, ten without, the prefix ending in `i` and the identity next; `-P port` and the options, a copy going from the file to `login@host:path`, a download from `login@host:file` to the per-host or plain path |
| Action.LocalCommandArgv | cs/cs.go:246-262 | -cmd runs the words of the command followed by the host: the words hold no space and join back to the command, so they are its pieces between spaces; more than five words give no command at all |
| Action.Argv | cs/cs.go:156-318 | the branch chain builds a command of at least the program and one argument, and the nil command happens exactly for -cmd with more than five words |
| Action.Run | cs/cs.go:137-329 | a report exists exactly when a command was built |
| Action.RunReport | cs/cs.go:142-329 | the report is the trimmed host, a colon, a newline on success outside -1 and a space otherwise, then the output unchanged |
| Action.ReportShape | cs/cs.go:320-328 | the same layout for any host and outcome |
| GoStrings.TrimNewlinesSpec | cs/cs.go:142 | the trimmed host is a slice of the hostname with only newlines cut on either side, and trimming twice changes nothing |
| GoStrings.ColonNewlineConcat | cs/cs.go:434 | `":\n"` occurs in a concatenation iff it occurs in a part or straddles the seam |
| GoStrings.JoinSplit | cs/cs.go:247 | joining the pieces of Split with the separator gives the input back |
| GoStrings.SplitFirst | cs/cs.go:450 | the first piece of Split is the prefix before the first separator |
| GoStrings.ParseDecimalInverse | cs/cs.go:508 | the digits `%d` prints read back as the same number |
| Lex.SortStrings | cs/cs.go:489 | after sorting in place the array holds the reference sort of its old contents |
| Lex.Sort | cs/cs.go:489 | the result is sorted and a permutation of the input |
| Lex.SortedUnique | cs/cs.go:489 | two sorted permutations of the same strings are equal, so the result of sorting does not depend on the algorithm |
| Lex.LessEqTotal | cs/cs.go:489 | Go's string order is total |
| Lex.LessEqTrans | cs/cs.go:489 | Go's string order is transitive |
| Lex.LessEqAntisym | cs/cs.go:489 | strings that compare equal both ways are equal |
| Collector.Classify | cs/cs.go:433-440 | a report is a failure iff it lacks `":\n"`; a failure without a newline gets one appended |
| Collector.Normalize | cs/cs.go:434-440 | a report is only ever extended, by at most one character; every failure comes out holding a newline; successes, and reports already holding a newline, pass unchanged |
| Collector.ErrorCount | cs/cs.go:429-436 | the tally never exceeds the number of reports |
| Collector.Store | cs/cs.go:442-459 | -s: the report's slot in mk (and mk2 under -q) receives its text or quiet line, or stays empty under -e for a success; nothing else changes |
| Collector.Stream | cs/cs.go:461-484 | streaming: the log gets the report and standard output gets it or its quiet line, both unless -e filters it |
| Collector.Receive | cs/cs.go:429-486 | after the loop the tally counts the failures; under -s the slots hold each report's slot text and nothing was printed; otherwise stdout and log hold what Stdout/Log specify |
| Collector.EmitSorted | cs/cs.go:488-505 | -s: the sorted slots of mk go to the log, and those of mk2 (under -q) or mk go to standard output |
| Collector.Collect | cs/cs.go:401-515 | the whole loop writes exactly `Stdout` and `Log` of the arrival sequence |
| Collector.WriteAll | cs/cs.go:491-503 | every slot is written in order |
| Collector.StreamStep | cs/cs.go:461-484 | streaming, one more arrival appends its line to stdout and its text to the log unless filtered |
| Collector.SlotStep | cs/cs.go:442-459 | filing report i fills the first empty slot |
| Collector.ErrorStep | cs/cs.go:434-436 | one more arrival adds one to the tally exactly when it is a failure |
| Collector.KeptReports | cs/cs.go:443-445 | with -e exactly the failures pass, as many as the tally; without -e every report passes, in arrival order |
| Collector.QuietKeepsFullLog | cs/cs.go:446-448 | -q changes only standard output: the log gets the same full texts with or without it |
| Collector.LogFraming | cs/cs.go:401-407 | the log is written only under -o, and holds START, the body, END |
| Collector.SummaryLast | cs/cs.go:507-509 | the tally `hosts = N, errors = E` closes standard output unless -1 is given |
| Collector.SortedEmission | cs/cs.go:488-505 | -s: what is shown and logged is a sorted permutation of the slots, one line per host |
| Collector.SortedFilter | cs/cs.go:442-505 | -s with -e: every non-empty line shown is a failure's quiet line (-q) or full text, and every failure's line is shown; under -o the log likewise holds exactly the failures' full texts besides empty slots |
| Collector.SortedShowsAll | cs/cs.go:442-505 | -s without -e: standard output is every report sorted, as its quiet line under -q and its full text otherwise; under -o the log is every report's full text, sorted |
| Collector.SortedOrderIndependent | cs/cs.go:430-505 | -s: two arrival orders of the same reports give the same standard output and the same log |
| Collector.ErrorCountPermutation | cs/cs.go:429-436 | the tally does not depend on arrival order |
| Collector.MapPermutation | cs/cs.go:442-459 | filling slots from two arrangements of the same reports gives two arrangements of the same slots |
| Cs.Reports | cs/cs.go:417-427 | report k is what run gives for host k, one per host, none lost or duplicated; no reports exactly when some host's command is nil |
| Cs.CommandUse | cs/cs.go:387-391 | without -c/-d a command argument is taken exactly for the branches that run it, except -cmd with a no-command flag later in the chain, which runs the empty command |
| Cs.DownloadTargets | cs/cs.go:396-399 | one host downloads into -p's path; with several hosts each downloads into path/host, or path/host.host exactly when a plain file named path/host is in the way |
| Cs.Classification | cs/cs.go:320-328 | a success outside -1 never counts as a failure; a failure, or any report under -1, counts as one exactly when neither host nor output holds `":\n"` |
| Cs.QuietReport | cs/cs.go:450-455 | under -q a host whose name has no `:` shows as its name and its status tag |
| Cs.SortedMainIndependentOfArrival | cs/cs.go:416-432 | with -s a whole run's output and log do not depend on the order the goroutines finish in |
| Cs.MainSummary | cs/cs.go:507-509 | the summary counts the hosts checkArgs found and the failures among their reports |

## Left out

- Goroutines and the channel: the arrival order is an arbitrary permutation (`World.deliver`). A goroutine that never finishes, which blocks cs forever, is not modelled.
- `exec.Command`/`CombinedOutput`: the command's output and failure are an oracle (`World.exec`). A failure to start the program is just a failure.
- `os.Stat`/`os.Mkdir` in `exist`: the directory state is a parameter. Creating the directory is not modelled.
- `createFile`/`openFile`: an unopenable hosts or script file is `CannotOpen`. A failure to create the log file (`os.Exit(1)`) is not modelled.
- Appending to an existing log file: the model gives what one run appends.
- Flag parsing, the usage text, `-V` and `os.Exit`: the flags are the `Flags` record. Usage is the `Usage` error.
- Time: the START and END timestamps are opaque strings. Their format is not modelled.
- The panic of a nil command under `-cmd` with more than five words is `None`/`NilCommand`. That under `-o` the log file is already created and START written (cs/cs.go:402-407) before the goroutines start and crash is not modelled.
- Bytes: strings are sequences of characters. Go's byte-wise string order equals the character order used here for valid UTF-8.
- Output writes: each `Print`/`WriteString` call is one element of the output sequence. A `Print` of an empty slot is kept as `""`.
- Cs.Main: composes the model and carries no contract of its own. Its properties are the `Cs` lemmas.
