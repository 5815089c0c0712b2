/** checkArgs (cs/cs.go:69-124) and the `nocmd` switch main computes for it
    (cs/cs.go:387-391): which arguments are hosts, which one is the command,
    and when cs gives up with its usage text. The contents of the hosts file
    and the script file are parameters, None standing for a file that cannot
    be opened. */
module Args {
  import opened Wrappers
  import opened GoStrings
  import opened Options
  import HostFile

  /** The ways checkArgs ends the program instead of returning: flag.Usage()
      (prints the usage text, exit status 1), openFile's failure (prints the
      error, exit status 1) and the index panic of argv[0] on no arguments. */
  datatype ArgsError = Usage | CannotOpen(path: string) | IndexOutOfRange

  /** What checkArgs returns: the command (or script) and the hosts. */
  datatype Job = Job(command: string, hosts: seq<string>)

  /** nocmd: 1 when some selected operation takes no command argument. */
  function NoCmd(f: Flags): (nocmd: int)
    ensures nocmd == 0 || nocmd == 1
  {
    if f.cname || f.dd || f.disku != "" || f.netcat || f.nmap || f.ns || f.mx ||
       f.png || f.soa || f.top1 || f.tr || f.tri || f.uname || f.up || f.vm
    then 1 else 0
  }

  /** readFile applied to the text of a file. */
  function ReadLines(text: string): seq<string> {
    HostFile.Uncommented(HostFile.Lines(text))
  }

  /** openFile + readFile on the hosts file. */
  function ReadHosts(hostsfile: string, hostsText: Option<string>): Result<seq<string>, ArgsError> {
    match hostsText
    case None => Failure(CannotOpen(hostsfile))
    case Some(t) => Success(ReadLines(t))
  }

  /** The command a script file (-f) becomes: its lines joined verbatim,
      wrapped in a sudo here-document when -t is given. */
  function ScriptCommand(lines: seq<string>, tty: bool): string {
    var c := Concat(lines);
    if tty then "sudo sh <<'EOF'" + c + "EOF" else c
  }

  function CheckArgs(nocmd: int, copy: string, download: string, file: string,
                     hostsfile: string, tty: bool, argv: seq<string>,
                     hostsText: Option<string>, scriptText: Option<string>): (r: Result<Job, ArgsError>)
    ensures r.Success? && hostsfile == "" ==>
              |r.value.hosts| <= |argv| && r.value.hosts == argv[|argv| - |r.value.hosts|..]
    ensures r.Success? && hostsfile != "" ==> hostsText.Some? && r.value.hosts == ReadLines(hostsText.value)
    ensures r == Failure(Usage) ==> hostsfile == ""
  {
    if nocmd == 1 then
      if hostsfile == "" then
        if |argv| < 1 then Failure(Usage) else Success(Job("", argv[0..]))
      else
        match ReadHosts(hostsfile, hostsText)
        case Failure(e) => Failure(e)
        case Success(hosts) => Success(Job("", hosts))
    else if file != "" || copy != "" || download != "" then
      var hostsOrError :=
        if hostsfile == "" then
          if |argv| < 1 then Failure(Usage) else Success(argv[0..])
        else ReadHosts(hostsfile, hostsText);
      match hostsOrError
      case Failure(e) => Failure(e)
      case Success(hosts) =>
        if file == "" then Success(Job("", hosts))
        else
          match scriptText
          case None => Failure(CannotOpen(file))
          case Some(t) => Success(Job(ScriptCommand(ReadLines(t), tty), hosts))
    else
      if hostsfile == "" then
        if |argv| < 2 then Failure(Usage) else Success(Job(argv[0], argv[1..]))
      else
        match ReadHosts(hostsfile, hostsText)
        case Failure(e) => Failure(e)
        case Success(hosts) =>
          if |argv| < 1 then Failure(IndexOutOfRange) else Success(Job(argv[0], hosts))
  }

  /** No-command mode without a hosts file: every argument is a host and the
      command is empty; no argument at all is a usage error. */
  lemma NoCommandRouting(copy: string, download: string, file: string, tty: bool,
                         argv: seq<string>, hostsText: Option<string>, scriptText: Option<string>)
    ensures var r := CheckArgs(1, copy, download, file, "", tty, argv, hostsText, scriptText);
            (r == Failure(Usage) <==> |argv| < 1) &&
            (|argv| >= 1 ==> r == Success(Job("", argv)))
  {
  }

  /** Plain command mode without a hosts file: the first argument is the
      command and the others are the hosts; fewer than two arguments is a
      usage error. */
  lemma CommandRouting(nocmd: int, tty: bool, argv: seq<string>,
                       hostsText: Option<string>, scriptText: Option<string>)
    requires nocmd != 1
    ensures var r := CheckArgs(nocmd, "", "", "", "", tty, argv, hostsText, scriptText);
            (r == Failure(Usage) <==> |argv| < 2) &&
            (|argv| >= 2 ==> r == Success(Job(argv[0], argv[1..])))
  {
  }

  /** With a hosts file the hosts are its non-comment lines whatever the
      arguments say; an unreadable hosts file ends the program first. */
  lemma HostsFileRouting(nocmd: int, copy: string, download: string, file: string,
                         hostsfile: string, tty: bool, argv: seq<string>,
                         hostsText: Option<string>, scriptText: Option<string>)
    requires hostsfile != ""
    ensures var r := CheckArgs(nocmd, copy, download, file, hostsfile, tty, argv, hostsText, scriptText);
            (hostsText.None? ==> r == Failure(CannotOpen(hostsfile))) &&
            (hostsText.Some? && nocmd == 1 ==> r == Success(Job("", ReadLines(hostsText.value)))) &&
            r != Failure(Usage)
  {
  }

  /** Plain command mode with a hosts file: the first argument is the
      command and the hosts are the file's lines. With no argument Go reaches
      argv[0] on an empty slice and panics with an index out of range rather
      than printing the usage text. */
  lemma HostsFileWithoutCommand(nocmd: int, hostsfile: string, tty: bool, argv: seq<string>,
                                hostsText: Option<string>, scriptText: Option<string>)
    requires nocmd != 1 && hostsfile != "" && hostsText.Some?
    ensures var r := CheckArgs(nocmd, "", "", "", hostsfile, tty, argv, hostsText, scriptText);
            (|argv| >= 1 ==> r == Success(Job(argv[0], ReadLines(hostsText.value)))) &&
            (|argv| < 1 ==> r == Failure(IndexOutOfRange))
  {
  }

  /** A script file becomes the command, whether the hosts come from the
      arguments or from -h: its non-comment lines joined verbatim, wrapped as
      `sudo sh <<'EOF'` ... `EOF` with -t. The hosts are found first (usage
      without any argument, or the unopenable hosts file), then the script is
      opened. */
  lemma ScriptRouting(nocmd: int, copy: string, download: string, file: string, hostsfile: string,
                      tty: bool, argv: seq<string>, hostsText: Option<string>, scriptText: Option<string>)
    requires nocmd != 1 && file != ""
    ensures var r := CheckArgs(nocmd, copy, download, file, hostsfile, tty, argv, hostsText, scriptText);
            var hostsFound := if hostsfile == "" then |argv| >= 1 else hostsText.Some?;
            (r.Success? <==> hostsFound && scriptText.Some?) &&
            (r.Success? ==>
               r.value == Job(ScriptCommand(ReadLines(scriptText.value), tty),
                              if hostsfile == "" then argv else ReadLines(hostsText.value))) &&
            (hostsfile == "" ==> (r == Failure(Usage) <==> |argv| < 1)) &&
            (hostsfile != "" && hostsText.None? ==> r == Failure(CannotOpen(hostsfile))) &&
            (hostsFound && scriptText.None? ==> r == Failure(CannotOpen(file)))
  {
  }

  /** A script without comment lines is sent exactly as written. */
  lemma {:induction false} ScriptVerbatim(script: string, tty: bool)
    requires forall l :: l in HostFile.Lines(script) ==> !HostFile.IsComment(l)
    ensures ScriptCommand(ReadLines(script), tty) ==
            if tty then "sudo sh <<'EOF'" + script + "EOF" else script
  {
    NoCommentsKept(HostFile.Lines(script));
    HostFile.LinesConcat(script);
  }

  lemma {:induction false} NoCommentsKept(lines: seq<string>)
    requires forall l :: l in lines ==> !HostFile.IsComment(l)
    ensures HostFile.Uncommented(lines) == lines
  {
    if lines != [] {
      NoCommentsKept(lines[1..]);
    }
  }

  /** Copying or downloading without a script sends no command; with a
      readable hosts file its lines are the hosts, and without one every
      argument is a host and no argument is a usage error. */
  lemma TransferWithoutScript(nocmd: int, copy: string, download: string, hostsfile: string,
                              tty: bool, argv: seq<string>, hostsText: Option<string>,
                              scriptText: Option<string>)
    requires nocmd != 1 && (copy != "" || download != "")
    ensures var r := CheckArgs(nocmd, copy, download, "", hostsfile, tty, argv, hostsText, scriptText);
            (r.Success? ==> r.value.command == "") &&
            (hostsfile != "" && hostsText.Some? ==> r == Success(Job("", ReadLines(hostsText.value)))) &&
            (hostsfile == "" ==> (r == Failure(Usage) <==> |argv| < 1) &&
                                 (|argv| >= 1 ==> r == Success(Job("", argv))))
  {
  }
}
