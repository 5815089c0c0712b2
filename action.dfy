/** run (cs/cs.go:137-329): the argument vector cs builds for one host, and
    the text it reports for that host once the process has finished. The
    process itself (exec.Command + CombinedOutput) is an oracle: it is given
    the argument vector and answers with the combined output and whether the
    command failed. */
module Action {
  import opened Wrappers
  import opened GoStrings
  import opened Options

  const DuPath := "/usr/bin/du"
  const HostPath := "/usr/bin/host"
  const NcPath := "/usr/bin/nc"
  const ScpPath := "/usr/bin/scp"
  const SshPath := "/usr/bin/ssh"
  const TopPath := "/usr/bin/top"
  const UptimePath := "/usr/bin/uptime"
  const VmstatPath := "/usr/bin/vmstat"

  const BatchMode := "-oBatchMode=yes"
  const StrictHostKey := "-oStrictHostKeyChecking=no"

  const DmiDecodeScript := "hostname " +
    "; sudo dmidecode -s system-product-name " +
    "; sudo dmidecode -s system-serial-number " +
    "; /sbin/ifconfig"
  const TopScript := TopPath + " -cbn1 |grep -v '\\[' |grep -v /usr/bin/top " + "|head -20"
  const UnameScript := "if [ `uname -s` == Linux ]; then uname -a; " +
    "cat /etc/redhat-release; else uname -a; fi"

  /** The branches of run's if-chain, in the order they are tried. */
  datatype Mode =
    | CopyRecursive | Copy | DownloadRecursive | Download
    | CName | DmiDecode | DiskUsage | NameServer | Nmap | Netcat | MailExchanger
    | Ping | LocalCommand | StartOfAuthority | Top | Traceroute | TracerouteIcmp
    | Uname | Uptime | Vmstat | RemoteCommand

  /** Position of a branch in the chain. */
  function Rank(m: Mode): nat {
    match m
    case CopyRecursive => 0
    case Copy => 1
    case DownloadRecursive => 2
    case Download => 3
    case CName => 4
    case DmiDecode => 5
    case DiskUsage => 6
    case NameServer => 7
    case Nmap => 8
    case Netcat => 9
    case MailExchanger => 10
    case Ping => 11
    case LocalCommand => 12
    case StartOfAuthority => 13
    case Top => 14
    case Traceroute => 15
    case TracerouteIcmp => 16
    case Uname => 17
    case Uptime => 18
    case Vmstat => 19
    case RemoteCommand => 20
  }

  /** The guard of one branch on its own. */
  predicate Applies(f: Flags, m: Mode) {
    match m
    case CopyRecursive => f.copy != "" && f.recursive
    case Copy => f.copy != ""
    case DownloadRecursive => f.download != "" && f.recursive
    case Download => f.download != ""
    case CName => f.cname
    case DmiDecode => f.dd
    case DiskUsage => f.disku != ""
    case NameServer => f.ns
    case Nmap => f.nmap
    case Netcat => f.netcat
    case MailExchanger => f.mx
    case Ping => f.png
    case LocalCommand => f.lcmd
    case StartOfAuthority => f.soa
    case Top => f.top1
    case Traceroute => f.tr
    case TracerouteIcmp => f.tri
    case Uname => f.uname
    case Uptime => f.up
    case Vmstat => f.vm
    case RemoteCommand => true
  }

  /** The branch run takes. */
  function SelectMode(f: Flags): (m: Mode)
    ensures Applies(f, m)
  {
    if f.copy != "" && f.recursive then CopyRecursive
    else if f.copy != "" then Copy
    else if f.download != "" && f.recursive then DownloadRecursive
    else if f.download != "" then Download
    else if f.cname then CName
    else if f.dd then DmiDecode
    else if f.disku != "" then DiskUsage
    else if f.ns then NameServer
    else if f.nmap then Nmap
    else if f.netcat then Netcat
    else if f.mx then MailExchanger
    else if f.png then Ping
    else if f.lcmd then LocalCommand
    else if f.soa then StartOfAuthority
    else if f.top1 then Top
    else if f.tr then Traceroute
    else if f.tri then TracerouteIcmp
    else if f.uname then Uname
    else if f.up then Uptime
    else if f.vm then Vmstat
    else RemoteCommand
  }

  /** Exactly one branch runs, and it is the first whose guard holds: no
      branch earlier in the chain applies. */
  lemma SelectModeFirst(f: Flags, m: Mode)
    ensures Applies(f, m) ==> Rank(SelectMode(f)) <= Rank(m)
  {
    match m
    case CopyRecursive =>
    case Copy =>
    case DownloadRecursive =>
    case Download =>
    case CName =>
    case DmiDecode =>
    case DiskUsage =>
    case NameServer =>
    case Nmap =>
    case Netcat =>
    case MailExchanger =>
    case Ping =>
    case LocalCommand =>
    case StartOfAuthority =>
    case Top =>
    case Traceroute =>
    case TracerouteIcmp =>
    case Uname =>
    case Uptime =>
    case Vmstat =>
    case RemoteCommand =>
  }

  /** The leading option of ssh and scp: "-" followed by as many 'v' as the
      first verbosity flag set among -v, -vv, -vvv asks for. */
  function Verbosity(f: Flags): (v: string)
    ensures |v| - 1 == (if f.verbose1 then 1 else if f.verbose2 then 2 else if f.verbose3 then 3 else 0)
    ensures v[0] == '-' && forall k :: 1 <= k < |v| ==> v[k] == 'v'
  {
    if f.verbose1 then "-v"
    else if f.verbose2 then "-vv"
    else if f.verbose3 then "-vvv"
    else "-"
  }

  /** What os.Stat says about path/hostname before a multi-host download. */
  datatype DirState = Missing | Directory | NotDirectory

  /** exist (cs/cs.go:126-135): the per-host download directory, created when
      missing; a plain file of that name diverts the download to
      path/hostname.host. */
  function Exist(hostname: string, path: string, st: DirState): (dir: string)
    ensures dir == path + "/" + hostname || dir == path + "/" + hostname + ".host"
    ensures dir == path + "/" + hostname + ".host" <==> st == NotDirectory
  {
    if st != NotDirectory then path + "/" + hostname else path + "/" + hostname + ".host"
  }

  function ConnectTimeout(f: Flags): string {
    "-oConnectTimeout=" + f.timeout
  }

  /** ssh with the given option letters after the verbosity prefix, a login
      as `-l login`, then the host and the remote command. */
  function Ssh(letters: string, f: Flags, host: string, remote: string): seq<string> {
    [SshPath, Verbosity(f) + letters, f.id] +
    (if f.login != "" then ["-l", f.login] else []) +
    ["-p", f.port, BatchMode, StrictHostKey, ConnectTimeout(f), host, remote]
  }

  /** The remote side of scp: a login becomes `login@host`. */
  function Remote(login: string, host: string, file: string): string {
    (if login != "" then login + "@" else "") + host + ":" + file
  }

  /** scp with `-r -i id` (recursive) or `-i id`, then the two operands. */
  function Scp(recursive: bool, f: Flags, from: string, to: string): seq<string> {
    [ScpPath] +
    (if recursive then [Verbosity(f) + "r", "-i", f.id] else [Verbosity(f) + "i", f.id]) +
    ["-P", f.port, BatchMode, StrictHostKey, ConnectTimeout(f), from, to]
  }

  /** The shell line of -ping; GOOS is a parameter. */
  function PingScript(goos: string, host: string): string {
    if goos == "linux" then "ping -nc1 -s16 -W3 " + host + " |grep from"
    else "ping -nc1 -s16 -W3000 " + host + " |grep from"
  }

  /** Where a download lands: path, or with more than one host (ddir == 1)
      the per-host directory exist picks. */
  function DownloadTarget(f: Flags, ddir: int, host: string, st: DirState): string {
    if ddir == 1 then Exist(host, f.path, st) else f.path
  }

  /** The argument vector of exec.Command for one host, program first. None
      is the nil command of -cmd with more than five words, on which
      CombinedOutput panics. */
  function Argv(f: Flags, ddir: int, command: string, hostname: string, goos: string,
                st: DirState): (argv: Option<seq<string>>)
    ensures argv.Some? ==> |argv.value| >= 2
    ensures argv.None? <==> SelectMode(f) == LocalCommand && |Split(command, ' ')| > 5
  {
    var host := TrimNewlines(hostname);
    match SelectMode(f)
    case CopyRecursive => Some(Scp(true, f, f.copy, Remote(f.login, host, f.path)))
    case Copy => Some(Scp(false, f, f.copy, Remote(f.login, host, f.path)))
    case DownloadRecursive =>
      Some(Scp(true, f, Remote(f.login, host, f.download), DownloadTarget(f, ddir, host, st)))
    case Download =>
      Some(Scp(false, f, Remote(f.login, host, f.download), DownloadTarget(f, ddir, host, st)))
    case CName => Some([HostPath, "-tcname", host])
    case DmiDecode => Some(Ssh("tti", f, host, DmiDecodeScript))
    case DiskUsage => Some(Ssh("tti", f, host, "sudo " + DuPath + " -amx " + f.disku + " |sort -rn |head -20"))
    case NameServer => Some([HostPath, host])
    case Nmap => Some(["nmap", host])
    case Netcat => Some([NcPath, "-w1", host, f.port])
    case MailExchanger => Some([HostPath, "-tmx", host])
    case Ping => Some(["/bin/sh", "-c", PingScript(goos, host)])
    case LocalCommand =>
      var words := Split(command, ' ');
      if |words| <= 5 then Some(words + [host]) else None
    case StartOfAuthority => Some([HostPath, "-tsoa", host])
    case Top => Some(Ssh("i", f, host, TopScript))
    case Traceroute => Some(["traceroute", host])
    case TracerouteIcmp => Some(["sudo", "traceroute", "-I", host])
    case Uname => Some(Ssh("i", f, host, UnameScript))
    case Uptime => Some(Ssh("i", f, host, UptimePath))
    case Vmstat => Some(Ssh("i", f, host, VmstatPath + " -SM"))
    case RemoteCommand => Some(Ssh((if f.tty then "tt" else "") + "i", f, host, command))
  }

  /** The branches that go through ssh, and those that go through scp. */
  predicate SshMode(m: Mode) {
    m in {DmiDecode, DiskUsage, Top, Uname, Uptime, Vmstat, RemoteCommand}
  }

  predicate ScpMode(m: Mode) {
    m in {CopyRecursive, Copy, DownloadRecursive, Download}
  }

  /** The shape of an ssh command line: the verbosity prefix leads the
      options, the identity file follows, a login appears as `-l login`
      exactly when one is given, the port follows -p, and the host comes just
      before the remote command. */
  lemma SshShape(letters: string, f: Flags, host: string, remote: string)
    ensures var a := Ssh(letters, f, host, remote);
            |a| == (if f.login != "" then 12 else 10) &&
            a[0] == SshPath && a[1] == Verbosity(f) + letters && a[2] == f.id &&
            (a[3] == "-l" && a[4] == f.login <==> f.login != "") &&
            a[|a| - 7..|a| - 2] == ["-p", f.port, BatchMode, StrictHostKey, "-oConnectTimeout=" + f.timeout] &&
            a[|a| - 2] == host && a[|a| - 1] == remote
  {
    var a := Ssh(letters, f, host, remote);
    if f.login == "" {
      assert a[3] == "-p";
    }
  }

  /** Every ssh branch has that shape, with the host trimmed of newlines,
      and ends with its own remote command: the dmidecode script for -dd,
      du over -du's path, top, uname, uptime and vmstat for -top, -uname,
      -u and -vm, and the command itself otherwise. */
  lemma SshArgv(f: Flags, ddir: int, command: string, hostname: string, goos: string, st: DirState)
    requires SshMode(SelectMode(f))
    ensures var a := Argv(f, ddir, command, hostname, goos, st);
            a.Some? && |a.value| == (if f.login != "" then 12 else 10) &&
            a.value[0] == SshPath &&
            a.value[1] == Verbosity(f) + SshLetters(f) &&
            a.value[2] == f.id &&
            (a.value[3] == "-l" && a.value[4] == f.login <==> f.login != "") &&
            a.value[|a.value| - 7..|a.value| - 2] == ["-p", f.port, BatchMode, StrictHostKey, "-oConnectTimeout=" + f.timeout] &&
            a.value[|a.value| - 2] == TrimNewlines(hostname) &&
            var m := SelectMode(f);
            (m == DmiDecode ==> a.value[|a.value| - 1] == DmiDecodeScript) &&
            (m == DiskUsage ==> a.value[|a.value| - 1] == "sudo " + DuPath + " -amx " + f.disku + " |sort -rn |head -20") &&
            (m == Top ==> a.value[|a.value| - 1] == TopScript) &&
            (m == Uname ==> a.value[|a.value| - 1] == UnameScript) &&
            (m == Uptime ==> a.value[|a.value| - 1] == UptimePath) &&
            (m == Vmstat ==> a.value[|a.value| - 1] == VmstatPath + " -SM") &&
            (m == RemoteCommand ==> a.value[|a.value| - 1] == command)
  {
    var letters, remote := SshBranch(f, ddir, command, hostname, goos, st);
    SshShape(letters, f, TrimNewlines(hostname), remote);
  }

  /** The option letters after the verbosity prefix: -dd and -du force a tty
      (`tti`), the default branch does so under -t, the others use `i`. */
  function SshLetters(f: Flags): string {
    var m := SelectMode(f);
    if m == DmiDecode || m == DiskUsage || (m == RemoteCommand && f.tty) then "tti" else "i"
  }

  /** Each ssh branch is Ssh with its own option letters and remote command. */
  lemma SshBranch(f: Flags, ddir: int, command: string, hostname: string, goos: string, st: DirState)
    returns (letters: string, remote: string)
    requires SshMode(SelectMode(f))
    ensures letters == SshLetters(f)
    ensures var m := SelectMode(f);
            (m == DmiDecode ==> remote == DmiDecodeScript) &&
            (m == DiskUsage ==> remote == "sudo " + DuPath + " -amx " + f.disku + " |sort -rn |head -20") &&
            (m == Top ==> remote == TopScript) &&
            (m == Uname ==> remote == UnameScript) &&
            (m == Uptime ==> remote == UptimePath) &&
            (m == Vmstat ==> remote == VmstatPath + " -SM") &&
            (m == RemoteCommand ==> remote == command)
    ensures Argv(f, ddir, command, hostname, goos, st) == Some(Ssh(letters, f, TrimNewlines(hostname), remote))
  {
    var m := SelectMode(f);
    letters := match m
      case DmiDecode => "tti"
      case DiskUsage => "tti"
      case RemoteCommand => (if f.tty then "tt" else "") + "i"
      case _ => "i";
    remote := match m
      case DmiDecode => DmiDecodeScript
      case DiskUsage => "sudo " + DuPath + " -amx " + f.disku + " |sort -rn |head -20"
      case Top => TopScript
      case Uname => UnameScript
      case Uptime => UptimePath
      case Vmstat => VmstatPath + " -SM"
      case _ => command;
  }

  /** The branches that run one local program against the host: the host
      (trimmed) is its last argument, except for -nc, which probes -P's port
      on it; -cname, -mx and -soa ask host(1) for their record type, -ns
      asks it for the address; -ping runs the shell with the Linux timeout
      `-W3` exactly when GOOS is linux, and -tri runs traceroute over ICMP
      as root. */
  lemma DirectArgv(f: Flags, ddir: int, command: string, hostname: string, goos: string, st: DirState)
    requires SelectMode(f) in {CName, NameServer, Nmap, Netcat, MailExchanger, Ping,
                               StartOfAuthority, Traceroute, TracerouteIcmp}
    ensures var a := Argv(f, ddir, command, hostname, goos, st);
            var host := TrimNewlines(hostname);
            var m := SelectMode(f);
            a.Some? && 2 <= |a.value| <= 4 &&
            (m != Netcat && m != Ping ==> a.value[|a.value| - 1] == host) &&
            (m == Netcat ==> a.value == [NcPath, "-w1", host, f.port]) &&
            (m in {CName, NameServer, MailExchanger, StartOfAuthority} ==> a.value[0] == HostPath) &&
            (m == CName ==> a.value[1] == "-tcname" && |a.value| == 3) &&
            (m == MailExchanger ==> a.value[1] == "-tmx" && |a.value| == 3) &&
            (m == StartOfAuthority ==> a.value[1] == "-tsoa" && |a.value| == 3) &&
            (m == NameServer ==> |a.value| == 2) &&
            (m == Nmap ==> a.value[0] == "nmap" && |a.value| == 2) &&
            (m == Traceroute ==> a.value[0] == "traceroute" && |a.value| == 2) &&
            (m == TracerouteIcmp ==> a.value[..3] == ["sudo", "traceroute", "-I"] && |a.value| == 4) &&
            (m == Ping ==> |a.value| == 3 && a.value[..2] == ["/bin/sh", "-c"] &&
                           Contains(a.value[2], host) &&
                           (HasPrefix(a.value[2], "ping -nc1 -s16 -W3 ") <==> goos == "linux"))
  {
    var host := TrimNewlines(hostname);
    if SelectMode(f) == Ping {
      var script := PingScript(goos, host);
      var lead := if goos == "linux" then "ping -nc1 -s16 -W3 " else "ping -nc1 -s16 -W3000 ";
      assert script == lead + host + " |grep from";
      assert script[|lead|..|lead| + |host|] == host;
      ContainsAt(script, host, |lead|);
      if goos != "linux" {
        assert script[18] == '0';
      }
    }
  }

  /** The default branch sends the command itself, with `tt` (forced tty)
      when -t is given. */
  lemma RemoteCommandArgv(f: Flags, ddir: int, command: string, hostname: string, goos: string, st: DirState)
    requires SelectMode(f) == RemoteCommand
    ensures var a := Argv(f, ddir, command, hostname, goos, st).value;
            a[1] == Verbosity(f) + (if f.tty then "tti" else "i") && a[|a| - 1] == command
  {
  }

  /** Every scp branch: the port follows -P, and the remote operand names the
      host as `login@host:file` when a login is given and `host:file`
      otherwise; copies go to -p's path, downloads come from -d's file. */
  lemma ScpArgv(f: Flags, ddir: int, command: string, hostname: string, goos: string, st: DirState)
    requires ScpMode(SelectMode(f))
    ensures var a := Argv(f, ddir, command, hostname, goos, st);
            var host := TrimNewlines(hostname);
            var m := SelectMode(f);
            var rec := m == CopyRecursive || m == DownloadRecursive;
            a.Some? && |a.value| == (if rec then 11 else 10) &&
            a.value[0] == ScpPath &&
            a.value[1] == Verbosity(f) + (if rec then "r" else "i") &&
            (rec ==> a.value[2] == "-i" && a.value[3] == f.id) &&
            (!rec ==> a.value[2] == f.id) &&
            a.value[|a.value| - 7..|a.value| - 2] == ["-P", f.port, BatchMode, StrictHostKey, "-oConnectTimeout=" + f.timeout] &&
            (m == Copy || m == CopyRecursive ==>
               a.value[|a.value| - 2] == f.copy &&
               a.value[|a.value| - 1] == Remote(f.login, host, f.path)) &&
            (m == Download || m == DownloadRecursive ==>
               a.value[|a.value| - 2] == Remote(f.login, host, f.download) &&
               a.value[|a.value| - 1] == (if ddir == 1 then Exist(host, f.path, st) else f.path))
  {
    var recursive, from, to := ScpBranch(f, ddir, command, hostname, goos, st);
    ScpShape(recursive, f, from, to);
  }

  /** The shape of an scp command line: the verbosity prefix with r or i
      leads, a recursive copy names the identity after -i and a plain one
      right after the prefix, the port follows -P, and the two operands close it. */
  lemma ScpShape(recursive: bool, f: Flags, from: string, to: string)
    ensures var a := Scp(recursive, f, from, to);
            |a| == (if recursive then 11 else 10) &&
            a[0] == ScpPath && a[1] == Verbosity(f) + (if recursive then "r" else "i") &&
            (if recursive then a[2] == "-i" && a[3] == f.id else a[2] == f.id) &&
            a[|a| - 7..|a| - 2] == ["-P", f.port, BatchMode, StrictHostKey, "-oConnectTimeout=" + f.timeout] &&
            a[|a| - 2] == from && a[|a| - 1] == to
  {
  }

  /** Each scp branch is Scp with its own recursion flag and operands. */
  lemma ScpBranch(f: Flags, ddir: int, command: string, hostname: string, goos: string, st: DirState)
    returns (recursive: bool, from: string, to: string)
    requires ScpMode(SelectMode(f))
    ensures Argv(f, ddir, command, hostname, goos, st) == Some(Scp(recursive, f, from, to))
    ensures var host := TrimNewlines(hostname);
            var m := SelectMode(f);
            (m == Copy || m == CopyRecursive ==> from == f.copy && to == Remote(f.login, host, f.path)) &&
            (m == Download || m == DownloadRecursive ==>
               from == Remote(f.login, host, f.download) && to == DownloadTarget(f, ddir, host, st))
  {
    var host := TrimNewlines(hostname);
    var m := SelectMode(f);
    recursive := m == CopyRecursive || m == DownloadRecursive;
    if m == Copy || m == CopyRecursive {
      from, to := f.copy, Remote(f.login, host, f.path);
    } else {
      from, to := Remote(f.login, host, f.download), DownloadTarget(f, ddir, host, st);
    }
  }

  /** -cmd: the command's words (split at single spaces) followed by the
      host, the command coming back whole when the words are joined; more
      than five words give no command at all. */
  lemma LocalCommandArgv(f: Flags, ddir: int, command: string, hostname: string, goos: string, st: DirState)
    requires SelectMode(f) == LocalCommand
    ensures var a := Argv(f, ddir, command, hostname, goos, st);
            (a.Some? <==> |Split(command, ' ')| <= 5) &&
            (a.Some? ==> a.value[|a.value| - 1] == TrimNewlines(hostname) &&
                         JoinWith(a.value[..|a.value| - 1], ' ') == command &&
                         forall k :: 0 <= k < |a.value| - 1 ==> ' ' !in a.value[k])
  {
    JoinSplit(command, ' ');
    var words := Split(command, ' ');
    assert forall k :: 0 <= k < |words| ==> words[k] in words;
    assert (words + [TrimNewlines(hostname)])[..|words|] == words;
  }

  /** What CombinedOutput reports: the output bytes (as text) and whether
      the command failed (err != nil). */
  datatype Outcome = Outcome(output: string, failed: bool)

  /** The text run returns for one host. */
  function Report(host: string, o: Outcome, one: bool): string {
    if o.failed then host + ": " + o.output
    else if one then host + ": " + o.output
    else host + ":\n" + o.output
  }

  /** run: build the command, let the oracle run it, report. None is the panic
      of the nil command. */
  function Run(f: Flags, ddir: int, command: string, hostname: string, goos: string,
               st: DirState, exec: seq<string> -> Outcome): (r: Option<string>)
    ensures r.Some? <==> Argv(f, ddir, command, hostname, goos, st).Some?
  {
    match Argv(f, ddir, command, hostname, goos, st)
    case None => None
    case Some(argv) => Some(Report(TrimNewlines(hostname), exec(argv), f.one))
  }

  /** The report starts with the host, trimmed of surrounding newlines, and
      a colon; a newline follows the colon exactly when the command succeeded
      outside one-line mode, otherwise a space does, and the output closes
      the report unchanged. */
  lemma RunReport(f: Flags, ddir: int, command: string, hostname: string, goos: string,
                  st: DirState, exec: seq<string> -> Outcome)
    requires Argv(f, ddir, command, hostname, goos, st).Some?
    ensures var r := Run(f, ddir, command, hostname, goos, st, exec).value;
            var host := TrimNewlines(hostname);
            var o := exec(Argv(f, ddir, command, hostname, goos, st).value);
            |r| == |host| + 2 + |o.output| &&
            r[..|host|] == host && r[|host|] == ':' &&
            (r[|host| + 1] == '\n' <==> !o.failed && !f.one) &&
            (r[|host| + 1] == ' ' <==> o.failed || f.one) &&
            r[|host| + 2..] == o.output
  {
    ReportShape(TrimNewlines(hostname), exec(Argv(f, ddir, command, hostname, goos, st).value), f.one);
  }

  /** A report is the host, a colon, one separator character, the output. */
  lemma ReportShape(host: string, o: Outcome, one: bool)
    ensures var r := Report(host, o, one);
            |r| == |host| + 2 + |o.output| &&
            r[..|host|] == host && r[|host|] == ':' &&
            (r[|host| + 1] == '\n' <==> !o.failed && !one) &&
            (r[|host| + 1] == ' ' <==> o.failed || one) &&
            r[|host| + 2..] == o.output
  {
    var sep := if o.failed || one then ": " else ":\n";
    var r := Report(host, o, one);
    assert r == host + sep + o.output;
    assert r[..|host|] == host;
    assert r[|host|..|host| + 2] == sep;
    assert r[|host| + 2..] == o.output;
  }
}
