/** main (cs/cs.go:380-515) put together: checkArgs picks the command and
    the hosts, ddir is set for more than one host, run produces one report
    per host, and the collecting loop writes standard output and the log.
    Everything outside the program is a World: the contents of the hosts
    file and the script file, GOOS, what os.Stat finds, what each command
    prints, and the order in which the goroutines deliver their reports. */
module Cs {
  import opened Wrappers
  import opened GoStrings
  import opened Options
  import Args
  import Action
  import Collector

  datatype World = World(
    hostsText: Option<string>,                     // the -h file, None when it cannot be opened
    scriptText: Option<string>,                    // the -f file, likewise
    goos: string,                                  // runtime.GOOS
    dir: string -> Action.DirState,                // os.Stat(path/host) for each host
    exec: seq<string> -> Action.Outcome,           // CombinedOutput of each command line
    deliver: seq<string> -> seq<string>            // arrival order of the reports, host order in
  )

  /** The goroutines deliver every report exactly once, in some order. */
  ghost predicate Delivers(w: World) {
    forall rs :: multiset(w.deliver(rs)) == multiset(rs)
  }

  /** Why cs stops without writing its summary: checkArgs gives up, or the
      nil command of -cmd panics. */
  datatype Stop = ArgsStop(reason: Args.ArgsError) | NilCommand

  datatype Outputs = Outputs(stdout: seq<string>, log: seq<string>)

  /** ddir: one download directory per host when there is more than one. */
  function DDir(hosts: seq<string>): int {
    if |hosts| > 1 then 1 else 0
  }

  /** The presentation flags the collecting loop reads. */
  function PolicyOf(f: Flags): Collector.Policy {
    Collector.Policy(f.sorted, f.quiet, f.errorsOnly, f.out != "", f.one)
  }

  /** run for every host, in host order; None when a command is nil. */
  function Reports(f: Flags, ddir: int, command: string, hosts: seq<string>, w: World)
    : (rs: Option<seq<string>>)
    ensures rs.Some? ==> |rs.value| == |hosts|
    ensures rs.Some? ==> forall k :: 0 <= k < |hosts| ==>
              RunOn(f, ddir, command, hosts[k], w) == Some(rs.value[k])
    ensures rs.None? <==> exists k :: 0 <= k < |hosts| && RunOn(f, ddir, command, hosts[k], w).None?
  {
    var run := host => RunOn(f, ddir, command, host, w);
    var rs := Each(run, hosts);
    assert forall k :: 0 <= k < |hosts| ==> run(hosts[k]) == RunOn(f, ddir, command, hosts[k], w);
    rs
  }

  /** One result per element, in order, or None as soon as one is None. */
  function Each(run: string -> Option<string>, hosts: seq<string>): (rs: Option<seq<string>>)
    ensures rs.Some? ==> |rs.value| == |hosts|
    ensures rs.Some? ==> forall k :: 0 <= k < |hosts| ==> run(hosts[k]) == Some(rs.value[k])
    ensures rs.None? <==> exists k :: 0 <= k < |hosts| && run(hosts[k]).None?
    decreases |hosts|
  {
    if hosts == [] then Some([])
    else
      match run(hosts[0])
      case None => None
      case Some(r) =>
        match Each(run, hosts[1..])
        case None =>
          var k :| 0 <= k < |hosts| - 1 && run(hosts[1..][k]).None?;
          assert run(hosts[k + 1]).None?;
          None
        case Some(rest) =>
          assert forall k :: 1 <= k < |hosts| ==> hosts[k] == hosts[1..][k - 1];
          Some([r] + rest)
  }

  /** The goroutine of one host: run with what the World says about it. */
  function RunOn(f: Flags, ddir: int, command: string, host: string, w: World): Option<string> {
    Action.Run(f, ddir, command, host, w.goos, w.dir(TrimNewlines(host)), w.exec)
  }

  /** One invocation of cs after flag parsing. */
  function Main(f: Flags, argv: seq<string>, w: World, start: string, end: string)
    : Result<Outputs, Stop>
    requires Delivers(w)
  {
    match Args.CheckArgs(Args.NoCmd(f), f.copy, f.download, f.file, f.hostsfile, f.tty,
                         argv, w.hostsText, w.scriptText)
    case Failure(e) => Failure(ArgsStop(e))
    case Success(job) =>
      match Reports(f, DDir(job.hosts), job.command, job.hosts, w)
      case None => Failure(NilCommand)
      case Some(rs) =>
        var arrivals := w.deliver(rs);
        var p := PolicyOf(f);
        Success(Outputs(Collector.Stdout(p, arrivals), Collector.Log(p, arrivals, start, end)))
  }

  /** nocmd and run's branches agree on whether a command is expected:
      without -c or -d, a command argument is taken exactly for the
      branches that run it (-cmd and plain ssh). The one exception is -cmd
      combined with a no-command flag that comes later in run's chain
      (-soa, -top, -tr, -tri, -uname, -u, -vm): checkArgs takes no command,
      yet run takes the -cmd branch with the empty command. */
  lemma CommandUse(f: Flags)
    requires f.copy == "" && f.download == ""
    ensures var m := Action.SelectMode(f);
            Args.NoCmd(f) == 0 ==> m == Action.LocalCommand || m == Action.RemoteCommand
    ensures var m := Action.SelectMode(f);
            Args.NoCmd(f) == 1 && !f.lcmd ==> m != Action.LocalCommand && m != Action.RemoteCommand
    ensures Args.NoCmd(f) == 1 && f.lcmd &&
            !(f.cname || f.dd || f.disku != "" || f.ns || f.nmap || f.netcat || f.mx || f.png) ==>
              Action.SelectMode(f) == Action.LocalCommand
  {
  }

  /** Downloads land in -p's path itself for a single host; with more than
      one host each host gets its own entry under that path, named after the
      host (with ".host" appended when a plain file is in the way). */
  lemma DownloadTargets(f: Flags, hosts: seq<string>, host: string, st: Action.DirState)
    ensures |hosts| <= 1 ==> Action.DownloadTarget(f, DDir(hosts), host, st) == f.path
    ensures |hosts| > 1 ==>
              var t := Action.DownloadTarget(f, DDir(hosts), host, st);
              (t == f.path + "/" + host <==> st != Action.NotDirectory) &&
              (t == f.path + "/" + host + ".host" <==> st == Action.NotDirectory)
  {
  }

  /** How the collector classifies what run reports: a success outside -1
      always has ":\n" right after the host name, so it never counts as a
      failure; a failure, and under -1 any report, counts as a failure
      exactly when neither the host name nor the output holds ":\n". Under
      -1 a successful command therefore shows up as a failure, gets its
      [ERROR] tag under -q, and passes the -e filter. */
  lemma Classification(host: string, o: Action.Outcome, one: bool)
    ensures !o.failed && !one ==> !Collector.IsError(Action.Report(host, o, one))
    ensures o.failed || one ==>
              (Collector.IsError(Action.Report(host, o, one)) <==>
                 !Contains(host, ":\n") && !Contains(o.output, ":\n"))
  {
    var r := Action.Report(host, o, one);
    if !o.failed && !one {
      assert r == host + ":\n" + o.output;
      assert r[|host|..|host| + 2] == ":\n";
      ContainsAt(r, ":\n", |host|);
    } else {
      var tail := ": " + o.output;
      assert r == host + tail;
      ColonNewlineConcat(host, tail);
      ColonNewlineConcat(": ", o.output);
      ColonNewlineConcat(":", " ");
      assert ":" + " " == ": ";
      assert !Contains(":", ":\n") && !Contains(" ", ":\n") by {
        assert ":"[1..] == [] && " "[1..] == [];
      }
    }
  }

  /** Under -q a host shows as its name and its status tag, provided the
      name holds no ':'. */
  lemma QuietReport(host: string, o: Action.Outcome, one: bool)
    requires ':' !in host
    ensures var r := Action.Report(host, o, one);
            Collector.QuietLine(r) == host + (if Collector.IsError(r) then "\t[ERROR]\n" else "\t[OK]\n")
  {
    var r := Action.Report(host, o, one);
    var rest := if o.failed || one then " " + o.output else "\n" + o.output;
    assert r == host + [':'] + rest;
    var n := Collector.Normalize(r);
    assert n == host + [':'] + (if n == r then rest else rest + "\n");
    SplitBefore(host, ':', if n == r then rest else rest + "\n");
  }

  /** Sorted mode gives the same output and the same log whatever order
      the reports arrive in. */
  lemma SortedMainIndependentOfArrival(f: Flags, argv: seq<string>, w1: World, w2: World,
                                       start: string, end: string)
    requires Delivers(w1) && Delivers(w2) && f.sorted
    requires w1.(deliver := w2.deliver) == w2
    ensures Main(f, argv, w1, start, end) == Main(f, argv, w2, start, end)
  {
    var job := Args.CheckArgs(Args.NoCmd(f), f.copy, f.download, f.file, f.hostsfile, f.tty,
                              argv, w1.hostsText, w1.scriptText);
    if job.Success? {
      var hosts, command := job.value.hosts, job.value.command;
      ReportsIgnoreDelivery(f, DDir(hosts), command, hosts, w1, w2);
      var rs := Reports(f, DDir(hosts), command, hosts, w1);
      if rs.Some? {
        var a1, a2 := w1.deliver(rs.value), w2.deliver(rs.value);
        Collector.SortedOrderIndependent(PolicyOf(f), a1, a2, start, end);
      }
    }
  }

  /** The reports depend on the World only through what run sees of it. */
  lemma ReportsIgnoreDelivery(f: Flags, ddir: int, command: string,
                              hosts: seq<string>, w1: World, w2: World)
    requires w1.(deliver := w2.deliver) == w2
    ensures Reports(f, ddir, command, hosts, w1) == Reports(f, ddir, command, hosts, w2)
  {
    var r1, r2 := Reports(f, ddir, command, hosts, w1), Reports(f, ddir, command, hosts, w2);
    assert forall h :: RunOn(f, ddir, command, h, w1) == RunOn(f, ddir, command, h, w2);
    if r1.Some? && r2.Some? {
      assert r1.value == r2.value;
    }
  }

  /** When cs gets as far as its summary, the summary is its last line on
      standard output: the number of hosts checkArgs found and the number of
      reports classified as failures. */
  lemma MainSummary(f: Flags, argv: seq<string>, w: World, start: string, end: string)
    requires Delivers(w) && !f.one
    ensures var r := Main(f, argv, w, start, end);
            var job := Args.CheckArgs(Args.NoCmd(f), f.copy, f.download, f.file, f.hostsfile,
                                      f.tty, argv, w.hostsText, w.scriptText);
            r.Success? ==>
              job.Success? &&
              var rs := Reports(f, DDir(job.value.hosts), job.value.command, job.value.hosts, w);
              rs.Some? &&
              var out := r.value.stdout;
              out != [] &&
              out[|out| - 1] == Collector.Summary(|job.value.hosts|, Collector.ErrorCount(rs.value))
  {
    var job := Args.CheckArgs(Args.NoCmd(f), f.copy, f.download, f.file, f.hostsfile, f.tty,
                              argv, w.hostsText, w.scriptText);
    if job.Success? {
      var rs := Reports(f, DDir(job.value.hosts), job.value.command, job.value.hosts, w);
      if rs.Some? {
        var arrivals := w.deliver(rs.value);
        var p := PolicyOf(f);
        assert Main(f, argv, w, start, end).value.stdout == Collector.Stdout(p, arrivals);
        assert |rs.value| == |job.value.hosts|;
        assert multiset(arrivals) == multiset(rs.value);
        assert |arrivals| == |multiset(arrivals)| == |multiset(rs.value)| == |rs.value|;
        Collector.ErrorCountPermutation(arrivals, rs.value);
        Collector.SummaryLast(p, arrivals);
      }
    }
  }
}
