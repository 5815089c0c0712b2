/** The collecting loop of main (cs/cs.go:401-515): it receives one report
    per host, in whatever order the goroutines finish, classifies it,
    counts the failures, and shows or logs it under -s, -q, -e, -o and -1.
    The channel becomes the sequence `arrivals` of reports in arrival
    order; standard output and the log file become the sequences of strings
    written to them, one element per Print or WriteString call; the two
    timestamps are opaque text. */
module Collector {
  import opened GoStrings
  import opened Lex

  /** The presentation flags: -s, -q, -e, -o given (a log file name), -1. */
  datatype Policy = Policy(sorted: bool, quiet: bool, errorsOnly: bool, logging: bool, one: bool)

  /** A report counts as a failure when it lacks ":\n". */
  predicate IsError(c: string) {
    !Contains(c, ":\n")
  }

  /** A failure report without any newline gets one appended, so that
      every failure ends up holding a line break; reports are only ever
      extended, by at most that one character, and successes pass as they
      are. */
  function Normalize(c: string): (n: string)
    ensures HasPrefix(n, c) && |n| <= |c| + 1
    ensures IsError(c) ==> Contains(n, "\n")
    ensures !IsError(c) || Contains(c, "\n") ==> n == c
  {
    if IsError(c) && !Contains(c, "\n") then
      ContainsAt(c + "\n", "\n", |c|);
      c + "\n"
    else c
  }

  /** Whether -e lets the report through. */
  predicate Shown(p: Policy, c: string) {
    !p.errorsOnly || IsError(c)
  }

  /** The quiet line: the text before the first ':' of the report and its
      status tag. */
  function QuietLine(c: string): string {
    Split(Normalize(c), ':')[0] + (if IsError(c) then "\t[ERROR]\n" else "\t[OK]\n")
  }

  /** Number of failure reports. */
  function ErrorCount(cs: seq<string>): (e: nat)
    ensures e <= |cs|
  {
    if cs == [] then 0
    else ErrorCount(cs[..|cs| - 1]) + (if IsError(cs[|cs| - 1]) then 1 else 0)
  }

  /** The reports -e lets through, in arrival order. */
  function Kept(p: Policy, cs: seq<string>): seq<string> {
    if cs == [] then []
    else Kept(p, cs[..|cs| - 1]) + (if Shown(p, cs[|cs| - 1]) then [cs[|cs| - 1]] else [])
  }

  /** f applied to each element. */
  function Map(f: string -> string, cs: seq<string>): (r: seq<string>)
    ensures |r| == |cs| && forall k :: 0 <= k < |cs| ==> r[k] == f(cs[k])
  {
    seq(|cs|, k requires 0 <= k < |cs| => f(cs[k]))
  }

  function Normalized(cs: seq<string>): seq<string> {
    Map(Normalize, cs)
  }

  function QuietLines(cs: seq<string>): seq<string> {
    Map(QuietLine, cs)
  }

  /** Sorted mode: what slot mk[i] holds once report i has arrived. Filtered
      reports leave their slot empty, and under -q the full text is kept only
      when there is a log file to write it to. */
  function Slot(p: Policy, c: string): string {
    if Shown(p, c) && (!p.quiet || p.logging) then Normalize(c) else ""
  }

  /** Sorted and quiet mode: what slot mk2[i] holds. */
  function QuietSlot(p: Policy, c: string): string {
    if Shown(p, c) then QuietLine(c) else ""
  }

  function Slots(p: Policy, cs: seq<string>): seq<string> {
    Map(c => Slot(p, c), cs)
  }

  function QuietSlots(p: Policy, cs: seq<string>): seq<string> {
    Map(c => QuietSlot(p, c), cs)
  }

  /** The final tally. */
  function Summary(hosts: nat, errors: nat): string {
    "hosts = " + Decimal(hosts) + ", errors = " + Decimal(errors) + "\n"
  }

  function StartLine(timestamp: string): string {
    "------ START: " + timestamp + " ------\n"
  }

  function EndLine(timestamp: string): string {
    "------   END: " + timestamp + " ------\n"
  }

  /** The reports written to standard output before the summary. */
  function Shows(p: Policy, cs: seq<string>): seq<string> {
    if p.sorted then
      if p.quiet then Sort(QuietSlots(p, cs)) else Sort(Slots(p, cs))
    else if p.quiet then QuietLines(Kept(p, cs))
    else Normalized(Kept(p, cs))
  }

  /** The reports written to the log file between its START and END lines. */
  function Logs(p: Policy, cs: seq<string>): seq<string> {
    if p.sorted then Sort(Slots(p, cs)) else Normalized(Kept(p, cs))
  }

  /** Everything written to standard output. */
  function Stdout(p: Policy, cs: seq<string>): seq<string> {
    Shows(p, cs) + (if p.one then [] else [Summary(|cs|, ErrorCount(cs))])
  }

  /** Everything appended to the log file. */
  function Log(p: Policy, cs: seq<string>, start: string, end: string): seq<string> {
    if p.logging then [StartLine(start)] + Logs(p, cs) + [EndLine(end)] else []
  }

  /** One more arrival adds one to the tally exactly when it is a failure. */
  lemma ErrorStep(cs: seq<string>, c: string)
    ensures ErrorCount(cs + [c]) == ErrorCount(cs) + (if IsError(c) then 1 else 0)
  {
    assert (cs + [c])[..|cs|] == cs;
  }

  /** When streaming, one more arrival appends its line to standard output
      and its text to the log, unless -e filters it. */
  lemma StreamStep(p: Policy, cs: seq<string>, c: string)
    requires !p.sorted
    ensures Shows(p, cs + [c]) == Shows(p, cs) +
              (if !Shown(p, c) then [] else if p.quiet then [QuietLine(c)] else [Normalize(c)])
    ensures Logs(p, cs + [c]) == Logs(p, cs) + (if Shown(p, c) then [Normalize(c)] else [])
  {
    assert (cs + [c])[..|cs|] == cs;
    var k := Kept(p, cs);
    var k2 := Kept(p, cs + [c]);
    assert k2 == k + (if Shown(p, c) then [c] else []);
    assert Normalized(k2) == Normalized(k) + (if Shown(p, c) then [Normalize(c)] else []);
    assert QuietLines(k2) == QuietLines(k) + (if Shown(p, c) then [QuietLine(c)] else []);
  }

  /** Writes every slot of `a`, in order, after what `w` already holds. */
  method WriteAll(w: seq<string>, a: array<string>) returns (w': seq<string>)
    ensures w' == w + a[..]
  {
    w' := w;
    for j := 0 to a.Length
      invariant w' == w + a[..j]
    {
      w' := w' + [a[j]];
    }
    assert a[..a.Length] == a[..];
  }

  /** The classification at the top of the loop: a report without ":\n"
      is a failure, and a failure report without any newline gets one. */
  method Classify(report: string) returns (c: string, err: bool)
    ensures err == IsError(report) && c == Normalize(report)
  {
    c := report;
    err := false;
    if !Contains(c, ":\n") {
      err := true;
      if !Contains(c, "\n") {
        c := c + "\n";
      }
    }
  }

  /** The -s branch of the loop body: file report number i in its slots. */
  method Store(p: Policy, ghost report: string, c: string, err: bool, i: nat,
               mk: array<string>, mk2: array<string>)
    requires p.sorted && c == Normalize(report) && err == IsError(report)
    requires i < mk.Length && (p.quiet ==> i < mk2.Length) && mk != mk2
    requires mk[i] == "" && (p.quiet ==> mk2[i] == "")
    modifies mk, mk2
    ensures mk[..] == old(mk[..])[i := Slot(p, report)]
    ensures p.quiet ==> mk2[..] == old(mk2[..])[i := QuietSlot(p, report)]
    ensures !p.quiet ==> mk2[..] == old(mk2[..])
  {
    if p.errorsOnly && !err {
      return;
    }
    if p.quiet {
      if p.logging {
        mk[i] := c;
      }
      var split := Split(c, ':');
      if err {
        mk2[i] := split[0] + "\t[ERROR]\n";
        return;
      }
      mk2[i] := split[0] + "\t[OK]\n";
      return;
    }
    mk[i] := c;
  }

  /** The streaming branch of the loop body: log the report, then print it
      or its quiet line, both unless -e filters it out. */
  method Stream(p: Policy, ghost report: string, c: string, err: bool,
                stdout: seq<string>, log: seq<string>)
    returns (stdout': seq<string>, log': seq<string>)
    requires c == Normalize(report) && err == IsError(report)
    ensures stdout' == stdout +
              (if !Shown(p, report) then [] else if p.quiet then [QuietLine(report)] else [c])
    ensures log' == log + (if p.logging && Shown(p, report) then [c] else [])
  {
    stdout', log' := stdout, log;
    if p.logging {
      if p.errorsOnly && !err {
        return;
      }
      log' := log' + [c];
    }
    if p.quiet {
      var split := Split(c, ':');
      assert QuietLine(report) == split[0] + (if err then "\t[ERROR]\n" else "\t[OK]\n");
      assert split[0] + "\t[ERROR]" + "\n" == split[0] + "\t[ERROR]\n";
      assert split[0] + "\t[OK]" + "\n" == split[0] + "\t[OK]\n";
      if p.errorsOnly && !err {
        return;
      }
      if err {
        stdout' := stdout' + [split[0] + "\t[ERROR]" + "\n"];
        return;
      }
      stdout' := stdout' + [split[0] + "\t[OK]" + "\n"];
      return;
    }
    if p.errorsOnly && !err {
      return;
    }
    stdout' := stdout' + [c];
  }

  /** main from the START line on: the receive loop, then the sorted
      emission, the summary and the END line. */
  method Collect(p: Policy, arrivals: seq<string>, start: string, end: string)
    returns (stdout: seq<string>, log: seq<string>)
    ensures stdout == Stdout(p, arrivals)
    ensures log == Log(p, arrivals, start, end)
  {
    var n := |arrivals|;
    log := if p.logging then [StartLine(start)] else [];
    var mk := NewSlots(if p.sorted then n else 0);
    var mk2 := NewSlots(if p.sorted && p.quiet then n else 0);
    var e;
    stdout, log, e := Receive(p, arrivals, mk, mk2, log);

    if p.sorted {
      stdout, log := EmitSorted(p, arrivals, mk, mk2, log);
    }
    ghost var shows, logs := Shows(p, arrivals), Logs(p, arrivals);
    assert stdout == shows;
    assert log == if p.logging then [StartLine(start)] + logs else [];

    if !p.one {
      stdout := stdout + [Summary(n, e)];
    }
    if p.logging {
      log := log + [EndLine(end)];
    }
    assert Stdout(p, arrivals) == shows + (if p.one then [] else [Summary(n, e)]);
    assert Log(p, arrivals, start, end) == if p.logging then [StartLine(start)] + logs + [EndLine(end)] else [];
  }

  /** The -s emission after the loop: sort the slots, log them, and print
      them or their quiet lines. */
  method EmitSorted(p: Policy, arrivals: seq<string>, mk: array<string>, mk2: array<string>,
                    head: seq<string>)
    returns (stdout: seq<string>, log: seq<string>)
    requires p.sorted && mk != mk2
    requires mk[..] == Slots(p, arrivals)
    requires p.quiet ==> mk2[..] == QuietSlots(p, arrivals)
    modifies mk, mk2
    ensures stdout == Shows(p, arrivals)
    ensures log == head + (if p.logging then Logs(p, arrivals) else [])
  {
    stdout, log := [], head;
    SortStrings(mk);
    if p.logging {
      log := WriteAll(log, mk);
    }
    if p.quiet {
      SortStrings(mk2);
      stdout := WriteAll(stdout, mk2);
    } else {
      stdout := WriteAll(stdout, mk);
    }
  }

  /** The receive loop: one report per host, counted, then filed in its
      slots (-s) or shown and logged at once. */
  method Receive(p: Policy, arrivals: seq<string>, mk: array<string>, mk2: array<string>,
                 head: seq<string>)
    returns (stdout: seq<string>, log: seq<string>, e: nat)
    requires mk.Length == (if p.sorted then |arrivals| else 0)
    requires mk2.Length == (if p.sorted && p.quiet then |arrivals| else 0)
    requires mk != mk2
    requires mk[..] == Blanks(mk.Length) && mk2[..] == Blanks(mk2.Length)
    modifies mk, mk2
    ensures e == ErrorCount(arrivals)
    ensures p.sorted ==> mk[..] == Slots(p, arrivals) && stdout == [] && log == head
    ensures p.sorted && p.quiet ==> mk2[..] == QuietSlots(p, arrivals)
    ensures !p.sorted ==> stdout == Shows(p, arrivals)
    ensures !p.sorted ==> log == head + (if p.logging then Logs(p, arrivals) else [])
  {
    var n := |arrivals|;
    stdout, log, e := [], head, 0;
    assert arrivals[..0] == [];
    for i := 0 to n
      invariant Received(p, arrivals, i, mk[..], mk2[..], head, stdout, log, e)
    {
      stdout, log, e := Receive1(p, arrivals, i, mk, mk2, head, stdout, log, e);
    }
    assert arrivals[..n] == arrivals;
    assert Slots(p, arrivals) + Blanks(0) == Slots(p, arrivals);
    assert QuietSlots(p, arrivals) + Blanks(0) == QuietSlots(p, arrivals);
  }

  /** The state of the loop once reports 0 to i-1 have been received: the
      tally, the slots filed so far (-s), or what was shown and logged. */
  ghost predicate Received(p: Policy, arrivals: seq<string>, i: nat, slots: seq<string>,
                           quietSlots: seq<string>, head: seq<string>,
                           stdout: seq<string>, log: seq<string>, e: nat)
  {
    i <= |arrivals| &&
    e == ErrorCount(arrivals[..i]) &&
    (p.sorted ==> slots == Slots(p, arrivals[..i]) + Blanks(|arrivals| - i) && stdout == [] && log == head) &&
    (p.sorted && p.quiet ==> quietSlots == QuietSlots(p, arrivals[..i]) + Blanks(|arrivals| - i)) &&
    (!p.sorted ==> stdout == Shows(p, arrivals[..i])) &&
    (!p.sorted ==> log == head + (if p.logging then Logs(p, arrivals[..i]) else []))
  }

  /** One pass of the loop body: receive report i, count it, then file it
      (-s) or show and log it. */
  method Receive1(p: Policy, arrivals: seq<string>, i: nat, mk: array<string>, mk2: array<string>,
                  head: seq<string>, stdout: seq<string>, log: seq<string>, e: nat)
    returns (stdout': seq<string>, log': seq<string>, e': nat)
    requires i < |arrivals|
    requires mk.Length == (if p.sorted then |arrivals| else 0)
    requires mk2.Length == (if p.sorted && p.quiet then |arrivals| else 0)
    requires mk != mk2
    requires Received(p, arrivals, i, mk[..], mk2[..], head, stdout, log, e)
    modifies mk, mk2
    ensures Received(p, arrivals, i + 1, mk[..], mk2[..], head, stdout', log', e')
  {
    var c, err := Classify(arrivals[i]);
    e', stdout', log' := e, stdout, log;
    if err {
      e' := e' + 1;
    }
    assert arrivals[..i + 1] == arrivals[..i] + [arrivals[i]];
    ErrorStep(arrivals[..i], arrivals[i]);
    if p.sorted {
      FileStep(p, arrivals, i, c, err, mk, mk2, head, stdout, log, e, e');
    } else {
      stdout', log' := ShowStep(p, arrivals, i, c, err, mk[..], mk2[..], head, stdout, log, e, e');
    }
  }

  /** The -s branch of one pass: file the report in its slots. */
  method FileStep(p: Policy, arrivals: seq<string>, i: nat, c: string, err: bool,
                  mk: array<string>, mk2: array<string>,
                  head: seq<string>, stdout: seq<string>, log: seq<string>, e: nat, e': nat)
    requires p.sorted && i < |arrivals| && c == Normalize(arrivals[i]) && err == IsError(arrivals[i])
    requires mk.Length == |arrivals| && mk2.Length == (if p.quiet then |arrivals| else 0) && mk != mk2
    requires Received(p, arrivals, i, mk[..], mk2[..], head, stdout, log, e)
    requires e' == ErrorCount(arrivals[..i + 1])
    modifies mk, mk2
    ensures Received(p, arrivals, i + 1, mk[..], mk2[..], head, stdout, log, e')
  {
    SlotStep(p, arrivals, i);
    Store(p, arrivals[i], c, err, i, mk, mk2);
  }

  /** The streaming branch of one pass: show and log the report. */
  method ShowStep(p: Policy, arrivals: seq<string>, i: nat, c: string, err: bool,
                  ghost slots: seq<string>, ghost quietSlots: seq<string>,
                  head: seq<string>, stdout: seq<string>, log: seq<string>, e: nat, e': nat)
    returns (stdout': seq<string>, log': seq<string>)
    requires !p.sorted && i < |arrivals| && c == Normalize(arrivals[i]) && err == IsError(arrivals[i])
    requires Received(p, arrivals, i, slots, quietSlots, head, stdout, log, e)
    requires e' == ErrorCount(arrivals[..i + 1])
    ensures Received(p, arrivals, i + 1, slots, quietSlots, head, stdout', log', e')
  {
    assert arrivals[..i + 1] == arrivals[..i] + [arrivals[i]];
    StreamStep(p, arrivals[..i], arrivals[i]);
    stdout', log' := Stream(p, arrivals[i], c, err, stdout, log);
  }

  /** make([]string, m): m empty slots. */
  method NewSlots(m: nat) returns (a: array<string>)
    ensures fresh(a) && a.Length == m && a[..] == Blanks(m)
  {
    a := new string[m](_ => "");
  }

  /** Slots not yet filed. */
  function Blanks(m: nat): (b: seq<string>)
    ensures |b| == m && forall k :: 0 <= k < m ==> b[k] == ""
  {
    seq(m, _ => "")
  }

  /** Filing report i fills the first blank slot. */
  lemma SlotStep(p: Policy, cs: seq<string>, i: nat)
    requires i < |cs|
    ensures (Slots(p, cs[..i]) + Blanks(|cs| - i))[i := Slot(p, cs[i])] ==
            Slots(p, cs[..i + 1]) + Blanks(|cs| - (i + 1))
    ensures (QuietSlots(p, cs[..i]) + Blanks(|cs| - i))[i := QuietSlot(p, cs[i])] ==
            QuietSlots(p, cs[..i + 1]) + Blanks(|cs| - (i + 1))
  {
  }

  // Properties of what the loop writes.

  /** -e as a filter: a report goes on exactly when it was received and is
      a failure, so with -e as many reports go on as there are failures,
      and without -e every report goes on, in arrival order. */
  lemma {:induction false} KeptReports(p: Policy, cs: seq<string>, x: string)
    ensures x in Kept(p, cs) <==> x in cs && Shown(p, x)
    ensures p.errorsOnly ==> |Kept(p, cs)| == ErrorCount(cs)
    ensures !p.errorsOnly ==> Kept(p, cs) == cs
  {
    if cs != [] {
      var init, last := cs[..|cs| - 1], cs[|cs| - 1];
      KeptReports(p, init, x);
      assert cs == init + [last];
      assert x in cs <==> x in init || x == last;
    }
  }

  /** -q changes only standard output: the log receives the same full
      reports with or without it. */
  lemma QuietKeepsFullLog(p: Policy, cs: seq<string>, start: string, end: string)
    ensures Log(p, cs, start, end) == Log(p.(quiet := false), cs, start, end)
  {
    if p.logging && p.sorted {
      assert Slots(p, cs) == Slots(p.(quiet := false), cs);
    }
    assert Kept(p, cs) == Kept(p.(quiet := false), cs) by {
      KeptQuiet(p, cs);
    }
  }

  lemma {:induction false} KeptQuiet(p: Policy, cs: seq<string>)
    ensures Kept(p, cs) == Kept(p.(quiet := false), cs)
  {
    if cs != [] {
      KeptQuiet(p, cs[..|cs| - 1]);
    }
  }

  /** The log file is framed: its first line is START with the first
      timestamp, its last line END with the second, and it is written only
      when -o names it. */
  lemma LogFraming(p: Policy, cs: seq<string>, start: string, end: string)
    ensures var l := Log(p, cs, start, end);
            (l != [] <==> p.logging) &&
            (p.logging ==> l[0] == StartLine(start) && l[|l| - 1] == EndLine(end) &&
                           l[1..|l| - 1] == Logs(p, cs))
  {
    if p.logging {
      var l := Log(p, cs, start, end);
      assert l == [StartLine(start)] + (Logs(p, cs) + [EndLine(end)]);
      assert l[1..] == Logs(p, cs) + [EndLine(end)];
    }
  }

  /** The last line on standard output is the tally, unless -1 is given. */
  lemma SummaryLast(p: Policy, cs: seq<string>)
    ensures var out := Stdout(p, cs);
            !p.one ==> out != [] && out[|out| - 1] == Summary(|cs|, ErrorCount(cs)) &&
                       out[..|out| - 1] == Shows(p, cs)
    ensures p.one ==> Stdout(p, cs) == Shows(p, cs)
  {
  }

  /** Sorted mode: what is shown, and what is logged, is the slots in Go's
      string order, with as many lines as hosts. */
  lemma SortedEmission(p: Policy, cs: seq<string>)
    requires p.sorted
    ensures var shown := Shows(p, cs);
            Sorted(shown) && |shown| == |cs| &&
            multiset(shown) == multiset(if p.quiet then QuietSlots(p, cs) else Slots(p, cs))
    ensures Sorted(Logs(p, cs)) && multiset(Logs(p, cs)) == multiset(Slots(p, cs))
  {
    var slots := if p.quiet then QuietSlots(p, cs) else Slots(p, cs);
    assert |Shows(p, cs)| == |multiset(Shows(p, cs))| == |multiset(slots)| == |slots|;
  }

  /** Sorted mode with -e: what is shown is exactly the failures, each as its
      quiet line under -q and its full text otherwise; the other slots stay
      empty. Under -o the log likewise holds exactly the failures' full
      texts besides empty slots. */
  lemma SortedFilter(p: Policy, cs: seq<string>)
    requires p.sorted && p.errorsOnly
    ensures forall x :: x in Shows(p, cs) && x != "" ==>
              exists c :: c in cs && IsError(c) && x == (if p.quiet then QuietLine(c) else Normalize(c))
    ensures forall c :: c in cs && IsError(c) ==> (if p.quiet then QuietLine(c) else Normalize(c)) in Shows(p, cs)
    ensures p.logging ==>
              forall x :: x in Logs(p, cs) && x != "" ==> exists c :: c in cs && IsError(c) && x == Normalize(c)
    ensures p.logging ==> forall c :: c in cs && IsError(c) ==> Normalize(c) in Logs(p, cs)
  {
    if p.quiet {
      FailuresOnly(cs, QuietSlots(p, cs), QuietLine);
    } else {
      FailuresOnly(cs, Slots(p, cs), Normalize);
    }
    if p.logging {
      FailuresOnly(cs, Slots(p, cs), Normalize);
    }
  }

  /** Sorted mode without -e: every report is shown, in Go's string order,
      as its quiet line under -q and its full text otherwise, and under -o
      the log gets every report's full text in that order. */
  lemma SortedShowsAll(p: Policy, cs: seq<string>)
    requires p.sorted && !p.errorsOnly
    ensures Shows(p, cs) == Sort(if p.quiet then QuietLines(cs) else Normalized(cs))
    ensures p.logging ==> Logs(p, cs) == Sort(Normalized(cs))
  {
    assert QuietSlots(p, cs) == QuietLines(cs);
    if !p.quiet || p.logging {
      assert Slots(p, cs) == Normalized(cs);
    }
  }

  /** Sorting slots that hold line(c) for each failure c and nothing else
      leaves exactly those lines besides the empty slots. */
  lemma FailuresOnly(cs: seq<string>, slots: seq<string>, line: string -> string)
    requires |slots| == |cs|
    requires forall k :: 0 <= k < |cs| ==> slots[k] == (if IsError(cs[k]) then line(cs[k]) else "")
    ensures forall x :: x in Sort(slots) && x != "" ==> exists c :: c in cs && IsError(c) && x == line(c)
    ensures forall c :: c in cs && IsError(c) ==> line(c) in Sort(slots)
  {
    forall x | x in Sort(slots) && x != ""
      ensures exists c :: c in cs && IsError(c) && x == line(c)
    {
      assert x in multiset(Sort(slots));
      var k :| 0 <= k < |slots| && slots[k] == x;
      assert cs[k] in cs;
    }
    forall c | c in cs && IsError(c)
      ensures line(c) in Sort(slots)
    {
      var k :| 0 <= k < |cs| && cs[k] == c;
      assert slots[k] in multiset(slots);
    }
  }

  /** Sorted mode does not depend on the order the goroutines finished in:
      any two arrival orders of the same reports give the same standard
      output and the same log. */
  lemma SortedOrderIndependent(p: Policy, a: seq<string>, b: seq<string>, start: string, end: string)
    requires p.sorted && multiset(a) == multiset(b)
    ensures Stdout(p, a) == Stdout(p, b)
    ensures Log(p, a, start, end) == Log(p, b, start, end)
  {
    assert |a| == |multiset(a)| == |multiset(b)| == |b|;
    ErrorCountPermutation(a, b);
    MapPermutation(c => Slot(p, c), a, b);
    MapPermutation(c => QuietSlot(p, c), a, b);
    SortedUnique(Sort(Slots(p, a)), Sort(Slots(p, b)));
    SortedUnique(Sort(QuietSlots(p, a)), Sort(QuietSlots(p, b)));
  }

  /** Mapping two arrangements of the same strings gives two arrangements
      of the same strings. */
  lemma {:induction false} MapPermutation(f: string -> string, a: seq<string>, b: seq<string>)
    requires multiset(a) == multiset(b)
    ensures multiset(Map(f, a)) == multiset(Map(f, b))
    decreases |a|
  {
    if a != [] {
      var x, rest, k := Unpick(a, b);
      var left, right := b[..k], b[k + 1..];
      MapPermutation(f, rest, left + right);
      MapConcat(f, [x], rest);
      MapConcat(f, left, right);
      MapConcat(f, left + [x], right);
      MapConcat(f, left, [x]);
      assert Map(f, [x]) == [f(x)];
    }
  }

  lemma MapConcat(f: string -> string, u: seq<string>, v: seq<string>)
    ensures Map(f, u + v) == Map(f, u) + Map(f, v)
  {
  }

  /** The tally counts failures, whatever order they arrived in. */
  lemma {:induction false} ErrorCountPermutation(a: seq<string>, b: seq<string>)
    requires multiset(a) == multiset(b)
    ensures ErrorCount(a) == ErrorCount(b)
    decreases |a|
  {
    if a != [] {
      var x, rest, k := Unpick(a, b);
      var left, right := b[..k], b[k + 1..];
      ErrorCountPermutation(rest, left + right);
      ErrorCountConcat([x], rest);
      ErrorCountConcat(left + [x], right);
      ErrorCountConcat(left, [x]);
      ErrorCountConcat(left, right);
    }
  }

  /** The first string of a and the same string found in b, each taken out:
      what is left are again two arrangements of the same strings. */
  lemma Unpick(a: seq<string>, b: seq<string>) returns (x: string, rest: seq<string>, k: nat)
    requires a != [] && multiset(a) == multiset(b)
    ensures a == [x] + rest && k < |b| && b[k] == x
    ensures b == b[..k] + [x] + b[k + 1..]
    ensures multiset(rest) == multiset(b[..k] + b[k + 1..])
  {
    x, rest := a[0], a[1..];
    assert a == [x] + rest;
    assert x in multiset(b);
    k :| 0 <= k < |b| && b[k] == x;
    RemoveAt(b, k);
    assert multiset(rest) == multiset(a) - multiset{x};
  }

  /** Taking out the string at position k leaves the others. */
  lemma RemoveAt(b: seq<string>, k: nat)
    requires k < |b|
    ensures b == b[..k] + [b[k]] + b[k + 1..]
    ensures multiset(b[..k] + b[k + 1..]) == multiset(b) - multiset{b[k]}
  {
    assert b == b[..k] + [b[k]] + b[k + 1..];
  }

  /** The tally of two batches is the sum of their tallies. */
  lemma {:induction false} ErrorCountConcat(a: seq<string>, b: seq<string>)
    ensures ErrorCount(a + b) == ErrorCount(a) + ErrorCount(b)
    decreases |b|
  {
    if b == [] {
      assert a + b == a;
    } else {
      var init := b[..|b| - 1];
      ErrorCountConcat(a, init);
      assert (a + b)[..|a + b| - 1] == a + init;
    }
  }
}
