/**
 * Running one command of the IPbus performance suite: run_command, parse_perftester and
 * cpu_mem_usage in cactuscore/uhal/tests/scripts/ipbus_perf_suite.py.
 *
 * The operating system and the network are parameters. A local run is described by the
 * time it started, the outcomes of the successive non-blocking readline() calls and what
 * p.poll() returns afterwards; a remote run by the session that answers one command text
 * with its exit status and its stdout and stderr lines. Regular expressions are parameters
 * that return the numbers they would have extracted.
 */
module CommandExec {
  import opened Wrappers

  /** TEST_CMD_TIMEOUT_S: a local command is killed once this many seconds have passed since it started. */
  const TestCmdTimeoutS: real := 60.0

  const PerfTesterExe: string := "PerfTester.exe"
  const PerfTesterEscript: string := "perf_tester.escript"
  const SudoPrefix: string := "sudo PATH=$PATH "

  /** What a remote session returns for one command: recv_exit_status(), then the stdout and stderr lines. */
  datatype RemoteReply = RemoteReply(exitCode: int, stdout: seq<string>, stderr: seq<string>)

  /** One attempt of p.stdout.readline() on the non-blocking pipe. */
  datatype ReadEvent =
    | Line(text: string)      // readline() returned text; the empty text means end of file
    | WouldBlock(now: real)   // readline() raised IOError; now is time.time() taken at the top of that iteration
    | Eof                     // the pipe was closed

  /** A spawned local process: t0 = time.time() before Popen, what the read loop sees, and p.poll() after it. */
  datatype LocalRun = LocalRun(t0: real, events: seq<ReadEvent>, poll: Option<int>)

  /** ssh_client: None (run locally) or a session that executes a command text. */
  datatype Host = Local(proc: LocalRun) | Remote(session: string -> RemoteReply)

  /** The parser argument: None, False, parse_perftester, or any other callable applied to the output. */
  datatype Parser =
    | Unset
    | Disabled
    | PerfTester
    | Custom(apply: string -> Result<Value, CmdError>)

  /** The two numbers parse_perftester's regular expressions extract: iteration frequency (Hz) and bandwidth (KB/s). */
  datatype PerfReadings = PerfReadings(freqHz: real, bandwidthKBps: real)

  /**
   * The configuration the script keeps in globals: CH_PC_ENV as its (name, value) entries in
   * iteration order, and the regular-expression scan of parse_perftester (None when a pattern
   * does not match or float() rejects the text).
   */
  datatype Config = Config(env: seq<(string, string)>, scanPerf: string -> Option<PerfReadings>)

  /** What run_command returns: the (exit_code, output) tuple, or parse_perftester's (latency, bandwidth). */
  datatype Value =
    | Raw(exitCode: Option<int>, output: string)
    | Perf(latencyUs: real, bandwidthGbps: real)

  /** The exceptions run_command and its helpers raise. */
  datatype CmdError =
    | HardTimeout(cmd: string, timeoutS: real, output: string)   // CommandHardTimeout
    | BadExitCode(cmd: string, exitCode: int, output: string)    // CommandBadExitCode
    | ParseFailure(output: string)       // parse_perftester: a pattern did not match, or the frequency is zero
    | ProbeHasSpace(probe: string)       // the assertion at the top of cpu_mem_usage

  /**
   * How the read loop of lines 126-142 stands at the end of a trace: it broke out at end of file,
   * raised the hard timeout, or had not yet left its `while True` when the trace ran out.
   */
  datatype ReadResult = Finished(output: string) | TimedOut(output: string) | Unfinished(output: string)

  predicate StartsWith(s: string, prefix: string)
  {
    |prefix| <= |s| && s[..|prefix|] == prefix
  }

  predicate RunsPerfTester(cmd: string)
  {
    StartsWith(cmd, PerfTesterExe) || StartsWith(cmd, PerfTesterEscript)
  }

  // ---------------------------------------------------------------------------------------
  // Rewriting the command

  /** Lines 109-110: parse_perftester becomes the parser only when none was given and the command runs a test binary. */
  function EffectiveParser(cmd: string, parser: Parser): (p: Parser)
    ensures p.PerfTester? <==> parser.PerfTester? || (parser.Unset? && RunsPerfTester(cmd))
    ensures !p.PerfTester? ==> p == parser
  {
    if parser.Unset? && RunsPerfTester(cmd) then PerfTester else parser
  }

  /** Lines 111-112: "sudo" at the front becomes "sudo PATH=$PATH ", keeping everything after the first four characters. */
  function SudoRewrite(cmd: string): (r: string)
    ensures StartsWith(cmd, "sudo") ==>
      StartsWith(r, SudoPrefix) && r[|SudoPrefix|..] == cmd[4..] && |r| == |cmd| + 12
    ensures !StartsWith(cmd, "sudo") ==> r == cmd
  {
    if StartsWith(cmd, "sudo") then SudoPrefix + cmd[4..] else cmd
  }

  function ExportClause(entry: (string, string)): string
  {
    "export " + entry.0 + "=" + entry.1 + " ; "
  }

  /** The text the loop at line 159 puts in front of the command: one clause per entry, the last entry first. */
  function ExportPrefix(env: seq<(string, string)>): string
  {
    if env == [] then "" else ExportClause(env[|env| - 1]) + ExportPrefix(env[..|env| - 1])
  }

  /** Lines 159-160: prepend one export clause per environment entry, in iteration order. */
  method PrefixExports(env: seq<(string, string)>, cmd: string) returns (r: string)
    ensures r == ExportPrefix(env) + cmd
    ensures |r| >= |cmd| && r[|r| - |cmd|..] == cmd
  {
    r := cmd;
    for i := 0 to |env|
      invariant r == ExportPrefix(env[..i]) + cmd
    {
      assert env[..i + 1][..i] == env[..i];
      r := "export " + env[i].0 + "=" + env[i].1 + " ; " + r;
    }
    assert env[..|env|] == env;
  }

  lemma {:induction false} ExportPrefixAppend(a: seq<(string, string)>, b: seq<(string, string)>)
    ensures ExportPrefix(a + b) == ExportPrefix(b) + ExportPrefix(a)
    decreases |b|
  {
    if b == [] {
      assert a + b == a;
    } else {
      var b' := b[..|b| - 1];
      assert (a + b)[..|a + b| - 1] == a + b';
      ExportPrefixAppend(a, b');
    }
  }

  /** The clause of entry k sits after the clauses of every later entry and before those of every earlier one. */
  lemma ExportClauseOfEachEntry(env: seq<(string, string)>, k: nat)
    requires k < |env|
    ensures ExportPrefix(env) == ExportPrefix(env[k + 1..]) + ExportClause(env[k]) + ExportPrefix(env[..k])
  {
    var front, rest := env[..k + 1], env[k + 1..];
    SplitAt(env, k + 1);
    ExportPrefixAppend(front, rest);
    assert front[..|front| - 1] == env[..k] && front[|front| - 1] == env[k];
    AppendAssoc(ExportPrefix(rest), ExportClause(env[k]), ExportPrefix(env[..k]));
  }

  lemma SplitAt<T>(s: seq<T>, i: nat)
    requires i <= |s|
    ensures s[..i] + s[i..] == s
  {
  }

  lemma AppendAssoc(a: string, b: string, c: string)
    ensures a + (b + c) == a + b + c
  {
  }

  // ---------------------------------------------------------------------------------------
  // The local read loop

  /** readline() reported end of file: an empty line or a closed pipe. */
  predicate EndsRead(e: ReadEvent)
  {
    e.Eof? || (e.Line? && e.text == "")
  }

  /** A would-block read taken more than limit seconds after the start: the loop kills the process. */
  predicate Late(e: ReadEvent, t0: real, limit: real)
  {
    e.WouldBlock? && e.now - t0 > limit
  }

  /** The read loop of lines 126-142, over `events` with `acc` already read. */
  function Drain(events: seq<ReadEvent>, t0: real, limit: real, acc: string): ReadResult
    decreases |events|
  {
    if events == [] then Unfinished(acc)
    else match events[0]
      case Eof => Finished(acc)
      case Line(s) => if s == "" then Finished(acc) else Drain(events[1..], t0, limit, acc + s)
      case WouldBlock(now) => if now - t0 > limit then TimedOut(acc) else Drain(events[1..], t0, limit, acc)
  }

  /** The position of the first read that ends the loop, or |events| when none does. */
  function StopIndex(events: seq<ReadEvent>, t0: real, limit: real): (k: nat)
    ensures k <= |events|
    ensures forall j :: 0 <= j < k ==> !EndsRead(events[j]) && !Late(events[j], t0, limit)
    ensures k < |events| ==> EndsRead(events[k]) || Late(events[k], t0, limit)
    decreases |events|
  {
    if events == [] || EndsRead(events[0]) || Late(events[0], t0, limit) then 0
    else 1 + StopIndex(events[1..], t0, limit)
  }

  /** The texts of the Line events, in order. */
  function LineText(events: seq<ReadEvent>): string
    decreases |events|
  {
    if events == [] then ""
    else (if events[0].Line? then events[0].text else "") + LineText(events[1..])
  }

  /** What the read loop ends with, written in terms of the first read that stops it. */
  function DrainOutcome(events: seq<ReadEvent>, t0: real, limit: real, acc: string): ReadResult
  {
    var k := StopIndex(events, t0, limit);
    var out := acc + LineText(events[..k]);
    if k == |events| then Unfinished(out)
    else if Late(events[k], t0, limit) then TimedOut(out)
    else Finished(out)
  }

  /**
   * The loop keeps exactly the text of the lines before the first stopping read, and raises the
   * timeout exactly when that read is a late would-block read.
   */
  lemma {:induction false} DrainCharacterised(events: seq<ReadEvent>, t0: real, limit: real, acc: string)
    ensures Drain(events, t0, limit, acc) == DrainOutcome(events, t0, limit, acc)
    decreases |events|
  {
    if events == [] || EndsRead(events[0]) || Late(events[0], t0, limit) {
      assert events[..0] == [];
    } else {
      var k := StopIndex(events, t0, limit);
      var head := if events[0].Line? then events[0].text else "";
      assert acc + "" == acc;
      assert Drain(events, t0, limit, acc) == Drain(events[1..], t0, limit, acc + head);
      DrainCharacterised(events[1..], t0, limit, acc + head);
      assert k - 1 == StopIndex(events[1..], t0, limit);
      assert k < |events| ==> events[1..][k - 1] == events[k];
      assert events[1..][..k - 1] == events[..k][1..];
      assert LineText(events[..k]) == head + LineText(events[1..][..k - 1]);
      assert events[1..][k - 1..] == events[k..];
    }
  }

  /** The hard timeout is raised if and only if a late would-block read comes before every other stopping read. */
  lemma TimeoutIff(events: seq<ReadEvent>, t0: real, limit: real)
    ensures Drain(events, t0, limit, "").TimedOut? <==>
      exists k :: 0 <= k < |events| && Late(events[k], t0, limit) &&
        forall j :: 0 <= j < k ==> !EndsRead(events[j]) && !Late(events[j], t0, limit)
  {
    DrainCharacterised(events, t0, limit, "");
    var k := StopIndex(events, t0, limit);
    if Drain(events, t0, limit, "").TimedOut? {
      assert Late(events[k], t0, limit);
    }
    if exists k' :: 0 <= k' < |events| && Late(events[k'], t0, limit) &&
        forall j :: 0 <= j < k' ==> !EndsRead(events[j]) && !Late(events[j], t0, limit) {
      var k' :| 0 <= k' < |events| && Late(events[k'], t0, limit) &&
        forall j :: 0 <= j < k' ==> !EndsRead(events[j]) && !Late(events[j], t0, limit);
      assert k == k';
    }
  }

  /**
   * A trace without would-block reads never times out: the output is every line up to the
   * first end of file, and the loop has returned exactly when the trace holds one.
   */
  lemma LinesNeverTimeOut(events: seq<ReadEvent>, t0: real, limit: real)
    requires forall j :: 0 <= j < |events| ==> !events[j].WouldBlock?
    ensures !Drain(events, t0, limit, "").TimedOut?
    ensures Drain(events, t0, limit, "").output == LineText(events[..StopIndex(events, t0, limit)])
    ensures Drain(events, t0, limit, "").Finished? <==> exists j :: 0 <= j < |events| && EndsRead(events[j])
  {
    DrainCharacterised(events, t0, limit, "");
  }

  /** Lines 123-142: read until end of file, or give up on a would-block read once the budget is spent. */
  method ReadOutput(run: LocalRun, limit: real) returns (r: ReadResult)
    ensures r == Drain(run.events, run.t0, limit, "")
  {
    var stdout := "";
    var k := 0;
    while k < |run.events|
      invariant 0 <= k <= |run.events|
      invariant Drain(run.events, run.t0, limit, "") == Drain(run.events[k..], run.t0, limit, stdout)
    {
      assert run.events[k..][1..] == run.events[k + 1..];
      match run.events[k] {
        case Eof =>
          return Finished(stdout);
        case Line(nextline) =>
          if nextline == "" {
            return Finished(stdout);
          }
          stdout := stdout + nextline;
        case WouldBlock(current) =>
          if current - run.t0 > limit {
            return TimedOut(stdout);
          }
      }
      k := k + 1;
    }
    return Unfinished(stdout);
  }

  // ---------------------------------------------------------------------------------------
  // Classifying the outcome

  /** Python's truth value of an exit code: None and 0 are false. */
  predicate Truthy(exitCode: Option<int>)
  {
    exitCode.Some? && exitCode.value != 0
  }

  /** Lines 177-186: latency per iteration in microseconds and bandwidth in Gb/s. */
  function ParsePerfTester(scan: string -> Option<PerfReadings>, output: string): (r: Result<Value, CmdError>)
    ensures r.Success? <==> scan(output).Some? && scan(output).value.freqHz != 0.0
    ensures r.Failure? ==> r.error == ParseFailure(output)
    ensures r.Success? ==>
      && r.value.Perf?
      && r.value.latencyUs * scan(output).value.freqHz == 1000000.0
      && r.value.bandwidthGbps * 125000.0 == scan(output).value.bandwidthKBps
  {
    match scan(output)
    case None => Failure(ParseFailure(output))
    case Some(m) =>
      if m.freqHz == 0.0 then Failure(ParseFailure(output))
      else Success(Perf(1000000.0 / m.freqHz, m.bandwidthKBps / 125000.0))
  }

  /** Lines 149-156 and 168-174: a true exit code raises; otherwise the raw tuple when the parser is None or False, or the parser's result. */
  function Classify(cmd: string, exitCode: Option<int>, output: string, parser: Parser,
                    scan: string -> Option<PerfReadings>): (r: Result<Value, CmdError>)
    ensures Truthy(exitCode) ==> r == Failure(BadExitCode(cmd, exitCode.value, output))
    ensures !Truthy(exitCode) && (parser.Unset? || parser.Disabled?) ==> r == Success(Raw(exitCode, output))
    ensures !Truthy(exitCode) && parser.PerfTester? ==> r == ParsePerfTester(scan, output)
    ensures !Truthy(exitCode) && parser.Custom? ==> r == parser.apply(output)
    ensures r.Success? && r.value.Raw? && !parser.Custom? ==> r.value.output == output && !Truthy(r.value.exitCode)
  {
    if Truthy(exitCode) then Failure(BadExitCode(cmd, exitCode.value, output))
    else match parser
      case PerfTester => ParsePerfTester(scan, output)
      case Custom(f) => f(output)
      case _ => Success(Raw(exitCode, output))
  }

  function Join(lines: seq<string>): string
  {
    if lines == [] then "" else lines[0] + Join(lines[1..])
  }

  /** The command text sent to a remote session. */
  function RemoteCommand(cmd: string, cfg: Config): string
  {
    ExportPrefix(cfg.env) + SudoRewrite(cmd)
  }

  /**
   * The read loop of lines 126-142 is `while True` and leaves only at end of file (line 131) or by
   * the timeout (line 142): run_command returns only for a local trace holding such a read.
   */
  predicate Completes(host: Host)
  {
    host.Local? ==> StopIndex(host.proc.events, host.proc.t0, TestCmdTimeoutS) < |host.proc.events|
  }

  /** run_command(cmd, ssh_client, parser), lines 104-174. */
  function CommandOutcome(cmd: string, host: Host, parser: Parser, cfg: Config): Result<Value, CmdError>
    requires Completes(host)
  {
    var p := EffectiveParser(cmd, parser);
    var c := SudoRewrite(cmd);
    match host
    case Local(run) =>
      var read := Drain(run.events, run.t0, TestCmdTimeoutS, "");
      if read.TimedOut? then Failure(HardTimeout(c, TestCmdTimeoutS, read.output))
      else Classify(c, run.poll, read.output, p, cfg.scanPerf)
    case Remote(session) =>
      var rc := RemoteCommand(cmd, cfg);
      var reply := session(rc);
      Classify(rc, Some(reply.exitCode), Join(reply.stdout) + Join(reply.stderr), p, cfg.scanPerf)
  }

  method RunCommand(cmd: string, host: Host, parser: Parser, cfg: Config) returns (r: Result<Value, CmdError>)
    requires Completes(host)
    ensures r == CommandOutcome(cmd, host, parser, cfg)
  {
    var p := EffectiveParser(cmd, parser);
    var c := SudoRewrite(cmd);
    match host {
      case Local(run) =>
        var read := ReadOutput(run, TestCmdTimeoutS);
        if read.TimedOut? {
          return Failure(HardTimeout(c, TestCmdTimeoutS, read.output));
        }
        r := Classify(c, run.poll, read.output, p, cfg.scanPerf);
      case Remote(session) =>
        c := PrefixExports(cfg.env, c);
        var reply := session(c);
        var output := Join(reply.stdout) + Join(reply.stderr);
        r := Classify(c, Some(reply.exitCode), output, p, cfg.scanPerf);
    }
  }

  /**
   * Locally, CommandHardTimeout is raised when the read that stops the loop is a would-block
   * read more than TEST_CMD_TIMEOUT_S after the start; it carries the rewritten command and the
   * text of every line read before it. Otherwise the same text goes to the exit-code check and
   * the parser. Unless a custom parser raises it itself, that is the only way to the timeout.
   */
  lemma LocalTimeout(cmd: string, run: LocalRun, parser: Parser, cfg: Config)
    requires Completes(Local(run))
    ensures var k := StopIndex(run.events, run.t0, TestCmdTimeoutS);
      var r := CommandOutcome(cmd, Local(run), parser, cfg);
      Late(run.events[k], run.t0, TestCmdTimeoutS) ==>
        r == Failure(HardTimeout(SudoRewrite(cmd), TestCmdTimeoutS, LineText(run.events[..k])))
    ensures var k := StopIndex(run.events, run.t0, TestCmdTimeoutS);
      var r := CommandOutcome(cmd, Local(run), parser, cfg);
      !Late(run.events[k], run.t0, TestCmdTimeoutS) ==>
        EndsRead(run.events[k]) &&
        r == Classify(SudoRewrite(cmd), run.poll, LineText(run.events[..k]), EffectiveParser(cmd, parser), cfg.scanPerf)
    ensures var k := StopIndex(run.events, run.t0, TestCmdTimeoutS);
      var r := CommandOutcome(cmd, Local(run), parser, cfg);
      !EffectiveParser(cmd, parser).Custom? ==>
        ((r.Failure? && r.error.HardTimeout?) <==> Late(run.events[k], run.t0, TestCmdTimeoutS))
  {
    DrainCharacterised(run.events, run.t0, TestCmdTimeoutS, "");
    var k := StopIndex(run.events, run.t0, TestCmdTimeoutS);
    assert "" + LineText(run.events[..k]) == LineText(run.events[..k]);
  }

  /**
   * A local command that writes some lines and closes its output returns (exit_code, output)
   * with exactly those lines when poll() gives None or 0 and no parser applies.
   */
  lemma LocalCleanExit(cmd: string, lines: seq<string>, t0: real, poll: Option<int>, parser: Parser, cfg: Config)
    requires forall j :: 0 <= j < |lines| ==> lines[j] != ""
    requires !Truthy(poll) && (EffectiveParser(cmd, parser).Unset? || EffectiveParser(cmd, parser).Disabled?)
    ensures CommandOutcome(cmd, Local(LocalRun(t0, LinesThenEof(lines), poll)), parser, cfg) == Success(Raw(poll, Join(lines)))
  {
    var events := LinesThenEof(lines);
    LinesThenEofDrain(lines, t0, TestCmdTimeoutS, "");
    assert "" + Join(lines) == Join(lines);
  }

  /** The trace of a process that writes the given non-empty lines and closes its output. */
  function LinesThenEof(lines: seq<string>): (events: seq<ReadEvent>)
    requires forall j :: 0 <= j < |lines| ==> lines[j] != ""
    ensures |events| == |lines| + 1
    ensures forall t0: real, limit: real :: StopIndex(events, t0, limit) == |lines|
    decreases |lines|
  {
    if lines == [] then [Eof]
    else
      var rest := LinesThenEof(lines[1..]);
      assert ([Line(lines[0])] + rest)[1..] == rest;
      [Line(lines[0])] + rest
  }

  lemma {:induction false} LinesThenEofDrain(lines: seq<string>, t0: real, limit: real, acc: string)
    requires forall j :: 0 <= j < |lines| ==> lines[j] != ""
    ensures Drain(LinesThenEof(lines), t0, limit, acc) == Finished(acc + Join(lines))
    decreases |lines|
  {
    if lines != [] {
      var events := LinesThenEof(lines);
      assert events[1..] == LinesThenEof(lines[1..]);
      LinesThenEofDrain(lines[1..], t0, limit, acc + lines[0]);
      assert acc + lines[0] + Join(lines[1..]) == acc + Join(lines);
    } else {
      assert acc + Join(lines) == acc;
    }
  }

  /**
   * Remotely, the command sent is the export clauses followed by the rewritten command, a
   * true exit status raises CommandBadExitCode with that status, and the output is the
   * stdout lines followed by the stderr lines, handed to the parser on a zero status.
   */
  lemma RemoteRun(cmd: string, session: string -> RemoteReply, parser: Parser, cfg: Config)
    ensures var rc := RemoteCommand(cmd, cfg);
      var reply := session(rc);
      var out := Join(reply.stdout) + Join(reply.stderr);
      var r := CommandOutcome(cmd, Remote(session), parser, cfg);
      var p := EffectiveParser(cmd, parser);
      (reply.exitCode != 0 ==> r == Failure(BadExitCode(rc, reply.exitCode, out))) &&
      (reply.exitCode == 0 && (p.Unset? || p.Disabled?) ==> r == Success(Raw(Some(0), out))) &&
      (reply.exitCode == 0 && p.PerfTester? ==> r == ParsePerfTester(cfg.scanPerf, out)) &&
      (reply.exitCode == 0 && p.Custom? ==> r == p.apply(out))
    ensures |RemoteCommand(cmd, cfg)| >= |SudoRewrite(cmd)|
    ensures RemoteCommand(cmd, cfg)[|RemoteCommand(cmd, cfg)| - |SudoRewrite(cmd)|..] == SudoRewrite(cmd)
  {
    var rc := RemoteCommand(cmd, cfg);
    assert rc == ExportPrefix(cfg.env) + SudoRewrite(cmd);
  }

  // ---------------------------------------------------------------------------------------
  // cpu_mem_usage

  /** The pipeline cpu_mem_usage runs for one probe. */
  function TopCommand(probe: string): string
  {
    "top -b -n 1 | grep " + probe
  }

  /** Sum of the %CPU column over the lines the pattern matched. */
  function MatchedCpu(rows: seq<Option<(real, real)>>): real
  {
    if rows == [] then 0.0
    else MatchedCpu(rows[..|rows| - 1]) + (if rows[|rows| - 1].Some? then rows[|rows| - 1].value.0 else 0.0)
  }

  /** Sum of the %MEM column over the lines the pattern matched. */
  function MatchedMem(rows: seq<Option<(real, real)>>): real
  {
    if rows == [] then 0.0
    else MatchedMem(rows[..|rows| - 1]) + (if rows[|rows| - 1].Some? then rows[|rows| - 1].value.1 else 0.0)
  }

  /** Lines 206-218: add up %CPU and %MEM of every matching line. */
  method SumUsage(rows: seq<Option<(real, real)>>) returns (cpu: real, mem: real)
    ensures cpu == MatchedCpu(rows) && mem == MatchedMem(rows)
  {
    cpu, mem := 0.0, 0.0;
    for i := 0 to |rows|
      invariant cpu == MatchedCpu(rows[..i]) && mem == MatchedMem(rows[..i])
    {
      assert rows[..i + 1][..i] == rows[..i];
      match rows[i] {
        case Some(m) =>
          cpu := cpu + m.0;
          mem := mem + m.1;
        case None =>
      }
    }
    assert rows[..|rows|] == rows;
  }

  /** With non-negative readings, every matching line's %CPU and %MEM is at most the totals. */
  lemma {:induction false} MatchedTotalsBoundEachLine(rows: seq<Option<(real, real)>>, j: nat)
    requires j < |rows| && rows[j].Some?
    requires forall i :: 0 <= i < |rows| && rows[i].Some? ==> rows[i].value.0 >= 0.0 && rows[i].value.1 >= 0.0
    ensures 0.0 <= rows[j].value.0 <= MatchedCpu(rows)
    ensures 0.0 <= rows[j].value.1 <= MatchedMem(rows)
    decreases |rows|
  {
    var init := rows[..|rows| - 1];
    MatchedTotalsNonNegative(init);
    if j < |rows| - 1 {
      MatchedTotalsBoundEachLine(init, j);
    }
  }

  lemma {:induction false} MatchedTotalsNonNegative(rows: seq<Option<(real, real)>>)
    requires forall i :: 0 <= i < |rows| && rows[i].Some? ==> rows[i].value.0 >= 0.0 && rows[i].value.1 >= 0.0
    ensures MatchedCpu(rows) >= 0.0 && MatchedMem(rows) >= 0.0
    decreases |rows|
  {
    if rows != [] {
      MatchedTotalsNonNegative(rows[..|rows| - 1]);
    }
  }

  /** The top pipeline never starts with a test-binary name, so run_command returns its raw tuple. */
  lemma TopCommandIsRaw(probe: string, host: Host, cfg: Config)
    requires Completes(host)
    ensures EffectiveParser(TopCommand(probe), Unset).Unset?
    ensures SudoRewrite(TopCommand(probe)) == TopCommand(probe)
    ensures CommandOutcome(TopCommand(probe), host, Unset, cfg).Success? ==>
      CommandOutcome(TopCommand(probe), host, Unset, cfg).value.Raw?
  {
    var t := TopCommand(probe);
    assert t[0] == 't';
    assert !StartsWith(t, PerfTesterExe) by { assert PerfTesterExe[0] == 'P'; }
    assert !StartsWith(t, PerfTesterEscript) by { assert PerfTesterEscript[0] == 'p'; }
    assert !StartsWith(t, "sudo") by { assert "sudo"[0] == 's'; }
  }

  /** cpu_mem_usage(cmd_to_check, ssh_client), lines 202-220, with `rows` the per-line match of the output. */
  function UsageOutcome(probe: string, host: Host, cfg: Config,
                        rows: (string, string) -> seq<Option<(real, real)>>): Result<(real, real), CmdError>
    requires Completes(host)
  {
    if ' ' in probe then Failure(ProbeHasSpace(probe))
    else
      TopCommandIsRaw(probe, host, cfg);
      match CommandOutcome(TopCommand(probe), host, Unset, cfg)
      case Failure(e) => Failure(e)
      case Success(v) =>
        var lines := rows(probe, v.output);
        Success((MatchedCpu(lines), MatchedMem(lines)))
  }

  method CpuMemUsage(probe: string, host: Host, cfg: Config,
                     rows: (string, string) -> seq<Option<(real, real)>>) returns (r: Result<(real, real), CmdError>)
    requires Completes(host)
    ensures r == UsageOutcome(probe, host, cfg, rows)
  {
    if ' ' in probe {
      return Failure(ProbeHasSpace(probe));
    }
    var res := RunCommand(TopCommand(probe), host, Unset, cfg);
    TopCommandIsRaw(probe, host, cfg);
    match res {
      case Failure(e) =>
        r := Failure(e);
      case Success(v) =>
        var cpu, mem := SumUsage(rows(probe, v.output));
        r := Success((cpu, mem));
    }
  }
}
