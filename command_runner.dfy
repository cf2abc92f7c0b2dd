/**
 * CommandRunner (ipbus_perf_suite.py, lines 231-314): run a batch of commands, each in its own
 * thread, while sampling the CPU and memory use of some probe processes in the main thread.
 *
 * The threads are gone. What one thread does, _run_in_thread, is the method RunInThread, to be
 * called once for each job in whatever order the threads would finish; one pass of the
 * monitoring loop is MonitorTick, given what cpu_mem_usage returned for each probe in that pass.
 * run() is split at its phases: Start (lines 254-277), the monitoring ticks (285-296),
 * StopMonitoring (298-299) and Finish (307-314). The lists of monitor_results and the probe the
 * loop variables cpu_vals / mem_vals are left bound to, which are locals of run(), are fields
 * here because that run is split over several methods.
 */
module CommandRunning {
  import opened Wrappers
  import opened CommandExec
  import Statistics

  /** An SSH client: the session that answers each command text. */
  type Session = string -> RemoteReply

  /** One entry of run()'s cmds: a command string, or a (command, ssh_client) tuple. */
  datatype Entry = Plain(cmd: string) | WithClient(cmd: string, ssh: Session)

  /** The arguments of one thread: the command, its client (None: local) and its slot index. */
  datatype Job = Job(cmd: string, ssh: Option<Session>, index: nat)

  /** One of monitoring_options: the process name to look for in top, and where to run top. */
  datatype Probe = Probe(cmd: string, ssh: Option<Session>)

  /** One element of cmd_results: None, a run_command return value, or the exception it raised. */
  datatype Slot = Empty | Done(value: Value) | Raised(error: CmdError)

  /** One tuple of run()'s first result: the probe and numpy.mean of its samples (None: the NaN of an empty list). */
  datatype ProbeStat = ProbeStat(cmd: string, cpu: Option<real>, mem: Option<real>)

  /** What run() raises. */
  datatype RunError =
    | EmptyBatch                 // assert len(cmds) > 0
    | NotAString(index: nat)     // TypeError from the "\n".join in the log line at 260
    | UnboundSamples             // cpu_vals referenced before assignment at 298
    | PopFromEmpty               // IndexError: pop from an empty list at 298-299
    | Cmd(error: CmdError)       // an exception of a probe or of a command thread, re-raised

  // ---------------------------------------------------------------------------------------
  // Starting the batch

  /** The index of the first tuple among the entries, or |cmds| when every entry is a string. */
  function FirstTuple(cmds: seq<Entry>): (k: nat)
    ensures k <= |cmds|
    ensures forall j :: 0 <= j < k ==> cmds[j].Plain?
    ensures k < |cmds| ==> cmds[k].WithClient?
  {
    if cmds == [] then 0
    else if cmds[0].WithClient? then 0
    else 1 + FirstTuple(cmds[1..])
  }

  function JobOf(e: Entry, i: nat): Job
  {
    match e
    case Plain(c) => Job(c, None, i)
    case WithClient(c, s) => Job(c, Some(s), i)
  }

  /** Lines 272-279: one thread per entry, in order. */
  function Jobs(cmds: seq<Entry>): (jobs: seq<Job>)
    ensures |jobs| == |cmds|
  {
    seq(|cmds|, i requires 0 <= i < |cmds| => JobOf(cmds[i], i))
  }

  /** Lines 260-261 as written: the log line joins the entries as strings, so any tuple raises TypeError. */
  function AdmitAsWritten(cmds: seq<Entry>): (r: Result<seq<Job>, RunError>)
    ensures r.Success? <==> |cmds| > 0 && forall j :: 0 <= j < |cmds| ==> cmds[j].Plain?
    ensures r.Success? ==> r.value == Jobs(cmds)
    ensures r.Failure? && |cmds| > 0 ==> r.error.NotAString? && r.error.index < |cmds| && cmds[r.error.index].WithClient?
  {
    if |cmds| == 0 then Failure(EmptyBatch)
    else if FirstTuple(cmds) < |cmds| then Failure(NotAString(FirstTuple(cmds)))
    else Success(Jobs(cmds))
  }

  /** Lines 260-279 with the log line accepting both forms of entry that the docstring allows. */
  function Admit(cmds: seq<Entry>): (r: Result<seq<Job>, RunError>)
    ensures r.Success? <==> |cmds| > 0
    ensures r.Success? ==> r.value == Jobs(cmds)
  {
    if |cmds| == 0 then Failure(EmptyBatch) else Success(Jobs(cmds))
  }

  /** As written, any batch holding a tuple fails in the log line: the tuple branch at 272-273 is dead. */
  lemma TupleEntriesRejected(cmds: seq<Entry>, i: nat)
    requires i < |cmds| && cmds[i].WithClient?
    ensures AdmitAsWritten(cmds).Failure? && AdmitAsWritten(cmds).error.NotAString?
    ensures AdmitAsWritten(cmds).error.index <= i
  {
  }

  /** A concrete batch: one remote command, as the measure_bw_vs_nClients sweeps could pass. */
  lemma RemoteEntryCounterexample(ssh: Session)
    ensures AdmitAsWritten([WithClient("PerfTester.exe", ssh)]) == Failure(NotAString(0))
    ensures Admit([WithClient("PerfTester.exe", ssh)]).Success?
  {
  }

  /**
   * The corrected admission is refused only for an empty batch; each job carries its entry's
   * command, the client the entry names (None for a plain string) and its own index.
   */
  lemma AdmitJobs(cmds: seq<Entry>)
    ensures Admit(cmds).Failure? <==> |cmds| == 0
    ensures Admit(cmds).Failure? ==> Admit(cmds).error == EmptyBatch
    ensures Admit(cmds).Success? ==>
      var jobs := Admit(cmds).value;
      && |jobs| == |cmds|
      && forall i :: 0 <= i < |jobs| ==>
        && jobs[i].cmd == cmds[i].cmd
        && jobs[i].index == i
        && (jobs[i].ssh.Some? <==> cmds[i].WithClient?)
        && (cmds[i].WithClient? ==> jobs[i].ssh == Some(cmds[i].ssh))
  {
  }

  /** On batches of plain strings the code as written and the corrected admission agree. */
  lemma AdmitAgreesOnStrings(cmds: seq<Entry>)
    requires forall i :: 0 <= i < |cmds| ==> cmds[i].Plain?
    ensures AdmitAsWritten(cmds) == Admit(cmds)
  {
    if |cmds| > 0 {
      assert FirstTuple(cmds) == |cmds|;
    }
  }

  // ---------------------------------------------------------------------------------------
  // One monitoring tick

  /** The index of the first probe whose cpu_mem_usage raised, or |readings| when none did. */
  function FirstFailure(readings: seq<Result<(real, real), CmdError>>): (k: nat)
    ensures k <= |readings|
    ensures forall j :: 0 <= j < k ==> readings[j].Success?
    ensures k < |readings| ==> readings[k].Failure?
  {
    if readings == [] then 0
    else if readings[0].Failure? then 0
    else 1 + FirstFailure(readings[1..])
  }

  /** The lists and the bound probe after one tick, and the exception that tick lets out. */
  datatype TickResult = TickResult(cpu: seq<seq<real>>, mem: seq<seq<real>>, bound: Option<nat>, raised: Option<CmdError>)

  /**
   * Lines 287-297: the probes are measured in order, each sample appended to its lists; the first
   * exception ends the tick. A CommandBadExitCode raised once some command has completed is
   * swallowed, anything else is re-raised. The loop variables stay bound to the last probe visited.
   */
  function TickOutcome(cpu: seq<seq<real>>, mem: seq<seq<real>>, bound: Option<nat>,
                       readings: seq<Result<(real, real), CmdError>>, completed: bool): TickResult
    requires |cpu| == |readings| && |mem| == |readings|
  {
    var k := FirstFailure(readings);
    TickResult(
      seq(|cpu|, j requires 0 <= j < |cpu| => if j < k then cpu[j] + [readings[j].value.0] else cpu[j]),
      seq(|mem|, j requires 0 <= j < |mem| => if j < k then mem[j] + [readings[j].value.1] else mem[j]),
      if |readings| == 0 then bound else if k < |readings| then Some(k) else Some(|readings| - 1),
      if k < |readings| && !(readings[k].error.BadExitCode? && completed) then Some(readings[k].error) else None)
  }

  /** A tick in which every probe answers appends exactly its one sample to each list of every probe. */
  lemma CompleteTickAppendsOne(cpu: seq<seq<real>>, mem: seq<seq<real>>, bound: Option<nat>,
                               readings: seq<Result<(real, real), CmdError>>, completed: bool)
    requires |cpu| == |readings| && |mem| == |readings|
    requires forall j :: 0 <= j < |readings| ==> readings[j].Success?
    ensures var t := TickOutcome(cpu, mem, bound, readings, completed);
      && t.raised == None
      && |t.cpu| == |cpu| && |t.mem| == |mem|
      && (forall j :: 0 <= j < |cpu| ==> t.cpu[j] == cpu[j] + [readings[j].value.0])
      && (forall j :: 0 <= j < |mem| ==> t.mem[j] == mem[j] + [readings[j].value.1])
      && (|readings| > 0 ==> t.bound == Some(|readings| - 1))
  {
    assert FirstFailure(readings) == |readings|;
  }

  /**
   * A tick that meets an exception: the probes before it got their sample, the others got none,
   * the loop variables are bound to the failing probe, and the exception escapes unless it is a
   * CommandBadExitCode seen after a command completed.
   */
  lemma FailedTickStops(cpu: seq<seq<real>>, mem: seq<seq<real>>, bound: Option<nat>,
                        readings: seq<Result<(real, real), CmdError>>, completed: bool, k: nat)
    requires |cpu| == |readings| && |mem| == |readings|
    requires k < |readings| && readings[k].Failure?
    requires forall j :: 0 <= j < k ==> readings[j].Success?
    ensures var t := TickOutcome(cpu, mem, bound, readings, completed);
      && t.bound == Some(k)
      && (t.raised == None <==> readings[k].error.BadExitCode? && completed)
      && (t.raised.Some? ==> t.raised.value == readings[k].error)
      && (forall j :: 0 <= j < k ==> t.cpu[j] == cpu[j] + [readings[j].value.0] && t.mem[j] == mem[j] + [readings[j].value.1])
      && (forall j :: k <= j < |cpu| ==> t.cpu[j] == cpu[j] && t.mem[j] == mem[j])
  {
    FirstFailureIs(readings, k);
  }

  lemma FirstFailureIs(readings: seq<Result<(real, real), CmdError>>, k: nat)
    requires k < |readings| && readings[k].Failure?
    requires forall j :: 0 <= j < k ==> readings[j].Success?
    ensures FirstFailure(readings) == k
  {
  }

  /**
   * The inner loop of one tick over the probes' lists: append each probe's sample until the first
   * probe that raised, whose index is k (|readings| when none did).
   */
  method MeasureProbes(cpu0: seq<seq<real>>, mem0: seq<seq<real>>, readings: seq<Result<(real, real), CmdError>>)
    returns (cpu: seq<seq<real>>, mem: seq<seq<real>>, k: nat)
    requires |cpu0| == |readings| && |mem0| == |readings|
    ensures k == FirstFailure(readings)
    ensures cpu == TickOutcome(cpu0, mem0, None, readings, false).cpu
    ensures mem == TickOutcome(cpu0, mem0, None, readings, false).mem
  {
    cpu, mem := cpu0, mem0;
    k := 0;
    while k < |readings|
      invariant k <= |readings| && |cpu| == |readings| && |mem| == |readings|
      invariant forall x :: 0 <= x < k ==> readings[x].Success?
      invariant forall x :: 0 <= x < |cpu| ==> cpu[x] == if x < k then cpu0[x] + [readings[x].value.0] else cpu0[x]
      invariant forall x :: 0 <= x < |mem| ==> mem[x] == if x < k then mem0[x] + [readings[x].value.1] else mem0[x]
    {
      match readings[k] {
        case Failure(_) =>
          FirstFailureIs(readings, k);
          TickLists(cpu0, mem0, None, readings, false, k, cpu, mem);
          return;
        case Success(sample) =>
          cpu := cpu[k := cpu[k] + [sample.0]];
          mem := mem[k := mem[k] + [sample.1]];
      }
      k := k + 1;
    }
    assert FirstFailure(readings) == |readings|;
    TickLists(cpu0, mem0, None, readings, false, k, cpu, mem);
  }

  /** Lists that carry the samples of the probes before the first failure are the tick's lists. */
  lemma TickLists(cpu0: seq<seq<real>>, mem0: seq<seq<real>>, bound: Option<nat>,
                  readings: seq<Result<(real, real), CmdError>>, completed: bool, k: nat,
                  cpu: seq<seq<real>>, mem: seq<seq<real>>)
    requires |cpu0| == |readings| && |mem0| == |readings| && |cpu| == |readings| && |mem| == |readings|
    requires k == FirstFailure(readings)
    requires forall x :: 0 <= x < |cpu| ==> cpu[x] == if x < k then cpu0[x] + [readings[x].value.0] else cpu0[x]
    requires forall x :: 0 <= x < |mem| ==> mem[x] == if x < k then mem0[x] + [readings[x].value.1] else mem0[x]
    ensures TickOutcome(cpu0, mem0, bound, readings, completed).cpu == cpu
    ensures TickOutcome(cpu0, mem0, bound, readings, completed).mem == mem
  {
  }

  // ---------------------------------------------------------------------------------------
  // The pop after the monitoring loop

  function DropLast(s: seq<real>): seq<real>
    requires |s| > 0
  {
    s[..|s| - 1]
  }

  /**
   * Lines 298-299 as written: cpu_vals and mem_vals are whatever the loop left them bound to, so
   * only that probe loses a sample; unbound names or an empty list raise.
   */
  function PopAsWritten(cpu: seq<seq<real>>, mem: seq<seq<real>>, bound: Option<nat>): (r: Result<(seq<seq<real>>, seq<seq<real>>), RunError>)
    requires |cpu| == |mem| && (bound.Some? ==> bound.value < |cpu|)
    ensures r.Failure? ==> r.error == UnboundSamples || r.error == PopFromEmpty
    ensures r.Success? ==> bound.Some? && |r.value.0| == |cpu| && |r.value.1| == |mem|
    ensures r.Success? ==> |r.value.0[bound.value]| + 1 == |cpu[bound.value]|
  {
    match bound
    case None => Failure(UnboundSamples)
    case Some(b) =>
      if cpu[b] == [] || mem[b] == [] then Failure(PopFromEmpty)
      else Success((cpu[b := DropLast(cpu[b])], mem[b := DropLast(mem[b])]))
  }

  /** The evident intent of lines 298-299: every probe discards its sample from the final tick. */
  function PopEach(lists: seq<seq<real>>): (r: seq<seq<real>>)
    ensures |r| == |lists|
  {
    seq(|lists|, j requires 0 <= j < |lists| => if lists[j] == [] then [] else DropLast(lists[j]))
  }

  /** As written, the pop succeeds only on the bound probe and leaves every other probe's samples alone. */
  lemma PopAsWrittenOnlyBound(cpu: seq<seq<real>>, mem: seq<seq<real>>, bound: Option<nat>)
    requires |cpu| == |mem| && (bound.Some? ==> bound.value < |cpu|)
    ensures PopAsWritten(cpu, mem, bound) == Failure(UnboundSamples) <==> bound.None?
    ensures PopAsWritten(cpu, mem, bound).Success? <==>
      bound.Some? && |cpu[bound.value]| > 0 && |mem[bound.value]| > 0
    ensures PopAsWritten(cpu, mem, bound).Success? ==>
      var (c, m) := PopAsWritten(cpu, mem, bound).value;
      && |c| == |cpu| && |m| == |mem|
      && c[bound.value] + [cpu[bound.value][|cpu[bound.value]| - 1]] == cpu[bound.value]
      && m[bound.value] + [mem[bound.value][|mem[bound.value]| - 1]] == mem[bound.value]
      && forall j :: 0 <= j < |cpu| && j != bound.value ==> c[j] == cpu[j] && m[j] == mem[j]
  {
    if bound.Some? && |cpu[bound.value]| > 0 && |mem[bound.value]| > 0 {
      var b := bound.value;
      assert DropLast(cpu[b]) + [cpu[b][|cpu[b]| - 1]] == cpu[b];
      assert DropLast(mem[b]) + [mem[b][|mem[b]| - 1]] == mem[b];
    }
  }

  /** Two probes sampled once each: as written the first probe keeps its final sample, PopEach drops both. */
  lemma PopCounterexample()
    ensures PopAsWritten([[1.0], [2.0]], [[3.0], [4.0]], Some(1)) == Success(([[1.0], []], [[3.0], []]))
    ensures PopEach([[1.0], [2.0]]) == [[], []] && PopEach([[3.0], [4.0]]) == [[], []]
  {
    assert [[1.0], [2.0]][1 := DropLast([2.0])] == [[1.0], []];
    assert [[3.0], [4.0]][1 := DropLast([4.0])] == [[3.0], []];
  }

  /** A command that finishes before the first tick leaves cpu_vals unbound: run() raises at line 298. */
  lemma NoTickCounterexample(n: nat)
    ensures PopAsWritten(seq(n, _ => []), seq(n, _ => []), None) == Failure(UnboundSamples)
  {
  }

  /** After a complete tick, PopEach gives back exactly the lists from before that tick. */
  lemma PopEachUndoesCompleteTick(cpu: seq<seq<real>>, mem: seq<seq<real>>, bound: Option<nat>,
                                  readings: seq<Result<(real, real), CmdError>>, completed: bool)
    requires |cpu| == |readings| && |mem| == |readings|
    requires forall j :: 0 <= j < |readings| ==> readings[j].Success?
    ensures PopEach(TickOutcome(cpu, mem, bound, readings, completed).cpu) == cpu
    ensures PopEach(TickOutcome(cpu, mem, bound, readings, completed).mem) == mem
  {
    var t := TickOutcome(cpu, mem, bound, readings, completed);
    CompleteTickAppendsOne(cpu, mem, bound, readings, completed);
    forall j | 0 <= j < |cpu| ensures PopEach(t.cpu)[j] == cpu[j] {
      assert DropLast(cpu[j] + [readings[j].value.0]) == cpu[j];
    }
    forall j | 0 <= j < |mem| ensures PopEach(t.mem)[j] == mem[j] {
      assert DropLast(mem[j] + [readings[j].value.1]) == mem[j];
    }
  }

  /** Every probe's list loses its final element, if it has one, and nothing else. */
  lemma PopEachDropsFinal(lists: seq<seq<real>>)
    ensures forall j :: 0 <= j < |lists| ==>
      && |PopEach(lists)[j]| == (if lists[j] == [] then 0 else |lists[j]| - 1)
      && PopEach(lists)[j] == lists[j][..|PopEach(lists)[j]|]
  {
  }

  // ---------------------------------------------------------------------------------------
  // Collecting the results

  /** The index of the first slot holding an exception, or |slots| when there is none. */
  function FirstRaised(slots: seq<Slot>): (k: nat)
    ensures k <= |slots|
    ensures forall j :: 0 <= j < k ==> !slots[j].Raised?
    ensures k < |slots| ==> slots[k].Raised?
  {
    if slots == [] then 0
    else if slots[0].Raised? then 0
    else 1 + FirstRaised(slots[1..])
  }

  /** numpy.mean: None stands for the NaN of an empty list. */
  function MeanOrNan(s: seq<real>): (r: Option<real>)
    ensures r.Some? <==> |s| > 0
    ensures r.Some? ==> r.value * (|s| as real) == Statistics.Sum(s)
  {
    if s == [] then None else Some(Statistics.Mean(s))
  }

  /** Line 314's first element: one (cmd, mean cpu, mean mem) per probe, in monitoring_options order. */
  function ProbeStats(probes: seq<Probe>, cpu: seq<seq<real>>, mem: seq<seq<real>>): (r: seq<ProbeStat>)
    requires |cpu| == |probes| && |mem| == |probes|
    ensures |r| == |probes|
    ensures forall j :: 0 <= j < |probes| ==> r[j] == ProbeStat(probes[j].cmd, MeanOrNan(cpu[j]), MeanOrNan(mem[j]))
  {
    seq(|probes|, j requires 0 <= j < |probes| => ProbeStat(probes[j].cmd, MeanOrNan(cpu[j]), MeanOrNan(mem[j])))
  }

  /** Every thread has stored its result: what the joins at lines 303-306 wait for. */
  predicate AllJoined(slots: seq<Slot>)
  {
    forall i :: 0 <= i < |slots| ==> !slots[i].Empty?
  }

  /** Lines 307-314: the first stored exception is re-raised; otherwise the statistics and the results. */
  function FinishOutcome(probes: seq<Probe>, cpu: seq<seq<real>>, mem: seq<seq<real>>, slots: seq<Slot>): Result<(seq<ProbeStat>, seq<Value>), RunError>
    requires |cpu| == |probes| && |mem| == |probes| && AllJoined(slots)
  {
    var k := FirstRaised(slots);
    if k < |slots| then Failure(Cmd(slots[k].error))
    else Success((ProbeStats(probes, cpu, mem), seq(|slots|, i requires 0 <= i < |slots| => slots[i].value)))
  }

  /** run() raises exactly when some thread stored an exception, and it is the lowest-index one. */
  lemma FinishRaisesLowest(probes: seq<Probe>, cpu: seq<seq<real>>, mem: seq<seq<real>>, slots: seq<Slot>)
    requires |cpu| == |probes| && |mem| == |probes| && AllJoined(slots)
    ensures FinishOutcome(probes, cpu, mem, slots).Failure? <==> exists i :: 0 <= i < |slots| && slots[i].Raised?
    ensures FinishOutcome(probes, cpu, mem, slots).Failure? ==>
      exists i :: 0 <= i < |slots| && slots[i].Raised?
        && FinishOutcome(probes, cpu, mem, slots).error == Cmd(slots[i].error)
        && forall j :: 0 <= j < i ==> !slots[j].Raised?
  {
    var k := FirstRaised(slots);
    if k == |slots| {
      assert forall i :: 0 <= i < |slots| ==> !slots[i].Raised?;
    }
  }

  /**
   * With no exception stored, the results come back one per command, in submission order, and
   * each probe's entry carries its command and numpy.mean of its CPU and memory samples.
   */
  lemma FinishInOrder(probes: seq<Probe>, cpu: seq<seq<real>>, mem: seq<seq<real>>, slots: seq<Slot>)
    requires |cpu| == |probes| && |mem| == |probes| && AllJoined(slots)
    requires forall i :: 0 <= i < |slots| ==> !slots[i].Raised?
    ensures FinishOutcome(probes, cpu, mem, slots).Success?
    ensures var (stats, values) := FinishOutcome(probes, cpu, mem, slots).value;
      && |values| == |slots|
      && (forall i :: 0 <= i < |slots| ==> slots[i] == Done(values[i]))
      && |stats| == |probes|
      && stats == ProbeStats(probes, cpu, mem)
      && forall j :: 0 <= j < |probes| ==>
        && stats[j].cmd == probes[j].cmd
        && stats[j].cpu == MeanOrNan(cpu[j]) && stats[j].mem == MeanOrNan(mem[j])
        && (stats[j].cpu.Some? <==> |cpu[j]| > 0) && (stats[j].mem.Some? <==> |mem[j]| > 0)
        && (stats[j].cpu.Some? ==> stats[j].cpu.value * (|cpu[j]| as real) == Statistics.Sum(cpu[j]))
        && (stats[j].mem.Some? ==> stats[j].mem.value * (|mem[j]| as real) == Statistics.Sum(mem[j]))
  {
  }

  function SlotOf(r: Result<Value, CmdError>): Slot
  {
    match r
    case Success(v) => Done(v)
    case Failure(e) => Raised(e)
  }

  /** Where a job's command runs: its own SSH session, or locally as the process `proc`. */
  function HostOf(ssh: Option<Session>, proc: LocalRun): Host
  {
    match ssh
    case None => Local(proc)
    case Some(s) => Remote(s)
  }

  class CommandRunner {
    var monitorOpts: seq<Probe>
    var cmdResults: seq<Slot>
    var threads: seq<Job>
    var cmdCompleted: bool
    var cpuVals: seq<seq<real>>
    var memVals: seq<seq<real>>
    var boundProbe: Option<nat>

    /** The shape run() sets up: one slot per thread, thread i owns slot i, two lists per probe. */
    predicate Valid()
      reads this
    {
      && |cmdResults| == |threads|
      && (forall i :: 0 <= i < |threads| ==> threads[i].index == i)
      && |cpuVals| == |monitorOpts| && |memVals| == |monitorOpts|
      && (boundProbe.Some? ==> boundProbe.value < |monitorOpts|)
    }

    /** Lines 236-241. */
    constructor(monitoringOptions: seq<Probe>)
      ensures Valid() && monitorOpts == monitoringOptions
      ensures cmdResults == [] && threads == [] && !cmdCompleted && boundProbe == None
      ensures cpuVals == seq(|monitoringOptions|, _ => []) && memVals == seq(|monitoringOptions|, _ => [])
    {
      monitorOpts := monitoringOptions;
      cmdResults, threads, cmdCompleted := [], [], false;
      cpuVals := seq(|monitoringOptions|, _ => []);
      memVals := seq(|monitoringOptions|, _ => []);
      boundProbe := None;
    }

    /** Lines 263-279: empty slots, one thread per entry, the flag cleared, empty sample lists. */
    method Start(cmds: seq<Entry>) returns (r: Result<(), RunError>)
      modifies this
      ensures r.Success? <==> Admit(cmds).Success?
      ensures r.Failure? ==> r.error == Admit(cmds).error && unchanged(this)
      ensures r.Success? ==>
        && Valid() && monitorOpts == old(monitorOpts)
        && threads == Admit(cmds).value
        && cmdResults == seq(|cmds|, _ => Empty)
        && !cmdCompleted && boundProbe == None
        && cpuVals == seq(|monitorOpts|, _ => []) && memVals == seq(|monitorOpts|, _ => [])
    {
      var admitted := Admit(cmds);
      if admitted.Failure? {
        return Failure(admitted.error);
      }
      cmdResults := seq(|cmds|, _ => Empty);
      threads := admitted.value;
      cmdCompleted := false;
      cpuVals := seq(|monitorOpts|, _ => []);
      memVals := seq(|monitorOpts|, _ => []);
      boundProbe := None;
      r := Success(());
    }

    /**
     * _run_in_thread (lines 243-252) for thread i, whose command, if it has no SSH client, runs
     * locally as `proc`: the flag is set and only slot i changes, to the value or the exception.
     */
    method RunInThread(i: nat, proc: LocalRun, cfg: Config)
      requires Valid() && i < |threads| && Completes(HostOf(threads[i].ssh, proc))
      modifies this
      ensures monitorOpts == old(monitorOpts) && threads == old(threads)
      ensures Valid() && cmdCompleted
      ensures cmdResults == old(cmdResults)[i := SlotOf(CommandOutcome(threads[i].cmd, HostOf(threads[i].ssh, proc), Unset, cfg))]
      ensures cpuVals == old(cpuVals) && memVals == old(memVals) && boundProbe == old(boundProbe)
    {
      var job := threads[i];
      var retval := RunCommand(job.cmd, HostOf(job.ssh, proc), Unset, cfg);
      cmdCompleted := true;
      cmdResults := cmdResults[job.index := SlotOf(retval)];
    }

    /**
     * One pass of the loop at lines 287-297; readings[j] is what cpu_mem_usage returns for probe j
     * in this pass. Returns the exception that escapes run(), if any.
     */
    method MonitorTick(readings: seq<Result<(real, real), CmdError>>) returns (raised: Option<CmdError>)
      requires Valid() && |readings| == |monitorOpts|
      modifies this
      ensures Valid()
      ensures var t := TickOutcome(old(cpuVals), old(memVals), old(boundProbe), readings, old(cmdCompleted));
        cpuVals == t.cpu && memVals == t.mem && boundProbe == t.bound && raised == t.raised
      ensures monitorOpts == old(monitorOpts) && threads == old(threads)
      ensures cmdResults == old(cmdResults) && cmdCompleted == old(cmdCompleted)
    {
      var cpu, mem, k := MeasureProbes(cpuVals, memVals, readings);
      cpuVals, memVals := cpu, mem;
      if |readings| > 0 {
        boundProbe := Some(if k < |readings| then k else |readings| - 1);
      }
      if k < |readings| && !(readings[k].error.BadExitCode? && cmdCompleted) {
        raised := Some(readings[k].error);
      } else {
        raised := None;
      }
    }

    /** Lines 298-299 with the evident intent: each probe drops the sample of the final tick. */
    method StopMonitoring()
      requires Valid()
      modifies this
      ensures Valid()
      ensures cpuVals == PopEach(old(cpuVals)) && memVals == PopEach(old(memVals))
      ensures monitorOpts == old(monitorOpts) && threads == old(threads) && boundProbe == old(boundProbe)
      ensures cmdResults == old(cmdResults) && cmdCompleted == old(cmdCompleted)
    {
      var cpu, mem := cpuVals, memVals;
      for j := 0 to |cpu|
        invariant |cpu| == |cpuVals| && |mem| == |memVals|
        invariant forall x :: 0 <= x < |cpu| ==> cpu[x] == if x < j then PopEach(cpuVals)[x] else cpuVals[x]
        invariant forall x :: 0 <= x < |mem| ==> mem[x] == if x < j then PopEach(memVals)[x] else memVals[x]
      {
        if cpu[j] != [] {
          cpu := cpu[j := DropLast(cpu[j])];
        }
        if mem[j] != [] {
          mem := mem[j := DropLast(mem[j])];
        }
      }
      cpuVals, memVals := cpu, mem;
    }

    /** Lines 307-314 once every thread has finished: re-raise the first exception, or return the results. */
    method Finish() returns (r: Result<(seq<ProbeStat>, seq<Value>), RunError>)
      requires Valid() && AllJoined(cmdResults)
      ensures r == FinishOutcome(monitorOpts, cpuVals, memVals, cmdResults)
    {
      var slots := cmdResults;
      var values: seq<Value> := [];
      for i := 0 to |slots|
        invariant |values| == i
        invariant forall x :: 0 <= x < i ==> !slots[x].Raised? && slots[x] == Done(values[x])
      {
        match slots[i] {
          case Raised(e) =>
            FirstRaisedIs(slots, i);
            return Failure(Cmd(e));
          case Done(v) =>
            values := values + [v];
          case Empty =>
            assert false;
        }
      }
      assert FirstRaised(slots) == |slots|;
      assert values == seq(|slots|, i requires 0 <= i < |slots| => slots[i].value);
      r := Success((ProbeStats(monitorOpts, cpuVals, memVals), values));
    }
  }

  lemma FirstRaisedIs(slots: seq<Slot>, k: nat)
    requires k < |slots| && slots[k].Raised?
    requires forall j :: 0 <= j < k ==> !slots[j].Raised?
    ensures FirstRaised(slots) == k
  {
  }
}
