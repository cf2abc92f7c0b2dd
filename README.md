# IPbus performance suite and uHAL HwInterface: a Dafny model

The model covers the sequential logic of the IPbus performance test driver
(`cactuscore/uhal/tests/scripts/ipbus_perf_suite.py`) and the owner-stamping tree walk of
uHAL's `HwInterface` (`uhal/uhal/src/common/HwInterface.cpp`), with proofs of the properties
that code promises.

- `CommandExec` (`command_exec.dfy`) covers `run_command`, `parse_perftester` and `cpu_mem_usage`:
  - rewriting the command (the `sudo` prefix, the default PerfTester parser, the `export K=V ; `
    clauses of a remote run);
  - the local non-blocking read loop, as a fold over abstract read events. The hard timeout is
    checked against the start time `t0`;
  - classifying the outcome: a non-zero exit code, the raw `(exit_code, output)` tuple, or
    parser output;
  - the per-line CPU/memory sums of `cpu_mem_usage`, taken over rows that were already matched.
- `CommandRunning` (`command_runner.dfy`) holds the bookkeeping of `CommandRunner`, with the
  threads removed. The class `CommandRunner` has the result slots, the completed flag and the
  per-probe sample lists in place. Each thread's completion is a `RunInThread` call, and each
  monitoring pass is a `MonitorTick` call. `StopMonitoring` is the final pop, and `Finish`
  re-raises the lowest stored exception or returns the ordered results.
- `Statistics` (`statistics.dfy`) holds `calc_rms`, `calc_mean_with_error`, `calc_rms_with_error`,
  `calc_y_stats` and `DataseriesStats`, all in exact `real` arithmetic.
- `Measurements` (`measurements.dfy`) holds the post-processing of `measure_bw_vs_depth`:
  - sorting and trimming the top 8% of latencies;
  - the latency-to-bandwidth conversion;
  - the command list of `measure_bw_vs_nClients`.
- `HwInterfaces` (`hw_interface.dfy`) holds `HwInterface`: the two constructors, `claimNode`,
  `getClient` and `getNode`. They act on a heap tree of `Node` objects with a ghost footprint.
- `Wrappers` (`wrappers.dfy`) holds `Option` and `Result`.

Everything outside the program is a parameter:
- the subprocess is a `LocalRun`: a start time, the sequence of read events, and what `poll()`
  returns;
- the SSH session is a function from the command string to `(exit_code, stdout_lines, stderr_lines)`;
- the regexes are functions from text to parsed numbers;
- `math.sqrt` is a function `sqrt: real -> real`;
- `randint` is the sequence of resample indices it would draw.

Two points of `run_command` are easy to misread, and the model follows the code on both:
- The hard timeout is measured from `t0`, the start of the command. It is not measured from the
  last output line, and it is checked only on a read that would block.
- The read loop is `while True`. It returns only at end of file or by the timeout, so a local
  trace that holds neither is a run that has not yet returned (see Left out).

`CommandRunner.run` has two defects, listed under Findings. Each is modelled as written and
corrected, and the class runs the corrected behaviour:
- `CommandRunning.PopAsWritten` is the final pop as written: it pops only the lists of the probe
  that the loop at line 289 left bound. `CommandRunner.StopMonitoring` drops the final sample of
  every probe, which is what that loop, binding each probe in turn, evidently means.
- `CommandRunning.AdmitAsWritten` is the log line as written: it rejects any `(cmd, ssh_client)`
  entry. `CommandRunning.Admit`, which `CommandRunner.Start` uses, accepts both forms of entry, as
  the docstring at line 257 allows.

## Model

| member | source | states |
|---|---|---|
| CommandExec.EffectiveParser | cactuscore/uhal/tests/scripts/ipbus_perf_suite.py:109-110 | the PerfTester parser is used iff it was given, or no parser was given and the command starts with PerfTester.exe or perf_tester.escript; otherwise the given parser, including an explicit False, is kept |
| CommandExec.SudoRewrite | cactuscore/uhal/tests/scripts/ipbus_perf_suite.py:111-112 | a command starting with sudo becomes "sudo PATH=$PATH " followed by the command after its first four characters, 12 characters longer; any other command is unchanged |
| CommandExec.PrefixExports | cactuscore/uhal/tests/scripts/ipbus_perf_suite.py:159-160 | the loop returns the export prefix followed by the command, and the command remains an exact suffix |
| CommandExec.ExportPrefixAppend | cactuscore/uhal/tests/scripts/ipbus_perf_suite.py:159-160 | exports of later entries end up in front of earlier ones: the prefix of a + b is the prefix of b followed by the prefix of a |
| CommandExec.ExportClauseOfEachEntry | cactuscore/uhal/tests/scripts/ipbus_perf_suite.py:159-160 | every environment entry contributes its own "export K=V ; " clause, at the position its order in the map implies |
| CommandExec.StopIndex | cactuscore/uhal/tests/scripts/ipbus_perf_suite.py:126-142 | the read loop stops at the first event that is end-of-file or a late would-block read; no event before it is either |
| CommandExec.DrainCharacterised | cactuscore/uhal/tests/scripts/ipbus_perf_suite.py:126-142 | the read loop's result is determined by the first stopping event: a timeout carrying the lines read so far if that event is a late would-block, a finished read of all lines before it if it is end-of-file, and a loop still running, with every line so far, if the trace holds no stopping event |
| CommandExec.TimeoutIff | cactuscore/uhal/tests/scripts/ipbus_perf_suite.py:140-142 | a hard timeout happens iff some would-block read more than the limit after t0 comes before any end-of-file and any earlier late read |
| CommandExec.LinesNeverTimeOut | cactuscore/uhal/tests/scripts/ipbus_perf_suite.py:129-135 | with no would-block reads the loop never times out and its output is the in-order concatenation of the lines before end-of-file; it has finished iff the trace holds an end-of-file |
| CommandExec.ReadOutput | cactuscore/uhal/tests/scripts/ipbus_perf_suite.py:123-142 | the while loop over read events computes exactly the characterised read result, including a loop still running when the trace ends |
| CommandExec.ParsePerfTester | cactuscore/uhal/tests/scripts/ipbus_perf_suite.py:177-186 | parsing succeeds iff the frequency match exists and is non-zero; on success the latency in microseconds times freq is 1e6 and the bandwidth in Gb/s times 125e3 is the KB/s reading; otherwise a parse failure carrying the output |
| CommandExec.Classify | cactuscore/uhal/tests/scripts/ipbus_perf_suite.py:149-156 | a truthy exit code raises BadExitCode with that exact code and output; otherwise the raw (exit_code, output) with a None or False parser, parse_perftester's result with that parser, and any other callable's result applied to the output |
| CommandExec.RunCommand | cactuscore/uhal/tests/scripts/ipbus_perf_suite.py:104-174 | for a run that returns (a local trace holding an end-of-file or a late read), the method returns exactly the outcome of the rewritten command on the given host |
| CommandExec.LocalTimeout | cactuscore/uhal/tests/scripts/ipbus_perf_suite.py:116-142 | when the read loop stops at a late read (60 s limit) the run raises the hard timeout with the rewritten command and the output read so far; when it stops at end-of-file, that output goes to the exit-code check and the parser; unless a custom parser raises it, the timeout happens iff the stop is a late read |
| CommandExec.LocalCleanExit | cactuscore/uhal/tests/scripts/ipbus_perf_suite.py:149-154 | lines followed by end-of-file, with poll() returning None or 0 and no parser, give Raw(poll, the lines joined) |
| CommandExec.LinesThenEof | cactuscore/uhal/tests/scripts/ipbus_perf_suite.py:129-132 | builds the trace of a process that writes non-empty lines and closes its output (one event per line plus the end-of-file); whatever t0 and the limit, its read loop stops exactly at that end-of-file, so the run returns |
| CommandExec.LinesThenEofDrain | cactuscore/uhal/tests/scripts/ipbus_perf_suite.py:129-135 | such a sequence drains to the accumulated text followed by all lines in order |
| CommandExec.RemoteRun | cactuscore/uhal/tests/scripts/ipbus_perf_suite.py:158-174 | a non-zero exit status raises BadExitCode with that status, the export-prefixed command and stdout followed by stderr; on a zero status that output is returned as (0, output) with no parser, or handed to parse_perftester or the given callable; the rewritten command is a suffix of what is sent |
| CommandExec.SumUsage | cactuscore/uhal/tests/scripts/ipbus_perf_suite.py:206-218 | the loop sums %CPU and %MEM over exactly the lines the regex matched |
| CommandExec.MatchedTotalsBoundEachLine | cactuscore/uhal/tests/scripts/ipbus_perf_suite.py:214-218 | with non-negative readings each matched line's value is at most the total |
| CommandExec.MatchedTotalsNonNegative | cactuscore/uhal/tests/scripts/ipbus_perf_suite.py:214-220 | non-negative readings give non-negative totals |
| CommandExec.TopCommandIsRaw | cactuscore/uhal/tests/scripts/ipbus_perf_suite.py:205 | the top command gets no parser and no sudo rewrite, so a successful run yields the raw tuple whose output the loop reads |
| CommandExec.CpuMemUsage | cactuscore/uhal/tests/scripts/ipbus_perf_suite.py:202-220 | a probe containing a space fails the assertion; otherwise the run's failure propagates, or the matched sums are returned |
| CommandRunning.FirstTuple | cactuscore/uhal/tests/scripts/ipbus_perf_suite.py:261 | the index of the first (cmd, ssh_client) entry: all entries before it are strings |
| CommandRunning.Jobs | cactuscore/uhal/tests/scripts/ipbus_perf_suite.py:272-279 | one job per entry, in the same order |
| CommandRunning.AdmitAsWritten | cactuscore/uhal/tests/scripts/ipbus_perf_suite.py:260-261 | as written, a batch is admitted iff it is non-empty and every entry is a plain string, and then becomes one job per entry; a failure on a non-empty batch names a tuple entry |
| CommandRunning.Admit | cactuscore/uhal/tests/scripts/ipbus_perf_suite.py:260-279 | the corrected admission accepts every non-empty batch, with one job per entry |
| CommandRunning.TupleEntriesRejected | cactuscore/uhal/tests/scripts/ipbus_perf_suite.py:260-261 | as written, a batch with any tuple entry fails at the log line, at or before that entry |
| CommandRunning.RemoteEntryCounterexample | cactuscore/uhal/tests/scripts/ipbus_perf_suite.py:260-261 | a one-entry batch with an SSH client is rejected as written and accepted by the corrected admission |
| CommandRunning.AdmitJobs | cactuscore/uhal/tests/scripts/ipbus_perf_suite.py:260-279 | the corrected admission fails iff the batch is empty; otherwise entry i becomes job i with its command, its client (None for a string) and index i |
| CommandRunning.AdmitAgreesOnStrings | cactuscore/uhal/tests/scripts/ipbus_perf_suite.py:260-279 | on batches of plain strings the corrected and the as-written admission agree |
| CommandRunning.FirstFailure | cactuscore/uhal/tests/scripts/ipbus_perf_suite.py:289-294 | the first probe whose measurement raises: all before it succeeded |
| CommandRunning.CompleteTickAppendsOne | cactuscore/uhal/tests/scripts/ipbus_perf_suite.py:289-293 | a pass in which every probe answers appends exactly its sample to both lists of every probe, raises nothing, and leaves the loop variables on the last probe |
| CommandRunning.FailedTickStops | cactuscore/uhal/tests/scripts/ipbus_perf_suite.py:288-296 | an exception at probe k leaves samples only for probes before k, binds the loop variables to k, and escapes unless it is a BadExitCode seen after completion |
| CommandRunning.MeasureProbes | cactuscore/uhal/tests/scripts/ipbus_perf_suite.py:289-293 | the loop stops at the first failing probe, and the lists it builds are those of the tick outcome |
| CommandRunning.TickLists | cactuscore/uhal/tests/scripts/ipbus_perf_suite.py:289-293 | lists extended up to the first failure are the tick outcome's lists, whatever the flag and binding |
| CommandRunning.PopAsWritten | cactuscore/uhal/tests/scripts/ipbus_perf_suite.py:298-299 | as written, the pop fails only with an unbound name or an empty list; on success every probe keeps its list and the bound probe's list is one shorter |
| CommandRunning.PopAsWrittenOnlyBound | cactuscore/uhal/tests/scripts/ipbus_perf_suite.py:298-299 | as written, the pop fails with an unbound name iff no pass bound the loop variables, and fails on an empty list; otherwise it removes the final sample of the bound probe only |
| CommandRunning.PopCounterexample | cactuscore/uhal/tests/scripts/ipbus_perf_suite.py:298-299 | two probes with one sample each: as written only the second loses its sample; the corrected pop empties both |
| CommandRunning.NoTickCounterexample | cactuscore/uhal/tests/scripts/ipbus_perf_suite.py:287-299 | when the flag is already set before the first pass, the as-written pop meets an unbound name |
| CommandRunning.PopEach | cactuscore/uhal/tests/scripts/ipbus_perf_suite.py:298-299 | the corrected pop has one list per probe |
| CommandRunning.PopEachUndoesCompleteTick | cactuscore/uhal/tests/scripts/ipbus_perf_suite.py:289-299 | the corrected pop after a complete pass gives back every probe's lists as before that pass |
| CommandRunning.PopEachDropsFinal | cactuscore/uhal/tests/scripts/ipbus_perf_suite.py:298-299 | each list loses exactly its final sample, or stays empty, and what remains is its prefix |
| CommandRunning.FirstRaised | cactuscore/uhal/tests/scripts/ipbus_perf_suite.py:309-312 | the index of the first slot holding an exception: none before it does |
| CommandRunning.MeanOrNan | cactuscore/uhal/tests/scripts/ipbus_perf_suite.py:314 | numpy.mean of a probe's samples exists iff there are samples, and times their count equals their sum |
| CommandRunning.ProbeStats | cactuscore/uhal/tests/scripts/ipbus_perf_suite.py:314 | one entry per probe in monitoring order: entry j is probe j's command with numpy.mean of its CPU samples and of its memory samples |
| CommandRunning.FinishRaisesLowest | cactuscore/uhal/tests/scripts/ipbus_perf_suite.py:309-312 | finishing fails iff some slot holds an exception, and then it raises the lowest-index one |
| CommandRunning.FinishInOrder | cactuscore/uhal/tests/scripts/ipbus_perf_suite.py:314 | with no exception stored, the values come back one per command in submission order, and one (cmd, cpu, mem) entry per probe with the probe's command; each mean exists iff that list has samples, and then times their count equals their sum |
| CommandRunning.FirstFailureIs | cactuscore/uhal/tests/scripts/ipbus_perf_suite.py:289-294 | a failing probe with only successes before it is the first failure |
| CommandRunning.FirstRaisedIs | cactuscore/uhal/tests/scripts/ipbus_perf_suite.py:309-312 | an exception slot with none before it is the first raised |
| CommandRunning.CommandRunner.constructor | cactuscore/uhal/tests/scripts/ipbus_perf_suite.py:236-241 | stores the monitoring options, with no results and no samples |
| CommandRunning.CommandRunner.Start | cactuscore/uhal/tests/scripts/ipbus_perf_suite.py:260-279 | (the corrected admission) an empty batch fails and changes nothing; otherwise one empty slot and one job per entry, the flag cleared, one empty pair of sample lists per probe |
| CommandRunning.CommandRunner.RunInThread | cactuscore/uhal/tests/scripts/ipbus_perf_suite.py:243-252 | for a command run that returns, sets the completed flag and writes only slot i, with the command's value or its exception; everything else is unchanged |
| CommandRunning.CommandRunner.MonitorTick | cactuscore/uhal/tests/scripts/ipbus_perf_suite.py:287-297 | the sample lists, the loop binding and the escaping exception become the tick outcome; slots and flag are unchanged |
| CommandRunning.CommandRunner.StopMonitoring | cactuscore/uhal/tests/scripts/ipbus_perf_suite.py:298-299 | every probe's lists are popped once (the corrected behaviour); nothing else changes |
| CommandRunning.CommandRunner.Finish | cactuscore/uhal/tests/scripts/ipbus_perf_suite.py:303-314 | after all threads are joined, returns exactly the finish outcome of the slots and lists |
| Statistics.Rms | cactuscore/uhal/tests/scripts/ipbus_perf_suite.py:411-414 | defined iff the list is non-empty, as sqrt of the mean squared deviation from the mean, which is never negative |
| Statistics.SumSqDevNonNegative | cactuscore/uhal/tests/scripts/ipbus_perf_suite.py:413 | the sum of squared deviations is never negative |
| Statistics.VarianceNonNegative | cactuscore/uhal/tests/scripts/ipbus_perf_suite.py:411-414 | the radicand of calc_rms is never negative, so math.sqrt never rejects it |
| Statistics.SumSqDevExpand | cactuscore/uhal/tests/scripts/ipbus_perf_suite.py:413 | the sum of squared deviations from m equals sum2 - 2 m sum + n m m |
| Statistics.VarianceBySums | cactuscore/uhal/tests/scripts/ipbus_perf_suite.py:434-438 | sum2/n - mean*mean equals calc_rms's mean squared deviation |
| Statistics.ConstantSum | cactuscore/uhal/tests/scripts/ipbus_perf_suite.py:411-414 | a constant sample sums to n c and deviates by zero from c |
| Statistics.ConstantMeanVariance | cactuscore/uhal/tests/scripts/ipbus_perf_suite.py:411-414 | a constant sample has mean c and zero variance |
| Statistics.ConstantSampleRms | cactuscore/uhal/tests/scripts/ipbus_perf_suite.py:411-414 | calc_rms of a constant sample is 0, given sqrt(0) = 0 |
| Statistics.MinMaxBound | cactuscore/uhal/tests/scripts/ipbus_perf_suite.py:428-433 | every element lies between the tracked minimum and maximum |
| Statistics.MinEqualsMaxIff | cactuscore/uhal/tests/scripts/ipbus_perf_suite.py:435 | the minimum equals the maximum iff all elements are equal |
| Statistics.MinMaxAttained | cactuscore/uhal/tests/scripts/ipbus_perf_suite.py:428-433 | the minimum and the maximum are elements of the resample |
| Statistics.Resample | cactuscore/uhal/tests/scripts/ipbus_perf_suite.py:403-404 | element k of a resample is the data element at the k-th drawn index |
| Statistics.ResampleOfConstant | cactuscore/uhal/tests/scripts/ipbus_perf_suite.py:425 | a resample of constant data is constant |
| Statistics.BootstrapMeans | cactuscore/uhal/tests/scripts/ipbus_perf_suite.py:401-405 | there are 100 bootstrap means |
| Statistics.MeanWithError | cactuscore/uhal/tests/scripts/ipbus_perf_suite.py:397-408 | the nested loops compute the mean and the RMS of the 100 resample means; an empty list is a ZeroDivisionError (None) |
| Statistics.BootstrapRms | cactuscore/uhal/tests/scripts/ipbus_perf_suite.py:421-438 | there are 100 bootstrap RMS values |
| Statistics.ResampleRmsIsRms | cactuscore/uhal/tests/scripts/ipbus_perf_suite.py:434-438 | a bootstrap radicand is the resample's calc_rms radicand, hence non-negative, and zero when min equals max; with sqrt(0) = 0 a bootstrap RMS is calc_rms of its resample |
| Statistics.ResampleSums | cactuscore/uhal/tests/scripts/ipbus_perf_suite.py:424-433 | the inner loop computes the resample's sum, sum of squares, minimum and maximum |
| Statistics.RadicandFromSums | cactuscore/uhal/tests/scripts/ipbus_perf_suite.py:434-438 | sum2/n - mean*mean from the running sums is the resample's radicand |
| Statistics.BootstrapRmsValue | cactuscore/uhal/tests/scripts/ipbus_perf_suite.py:434-438 | the value appended for one resample is its bootstrap RMS |
| Statistics.RmsFromRadicand | cactuscore/uhal/tests/scripts/ipbus_perf_suite.py:435-438 | the min == max guard picks 0.0, otherwise sqrt of the radicand |
| Statistics.RmsWithError | cactuscore/uhal/tests/scripts/ipbus_perf_suite.py:416-440 | the loops compute calc_rms and the RMS of the 100 bootstrap RMS values; an empty list is None |
| Statistics.ConstantSampleErrors | cactuscore/uhal/tests/scripts/ipbus_perf_suite.py:397-440 | a constant sample c has mean c with error 0, and RMS 0 with error 0, given sqrt(0) = 0 |
| Statistics.KeyStatsOf | cactuscore/uhal/tests/scripts/ipbus_perf_suite.py:386-393 | one x gives entries iff its sample is non-empty and its mean is non-zero |
| Statistics.KeyStatsRelative | cactuscore/uhal/tests/scripts/ipbus_perf_suite.py:386-393 | the entries are the mean and its error, then calc_rms and its error each divided by the mean |
| Statistics.KeyStatsFromCalls | cactuscore/uhal/tests/scripts/ipbus_perf_suite.py:386-393 | the entries for one x follow from the two calls' results |
| Statistics.KeyStatsListDefined | cactuscore/uhal/tests/scripts/ipbus_perf_suite.py:384-393 | the loop over keys completes iff every key's entries are defined |
| Statistics.KeyStatsListEntries | cactuscore/uhal/tests/scripts/ipbus_perf_suite.py:384-393 | a completed loop has one entry per key, entry k computed from key k's data |
| Statistics.KeyStatsListStep | cactuscore/uhal/tests/scripts/ipbus_perf_suite.py:384-393 | one more key either raises for the whole loop or appends its entries |
| Statistics.KeyStatsListNoneStaysNone | cactuscore/uhal/tests/scripts/ipbus_perf_suite.py:384-393 | an exception part-way through is the loop's outcome |
| Statistics.RowsOfAppend | cactuscore/uhal/tests/scripts/ipbus_perf_suite.py:388-393 | appending one more key's entries extends every list by that key's values |
| Statistics.RowsOfShape | cactuscore/uhal/tests/scripts/ipbus_perf_suite.py:388-393 | all six lists have one entry per key; entry k comes from key k, with equal lower and upper errors |
| Statistics.SortedKeys | cactuscore/uhal/tests/scripts/ipbus_perf_suite.py:384 | sorted(keys) holds exactly the keys, each once, strictly ascending |
| Statistics.KeysDefinedIff | cactuscore/uhal/tests/scripts/ipbus_perf_suite.py:384-393 | over all keys, the loop completes iff every sample is non-empty with non-zero mean |
| Statistics.YStatsDefined | cactuscore/uhal/tests/scripts/ipbus_perf_suite.py:382-395 | calc_y_stats returns iff every sample is non-empty with non-zero mean |
| Statistics.KeysRows | cactuscore/uhal/tests/scripts/ipbus_perf_suite.py:384-393 | the lists are entry-by-entry the per-key results, in key order |
| Statistics.YStatsRows | cactuscore/uhal/tests/scripts/ipbus_perf_suite.py:382-395 | calc_y_stats has one entry per key in ascending key order in all six lists; mean_err_lo equals mean_err_hi and rms_err_lo equals rms_err_hi |
| Statistics.DataseriesStats.constructor | cactuscore/uhal/tests/scripts/ipbus_perf_suite.py:367-373 | all six lists start empty |
| Statistics.DataseriesStats.Append | cactuscore/uhal/tests/scripts/ipbus_perf_suite.py:388-393 | every list gets its one new entry |
| Statistics.DataseriesStats.MeanErrors | cactuscore/uhal/tests/scripts/ipbus_perf_suite.py:375-376 | the lower and upper mean error lists, in that order |
| Statistics.DataseriesStats.RmsErrors | cactuscore/uhal/tests/scripts/ipbus_perf_suite.py:378-379 | the lower and upper RMS error lists, in that order |
| Statistics.KeyResults | cactuscore/uhal/tests/scripts/ipbus_perf_suite.py:385-393 | the loop body for one x computes that x's entries |
| Statistics.AppendKeys | cactuscore/uhal/tests/scripts/ipbus_perf_suite.py:384-393 | the loop over keys computes the per-key results, and the object holds their rows |
| Statistics.CalcYStats | cactuscore/uhal/tests/scripts/ipbus_perf_suite.py:382-395 | returns a fresh object iff the statistics are defined, holding exactly their rows |
| Statistics.SeriesExample | cactuscore/uhal/tests/scripts/ipbus_perf_suite.py:382-395 | {1: [2, 4], 2: [10, 10]} gives means [3, 10] and relative RMS [1/3, 0] |
| Statistics.ExampleSpread | cactuscore/uhal/tests/scripts/ipbus_perf_suite.py:411-414 | [2, 4] has mean 3 and calc_rms 1, given sqrt(1) = 1 |
| Measurements.InsertSorted | cactuscore/uhal/tests/scripts/ipbus_perf_suite.py:591 | inserting into a sorted list keeps it sorted |
| Measurements.InsertMultiset | cactuscore/uhal/tests/scripts/ipbus_perf_suite.py:591 | insertion adds exactly the one element |
| Measurements.SortAscFacts | cactuscore/uhal/tests/scripts/ipbus_perf_suite.py:591 | list.sort() yields an ascending permutation of the list |
| Measurements.OutlierCount | cactuscore/uhal/tests/scripts/ipbus_perf_suite.py:595 | int(ceil(0.08 n)) is the least c with 100 c >= 8 n, and at most n |
| Measurements.TrimOutliers | cactuscore/uhal/tests/scripts/ipbus_perf_suite.py:591-602 | the sort and the pop loop leave the trimmed lists, or fail when rx runs out first |
| Measurements.SplitSorted | cactuscore/uhal/tests/scripts/ipbus_perf_suite.py:591-602 | the kept part is sorted, the kept and dropped parts together are a permutation of the list, and no kept latency exceeds a dropped one |
| Measurements.TrimKeepsSmallest | cactuscore/uhal/tests/scripts/ipbus_perf_suite.py:591-602 | when rx is long enough, tx and rx each lose ceil(0.08 len(tx)) largest elements and stay sorted |
| Measurements.Bandwidths | cactuscore/uhal/tests/scripts/ipbus_perf_suite.py:603-606 | the bandwidths exist iff no latency is zero; then there is one per latency, with bw_j t_j = 1e-3 * 32 * d |
| Measurements.BandwidthTimesLatency | cactuscore/uhal/tests/scripts/ipbus_perf_suite.py:603 | bandwidth times latency is 1e-3 * 32 * d |
| Measurements.BandwidthsInvert | cactuscore/uhal/tests/scripts/ipbus_perf_suite.py:603-606 | for non-zero d each latency is recovered as 1e-3 * 32 * d / bandwidth |
| Measurements.BandwidthsDescend | cactuscore/uhal/tests/scripts/ipbus_perf_suite.py:603-606 | sorted positive latencies give bandwidths in descending order |
| Measurements.DepthStep | cactuscore/uhal/tests/scripts/ipbus_perf_suite.py:591-606 | processing one depth keeps the set of depths |
| Measurements.PostProcessSpec | cactuscore/uhal/tests/scripts/ipbus_perf_suite.py:590-606 | processing all depths keeps the set of depths |
| Measurements.ProcessDepth | cactuscore/uhal/tests/scripts/ipbus_perf_suite.py:591-606 | the method for one depth computes that depth's step |
| Measurements.PostProcess | cactuscore/uhal/tests/scripts/ipbus_perf_suite.py:590-606 | the loop over depths computes the fold of the steps, stopping at the first exception |
| Measurements.PostProcessFailureSticks | cactuscore/uhal/tests/scripts/ipbus_perf_suite.py:590-606 | once a depth raises, later depths do not change the outcome |
| Measurements.DepthStepEffect | cactuscore/uhal/tests/scripts/ipbus_perf_suite.py:591-606 | with equal-length positive lists a depth succeeds: its lists are trimmed and its bandwidths are those of the trimmed lists |
| Measurements.DepthStepFrame | cactuscore/uhal/tests/scripts/ipbus_perf_suite.py:591-606 | processing depth d leaves every other depth's entries untouched |
| Measurements.PostProcessEachDepth | cactuscore/uhal/tests/scripts/ipbus_perf_suite.py:590-606 | with distinct depths and equal-length positive lists, every depth ends trimmed, with one bandwidth per kept latency |
| Measurements.PostProcessUntouched | cactuscore/uhal/tests/scripts/ipbus_perf_suite.py:590-606 | depths not yet processed keep their lists |
| Measurements.PostProcessSucceeds | cactuscore/uhal/tests/scripts/ipbus_perf_suite.py:590-606 | under those conditions no depth raises |
| Measurements.TrimPositive | cactuscore/uhal/tests/scripts/ipbus_perf_suite.py:591-602 | equal-length positive lists trim without failure and stay positive |
| Measurements.PositiveSorted | cactuscore/uhal/tests/scripts/ipbus_perf_suite.py:591 | sorting keeps all latencies positive |
| Measurements.Copies | cactuscore/uhal/tests/scripts/ipbus_perf_suite.py:766 | range(n_clients) gives n copies of the command |
| Measurements.Take | cactuscore/uhal/tests/scripts/ipbus_perf_suite.py:766 | targets[0:n] has min(n, len(targets)) elements |
| Measurements.ClientCommandsLayout | cactuscore/uhal/tests/scripts/ipbus_perf_suite.py:766 | the list has n_targets * n_clients commands; command t * n_clients + x is base + target t + " -i " + itns |
| Measurements.NClientsBatchAdmitted | cactuscore/uhal/tests/scripts/ipbus_perf_suite.py:765-766 | with at least one client and one target the batch has n_targets * n_clients plain-string commands, which both admissions accept |
| HwInterfaces.OwnedByEveryDescendant | uhal/uhal/src/common/HwInterface.cpp:73-76 | an owned tree has that owner at every node reachable by child links |
| HwInterfaces.DescendantsOwnedBy | uhal/uhal/src/common/HwInterface.cpp:73-76 | conversely, a tree whose every reachable node has that owner is owned |
| HwInterfaces.HwInterface.ClaimNode | uhal/uhal/src/common/HwInterface.cpp:69-77 | sets the node's owner to this and that of every reachable node; only owner fields inside the subtree change, child lists keep their contents |
| HwInterfaces.HwInterface.constructor | uhal/uhal/src/common/HwInterface.cpp:49-54 | stores the client and the root, then the whole root tree is owned by the new interface |
| HwInterfaces.HwInterface.Copy | uhal/uhal/src/common/HwInterface.cpp:57-62 | shares the other interface's client, owns the clone's whole tree, and leaves the owners of the original tree untouched |
| HwInterfaces.HwInterface.GetClient | uhal/uhal/src/common/HwInterface.cpp:79-82 | returns the stored client |
| HwInterfaces.HwInterface.GetNode | uhal/uhal/src/common/HwInterface.cpp:129-132 | returns the stored root |

## Left out

- Process handling is not modelled:
  - `subprocess.Popen`, the `fcntl` non-blocking setup, `os.killpg` and signals;
  - the Ctrl-C path and `time.sleep`.
  These are operating-system I/O. The read loop works on an abstract sequence of events, and the kill is not represented.
- Threads are replaced by calls:
  - `threading.Thread`, `start` and `join`, and the unsynchronised busy-wait on `_cmd_completed`, are concurrency;
  - each thread's completion is a `RunInThread` call, and `Finish` requires every slot to be filled, which is the join;
  - the race between a probe's failing `grep` and a command finishing is the `completed` argument of a tick.
- A local run whose trace holds neither an end-of-file nor a late would-block read never returns from `run_command`. `CommandExec.CommandOutcome` and everything built on it require `Completes(host)`, so no result is claimed for such a run; `Drain` and `ReadOutput` report it as `Unfinished`.
- A parser other than `None`, `False` and `parse_perftester` is a `Custom` function from the output to a `Value` or an error. A callable returning some other Python value has no counterpart; no caller in the script passes one.
- SSH sessions (`paramiko`), the remote configuration upload, and starting or stopping ControlHub are network and file I/O. A remote session is a function parameter.
- Regular-expression matching is library behaviour, in `parse_perftester` and in `cpu_mem_usage`. It is a function from the output text to the parsed readings or to per-line matches.
- `math.sqrt` has no definition in the model. It is a parameter, and lemmas that need sqrt(0) = 0 or sqrt(1) = 1 require it.
- `numpy.mean` and `random.randint`:
  - the mean is exact; the mean of an empty list, which numpy reports as nan, is `None`;
  - the drawn indices are a parameter.
- All arithmetic is exact `real`. IEEE rounding of `0.08 * len`, of `1e-3 * 32 * d / t` and of the statistics is not modelled. `OutlierCount` uses the exact ceiling of 8n/100.
- Statistics.KeyStatsOf: a zero mean gives `None`. The source divides by zero there, which gives a numpy non-finite value or a ZeroDivisionError; neither has a counterpart in `real`.
- The `incl_connect` lists of `measure_bw_vs_depth` are never filled (their appends are commented out, so they are empty). Their sort and their bandwidths are not modelled.
- The debug `print` for depth 1, logging throughout, and the plotting of the measurement sweeps are output only.
- `run_ping`, `calc_y_with_errors` and `CommandHardTimeout.__str__` are not modelled. They refer to names that do not exist.
- HwInterfaces.HwInterface.Copy: `Node::clone` is not part of this model. The clone is a parameter that is required to share no node with the original tree.
- `Node` keeps only `mHw` and `mChildren`. The other `HwInterface` methods are not modelled: `dispatch`, `id`, `uri`, the timeout setter and getter, `getNode(id)` and `getNodes`. They forward to `ClientInterface` and `Node`, which are not part of this model.
- The rest of the uHAL tree (the PCIe protocol stub, the URI grammar, the address-table tests) is not part of this model.

## Findings

| source | as written | input that shows it | evidently intended | confidence | as-written member | corrected member |
|---|---|---|---|---|---|---|
| cactuscore/uhal/tests/scripts/ipbus_perf_suite.py:298-299 | after monitoring, `cpu_vals.pop()` and `mem_vals.pop()` use the loop variables of the last pass, so only one probe loses its final, unreliable sample; if the flag was set before the first pass the names are unbound | two probes with one sample each: only the second list is emptied; a command finishing within the first 0.4 s leaves `cpu_vals` unbound | drop the final sample of every probe's lists | not executed | CommandRunning.PopAsWritten, CommandRunning.PopCounterexample, CommandRunning.NoTickCounterexample | CommandRunning.PopEach, CommandRunning.CommandRunner.StopMonitoring |
| cactuscore/uhal/tests/scripts/ipbus_perf_suite.py:261 | the log line joins the entries of `cmds` as strings, so any `(cmd, ssh_client)` entry raises TypeError before a thread starts, although the docstring allows such entries | `[("PerfTester.exe", client)]` | log the command of each entry, and accept both forms | not executed | CommandRunning.AdmitAsWritten, CommandRunning.TupleEntriesRejected, CommandRunning.RemoteEntryCounterexample | CommandRunning.Admit, CommandRunning.AdmitJobs, CommandRunning.CommandRunner.Start |
