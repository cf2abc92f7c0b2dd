/**
 * Post-processing of the measurement sweeps in ipbus_perf_suite.py: the "high latency" outlier
 * trimming and the latency-to-bandwidth conversion of measure_bw_vs_depth (lines 590-606), and
 * the command list of measure_bw_vs_nClients (lines 765-766).
 *
 * Latencies are exact reals in microseconds; depths are whole numbers of 32-bit words, keys of the
 * same integer-keyed dictionaries calc_y_stats takes (lines 614-615). list.sort() is the insertion
 * sort SortAsc, which is what any correct sort of reals returns.
 */
module Measurements {
  import opened Wrappers
  import CommandRunning

  // ---------------------------------------------------------------------------------------
  // Sorting

  predicate NonDecreasing(s: seq<real>)
  {
    forall i, j :: 0 <= i < j < |s| ==> s[i] <= s[j]
  }

  function Insert(x: real, s: seq<real>): seq<real>
  {
    if s == [] then [x]
    else if x <= s[0] then [x] + s
    else [s[0]] + Insert(x, s[1..])
  }

  /** list.sort() on a list of latencies. */
  function SortAsc(s: seq<real>): seq<real>
  {
    if s == [] then [] else Insert(s[0], SortAsc(s[1..]))
  }

  lemma {:induction false} InsertLength(x: real, s: seq<real>)
    ensures |Insert(x, s)| == |s| + 1
    decreases |s|
  {
    if s != [] && x > s[0] {
      InsertLength(x, s[1..]);
    }
  }

  lemma {:induction false} InsertMultiset(x: real, s: seq<real>)
    ensures multiset(Insert(x, s)) == multiset(s) + multiset{x}
    decreases |s|
  {
    if s != [] && x > s[0] {
      InsertMultiset(x, s[1..]);
      assert s == [s[0]] + s[1..];
    }
  }

  /** A list whose head is at most every later element, and whose tail is ascending, is ascending. */
  lemma ConsAscending(h: real, rest: seq<real>)
    requires NonDecreasing(rest) && forall k :: 0 <= k < |rest| ==> h <= rest[k]
    ensures NonDecreasing([h] + rest)
  {
    var s := [h] + rest;
    forall i, j | 0 <= i < j < |s| ensures s[i] <= s[j] {
      assert s[j] == rest[j - 1];
      if i > 0 {
        assert s[i] == rest[i - 1];
      }
    }
  }

  lemma {:induction false} InsertSorted(x: real, s: seq<real>)
    requires NonDecreasing(s)
    ensures NonDecreasing(Insert(x, s))
    decreases |s|
  {
    if s == [] {
    } else if x <= s[0] {
      forall k | 0 <= k < |s| ensures x <= s[k] {
        if k > 0 {
          assert s[0] <= s[k];
        }
      }
      ConsAscending(x, s);
    } else {
      var tail := s[1..];
      var rest := Insert(x, tail);
      assert NonDecreasing(tail) by {
        forall i, j | 0 <= i < j < |tail| ensures tail[i] <= tail[j] {
          assert tail[i] == s[i + 1] && tail[j] == s[j + 1];
        }
      }
      InsertSorted(x, tail);
      InsertMultiset(x, tail);
      forall k | 0 <= k < |rest| ensures s[0] <= rest[k] {
        assert rest[k] in multiset(rest);
        if rest[k] != x {
          assert rest[k] in multiset(tail);
          var i :| 0 <= i < |tail| && tail[i] == rest[k];
          assert tail[i] == s[i + 1];
        }
      }
      ConsAscending(s[0], rest);
    }
  }

  lemma {:induction false} SortAscLength(s: seq<real>)
    ensures |SortAsc(s)| == |s|
    decreases |s|
  {
    if s != [] {
      SortAscLength(s[1..]);
      InsertLength(s[0], SortAsc(s[1..]));
    }
  }

  /** The sorted list is ascending and holds the same latencies, each as often. */
  lemma {:induction false} SortAscFacts(s: seq<real>)
    ensures NonDecreasing(SortAsc(s))
    ensures multiset(SortAsc(s)) == multiset(s)
    ensures |SortAsc(s)| == |s|
    decreases |s|
  {
    SortAscLength(s);
    if s != [] {
      SortAscFacts(s[1..]);
      InsertSorted(s[0], SortAsc(s[1..]));
      InsertMultiset(s[0], SortAsc(s[1..]));
      assert s == [s[0]] + s[1..];
    }
  }

  // ---------------------------------------------------------------------------------------
  // Trimming one depth

  /** int(ceil(0.08 * n)), in exact arithmetic: the number of outliers removed from n latencies. */
  function OutlierCount(n: nat): (c: nat)
    ensures 100 * c >= 8 * n && 100 * (c - 1) < 8 * n
    ensures c <= n
  {
    (8 * n + 99) / 100
  }

  /** The latencies that survive: the smallest |s| - c of them, ascending. */
  function Kept(s: seq<real>, c: nat): (r: seq<real>)
    requires c <= |s|
    ensures |r| == |s| - c
  {
    SortAscLength(s);
    SortAsc(s)[..|s| - c]
  }

  /** The c latencies popped as outliers. */
  function Dropped(s: seq<real>, c: nat): (r: seq<real>)
    requires c <= |s|
    ensures |r| == c
  {
    SortAscLength(s);
    SortAsc(s)[|s| - c..]
  }

  /** What the trimming leaves for one depth, or None when the rx list runs out before the tx count is met. */
  function TrimSpec(tx: seq<real>, rx: seq<real>): Option<(seq<real>, seq<real>)>
  {
    var c := OutlierCount(|tx|);
    if c > |rx| then None else Some((Kept(tx, c), Kept(rx, c)))
  }

  /**
   * Lines 591-602 for one depth: sort both latency lists, then pop the largest tx and rx latency
   * ceil(0.08 * len(tx)) times. None is the IndexError of popping an empty rx list.
   */
  method TrimOutliers(tx: seq<real>, rx: seq<real>) returns (r: Option<(seq<real>, seq<real>)>)
    ensures r == TrimSpec(tx, rx)
  {
    var txs, rxs := SortAsc(tx), SortAsc(rx);
    SortAscLength(tx);
    SortAscLength(rx);
    ghost var tx0, rx0 := txs, rxs;
    var c := OutlierCount(|txs|);
    for i := 0 to c
      invariant txs == tx0[..|tx0| - i]
      invariant i <= |rx0| && rxs == rx0[..|rx0| - i]
    {
      txs := txs[..|txs| - 1];
      if rxs == [] {
        return None;
      }
      rxs := rxs[..|rxs| - 1];
    }
    r := Some((txs, rxs));
  }

  /**
   * The popped latencies are the largest: every kept one is at most every dropped one, and
   * kept and dropped together are the original latencies, each as often; the kept list is sorted.
   */
  lemma SplitSorted(s: seq<real>, c: nat)
    requires c <= |s|
    ensures NonDecreasing(Kept(s, c))
    ensures multiset(Kept(s, c)) + multiset(Dropped(s, c)) == multiset(s)
    ensures forall i, j :: 0 <= i < |s| - c && 0 <= j < c ==> Kept(s, c)[i] <= Dropped(s, c)[j]
  {
    var t := SortAsc(s);
    SortAscFacts(s);
    var k, d := Kept(s, c), Dropped(s, c);
    assert k + d == t;
    assert NonDecreasing(k) by {
      forall i, j | 0 <= i < j < |k| ensures k[i] <= k[j] {
        assert k[i] == t[i] && k[j] == t[j];
      }
    }
    forall i, j | 0 <= i < |s| - c && 0 <= j < c ensures k[i] <= d[j] {
      assert k[i] == t[i] && d[j] == t[|s| - c + j];
    }
  }

  /**
   * After trimming, each list is sorted ascending, has lost exactly ceil(0.08 * len(tx)) elements,
   * and those it lost are its largest.
   */
  lemma TrimKeepsSmallest(tx: seq<real>, rx: seq<real>)
    requires OutlierCount(|tx|) <= |rx|
    ensures TrimSpec(tx, rx).Some?
    ensures var c := OutlierCount(|tx|);
      && TrimSpec(tx, rx).value == (Kept(tx, c), Kept(rx, c))
      && |Kept(tx, c)| == |tx| - c && |Kept(rx, c)| == |rx| - c
      && NonDecreasing(Kept(tx, c)) && NonDecreasing(Kept(rx, c))
      && multiset(Kept(tx, c)) + multiset(Dropped(tx, c)) == multiset(tx)
      && multiset(Kept(rx, c)) + multiset(Dropped(rx, c)) == multiset(rx)
  {
    var c := OutlierCount(|tx|);
    SplitSorted(tx, c);
    SplitSorted(rx, c);
  }

  // ---------------------------------------------------------------------------------------
  // Latency to bandwidth

  /** 1e-3 * 32 * d / t: d 32-bit words in t microseconds, in Gbit/s. */
  function Bandwidth(depth: real, t: real): real
    requires t != 0.0
  {
    0.001 * 32.0 * depth / t
  }

  /** Lines 603-606: one bandwidth per latency; None is the ZeroDivisionError of a zero latency. */
  function Bandwidths(depth: real, lats: seq<real>): (r: Option<seq<real>>)
    ensures r.Some? <==> forall j :: 0 <= j < |lats| ==> lats[j] != 0.0
    ensures r.Some? ==> |r.value| == |lats| && forall j :: 0 <= j < |lats| ==> r.value[j] * lats[j] == 0.032 * depth
  {
    if exists j :: 0 <= j < |lats| && lats[j] == 0.0 then None
    else
      var bws := seq(|lats|, j requires 0 <= j < |lats| => Bandwidth(depth, lats[j]));
      assert forall j :: 0 <= j < |lats| ==> bws[j] * lats[j] == 0.032 * depth by {
        forall j | 0 <= j < |lats| ensures bws[j] * lats[j] == 0.032 * depth {
          BandwidthTimesLatency(depth, lats[j]);
        }
      }
      Some(bws)
  }

  lemma BandwidthTimesLatency(depth: real, t: real)
    requires t != 0.0
    ensures Bandwidth(depth, t) * t == 0.032 * depth
  {
  }

  /** The conversion can be undone: for a non-zero depth, each latency is 1e-3 * 32 * d / bandwidth. */
  lemma BandwidthsInvert(depth: real, lats: seq<real>)
    requires depth != 0.0
    requires forall j :: 0 <= j < |lats| ==> lats[j] != 0.0
    ensures var bws := Bandwidths(depth, lats).value;
      forall j :: 0 <= j < |lats| ==> bws[j] != 0.0 && lats[j] == 0.032 * depth / bws[j]
  {
    var bws := Bandwidths(depth, lats).value;
    forall j | 0 <= j < |lats| ensures bws[j] != 0.0 && lats[j] == 0.032 * depth / bws[j] {
      InvertStep(bws[j], lats[j], 0.032 * depth);
    }
  }

  lemma InvertStep(b: real, t: real, k: real)
    requires t != 0.0 && k != 0.0 && b * t == k
    ensures b != 0.0 && t == k / b
  {
  }

  /** For a positive depth, sorted positive latencies give bandwidths in descending order. */
  lemma BandwidthsDescend(depth: real, lats: seq<real>)
    requires depth > 0.0 && NonDecreasing(lats)
    requires forall j :: 0 <= j < |lats| ==> lats[j] > 0.0
    ensures var bws := Bandwidths(depth, lats).value;
      forall i, j :: 0 <= i < j < |lats| ==> bws[i] >= bws[j]
  {
    var bws := Bandwidths(depth, lats).value;
    forall i, j | 0 <= i < j < |lats| ensures bws[i] >= bws[j] {
      assert bws[i] == Bandwidth(depth, lats[i]) && bws[j] == Bandwidth(depth, lats[j]);
      SlowerIsLess(0.032 * depth, lats[i], lats[j]);
    }
  }

  lemma SlowerIsLess(k: real, t: real, u: real)
    requires k > 0.0 && 0.0 < t <= u
    ensures k / t >= k / u
  {
  }

  // ---------------------------------------------------------------------------------------
  // All depths

  /** The excl_connect latency and bandwidth dictionaries of measure_bw_vs_depth, keyed by depth. */
  datatype DepthData = DepthData(txLats: map<int, seq<real>>, rxLats: map<int, seq<real>>,
                                 txBws: map<int, seq<real>>, rxBws: map<int, seq<real>>)

  datatype TrimError = RxExhausted(depth: int) | ZeroLatency(depth: int)

  predicate HasDepths(st: DepthData, depths: seq<int>)
  {
    forall k :: 0 <= k < |depths| ==> depths[k] in st.txLats && depths[k] in st.rxLats
  }

  /** Lines 591-606 for one depth d. */
  function DepthStep(st: DepthData, d: int): (r: Result<DepthData, TrimError>)
    requires d in st.txLats && d in st.rxLats
    ensures r.Success? ==> r.value.txLats.Keys == st.txLats.Keys && r.value.rxLats.Keys == st.rxLats.Keys
  {
    match TrimSpec(st.txLats[d], st.rxLats[d])
    case None => Failure(RxExhausted(d))
    case Some((t, r)) =>
      match (Bandwidths(d as real, t), Bandwidths(d as real, r))
      case (Some(tb), Some(rb)) =>
        Success(DepthData(st.txLats[d := t], st.rxLats[d := r], st.txBws[d := tb], st.rxBws[d := rb]))
      case _ => Failure(ZeroLatency(d))
  }

  /** The loop `for d in depths` at line 590, from the front. */
  function PostProcessSpec(st: DepthData, depths: seq<int>): (r: Result<DepthData, TrimError>)
    requires HasDepths(st, depths)
    ensures r.Success? ==> r.value.txLats.Keys == st.txLats.Keys && r.value.rxLats.Keys == st.rxLats.Keys
    decreases |depths|
  {
    if depths == [] then Success(st)
    else
      var prev := PostProcessSpec(st, depths[..|depths| - 1]);
      if prev.Failure? then prev
      else DepthStep(prev.value, depths[|depths| - 1])
  }

  /** Lines 591-606 for one depth, as run: the trimming, then the two bandwidth lists. */
  method ProcessDepth(cur: DepthData, d: int) returns (r: Result<DepthData, TrimError>)
    requires d in cur.txLats && d in cur.rxLats
    ensures r == DepthStep(cur, d)
  {
    var trimmed := TrimOutliers(cur.txLats[d], cur.rxLats[d]);
    if trimmed.None? {
      return Failure(RxExhausted(d));
    }
    var (t, rx) := trimmed.value;
    var tb, rb := Bandwidths(d as real, t), Bandwidths(d as real, rx);
    if tb.None? || rb.None? {
      return Failure(ZeroLatency(d));
    }
    r := Success(DepthData(cur.txLats[d := t], cur.rxLats[d := rx], cur.txBws[d := tb.value], cur.rxBws[d := rb.value]));
  }

  lemma HasDepthsPrefix(st: DepthData, depths: seq<int>, k: nat)
    requires HasDepths(st, depths) && k <= |depths|
    ensures HasDepths(st, depths[..k])
  {
    forall i | 0 <= i < k ensures depths[..k][i] in st.txLats && depths[..k][i] in st.rxLats {
      assert depths[..k][i] == depths[i];
    }
  }

  /** PostProcessSpec on one more depth is one more DepthStep. */
  lemma PostProcessSpecStep(st: DepthData, depths: seq<int>, k: nat)
    requires HasDepths(st, depths) && k < |depths|
    ensures HasDepths(st, depths[..k]) && HasDepths(st, depths[..k + 1])
    ensures var prev := PostProcessSpec(st, depths[..k]);
      prev.Success? ==> depths[k] in prev.value.txLats && depths[k] in prev.value.rxLats
    ensures var prev := PostProcessSpec(st, depths[..k]);
      PostProcessSpec(st, depths[..k + 1]) == if prev.Failure? then prev else DepthStep(prev.value, depths[k])
  {
    HasDepthsPrefix(st, depths, k);
    HasDepthsPrefix(st, depths, k + 1);
    assert depths[..k + 1][..k] == depths[..k] && depths[..k + 1][k] == depths[k];
  }

  /** Once a depth fails, the whole loop fails with that error. */
  lemma {:induction false} PostProcessFailureSticks(st: DepthData, depths: seq<int>, k: nat)
    requires HasDepths(st, depths) && k <= |depths|
    requires HasDepths(st, depths[..k]) && PostProcessSpec(st, depths[..k]).Failure?
    ensures PostProcessSpec(st, depths) == PostProcessSpec(st, depths[..k])
    decreases |depths| - k
  {
    if k < |depths| {
      PostProcessSpecStep(st, depths, k);
      PostProcessFailureSticks(st, depths, k + 1);
    } else {
      assert depths[..k] == depths;
    }
  }

  method PostProcess(st: DepthData, depths: seq<int>) returns (r: Result<DepthData, TrimError>)
    requires HasDepths(st, depths)
    ensures r == PostProcessSpec(st, depths)
  {
    var cur := st;
    for k := 0 to |depths|
      invariant HasDepths(st, depths[..k])
      invariant PostProcessSpec(st, depths[..k]) == Success(cur)
    {
      PostProcessSpecStep(st, depths, k);
      var step := ProcessDepth(cur, depths[k]);
      if step.Failure? {
        PostProcessFailureSticks(st, depths, k + 1);
        return step;
      }
      cur := step.value;
    }
    assert depths[..|depths|] == depths;
    r := Success(cur);
  }

  /** Trimming a depth whose two lists are equally long and positive succeeds, with a bandwidth list for each kept list. */
  lemma DepthStepEffect(st: DepthData, d: int)
    requires d in st.txLats && d in st.rxLats && |st.txLats[d]| == |st.rxLats[d]|
    requires Positive(st.txLats[d]) && Positive(st.rxLats[d])
    ensures DepthStep(st, d).Success?
    ensures var out := DepthStep(st, d).value;
      && TrimSpec(st.txLats[d], st.rxLats[d]) == Some((out.txLats[d], out.rxLats[d]))
      && d in out.txBws && d in out.rxBws
      && Bandwidths(d as real, out.txLats[d]) == Some(out.txBws[d])
      && Bandwidths(d as real, out.rxLats[d]) == Some(out.rxBws[d])
  {
    TrimPositive(st.txLats[d], st.rxLats[d]);
  }

  /** Processing depth d changes no other depth's entries. */
  lemma DepthStepFrame(st: DepthData, d: int, e: int)
    requires d in st.txLats && d in st.rxLats && d != e
    ensures DepthStep(st, d).Success? ==>
      var out := DepthStep(st, d).value;
      && (e in st.txLats ==> out.txLats[e] == st.txLats[e])
      && (e in st.rxLats ==> out.rxLats[e] == st.rxLats[e])
      && (e in st.txBws ==> e in out.txBws && out.txBws[e] == st.txBws[e])
      && (e in st.rxBws ==> e in out.rxBws && out.rxBws[e] == st.rxBws[e])
  {
  }

  predicate Distinct(depths: seq<int>)
  {
    forall i, j :: 0 <= i < j < |depths| ==> depths[i] != depths[j]
  }

  /** The lists of every depth are equally long and hold positive latencies. */
  predicate WellMeasured(st: DepthData, depths: seq<int>)
    requires HasDepths(st, depths)
  {
    forall i :: 0 <= i < |depths| ==>
      |st.txLats[depths[i]]| == |st.rxLats[depths[i]]| && Positive(st.txLats[depths[i]]) && Positive(st.rxLats[depths[i]])
  }

  lemma PrefixFacts(st: DepthData, depths: seq<int>)
    requires |depths| > 0 && HasDepths(st, depths)
    ensures HasDepths(st, depths[..|depths| - 1])
    ensures Distinct(depths) ==>
      && Distinct(depths[..|depths| - 1])
      && forall i :: 0 <= i < |depths| - 1 ==> depths[i] != depths[|depths| - 1]
    ensures WellMeasured(st, depths) ==> WellMeasured(st, depths[..|depths| - 1])
  {
    HasDepthsPrefix(st, depths, |depths| - 1);
  }

  /**
   * When every depth appears once, the lists start equally long and all latencies are positive,
   * each depth ends trimmed as TrimSpec says, with one bandwidth per kept latency.
   */
  lemma {:induction false} PostProcessEachDepth(st: DepthData, depths: seq<int>, k: nat)
    requires HasDepths(st, depths) && k < |depths| && Distinct(depths) && WellMeasured(st, depths)
    ensures PostProcessSpec(st, depths).Success?
    ensures var d := depths[k];
      var out := PostProcessSpec(st, depths).value;
      && TrimSpec(st.txLats[d], st.rxLats[d]) == Some((out.txLats[d], out.rxLats[d]))
      && d in out.txBws && d in out.rxBws
      && Bandwidths(d as real, out.txLats[d]) == Some(out.txBws[d])
      && Bandwidths(d as real, out.rxLats[d]) == Some(out.rxBws[d])
    decreases |depths|
  {
    var n := |depths|;
    var init := depths[..n - 1];
    var d := depths[n - 1];
    PrefixFacts(st, depths);
    PostProcessSucceeds(st, init);
    PostProcessUntouched(st, init, d);
    var prev := PostProcessSpec(st, init).value;
    assert PostProcessSpec(st, depths) == DepthStep(prev, d);
    DepthStepEffect(prev, d);
    if k < n - 1 {
      PostProcessEachDepth(st, init, k);
      assert init[k] == depths[k];
      DepthStepFrame(prev, d, depths[k]);
    }
  }

  predicate Positive(s: seq<real>)
  {
    forall j :: 0 <= j < |s| ==> s[j] > 0.0
  }

  /** Trimming keeps equal lengths and positive latencies, so it succeeds and its bandwidths exist. */
  lemma TrimPositive(tx: seq<real>, rx: seq<real>)
    requires |tx| == |rx| && Positive(tx) && Positive(rx)
    ensures TrimSpec(tx, rx).Some?
    ensures Positive(TrimSpec(tx, rx).value.0) && Positive(TrimSpec(tx, rx).value.1)
  {
    SortAscFacts(tx);
    SortAscFacts(rx);
    PositiveSorted(tx);
    PositiveSorted(rx);
  }

  lemma PositiveSorted(s: seq<real>)
    requires Positive(s)
    ensures Positive(SortAsc(s))
  {
    SortAscFacts(s);
    var t := SortAsc(s);
    forall j | 0 <= j < |t| ensures t[j] > 0.0 {
      assert t[j] in multiset(s);
    }
  }

  /** A prefix of depths that does not contain d leaves d's entries alone. */
  lemma {:induction false} PostProcessUntouched(st: DepthData, depths: seq<int>, d: int)
    requires HasDepths(st, depths) && d in st.txLats && d in st.rxLats
    requires forall i :: 0 <= i < |depths| ==> depths[i] != d
    ensures PostProcessSpec(st, depths).Success? ==>
      PostProcessSpec(st, depths).value.txLats[d] == st.txLats[d] &&
      PostProcessSpec(st, depths).value.rxLats[d] == st.rxLats[d]
    decreases |depths|
  {
    if depths != [] {
      var init := depths[..|depths| - 1];
      PrefixFacts(st, depths);
      assert forall i :: 0 <= i < |init| ==> init[i] == depths[i];
      PostProcessUntouched(st, init, d);
      var prev := PostProcessSpec(st, init);
      if prev.Success? {
        DepthStepFrame(prev.value, depths[|depths| - 1], d);
      }
    }
  }

  /** Under the assumptions of PostProcessEachDepth every step succeeds. */
  lemma {:induction false} PostProcessSucceeds(st: DepthData, depths: seq<int>)
    requires HasDepths(st, depths) && Distinct(depths) && WellMeasured(st, depths)
    ensures PostProcessSpec(st, depths).Success?
    decreases |depths|
  {
    if depths != [] {
      var n := |depths|;
      var init := depths[..n - 1];
      var d := depths[n - 1];
      PrefixFacts(st, depths);
      PostProcessSucceeds(st, init);
      PostProcessUntouched(st, init, d);
      var prev := PostProcessSpec(st, init).value;
      DepthStepEffect(prev, d);
    }
  }

  // ---------------------------------------------------------------------------------------
  // The command list of measure_bw_vs_nClients

  /** str() of a non-negative int. */
  function DecimalText(n: nat): (s: string)
    ensures |s| > 0
  {
    if n < 10 then ["0123456789"[n]] else DecimalText(n / 10) + ["0123456789"[n % 10]]
  }

  /** int(20480 / (n_clients * n_targets)) with integer operands: floor division. None is a ZeroDivisionError. */
  function Iterations(nClients: nat, nTargets: nat): Option<nat>
  {
    if nClients * nTargets == 0 then None else Some(20480 / (nClients * nTargets))
  }

  /** The first n elements of targets, as the slice targets[0:n] clamps n to the length. */
  function Take(targets: seq<string>, n: nat): (r: seq<string>)
    ensures |r| == if n <= |targets| then n else |targets|
  {
    if n <= |targets| then targets[..n] else targets
  }

  /** n copies of one command. */
  function Copies(cmd: string, n: nat): (r: seq<string>)
    ensures |r| == n && forall x :: 0 <= x < n ==> r[x] == cmd
  {
    if n == 0 then [] else [cmd] + Copies(cmd, n - 1)
  }

  /** Line 766, for t in targets[0:n_targets] for x in range(n_clients). */
  function ClientCommands(base: string, targets: seq<string>, nClients: nat, itnsText: string): (cmds: seq<string>)
    decreases |targets|
  {
    if targets == [] then []
    else Copies(base + targets[0] + " -i " + itnsText, nClients) + ClientCommands(base, targets[1..], nClients, itnsText)
  }

  /** Where copy x of target t's command sits in the list. */
  function Slot(t: nat, x: nat, nClients: nat, nTargets: nat): (i: nat)
    requires t < nTargets && x < nClients
    ensures i < nTargets * nClients
  {
    SlotBound(t, x, nClients, nTargets);
    t * nClients + x
  }

  lemma SlotBound(t: nat, x: nat, n: nat, m: nat)
    requires t < m && x < n
    ensures t * n + x < m * n
  {
    assert t * n + x < t * n + n == (t + 1) * n;
    assert (t + 1) * n <= m * n by { MulMonotone(t + 1, m, n); }
  }

  lemma MulMonotone(a: nat, b: nat, n: nat)
    requires a <= b
    ensures a * n <= b * n
  {
  }

  /** Each target gets n_clients consecutive copies of its command, targets in order. */
  lemma {:induction false} ClientCommandsLayout(base: string, targets: seq<string>, nClients: nat, itnsText: string)
    ensures |ClientCommands(base, targets, nClients, itnsText)| == |targets| * nClients
    ensures forall t, x :: 0 <= t < |targets| && 0 <= x < nClients ==>
      ClientCommands(base, targets, nClients, itnsText)[Slot(t, x, nClients, |targets|)] == base + targets[t] + " -i " + itnsText
    decreases |targets|
  {
    if targets != [] {
      var rest := targets[1..];
      ClientCommandsLayout(base, rest, nClients, itnsText);
      var cmds := ClientCommands(base, targets, nClients, itnsText);
      var head := Copies(base + targets[0] + " -i " + itnsText, nClients);
      var tail := ClientCommands(base, rest, nClients, itnsText);
      assert cmds == head + tail;
      assert |cmds| == |targets| * nClients by {
        assert |targets| * nClients == nClients + |rest| * nClients;
      }
      forall t, x | 0 <= t < |targets| && 0 <= x < nClients
        ensures cmds[Slot(t, x, nClients, |targets|)] == base + targets[t] + " -i " + itnsText
      {
        if t > 0 {
          SlotStep(t, x, nClients, |targets|);
          assert cmds[Slot(t, x, nClients, |targets|)] == tail[Slot(t - 1, x, nClients, |rest|)];
          assert rest[t - 1] == targets[t];
        }
      }
    }
  }

  lemma SlotStep(t: nat, x: nat, n: nat, m: nat)
    requires 0 < t < m && x < n
    ensures Slot(t, x, n, m) == n + Slot(t - 1, x, n, m - 1)
  {
    assert t * n == n + (t - 1) * n;
  }

  /** Lines 765-766: the iteration count and the command list handed to CommandRunner.run. */
  function NClientsBatch(base: string, targets: seq<string>, nClients: nat, nTargets: nat): Option<seq<CommandRunning.Entry>>
  {
    match Iterations(nClients, nTargets)
    case None => None
    case Some(itns) =>
      var cmds := ClientCommands(base, Take(targets, nTargets), nClients, DecimalText(itns));
      Some(seq(|cmds|, i requires 0 <= i < |cmds| => CommandRunning.Plain(cmds[i])))
  }

  /**
   * The batch is made of plain strings, so the log line of run() accepts it; with at least one
   * client and one target it is admitted and holds n_clients * min(n_targets, len(targets)) jobs.
   */
  lemma NClientsBatchAdmitted(base: string, targets: seq<string>, nClients: nat, nTargets: nat)
    requires nClients > 0 && 0 < nTargets <= |targets|
    ensures NClientsBatch(base, targets, nClients, nTargets).Some?
    ensures var b := NClientsBatch(base, targets, nClients, nTargets).value;
      && |b| == nTargets * nClients
      && CommandRunning.AdmitAsWritten(b) == CommandRunning.Admit(b)
      && CommandRunning.Admit(b).Success?
  {
    var itns := Iterations(nClients, nTargets).value;
    ClientCommandsLayout(base, Take(targets, nTargets), nClients, DecimalText(itns));
    var b := NClientsBatch(base, targets, nClients, nTargets).value;
    CommandRunning.AdmitAgreesOnStrings(b);
    assert (nTargets * nClients) > 0 by { PositiveProduct(nTargets, nClients); }
  }

  lemma PositiveProduct(a: nat, b: nat)
    requires a > 0 && b > 0
    ensures a * b > 0
  {
  }
}
