/** The VB1940 latency report: drops the settling frames, then folds over the rest counting frames
    lost between consecutive 16-bit frame numbers. */
module LatencyAnalysis {
  import opened Statistics

  const WRAP := 65536

  /** Times in seconds; `frameNumber` is the FPGA's sixteen-bit counter. */
  datatype Record = Record(frameStart: real, frameEnd: real, complete: real, frameNum: nat, frameNumber: int)

  /** The per-frame lists in milliseconds, the frames warned of, and the frames lost. */
  datatype Tally = Tally(frameTimes: seq<real>, intervals: seq<real>, latencies: seq<real>,
                         negative: seq<nat>, dropped: nat)

  /** The tally, the report lines of its three lists, and the frame rate. */
  datatype Report = Report(tally: Tally, frameTime: Row, interval: Row, latency: Row, fps: real)

  /** The final division raises when the settled frames all complete at one time. */
  datatype Outcome = TooFewFrames | ZeroDivision | Done(report: Report)

  // ----- dropped frames

  /** The loop's count over a list of frame numbers. */
  function Dropped(numbers: seq<int>): nat {
    if |numbers| < 2 then 0
    else
      var n := |numbers| - 1;
      Dropped(numbers[..n]) + (numbers[n] - numbers[n - 1] - 1) % WRAP
  }

  /** `true` frame indices increase from record to record. */
  ghost predicate Increasing(indices: seq<int>) {
    forall k :: 0 < k < |indices| ==> indices[k - 1] < indices[k]
  }

  ghost predicate CloseTogether(indices: seq<int>) {
    forall k :: 0 < k < |indices| ==> indices[k] - indices[k - 1] <= WRAP
  }

  /** Frames between the first and the last that no record shows. */
  function Missing(indices: seq<int>): int {
    if indices == [] then 0 else indices[|indices| - 1] - indices[0] - (|indices| - 1)
  }

  /** The numbers between the first and the last index that are no index. */
  ghost function Gone(indices: seq<int>): (r: set<int>)
    requires indices != []
    ensures forall i :: i in r <==> indices[0] < i < indices[|indices| - 1] && i !in indices
  {
    set i | indices[0] < i < indices[|indices| - 1] && i !in indices
  }

  /** `Missing` counts them. */
  lemma {:induction false} MissingCounts(indices: seq<int>)
    requires indices != [] && Increasing(indices)
    ensures Missing(indices) == |Gone(indices)|
  {
    var n := |indices| - 1;
    if n == 0 {
      assert Gone(indices) == {};
    } else {
      MissingCounts(indices[..n]);
      GoneSnoc(indices, n);
    }
  }

  lemma GoneSnoc(indices: seq<int>, n: nat)
    requires n == |indices| - 1 && n > 0 && Increasing(indices)
    ensures |Gone(indices)| == |Gone(indices[..n])| + indices[n] - indices[n - 1] - 1
  {
    var before, between := Gone(indices[..n]), Between(indices[n - 1], indices[n]);
    FirstLeast(indices[..n]);
    LastGreatest(indices, n);
    forall i: int ensures i in Gone(indices) <==> i in before || i in between {
      GoneOrBetween(indices, n, i);
    }
    assert Gone(indices) == before + between;
    assert before !! between;
  }

  lemma GoneOrBetween(indices: seq<int>, n: nat, i: int)
    requires n == |indices| - 1 && n > 0 && Increasing(indices)
    ensures i in Gone(indices) <==> i in Gone(indices[..n]) || indices[n - 1] < i < indices[n]
  {
    FirstLeast(indices[..n]);
    LastGreatest(indices, n);
    assert indices[n - 1] == indices[..n][n - 1] && indices[n - 1] in indices[..n];
  }

  ghost function Between(lo: int, hi: int): (r: set<int>)
    requires lo < hi
    ensures |r| == hi - lo - 1
    ensures forall i :: i in r <==> lo < i < hi
    decreases hi - lo
  {
    if lo + 1 == hi then {} else Between(lo, hi - 1) + {hi - 1}
  }

  lemma {:induction false} FirstLeast(indices: seq<int>)
    requires indices != [] && Increasing(indices)
    ensures forall i :: i in indices ==> indices[0] <= i
  {
    var n := |indices| - 1;
    if n == 0 {
    } else {
      FirstLeast(indices[..n]);
      assert indices == indices[..n] + [indices[n]];
      assert indices[..n][n - 1] in indices[..n];
    }
  }

  lemma {:induction false} LastGreatest(indices: seq<int>, n: nat)
    requires n == |indices| - 1 && Increasing(indices)
    ensures forall i :: i in indices[..n] ==> i < indices[n]
    ensures forall i :: i in indices <==> i in indices[..n] || i == indices[n]
    ensures n > 0 ==> forall i :: i in indices[..n] ==> i <= indices[n - 1]
  {
    assert indices == indices[..n] + [indices[n]];
    if n == 0 {
    } else {
      LastGreatest(indices[..n], n - 1);
      assert indices[n - 1] < indices[n];
    }
  }

  /** The recorded numbers are the low sixteen bits of the true indices. */
  ghost predicate Truncates(numbers: seq<int>, indices: seq<int>) {
    |numbers| == |indices| && forall k :: 0 <= k < |indices| ==> numbers[k] == indices[k] % WRAP
  }

  lemma GapOfTruncated(p: int, q: int)
    requires p < q
    ensures var gap := (q % WRAP - p % WRAP - 1) % WRAP;
            && gap == (q - p - 1) % WRAP
            && gap <= q - p - 1
            && (gap == q - p - 1 <==> q - p <= WRAP)
  {
    var a, b := q / WRAP, p / WRAP;
    assert q == 65536 * a + q % WRAP && p == 65536 * b + p % WRAP;
    SameRemainder(q % WRAP - p % WRAP - 1, a - b);
  }

  lemma SameRemainder(n: int, k: int)
    ensures n % 65536 == (n + 65536 * k) % 65536
  {
  }

  /** Main result: despite the wrap the count is right modulo 65536 and never too high, and it is
      exact if and only if no two consecutive records are more than 65536 frames apart. */
  lemma {:induction false} DroppedRefinesMissing(numbers: seq<int>, indices: seq<int>)
    requires Truncates(numbers, indices) && Increasing(indices)
    ensures Dropped(numbers) <= Missing(indices)
    ensures Dropped(numbers) % WRAP == Missing(indices) % WRAP
    ensures Dropped(numbers) == Missing(indices) <==> CloseTogether(indices)
  {
    if |indices| >= 2 {
      var n := |indices| - 1;
      DroppedRefinesMissing(numbers[..n], indices[..n]);
      GapOfTruncated(indices[n - 1], indices[n]);
      var step := indices[n] - indices[n - 1] - 1;
      assert Missing(indices) == Missing(indices[..n]) + step;
      SumRemainders(Dropped(numbers[..n]), Missing(indices[..n]), step);
      CloseTogetherLast(indices);
    }
  }

  lemma CloseTogetherLast(indices: seq<int>)
    requires |indices| >= 2
    ensures var n := |indices| - 1;
            CloseTogether(indices) <==> CloseTogether(indices[..n]) && indices[n] - indices[n - 1] <= WRAP
  {
    var n := |indices| - 1;
    if CloseTogether(indices[..n]) && indices[n] - indices[n - 1] <= WRAP {
      forall k | 0 < k < |indices| ensures indices[k] - indices[k - 1] <= WRAP {
        assert k < n ==> indices[..n][k] - indices[..n][k - 1] <= WRAP;
      }
    }
    if CloseTogether(indices) {
      forall k | 0 < k < n ensures indices[..n][k] - indices[..n][k - 1] <= WRAP {
        assert indices[k] - indices[k - 1] <= WRAP;
      }
    }
  }

  lemma SumRemainders(a: int, b: int, s: int)
    requires a % WRAP == b % WRAP
    ensures (a + s % WRAP) % WRAP == (b + s) % WRAP
  {
    SameRemainder(a + s % 65536, (b - a) / 65536 + s / 65536);
  }

  // ----- the report

  function Numbers(rs: seq<Record>): (r: seq<int>)
    ensures |r| == |rs|
  {
    seq(|rs|, k requires 0 <= k < |rs| => rs[k].frameNumber)
  }

  /** The frames reported as complete before they started. */
  function Negatives(rs: seq<Record>): seq<nat> {
    if rs == [] then []
    else
      var r := rs[|rs| - 1];
      Negatives(rs[..|rs| - 1]) + if r.complete < r.frameStart then [r.frameNum] else []
  }

  ghost predicate Tallies(t: Tally, rs: seq<Record>) {
    TalliesTimes(t, rs) && t.negative == Negatives(rs) && t.dropped == Dropped(Numbers(rs))
  }

  ghost predicate TalliesTimes(t: Tally, rs: seq<Record>) {
    && |t.frameTimes| == |t.latencies| == |rs| && |t.intervals| == (if rs == [] then 0 else |rs| - 1)
    && (forall k :: 0 <= k < |rs| ==> t.frameTimes[k] == (rs[k].frameEnd - rs[k].frameStart) * 1000.0)
    && (forall k :: 0 <= k < |rs| ==> t.latencies[k] == (rs[k].complete - rs[k].frameStart) * 1000.0)
    && (forall k :: 0 < k < |rs| ==> t.intervals[k - 1] == (rs[k].complete - rs[k - 1].complete) * 1000.0)
  }

  /** The intervals add up to the time between the first and the last completion. */
  lemma {:induction false} IntervalsTelescope(rs: seq<Record>, intervals: seq<real>)
    requires rs != [] && |intervals| == |rs| - 1
    requires forall k :: 0 < k < |rs| ==> intervals[k - 1] == (rs[k].complete - rs[k - 1].complete) * 1000.0
    ensures Sum(intervals) == (rs[|rs| - 1].complete - rs[0].complete) * 1000.0
  {
    var n := |rs| - 1;
    if n == 0 {
    } else {
      assert intervals[n - 1] == (rs[n].complete - rs[n - 1].complete) * 1000.0;
      IntervalsTelescope(rs[..n], intervals[..n - 1]);
    }
  }

  lemma DroppedSnoc(rs: seq<Record>, r: Record)
    ensures Dropped(Numbers(rs + [r])) ==
            if rs == [] then 0
            else Dropped(Numbers(rs)) + (r.frameNumber - rs[|rs| - 1].frameNumber - 1) % WRAP
  {
    assert Numbers(rs + [r])[..|rs|] == Numbers(rs);
  }

  lemma NegativesSnoc(rs: seq<Record>, r: Record)
    ensures Negatives(rs + [r]) == Negatives(rs) + if r.complete < r.frameStart then [r.frameNum] else []
  {
    assert (rs + [r])[..|rs|] == rs;
  }

  /** A number that is not the masked successor of the one before it adds the gap between them. */
  method AddGap(dropped: nat, prev: int, number: int) returns (d: nat)
    ensures d == dropped + (number - prev - 1) % WRAP
  {
    d := dropped;
    var expected := (prev + 1) % WRAP;
    if number != expected {
      d := d + (number - prev - 1) % WRAP;
    }
  }

  lemma TimesSnoc(t: Tally, t': Tally, done: seq<Record>, r: Record)
    requires TalliesTimes(t, done)
    requires t'.frameTimes == t.frameTimes + [(r.frameEnd - r.frameStart) * 1000.0]
    requires t'.latencies == t.latencies + [(r.complete - r.frameStart) * 1000.0]
    requires t'.intervals ==
             t.intervals + if done == [] then [] else [(r.complete - done[|done| - 1].complete) * 1000.0]
    ensures TalliesTimes(t', done + [r])
  {
    FrameTimesSnoc(t, t', done, r);
    IntervalsSnoc(t.intervals, t'.intervals, done, r);
  }

  lemma FrameTimesSnoc(t: Tally, t': Tally, done: seq<Record>, r: Record)
    requires TalliesTimes(t, done)
    requires t'.frameTimes == t.frameTimes + [(r.frameEnd - r.frameStart) * 1000.0]
    requires t'.latencies == t.latencies + [(r.complete - r.frameStart) * 1000.0]
    ensures var rs := done + [r];
            forall k :: 0 <= k < |rs| ==>
              && t'.frameTimes[k] == (rs[k].frameEnd - rs[k].frameStart) * 1000.0
              && t'.latencies[k] == (rs[k].complete - rs[k].frameStart) * 1000.0
  {
  }

  lemma IntervalsSnoc(xs: seq<real>, xs': seq<real>, done: seq<Record>, r: Record)
    requires |xs| == if done == [] then 0 else |done| - 1
    requires forall k :: 0 < k < |done| ==> xs[k - 1] == (done[k].complete - done[k - 1].complete) * 1000.0
    requires xs' == xs + if done == [] then [] else [(r.complete - done[|done| - 1].complete) * 1000.0]
    ensures var rs := done + [r];
            forall k :: 0 < k < |rs| ==> xs'[k - 1] == (rs[k].complete - rs[k - 1].complete) * 1000.0
  {
    var rs := done + [r];
    forall k | 0 < k < |rs| ensures xs'[k - 1] == (rs[k].complete - rs[k - 1].complete) * 1000.0 {
      assert rs[k - 1] == done[k - 1];
      if k < |done| { assert rs[k] == done[k] && xs'[k - 1] == xs[k - 1]; }
    }
  }

  /** The loop's body: adds record `r` after the records `done`. */
  method AddRecord(t: Tally, prev: Record, r: Record, ghost done: seq<Record>) returns (t': Tally)
    requires Tallies(t, done) && (done != [] ==> prev == done[|done| - 1])
    requires |t.frameTimes| == 0 || done != []
    ensures Tallies(t', done + [r])
  {
    DroppedSnoc(done, r);
    NegativesSnoc(done, r);
    var intervals, dropped := t.intervals, t.dropped;
    if |t.frameTimes| > 0 {
      intervals := intervals + [(r.complete - prev.complete) * 1000.0];
      dropped := AddGap(dropped, prev.frameNumber, r.frameNumber);
    }
    var frameTime, latency := (r.frameEnd - r.frameStart) * 1000.0, (r.complete - r.frameStart) * 1000.0;
    t' := Tally(t.frameTimes + [frameTime], intervals, t.latencies + [latency],
                t.negative + if latency < 0.0 then [r.frameNum] else [], dropped);
    TimesSnoc(t, t', done, r);
  }

  method FoldRecords(settled: seq<Record>) returns (t: Tally)
    ensures Tallies(t, settled)
  {
    t := Tally([], [], [], [], 0);
    if settled == [] { return; }
    var prev := settled[0];
    for i := 0 to |settled|
      invariant Tallies(t, settled[..i])
      invariant i > 0 ==> prev == settled[i - 1]
    {
      assert settled[..i + 1] == settled[..i] + [settled[i]];
      t := AddRecord(t, prev, settled[i], settled[..i]);
      prev := settled[i];
    }
    assert settled[..|settled|] == settled;
  }

  function Span(rs: seq<Record>): real
    requires rs != []
  {
    rs[|rs| - 1].complete - rs[0].complete
  }

  /** Whatever true indices the recorded numbers truncate, the count is never above the frames
      missing between them, equal modulo 65536, and equal exactly if they are close together. */
  ghost predicate CountsMissing(dropped: nat, numbers: seq<int>) {
    forall indices :: Truncates(numbers, indices) && Increasing(indices) ==>
      && dropped <= Missing(indices)
      && dropped % WRAP == Missing(indices) % WRAP
      && (dropped == Missing(indices) <==> CloseTogether(indices))
  }

  lemma CountIsRight(dropped: nat, numbers: seq<int>)
    requires dropped == Dropped(numbers)
    ensures CountsMissing(dropped, numbers)
  {
    forall indices | Truncates(numbers, indices) && Increasing(indices)
      ensures dropped <= Missing(indices)
      ensures dropped % WRAP == Missing(indices) % WRAP
      ensures dropped == Missing(indices) <==> CloseTogether(indices)
    {
      DroppedRefinesMissing(numbers, indices);
    }
  }

  /** One gap too long: 65536 frames go missing and none is counted. */
  lemma LongGapUncounted()
    ensures Truncates([0, 1], [0, 65537]) && Increasing([0, 65537]) && !CloseTogether([0, 65537])
    ensures Dropped([0, 1]) == 0 && Missing([0, 65537]) == 65536
  {
    var indices := [0, 65537];
    assert indices[1] - indices[0] > WRAP;
    assert Dropped([0, 1][..1]) == 0;
  }

  /** At this rate, `n` intervals take the time `span`. */
  ghost predicate RateFits(fps: real, span: real, n: nat) { fps * span == n as real }

  /** The report of the settled records: the right count, a line per list, and a frame rate that is
      the number of intervals over the time they span. */
  ghost predicate IsReport(r: Report, rs: seq<Record>)
    requires |rs| >= 2
  {
    && Tallies(r.tally, rs)
    && CountsMissing(r.tally.dropped, Numbers(rs))
    && r.frameTime == RowOf(r.tally.frameTimes)
    && r.interval == RowOf(r.tally.intervals)
    && r.latency == RowOf(r.tally.latencies)
    && RateFits(r.fps, Span(rs), |rs| - 1)
  }

  method ReportSettled(settled: seq<Record>) returns (o: Outcome)
    requires |settled| >= 2
    ensures if Span(settled) == 0.0 then o.ZeroDivision? else o.Done? && IsReport(o.report, settled)
  {
    var t := FoldRecords(settled);
    RateOfSettled(settled, t);
    if Mean(t.intervals) == 0.0 { return ZeroDivision; }
    ReportedRight(t, settled);
    o := Done(ReportOf(t));
  }

  function ReportOf(t: Tally): Report
    requires t.frameTimes != [] && t.intervals != [] && t.latencies != [] && Mean(t.intervals) != 0.0
  {
    Report(t, RowOf(t.frameTimes), RowOf(t.intervals), RowOf(t.latencies), 1000.0 / Mean(t.intervals))
  }

  lemma ReportedRight(t: Tally, rs: seq<Record>)
    requires |rs| >= 2 && Tallies(t, rs) && Mean(t.intervals) != 0.0
    ensures IsReport(ReportOf(t), rs)
  {
    RateOfSettled(rs, t);
    CountIsRight(t.dropped, Numbers(rs));
  }

  lemma RateOfSettled(rs: seq<Record>, t: Tally)
    requires |rs| >= 2 && TalliesTimes(t, rs)
    ensures Mean(t.intervals) == 0.0 <==> Span(rs) == 0.0
    ensures Mean(t.intervals) != 0.0 ==> RateFits(1000.0 / Mean(t.intervals), Span(rs), |rs| - 1)
  {
    MeanInterval(rs, t);
    FrameRate(Span(rs), (|rs| - 1) as real, Mean(t.intervals));
  }

  lemma MeanInterval(rs: seq<Record>, t: Tally)
    requires |rs| >= 2 && TalliesTimes(t, rs)
    ensures Mean(t.intervals) == Span(rs) * 1000.0 / (|rs| - 1) as real
  {
    IntervalsTelescope(rs, t.intervals);
  }

  /** Drops the first and last five records and reports on the rest. */
  method AnalyzeLatency(records: seq<Record>) returns (o: Outcome)
    ensures o.TooFewFrames? <==> |records| < 20
    ensures |records| >= 20 ==>
              var rs := records[5..|records| - 5];
              if Span(rs) == 0.0 then o.ZeroDivision? else o.Done? && IsReport(o.report, rs)
  {
    if |records| < 20 { return TooFewFrames; }
    o := ReportSettled(records[5..|records| - 5]);
  }

  lemma FrameRate(span: real, n: real, mean: real)
    requires n > 0.0 && mean == span * 1000.0 / n
    ensures mean == 0.0 <==> span == 0.0
    ensures mean != 0.0 ==> (1000.0 / mean) * span == n
  {
    assert mean * n == span * 1000.0;
    if span != 0.0 {
      var fps := 1000.0 / mean;
      assert fps * mean == 1000.0;
      assert fps * (mean * n) == fps * (span * 1000.0);
      assert fps * (mean * n) == (fps * mean) * n;
    }
  }
}
