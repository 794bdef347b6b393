/** The PVA CRC validation summary and the latency report at the end of its run. */
module CrcReport {
  import opened Options
  import opened Statistics

  // ----- recording

  function Lookup<T>(m: map<string, T>, name: string): (v: Option<T>)
    ensures v.Some? <==> name in m
    ensures name in m ==> v.value == m[name]
  {
    if name in m then Some(m[name]) else None
  }

  function GetOrZero(m: map<string, int>, name: string): int { if name in m then m[name] else 0 }

  /** Two names that are both missing have equal values; a missing one has the value 0. */
  lemma MissingIsZero(m: map<string, int>, name: string)
    ensures name in m ==> GetOrZero(m, name) == m[name]
    ensures name !in m ==> GetOrZero(m, name) == 0
  {
  }

  /** Frame `n` is noted while debugging if it is among the first five or a twentieth. */
  function Noted(debug: bool, n: nat, metadata: map<string, int>): seq<(nat, bool)> {
    if debug && (n < 5 || n % 20 == 0)
    then [(n, GetOrZero(metadata, "crc") == GetOrZero(metadata, "pva_frame_crc"))]
    else []
  }

  /** Passes a tensor on under another name and records named metadata values; while debugging, it
      also notes whether the CRCs of the first five frames and of every twentieth match. */
  class RecordMetadataOp<T> {
    const inName: string
    const outName: string
    const names: seq<string>
    const debug: bool
    var record: seq<seq<int>>
    var frameCount: nat
    var comparisons: seq<(nat, bool)>

    constructor (inName: string, outName: string, names: seq<string>, debug: bool)
      ensures this.inName == inName && this.outName == outName && this.names == names && this.debug == debug
      ensures record == [] && frameCount == 0 && comparisons == []
    {
      this.inName, this.outName, this.names, this.debug := inName, outName, names, debug;
      record, frameCount, comparisons := [], 0, [];
    }

    /** A missing name raises, after the tensor was passed on, and leaves the records alone. */
    method Compute(message: map<string, T>, metadata: map<string, int>)
      returns (emitted: map<string, Option<T>>, ok: bool)
      modifies this
      ensures emitted == map[outName := Lookup(message, inName)]
      ensures ok <==> forall k :: 0 <= k < |names| ==> names[k] in metadata
      ensures !ok ==> record == old(record) && frameCount == old(frameCount) && comparisons == old(comparisons)
      ensures ok ==> frameCount == old(frameCount) + 1
      ensures ok ==> |record| == |old(record)| + 1 && record[..|old(record)|] == old(record) &&
                     |record[|old(record)|]| == |names| &&
                     forall k :: 0 <= k < |names| ==> record[|old(record)|][k] == metadata[names[k]]
      ensures ok ==> comparisons == old(comparisons) + Noted(debug, old(frameCount), metadata)
      ensures ok ==>
                var n := old(frameCount);
                |comparisons| == |old(comparisons)| + if debug && (n in {0, 1, 2, 3, 4} || n % 20 == 0) then 1 else 0
    {
      emitted := map[outName := Lookup(message, inName)];
      var value: seq<int> := [];
      for i := 0 to |names|
        invariant |value| == i && forall k :: 0 <= k < i ==> names[k] in metadata && value[k] == metadata[names[k]]
      {
        if names[i] !in metadata {
          ok := false;
          return;
        }
        value := value + [metadata[names[i]]];
      }
      record := record + [value];
      if debug {
        if frameCount < 5 || frameCount % 20 == 0 {
          var cameraCrc, pvaCrc := GetOrZero(metadata, "crc"), GetOrZero(metadata, "pva_frame_crc");
          comparisons := comparisons + [(frameCount, cameraCrc == pvaCrc)];
        }
      }
      frameCount := frameCount + 1;
      ok := true;
    }
  }

  // ----- the CRC summary

  const SKIP := 10

  datatype Crcs = Crcs(camera: int, pva: int)

  /** The numbers of the summary, and whether it announces that everything matched. */
  datatype Summary = NoFrames | Summary(validated: nat, errors: nat, success: real, announced: bool)

  /** The positions that count: past the first ten, before the last ten, and mismatching. */
  ghost function BadFrames(crcs: seq<Crcs>, upTo: nat): set<nat>
    requires upTo <= |crcs|
  {
    set k: nat | k < upTo && SKIP <= k < |crcs| - SKIP && crcs[k].camera != crcs[k].pva
  }

  lemma BadFramesAre(crcs: seq<Crcs>, k: nat)
    ensures k in BadFrames(crcs, |crcs|) <==> 10 <= k < |crcs| - 10 && crcs[k].camera != crcs[k].pva
  {
  }

  lemma BadFramesStep(crcs: seq<Crcs>, i: nat)
    requires i < |crcs|
    ensures var bad := SKIP <= i < |crcs| - SKIP && crcs[i].camera != crcs[i].pva;
            |BadFrames(crcs, i + 1)| == |BadFrames(crcs, i)| + if bad then 1 else 0
  {
    if SKIP <= i < |crcs| - SKIP && crcs[i].camera != crcs[i].pva {
      assert BadFrames(crcs, i + 1) == BadFrames(crcs, i) + {i};
    } else {
      assert BadFrames(crcs, i + 1) == BadFrames(crcs, i);
    }
  }

  ghost function Range(lo: nat, hi: nat): (r: set<nat>)
    ensures |r| == (if lo < hi then hi - lo else 0)
    ensures forall k: nat :: k in r <==> lo <= k < hi
  {
    if hi <= lo then {} else Range(lo, hi - 1) + {hi - 1}
  }

  lemma Subset(a: set<nat>, b: set<nat>)
    requires a <= b
    ensures |a| <= |b|
  {
    if a == {} {
    } else {
      var x :| x in a;
      Subset(a - {x}, b - {x});
    }
  }

  lemma SuccessRate(validated: nat, errors: nat)
    requires errors <= validated && validated > 0
    ensures var s := (validated - errors) as real / validated as real * 100.0;
            0.0 <= s <= 100.0 && (s == 100.0 <==> errors == 0)
  {
    RatioBounds((validated - errors) as real, validated as real);
  }

  /** For any number of frames the errors are exactly the mismatches outside the skipped ends, and
      the success rate is full exactly when something was validated and nothing mismatched. Success
      is announced whenever there are no errors, so the announcement agrees with the rate if and
      only if more frames were captured than are skipped. */
  method Summarize(crcs: seq<Crcs>) returns (s: Summary)
    ensures s.NoFrames? <==> crcs == []
    ensures s.Summary? ==>
              && s.errors == |BadFrames(crcs, |crcs|)|
              && s.validated == (if |crcs| > 20 then |crcs| - 20 else 0)
              && s.errors <= s.validated
              && 0.0 <= s.success <= 100.0
              && (s.success == 100.0 <==> s.errors == 0 && s.validated > 0)
              && (s.validated > 0 ==> s.success * s.validated as real == 100.0 * (s.validated - s.errors) as real)
              && (s.validated == 0 ==> s.success == 0.0)
              && (s.announced <==> s.errors == 0)
              && ((s.announced <==> s.success == 100.0) <==> |crcs| > 20)
  {
    var total := |crcs|;
    if total == 0 { return NoFrames; }
    var errors := 0;
    for i := 0 to total
      invariant errors == |BadFrames(crcs, i)|
    {
      BadFramesStep(crcs, i);
      if i < SKIP { continue; }
      if i >= total - SKIP { continue; }
      if crcs[i].camera != crcs[i].pva {
        errors := errors + 1;
      }
    }
    var validated := if total - SKIP - SKIP > 0 then total - SKIP - SKIP else 0;
    Subset(BadFrames(crcs, total), Range(SKIP, if total > SKIP then total - SKIP else 0));
    if validated > 0 { SuccessRate(validated, errors); }
    var success := if validated > 0 then (validated - errors) as real / validated as real * 100.0 else 0.0;
    var announced := errors == 0;
    s := Summary(validated, errors, success, announced);
  }

  /** Up to twenty frames, all of them mismatching, are summed up as a success at a rate of zero. */
  method ShortRunAnnounced(crcs: seq<Crcs>) returns (s: Summary)
    requires 0 < |crcs| <= 20 && forall k :: 0 <= k < |crcs| ==> crcs[k].camera != crcs[k].pva
    ensures s == Summary(0, 0, 0.0, true)
  {
    s := Summarize(crcs);
  }

  /** One such list: a single frame with two different CRCs. */
  method OneBadFrameAnnounced() returns (s: Summary)
    ensures s == Summary(0, 0, 0.0, true)
  {
    s := ShortRunAnnounced([Crcs(1, 2)]);
  }

  // ----- the latency report

  /** Rounding to the nearest integer, ties to even. */
  function Nearest(y: real): int {
    var d := y - y.Floor as real;
    if d < 0.5 || (d == 0.5 && y.Floor % 2 == 0) then y.Floor else y.Floor + 1
  }

  /** `round(x, 4)`. */
  function Round4(x: real): real { Nearest(x * 10000.0) as real / 10000.0 }

  /** The nearest multiple of 0.0001; between two, the even one. */
  lemma Round4IsNearest(x: real)
    ensures exists n: int ::
              && Round4(x) == n as real / 10000.0
              && -0.00005 <= Round4(x) - x <= 0.00005
              && ((Round4(x) - x == 0.00005 || Round4(x) - x == -0.00005) ==> n % 2 == 0)
  {
    var n := Nearest(x * 10000.0);
    NearestWithinHalf(x * 10000.0);
    assert Round4(x) == n as real / 10000.0;
  }

  datatype Times = Times(start: real, end: real, received: real, operatorAt: real, complete: real)

  datatype Stage = FrameTime | Transfer | Operator | Processing | Overall

  function Latency(t: Times, s: Stage): real {
    match s
    case FrameTime => t.end - t.start
    case Transfer => t.received - t.end
    case Operator => t.operatorAt - t.received
    case Processing => t.complete - t.operatorAt
    case Overall => t.complete - t.start
  }

  /** The stages follow one another from the start of the frame to its completion. */
  lemma StagesFollow(t: Times)
    ensures t.start + Latency(t, FrameTime) == t.end && t.end + Latency(t, Transfer) == t.received
    ensures t.received + Latency(t, Operator) == t.operatorAt && t.operatorAt + Latency(t, Processing) == t.complete
    ensures t.start + Latency(t, Overall) == t.complete
  {
  }

  function Rounded(ts: seq<Times>, s: Stage): (r: seq<real>)
    ensures |r| == |ts|
  {
    seq(|ts|, k requires 0 <= k < |ts| => Round4(Latency(ts[k], s)))
  }

  /** The stages cover the whole latency, so rounding costs at most two units of the last place. */
  lemma RoundedStages(t: Times)
    ensures var d := Round4(Latency(t, Overall)) - Round4(Latency(t, FrameTime)) - Round4(Latency(t, Transfer))
                     - Round4(Latency(t, Operator)) - Round4(Latency(t, Processing));
            -0.0002 <= d <= 0.0002
  {
    UnitsApart(Latency(t, FrameTime) * 10000.0, Latency(t, Transfer) * 10000.0,
               Latency(t, Operator) * 10000.0, Latency(t, Processing) * 10000.0);
    StagesAdd(t);
    UnitsToSeconds(Nearest(Latency(t, Overall) * 10000.0), Nearest(Latency(t, FrameTime) * 10000.0),
                   Nearest(Latency(t, Transfer) * 10000.0), Nearest(Latency(t, Operator) * 10000.0),
                   Nearest(Latency(t, Processing) * 10000.0));
  }

  lemma UnitsToSeconds(e: int, a: int, b: int, c: int, d: int)
    requires -2 <= e - a - b - c - d <= 2
    ensures -0.0002 <= e as real / 10000.0 - a as real / 10000.0 - b as real / 10000.0
                       - c as real / 10000.0 - d as real / 10000.0 <= 0.0002
  {
    SumsConvert(e, a, b, c, d);
  }

  lemma StagesAdd(t: Times)
    ensures Latency(t, Overall) * 10000.0 ==
            Latency(t, FrameTime) * 10000.0 + Latency(t, Transfer) * 10000.0 +
            Latency(t, Operator) * 10000.0 + Latency(t, Processing) * 10000.0
  {
  }

  lemma UnitsApart(a: real, b: real, c: real, d: real)
    ensures -2 <= Nearest(a + b + c + d) - Nearest(a) - Nearest(b) - Nearest(c) - Nearest(d) <= 2
  {
    NearestWithinHalf(a);
    NearestWithinHalf(b);
    NearestWithinHalf(c);
    NearestWithinHalf(d);
    NearestWithinHalf(a + b + c + d);
    SumsConvert(Nearest(a + b + c + d), Nearest(a), Nearest(b), Nearest(c), Nearest(d));
  }

  lemma SumsConvert(e: int, a: int, b: int, c: int, d: int)
    ensures (e - a - b - c - d) as real == e as real - a as real - b as real - c as real - d as real
  {
  }

  lemma NearestWithinHalf(y: real)
    ensures -0.5 <= Nearest(y) as real - y <= 0.5
    ensures y - y.Floor as real == 0.5 ==> Nearest(y) % 2 == 0
  {
  }

  function Excess(ts: seq<Times>): real {
    Sum(Rounded(ts, Overall)) - Sum(Rounded(ts, FrameTime)) - Sum(Rounded(ts, Transfer))
    - Sum(Rounded(ts, Operator)) - Sum(Rounded(ts, Processing))
  }

  lemma RoundedPrefix(ts: seq<Times>, s: Stage)
    requires ts != []
    ensures Sum(Rounded(ts, s)) == Sum(Rounded(ts[..|ts| - 1], s)) + Round4(Latency(ts[|ts| - 1], s))
  {
    assert Rounded(ts, s)[..|ts| - 1] == Rounded(ts[..|ts| - 1], s);
  }

  lemma {:induction false} ExcessBounds(ts: seq<Times>)
    ensures -0.0002 * |ts| as real <= Excess(ts) <= 0.0002 * |ts| as real
  {
    if ts == [] {
    } else {
      var n := |ts| - 1;
      ExcessBounds(ts[..n]);
      RoundedStages(ts[n]);
      RoundedPrefix(ts, Overall);
      RoundedPrefix(ts, FrameTime);
      RoundedPrefix(ts, Transfer);
      RoundedPrefix(ts, Operator);
      RoundedPrefix(ts, Processing);
    }
  }

  /** Main result: the reported average overall latency differs from the sum of the four stage
      averages by at most 0.0002 s. */
  lemma AveragesAgree(ts: seq<Times>)
    requires ts != []
    ensures var d := Mean(Rounded(ts, Overall)) - Mean(Rounded(ts, FrameTime)) - Mean(Rounded(ts, Transfer))
                     - Mean(Rounded(ts, Operator)) - Mean(Rounded(ts, Processing));
            -0.0002 <= d <= 0.0002
  {
    ExcessBounds(ts);
    Quotient(Excess(ts), |ts| as real, -0.0002, 0.0002);
    DivideTerms(Sum(Rounded(ts, Overall)), Sum(Rounded(ts, FrameTime)), Sum(Rounded(ts, Transfer)),
                Sum(Rounded(ts, Operator)), Sum(Rounded(ts, Processing)), |ts| as real);
  }

  lemma DivideTerms(e: real, a: real, b: real, c: real, d: real, n: real)
    requires n > 0.0
    ensures (e - a - b - c - d) / n == e / n - a / n - b / n - c / n - d / n
  {
  }

  /** With a hundred records or more, one row per stage over the settled ones. */
  method ReportLatency(records: seq<Times>) returns (rows: Option<seq<Row>>)
    ensures rows.Some? <==> |records| >= 100
    ensures rows.Some? ==>
              var ts := records[5..|records| - 5];
              rows.value == [RowOf(Rounded(ts, FrameTime)), RowOf(Rounded(ts, Transfer)), RowOf(Rounded(ts, Operator)),
                             RowOf(Rounded(ts, Processing)), RowOf(Rounded(ts, Overall))]
    ensures rows.Some? ==>
              var d := rows.value[4].average - rows.value[0].average - rows.value[1].average
                       - rows.value[2].average - rows.value[3].average;
              -0.0002 <= d <= 0.0002
  {
    if |records| < 100 { return None; }
    var settled := records[5..|records| - 5];
    var frame, transfer, oper, processing, overall: seq<real> := [], [], [], [], [];
    for i := 0 to |settled|
      invariant frame == Rounded(settled[..i], FrameTime)
      invariant transfer == Rounded(settled[..i], Transfer)
      invariant oper == Rounded(settled[..i], Operator)
      invariant processing == Rounded(settled[..i], Processing)
      invariant overall == Rounded(settled[..i], Overall)
    {
      var t := settled[i];
      frame := frame + [Round4(t.end - t.start)];
      transfer := transfer + [Round4(t.received - t.end)];
      oper := oper + [Round4(t.operatorAt - t.received)];
      processing := processing + [Round4(t.complete - t.operatorAt)];
      overall := overall + [Round4(t.complete - t.start)];
    }
    assert settled[..|settled|] == settled;
    AveragesAgree(settled);
    rows := Some([RowOf(frame), RowOf(transfer), RowOf(oper), RowOf(processing), RowOf(overall)]);
  }
}
