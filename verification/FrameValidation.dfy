/** The CRC accounting chain: the profiler samples frames and counts mismatches, the monitor records
    the count with each frame, and the validator reports what changed between the last two records. */
module FrameValidation {

  // ----- timestamps travel as whole seconds and nanoseconds

  datatype Stamp = Stamp(seconds: int, nanoseconds: int)

  /** `int(x)`. */
  function Truncated(x: real): int { if x >= 0.0 then x.Floor else -((-x).Floor) }

  function Save(t: real): Stamp {
    var s := Truncated(t);
    Stamp(s, Truncated((t - s as real) * 1000000000.0))
  }

  function Load(st: Stamp): real { st.seconds as real + st.nanoseconds as real / 1000000000.0 }

  /** Saving and loading a time loses less than a nanosecond, towards zero. */
  lemma SavedTime(t: real)
    ensures t >= 0.0 ==> 0.0 <= t - Load(Save(t)) < 0.000000001
    ensures t <= 0.0 ==> -0.000000001 < t - Load(Save(t)) <= 0.0
  {
  }

  // ----- the data

  /** A received frame: the CRC its metadata carries and the one calculated over its data, the times
      the receiver notes, and the time the profiler sees it. */
  datatype Frame = Frame(number: int, crc: bv32, calculated: bv32, bytes: nat,
                         start: Stamp, end: Stamp, received: Stamp, seen: real)

  /** The metadata that travels from the profiler to the monitor. */
  datatype Metadata = Metadata(frameNumber: int, crcErrors: nat, receivedSize: nat, calculatedSize: nat,
                               start: Stamp, end: Stamp, received: Stamp, operatorAt: Stamp)

  datatype Entry = Entry(now: real, start: real, end: real, received: real, operatorAt: real, complete: real,
                         frameNumber: int, crcErrors: nat, receivedSize: nat, calculatedSize: nat)

  datatype Report =
    | OutOfOrder(last: int, current: int)
    | WrongSize(receivedSize: nat, calculatedSize: nat)
    | LateFrame(lastTime: real, time: real)
    | CrcErrors(found: nat)

  /** What is saved: the whole seconds, and the nanoseconds after or, for a time before zero, before. */
  lemma SavedParts(t: real)
    ensures t >= 0.0 ==>
              Save(t).seconds as real <= t < Save(t).seconds as real + 1.0 && 0 <= Save(t).nanoseconds < 1000000000
    ensures t <= 0.0 ==>
              Save(t).seconds as real - 1.0 < t <= Save(t).seconds as real && -1000000000 < Save(t).nanoseconds <= 0
  {
  }

  lemma LoadedNanoseconds(st: Stamp)
    ensures Load(st) * 1000000000.0 == st.seconds as real * 1000000000.0 + st.nanoseconds as real
  {
  }

  /** `crc ^ 0xFFFFFFFF`. */
  function Inverted(crc: bv32): bv32 { crc ^ 0xFFFF_FFFF }

  datatype Settings = Settings(crcFrameCheck: int, frameSize: nat)

  const CAPACITY := 30000

  /** The two values differ in every bit. */
  predicate Complementary(a: bv32, b: bv32) { a | b == 0xFFFF_FFFF && a & b == 0 }

  lemma InvertedComplements(a: bv32, b: bv32)
    ensures b == Inverted(a) <==> Complementary(a, b)
  {
    if b == Inverted(a) { Complements(a); }
    if Complementary(a, b) { OneComplement(a, b); }
  }

  lemma Complements(a: bv32)
    ensures Complementary(a, a ^ 0xFFFF_FFFF)
  {
  }

  lemma OneComplement(a: bv32, b: bv32)
    requires Complementary(a, b)
    ensures b == a ^ 0xFFFF_FFFF
  {
    assert a ^ b == (a | b) & !(a & b);
    assert a ^ (a ^ b) == b;
  }

  /** The frame is sampled, and its CRC as sent is not the complement of the calculated one. */
  predicate Mismatch(s: Settings, f: Frame) {
    s.crcFrameCheck > 0 && f.number % s.crcFrameCheck == 0 && !Complementary(f.crc, f.calculated)
  }

  /** How many of the frames are sampled mismatches. */
  function Mismatches(s: Settings, frames: seq<Frame>): nat {
    if frames == [] then 0
    else Mismatches(s, frames[..|frames| - 1]) + if Mismatch(s, frames[|frames| - 1]) then 1 else 0
  }

  /** What the profiler adds to a frame's metadata, with the error count so far. */
  function MetadataOf(s: Settings, f: Frame, errors: nat): Metadata {
    Metadata(f.number, errors, f.bytes, s.frameSize, f.start, f.end, f.received, Save(f.seen))
  }

  /** The record the monitor makes of it. */
  function EntryOf(m: Metadata, complete: real, now: real): Entry {
    Entry(now, Load(m.start), Load(m.end), Load(m.received), Load(m.operatorAt), complete,
          m.frameNumber, m.crcErrors, m.receivedSize, m.calculatedSize)
  }

  // ----- the operators

  class Profiler {
    const settings: Settings
    var crcErrors: nat

    constructor (settings: Settings)
      ensures this.settings == settings && crcErrors == 0
    {
      this.settings, this.crcErrors := settings, 0;
    }

    method Compute(f: Frame) returns (m: Metadata)
      modifies this
      ensures crcErrors == old(crcErrors) + if Mismatch(settings, f) then 1 else 0
      ensures m == MetadataOf(settings, f, crcErrors)
    {
      InvertedComplements(f.crc, f.calculated);
      if settings.crcFrameCheck > 0 {
        if f.number % settings.crcFrameCheck == 0 {
          var crc := Inverted(f.crc);
          if f.calculated != crc {
            crcErrors := crcErrors + 1;
          }
        }
      }
      m := Metadata(f.number, crcErrors, f.bytes, settings.frameSize, f.start, f.end, f.received, Save(f.seen));
    }
  }

  /** Twice the 16.6 ms frame time. */
  const LATE_MS := 2.0 * 16.6

  predicate IsLate(prev: Entry, cur: Entry) { (cur.complete - prev.complete) * 1000.0 > LATE_MS }

  lemma LateSeconds(prev: Entry, cur: Entry)
    ensures IsLate(prev, cur) <==> cur.complete > prev.complete + 0.0332
  {
  }

  /** What the validator says about a record that follows another. */
  function Check(prev: Entry, cur: Entry): seq<Report> {
    When(cur.frameNumber != prev.frameNumber + 1, OutOfOrder(prev.frameNumber, cur.frameNumber)) +
    When(cur.receivedSize != cur.calculatedSize, WrongSize(cur.receivedSize, cur.calculatedSize)) +
    When(IsLate(prev, cur), LateFrame(prev.complete, cur.complete)) +
    When(cur.crcErrors > prev.crcErrors, CrcErrors(cur.crcErrors))
  }

  function When(condition: bool, r: Report): seq<Report> { if condition then [r] else [] }

  /** What the validator says about a queue: nothing while it holds fewer than two records. */
  function LastCheck(queue: seq<Entry>): seq<Report> {
    if |queue| > 1 then Check(queue[|queue| - 2], queue[|queue| - 1]) else []
  }

  /** The reports of a recorder that validated after every record. */
  function Checks(queue: seq<Entry>): seq<Report> {
    if queue == [] then [] else Checks(queue[..|queue| - 1]) + LastCheck(queue)
  }

  class Recorder {
    var queue: seq<Entry>
    var log: seq<Report>

    constructor ()
      ensures queue == [] && log == Checks(queue)
    {
      queue, log := [], [];
    }

    /** Puts a record, which needs room in the queue, and validates it against the one before. The
        completion time was saved in the metadata and is loaded back. */
    method RecordTimes(m: Metadata, complete: real, now: real)
      requires |queue| < CAPACITY && log == Checks(queue)
      modifies this
      ensures queue == old(queue) + [EntryOf(m, Load(Save(complete)), now)]
      ensures log == old(log) + LastCheck(queue) && log == Checks(queue)
    {
      var saved := Save(complete);
      var e := Entry(now, Load(m.start), Load(m.end), Load(m.received), Load(m.operatorAt), Load(saved),
                     m.frameNumber, m.crcErrors, m.receivedSize, m.calculatedSize);
      ChecksSnoc(queue, e);
      queue := queue + [e];
      var reports := ValidateFrame(queue);
      log := log + reports;
    }
  }

  /** Compares the last two of the last five records; with fewer than two there is nothing to say. */
  method ValidateFrame(queue: seq<Entry>) returns (reports: seq<Report>)
    ensures reports == LastCheck(queue)
  {
    reports := [];
    if |queue| > 1 {
      var raw := if |queue| > 5 then queue[|queue| - 5..] else queue;
      reports := Compare(raw[|raw| - 2], raw[|raw| - 1]);
    }
  }

  /** The place of a report among the four checks. */
  function Kind(r: Report): nat {
    match r
    case OutOfOrder(_, _) => 0
    case WrongSize(_, _) => 1
    case LateFrame(_, _) => 2
    case CrcErrors(_) => 3
  }

  /** A report belongs to a pair of records. */
  predicate Found(prev: Entry, cur: Entry, r: Report) {
    match r
    case OutOfOrder(l, c) => l == prev.frameNumber && c == cur.frameNumber && c != l + 1
    case WrongSize(x, y) => x == cur.receivedSize && y == cur.calculatedSize && x != y
    case LateFrame(l, c) => l == prev.complete && c == cur.complete && c > l + 0.0332
    case CrcErrors(n) => n == cur.crcErrors && n > prev.crcErrors
  }

  ghost predicate InOrder(rs: seq<Report>) {
    forall i, j :: 0 <= i < j < |rs| ==> Kind(rs[i]) < Kind(rs[j])
  }

  lemma AppendFinding(rs: seq<Report>, condition: bool, r: Report)
    requires InOrder(rs) && forall x :: x in rs ==> Kind(x) < Kind(r)
    ensures InOrder(rs + When(condition, r))
    ensures forall x :: x in rs + When(condition, r) <==> x in rs || (condition && x == r)
  {
  }

  lemma FourFindings(p: bool, a: Report, q: bool, b: Report, u: bool, c: Report, v: bool, d: Report)
    requires Kind(a) == 0 && Kind(b) == 1 && Kind(c) == 2 && Kind(d) == 3
    ensures var rs := When(p, a) + When(q, b) + When(u, c) + When(v, d);
            && InOrder(rs)
            && forall r :: r in rs <==> (p && r == a) || (q && r == b) || (u && r == c) || (v && r == d)
  {
    AppendFinding([], p, a);
    assert [] + When(p, a) == When(p, a);
    AppendFinding(When(p, a), q, b);
    AppendFinding(When(p, a) + When(q, b), u, c);
    AppendFinding(When(p, a) + When(q, b) + When(u, c), v, d);
  }

  lemma FoundIs(prev: Entry, cur: Entry, r: Report)
    ensures Found(prev, cur, r) <==>
              || (cur.frameNumber != prev.frameNumber + 1 && r == OutOfOrder(prev.frameNumber, cur.frameNumber))
              || (cur.receivedSize != cur.calculatedSize && r == WrongSize(cur.receivedSize, cur.calculatedSize))
              || (IsLate(prev, cur) && r == LateFrame(prev.complete, cur.complete))
              || (cur.crcErrors > prev.crcErrors && r == CrcErrors(cur.crcErrors))
  {
  }

  /** The checks report exactly the findings, at most one of each kind, in order. */
  lemma CheckFinds(prev: Entry, cur: Entry)
    ensures forall r :: r in Check(prev, cur) <==> Found(prev, cur, r)
    ensures InOrder(Check(prev, cur))
  {
    FourFindings(cur.frameNumber != prev.frameNumber + 1, OutOfOrder(prev.frameNumber, cur.frameNumber),
                 cur.receivedSize != cur.calculatedSize, WrongSize(cur.receivedSize, cur.calculatedSize),
                 IsLate(prev, cur), LateFrame(prev.complete, cur.complete),
                 cur.crcErrors > prev.crcErrors, CrcErrors(cur.crcErrors));
    forall r: Report ensures r in Check(prev, cur) <==> Found(prev, cur, r) {
      FoundIs(prev, cur, r);
    }
  }

  /** The four checks, each on its own condition. */
  method Compare(prev: Entry, cur: Entry) returns (reports: seq<Report>)
    ensures reports == Check(prev, cur)
    ensures forall r :: r in reports <==> Found(prev, cur, r)
    ensures InOrder(reports)
  {
    CheckFinds(prev, cur);
    reports := [];
    if cur.frameNumber != prev.frameNumber + 1 {
      reports := reports + [OutOfOrder(prev.frameNumber, cur.frameNumber)];
    }
    if cur.receivedSize != cur.calculatedSize {
      reports := reports + [WrongSize(cur.receivedSize, cur.calculatedSize)];
    }
    if IsLate(prev, cur) {
      reports := reports + [LateFrame(prev.complete, cur.complete)];
    }
    if cur.crcErrors > prev.crcErrors {
      reports := reports + [CrcErrors(cur.crcErrors)];
    }
  }

  // ----- the pipeline: profiler and monitor run concurrently, frames queue up between them

  /** The profiler sees a frame; or the monitor runs, with the times it reads. */
  datatype Event = Profile(frame: Frame) | Monitor(complete: real, now: real)

  datatype Pipeline = Pipeline(crcErrors: nat, inFlight: seq<Metadata>, queue: seq<Entry>, log: seq<Report>)

  /** One operator runs. The monitor waits while nothing is in flight or the queue is full. */
  function Step(s: Settings, p: Pipeline, e: Event): Pipeline {
    match e
    case Profile(f) =>
      var errors := p.crcErrors + if Mismatch(s, f) then 1 else 0;
      p.(crcErrors := errors, inFlight := p.inFlight + [MetadataOf(s, f, errors)])
    case Monitor(complete, now) =>
      if p.inFlight == [] || |p.queue| >= CAPACITY then p
      else
        var queue := p.queue + [EntryOf(p.inFlight[0], Load(Save(complete)), now)];
        p.(inFlight := p.inFlight[1..], queue := queue, log := p.log + LastCheck(queue))
  }

  function Run(s: Settings, events: seq<Event>): Pipeline {
    if events == [] then Pipeline(0, [], [], [])
    else Step(s, Run(s, events[..|events| - 1]), events[|events| - 1])
  }

  /** The frames profiled, in order. */
  function Frames(events: seq<Event>): seq<Frame> {
    if events == [] then []
    else Frames(events[..|events| - 1]) +
         match events[|events| - 1] case Profile(f) => [f] case Monitor(_, _) => []
  }

  /** The operators themselves, run by the same events, with the messages in flight between them:
      they end in the state that the steps lead to. */
  method RunOperators(s: Settings, events: seq<Event>)
    returns (profiler: Profiler, recorder: Recorder, inFlight: seq<Metadata>)
    ensures Pipeline(profiler.crcErrors, inFlight, recorder.queue, recorder.log) == Run(s, events)
  {
    profiler := new Profiler(s);
    recorder := new Recorder();
    inFlight := [];
    for i := 0 to |events|
      invariant fresh(profiler) && fresh(recorder) && profiler.settings == s
      invariant recorder.log == Checks(recorder.queue)
      invariant Pipeline(profiler.crcErrors, inFlight, recorder.queue, recorder.log) == Run(s, events[..i])
    {
      RunNext(s, events, i);
      if events[i].Profile? {
        var m := profiler.Compute(events[i].frame);
        inFlight := inFlight + [m];
      } else if |inFlight| > 0 && |recorder.queue| < CAPACITY {
        recorder.RecordTimes(inFlight[0], events[i].complete, events[i].now);
        inFlight := inFlight[1..];
      }
    }
    assert events[..|events|] == events;
  }

  lemma RunNext(s: Settings, events: seq<Event>, i: nat)
    requires i < |events|
    ensures Run(s, events[..i + 1]) == Step(s, Run(s, events[..i]), events[i])
  {
    assert events[..i + 1][..i] == events[..i];
  }

  /** The metadata frame `k` should carry: its own, and the mismatches up to and including it. */
  function MetadataAt(s: Settings, frames: seq<Frame>, k: nat): Metadata
    requires k < |frames|
  {
    MetadataOf(s, frames[k], Mismatches(s, frames[..k + 1]))
  }

  /** Record `k` is made of frame `k`'s metadata, at some time. */
  predicate Describes(s: Settings, frames: seq<Frame>, k: nat, e: Entry) {
    k < |frames| && e == EntryOf(MetadataAt(s, frames, k), e.complete, e.now)
  }

  /** In-flight message `k` belongs to the frame after the recorded ones and the `k` before it. */
  predicate Flies(s: Settings, frames: seq<Frame>, p: Pipeline, k: nat)
    requires k < |p.inFlight|
  {
    |p.queue| + k < |frames| && p.inFlight[k] == MetadataAt(s, frames, |p.queue| + k)
  }

  ghost predicate Accounts(s: Settings, p: Pipeline, frames: seq<Frame>) {
    && p.crcErrors == Mismatches(s, frames)
    && |p.queue| + |p.inFlight| == |frames|
    && |p.queue| <= CAPACITY
    && (forall k :: 0 <= k < |p.queue| ==> Describes(s, frames, k, p.queue[k]))
    && (forall k :: 0 <= k < |p.inFlight| ==> Flies(s, frames, p, k))
    && p.log == Checks(p.queue)
  }

  lemma MetadataStays(s: Settings, frames: seq<Frame>, f: Frame, k: nat)
    requires k < |frames|
    ensures MetadataAt(s, frames + [f], k) == MetadataAt(s, frames, k)
  {
    assert (frames + [f])[..k + 1] == frames[..k + 1];
  }

  /** Main result: whatever the interleaving, the records are the first frames in order, each with
      the number of sampled mismatches up to it, and the log is what pairwise validation says. */
  lemma {:induction false} RunAccounts(s: Settings, events: seq<Event>)
    ensures Accounts(s, Run(s, events), Frames(events))
  {
    if events == [] {
    } else {
      var n := |events| - 1;
      RunAccounts(s, events[..n]);
      var p, frames := Run(s, events[..n]), Frames(events[..n]);
      match events[n]
      case Profile(f) =>
        ProfileAccounts(s, p, frames, f);
      case Monitor(complete, now) =>
        assert frames + [] == frames;
        MonitorAccounts(s, p, frames, complete, now);
    }
  }

  /** The monitor waits exactly while nothing is in flight or 30000 records are queued; else it
      takes the oldest message. */
  lemma MonitorTakesOldest(s: Settings, p: Pipeline, complete: real, now: real)
    ensures var p' := Step(s, p, Monitor(complete, now));
            if p.inFlight == [] || |p.queue| >= 30000 then p' == p
            else
              && p'.inFlight == p.inFlight[1..] && p'.crcErrors == p.crcErrors
              && |p'.queue| == |p.queue| + 1 && p.queue <= p'.queue
              && var e, m := p'.queue[|p.queue|], p.inFlight[0];
                 && e.frameNumber == m.frameNumber && e.crcErrors == m.crcErrors && e.now == now
                 && e.receivedSize == m.receivedSize && e.calculatedSize == m.calculatedSize
                 && e.start == Load(m.start) && e.end == Load(m.end)
                 && e.received == Load(m.received) && e.operatorAt == Load(m.operatorAt)
                 && -0.000000001 < complete - e.complete < 0.000000001
  {
    SavedTime(complete);
  }

  /** The profiler sends on each frame with its own data, its size as received and as configured, and
      the number of mismatches up to it. */
  lemma ProfilerSends(s: Settings, p: Pipeline, f: Frame)
    ensures var p' := Step(s, p, Profile(f));
            && p'.queue == p.queue && p'.log == p.log
            && p'.crcErrors == p.crcErrors + (if Mismatch(s, f) then 1 else 0)
            && |p'.inFlight| == |p.inFlight| + 1 && p.inFlight <= p'.inFlight
            && var m := p'.inFlight[|p.inFlight|];
               && m.frameNumber == f.number && m.crcErrors == p'.crcErrors
               && m.receivedSize == f.bytes && m.calculatedSize == s.frameSize
               && m.start == f.start && m.end == f.end && m.received == f.received
               && -0.000000001 < f.seen - Load(m.operatorAt) < 0.000000001
  {
    SavedTime(f.seen);
  }

  /** The mismatches are as many as there are positions of sampled mismatches. */
  lemma {:induction false} MismatchesCount(s: Settings, frames: seq<Frame>)
    ensures Mismatches(s, frames) == |set k: nat | k < |frames| && Mismatch(s, frames[k])|
  {
    var at := set k: nat | k < |frames| && Mismatch(s, frames[k]);
    if frames == [] {
      assert at == {};
    } else {
      var n := |frames| - 1;
      MismatchesCount(s, frames[..n]);
      var before := set k: nat | k < n && Mismatch(s, frames[..n][k]);
      assert before == set k: nat | k < n && Mismatch(s, frames[..n][k]);
      if Mismatch(s, frames[n]) {
        assert at == before + {n};
      } else {
        assert at == before;
      }
    }
  }

  lemma ProfileAccounts(s: Settings, p: Pipeline, frames: seq<Frame>, f: Frame)
    requires Accounts(s, p, frames)
    ensures Accounts(s, Step(s, p, Profile(f)), frames + [f])
  {
    ProfileStep(s, p, frames, f);
    DescribedWithNew(s, frames, f, p.queue);
    FliesWithNew(s, frames, f, p, Step(s, p, Profile(f)));
  }

  lemma ProfileStep(s: Settings, p: Pipeline, frames: seq<Frame>, f: Frame)
    requires p.crcErrors == Mismatches(s, frames)
    ensures Step(s, p, Profile(f)) ==
            p.(crcErrors := Mismatches(s, frames + [f]),
               inFlight := p.inFlight + [MetadataAt(s, frames + [f], |frames|)])
  {
    NewMetadata(s, frames, f);
  }

  lemma DescribedWithNew(s: Settings, frames: seq<Frame>, f: Frame, queue: seq<Entry>)
    requires forall k :: 0 <= k < |queue| ==> Describes(s, frames, k, queue[k])
    ensures forall k :: 0 <= k < |queue| ==> Describes(s, frames + [f], k, queue[k])
  {
    forall k | 0 <= k < |queue| ensures Describes(s, frames + [f], k, queue[k]) {
      assert Describes(s, frames, k, queue[k]);
      MetadataStays(s, frames, f, k);
    }
  }

  lemma FliesWithNew(s: Settings, frames: seq<Frame>, f: Frame, p: Pipeline, p': Pipeline)
    requires |p.queue| + |p.inFlight| == |frames| && p'.queue == p.queue
    requires p'.inFlight == p.inFlight + [MetadataAt(s, frames + [f], |frames|)]
    requires forall k :: 0 <= k < |p.inFlight| ==> Flies(s, frames, p, k)
    ensures forall k :: 0 <= k < |p'.inFlight| ==> Flies(s, frames + [f], p', k)
  {
    forall k | 0 <= k < |p'.inFlight| ensures Flies(s, frames + [f], p', k) {
      if k < |p.inFlight| {
        assert Flies(s, frames, p, k);
        MetadataStays(s, frames, f, |p.queue| + k);
      }
    }
  }

  lemma NewMetadata(s: Settings, frames: seq<Frame>, f: Frame)
    ensures Mismatches(s, frames + [f]) == Mismatches(s, frames) + if Mismatch(s, f) then 1 else 0
    ensures MetadataAt(s, frames + [f], |frames|) == MetadataOf(s, f, Mismatches(s, frames + [f]))
  {
    assert (frames + [f])[..|frames|] == frames && (frames + [f])[..|frames| + 1] == frames + [f];
  }

  lemma MonitorAccounts(s: Settings, p: Pipeline, frames: seq<Frame>, complete: real, now: real)
    requires Accounts(s, p, frames)
    ensures Accounts(s, Step(s, p, Monitor(complete, now)), frames)
  {
    if p.inFlight != [] && |p.queue| < CAPACITY {
      var e := EntryOf(p.inFlight[0], Load(Save(complete)), now);
      var p' := Step(s, p, Monitor(complete, now));
      ChecksSnoc(p.queue, e);
      assert p'.queue == p.queue + [e] && p'.log == Checks(p'.queue);
      assert Flies(s, frames, p, 0);
      StillDescribed(s, frames, p.queue, e);
      StillFlies(s, frames, p, p');
    }
  }

  lemma StillDescribed(s: Settings, frames: seq<Frame>, queue: seq<Entry>, e: Entry)
    requires forall k :: 0 <= k < |queue| ==> Describes(s, frames, k, queue[k])
    requires Describes(s, frames, |queue|, e)
    ensures forall k :: 0 <= k < |queue + [e]| ==> Describes(s, frames, k, (queue + [e])[k])
  {
  }

  lemma StillFlies(s: Settings, frames: seq<Frame>, p: Pipeline, p': Pipeline)
    requires p.inFlight != [] && p'.inFlight == p.inFlight[1..] && |p'.queue| == |p.queue| + 1
    requires forall k :: 0 <= k < |p.inFlight| ==> Flies(s, frames, p, k)
    ensures forall k :: 0 <= k < |p'.inFlight| ==> Flies(s, frames, p', k)
  {
    forall k | 0 <= k < |p'.inFlight| ensures Flies(s, frames, p', k) {
      assert Flies(s, frames, p, k + 1);
    }
  }

  lemma ChecksSnoc(queue: seq<Entry>, e: Entry)
    ensures Checks(queue + [e]) == Checks(queue) + LastCheck(queue + [e])
  {
    assert (queue + [e])[..|queue|] == queue;
  }

  // ----- what the reports add up to

  /** The error counts that the log reports, in order. */
  function CrcReports(log: seq<Report>): seq<nat> {
    if log == [] then []
    else CrcReports(log[..|log| - 1]) +
         if log[|log| - 1].CrcErrors? then [log[|log| - 1].found] else []
  }

  lemma {:induction false} CrcReportsConcat(a: seq<Report>, b: seq<Report>)
    ensures CrcReports(a + b) == CrcReports(a) + CrcReports(b)
    decreases |b|
  {
    if b == [] {
      assert a + b == a;
    } else {
      assert (a + b)[..|a| + |b| - 1] == a + b[..|b| - 1];
      CrcReportsConcat(a, b[..|b| - 1]);
    }
  }

  lemma CrcReportsOfCheck(prev: Entry, cur: Entry)
    ensures CrcReports(Check(prev, cur)) == if cur.crcErrors > prev.crcErrors then [cur.crcErrors] else []
  {
    var a := When(cur.frameNumber != prev.frameNumber + 1, OutOfOrder(prev.frameNumber, cur.frameNumber));
    var b := When(cur.receivedSize != cur.calculatedSize, WrongSize(cur.receivedSize, cur.calculatedSize));
    var c := When(IsLate(prev, cur), LateFrame(prev.complete, cur.complete));
    var d := When(cur.crcErrors > prev.crcErrors, CrcErrors(cur.crcErrors));
    CrcReportsConcat(a + b + c, d);
    CrcReportsConcat(a + b, c);
    CrcReportsConcat(a, b);
  }

  lemma CrcReportsOfChecks(queue: seq<Entry>)
    requires |queue| >= 2
    ensures var n := |queue| - 1;
            CrcReports(Checks(queue)) ==
            CrcReports(Checks(queue[..n])) +
            if queue[n].crcErrors > queue[n - 1].crcErrors then [queue[n].crcErrors] else []
  {
    var n := |queue| - 1;
    CrcReportsConcat(Checks(queue[..n]), Check(queue[n - 1], queue[n]));
    CrcReportsOfCheck(queue[n - 1], queue[n]);
  }

  /** The counts between two numbers, the lower one excluded. */
  function CountsFrom(lo: nat, hi: nat): (r: seq<nat>)
    requires lo <= hi
    ensures |r| == hi - lo && forall k :: 0 <= k < |r| ==> r[k] == lo + 1 + k
  {
    seq(hi - lo, k requires 0 <= k < hi - lo => lo + 1 + k)
  }

  lemma MismatchesStep(s: Settings, frames: seq<Frame>, k: nat)
    requires k + 1 < |frames|
    ensures var a, b := Mismatches(s, frames[..k + 1]), Mismatches(s, frames[..k + 2]); a <= b <= a + 1
  {
    assert frames[..k + 2][..k + 1] == frames[..k + 1];
  }

  lemma CountsExtend(lo: nat, mid: nat, hi: nat)
    requires lo <= mid <= hi <= mid + 1
    ensures CountsFrom(lo, hi) == CountsFrom(lo, mid) + if hi > mid then [hi] else []
  {
  }

  ghost predicate StepsByOne(queue: seq<Entry>) {
    forall k :: 0 <= k < |queue| - 1 ==> queue[k].crcErrors <= queue[k + 1].crcErrors <= queue[k].crcErrors + 1
  }

  lemma {:induction false} ChecksReportEveryCount(queue: seq<Entry>)
    requires queue != [] && StepsByOne(queue)
    ensures queue[0].crcErrors <= queue[|queue| - 1].crcErrors
    ensures CrcReports(Checks(queue)) == CountsFrom(queue[0].crcErrors, queue[|queue| - 1].crcErrors)
  {
    var n := |queue| - 1;
    if n == 0 {
    } else {
      var init, prev, cur := queue[..n], queue[n - 1], queue[n];
      assert prev.crcErrors <= queue[(n - 1) + 1].crcErrors <= prev.crcErrors + 1;
      ChecksReportEveryCount(init);
      CrcReportsOfChecks(queue);
      CountsExtend(queue[0].crcErrors, prev.crcErrors, cur.crcErrors);
    }
  }

  lemma AccountsStepByOne(s: Settings, p: Pipeline, frames: seq<Frame>)
    requires Accounts(s, p, frames)
    ensures StepsByOne(p.queue)
  {
    forall k | 0 <= k < |p.queue| - 1
      ensures p.queue[k].crcErrors <= p.queue[k + 1].crcErrors <= p.queue[k].crcErrors + 1
    {
      assert Describes(s, frames, k, p.queue[k]) && Describes(s, frames, k + 1, p.queue[k + 1]);
      MismatchesStep(s, frames, k);
    }
  }

  /** Over any run each new error count is reported exactly once, in order: the reports number the
      last recorded count minus the first. A mismatch in the very first frame is never reported. */
  lemma EveryErrorReported(s: Settings, events: seq<Event>)
    requires Run(s, events).queue != []
    ensures var p := Run(s, events);
            var first, last := p.queue[0].crcErrors, p.queue[|p.queue| - 1].crcErrors;
            && |Frames(events)| >= 1
            && first == Mismatches(s, Frames(events)[..1])
            && first <= last
            && CrcReports(p.log) == CountsFrom(first, last)
  {
    RunAccounts(s, events);
    var p, frames := Run(s, events), Frames(events);
    AccountsStepByOne(s, p, frames);
    ChecksReportEveryCount(p.queue);
    assert Describes(s, frames, 0, p.queue[0]);
  }

  /** The reports number the recorded mismatches if and only if the first frame is none. */
  lemma ReportsNumberMismatches(s: Settings, events: seq<Event>)
    requires Run(s, events).queue != []
    ensures var p, frames := Run(s, events), Frames(events);
            && 0 < |p.queue| <= |frames|
            && (|CrcReports(p.log)| == Mismatches(s, frames[..|p.queue|]) <==> !Mismatch(s, frames[0]))
  {
    EveryErrorReported(s, events);
    RunAccounts(s, events);
    var p, frames := Run(s, events), Frames(events);
    var n := |p.queue| - 1;
    assert Describes(s, frames, n, p.queue[n]);
    FirstMismatch(s, frames);
  }

  lemma FirstMismatch(s: Settings, frames: seq<Frame>)
    requires frames != []
    ensures Mismatches(s, frames[..1]) == if Mismatch(s, frames[0]) then 1 else 0
  {
    assert frames[..1][..0] == [];
  }

  /** A run in which it is one: the mismatch is counted and recorded, and nothing is reported. */
  lemma FirstMismatchUnreported(f: Frame, complete: real, now: real)
    requires f.number == 0 && f.crc == 0 && f.calculated == 0
    ensures var s, events := Settings(1, f.bytes), [Profile(f), Monitor(complete, now)];
            && Frames(events) == [f] && Mismatch(s, f)
            && |Run(s, events).queue| == 1 && Run(s, events).queue[0].crcErrors == 1
            && CrcReports(Run(s, events).log) == []
  {
    var s, first, events := Settings(1, f.bytes), [Profile(f)], [Profile(f), Monitor(complete, now)];
    InvertedZero();
    assert first[..0] == [] && events[..1] == first;
    assert Frames(first) == [f];
    assert Run(s, first) == Pipeline(1, [MetadataOf(s, f, 1)], [], []);
    assert Run(s, events).log == [];
  }

  lemma InvertedZero()
    ensures Inverted(0) != 0
  {
    assert (0 as bv32) ^ 0xFFFF_FFFF == 0xFFFF_FFFF;
  }
}
