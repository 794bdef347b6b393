/** Timing of GPIO event pairs: each end event is paired with the start event last seen. */
module EventPairing {
  import opened Options
  import opened Statistics
  import opened TensorOps

  /** A callback: which GPIO changed, the interrupt state, and the time. */
  datatype Event = Event(gpio1: bool, state: int, seconds: nat, nanoseconds: nat) {
    function Time(): real { seconds as real * 1000000000.0 + nanoseconds as real }
    predicate Starts() { !gpio1 && state == 0x40000 }
    predicate Ends() { gpio1 && state == 0xC0000 }
  }

  /** Bit 18 alone starts, bits 18 and 19 end, each on its own GPIO; times are nanoseconds. */
  lemma EventIs(e: Event)
    ensures e.Starts() <==> !e.gpio1 && e.state == 262144
    ensures e.Ends() <==> e.gpio1 && e.state == 262144 + 524288
    ensures e.Time() == (1000000000 * e.seconds + e.nanoseconds) as real
  {
  }

  // ----- the pairing

  /** The position of the latest qualifying start. */
  function LatestStart(events: seq<Event>): (i: Option<nat>)
    ensures i.Some? ==> i.value < |events| && events[i.value].Starts()
    ensures forall j :: (if i.Some? then i.value + 1 else 0) <= j < |events| ==> !events[j].Starts()
  {
    if events == [] then None
    else
      var n := |events| - 1;
      if events[n].Starts() then Some(n) else LatestStart(events[..n])
  }

  /** The pair that the last event completes, if any. */
  function NewPair(events: seq<Event>): seq<(nat, nat)>
    requires events != []
  {
    var n := |events| - 1;
    var start := LatestStart(events[..n]);
    if events[n].Ends() && start.Some? then [(start.value, n)] else []
  }

  /** The positions of each pair's start and end. */
  function Pairs(events: seq<Event>): seq<(nat, nat)> {
    if events == [] then []
    else
      Pairs(events[..|events| - 1]) + NewPair(events)
  }

  /** `i` is the last qualifying start before the qualifying end `j`. */
  ghost predicate Matches(events: seq<Event>, i: nat, j: nat) {
    && i < j < |events| && events[i].Starts() && events[j].Ends()
    && forall k :: i < k < j ==> !events[k].Starts()
  }

  ghost predicate AllMatch(events: seq<Event>, ps: seq<(nat, nat)>) {
    forall k :: 0 <= k < |ps| ==> Matches(events, ps[k].0, ps[k].1)
  }

  ghost predicate EndsAscend(ps: seq<(nat, nat)>) {
    forall k, l :: 0 <= k < l < |ps| ==> ps[k].1 < ps[l].1
  }

  /** Pairs match, their ends are in order, and every end with a start before it is paired. */
  ghost predicate IsPairing(events: seq<Event>, ps: seq<(nat, nat)>) {
    && AllMatch(events, ps)
    && EndsAscend(ps)
    && (forall i: nat, j: nat :: Matches(events, i, j) ==> (i, j) in ps)
  }

  lemma {:induction false} PairsArePairing(events: seq<Event>)
    ensures IsPairing(events, Pairs(events))
  {
    if events == [] {
    } else {
      var before := events[..|events| - 1];
      PairsArePairing(before);
      NewPairMatches(events);
      PairingExtends(events, Pairs(before), NewPair(events));
    }
  }

  /** The last event makes the pair it should, or none. */
  lemma NewPairMatches(events: seq<Event>)
    requires events != []
    ensures IsNewPair(events, NewPair(events))
  {
    var n := |events| - 1;
    var start := LatestStart(events[..n]);
    if events[n].Ends() && start.Some? {
      LatestMatches(events, start.value);
    }
    forall i: nat | Matches(events, i, n) ensures NewPair(events) == [(i, n)] {
      LatestOfMatch(events, i, n);
    }
  }

  ghost predicate IsNewPair(events: seq<Event>, last: seq<(nat, nat)>)
    requires events != []
  {
    && |last| <= 1 && AllMatch(events, last)
    && (last != [] ==> last[0].1 == |events| - 1)
    && var n := |events| - 1; forall i: nat :: Matches(events, i, n) ==> last == [(i, n)]
  }

  lemma PairingExtends(events: seq<Event>, ps: seq<(nat, nat)>, last: seq<(nat, nat)>)
    requires events != [] && IsNewPair(events, last) && IsPairing(events[..|events| - 1], ps)
    ensures IsPairing(events, ps + last)
  {
    var n := |events| - 1;
    MatchesStay(events, n, ps);
    forall i: nat, j: nat | Matches(events, i, j) ensures (i, j) in ps + last {
      MatchListed(events, ps, last, i, j);
    }
  }

  lemma MatchListed(events: seq<Event>, ps: seq<(nat, nat)>, last: seq<(nat, nat)>, i: nat, j: nat)
    requires events != [] && IsNewPair(events, last) && IsPairing(events[..|events| - 1], ps)
    requires Matches(events, i, j)
    ensures (i, j) in ps + last
  {
    var n := |events| - 1;
    if j < n {
      MatchesInPrefix(events, n, i, j);
      assert (i, j) in ps;
    } else {
      assert last[0] == (i, j);
    }
  }

  lemma MatchesStay(events: seq<Event>, n: nat, ps: seq<(nat, nat)>)
    requires n < |events| && AllMatch(events[..n], ps)
    ensures AllMatch(events, ps) && forall k :: 0 <= k < |ps| ==> ps[k].1 < n
  {
    forall k | 0 <= k < |ps| ensures Matches(events, ps[k].0, ps[k].1) && ps[k].1 < n {
      MatchesInPrefix(events, n, ps[k].0, ps[k].1);
    }
  }

  lemma LatestMatches(events: seq<Event>, i: nat)
    requires events != [] && events[|events| - 1].Ends() && LatestStart(events[..|events| - 1]) == Some(i)
    ensures Matches(events, i, |events| - 1)
  {
    var n := |events| - 1;
    assert events[i] == events[..n][i];
    forall k | i < k < n ensures !events[k].Starts() {
      assert events[k] == events[..n][k];
    }
  }

  lemma MatchesInPrefix(events: seq<Event>, n: nat, i: nat, j: nat)
    requires n < |events|
    ensures Matches(events[..n], i, j) <==> Matches(events, i, j) && j < n
  {
    if Matches(events[..n], i, j) {
      forall k | i < k < j ensures !events[k].Starts() {
        assert events[k] == events[..n][k];
      }
    }
  }

  lemma LatestOfMatch(events: seq<Event>, i: nat, n: nat)
    requires Matches(events, i, n)
    ensures LatestStart(events[..n]) == Some(i)
  {
    assert events[..n][i].Starts();
  }

  /** There is one such pairing, so it says all there is to say. */
  lemma {:induction false} PairingUnique(events: seq<Event>, ps: seq<(nat, nat)>, qs: seq<(nat, nat)>)
    requires IsPairing(events, ps) && IsPairing(events, qs)
    ensures ps == qs
  {
    forall p | p in ps ensures p in qs {
      assert Matches(events, p.0, p.1);
    }
    forall q | q in qs ensures q in ps {
      assert Matches(events, q.0, q.1);
    }
    assert PairSet(ps) == PairSet(qs);
    AscendingUnique(ps, qs);
  }

  ghost function PairSet(ps: seq<(nat, nat)>): set<(nat, nat)> { set p | p in ps }

  lemma {:induction false} AscendingUnique(ps: seq<(nat, nat)>, qs: seq<(nat, nat)>)
    requires EndsAscend(ps) && EndsAscend(qs) && PairSet(ps) == PairSet(qs)
    ensures ps == qs
  {
    if ps == [] {
      FirstInSet(qs);
    } else {
      FirstInSet(ps);
      LastUnique(ps, qs);
      DropLast(ps);
      DropLast(qs);
      AscendingUnique(ps[..|ps| - 1], qs[..|qs| - 1]);
      SplitLast(ps);
      SplitLast(qs);
    }
  }

  lemma FirstInSet(ps: seq<(nat, nat)>)
    ensures ps == [] <==> PairSet(ps) == {}
  {
    if ps != [] {
      assert ps[0] in PairSet(ps);
    }
  }

  lemma DropLast(ps: seq<(nat, nat)>)
    requires EndsAscend(ps) && ps != []
    ensures PairSet(ps[..|ps| - 1]) == PairSet(ps) - {ps[|ps| - 1]} && EndsAscend(ps[..|ps| - 1])
  {
    SplitLast(ps);
  }

  lemma LastUnique(ps: seq<(nat, nat)>, qs: seq<(nat, nat)>)
    requires EndsAscend(ps) && EndsAscend(qs) && ps != [] && qs != [] && PairSet(ps) == PairSet(qs)
    ensures ps[|ps| - 1] == qs[|qs| - 1]
  {
    var p, q := ps[|ps| - 1], qs[|qs| - 1];
    assert p in PairSet(qs) && q in PairSet(ps);
    var i :| 0 <= i < |qs| && qs[i] == p;
    var j :| 0 <= j < |ps| && ps[j] == q;
  }

  // ----- the listener

  ghost predicate InRange(events: seq<Event>, ps: seq<(nat, nat)>) {
    forall k :: 0 <= k < |ps| ==> ps[k].0 < |events| && ps[k].1 < |events|
  }

  lemma PairsListed(events: seq<Event>)
    ensures AllMatch(events, Pairs(events)) && EndsAscend(Pairs(events)) && InRange(events, Pairs(events))
  {
    PairsArePairing(events);
    var ps := Pairs(events);
    forall k | 0 <= k < |ps| ensures ps[k].0 < |events| && ps[k].1 < |events| {
      assert Matches(events, ps[k].0, ps[k].1);
    }
  }

  function StartsOf(events: seq<Event>, ps: seq<(nat, nat)>): (r: seq<real>)
    requires InRange(events, ps)
  {
    seq(|ps|, k requires 0 <= k < |ps| => events[ps[k].0].Time())
  }

  function EndsOf(events: seq<Event>, ps: seq<(nat, nat)>): (r: seq<real>)
    requires InRange(events, ps)
  {
    seq(|ps|, k requires 0 <= k < |ps| => events[ps[k].1].Time())
  }

  function StartTimes(events: seq<Event>): (r: seq<real>)
    ensures |r| == |Pairs(events)|
  {
    PairsListed(events);
    StartsOf(events, Pairs(events))
  }

  function EndTimes(events: seq<Event>): (r: seq<real>)
    ensures |r| == |Pairs(events)|
  {
    PairsListed(events);
    EndsOf(events, Pairs(events))
  }

  /** The time of the latest qualifying start. */
  function LastStartTime(events: seq<Event>): Option<real> {
    match LatestStart(events)
    case None => None
    case Some(i) => Some(events[i].Time())
  }

  lemma TimesStay(events: seq<Event>, e: Event, ps: seq<(nat, nat)>, last: seq<(nat, nat)>)
    requires InRange(events, ps) && InRange(events + [e], last)
    ensures InRange(events + [e], ps + last)
    ensures StartsOf(events + [e], ps + last) == StartsOf(events, ps) + StartsOf(events + [e], last)
    ensures EndsOf(events + [e], ps + last) == EndsOf(events, ps) + EndsOf(events + [e], last)
  {
  }

  /** What one more event does to the times. */
  lemma TimesSnoc(events: seq<Event>, e: Event)
    ensures LastStartTime(events + [e]) == if e.Starts() then Some(e.Time()) else LastStartTime(events)
    ensures var start := LastStartTime(events);
            if e.Ends() && start.Some?
            then StartTimes(events + [e]) == StartTimes(events) + [start.value] &&
                 EndTimes(events + [e]) == EndTimes(events) + [e.Time()]
            else StartTimes(events + [e]) == StartTimes(events) && EndTimes(events + [e]) == EndTimes(events)
  {
    var all := events + [e];
    assert all[..|events|] == events;
    PairsListed(events);
    PairsListed(all);
    var last := NewPair(all);
    assert Pairs(all) == Pairs(events) + last;
    assert InRange(all, last);
    TimesStay(events, e, Pairs(events), last);
  }

  /** The reported statistics, in nanoseconds. */
  datatype Timing = Timing(pairs: nat, least: real, average: real, greatest: real)

  class AsyncEventPrinter {
    ghost var history: seq<Event>
    var lastStart: Option<real>
    var starts: seq<real>
    var ends: seq<real>

    ghost predicate Valid()
      reads this
    {
      lastStart == LastStartTime(history) && starts == StartTimes(history) && ends == EndTimes(history)
    }

    constructor ()
      ensures Valid() && history == []
    {
      history, lastStart, starts, ends := [], None, [], [];
    }

    method OnGpio0Event(state: int, seconds: nat, nanoseconds: nat)
      requires Valid()
      modifies this
      ensures Valid() && history == old(history) + [Event(false, state, seconds, nanoseconds)]
      ensures starts == old(starts) && ends == old(ends)
      ensures lastStart ==
              if state == 262144 then Some((1000000000 * seconds + nanoseconds) as real) else old(lastStart)
    {
      if state == 0x40000 {
        lastStart := Some(seconds as real * 1000000000.0 + nanoseconds as real);
      }
      TimesSnoc(history, Event(false, state, seconds, nanoseconds));
      history := history + [Event(false, state, seconds, nanoseconds)];
    }

    method OnGpio1Event(state: int, seconds: nat, nanoseconds: nat)
      requires Valid()
      modifies this
      ensures Valid() && history == old(history) + [Event(true, state, seconds, nanoseconds)]
      ensures lastStart == old(lastStart)
      ensures if state == 786432 && lastStart.Some?
              then starts == old(starts) + [lastStart.value] &&
                   ends == old(ends) + [(1000000000 * seconds + nanoseconds) as real]
              else starts == old(starts) && ends == old(ends)
    {
      if state == 0xC0000 {
        if lastStart.Some? {
          starts := starts + [lastStart.value];
          ends := ends + [seconds as real * 1000000000.0 + nanoseconds as real];
        }
      }
      TimesSnoc(history, Event(true, state, seconds, nanoseconds));
      history := history + [Event(true, state, seconds, nanoseconds)];
    }

    /** Discards the first ten pairs and the last; with eleven or fewer there is nothing to report. */
    method Report() returns (t: Option<Timing>)
      requires Valid()
      ensures t.Some? <==> |Pairs(history)| > 11
      ensures t.Some? ==> Summarizes(t.value, Deltas(history))
    {
      if starts == [] || ends == [] { return None; }
      var deltas := Differences(starts, ends);
      assert deltas == Deltas(history);
      if |deltas| <= 11 { return None; }
      t := Some(Summary(deltas));
    }
  }

  /** The end minus the start of each pair, as many as both lists have. */
  method Differences(starts: seq<real>, ends: seq<real>) returns (deltas: seq<real>)
    ensures |deltas| == if |starts| < |ends| then |starts| else |ends|
    ensures forall k :: 0 <= k < |deltas| ==> deltas[k] == ends[k] - starts[k]
  {
    var pairs := if |starts| < |ends| then |starts| else |ends|;
    deltas := [];
    for i := 0 to pairs
      invariant |deltas| == i && forall k :: 0 <= k < i ==> deltas[k] == ends[k] - starts[k]
    {
      deltas := deltas + [ends[i] - starts[i]];
    }
  }

  /** Minimum, mean and maximum of all but the first ten deltas and the last. */
  function Summary(deltas: seq<real>): (t: Timing)
    requires |deltas| > 11
    ensures Summarizes(t, deltas)
  {
    var kept := deltas[10..|deltas| - 1];
    MeanBounds(kept, Min(kept), Max(kept));
    Timing(|kept|, Min(kept), Sum(kept) / |kept| as real, Max(kept))
  }

  function Deltas(events: seq<Event>): (r: seq<real>)
    ensures |r| == |Pairs(events)|
  {
    seq(|Pairs(events)|, k requires 0 <= k < |Pairs(events)| => EndTimes(events)[k] - StartTimes(events)[k])
  }

  /** The statistics cover all but eleven of the values and are ordered. */
  ghost predicate Summarizes(t: Timing, deltas: seq<real>) {
    && |deltas| > 11
    && var kept := deltas[10..|deltas| - 1];
       && t.pairs == |kept| == |deltas| - 11
       && t.least in kept && t.greatest in kept
       && (forall k :: 0 <= k < |kept| ==> t.least <= kept[k] <= t.greatest)
       && t.average == Mean(kept)
       && t.least <= t.average <= t.greatest
  }

  ghost predicate TimesAdvance(events: seq<Event>) {
    forall i, j :: 0 <= i < j < |events| ==> events[i].Time() <= events[j].Time()
  }

  /** If time never goes back, no delta is negative and starts and ends are in order. */
  lemma AdvancingTimes(events: seq<Event>)
    requires TimesAdvance(events)
    ensures forall k :: 0 <= k < |Deltas(events)| ==> Deltas(events)[k] >= 0.0
    ensures forall k, l :: 0 <= k < l < |Deltas(events)| ==>
              StartTimes(events)[k] <= StartTimes(events)[l] && EndTimes(events)[k] <= EndTimes(events)[l]
  {
    PairsListed(events);
    var ps := Pairs(events);
    PairTimesAdvance(events, ps);
    assert StartTimes(events) == StartsOf(events, ps) && EndTimes(events) == EndsOf(events, ps);
    forall k | 0 <= k < |ps| ensures Deltas(events)[k] >= 0.0 {
      assert StartsOf(events, ps)[k] <= EndsOf(events, ps)[k];
    }
  }

  lemma PairTimesAdvance(events: seq<Event>, ps: seq<(nat, nat)>)
    requires TimesAdvance(events) && AllMatch(events, ps) && EndsAscend(ps) && InRange(events, ps)
    ensures forall k :: 0 <= k < |ps| ==> StartsOf(events, ps)[k] <= EndsOf(events, ps)[k]
    ensures forall k, l :: 0 <= k < l < |ps| ==>
              StartsOf(events, ps)[k] <= StartsOf(events, ps)[l] && EndsOf(events, ps)[k] <= EndsOf(events, ps)[l]
  {
    forall k, l | 0 <= k < l < |ps|
      ensures StartsOf(events, ps)[k] <= StartsOf(events, ps)[l] && EndsOf(events, ps)[k] <= EndsOf(events, ps)[l]
    {
      MatchesInOrder(events, ps[k].0, ps[k].1, ps[l].0, ps[l].1);
    }
  }

  lemma MatchesInOrder(events: seq<Event>, i: nat, j: nat, i': nat, j': nat)
    requires Matches(events, i, j) && Matches(events, i', j') && j < j' && TimesAdvance(events)
    ensures i <= i' && events[i].Time() <= events[i'].Time() && events[j].Time() <= events[j'].Time()
  {
  }
}
