/** The kernel's threads running together: each advances one load or store at a time, in whatever
    order a scheduler picks. */
module ColorizeThreads {
  import opened Colorize

  /** A thread's program point, 0 to 6, and the word it has loaded but not yet stored. */
  datatype Local = Local(pc: nat, reg: nat)

  datatype Gpu = Gpu(buf: seq<nat>, locals: map<Thread, Local>) {
    function At(th: Thread): Local { if th in locals then locals[th] else Local(0, 0) }
  }

  const DONE := 6

  /** The next memory access of thread `th`: per channel a load, then a store; untinted channels
      are skipped, and a thread past the edge stops at once. */
  function Step(img: Image, g: Gpu, th: Thread): (r: Gpu)
    requires img.Valid() && Fits(img, |g.buf|)
    ensures |r.buf| == |g.buf|
  {
    var l := g.At(th);
    if l.pc >= DONE then g
    else if !OnImage(img, th) then g.(locals := g.locals[th := Local(DONE, 0)])
    else
      var c := l.pc / 2;
      OwnedWord(img, th, c, |g.buf|);
      var i := WordOf(img, th.X(), th.Y(), c);
      if l.pc % 2 == 1 then
        Gpu(g.buf[i := Blend(l.reg, img.tint[c], img.opacity)], g.locals[th := Local(l.pc + 1, 0)])
      else if img.tint[c] == 0 then g.(locals := g.locals[th := Local(l.pc + 2, 0)])
      else g.(locals := g.locals[th := Local(l.pc + 1, g.buf[i])])
  }

  function Run(img: Image, buf: seq<nat>, schedule: seq<Thread>): (g: Gpu)
    requires img.Valid() && Fits(img, |buf|)
    ensures |g.buf| == |buf|
  {
    if schedule == [] then Gpu(buf, map[])
    else
      var n := |schedule| - 1;
      Step(img, Run(img, buf, schedule[..n]), schedule[n])
  }

  // ----- the invariant of every interleaving

  /** The owner of word `i` has stored it. */
  predicate Stored(img: Image, g: Gpu, i: nat) {
    InImage(img, i) && g.At(ThreadOf(Column(img, i), Row(img, i))).pc >= 2 * Channel(img, i) + 2
  }

  /** Every word is its initial or its blended value, blended exactly when its owner stored it. */
  ghost predicate WordsSettled(img: Image, g: Gpu, init: seq<nat>)
    requires img.Valid()
  {
    && |g.buf| == |init|
    && forall i :: 0 <= i < |init| ==>
         g.buf[i] == if Stored(img, g, i) then BlendedWord(img, i, init[i]) else init[i]
  }

  /** Between its load and its store a thread holds the initial value of the word. */
  ghost predicate LoadFresh(img: Image, l: Local, th: Thread, init: seq<nat>)
    requires img.Valid() && Fits(img, |init|)
  {
    && l.pc <= DONE
    && (l.pc % 2 == 1 ==>
          && OnImage(img, th)
          && img.tint[l.pc / 2] > 0
          && (OwnedWord(img, th, l.pc / 2, |init|);
              l.reg == init[WordOf(img, th.X(), th.Y(), l.pc / 2)]))
  }

  ghost predicate LoadsFresh(img: Image, g: Gpu, init: seq<nat>)
    requires img.Valid() && Fits(img, |init|)
  {
    forall th: Thread :: LoadFresh(img, g.At(th), th, init)
  }

  lemma StepStored(img: Image, g: Gpu, th: Thread, i: nat)
    requires img.Valid() && Fits(img, |g.buf|) && InGrid(img, th) && InImage(img, i)
    ensures !Owns(img, th, i) ==> (Stored(img, Step(img, g, th), i) <==> Stored(img, g, i))
    ensures Owns(img, th, i) ==> g.At(ThreadOf(Column(img, i), Row(img, i))) == g.At(th)
    ensures Owns(img, th, i) ==> ThreadOf(Column(img, i), Row(img, i)) == th
  {
    GridCoversPixels(img, Column(img, i), Row(img, i));
  }

  lemma StepSettles(img: Image, g: Gpu, th: Thread, init: seq<nat>)
    requires img.Valid() && Fits(img, |init|) && InGrid(img, th)
    requires WordsSettled(img, g, init) && LoadsFresh(img, g, init)
    ensures WordsSettled(img, Step(img, g, th), init)
  {
    var g' := Step(img, g, th);
    forall i | 0 <= i < |init|
      ensures g'.buf[i] == if Stored(img, g', i) then BlendedWord(img, i, init[i]) else init[i]
    {
      if InImage(img, i) {
        StepStored(img, g, th, i);
        WordOfCoordinates(img, i);
      }
      if OnImage(img, th) && g.At(th).pc < DONE {
        OwnedWord(img, th, g.At(th).pc / 2, |init|);
      }
    }
  }

  lemma StepLoadFresh(img: Image, g: Gpu, th: Thread, init: seq<nat>)
    requires img.Valid() && Fits(img, |init|) && InGrid(img, th)
    requires WordsSettled(img, g, init) && LoadFresh(img, g.At(th), th, init)
    ensures LoadFresh(img, Step(img, g, th).At(th), th, init)
  {
    var l := g.At(th);
    Halves(l.pc);
    if OnImage(img, th) && l.pc < DONE && l.pc % 2 == 0 {
      OwnedWord(img, th, l.pc / 2, |init|);
      NotYetStored(img, g, th, init);
    }
  }

  lemma Halves(pc: nat)
    ensures (pc + 2) % 2 == pc % 2 && (pc % 2 == 0 ==> (pc + 1) / 2 == pc / 2)
    ensures (pc + 1) % 2 == 1 <==> pc % 2 == 0
  {
  }

  /** A word that its thread is about to load is as it was. */
  lemma NotYetStored(img: Image, g: Gpu, th: Thread, init: seq<nat>)
    requires img.Valid() && Fits(img, |init|) && InGrid(img, th) && WordsSettled(img, g, init)
    requires OnImage(img, th) && g.At(th).pc < DONE && g.At(th).pc % 2 == 0
    ensures var i := WordOf(img, th.X(), th.Y(), g.At(th).pc / 2); i < |init| && g.buf[i] == init[i]
  {
    var c := g.At(th).pc / 2;
    OwnedWord(img, th, c, |init|);
    var i := WordOf(img, th.X(), th.Y(), c);
    StepStored(img, g, th, i);
    assert !Stored(img, g, i);
  }

  lemma StepLoadsFresh(img: Image, g: Gpu, th: Thread, init: seq<nat>)
    requires img.Valid() && Fits(img, |init|) && InGrid(img, th)
    requires WordsSettled(img, g, init) && LoadsFresh(img, g, init)
    ensures LoadsFresh(img, Step(img, g, th), init)
  {
    assert LoadFresh(img, g.At(th), th, init);
    StepLoadFresh(img, g, th, init);
    var g' := Step(img, g, th);
    forall o: Thread ensures LoadFresh(img, g'.At(o), o, init) {
      assert LoadFresh(img, g.At(o), o, init);
      assert o != th ==> g'.At(o) == g.At(o);
    }
  }

  /** At every point of every interleaving no word is torn and no update is lost. */
  lemma {:induction false} RunSettles(img: Image, init: seq<nat>, schedule: seq<Thread>)
    requires img.Valid() && Fits(img, |init|)
    requires forall k :: 0 <= k < |schedule| ==> InGrid(img, schedule[k])
    ensures WordsSettled(img, Run(img, init, schedule), init)
    ensures LoadsFresh(img, Run(img, init, schedule), init)
  {
    if schedule == [] {
    } else {
      var n := |schedule| - 1;
      RunSettles(img, init, schedule[..n]);
      var g := Run(img, init, schedule[..n]);
      StepSettles(img, g, schedule[n], init);
      StepLoadsFresh(img, g, schedule[n], init);
    }
  }

  /** A thread scheduled six times has finished. */
  lemma {:induction false} ScheduledOften(img: Image, init: seq<nat>, schedule: seq<Thread>, th: Thread)
    requires img.Valid() && Fits(img, |init|)
    ensures var pc := Run(img, init, schedule).At(th).pc;
            pc >= DONE || pc >= multiset(schedule)[th]
  {
    if schedule == [] {
    } else {
      var n := |schedule| - 1;
      assert schedule == schedule[..n] + [schedule[n]];
      ScheduledOften(img, init, schedule[..n], th);
    }
  }

  /** Main result: any interleaving that gives every thread of the grid its turns ends with the
      blended image, the same as running the threads one after another. */
  lemma InterleavingsAgree(img: Image, init: seq<nat>, schedule: seq<Thread>)
    requires img.Valid() && Fits(img, |init|)
    requires forall k :: 0 <= k < |schedule| ==> InGrid(img, schedule[k])
    requires forall th: Thread :: InGrid(img, th) ==> multiset(schedule)[th] >= DONE
    ensures Run(img, init, schedule).buf == Blended(img, init)
  {
    RunSettles(img, init, schedule);
    var g := Run(img, init, schedule);
    forall i | 0 <= i < |init| && InImage(img, i) ensures Stored(img, g, i) {
      var th := ThreadOf(Column(img, i), Row(img, i));
      GridCoversPixels(img, Column(img, i), Row(img, i));
      ScheduledOften(img, init, schedule, th);
    }
  }
}
