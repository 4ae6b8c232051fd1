/**
 The count of active connections shared by all workers: an atomic increment, and a decrement
 that loads the count, gives up on zero, and retries its compare-and-exchange until it succeeds.
 Every atomic access is a step; the workers take them in any interleaving.
 */
module SharedCount {

  /** What a worker is doing with the shared count. */
  datatype Phase = Outside | Loading | Exchanging(before: int)

  /** `stored` is the number of connections the worker has stored and counted. */
  datatype Worker = Worker(stored: int, phase: Phase)

  /** `underflows` counts the decrements that found zero and were given up. */
  datatype System = System(count: int, workers: seq<Worker>, underflows: nat)

  datatype Event = Increment | BeginDecrement | Load | Exchange

  /** A worker counts down only for a connection it has stored (`Lifecycle.CountNeverUnderflows`). */
  predicate Enabled(s: System, i: nat, ev: Event) {
    && i < |s.workers|
    && match ev
       case Increment => s.workers[i].phase.Outside?
       case BeginDecrement => s.workers[i].phase.Outside? && s.workers[i].stored > 0
       case Load => s.workers[i].phase.Loading?
       case Exchange => s.workers[i].phase.Exchanging?
  }

  function Step(s: System, i: nat, ev: Event): (r: System)
    requires Enabled(s, i, ev)
  {
    var w := s.workers[i];
    match ev
    case Increment => s.(count := s.count + 1, workers := s.workers[i := w.(stored := w.stored + 1)])
    case BeginDecrement => s.(workers := s.workers[i := w.(phase := Loading)])
    case Load =>
      if s.count == 0
      then s.(workers := s.workers[i := w.(phase := Outside)], underflows := s.underflows + 1)
      else s.(workers := s.workers[i := w.(phase := Exchanging(s.count))])
    case Exchange =>
      if s.count == w.phase.before
      then s.(count := w.phase.before - 1,
              workers := s.workers[i := w.(phase := Outside, stored := w.stored - 1)])
      else s.(workers := s.workers[i := w.(phase := Loading)])
  }

  function Total(workers: seq<Worker>): (n: int) {
    if workers == [] then 0 else workers[0].stored + Total(workers[1..])
  }

  /** The shared count is the sum, and whoever is counting down has something to count. */
  predicate Exact(s: System) {
    && s.count == Total(s.workers) && s.underflows == 0
    && (forall i :: 0 <= i < |s.workers| ==> s.workers[i].stored >= 0)
    && forall i :: 0 <= i < |s.workers| ==>
         && (!s.workers[i].phase.Outside? ==> s.workers[i].stored > 0)
         && (s.workers[i].phase.Exchanging? ==> s.workers[i].phase.before > 0)
  }

  lemma {:induction false} TotalOfUpdate(ws: seq<Worker>, i: nat, w: Worker)
    requires i < |ws|
    ensures Total(ws[i := w]) == Total(ws) - ws[i].stored + w.stored
    ensures (forall k :: 0 <= k < |ws| ==> ws[k].stored >= 0) ==> Total(ws) >= ws[i].stored && Total(ws) >= 0
  {
    if ws[1..] != [] {
      TotalOfUpdate(ws[1..], 0, w);
    }
    if i == 0 {
      assert ws[i := w][1..] == ws[1..];
    } else {
      assert ws[i := w][1..] == ws[1..][i - 1 := w];
      TotalOfUpdate(ws[1..], i - 1, w);
    }
  }

  lemma StepIsExact(s: System, i: nat, ev: Event)
    requires Exact(s) && Enabled(s, i, ev)
    ensures Exact(Step(s, i, ev))
  {
    TotalOfUpdate(s.workers, i, Step(s, i, ev).workers[i]);
  }

  predicate IsStart(s: System) {
    s.count == 0 && s.underflows == 0 && forall i :: 0 <= i < |s.workers| ==> s.workers[i] == Worker(0, Outside)
  }

  lemma {:induction false} TotalOfNone(ws: seq<Worker>)
    requires forall i :: 0 <= i < |ws| ==> ws[i].stored == 0
    ensures Total(ws) == 0
  {
    if ws != [] {
      TotalOfNone(ws[1..]);
    }
  }

  ghost predicate IsRun(run: seq<System>, who: seq<nat>, evs: seq<Event>) {
    && |run| == |who| + 1 && |evs| == |who| && IsStart(run[0])
    && forall k :: 0 <= k < |who| ==> Enabled(run[k], who[k], evs[k]) && run[k + 1] == Step(run[k], who[k], evs[k])
  }

  /**
   Under every interleaving the shared count is the number of connections the workers have
   stored, so a decrement never finds zero and none is ever given up.
   */
  lemma {:induction false} CountTheorem(run: seq<System>, who: seq<nat>, evs: seq<Event>, n: nat)
    requires IsRun(run, who, evs) && n < |run|
    ensures run[n].count == Total(run[n].workers) && run[n].underflows == 0 && Exact(run[n])
  {
    hide Step;
    if n == 0 {
      TotalOfNone(run[0].workers);
    } else {
      CountTheorem(run, who, evs, n - 1);
      assert Enabled(run[n - 1], who[n - 1], evs[n - 1]);
      StepIsExact(run[n - 1], who[n - 1], evs[n - 1]);
    }
  }
}
