/**
 Writing log lines: the vectored write that resumes after partial results, and the
 per-worker ring of formatted lines used when no writer thread runs.
 */
module AccessLogWrite {
  import opened Bits
  import opened Kernel
  import opened Pieces

  const LINE_MAX := 1024
  const FLUSH_LINES := 64
  const FLUSH_BYTES := 32768
  const FLUSH_MAX_AGE_MS := 200
  const RING_CAP := 256

  /** The vectors that remain once the first `n` bytes are out. */
  function Remaining(vs: seq<string>, n: nat): (r: seq<string>) {
    if vs == [] then []
    else if n >= |vs[0]| then Remaining(vs[1..], n - |vs[0]|)
    else [vs[0][n..]] + vs[1..]
  }

  lemma {:induction false} RemainingIsSuffix(vs: seq<string>, n: nat)
    requires n <= |Concat(vs)|
    ensures Concat(Remaining(vs, n)) == Concat(vs)[n..]
  {
    if vs != [] {
      if n >= |vs[0]| {
        RemainingIsSuffix(vs[1..], n - |vs[0]|);
      } else {
        assert ([vs[0][n..]] + vs[1..])[1..] == vs[1..];
        assert Concat(vs)[n..] == vs[0][n..] + Concat(vs[1..]);
      }
    }
  }

  lemma {:induction false} RemainingHasBytes(vs: seq<string>, n: nat)
    ensures Remaining(vs, n) != [] ==> Concat(Remaining(vs, n)) != ""
  {
    if vs != [] && n >= |vs[0]| {
      RemainingHasBytes(vs[1..], n - |vs[0]|);
    }
  }

  function Clamp(vs: seq<string>): (r: seq<string>) {
    if |vs| > FLUSH_LINES then vs[..FLUSH_LINES] else vs
  }

  /** An answer that ends the writing. */
  predicate Fails(answer: int) {
    answer <= 0 && answer != -EINTR
  }

  ghost predicate NoFailure(kernel: nat -> int, from: nat, next: nat) {
    forall k: nat :: from <= k < next ==> !Fails(kernel(k))
  }

  /** How many of `total` bytes the answers to a stretch of calls took. */
  ghost function Taken(kernel: nat -> int, from: nat, next: nat, total: nat): (n: nat)
    requires from <= next
    ensures n <= total
    decreases next
  {
    if from == next then 0
    else
      var before := Taken(kernel, from, next - 1, total);
      var answer := kernel(next - 1);
      if answer <= 0 then before else if answer > total - before then total else before + answer
  }

  /**
   Writes the vectors, resuming after every partial answer and every interruption.  It fails
   exactly at the first answer that is a failure, having written a prefix; without one it
   succeeds, and the bytes that went out are exactly the vectors in order.
   */
  method WritevAll(iov: seq<string>, kernel: nat -> int, from: nat) returns (ok: bool, written: string, next: nat)
    requires Patient(kernel)
    ensures from <= next && written <= Concat(Clamp(iov))
    ensures |written| == Taken(kernel, from, next, |Concat(Clamp(iov))|)
    ensures ok ==> written == Concat(Clamp(iov)) && NoFailure(kernel, from, next)
    ensures !ok && Concat(Clamp(iov)) != "" ==>
      written < Concat(Clamp(iov)) && from < next && NoFailure(kernel, from, next - 1) && Fails(kernel(next - 1))
    ensures Concat(Clamp(iov)) == "" ==> ok == (iov == [])
  {
    hide Concat, Clamp, Fails, Taken, NoFailure;
    NoneYet(kernel, from, |Concat(Clamp(iov))|);
    written, next := "", from;
    var cur := Clamp(iov);
    ghost var whole := Concat(cur);
    ClampIsEmpty(iov);
    assert HeardFrom(kernel, next);
    ghost var stop: nat :| stop >= next && kernel(stop) != -EINTR;
    while |cur| > 0
      invariant from <= next <= stop && kernel(stop) != -EINTR
      invariant written + Concat(cur) == whole && |written| + |Concat(cur)| == |whole|
      invariant cur != [] && whole != "" ==> Concat(cur) != ""
      invariant whole == "" ==> cur == Clamp(iov) && written == ""
      invariant NoFailure(kernel, from, next)
      invariant |written| == Taken(kernel, from, next, |whole|)
      decreases |Concat(cur)|, stop - next
    {
      var left := |Concat(cur)|;
      var wr := if kernel(next) > left then left else kernel(next);
      FailsIff(kernel(next), left);
      OneMoreCall(kernel, from, next, |whole|);
      next := next + 1;
      if wr == -EINTR {
        continue;
      }
      if wr <= 0 {
        return false, written, next;
      }
      assert HeardFrom(kernel, next);
      stop :| stop >= next && kernel(stop) != -EINTR;
      cur, written := Resume(cur, wr, written);
    }
    EmptyConcat();
    ok := true;
  }

  lemma ClampIsEmpty(iov: seq<string>)
    ensures Clamp(iov) == [] <==> iov == []
    ensures Clamp(iov) == [] ==> Concat(Clamp(iov)) == ""
  {
  }

  lemma EmptyConcat()
    ensures Concat([]) == ""
  {
  }

  lemma NoneYet(kernel: nat -> int, from: nat, total: nat)
    ensures Taken(kernel, from, from, total) == 0 && NoFailure(kernel, from, from)
  {
  }

  lemma OneMoreCall(kernel: nat -> int, from: nat, next: nat, total: nat)
    requires from <= next && NoFailure(kernel, from, next)
    ensures NoFailure(kernel, from, next + 1) <==> !Fails(kernel(next))
    ensures var before, answer := Taken(kernel, from, next, total), kernel(next);
      Taken(kernel, from, next + 1, total)
      == if answer <= 0 then before else if answer > total - before then total else before + answer
  {
  }

  /** A short answer of at most `left` bytes is a failure exactly when the kernel's was, or nothing was left. */
  lemma FailsIff(answer: int, left: nat)
    ensures var wr := if answer > left then left else answer;
      (wr == -EINTR <==> answer == -EINTR) && (left > 0 && wr != -EINTR ==> (wr <= 0 <==> Fails(answer)))
      && (wr > 0 ==> !Fails(answer)) && (wr == -EINTR ==> !Fails(answer))
  {
  }

  /** Moves on by the bytes that went out. */
  method Resume(cur: seq<string>, wr: nat, before: string) returns (rest: seq<string>, written: string)
    requires 0 < wr <= |Concat(cur)|
    ensures written + Concat(rest) == before + Concat(cur) && |written| == |before| + wr
    ensures |Concat(rest)| == |Concat(cur)| - wr
    ensures rest != [] ==> Concat(rest) != ""
  {
    RemainingIsSuffix(cur, wr);
    RemainingHasBytes(cur, wr);
    written := before + Concat(cur)[..wr];
    rest := Advance(cur, wr);
    assert Concat(cur) == Concat(cur)[..wr] + Concat(cur)[wr..];
  }

  /** Skips whole vectors covered by `wr` bytes, then trims the one it ends in. */
  method Advance(vs: seq<string>, wr: nat) returns (r: seq<string>)
    ensures r == Remaining(vs, wr)
  {
    var consumed: nat, idx := wr, 0;
    while idx < |vs| && consumed >= |vs[idx]|
      invariant idx <= |vs|
      invariant Remaining(vs[idx..], consumed) == Remaining(vs, wr)
    {
      assert vs[idx..][1..] == vs[idx + 1..];
      consumed := consumed - |vs[idx]|;
      idx := idx + 1;
    }
    r := vs[idx..];
    if r == [] {
      return;
    }
    if consumed > 0 {
      r := [r[0][consumed..]] + r[1..];
    } else {
      assert r == [r[0][0..]] + r[1..];
    }
  }

  /** Sixty-five one-byte vectors: one byte is never written, and nobody is told. */
  lemma ClampExample()
    ensures var iov := seq(65, _ => "x"); |iov| == 65 && Concat(Clamp(iov)) != Concat(iov)
  {
    var iov := seq(65, _ => "x");
    var rest := iov[FLUSH_LINES..];
    assert rest[0] == "x" && Concat(rest) == rest[0] + Concat(rest[1..]);
    ClampCoversAll(iov);
  }

  /** More than 64 vectors are cut: success covers all of them iff the rest was empty. */
  lemma ClampCoversAll(iov: seq<string>)
    ensures Concat(Clamp(iov)) == Concat(iov) <==> |iov| <= FLUSH_LINES || Concat(iov[FLUSH_LINES..]) == ""
  {
    if |iov| > FLUSH_LINES {
      assert iov == iov[..FLUSH_LINES] + iov[FLUSH_LINES..];
      ConcatAppends(iov[..FLUSH_LINES], iov[FLUSH_LINES..]);
    }
  }

  // ----- direct mode --------------------------------------------------------------------------

  function TotalLen(lines: seq<string>): (n: nat) {
    if lines == [] then 0 else TotalLen(lines[..|lines| - 1]) + |lines[|lines| - 1]|
  }

  lemma TotalLenOfSnoc(lines: seq<string>, line: string)
    ensures TotalLen(lines + [line]) == TotalLen(lines) + |line|
  {
    assert (lines + [line])[..|lines|] == lines;
  }

  /** The ring cell of the j-th pending line. */
  function Cell(tail: nat, j: nat): (i: nat)
    ensures i < RING_CAP
  {
    (tail + j) % RING_CAP
  }

  lemma Shift(tail: nat, n: nat, j: nat)
    ensures Cell(Cell(tail, n), j) == Cell(tail, n + j)
  {
    var a := tail + n;
    var q, r := a / RING_CAP, a % RING_CAP;
    var p, m := (r + j) / RING_CAP, (r + j) % RING_CAP;
    ModUnique(a + j, RING_CAP, q + p, m);
  }

  lemma NextCell(tail: nat, j: nat)
    ensures (Cell(tail, j) + 1) % RING_CAP == Cell(tail, j + 1)
    ensures tail < RING_CAP ==> Cell(tail, 0) == tail
  {
    Shift(tail, j, 1);
  }

  /** Two places less than a turn apart are different cells. */
  lemma CellsDiffer(tail: nat, i: nat, j: nat)
    requires i < j < i + RING_CAP
    ensures Cell(tail, i) != Cell(tail, j)
  {
    var a, b := tail + i, tail + j;
    if a % RING_CAP == b % RING_CAP {
      var d := b / RING_CAP - a / RING_CAP;
      ModUnique(b - a, RING_CAP, d, 0);
      ModUnique(b - a, RING_CAP, 0, b - a);
    }
  }

  class DirectLog {
    const slots: array<string>
    const kernel: nat -> int
    var calls: nat
    var head: nat
    var tail: nat
    var count: nat
    var pendingBytes: nat
    var firstPendingTsMs: nat
    var emitted: nat
    var dropped: nat
    ghost var attempts: nat
    /** The pending lines in order, and everything the log file received. */
    ghost var queue: seq<string>
    ghost var sink: string

    /** The ring holds the pending lines; every attempt is emitted, dropped or pending. */
    ghost predicate RingOk()
      reads this, slots
    {
      && slots.Length == RING_CAP
      && tail < RING_CAP && count <= RING_CAP && head == Cell(tail, count)
      && |queue| == count
      && (forall j :: 0 <= j < count ==> slots[Cell(tail, j)] == queue[j])
      && (forall j :: 0 <= j < count ==> 0 < |queue[j]| <= LINE_MAX)
      && emitted + dropped + count == attempts
      && Patient(kernel)
    }

    ghost predicate Valid()
      reads this, slots
    {
      RingOk() && pendingBytes == TotalLen(queue)
    }

    /** Between calls fewer than 64 lines and fewer than 32 KiB wait. */
    ghost predicate Steady()
      reads this, slots
    {
      Valid() && count < FLUSH_LINES && pendingBytes < FLUSH_BYTES
    }

    constructor (kernel: nat -> int)
      requires Patient(kernel)
      ensures Steady() && queue == [] && sink == "" && fresh(slots) && this.kernel == kernel && calls == 0
      ensures attempts == emitted == dropped == 0 && firstPendingTsMs == 0
    {
      slots := new string[RING_CAP](_ => "");
      this.kernel, calls := kernel, 0;
      head, tail, count := 0, 0, 0;
      pendingBytes := 0;
      firstPendingTsMs := 0;
      emitted, dropped := 0, 0;
      attempts := 0;
      queue := [];
      sink := "";
    }

    /** The first `n` pending lines, read off the ring. */
    method Gather(n: nat) returns (vec: seq<string>)
      requires RingOk() && n <= count
      ensures vec == queue[..n]
    {
      vec := [];
      var idx := tail;
      NextCell(tail, 0);
      while |vec| < n
        invariant |vec| <= n && idx == Cell(tail, |vec|)
        invariant vec == queue[..|vec|]
      {
        NextCell(tail, |vec|);
        vec := vec + [slots[idx]];
        idx := (idx + 1) % RING_CAP;
      }
    }

    /** Up to 64 of the oldest lines go out together, emitted or dropped as the write succeeds or fails. */
    method FlushRound()
      requires RingOk() && count > 0
      modifies this`calls, this`tail, this`count, this`emitted, this`dropped, this`queue, this`sink
      ensures RingOk() && calls >= old(calls)
      ensures var n := if old(count) < FLUSH_LINES then old(count) else FLUSH_LINES;
        && queue == old(queue)[n..] && count == old(count) - n
        && old(sink) <= sink <= old(sink) + Concat(old(queue)[..n])
        && |sink| == |old(sink)| + Taken(kernel, old(calls), calls, |Concat(old(queue)[..n])|)
        && if NoFailure(kernel, old(calls), calls)
           then emitted == old(emitted) + n && dropped == old(dropped) && sink == old(sink) + Concat(old(queue)[..n])
           else emitted == old(emitted) && dropped == old(dropped) + n && Fails(kernel(calls - 1))
    {
      hide Cell, Concat, Taken, Clamp;
      var n := if count < FLUSH_LINES then count else FLUSH_LINES;
      var vec := Gather(n);
      ClampKeepsAll(vec);
      HasBytes(vec);
      var ok, written;
      ok, written, calls := WritevAll(vec, kernel, calls);
      if ok {
        emitted := emitted + n;
      } else {
        assert Fails(kernel(calls - 1));
        dropped := dropped + n;
      }
      DropFront(n);
      sink := sink + written;
    }

    lemma ClampKeepsAll(vec: seq<string>)
      requires |vec| <= FLUSH_LINES
      ensures Clamp(vec) == vec
    {
    }

    lemma HasBytes(vec: seq<string>)
      requires vec != [] && vec[0] != ""
      ensures Concat(vec) != ""
    {
    }

    lemma SplitQueue(n: nat)
      requires n <= |queue|
      ensures Concat(queue) == Concat(queue[..n]) + Concat(queue[n..])
    {
      assert queue == queue[..n] + queue[n..];
      ConcatAppends(queue[..n], queue[n..]);
    }

    method DropFront(n: nat)
      requires slots.Length == RING_CAP && tail < RING_CAP && n <= count <= RING_CAP
      requires head == Cell(tail, count) && |queue| == count
      requires forall j :: 0 <= j < count ==> slots[Cell(tail, j)] == queue[j]
      modifies this`tail, this`count, this`queue
      ensures tail < RING_CAP && count == old(count) - n && queue == old(queue)[n..] && head == Cell(tail, count)
      ensures forall j :: 0 <= j < count ==> slots[Cell(tail, j)] == queue[j]
    {
      Shift(tail, n, count - n);
      forall j | 0 <= j < count - n ensures slots[Cell(Cell(tail, n), j)] == queue[n..][j] {
        Shift(tail, n, j);
      }
      hide Cell;
      var onward := (tail + n) % RING_CAP;
      CellIs(tail, n);
      tail := onward;
      count := count - n;
      queue := queue[n..];
    }

    lemma CellIs(t: nat, j: nat)
      ensures Cell(t, j) == (t + j) % RING_CAP
    {
    }

    /** Writes out everything pending; each round is counted emitted or dropped as a whole. */
    method Flush()
      requires Valid()
      modifies this`calls, this`tail, this`count, this`pendingBytes, this`firstPendingTsMs, this`emitted, this`dropped,
               this`queue, this`sink
      ensures Steady() && queue == [] && firstPendingTsMs == (if old(count) == 0 then old(firstPendingTsMs) else 0)
      ensures emitted + dropped == old(emitted) + old(dropped) + old(count)
      ensures emitted >= old(emitted) && dropped >= old(dropped) && calls >= old(calls)
      ensures dropped == old(dropped) <==> NoFailure(kernel, old(calls), calls)
      ensures dropped == old(dropped) ==> sink == old(sink) + Concat(old(queue))
    {
      hide Cell, Concat;
      EmptyConcat();
      if count == 0 {
        return;
      }
      while count > 0
        invariant RingOk() && calls >= old(calls)
        invariant emitted >= old(emitted) && dropped >= old(dropped)
        invariant dropped == old(dropped) <==> NoFailure(kernel, old(calls), calls)
        invariant dropped == old(dropped) ==> sink + Concat(queue) == old(sink) + Concat(old(queue))
      {
        ghost var n := if count < FLUSH_LINES then count else FLUSH_LINES;
        SplitQueue(n);
        FlushRound();
      }
      pendingBytes := 0;
      firstPendingTsMs := 0;
    }

    /** What makes an append flush: enough lines, enough bytes, or an old first line. */
    static predicate Flushes(lines: seq<string>, firstTsMs: nat, tsMs: nat) {
      |lines| >= FLUSH_LINES || TotalLen(lines) >= FLUSH_BYTES
      || (firstTsMs > 0 && tsMs >= firstTsMs && tsMs - firstTsMs >= FLUSH_MAX_AGE_MS)
    }

    /**
     Appends one formatted line.  The line is formatted straight into the head cell, which
     is never a pending one.  Afterwards the log is steady again: the ring-full flush and
     the ring-full drop at the top are never reached.
     */
    method Append(line: string, tsMs: nat) returns (ok: bool)
      requires Steady()
      modifies this, slots
      ensures Steady() && attempts == old(attempts) + 1 && calls >= old(calls)
      ensures ok <==> 0 < |line| <= LINE_MAX
      ensures !ok ==> queue == old(queue) && dropped == old(dropped) + 1 && sink == old(sink) && calls == old(calls)
      ensures ok ==>
        var lines := old(queue) + [line];
        if Flushes(lines, if old(firstPendingTsMs) == 0 then tsMs else old(firstPendingTsMs), tsMs)
        then
          && queue == []
          && (dropped == old(dropped) <==> NoFailure(kernel, old(calls), calls))
          && (dropped == old(dropped) ==> sink == old(sink) + Concat(lines))
        else
          && queue == lines && sink == old(sink) && calls == old(calls)
          && emitted == old(emitted) && dropped == old(dropped)
    {
      hide Cell, Concat, TotalLen;
      if count >= RING_CAP {
        assert false;
      }
      StoreLine(line);
      attempts := attempts + 1;
      if |line| == 0 || |line| > LINE_MAX {
        dropped := dropped + 1;
        return false;
      }
      Commit(line);
      if firstPendingTsMs == 0 {
        firstPendingTsMs := tsMs;
      }
      var ageFlush :=
        firstPendingTsMs > 0 && tsMs >= firstPendingTsMs && tsMs - firstPendingTsMs >= FLUSH_MAX_AGE_MS;
      if count >= FLUSH_LINES || pendingBytes >= FLUSH_BYTES || ageFlush {
        Flush();
      }
      return true;
    }

    /** The stored line becomes the last pending one. */
    method Commit(line: string)
      requires slots.Length == RING_CAP && tail < RING_CAP && count < RING_CAP
      requires head == Cell(tail, count) && |queue| == count && slots[head] == line && 0 < |line| <= LINE_MAX
      requires forall j :: 0 <= j < count ==> slots[Cell(tail, j)] == queue[j]
      requires forall j :: 0 <= j < count ==> 0 < |queue[j]| <= LINE_MAX
      requires pendingBytes == TotalLen(queue) && emitted + dropped + count + 1 == attempts && Patient(kernel)
      modifies this`head, this`count, this`pendingBytes, this`queue
      ensures Valid() && count == old(count) + 1 && queue == old(queue) + [line]
    {
      hide Cell, TotalLen;
      NextCell(tail, count);
      TotalLenOfSnoc(queue, line);
      head := (head + 1) % RING_CAP;
      count := count + 1;
      pendingBytes := pendingBytes + |line|;
      queue := queue + [line];
    }

    /** The cell at `head` is free whenever the ring is not full. */
    method StoreLine(line: string)
      requires slots.Length == RING_CAP && count < RING_CAP && head == Cell(tail, count) && |queue| == count
      requires forall j :: 0 <= j < count ==> slots[Cell(tail, j)] == queue[j]
      modifies slots
      ensures forall j :: 0 <= j < count ==> slots[Cell(tail, j)] == queue[j]
      ensures slots[head] == line
    {
      forall j | 0 <= j < count ensures Cell(tail, j) != head {
        CellsDiffer(tail, j, count);
      }
      slots[head] := line;
    }

    /** Lines older than 200 ms are flushed from the worker's loop; younger ones stay. */
    method MaybeFlush(nowMs: nat)
      requires Steady()
      modifies this
      ensures Steady() && attempts == old(attempts) && calls >= old(calls)
      ensures var due := old(count) > 0 && old(firstPendingTsMs) != 0 && nowMs >= old(firstPendingTsMs) + FLUSH_MAX_AGE_MS;
        if due
        then
          && queue == []
          && (dropped == old(dropped) <==> NoFailure(kernel, old(calls), calls))
          && (dropped == old(dropped) ==> sink == old(sink) + Concat(old(queue)))
        else unchanged(this)
    {
      if count == 0 || firstPendingTsMs == 0 {
        return;
      }
      if nowMs >= firstPendingTsMs && nowMs - firstPendingTsMs >= FLUSH_MAX_AGE_MS {
        Flush();
      }
    }
  }
}
