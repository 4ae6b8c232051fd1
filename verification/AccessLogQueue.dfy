/**
 The queued access log: one single-producer, single-consumer ring per worker and one
 writer thread that formats entries into batches.

 Each access to a shared index or cell is its own step, in any interleaving.  Reading the
 other side's index may return any value it has had since the reader last looked; the
 release and acquire orderings make the cells below a published index visible with it.
 The absolute counters `freed`, `scanned`, `prodSeen`, `consSeen` and the histories `log`,
 `taken`, `batched`, `written` only record what happened; the code's decisions use ring indices
 alone.
 */
module AccessLogQueue {
  import opened Bits

  const TARGET_MAX := 256
  const LINE_MAX := 1024
  const BATCH_MAX_LINES := 64
  const BATCH_MAX_BYTES := 65536

  /** `target` is the request target, `lineLen` is what formatting the entry returns. */
  datatype Entry = Entry(target: string, lineLen: nat)

  predicate Formats(e: Entry) {
    0 < e.lineLen <= LINE_MAX
  }

  datatype Producer = PIdle | PWriting(e: Entry) | PWritten(e: Entry)

  datatype Consumer =
    | Away
    | Scanning(head: nat, batchTail: nat, lines: seq<Entry>, bytes: nat, stop: bool)
    | Writing(lines: seq<Entry>)
    | Reload

  /** A batch handed to the file, and whether the write succeeded. */
  datatype Batch = Batch(lines: seq<Entry>, ok: bool)

  datatype Shard = Shard(
    cells: seq<Entry>,
    head: nat,
    tail: nat,
    prod: Producer,
    cons: Consumer,
    log: seq<Entry>,
    taken: seq<Entry>,
    batched: seq<Entry>,
    written: seq<Batch>,
    freed: nat,
    scanned: nat,
    prodSeen: nat,
    consSeen: nat)

  function Next(i: nat, cap: nat): (j: nat)
    requires cap > 0
  {
    (i + 1) % cap
  }

  // ----- steps of one shard ---------------------------------------------------------------

  /** A step's new shard and what it adds to the counters. */
  datatype Effect = Effect(shard: Shard, emitted: nat, dropped: nat)

  /** `seen` is the (possibly stale) number of freed cells behind the tail value read. */
  predicate CanOffer(s: Shard, seen: nat) {
    s.prod.PIdle? && s.prodSeen <= seen <= s.freed && |s.cells| > 0
  }

  function Offer(s: Shard, e: Entry, seen: nat): (r: Effect)
    requires CanOffer(s, seen)
  {
    var s' := s.(prodSeen := seen);
    if |e.target| > TARGET_MAX then Effect(s, 0, 1)
    else if Next(s.head, |s.cells|) == seen % |s.cells| then Effect(s', 0, 1)
    else Effect(s'.(prod := PWriting(e)), 0, 0)
  }

  predicate CanWriteCell(s: Shard) {
    s.prod.PWriting? && s.head < |s.cells|
  }

  function WriteCell(s: Shard): (r: Effect)
    requires CanWriteCell(s)
  {
    Effect(s.(cells := s.cells[s.head := s.prod.e], prod := PWritten(s.prod.e)), 0, 0)
  }

  predicate CanPublish(s: Shard) {
    s.prod.PWritten? && |s.cells| > 0
  }

  function Publish(s: Shard): (r: Effect)
    requires CanPublish(s)
  {
    Effect(s.(head := Next(s.head, |s.cells|), log := s.log + [s.prod.e], prod := PIdle), 0, 0)
  }

  predicate CanLoad(s: Shard, seen: nat) {
    (s.cons.Away? || s.cons.Reload?) && s.consSeen <= seen <= |s.log| && |s.cells| > 0
  }

  function Load(s: Shard, seen: nat): (r: Effect)
    requires CanLoad(s, seen)
  {
    var head := seen % |s.cells|;
    Effect(s.(consSeen := seen,
              cons := if s.tail == head then Away else Scanning(head, s.tail, [], 0, false)), 0, 0)
  }

  predicate ScanGoesOn(c: Consumer) {
    c.Scanning? && !c.stop && c.batchTail != c.head && |c.lines| < BATCH_MAX_LINES
  }

  predicate CanScan(s: Shard) {
    ScanGoesOn(s.cons) && s.cons.batchTail < |s.cells|
  }

  /** Formats the cell at the batch tail: dropped if it does not format, else batched. */
  function Scan(s: Shard): (r: Effect)
    requires CanScan(s)
  {
    var c := s.cons;
    var item := s.cells[c.batchTail];
    var on := Next(c.batchTail, |s.cells|);
    if !Formats(item) then
      Effect(s.(cons := c.(batchTail := on), scanned := s.scanned + 1, taken := s.taken + [item]), 0, 1)
    else if |c.lines| > 0 && c.bytes + item.lineLen > BATCH_MAX_BYTES then
      Effect(s.(cons := c.(stop := true)), 0, 0)
    else
      Effect(s.(cons := c.(batchTail := on, lines := c.lines + [item], bytes := c.bytes + item.lineLen),
                scanned := s.scanned + 1, taken := s.taken + [item], batched := s.batched + [item]), 0, 0)
  }

  predicate CanRelease(s: Shard) {
    s.cons.Scanning? && !ScanGoesOn(s.cons)
  }

  /** Publishes the new tail; the batch has been copied out of the cells. */
  function Release(s: Shard): (r: Effect)
    requires CanRelease(s)
  {
    Effect(s.(tail := s.cons.batchTail, freed := s.scanned,
              cons := if s.cons.lines == [] then Reload else Writing(s.cons.lines)), 0, 0)
  }

  predicate CanWrite(s: Shard) {
    s.cons.Writing?
  }

  function Write(s: Shard, ok: bool): (r: Effect)
    requires CanWrite(s)
  {
    var n := |s.cons.lines|;
    Effect(s.(cons := Reload, written := s.written + [Batch(s.cons.lines, ok)]), if ok then n else 0, if ok then 0 else n)
  }

  // ----- the invariant of one shard ---------------------------------------------------------

  function Bytes(lines: seq<Entry>): (n: nat) {
    if lines == [] then 0 else Bytes(lines[..|lines| - 1]) + lines[|lines| - 1].lineLen
  }

  function OnlyFormatted(es: seq<Entry>): (r: seq<Entry>) {
    if es == [] then []
    else OnlyFormatted(es[..|es| - 1]) + if Formats(es[|es| - 1]) then [es[|es| - 1]] else []
  }

  /** All lines handed to the file, in order. */
  function Lines(batches: seq<Batch>): (r: seq<Entry>) {
    if batches == [] then [] else Lines(batches[..|batches| - 1]) + batches[|batches| - 1].lines
  }

  /** Those of the writes that succeeded: what the file holds. */
  function Output(batches: seq<Batch>): (r: seq<Entry>) {
    if batches == [] then []
    else
      var last := batches[|batches| - 1];
      Output(batches[..|batches| - 1]) + if last.ok then last.lines else []
  }

  /** The lines formatted and not yet written. */
  function InHand(c: Consumer): (r: seq<Entry>) {
    match c case Scanning(_, _, lines, _, _) => lines case Writing(lines) => lines case _ => []
  }

  ghost predicate OutputOk(s: Shard) {
    s.batched == Lines(s.written) + InHand(s.cons)
  }

  ghost predicate IndicesOk(s: Shard) {
    var cap := |s.cells|;
    && cap >= 2
    && s.head == |s.log| % cap && s.tail == s.freed % cap
    && s.prodSeen <= s.freed <= s.scanned <= s.consSeen <= |s.log|
    && |s.log| - s.prodSeen <= cap - (if s.prod.PIdle? then 1 else 2)
  }

  ghost predicate CellsOk(s: Shard) {
    var cap := |s.cells|;
    && cap >= 2
    && (forall i :: s.freed <= i < |s.log| ==> s.cells[i % cap] == s.log[i])
    && (s.prod.PWritten? ==> s.cells[|s.log| % cap] == s.prod.e)
  }

  ghost predicate BatchOk(s: Shard) {
    var cap := |s.cells|;
    && cap >= 2
    && s.scanned <= |s.log| && s.taken == s.log[..s.scanned]
    && s.batched == OnlyFormatted(s.taken)
    && match s.cons
       case Away => s.scanned == s.freed
       case Reload => s.scanned == s.freed
       case Writing(lines) => s.scanned == s.freed && |lines| <= BATCH_MAX_LINES && Bytes(lines) <= BATCH_MAX_BYTES
       case Scanning(head, bt, lines, bytes, stop) =>
         && head == s.consSeen % cap && bt == s.scanned % cap && !stop
         && |lines| <= BATCH_MAX_LINES && bytes == Bytes(lines) <= |lines| * LINE_MAX
         && |lines| <= s.scanned - s.freed
  }

  ghost predicate ShardOk(s: Shard) {
    IndicesOk(s) && CellsOk(s) && BatchOk(s) && OutputOk(s)
  }

  /** Entries attempted on this shard that are neither emitted nor dropped yet. */
  function Pending(s: Shard): (n: int) {
    (if s.prod.PIdle? then 0 else 1) + (|s.log| - s.scanned)
    + |InHand(s.cons)|
  }

  lemma SameResidue(a: nat, b: nat, cap: nat)
    requires a <= b < a + cap && a % cap == b % cap
    ensures a == b
  {
    var r := a % cap;
    assert a == a / cap * cap + r && b == b / cap * cap + r;
    var d := b / cap - a / cap;
    assert b - a == d * cap by { assert d * cap == b / cap * cap - a / cap * cap; }
    ModUnique(b - a, cap, d, 0);
    ModUnique(b - a, cap, 0, b - a);
  }

  lemma NextResidue(a: nat, cap: nat)
    requires cap > 0
    ensures Next(a % cap, cap) == (a + 1) % cap
  {
    var q, r := a / cap, a % cap;
    assert a + 1 == q * cap + (r + 1);
    if r + 1 < cap {
      ModUnique(a + 1, cap, q, r + 1);
      ModUnique(r + 1, cap, 0, r + 1);
    } else {
      assert a + 1 == (q + 1) * cap + 0 by { assert (q + 1) * cap == q * cap + cap; }
      ModUnique(a + 1, cap, q + 1, 0);
      ModUnique(r + 1, cap, 1, 0);
    }
  }

  lemma NotFullHasRoom(h: nat, seen: nat, cap: nat)
    requires cap > 0 && seen <= h <= seen + cap - 1 && (h + 1) % cap != seen % cap
    ensures h <= seen + cap - 2
  {
    if h + 1 == seen + cap {
      assert seen + cap == (seen / cap + 1) * cap + seen % cap by {
        assert (seen / cap + 1) * cap == seen / cap * cap + cap;
      }
      ModUnique(seen + cap, cap, seen / cap + 1, seen % cap);
    }
  }

  /** A ring not seen as full has room, however stale the tail that was read. */
  lemma OfferIsSafe(s: Shard, e: Entry, seen: nat)
    requires ShardOk(s) && CanOffer(s, seen)
    ensures ShardOk(Offer(s, e, seen).shard)
    ensures Offer(s, e, seen).dropped + Pending(Offer(s, e, seen).shard) == Pending(s) + 1
  {
    hide OnlyFormatted, Bytes;
    var cap := |s.cells|;
    NextResidue(|s.log|, cap);
    if (|s.log| + 1) % cap != seen % cap {
      NotFullHasRoom(|s.log|, seen, cap);
    }
  }

  /** One turn apart is the same index. */
  lemma FullIsOneTurn(h: nat, seen: nat, cap: nat)
    requires cap > 0 && seen <= h <= seen + cap - 1
    ensures (h + 1) % cap == seen % cap <==> h - seen == cap - 1
  {
    if h - seen == cap - 1 {
      assert seen + cap == (seen / cap + 1) * cap + seen % cap by {
        assert (seen / cap + 1) * cap == seen / cap * cap + cap;
      }
      ModUnique(seen + cap, cap, seen / cap + 1, seen % cap);
    } else if (h + 1) % cap == seen % cap {
      SameResidue(seen, h + 1, cap);
    }
  }

  /** What the code's index test comes to: too long, or all cells but one in use as far as seen. */
  predicate Refused(s: Shard, e: Entry, seen: nat) {
    |e.target| > TARGET_MAX || |s.log| - seen == |s.cells| - 1
  }

  /** An offer is dropped exactly when it is too long or the ring is seen full; else it is accepted. */
  lemma OfferIsByCount(s: Shard, e: Entry, seen: nat)
    requires ShardOk(s) && CanOffer(s, seen)
    ensures var r := Offer(s, e, seen);
      if Refused(s, e, seen)
      then r.dropped == 1 && r.emitted == 0 && r.shard == s.(prodSeen := r.shard.prodSeen)
      else r == Effect(s.(prodSeen := seen, prod := PWriting(e)), 0, 0)
  {
    hide CellsOk, BatchOk, OutputOk;
    NextResidue(|s.log|, |s.cells|);
    FullIsOneTurn(|s.log|, seen, |s.cells|);
  }

  /** A batch is begun exactly when something published is seen that was not released. */
  lemma LoadIsByCount(s: Shard, seen: nat)
    requires ShardOk(s) && CanLoad(s, seen)
    ensures var t := Load(s, seen).shard;
      && (s.freed == seen ==> t.cons.Away?)
      && (s.freed < seen ==> t.cons == Scanning(seen % |s.cells|, s.freed % |s.cells|, [], 0, false))
  {
    hide CellsOk, OutputOk, OnlyFormatted, Bytes;
    if s.freed % |s.cells| == seen % |s.cells| {
      SameResidue(s.freed, seen, |s.cells|);
    }
  }

  /** A batch goes on exactly while something seen is left and fewer than 64 lines are in it. */
  lemma ScanIsByCount(s: Shard)
    requires ShardOk(s) && s.cons.Scanning?
    ensures CanScan(s) <==> s.scanned < s.consSeen && |s.cons.lines| < BATCH_MAX_LINES
    ensures CanRelease(s) <==> !CanScan(s)
  {
    hide CellsOk, OutputOk, OnlyFormatted, Bytes;
    if s.scanned % |s.cells| == s.consSeen % |s.cells| {
      SameResidue(s.scanned, s.consSeen, |s.cells|);
    }
  }

  /** Neither side ever waits for the other in the middle of its work. */
  lemma NeverStuck(s: Shard)
    requires ShardOk(s)
    ensures s.prod.PIdle? ==> CanOffer(s, s.prodSeen) && CanOffer(s, s.freed)
    ensures s.prod.PWriting? ==> CanWriteCell(s)
    ensures s.prod.PWritten? ==> CanPublish(s)
    ensures s.cons.Away? || s.cons.Reload? ==> CanLoad(s, s.consSeen) && CanLoad(s, |s.log|)
    ensures s.cons.Scanning? ==> CanScan(s) || CanRelease(s)
    ensures s.cons.Writing? ==> CanWrite(s)
  {
    hide CellsOk, OutputOk, OnlyFormatted, Bytes;
  }

  /** The cell written is none of those published and not yet released. */
  lemma WriteCellIsSafe(s: Shard)
    requires ShardOk(s) && CanWriteCell(s)
    ensures ShardOk(WriteCell(s).shard) && Pending(WriteCell(s).shard) == Pending(s)
  {
    var cap := |s.cells|;
    forall i | s.freed <= i < |s.log| ensures i % cap != s.head {
      if i % cap == s.head {
        SameResidue(i, |s.log|, cap);
      }
    }
  }

  lemma PublishIsSafe(s: Shard)
    requires ShardOk(s) && CanPublish(s)
    ensures ShardOk(Publish(s).shard) && Pending(Publish(s).shard) == Pending(s)
  {
    NextResidue(|s.log|, |s.cells|);
    assert (s.log + [s.prod.e])[..s.scanned] == s.log[..s.scanned];
  }

  lemma LoadIsSafe(s: Shard, seen: nat)
    requires ShardOk(s) && CanLoad(s, seen)
    ensures ShardOk(Load(s, seen).shard) && Pending(Load(s, seen).shard) == Pending(s)
  {
  }

  /** The cell under the scan holds the next published entry. */
  lemma ScanSeesNext(s: Shard)
    requires ShardOk(s) && CanScan(s)
    ensures s.scanned < s.consSeen && s.cells[s.cons.batchTail] == s.log[s.scanned]
    ensures s.log[..s.scanned + 1] == s.log[..s.scanned] + [s.log[s.scanned]]
  {
    assert s.scanned < s.consSeen by {
      if s.scanned == s.consSeen {
        assert false;
      }
    }
  }

  lemma ScanKeepsCells(s: Shard)
    requires ShardOk(s) && CanScan(s)
    ensures IndicesOk(Scan(s).shard) && CellsOk(Scan(s).shard)
  {
    hide BatchOk, OutputOk;
    ScanSeesNext(s);
  }

  lemma ScanKeepsBatch(s: Shard)
    requires ShardOk(s) && CanScan(s)
    ensures BatchOk(Scan(s).shard)
  {
    hide CellsOk, OutputOk;
    ScanSeesNext(s);
    var c, item := s.cons, s.log[s.scanned];
    NextResidue(s.scanned, |s.cells|);
    assert (s.taken + [item])[..|s.taken|] == s.taken;
    if Formats(item) {
      assert (c.lines + [item])[..|c.lines|] == c.lines;
    }
  }

  lemma ScanKeepsOutput(s: Shard)
    requires ShardOk(s) && CanScan(s)
    ensures OutputOk(Scan(s).shard)
    ensures Scan(s).dropped + Pending(Scan(s).shard) == Pending(s)
  {
    hide CellsOk, BatchOk, Lines;
    ScanSeesNext(s);
    var c, item := s.cons, s.log[s.scanned];
    assert Lines(s.written) + (c.lines + [item]) == Lines(s.written) + c.lines + [item];
  }

  lemma ScanIsSafe(s: Shard)
    requires ShardOk(s) && CanScan(s)
    ensures ShardOk(Scan(s).shard)
    ensures Scan(s).dropped + Pending(Scan(s).shard) == Pending(s)
  {
    hide IndicesOk, CellsOk, BatchOk, OutputOk, Scan, CanScan;
    ScanKeepsCells(s);
    ScanKeepsBatch(s);
    ScanKeepsOutput(s);
  }

  lemma ReleaseIsSafe(s: Shard)
    requires ShardOk(s) && CanRelease(s)
    ensures ShardOk(Release(s).shard) && Pending(Release(s).shard) == Pending(s)
  {
  }

  lemma WriteIsSafe(s: Shard, ok: bool)
    requires ShardOk(s) && CanWrite(s)
    ensures ShardOk(Write(s, ok).shard)
    ensures Write(s, ok).emitted + Write(s, ok).dropped + Pending(Write(s, ok).shard) == Pending(s)
    ensures |Output(Write(s, ok).shard.written)| == |Output(s.written)| + Write(s, ok).emitted
  {
    hide OnlyFormatted, Bytes;
    var batches := s.written + [Batch(s.cons.lines, ok)];
    assert batches[..|s.written|] == s.written;
    assert Lines(batches) == Lines(s.written) + s.cons.lines;
    assert Lines(batches) + [] == Lines(batches);
  }

  /** Producer and consumer never use the same cell at the same time. */
  lemma NoSharedCell(s: Shard)
    requires ShardOk(s) && !s.prod.PIdle? && CanScan(s)
    ensures s.head != s.cons.batchTail
  {
    if s.head == s.cons.batchTail {
      SameResidue(s.scanned, |s.log|, |s.cells|);
      assert false;
    }
  }

  /** Sixty-four lines always fit: the byte limit never cuts a batch short. */
  lemma ByteLimitIsSlack(s: Shard)
    requires ShardOk(s) && CanScan(s) && Formats(s.cells[s.cons.batchTail])
    ensures s.cons.bytes + s.cells[s.cons.batchTail].lineLen <= BATCH_MAX_BYTES
  {
  }

  // ----- all shards -------------------------------------------------------------------------

  /** `writer`: the thread got its buffers; without them it leaves at once and nobody consumes. */
  datatype Log = Log(shards: seq<Shard>, writer: bool, attempts: nat, emitted: nat, dropped: nat)

  datatype Event =
    | EOffer(e: Entry, seen: nat)
    | EWriteCell
    | EPublish
    | ELoad(seen: nat)
    | EScan
    | ERelease
    | EWrite(ok: bool)

  ghost predicate Enabled(s: Shard, ev: Event) {
    match ev
    case EOffer(_, seen) => CanOffer(s, seen)
    case EWriteCell => CanWriteCell(s)
    case EPublish => CanPublish(s)
    case ELoad(seen) => CanLoad(s, seen)
    case EScan => CanScan(s)
    case ERelease => CanRelease(s)
    case EWrite(_) => CanWrite(s)
  }

  predicate ByProducer(ev: Event) {
    ev.EOffer? || ev.EWriteCell? || ev.EPublish?
  }

  ghost function Act(s: Shard, ev: Event): (r: Effect)
    requires Enabled(s, ev)
  {
    match ev
    case EOffer(e, seen) => Offer(s, e, seen)
    case EWriteCell => WriteCell(s)
    case EPublish => Publish(s)
    case ELoad(seen) => Load(s, seen)
    case EScan => Scan(s)
    case ERelease => Release(s)
    case EWrite(ok) => Write(s, ok)
  }

  ghost function Step(g: Log, i: nat, ev: Event): (g': Log)
    requires i < |g.shards| && Enabled(g.shards[i], ev)
  {
    var r := Act(g.shards[i], ev);
    Log(g.shards[i := r.shard], g.writer, g.attempts + (if ev.EOffer? then 1 else 0),
        g.emitted + r.emitted, g.dropped + r.dropped)
  }

  function AllPending(shards: seq<Shard>): (n: int) {
    if shards == [] then 0 else AllPending(shards[..|shards| - 1]) + Pending(shards[|shards| - 1])
  }

  lemma {:induction false} PendingOfUpdate(shards: seq<Shard>, i: nat, s: Shard)
    requires i < |shards|
    ensures AllPending(shards[i := s]) == AllPending(shards) - Pending(shards[i]) + Pending(s)
  {
    var n := |shards| - 1;
    if i == n {
      assert shards[i := s][..n] == shards[..n];
    } else {
      assert shards[i := s][..n] == shards[..n][i := s];
      PendingOfUpdate(shards[..n], i, s);
    }
  }

  function AllOutput(shards: seq<Shard>): (n: nat) {
    if shards == [] then 0 else AllOutput(shards[..|shards| - 1]) + |Output(shards[|shards| - 1].written)|
  }

  lemma {:induction false} OutputOfUpdate(shards: seq<Shard>, i: nat, s: Shard)
    requires i < |shards|
    ensures AllOutput(shards[i := s]) == AllOutput(shards) - |Output(shards[i].written)| + |Output(s.written)|
  {
    var n := |shards| - 1;
    if i == n {
      assert shards[i := s][..n] == shards[..n];
    } else {
      assert shards[i := s][..n] == shards[..n][i := s];
      OutputOfUpdate(shards[..n], i, s);
    }
  }

  /** Without a writer nothing is consumed. */
  predicate Untouched(s: Shard) {
    s.cons.Away? && s.scanned == 0 && s.freed == 0 && s.written == []
  }

  ghost predicate LogOk(g: Log) {
    && (forall i :: 0 <= i < |g.shards| ==> ShardOk(g.shards[i]))
    && (forall i :: 0 <= i < |g.shards| && !g.writer ==> Untouched(g.shards[i]))
    && g.emitted + g.dropped + AllPending(g.shards) == g.attempts
    && g.emitted == AllOutput(g.shards)
  }

  lemma ActIsSafe(s: Shard, ev: Event)
    requires ShardOk(s) && Enabled(s, ev)
    ensures ShardOk(Act(s, ev).shard)
    ensures Act(s, ev).emitted + Act(s, ev).dropped + Pending(Act(s, ev).shard)
         == Pending(s) + (if ev.EOffer? then 1 else 0)
    ensures |Output(Act(s, ev).shard.written)| == |Output(s.written)| + Act(s, ev).emitted
    ensures ByProducer(ev) && Untouched(s) ==> Untouched(Act(s, ev).shard)
  {
    hide ShardOk, Pending, Output;
    match ev
    case EOffer(e, seen) => OfferIsSafe(s, e, seen);
    case EWriteCell => WriteCellIsSafe(s);
    case EPublish => PublishIsSafe(s);
    case ELoad(seen) => LoadIsSafe(s, seen);
    case EScan => ScanIsSafe(s);
    case ERelease => ReleaseIsSafe(s);
    case EWrite(ok) => WriteIsSafe(s, ok);
  }

  lemma StepIsSafe(g: Log, i: nat, ev: Event)
    requires LogOk(g) && i < |g.shards| && Enabled(g.shards[i], ev) && (g.writer || ByProducer(ev))
    ensures LogOk(Step(g, i, ev))
  {
    hide ShardOk, Act, Pending, Output, Untouched;
    ActIsSafe(g.shards[i], ev);
    PendingOfUpdate(g.shards, i, Act(g.shards[i], ev).shard);
    OutputOfUpdate(g.shards, i, Act(g.shards[i], ev).shard);
  }

  // ----- which entries are dropped, and which are in the rings ----------------------------------

  /** What one step drops: a refused offer, an entry that does not format, the lines of a failed write. */
  ghost function DropOf(s: Shard, ev: Event): (n: nat) {
    match ev
    case EOffer(e, seen) => if Refused(s, e, seen) then 1 else 0
    case EScan => if s.scanned < |s.log| && !(1 <= s.log[s.scanned].lineLen <= 1024) then 1 else 0
    case EWrite(ok) => if ok then 0 else |InHand(s.cons)|
    case _ => 0
  }

  /** What one step accepts. */
  ghost function AcceptOf(s: Shard, ev: Event): (r: seq<Entry>) {
    if ev.EOffer? && !Refused(s, ev.e, ev.seen) then [ev.e] else []
  }

  /** Everything accepted by a shard: published, then what is being written. */
  function InRing(s: Shard): (r: seq<Entry>) {
    s.log + match s.prod case PIdle => [] case PWriting(e) => [e] case PWritten(e) => [e]
  }

  lemma ActBooks(s: Shard, ev: Event)
    requires ShardOk(s) && Enabled(s, ev)
    ensures Act(s, ev).dropped == DropOf(s, ev)
    ensures InRing(Act(s, ev).shard) == InRing(s) + AcceptOf(s, ev)
  {
    hide IndicesOk, CellsOk, BatchOk, OutputOk, Refused;
    match ev
    case EOffer(e, seen) => OfferIsByCount(s, e, seen);
    case EScan =>
      ScanSeesNext(s);
      SeenIsPublished(s);
    case _ =>
  }

  lemma SeenIsPublished(s: Shard)
    requires ShardOk(s)
    ensures s.consSeen <= |s.log|
  {
  }

  ghost function Drops(run: seq<Log>, who: seq<nat>, evs: seq<Event>, n: nat): (r: nat)
    requires IsRun(run, who, evs) && n < |run|
  {
    if n == 0 then 0
    else Drops(run, who, evs, n - 1) + DropOf(run[n - 1].shards[who[n - 1]], evs[n - 1])
  }

  /** The offers of worker `i` that were accepted, in order. */
  ghost function Accepts(run: seq<Log>, who: seq<nat>, evs: seq<Event>, n: nat, i: nat): (r: seq<Entry>)
    requires IsRun(run, who, evs) && n < |run|
  {
    if n == 0 then []
    else Accepts(run, who, evs, n - 1, i)
         + if who[n - 1] == i then AcceptOf(run[n - 1].shards[i], evs[n - 1]) else []
  }

  lemma {:induction false} RunBooks(run: seq<Log>, who: seq<nat>, evs: seq<Event>, n: nat, i: nat)
    requires IsRun(run, who, evs) && n < |run| && i < |run[0].shards|
    ensures |run[n].shards| == |run[0].shards|
    ensures InRing(run[n].shards[i]) == Accepts(run, who, evs, n, i)
  {
    hide Act, DropOf, AcceptOf, ShardOk, LogOk;
    if n > 0 {
      RunBooks(run, who, evs, n - 1, i);
      RunIsSafe(run, who, evs, n - 1);
      var g, k := run[n - 1], who[n - 1];
      assert k < |g.shards| && Enabled(g.shards[k], evs[n - 1]) && run[n] == Step(g, k, evs[n - 1]);
      ShardIsOk(g, k);
      ActBooks(g.shards[k], evs[n - 1]);
    }
  }

  lemma ShardIsOk(g: Log, k: nat)
    requires LogOk(g) && k < |g.shards|
    ensures ShardOk(g.shards[k])
  {
  }

  function NewShard(cells: seq<Entry>): (s: Shard) {
    Shard(cells, 0, 0, PIdle, Away, [], [], [], [], 0, 0, 0, 0)
  }

  /** One execution: `who[n]` is the shard that takes step `evs[n]`. */
  ghost predicate IsRun(run: seq<Log>, who: seq<nat>, evs: seq<Event>) {
    && |run| == |evs| + 1 && |who| == |evs|
    && (forall i :: 0 <= i < |run[0].shards| ==>
          |run[0].shards[i].cells| >= 2 && run[0].shards[i] == NewShard(run[0].shards[i].cells))
    && run[0].attempts == run[0].emitted == run[0].dropped == 0
    && forall n :: 0 <= n < |evs| ==>
         && who[n] < |run[n].shards| && Enabled(run[n].shards[who[n]], evs[n])
         && (run[n].writer || ByProducer(evs[n]))
         && run[n + 1] == Step(run[n], who[n], evs[n])
  }

  lemma {:induction false} NewPending(shards: seq<Shard>)
    requires forall i :: 0 <= i < |shards| ==> shards[i] == NewShard(shards[i].cells)
    ensures AllPending(shards) == 0 && AllOutput(shards) == 0
  {
    if shards != [] {
      NewPending(shards[..|shards| - 1]);
      assert Pending(shards[|shards| - 1]) == 0;
    }
  }

  lemma {:induction false} RunIsSafe(run: seq<Log>, who: seq<nat>, evs: seq<Event>, n: nat)
    requires IsRun(run, who, evs) && n < |run|
    ensures LogOk(run[n])
  {
    hide LogOk, Step;
    if n == 0 {
      StartIsSafe(run[0]);
    } else {
      RunIsSafe(run, who, evs, n - 1);
      StepIsSafe(run[n - 1], who[n - 1], evs[n - 1]);
      assert run[n] == Step(run[n - 1], who[n - 1], evs[n - 1]);
    }
  }

  lemma StartIsSafe(g: Log)
    requires forall i :: 0 <= i < |g.shards| ==>
      |g.shards[i].cells| >= 2 && g.shards[i] == NewShard(g.shards[i].cells)
    requires g.attempts == g.emitted == g.dropped == 0
    ensures LogOk(g)
  {
    NewPending(g.shards);
    forall i | 0 <= i < |g.shards| ensures ShardOk(g.shards[i]) {
      NewIsOk(g.shards[i].cells);
    }
  }

  lemma NewIsOk(cells: seq<Entry>)
    requires |cells| >= 2
    ensures ShardOk(NewShard(cells))
  {
    ModUnique(0, |cells|, 0, 0);
  }

  /**
   Main result.  In every interleaving, with stale reads, at every point: on each shard the
   consumer has read exactly the first `scanned` published entries, in order, once each, and
   batched those of them that format; what it has batched is what went to the file, batch after
   batch, and then what is in its hands; the unreleased cells still hold what was published;
   every attempt is emitted, dropped or pending exactly once over all shards, and what is counted
   as emitted is what the file holds.  The drops are exactly the offers that were too long or saw
   a full ring, the entries that do not format and the lines of failed writes; what a shard has
   published and is publishing are exactly the other offers of its worker, in order.
   */
  lemma QueueTheorem(run: seq<Log>, who: seq<nat>, evs: seq<Event>, n: nat)
    requires IsRun(run, who, evs) && n < |run|
    ensures var g := run[n];
      && g.emitted + g.dropped + AllPending(g.shards) == g.attempts
      && g.emitted == AllOutput(g.shards)
      && g.dropped == Drops(run, who, evs, n)
      && forall i :: 0 <= i < |g.shards| ==>
           var s := g.shards[i];
           && InRing(s) == Accepts(run, who, evs, n, i)
           && s.freed <= s.scanned <= |s.log|
           && s.taken == s.log[..s.scanned]
           && OnlyFormatted(s.log[..s.scanned]) == Lines(s.written) + InHand(s.cons)
           && |s.log| - s.freed < |s.cells|
           && (forall k :: s.freed <= k < |s.log| ==> s.cells[k % |s.cells|] == s.log[k])
           && (s.cons.Writing? ==> |s.cons.lines| <= BATCH_MAX_LINES && Bytes(s.cons.lines) <= BATCH_MAX_BYTES)
  {
    RunIsSafe(run, who, evs, n);
    DropsAddUp(run, who, evs, n);
    forall i | 0 <= i < |run[n].shards| ensures InRing(run[n].shards[i]) == Accepts(run, who, evs, n, i) {
      SameShards(run, who, evs, n);
      RunBooks(run, who, evs, n, i);
    }
  }

  lemma {:induction false} SameShards(run: seq<Log>, who: seq<nat>, evs: seq<Event>, n: nat)
    requires IsRun(run, who, evs) && n < |run|
    ensures |run[n].shards| == |run[0].shards|
  {
    hide Act;
    if n > 0 {
      SameShards(run, who, evs, n - 1);
      assert run[n] == Step(run[n - 1], who[n - 1], evs[n - 1]);
    }
  }

  lemma {:induction false} DropsAddUp(run: seq<Log>, who: seq<nat>, evs: seq<Event>, n: nat)
    requires IsRun(run, who, evs) && n < |run|
    ensures run[n].dropped == Drops(run, who, evs, n)
  {
    hide Act, DropOf, AcceptOf, ShardOk, LogOk;
    if n > 0 {
      DropsAddUp(run, who, evs, n - 1);
      RunIsSafe(run, who, evs, n - 1);
      var g, k := run[n - 1], who[n - 1];
      assert k < |g.shards| && Enabled(g.shards[k], evs[n - 1]) && run[n] == Step(g, k, evs[n - 1]);
      ShardIsOk(g, k);
      ActBooks(g.shards[k], evs[n - 1]);
    }
  }

  // ----- shutdown -------------------------------------------------------------------------------

  /** What the writer checks before it stops: no batch in hand and equal ring indices. */
  ghost predicate Quiescent(s: Shard) {
    s.cons.Away? && s.head == s.tail
  }

  /** The workers are gone, and so is the writer: at once if it never ran, else with empty rings. */
  ghost predicate ShutDown(g: Log) {
    forall i :: 0 <= i < |g.shards| ==>
      g.shards[i].prod.PIdle? && (g.writer ==> Quiescent(g.shards[i]))
  }

  /** The entries the workers got into the rings. */
  function Accepted(shards: seq<Shard>): (n: nat) {
    if shards == [] then 0 else Accepted(shards[..|shards| - 1]) + |shards[|shards| - 1].log|
  }

  /**
   At shutdown emitted plus dropped is all the attempts exactly when the writer ran or nothing
   was ever accepted; without a writer the accepted entries are freed with their rings, uncounted.
   */
  lemma ShutdownTheorem(run: seq<Log>, who: seq<nat>, evs: seq<Event>, n: nat)
    requires IsRun(run, who, evs) && n < |run| && ShutDown(run[n])
    ensures var g := run[n];
      && g.emitted + g.dropped == g.attempts - (if g.writer then 0 else Accepted(g.shards))
      && (g.emitted + g.dropped == g.attempts <==> g.writer || Accepted(g.shards) == 0)
  {
    RunIsSafe(run, who, evs, n);
    if run[n].writer {
      QuietPending(run[n].shards);
    } else {
      UnreadPending(run[n].shards);
    }
  }

  lemma {:induction false} QuietPending(shards: seq<Shard>)
    requires forall i :: 0 <= i < |shards| ==> ShardOk(shards[i]) && shards[i].prod.PIdle? && Quiescent(shards[i])
    ensures AllPending(shards) == 0
  {
    if shards != [] {
      QuietPending(shards[..|shards| - 1]);
      var s := shards[|shards| - 1];
      SameResidue(s.freed, |s.log|, |s.cells|);
    }
  }

  lemma {:induction false} UnreadPending(shards: seq<Shard>)
    requires forall i :: 0 <= i < |shards| ==> shards[i].prod.PIdle? && Untouched(shards[i])
    ensures AllPending(shards) == Accepted(shards)
  {
    if shards != [] {
      UnreadPending(shards[..|shards| - 1]);
      var s := shards[|shards| - 1];
      assert s.prod.PIdle? && Untouched(s);
    }
  }

  /** One accepted entry and no writer: it is neither emitted nor dropped. */
  lemma LostExample(cell: Entry, e: Entry) returns (run: seq<Log>, who: seq<nat>, evs: seq<Event>)
    requires |e.target| <= TARGET_MAX
    ensures IsRun(run, who, evs) && |run| == 4 && run[0] == Log([NewShard([cell, cell])], false, 0, 0, 0)
    ensures ShutDown(run[3]) && run[3].attempts == 1 && run[3].emitted == run[3].dropped == 0
  {
    var s0 := NewShard([cell, cell]);
    var g0 := Log([s0], false, 0, 0, 0);
    var s1 := s0.(prod := PWriting(e));
    assert Offer(s0, e, 0) == Effect(s1, 0, 0);
    var s2 := s1.(cells := [e, cell], prod := PWritten(e));
    assert WriteCell(s1) == Effect(s2, 0, 0) by {
      assert [cell, cell][0 := e] == [e, cell];
    }
    var s3 := s2.(head := 1, log := [e], prod := PIdle);
    assert Publish(s2) == Effect(s3, 0, 0) by {
      assert [] + [e] == [e];
    }
    run := [g0, Log([s1], false, 1, 0, 0), Log([s2], false, 1, 0, 0), Log([s3], false, 1, 0, 0)];
    who := [0, 0, 0];
    evs := [EOffer(e, 0), EWriteCell, EPublish];
    assert Step(run[0], 0, evs[0]) == run[1] && Step(run[1], 0, evs[1]) == run[2] && Step(run[2], 0, evs[2]) == run[3];
    assert IsRun(run, who, evs);
  }
}
