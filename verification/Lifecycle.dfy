/**
 The lifetime protocol of a connection on one worker thread: who holds a reference,
 when the descriptor is closed, and when the `struct conn` goes back to the freelist.

 The kernel is a bag of outstanding operations that may complete in any order.  Handlers stage
 operations in the submission queue, and the kernel takes them from there; completions are
 fetched in batches.  Every completion handler, the accept hook and the timer sweep is a step.  A write to a
 connection that is not live raises `fault`; the protocol proof shows it stays down.  Reads go
 through `At`, which is total; every handler reads only connections that the invariant keeps live.
 */
module Lifecycle {
  import opened Chains
  import opened ActiveSet
  import opened Deadlines
  import opened SubmissionQueue

  const FREELIST_CAP := 32768

  /** What computing a deadline says: nothing to arm, or a kind and the bucket it falls in. */
  datatype Timer = Off | Due(kind: DeadlineKind, slot: nat)

  datatype Conn = Conn(
    fd: int,
    refcnt: int,
    inActive: bool,
    activeIdx: int,
    armed: bool,
    slot: nat,
    kind: DeadlineKind,
    abortive: bool,
    closing: bool,
    draining: bool,
    recvArmed: bool,
    pollArmed: bool)

  const BLANK := Conn(-1, 0, false, -1, false, 0, NoKind, false, false, false, false, false)

  /**
   `conns` is every connection block the worker holds, `free` the freelist (top first),
   `queue` the submission queue with the open numbers of connections, `batch` the fetched
   completions still to be handled and `leaked` the open numbers no connection owns.  `born`
   and `died` count, per block, how often it was handed out and how often it was recycled.
   */
  datatype World = World(
    conns: map<Id, Conn>,
    free: seq<Id>,
    store: map<int, Id>,
    active: seq<int>,
    wheel: seq<seq<Id>>,
    ops: multiset<Op>,
    counted: nat,
    queue: Queue,
    batch: multiset<Op>,
    leaked: set<int>,
    born: multiset<Id>,
    died: multiset<Id>,
    fault: bool)

  predicate Live(w: World, c: Id) {
    c in w.conns && c !in w.free
  }

  function At(w: World, c: Id): (r: Conn) {
    if c in w.conns then w.conns[c] else BLANK
  }

  /** Writes back a connection; writing to one that is not live is a use after recycle. */
  function Set(w: World, c: Id, r: Conn): (w': World) {
    if Live(w, c) then w.(conns := w.conns[c := r]) else w.(fault := true)
  }

  // ----- references -----------------------------------------------------------------

  function Ref(w: World, c: Id): (w': World) {
    Set(w, c, At(w, c).(refcnt := At(w, c).refcnt + 1))
  }

  function Recycle(w: World, c: Id): (w': World) {
    if !Live(w, c) then w.(fault := true) else
    var r := w.conns[c].(armed := false, inActive := false, activeIdx := -1, fd := -1);
    var w1 := w.(conns := w.conns[c := r], died := w.died + multiset{c});
    if |w1.free| >= FREELIST_CAP
    then w1.(conns := w1.conns - {c})
    else w1.(free := [c] + w1.free)
  }

  function Put(w: World, c: Id): (w': World) {
    var w1 := Set(w, c, At(w, c).(refcnt := At(w, c).refcnt - 1));
    if At(w1, c).refcnt == 0 then Recycle(w1, c) else w1
  }

  /** The kernel takes up to `n` staged operations. */
  function Submit(w: World, n: nat): (w': World) {
    w.(queue := Flush(w.queue, n))
  }

  /**
   Takes a reference and stages the operation with it, on `fd`.  Looking for a free entry may
   submit what is staged already.
   */
  function Post(w: World, c: Id, kind: OpKind, fd: int, taken: nat): (w': World) {
    var w1 := Ref(Submit(w, taken), c);
    var late := !(fd >= 0 && At(w, c).fd == fd);
    w1.(ops := w1.ops + multiset{Op(kind, c)},
        queue := Push(w1.queue, Entry(Op(kind, c), fd, late, false)))
  }

  /** The end of a handler: the operation is gone, its reference is dropped. */
  function Finish(w: World, op: Op): (w': World) {
    Put(w.(ops := w.ops - multiset{op}, batch := w.batch - multiset{op}), op.c)
  }

  /** The operation staged last is made a no-op and its reference dropped. */
  function TakeBack(w: World, op: Op): (w': World) {
    if w.queue.staged == [] then w.(fault := true)
    else Put(w.(ops := w.ops - multiset{op}, queue := Withdraw(w.queue)), op.c)
  }

  // ----- timer ----------------------------------------------------------------------

  function CancelTimer(w: World, c: Id): (w': World) {
    var r := At(w, c);
    var w1 :=
      if r.armed && r.slot < |w.wheel|
      then w.(wheel := w.wheel[r.slot := Without(w.wheel[r.slot], c)])
      else w;
    Set(w1, c, r.(armed := false, kind := NoKind))
  }

  /** Links `c` at the head of its bucket, unless its descriptor is already gone. */
  function InsertTimer(w: World, c: Id, t: Timer): (w': World) {
    var r := At(w, c);
    if r.fd < 0 then Set(w, c, r.(kind := NoKind))
    else if t.Off? || t.slot >= |w.wheel| then Set(w, c, r.(kind := NoKind))
    else
      Set(w.(wheel := w.wheel[t.slot := [c] + w.wheel[t.slot]]), c,
          r.(kind := t.kind, armed := true, slot := t.slot))
  }

  function Reschedule(w: World, c: Id, t: Timer): (w': World) {
    InsertTimer(CancelTimer(w, c), c, t)
  }

  // ----- active set -----------------------------------------------------------------

  function ActiveAdd(w: World, fd: int, memory: bool): (w': World) {
    if fd !in w.store then w else
    var c := w.store[fd];
    if At(w, c).inActive || !memory then w else
    Set(w.(active := w.active + [fd]), c, At(w, c).(inActive := true, activeIdx := |w.active|))
  }

  /** Swap-remove, with the scan the code falls back to when the cached index is stale. */
  function ActiveRemove(w: World, fd: int): (w': World) {
    if fd !in w.store then w else
    var c := w.store[fd];
    var r := At(w, c);
    if !r.inActive then w else
    var cached := 0 <= r.activeIdx < |w.active| && w.active[r.activeIdx] == fd;
    var idx := if cached then r.activeIdx else IndexOf(w.active, fd);
    if idx >= |w.active| then Set(w, c, r.(inActive := false, activeIdx := -1)) else
    var swapped := w.active[|w.active| - 1];
    var w1 := w.(active := SwapRemove(w.active, idx));
    var w2 :=
      if idx != |w.active| - 1 && swapped in w1.store
      then Set(w1, w1.store[swapped], At(w1, w1.store[swapped]).(activeIdx := idx))
      else w1;
    Set(w2, c, At(w2, c).(inActive := false, activeIdx := -1))
  }

  // ----- close ----------------------------------------------------------------------

  function CountDown(w: World): (w': World) {
    if w.counted == 0 then w else w.(counted := w.counted - 1)
  }

  /** The connection gives up its descriptor: out of the active set, the store and the count. */
  function Detach(w: World, c: Id, fd: int): (w': World) {
    var w1 := Set(w, c, At(w, c).(fd := -1));
    var w2 := ActiveRemove(w1, fd);
    CountDown(w2.(store := w2.store - {fd}))
  }

  /** Closed by the worker itself, after a submission of what is staged or part of it. */
  function CloseNow(w: World, c: Id, fd: int, taken: nat): (w': World) {
    Detach(w, c, fd).(queue := Shut(Flush(w.queue, taken), c, fd))
  }

  /** Closed by an operation behind everything staged so far. */
  function StageClose(w: World, c: Id, fd: int, taken: nat, flush: nat): (w': World) {
    var x := Entry(Op(CloseOp, c), fd, false, false);
    Detach(w, c, fd).(ops := w.ops + multiset{Op(CloseOp, c)},
                      queue := Flush(Push(Flush(w.queue, taken), x), flush))
  }

  function CancelPoll(w: World, c: Id, sqe: bool): (w': World) {
    if At(w, c).pollArmed && sqe then Set(w, c, At(w, c).(pollArmed := false)) else w
  }

  /** A try for a queue entry: none to be had, or one after `taken` staged ones were submitted. */
  datatype Slot = NoSlot | Slot(taken: nat)

  /** `flush`: how many staged operations the close itself submits. */
  datatype CloseEnv = CloseEnv(closeSqe: Slot, pollSqe: bool, flush: nat)

  /** Cancels the timer and marks the connection closing. */
  function MarkClosing(w: World, c: Id): (w': World) {
    var w1 := Set(w, c, At(w, c).(abortive := false));
    var w2 := CancelTimer(w1, c);
    Set(w2, c, At(w2, c).(closing := true))
  }

  /**
   Idle, drain and abortive closes are always synchronous; the others only when no
   submission entry is left.  The second result reports a staged close operation.
   */
  function Release(w: World, c: Id, fd: int, sync: bool, e: CloseEnv): (res: (World, bool)) {
    if sync then
      (Put(Put(CloseNow(CancelPoll(w, c, e.pollSqe), c, fd, e.flush), c), c), false)
    else if e.closeSqe.NoSlot? then
      (Put(Put(CloseNow(w, c, fd, e.flush), c), c), false)
    else
      (Put(StageClose(CancelPoll(w, c, e.pollSqe), c, fd, e.closeSqe.taken, e.flush), c), true)
  }

  function Close(w: World, fd: int, e: CloseEnv): (res: (World, bool)) {
    if fd < 0 || fd !in w.store then (w, false) else
    var c := w.store[fd];
    var dk := At(w, c).kind;
    var sync := dk.InitialIdle? || dk.KaIdle? || dk.Drain? || At(w, c).abortive;
    var w1 := MarkClosing(w, c);
    if At(w1, c).fd < 0 then
      var w2 := ActiveRemove(w1, fd);
      (CountDown(w2.(store := w2.store - {fd})), false)
    else
      Release(Ref(w1, c), c, fd, sync, e)
  }

  // ----- handlers ---------------------------------------------------------------------
  //
  // What the parser, the transmit state and the submission queue decide is input: every
  // handler below is taken for all of it.  A completed operation stays in the bag until
  // its handler drops the reference at the end.

  /** An optional re-arming of the timer (write timeout started, cleared or left alone). */
  datatype Rearm = Keep | Rearm(t: Timer)

  /** `submit`: whether a direct submission succeeds, and how many entries it takes. */
  datatype Env = Env(sqe: Slot, recvSqe: Slot, submit: Slot, close: CloseEnv,
                     rearm: Rearm, okTimer: Timer, timer: Timer)

  datatype Dispatch = TxBuffer | HeaderResponse(closeAfter: bool) | NoResponse

  datatype Plan =
    | InternalError
    | Error(is431: bool, closeAfter: bool)
    | Continue
    | Okay(dispatch: Dispatch)

  function MaybeReschedule(w: World, c: Id, r: Rearm): (w': World) {
    if r.Keep? then w else Reschedule(w, c, r.t)
  }

  function PostRecv(w: World, c: Id, sqe: Slot): (w': World) {
    var r := At(w, c);
    if r.fd < 0 || (r.closing && !r.draining) || r.recvArmed || sqe.NoSlot? then w else
    var w1 := Post(w, c, Recv, r.fd, sqe.taken);
    Set(w1, c, At(w1, c).(recvArmed := true))
  }

  function PostRemaining(w: World, c: Id, cfd: int, pending: bool, guard: bool, e: Env): (w': World) {
    if !pending then w
    else if e.sqe.NoSlot? then (if guard && At(w, c).closing then w else Close(w, cfd, e.close).0)
    else Post(w, c, Send, cfd, e.sqe.taken)
  }

  function ArmPollout(w: World, c: Id, cfd: int, e: Env): (w': World) {
    if At(w, c).pollArmed then w else
    var w1 := MaybeReschedule(w, c, e.rearm);
    if e.sqe.NoSlot? then (if At(w1, c).closing then w1 else Close(w1, cfd, e.close).0) else
    var w2 := Post(w1, c, Pollout, cfd, e.sqe.taken);
    if e.submit.NoSlot? then
      // The submission failed: the entry is turned into a no-op and its reference dropped.
      var w3 := TakeBack(w2, Op(Pollout, c));
      if At(w3, c).closing then w3 else Close(w3, cfd, e.close).0
    else Submit(Set(w2, c, At(w2, c).(pollArmed := true)), e.submit.taken)
  }

  function StageResponse(w: World, c: Id, cfd: int, closeAfter: bool, taken: nat): (w': World) {
    var w1 :=
      if closeAfter then CancelTimer(Set(w, c, At(w, c).(closing := true)), c) else w;
    Post(w1, c, Send, cfd, taken)
  }

  function ApplyAction(w: World, c: Id, cfd: int, p: Plan, e: Env): (w': World) {
    match p
    case InternalError =>
      if e.sqe.NoSlot? then Close(w, cfd, e.close).0 else StageResponse(w, c, cfd, true, e.sqe.taken)
    case Error(is431, closeAfter) =>
      if e.sqe.NoSlot? then Close(w, cfd, e.close).0 else
      var w1 :=
        if is431 then Reschedule(Set(w, c, At(w, c).(draining := true)), c, e.timer) else w;
      StageResponse(w1, c, cfd, closeAfter, e.sqe.taken)
    case Continue =>
      Reschedule(PostRecv(w, c, e.recvSqe), c, e.timer)
    case Okay(d) =>
      var w1 := Reschedule(w, c, e.okTimer);
      if e.sqe.NoSlot? then Close(w1, cfd, e.close).0
      else if d.TxBuffer? then Post(w1, c, Send, cfd, e.sqe.taken)
      else if d.HeaderResponse? then StageResponse(w1, c, cfd, d.closeAfter, e.sqe.taken)
      else w1
  }

  datatype ReadInput =
    | NoBuffer(second: bool)
    | BadBuffer
    | Again
    | EndOrError
    | Data(stashFull: bool, stashClose: CloseEnv, plan: Plan)

  function ReadHandler(w: World, c: Id, cfd: int, i: ReadInput, e: Env): (w': World) {
    var w1 := Set(w, c, At(w, c).(recvArmed := false));
    match i
    case NoBuffer(second) =>
      if second then Close(w1, cfd, e.close).0 else PostRecv(w1, c, e.recvSqe)
    case BadBuffer => PostRecv(w1, c, e.recvSqe)
    case Again => PostRecv(w1, c, e.recvSqe)
    case EndOrError => Close(w1, cfd, e.close).0
    case Data(stashFull, stashClose, p) =>
      // A full stash closes the connection and the handler still applies its action.
      var w2 := if stashFull then Close(w1, cfd, stashClose).0 else w1;
      ApplyAction(w2, c, cfd, p, e)
  }

  datatype After =
    | AfterShutWr
    | AfterKeepalive(resetTimer: Timer, stashed: bool, stashPlan: Plan, stashEnv: Env)
    | AfterClose

  function ResetRequest(w: World, c: Id, t: Timer): (w': World) {
    var r := At(w, c).(closing := false, draining := false, recvArmed := false, pollArmed := false);
    Reschedule(Set(w, c, r), c, t)
  }

  function FullResponse(w: World, c: Id, cfd: int, a: After, e: Env): (w': World) {
    var w1 := MaybeReschedule(w, c, e.rearm);
    match a
    case AfterShutWr => PostRecv(w1, c, e.recvSqe)
    case AfterKeepalive(t, stashed, p, se) =>
      var w2 := ResetRequest(w1, c, t);
      var w3 := if stashed then ApplyAction(w2, c, cfd, p, se) else w2;
      if stashed && !p.Continue? then w3
      else Reschedule(PostRecv(w3, c, e.recvSqe), c, e.timer)
    case AfterClose => Close(w1, cfd, e.close).0
  }

  datatype SendfileEnd = SfPollout | SfError | SfShutWr | SfFull(after: After)

  /** The sendfile loop: every partial write restarts the write timeout, then it ends one way. */
  function SendfileProgress(w: World, c: Id, cfd: int, resumes: seq<Timer>, end: SendfileEnd, e: Env): (w': World)
    decreases |resumes|
  {
    if resumes != [] then
      SendfileProgress(Reschedule(w, c, resumes[0]), c, cfd, resumes[1..], end, e)
    else
      match end
      case SfPollout => ArmPollout(w, c, cfd, e)
      case SfError => Close(MaybeReschedule(w, c, e.rearm), cfd, e.close).0
      case SfShutWr =>
        PostRecv(MaybeReschedule(CancelPoll(w, c, e.sqe.Slot?), c, e.rearm), c, e.recvSqe)
      case SfFull(a) => FullResponse(CancelPoll(w, c, e.sqe.Slot?), c, cfd, a, e)
  }

  datatype WriteInput =
    | WSendHeaders(pending: bool)
    | WSendfile(resumes: seq<Timer>, end: SendfileEnd)
    | WPollout
    | WShutWr
    | WDone(after: After)
    | WError
    | WNoop

  function WriteHandler(w: World, c: Id, cfd: int, started: Rearm, i: WriteInput, e: Env): (w': World) {
    var w1 := MaybeReschedule(w, c, started);
    match i
    case WSendHeaders(pending) => PostRemaining(w1, c, cfd, pending, true, e)
    case WSendfile(resumes, end) =>
      SendfileProgress(CancelPoll(w1, c, e.submit.Slot?), c, cfd, resumes, end, e)
    case WPollout => ArmPollout(w1, c, cfd, e)
    case WShutWr => PostRecv(MaybeReschedule(CancelPoll(w1, c, e.submit.Slot?), c, e.rearm), c, e.recvSqe)
    case WDone(a) => FullResponse(CancelPoll(w1, c, e.submit.Slot?), c, cfd, a, e)
    case WError => Close(MaybeReschedule(w1, c, e.rearm), cfd, e.close).0
    case WNoop => w1
  }

  datatype ReadyInput = RSendfile(resumes: seq<Timer>, end: SendfileEnd) | RSendHeaders(pending: bool) | RNoop

  function ReadyHandler(w: World, c: Id, cfd: int, i: ReadyInput, e: Env): (w': World) {
    var w1 := Set(w, c, At(w, c).(pollArmed := false));
    match i
    case RSendfile(resumes, end) => SendfileProgress(w1, c, cfd, resumes, end, e)
    case RSendHeaders(pending) => PostRemaining(w1, c, cfd, pending, false, e)
    case RNoop => w1
  }

  datatype Input =
    | InRead(read: ReadInput)
    | InWrite(started: Rearm, write: WriteInput)
    | InReady(noResponse: bool, ready: ReadyInput)

  /** The dispatch on a completion that names a connection. */
  function Complete(w: World, op: Op, i: Input, e: Env): (w': World) {
    var c := op.c;
    var r := At(w, c);
    match op.kind
    case CloseOp => Finish(Set(w, c, r.(fd := -1)), op)
    case Send =>
      if r.fd < 0 || !i.InWrite? then Finish(w, op)
      else Finish(WriteHandler(w, c, r.fd, i.started, i.write, e), op)
    case Pollout =>
      if r.fd < 0 || !i.InReady? || (r.closing && i.noResponse) then Finish(w, op)
      else Finish(ReadyHandler(w, c, r.fd, i.ready, e), op)
    case Recv =>
      if r.fd < 0 || r.closing || !i.InRead? then Finish(Set(w, c, r.(recvArmed := false)), op)
      else Finish(ReadHandler(w, c, r.fd, i.read, e), op)
  }

  // ----- the invariant --------------------------------------------------------------

  function OpsOf(ops: multiset<Op>, c: Id): (n: nat) {
    ops[Op(Recv, c)] + ops[Op(Send, c)] + ops[Op(Pollout, c)] + ops[Op(CloseOp, c)]
  }

  /** `k` references of connection `x` are in the hands of the running handler. */
  ghost predicate RefsOk(w: World, x: Id, k: nat) {
    forall c :: Live(w, c) ==>
      && w.conns[c].refcnt ==
           (if w.conns[c].fd >= 0 then 1 else 0) + OpsOf(w.ops, c) + (if c == x then k else 0)
      && w.conns[c].refcnt >= 1
  }

  ghost predicate OpsOk(w: World) {
    forall op :: op in w.ops ==> Live(w, op.c) && (op.kind.CloseOp? ==> w.conns[op.c].fd == -1)
  }

  ghost predicate StoreOk(w: World) {
    && (forall fd :: fd in w.store ==>
          fd >= 0 && Live(w, w.store[fd]) && w.conns[w.store[fd]].fd == fd)
    && (forall c :: Live(w, c) && w.conns[c].fd >= 0 ==>
          w.conns[c].fd in w.store && w.store[w.conns[c].fd] == c)
  }

  ghost predicate ActiveOk(w: World) {
    && (forall i :: 0 <= i < |w.active| ==>
          && w.active[i] in w.store
          && At(w, w.store[w.active[i]]).inActive
          && At(w, w.store[w.active[i]]).activeIdx == i)
    && (forall c :: Live(w, c) && w.conns[c].inActive ==>
          && w.conns[c].fd >= 0
          && 0 <= w.conns[c].activeIdx < |w.active|
          && w.active[w.conns[c].activeIdx] == w.conns[c].fd)
  }

  /** `pend` is the part of a bucket a running tick has detached and not yet visited. */
  ghost predicate WheelOk(w: World, pend: seq<Id>) {
    && (forall s :: 0 <= s < |w.wheel| ==> NoDup(w.wheel[s]))
    && (forall s, c :: 0 <= s < |w.wheel| && c in w.wheel[s] ==>
          Live(w, c) && w.conns[c].armed && w.conns[c].slot == s && w.conns[c].fd >= 0 && c !in pend)
    && NoDup(pend)
    && (forall c :: c in pend ==> Live(w, c) && w.conns[c].armed && w.conns[c].fd >= 0)
    && (forall c :: c in w.conns && w.conns[c].armed ==>
          c in pend || (w.conns[c].slot < |w.wheel| && c in w.wheel[w.conns[c].slot]))
  }

  ghost predicate FreeOk(w: World) {
    && NoDup(w.free)
    && |w.free| <= FREELIST_CAP
    && (forall c :: c in w.free ==>
          c in w.conns && w.conns[c].fd == -1 && !w.conns[c].armed && !w.conns[c].inActive)
  }

  ghost predicate CountOk(w: World) {
    && w.counted == |w.store|
    && w.queue.sockets.Keys !! w.leaked
  }

  ghost predicate LifeOk(w: World) {
    forall c :: w.born[c] == w.died[c] + (if Live(w, c) then 1 else 0)
  }

  ghost predicate RingOk(w: World) {
    QueueOk(w.queue, w.store, w.ops, w.batch)
  }

  ghost predicate Books(w: World, pend: seq<Id>, x: Id, k: nat) {
    && !w.fault
    && RefsOk(w, x, k) && OpsOk(w) && StoreOk(w) && ActiveOk(w)
    && WheelOk(w, pend) && FreeOk(w) && CountOk(w) && LifeOk(w)
  }

  ghost predicate Inv(w: World, pend: seq<Id>, x: Id, k: nat) {
    Books(w, pend, x, k) && RingOk(w)
  }

  // ----- frames: which part of the world each clause of the invariant looks at ---------

  ghost predicate SameBlocks(w: World, v: World) {
    w.conns.Keys == v.conns.Keys && w.free == v.free
  }

  ghost predicate SameFds(w: World, v: World) {
    SameBlocks(w, v) && forall c :: c in w.conns ==> w.conns[c].fd == v.conns[c].fd
  }

  lemma RefsFrame(w: World, v: World, x: Id, k: nat)
    requires RefsOk(w, x, k) && SameFds(w, v) && w.ops == v.ops
    requires forall c :: c in w.conns ==> w.conns[c].refcnt == v.conns[c].refcnt
    ensures RefsOk(v, x, k)
  {
  }

  lemma OpsFrame(w: World, v: World)
    requires OpsOk(w) && SameFds(w, v) && w.ops == v.ops
    ensures OpsOk(v)
  {
  }

  lemma StoreFrame(w: World, v: World)
    requires StoreOk(w) && SameFds(w, v) && w.store == v.store
    ensures StoreOk(v)
  {
  }

  ghost predicate SameActive(w: World, v: World) {
    && SameFds(w, v) && w.store == v.store && w.active == v.active
    && forall c :: c in w.conns ==>
         w.conns[c].inActive == v.conns[c].inActive && w.conns[c].activeIdx == v.conns[c].activeIdx
  }

  lemma ActiveFrame(w: World, v: World)
    requires ActiveOk(w) && StoreOk(w) && SameActive(w, v)
    ensures ActiveOk(v)
  {
    forall i | 0 <= i < |v.active| ensures v.active[i] in v.store
      && At(v, v.store[v.active[i]]).inActive && At(v, v.store[v.active[i]]).activeIdx == i
    {
      assert w.active[i] in w.store;
    }
    forall c | Live(v, c) && v.conns[c].inActive ensures v.conns[c].fd >= 0
      && 0 <= v.conns[c].activeIdx < |v.active| && v.active[v.conns[c].activeIdx] == v.conns[c].fd
    {
      assert Live(w, c);
    }
  }

  ghost predicate SameWheel(w: World, v: World) {
    && SameBlocks(w, v) && w.wheel == v.wheel
    && forall c :: c in w.conns ==>
         && w.conns[c].armed == v.conns[c].armed
         && w.conns[c].slot == v.conns[c].slot
         && (w.conns[c].armed ==> w.conns[c].fd == v.conns[c].fd)
  }

  lemma WheelFrame(w: World, v: World, pend: seq<Id>)
    requires WheelOk(w, pend) && SameWheel(w, v)
    ensures WheelOk(v, pend)
  {
    hide NoDup;
    forall s, c: Id | 0 <= s < |v.wheel| && c in v.wheel[s] ensures
      Live(v, c) && v.conns[c].armed && v.conns[c].slot == s && v.conns[c].fd >= 0 && c !in pend
    {
      assert c in w.wheel[s] && Live(w, c);
    }
    forall c: Id | c in pend ensures Live(v, c) && v.conns[c].armed && v.conns[c].fd >= 0 {
      assert Live(w, c);
    }
    forall c: Id | c in v.conns && v.conns[c].armed
      ensures c in pend || (v.conns[c].slot < |v.wheel| && c in v.wheel[v.conns[c].slot])
    {
      assert c in w.conns && w.conns[c].armed;
    }
    forall s | 0 <= s < |v.wheel| ensures NoDup(v.wheel[s]) {
      assert NoDup(w.wheel[s]);
    }
  }

  lemma FreeFrame(w: World, v: World)
    requires FreeOk(w) && SameBlocks(w, v)
    requires forall c :: c in w.free && c in w.conns ==> w.conns[c] == v.conns[c]
    ensures FreeOk(v)
  {
  }

  lemma LifeFrame(w: World, v: World)
    requires LifeOk(w) && SameBlocks(w, v) && w.born == v.born && w.died == v.died
    ensures LifeOk(v)
  {
  }

  // ----- what each primitive keeps ----------------------------------------------------

  /** Bookkeeping that touches neither references, descriptor, links nor indices. */
  predicate SameCore(a: Conn, b: Conn) {
    && a.fd == b.fd && a.refcnt == b.refcnt && a.inActive == b.inActive
    && a.activeIdx == b.activeIdx && a.armed == b.armed && a.slot == b.slot
  }

  lemma FlagsKeepInv(w: World, pend: seq<Id>, x: Id, k: nat, c: Id, r: Conn)
    requires Inv(w, pend, x, k) && Live(w, c) && SameCore(w.conns[c], r)
    ensures Inv(Set(w, c, r), pend, x, k)
  {
    hide QueueOk, RefsOk, OpsOk, StoreOk, ActiveOk, WheelOk, FreeOk, LifeOk;
    var v := Set(w, c, r);
    RefsFrame(w, v, x, k);
    OpsFrame(w, v);
    StoreFrame(w, v);
    ActiveFrame(w, v);
    WheelFrame(w, v, pend);
    FreeFrame(w, v);
    LifeFrame(w, v);
  }

  lemma RefKeepsInv(w: World, pend: seq<Id>, x: Id, k: nat, c: Id)
    requires Inv(w, pend, x, k) && Live(w, c) && (k == 0 || x == c)
    ensures Inv(Ref(w, c), pend, c, k + 1)
    ensures Live(Ref(w, c), c)
    ensures Ref(w, c) == w.(conns := w.conns[c := w.conns[c].(refcnt := w.conns[c].refcnt + 1)])
  {
    hide QueueOk, RefsOk, OpsOk, StoreOk, ActiveOk, WheelOk, FreeOk, LifeOk;
    RefsAfterRef(w, x, k, c);
    CountFrame(w, pend, c, w.conns[c].refcnt + 1);
  }

  lemma RefsAfterRef(w: World, x: Id, k: nat, c: Id)
    requires RefsOk(w, x, k) && Live(w, c) && (k == 0 || x == c)
    ensures RefsOk(Ref(w, c), c, k + 1)
  {
  }

  /** The queue is in the books only through its open numbers. */
  lemma QueueFrame(w: World, pend: seq<Id>, x: Id, k: nat, q: Queue)
    requires Books(w, pend, x, k) && q.sockets.Keys <= w.queue.sockets.Keys
    ensures Books(w.(queue := q), pend, x, k)
  {
    hide QueueOk, RefsOk, OpsOk, StoreOk, ActiveOk, WheelOk, FreeOk, LifeOk;
    var v := w.(queue := q);
    RefsFrame(w, v, x, k);
    OpsFrame(w, v);
    StoreFrame(w, v);
    ActiveFrame(w, v);
    WheelFrame(w, v, pend);
    FreeFrame(w, v);
    LifeFrame(w, v);
  }

  /** Submitting changes nothing the worker keeps books of. */
  lemma SubmitKeepsInv(w: World, pend: seq<Id>, x: Id, k: nat, n: nat)
    requires Inv(w, pend, x, k)
    ensures Inv(Submit(w, n), pend, x, k)
  {
    hide QueueOk, Books, Flush;
    QueueFrame(w, pend, x, k, Flush(w.queue, n));
    FlushKeeps(w.queue, n, w.store, w.ops, w.batch);
  }

  /** A reference held by the handler travels with an operation. */
  lemma HandOverKeepsBooks(w: World, pend: seq<Id>, k: nat, c: Id, kind: OpKind)
    requires Books(w, pend, c, k + 1) && Live(w, c)
    requires kind.CloseOp? ==> w.conns[c].fd == -1
    ensures Books(w.(ops := w.ops + multiset{Op(kind, c)}), pend, c, k)
  {
    hide QueueOk, RefsOk, OpsOk, StoreOk, ActiveOk, WheelOk, FreeOk, LifeOk;
    var v := w.(ops := w.ops + multiset{Op(kind, c)});
    HandOverRefs(w, k, c, kind);
    StoreFrame(w, v);
    ActiveFrame(w, v);
    WheelFrame(w, v, pend);
    FreeFrame(w, v);
    LifeFrame(w, v);
  }

  lemma HandOverRefs(w: World, k: nat, c: Id, kind: OpKind)
    requires RefsOk(w, c, k + 1) && OpsOk(w) && Live(w, c)
    requires kind.CloseOp? ==> w.conns[c].fd == -1
    ensures RefsOk(w.(ops := w.ops + multiset{Op(kind, c)}), c, k)
    ensures OpsOk(w.(ops := w.ops + multiset{Op(kind, c)}))
  {
    hide OpsOf;
    var v := w.(ops := w.ops + multiset{Op(kind, c)});
    forall d | Live(v, d) ensures OpsOf(v.ops, d) == OpsOf(w.ops, d) + (if d == c then 1 else 0) {
      OneMore(w.ops, Op(kind, c), d);
    }
  }

  lemma OneMore(ops: multiset<Op>, op: Op, c: Id)
    ensures OpsOf(ops + multiset{op}, c) == OpsOf(ops, c) + (if c == op.c then 1 else 0)
  {
    assert op == Op(op.kind, op.c);
    match op.kind case Recv => case Send => case Pollout => case CloseOp =>
  }

  /** A completed operation gives its reference back to the handler. */
  lemma GiveBackKeepsInv(w: World, pend: seq<Id>, k: nat, op: Op)
    requires Inv(w, pend, op.c, k) && op in w.batch
    ensures op in w.ops && Live(w, op.c)
    ensures Inv(w.(ops := w.ops - multiset{op}, batch := w.batch - multiset{op}), pend, op.c, k + 1)
  {
    hide QueueOk, RefsOk, StoreOk, ActiveOk, WheelOk, FreeOk, LifeOk;
    var v := w.(ops := w.ops - multiset{op}, batch := w.batch - multiset{op});
    FetchedIsOutstanding(w.queue, w.store, w.ops, w.batch, op);
    GiveBackRefs(w, k, op);
    RefsFrame(w.(ops := v.ops), v, op.c, k + 1);
    OpsFrame(w.(ops := v.ops), v);
    StoreFrame(w, v);
    ActiveFrame(w, v);
    WheelFrame(w, v, pend);
    FreeFrame(w, v);
    LifeFrame(w, v);
  }

  lemma OneLess(ops: multiset<Op>, op: Op, c: Id)
    requires op in ops
    ensures OpsOf(ops - multiset{op}, c) == OpsOf(ops, c) - (if c == op.c then 1 else 0)
  {
    assert op == Op(op.kind, op.c);
    match op.kind case Recv => case Send => case Pollout => case CloseOp =>
  }

  lemma GiveBackRefs(w: World, k: nat, op: Op)
    requires RefsOk(w, op.c, k) && OpsOk(w) && op in w.ops
    ensures RefsOk(w.(ops := w.ops - multiset{op}), op.c, k + 1)
    ensures OpsOk(w.(ops := w.ops - multiset{op}))
  {
    hide OpsOf;
    var v := w.(ops := w.ops - multiset{op});
    assert forall c :: Live(v, c) <==> Live(w, c);
    forall c ensures OpsOf(v.ops, c) == OpsOf(w.ops, c) - (if c == op.c then 1 else 0) {
      OneLess(w.ops, op, c);
    }
    assert forall o :: o in v.ops ==> o in w.ops;
  }

  // Dropping a reference.

  ghost predicate Recycled(w: World, v: World, c: Id) {
    && v == w.(conns := v.conns, free := v.free, died := w.died + multiset{c})
    && (forall d :: Live(v, d) <==> Live(w, d) && d != c)
    && (forall d :: d != c ==> (d in v.conns <==> d in w.conns))
    && (forall d :: d in w.conns && d != c ==> v.conns[d] == w.conns[d])
    && (c in v.conns ==>
          c in v.free && v.conns[c].fd == -1 && !v.conns[c].armed && !v.conns[c].inActive)
    && (v.free == w.free || (|w.free| < FREELIST_CAP && c in v.conns && v.free == [c] + w.free))
  }

  lemma PutRecycles(w: World, c: Id)
    requires Live(w, c) && w.conns[c].refcnt == 1 && FreeOk(w)
    ensures Recycled(w, Put(w, c), c)
  {
    var v := Put(w, c);
    forall d ensures Live(v, d) <==> Live(w, d) && d != c {
    }
  }

  lemma RecycledRefs(w: World, v: World, c: Id)
    requires Recycled(w, v, c) && RefsOk(w, c, 1) && OpsOk(w) && Live(w, c) && w.conns[c].refcnt == 1
    ensures w.conns[c].fd < 0
    ensures RefsOk(v, c, 0) && OpsOk(v)
  {
    forall op | op in v.ops ensures Live(v, op.c) && (op.kind.CloseOp? ==> v.conns[op.c].fd == -1) {
      assert op in w.ops;
      assert OpsOf(w.ops, c) == 0;
      assert op == Op(op.kind, op.c);
      match op.kind case Recv => case Send => case Pollout => case CloseOp =>
    }
    forall d | Live(v, d) ensures Live(w, d) {
    }
  }

  lemma RecycledTables(w: World, v: World, c: Id)
    requires Recycled(w, v, c) && StoreOk(w) && ActiveOk(w) && Live(w, c) && w.conns[c].fd < 0
    ensures StoreOk(v) && ActiveOk(v)
  {
    assert forall d :: Live(v, d) ==> Live(w, d);
    forall fd | fd in v.store ensures fd >= 0 && Live(v, v.store[fd]) && v.conns[v.store[fd]].fd == fd {
      assert fd in w.store;
    }
    forall i | 0 <= i < |v.active| ensures v.active[i] in v.store
      && At(v, v.store[v.active[i]]).inActive && At(v, v.store[v.active[i]]).activeIdx == i
    {
      assert w.active[i] in w.store;
    }
  }

  lemma RecycledWheel(w: World, v: World, c: Id, pend: seq<Id>)
    requires Recycled(w, v, c) && WheelOk(w, pend) && Live(w, c) && w.conns[c].fd < 0
    ensures WheelOk(v, pend)
  {
    assert c !in pend;
    forall d | d in v.conns && v.conns[d].armed
      ensures d in pend || (v.conns[d].slot < |v.wheel| && d in v.wheel[v.conns[d].slot])
    {
      assert d != c && d in w.conns;
    }
  }

  lemma RecycledFree(w: World, v: World, c: Id)
    requires Recycled(w, v, c) && FreeOk(w) && LifeOk(w) && Live(w, c)
    ensures FreeOk(v) && LifeOk(v)
  {
    forall d | d in v.free
      ensures d in v.conns && v.conns[d].fd == -1 && !v.conns[d].armed && !v.conns[d].inActive
    {
      if d != c {
        assert d in w.free;
      }
    }
  }

  /** Dropping a reference keeps the protocol; the last one recycles the connection. */
  lemma PutKeepsInv(w: World, pend: seq<Id>, k: nat, c: Id)
    requires Inv(w, pend, c, k + 1) && Live(w, c)
    ensures Inv(Put(w, c), pend, c, k)
    ensures Live(Put(w, c), c) <==> w.conns[c].refcnt > 1
    ensures Put(w, c).store == w.store && Put(w, c).ops == w.ops && Put(w, c).batch == w.batch
    ensures Live(Put(w, c), c) ==> Put(w, c).conns[c] == w.conns[c].(refcnt := w.conns[c].refcnt - 1)
  {
    hide QueueOk, RefsOk, OpsOk, StoreOk, ActiveOk, WheelOk, FreeOk, LifeOk;
    var v := Put(w, c);
    assert w.conns[c].refcnt >= k + 1 by { RefsAtLeast(w, k + 1, c); }
    if w.conns[c].refcnt == 1 {
      LastPutKeepsInv(w, pend, c);
    } else {
      PutRefs(w, k, c);
      CountFrame(w, pend, c, w.conns[c].refcnt - 1);
    }
  }

  lemma LastPutKeepsInv(w: World, pend: seq<Id>, c: Id)
    requires Inv(w, pend, c, 1) && Live(w, c) && w.conns[c].refcnt == 1
    ensures Inv(Put(w, c), pend, c, 0) && !Live(Put(w, c), c)
    ensures Put(w, c).store == w.store && Put(w, c).ops == w.ops && Put(w, c).batch == w.batch
  {
    hide QueueOk, RefsOk, OpsOk, StoreOk, ActiveOk, WheelOk, FreeOk, LifeOk, Put;
    var v := Put(w, c);
    PutRecycles(w, c);
    RecycledRefs(w, v, c);
    RecycledTables(w, v, c);
    RecycledWheel(w, v, c, pend);
    RecycledFree(w, v, c);
  }

  /** Everything but the references themselves is blind to a reference count. */
  lemma CountFrame(w: World, pend: seq<Id>, c: Id, n: int)
    requires OpsOk(w) && StoreOk(w) && ActiveOk(w) && WheelOk(w, pend) && FreeOk(w) && LifeOk(w)
    requires Live(w, c)
    ensures var v := w.(conns := w.conns[c := w.conns[c].(refcnt := n)]);
      OpsOk(v) && StoreOk(v) && ActiveOk(v) && WheelOk(v, pend) && FreeOk(v) && LifeOk(v)
  {
    hide QueueOk, OpsOk, StoreOk, ActiveOk, WheelOk, FreeOk, LifeOk;
    var v := w.(conns := w.conns[c := w.conns[c].(refcnt := n)]);
    OpsFrame(w, v);
    StoreFrame(w, v);
    ActiveFrame(w, v);
    WheelFrame(w, v, pend);
    FreeFrame(w, v);
    LifeFrame(w, v);
  }

  lemma RefsAtLeast(w: World, k: nat, c: Id)
    requires RefsOk(w, c, k) && Live(w, c)
    ensures w.conns[c].refcnt >= k && w.conns[c].refcnt >= 1
  {
  }

  lemma PutRefs(w: World, k: nat, c: Id)
    requires RefsOk(w, c, k + 1) && Live(w, c) && w.conns[c].refcnt > 1
    ensures RefsOk(Put(w, c), c, k)
  {
  }

  // The timer.

  predicate SameButTimer(a: Conn, b: Conn) {
    a == b.(kind := a.kind, armed := a.armed, slot := a.slot)
  }

  /** Everything but the wheel is blind to a connection's timer and to the buckets. */
  lemma TimerFrame(w: World, x: Id, k: nat, c: Id, r: Conn, wheel: seq<seq<Id>>)
    requires RefsOk(w, x, k) && OpsOk(w) && StoreOk(w) && ActiveOk(w) && FreeOk(w) && LifeOk(w)
    requires Live(w, c) && SameButTimer(r, w.conns[c])
    ensures var v := w.(conns := w.conns[c := r], wheel := wheel);
      RefsOk(v, x, k) && OpsOk(v) && StoreOk(v) && ActiveOk(v) && FreeOk(v) && LifeOk(v)
  {
    hide QueueOk, RefsOk, OpsOk, StoreOk, ActiveOk, WheelOk, FreeOk, LifeOk;
    var v := w.(conns := w.conns[c := r], wheel := wheel);
    RefsFrame(w, v, x, k);
    OpsFrame(w, v);
    StoreFrame(w, v);
    ActiveFrame(w, v);
    FreeFrame(w, v);
    LifeFrame(w, v);
  }

  lemma CancelKeepsInv(w: World, pend: seq<Id>, x: Id, k: nat, c: Id)
    requires Inv(w, pend, x, k) && Live(w, c) && c !in pend
    ensures Inv(CancelTimer(w, c), pend, x, k)
    ensures Live(CancelTimer(w, c), c)
    ensures CancelTimer(w, c).conns[c] == w.conns[c].(armed := false, kind := NoKind)
    ensures CancelTimer(w, c).store == w.store && CancelTimer(w, c).ops == w.ops && CancelTimer(w, c).batch == w.batch
  {
    hide QueueOk, RefsOk, OpsOk, StoreOk, ActiveOk, WheelOk, FreeOk, LifeOk, Without;
    CancelWheel(w, pend, c);
    TimerFrame(w, x, k, c, w.conns[c].(armed := false, kind := NoKind), CancelTimer(w, c).wheel);
  }

  lemma CancelWheel(w: World, pend: seq<Id>, c: Id)
    requires WheelOk(w, pend) && Live(w, c) && c !in pend
    ensures WheelOk(CancelTimer(w, c), pend)
  {
    var r := w.conns[c].(armed := false, kind := NoKind);
    if w.conns[c].armed {
      UnlinkWheel(w, pend, c, r);
    } else {
      WheelFrame(w, CancelTimer(w, c), pend);
    }
  }

  lemma UnlinkWheel(w: World, pend: seq<Id>, c: Id, r: Conn)
    requires WheelOk(w, pend) && Live(w, c) && c !in pend && w.conns[c].armed && !r.armed
    ensures var s := w.conns[c].slot;
      && s < |w.wheel|
      && WheelOk(w.(conns := w.conns[c := r], wheel := w.wheel[s := Without(w.wheel[s], c)]), pend)
  {
    hide Without, NoDup;
    var s := w.conns[c].slot;
    WithoutKeepsTheRest(w.wheel[s], c);
    UnlinkBuckets(w, pend, c, r, Without(w.wheel[s], c));
    UnlinkArmed(w, pend, c, r, Without(w.wheel[s], c));
  }

  /** What is left in the buckets is as it was. */
  lemma UnlinkBuckets(w: World, pend: seq<Id>, c: Id, r: Conn, rest: seq<Id>)
    requires WheelOk(w, pend) && Live(w, c) && w.conns[c].armed && w.conns[c].slot < |w.wheel|
    requires forall d :: d in rest <==> d in w.wheel[w.conns[c].slot] && d != c
    ensures var v := w.(conns := w.conns[c := r], wheel := w.wheel[w.conns[c].slot := rest]);
      forall t, d :: 0 <= t < |v.wheel| && d in v.wheel[t] ==>
        Live(v, d) && v.conns[d].armed && v.conns[d].slot == t && v.conns[d].fd >= 0 && d !in pend
  {
    hide NoDup;
    var v := w.(conns := w.conns[c := r], wheel := w.wheel[w.conns[c].slot := rest]);
    forall t, d | 0 <= t < |v.wheel| && d in v.wheel[t] ensures
      Live(v, d) && v.conns[d].armed && v.conns[d].slot == t && v.conns[d].fd >= 0 && d !in pend
    {
      assert d in w.wheel[t];
      assert d != c;
    }
  }

  /** What is still armed is still in its bucket. */
  lemma UnlinkArmed(w: World, pend: seq<Id>, c: Id, r: Conn, rest: seq<Id>)
    requires WheelOk(w, pend) && c in w.conns && w.conns[c].armed && !r.armed && w.conns[c].slot < |w.wheel|
    requires forall d :: d != c ==> (d in rest <==> d in w.wheel[w.conns[c].slot])
    ensures var v := w.(conns := w.conns[c := r], wheel := w.wheel[w.conns[c].slot := rest]);
      forall d :: d in v.conns && v.conns[d].armed ==>
        d in pend || (v.conns[d].slot < |v.wheel| && d in v.wheel[v.conns[d].slot])
  {
    hide NoDup;
    var v := w.(conns := w.conns[c := r], wheel := w.wheel[w.conns[c].slot := rest]);
    forall d | d in v.conns && v.conns[d].armed
      ensures d in pend || (v.conns[d].slot < |v.wheel| && d in v.wheel[v.conns[d].slot])
    {
      assert d != c && d in w.conns && w.conns[d].armed;
    }
  }

  lemma InsertKeepsInv(w: World, pend: seq<Id>, x: Id, k: nat, c: Id, t: Timer)
    requires Inv(w, pend, x, k) && Live(w, c) && !w.conns[c].armed
    ensures Inv(InsertTimer(w, c, t), pend, x, k)
    ensures Live(InsertTimer(w, c, t), c)
    ensures SameButTimer(InsertTimer(w, c, t).conns[c], w.conns[c])
    ensures InsertTimer(w, c, t).store == w.store && InsertTimer(w, c, t).ops == w.ops
    ensures InsertTimer(w, c, t).batch == w.batch
  {
    hide QueueOk, RefsOk, OpsOk, StoreOk, ActiveOk, WheelOk, FreeOk, LifeOk;
    var v := InsertTimer(w, c, t);
    InsertWheel(w, pend, c, t);
    TimerFrame(w, x, k, c, v.conns[c], v.wheel);
  }

  lemma InsertWheel(w: World, pend: seq<Id>, c: Id, t: Timer)
    requires WheelOk(w, pend) && Live(w, c) && !w.conns[c].armed
    ensures WheelOk(InsertTimer(w, c, t), pend)
  {
    if w.conns[c].fd >= 0 && t.Due? && t.slot < |w.wheel| {
      LinkWheel(w, pend, c, t);
    } else {
      WheelFrame(w, InsertTimer(w, c, t), pend);
    }
  }

  lemma LinkWheel(w: World, pend: seq<Id>, c: Id, t: Timer)
    requires WheelOk(w, pend) && Live(w, c) && !w.conns[c].armed && w.conns[c].fd >= 0
    requires t.Due? && t.slot < |w.wheel|
    ensures
      var r := w.conns[c].(kind := t.kind, armed := true, slot := t.slot);
      WheelOk(w.(conns := w.conns[c := r], wheel := w.wheel[t.slot := [c] + w.wheel[t.slot]]), pend)
  {
    UnarmedIsUnlisted(w, pend, c);
    assert NoDup([c] + w.wheel[t.slot]);
    hide NoDup;
    LinkedBuckets(w, pend, c, t);
    LinkedArmed(w, pend, c, t);
  }

  lemma UnarmedIsUnlisted(w: World, pend: seq<Id>, c: Id)
    requires WheelOk(w, pend) && c in w.conns && !w.conns[c].armed
    ensures c !in pend && forall s :: 0 <= s < |w.wheel| ==> c !in w.wheel[s]
  {
    hide NoDup;
  }

  lemma LinkedBuckets(w: World, pend: seq<Id>, c: Id, t: Timer)
    requires WheelOk(w, pend) && Live(w, c) && !w.conns[c].armed && w.conns[c].fd >= 0
    requires t.Due? && t.slot < |w.wheel|
    ensures
      var r := w.conns[c].(kind := t.kind, armed := true, slot := t.slot);
      var v := w.(conns := w.conns[c := r], wheel := w.wheel[t.slot := [c] + w.wheel[t.slot]]);
      forall s, d :: 0 <= s < |v.wheel| && d in v.wheel[s] ==>
        Live(v, d) && v.conns[d].armed && v.conns[d].slot == s && v.conns[d].fd >= 0 && d !in pend
  {
    hide NoDup;
    UnarmedIsUnlisted(w, pend, c);
    var r := w.conns[c].(kind := t.kind, armed := true, slot := t.slot);
    var v := w.(conns := w.conns[c := r], wheel := w.wheel[t.slot := [c] + w.wheel[t.slot]]);
    forall s, d | 0 <= s < |v.wheel| && d in v.wheel[s] ensures
      Live(v, d) && v.conns[d].armed && v.conns[d].slot == s && v.conns[d].fd >= 0 && d !in pend
    {
      if d != c {
        assert d in w.wheel[s];
      }
    }
  }

  lemma LinkedArmed(w: World, pend: seq<Id>, c: Id, t: Timer)
    requires WheelOk(w, pend) && Live(w, c) && t.Due? && t.slot < |w.wheel|
    ensures
      var r := w.conns[c].(kind := t.kind, armed := true, slot := t.slot);
      var v := w.(conns := w.conns[c := r], wheel := w.wheel[t.slot := [c] + w.wheel[t.slot]]);
      forall d :: d in v.conns && v.conns[d].armed ==>
        d in pend || (v.conns[d].slot < |v.wheel| && d in v.wheel[v.conns[d].slot])
  {
    hide NoDup;
    var r := w.conns[c].(kind := t.kind, armed := true, slot := t.slot);
    var v := w.(conns := w.conns[c := r], wheel := w.wheel[t.slot := [c] + w.wheel[t.slot]]);
    forall d | d in v.conns && v.conns[d].armed
      ensures d in pend || (v.conns[d].slot < |v.wheel| && d in v.wheel[v.conns[d].slot])
    {
      if d != c {
        assert d in w.conns && w.conns[d].armed;
      }
    }
  }

  // Letting go of the descriptor.

  ghost predicate Detached(w: World, v: World, c: Id, fd: int) {
    && c in w.conns && c in v.conns && w.conns.Keys == v.conns.Keys
    && v == w.(conns := v.conns, active := v.active, store := w.store - {fd}, counted := v.counted)
    && v.conns[c] == w.conns[c].(fd := -1, inActive := false, activeIdx := v.conns[c].activeIdx)
    && (forall d :: d in w.conns && d != c ==>
          v.conns[d] == w.conns[d].(activeIdx := v.conns[d].activeIdx))
  }

  /** The entry that swap-remove moves into the hole, with the index it gets. */
  ghost predicate ActiveAfter(w: World, v: World, c: Id)
    requires c in w.conns && w.conns.Keys == v.conns.Keys
  {
    var r := w.conns[c];
    if !r.inActive then
      v.active == w.active && forall d :: d in w.conns ==> v.conns[d].activeIdx == w.conns[d].activeIdx
    else
      var last := |w.active| - 1;
      && 0 <= r.activeIdx <= last
      && w.active[last] in w.store
      && v.active == SwapRemove(w.active, r.activeIdx)
      && forall d :: d in w.conns && d != c ==>
           v.conns[d].activeIdx ==
             if d == w.store[w.active[last]] then r.activeIdx else w.conns[d].activeIdx
  }

  lemma StoredIsLive(w: World, fd: int)
    requires StoreOk(w) && fd in w.store
    ensures fd >= 0 && Live(w, w.store[fd]) && w.conns[w.store[fd]].fd == fd
  {
  }

  /** What swap-remove does when the cached index is right and the last entry is stored. */
  lemma RemoveShape(w: World, fd: int, c: Id, idx: int, moved: int)
    requires fd in w.store && w.store[fd] == c && Live(w, c)
    requires w.conns[c].inActive && w.conns[c].activeIdx == idx
    requires 0 <= idx < |w.active| && w.active[idx] == fd
    requires w.active[|w.active| - 1] == moved && moved in w.store && Live(w, w.store[moved])
    requires moved == fd <==> idx == |w.active| - 1
    requires w.store[moved] == c <==> moved == fd
    ensures ActiveRemove(w, fd) ==
      w.(active := SwapRemove(w.active, idx),
         conns := w.conns[w.store[moved] := w.conns[w.store[moved]].(activeIdx := idx)]
                         [c := w.conns[c].(inActive := false, activeIdx := -1)])
  {
    hide ActiveRemove;
    if idx == |w.active| - 1 {
      RemoveLast(w, fd, c, idx);
      var gone := w.conns[c].(inActive := false, activeIdx := -1);
      LastWriteWins(w.conns, c, w.conns[c], gone, c, gone, w.conns[c].(activeIdx := idx));
    } else {
      RemoveOther(w, fd, c, idx, moved);
    }
  }

  lemma RemoveOther(w: World, fd: int, c: Id, idx: int, moved: int)
    requires fd in w.store && w.store[fd] == c && Live(w, c)
    requires w.conns[c].inActive && w.conns[c].activeIdx == idx
    requires 0 <= idx < |w.active| - 1 && w.active[idx] == fd
    requires w.active[|w.active| - 1] == moved && moved in w.store && Live(w, w.store[moved]) && w.store[moved] != c
    ensures ActiveRemove(w, fd) ==
      w.(active := SwapRemove(w.active, idx),
         conns := w.conns[w.store[moved] := w.conns[w.store[moved]].(activeIdx := idx)]
                         [c := w.conns[c].(inActive := false, activeIdx := -1)])
  {
    hide SwapRemove, IndexOf;
  }

  lemma RemoveLast(w: World, fd: int, c: Id, idx: int)
    requires fd in w.store && w.store[fd] == c && Live(w, c)
    requires w.conns[c].inActive && w.conns[c].activeIdx == idx == |w.active| - 1
    requires 0 <= idx && w.active[idx] == fd
    ensures ActiveRemove(w, fd) ==
      w.(active := SwapRemove(w.active, idx),
         conns := w.conns[c := w.conns[c].(inActive := false, activeIdx := -1)])
  {
  }

  lemma DetachSwap(w: World, c: Id, fd: int, idx: int, moved: int)
    requires fd in w.store && w.store[fd] == c && Live(w, c) && w.counted > 0
    requires w.conns[c].inActive && w.conns[c].activeIdx == idx
    requires 0 <= idx < |w.active| && w.active[idx] == fd
    requires w.active[|w.active| - 1] == moved && moved in w.store && Live(w, w.store[moved])
    requires moved == fd <==> idx == |w.active| - 1
    requires w.store[moved] == c <==> moved == fd
    ensures
      var m := w.store[moved];
      Detach(w, c, fd) ==
        w.(conns := w.conns[m := w.conns[m].(activeIdx := idx)]
                           [c := w.conns[c].(fd := -1, inActive := false, activeIdx := -1)],
           active := SwapRemove(w.active, idx), store := w.store - {fd}, counted := w.counted - 1)
  {
    hide ActiveRemove;
    var m := w.store[moved];
    var w1 := Set(w, c, At(w, c).(fd := -1));
    RemoveShape(w1, fd, c, idx, moved);
    var gone := w.conns[c].(fd := -1, inActive := false, activeIdx := -1);
    LastWriteWins(w.conns, c, w.conns[c].(fd := -1), gone,
                  m, w1.conns[m].(activeIdx := idx), w.conns[m].(activeIdx := idx));
  }

  lemma LastWriteWins<K, V>(f: map<K, V>, c: K, a: V, b: V, k: K, v1: V, v2: V)
    requires k != c ==> v1 == v2
    ensures f[c := a][k := v1][c := b] == f[k := v2][c := b]
  {
  }

  ghost predicate DetachedFully(w: World, v: World, c: Id, fd: int) {
    Detached(w, v, c, fd) && ActiveAfter(w, v, c) && v.counted == w.counted - 1
  }

  lemma DetachShape(w: World, c: Id, fd: int)
    requires StoreOk(w) && ActiveOk(w) && CountOk(w) && Live(w, c) && w.conns[c].fd == fd >= 0
    ensures DetachedFully(w, Detach(w, c, fd), c, fd)
  {
    hide Detach, DetachedFully;
    assert fd in w.store && w.store[fd] == c && |w.store| > 0;
    if w.conns[c].inActive {
      LastEntryIsLive(w, c);
      DetachSwapShape(w, c, fd, w.conns[c].activeIdx, w.active[|w.active| - 1]);
    } else {
      DetachPlainShape(w, c, fd);
    }
  }

  lemma DetachSwapShape(w: World, c: Id, fd: int, idx: int, moved: int)
    requires fd in w.store && w.store[fd] == c && Live(w, c) && w.counted > 0
    requires w.conns[c].inActive && w.conns[c].activeIdx == idx
    requires 0 <= idx < |w.active| && w.active[idx] == fd
    requires w.active[|w.active| - 1] == moved && moved in w.store && Live(w, w.store[moved])
    requires moved == fd <==> idx == |w.active| - 1
    requires w.store[moved] == c <==> moved == fd
    ensures DetachedFully(w, Detach(w, c, fd), c, fd)
  {
    hide Detach;
    DetachSwap(w, c, fd, idx, moved);
    var m := w.store[moved];
    TwoWrites(w.conns, m, w.conns[m].(activeIdx := idx),
              c, w.conns[c].(fd := -1, inActive := false, activeIdx := -1));
  }

  lemma TwoWrites<K, V>(f: map<K, V>, k: K, v: V, c: K, b: V)
    requires k in f && c in f
    ensures f[k := v][c := b].Keys == f.Keys
    ensures f[k := v][c := b][c] == b
    ensures forall d :: d in f && d != c ==> f[k := v][c := b][d] == if d == k then v else f[d]
  {
  }

  lemma DetachPlainShape(w: World, c: Id, fd: int)
    requires fd in w.store && w.store[fd] == c && Live(w, c) && w.counted > 0 && !w.conns[c].inActive
    ensures DetachedFully(w, Detach(w, c, fd), c, fd)
  {
    assert Detach(w, c, fd) ==
      w.(conns := w.conns[c := w.conns[c].(fd := -1)], store := w.store - {fd}, counted := w.counted - 1);
  }

  lemma LastEntryIsLive(w: World, c: Id)
    requires StoreOk(w) && ActiveOk(w) && Live(w, c) && w.conns[c].inActive
    ensures |w.active| > 0 && 0 <= w.conns[c].activeIdx < |w.active|
    ensures w.active[w.conns[c].activeIdx] == w.conns[c].fd
    ensures var moved := w.active[|w.active| - 1];
      && moved in w.store && Live(w, w.store[moved])
      && (moved == w.conns[c].fd <==> w.conns[c].activeIdx == |w.active| - 1)
      && (w.store[moved] == c <==> moved == w.conns[c].fd)
  {
    var moved := w.active[|w.active| - 1];
    StoredIsLive(w, moved);
  }

  lemma DetachRefs(w: World, v: World, k: nat, c: Id, fd: int)
    requires RefsOk(w, c, k) && OpsOk(w) && Live(w, c) && w.conns[c].fd == fd >= 0
    requires Detached(w, v, c, fd)
    ensures RefsOk(v, c, k + 1) && OpsOk(v)
  {
    assert forall d :: Live(v, d) <==> Live(w, d);
  }

  lemma DetachStore(w: World, v: World, c: Id, fd: int)
    requires StoreOk(w) && Live(w, c) && w.conns[c].fd == fd >= 0
    requires Detached(w, v, c, fd)
    ensures StoreOk(v)
  {
    assert forall d :: Live(v, d) <==> Live(w, d);
    forall g | g in v.store ensures g >= 0 && Live(v, v.store[g]) && v.conns[v.store[g]].fd == g {
      assert g in w.store && g != fd;
    }
  }

  lemma DetachActive(w: World, v: World, c: Id, fd: int)
    requires StoreOk(w) && ActiveOk(w) && Live(w, c) && w.conns[c].fd == fd >= 0
    requires Detached(w, v, c, fd) && ActiveAfter(w, v, c)
    ensures ActiveOk(v)
  {
    assert forall d :: Live(v, d) <==> Live(w, d);
    var idx, last := w.conns[c].activeIdx, |w.active| - 1;
    forall i | 0 <= i < |v.active| ensures v.active[i] in v.store
      && At(v, v.store[v.active[i]]).inActive && At(v, v.store[v.active[i]]).activeIdx == i
    {
      var j := if w.conns[c].inActive && i == idx then last else i;
      assert v.active[i] == w.active[j];
      assert w.active[j] in w.store;
      assert w.active[j] != fd;
    }
    forall d | Live(v, d) && v.conns[d].inActive ensures v.conns[d].fd >= 0
      && 0 <= v.conns[d].activeIdx < |v.active| && v.active[v.conns[d].activeIdx] == v.conns[d].fd
    {
      assert d != c && w.conns[d].inActive;
      var j := w.conns[d].activeIdx;
      assert w.active[j] == w.conns[d].fd;
      assert w.store[w.active[j]] == d;
    }
  }

  lemma DetachWheel(w: World, v: World, pend: seq<Id>, c: Id, fd: int)
    requires WheelOk(w, pend) && Live(w, c) && !w.conns[c].armed && Detached(w, v, c, fd)
    ensures WheelOk(v, pend)
  {
    WheelFrame(w, v, pend);
  }

  lemma DetachFree(w: World, v: World, c: Id, fd: int)
    requires FreeOk(w) && LifeOk(w) && CountOk(w) && StoreOk(w)
    requires Live(w, c) && w.conns[c].fd == fd >= 0
    requires Detached(w, v, c, fd) && v.counted == w.counted - 1
    requires forall d :: d in w.free && d in w.conns ==> v.conns[d].activeIdx == w.conns[d].activeIdx
    ensures FreeOk(v) && LifeOk(v) && CountOk(v)
  {
    FreeFrame(w, v);
    LifeFrame(w, v);
    assert fd in w.store;
    assert v.store.Keys == w.store.Keys - {fd};
  }

  /** The owner reference passes from the store to the handler. */
  lemma DetachKeepsBooks(w: World, pend: seq<Id>, k: nat, c: Id, fd: int)
    requires Books(w, pend, c, k) && Live(w, c) && !w.conns[c].armed && w.conns[c].fd == fd >= 0
    ensures Books(Detach(w, c, fd), pend, c, k + 1)
    ensures Detached(w, Detach(w, c, fd), c, fd)
  {
    hide RefsOk, OpsOk, StoreOk, ActiveOk, WheelOk, FreeOk, LifeOk, CountOk, Detach;
    var v := Detach(w, c, fd);
    DetachShape(w, c, fd);
    DetachRefs(w, v, k, c, fd);
    DetachStore(w, v, c, fd);
    DetachActive(w, v, c, fd);
    DetachWheel(w, v, pend, c, fd);
    SwapTouchesStoredOnly(w, v, c);
    DetachFree(w, v, c, fd);
  }

  /** An open connection has one number and no close on the way. */
  lemma OneNumber(w: World, c: Id, fd: int)
    requires StoreOk(w) && OpsOk(w) && Live(w, c) && w.conns[c].fd == fd >= 0
    ensures fd in w.store && w.store[fd] == c && Op(CloseOp, c) !in w.ops
    ensures forall g :: g in w.store && w.store[g] == c ==> g == fd
  {
  }

  /** Closed at once, whatever it has staged: the owner reference is the handler's. */
  lemma CloseNowKeepsInv(w: World, pend: seq<Id>, k: nat, c: Id, fd: int, taken: nat)
    requires Inv(w, pend, c, k) && Live(w, c) && !w.conns[c].armed && w.conns[c].fd == fd >= 0
    ensures var v := CloseNow(w, c, fd, taken);
      Inv(v, pend, c, k + 1) && Live(v, c) && v.store == w.store - {fd} && v.ops == w.ops && v.batch == w.batch
  {
    hide QueueOk, RefsOk, OpsOk, StoreOk, ActiveOk, WheelOk, FreeOk, LifeOk, CountOk, Detach, Flush, Shut;
    OneNumber(w, c, fd);
    DetachKeepsBooks(w, pend, k, c, fd);
    var q := Flush(w.queue, taken);
    FlushKeeps(w.queue, taken, w.store, w.ops, w.batch);
    ShutKeeps(q, c, fd, w.store, w.ops, w.batch);
    ShutShrinks(q, c, fd);
    QueueFrame(Detach(w, c, fd), pend, c, k + 1, Shut(q, c, fd));
  }

  /** Closed by a staged operation: the owner reference is that operation's. */
  lemma StageCloseKeepsInv(w: World, pend: seq<Id>, k: nat, c: Id, fd: int, taken: nat, flush: nat)
    requires Inv(w, pend, c, k) && Live(w, c) && !w.conns[c].armed && w.conns[c].fd == fd >= 0
    ensures var v := StageClose(w, c, fd, taken, flush);
      && Inv(v, pend, c, k) && Live(v, c) && v.store == w.store - {fd} && v.batch == w.batch
      && v.ops == w.ops + multiset{Op(CloseOp, c)} && v.conns[c].fd < 0 && !v.conns[c].armed
  {
    hide QueueOk, RefsOk, OpsOk, StoreOk, ActiveOk, WheelOk, FreeOk, LifeOk, CountOk, Detach, Flush, Push;
    OneNumber(w, c, fd);
    DetachKeepsBooks(w, pend, k, c, fd);
    var w1 := Detach(w, c, fd);
    HandOverKeepsBooks(w1, pend, k, c, CloseOp);
    var ops := w.ops + multiset{Op(CloseOp, c)};
    var q := Flush(w.queue, taken);
    FlushKeeps(w.queue, taken, w.store, w.ops, w.batch);
    PushCloseKeeps(q, c, fd, w.store, w.ops, w.batch);
    var q1 := Push(q, Entry(Op(CloseOp, c), fd, false, false));
    FlushKeeps(q1, flush, w.store - {fd}, ops, w.batch);
    PushOpensNone(q, Entry(Op(CloseOp, c), fd, false, false));
    QueueFrame(w1.(ops := ops), pend, c, k, Flush(q1, flush));
  }

  lemma SwapTouchesStoredOnly(w: World, v: World, c: Id)
    requires StoreOk(w) && ActiveOk(w) && Live(w, c) && w.conns.Keys == v.conns.Keys && ActiveAfter(w, v, c)
    ensures forall d :: d in w.free && d in w.conns ==> v.conns[d].activeIdx == w.conns[d].activeIdx
  {
    if w.conns[c].inActive {
      StoredIsLive(w, w.active[|w.active| - 1]);
    }
    forall d | d in w.free && d in w.conns ensures v.conns[d].activeIdx == w.conns[d].activeIdx {
      assert d != c;
    }
  }

  /** With the invariant the cached index is always right: the linear scan never runs. */
  lemma CachedIndexIsExact(w: World, pend: seq<Id>, x: Id, k: nat, fd: int)
    requires Inv(w, pend, x, k) && fd in w.store && At(w, w.store[fd]).inActive
    ensures var r := At(w, w.store[fd]);
      0 <= r.activeIdx < |w.active| && w.active[r.activeIdx] == fd
  {
    assert Live(w, w.store[fd]);
  }

  /** The global count is the number of stored connections, so it is positive at a close. */
  lemma CountNeverUnderflows(w: World, pend: seq<Id>, x: Id, k: nat, fd: int)
    requires Inv(w, pend, x, k) && fd in w.store
    ensures w.counted > 0 && w.counted == |w.store|
  {
  }

  // ----- closing ----------------------------------------------------------------------

  /** Between handlers no reference is in flight. */
  ghost predicate Quiet(w: World, pend: seq<Id>) {
    Inv(w, pend, 0, 0)
  }

  lemma NoSlack(w: World, pend: seq<Id>, x: Id, y: Id)
    requires Inv(w, pend, x, 0)
    ensures Inv(w, pend, y, 0)
  {
    hide QueueOk, OpsOk, StoreOk, ActiveOk, WheelOk, FreeOk, LifeOk, CountOk;
  }

  /** Posting takes a reference and hands it over at once. */
  lemma PostKeepsInv(w: World, pend: seq<Id>, c: Id, kind: OpKind, fd: int, taken: nat)
    requires Quiet(w, pend) && Live(w, c) && !kind.CloseOp?
    ensures var v := Post(w, c, kind, fd, taken);
      && Quiet(v, pend) && Live(v, c) && v.store == w.store && v.ops == w.ops + multiset{Op(kind, c)}
      && v.conns[c] == w.conns[c].(refcnt := w.conns[c].refcnt + 1) && v.batch == w.batch
  {
    hide QueueOk, RefsOk, OpsOk, StoreOk, ActiveOk, WheelOk, FreeOk, LifeOk, CountOk, Flush, Push;
    var v := Post(w, c, kind, fd, taken);
    SubmitKeepsInv(w, pend, 0, 0, taken);
    var w1 := Submit(w, taken);
    RefKeepsInv(w1, pend, 0, 0, c);
    HandOverKeepsBooks(Ref(w1, c), pend, 0, c, kind);
    var x := Entry(Op(kind, c), fd, !(fd >= 0 && w.conns[c].fd == fd), false);
    OwnIsStored(w, c, x);
    PushKeeps(w1.queue, x, w.store, w.ops, w.batch);
    PushOpensNone(w1.queue, x);
    QueueFrame(Ref(w1, c).(ops := v.ops), pend, c, 0, v.queue);
    NoSlack(v, pend, c, 0);
  }

  lemma OwnIsStored(w: World, c: Id, x: Entry)
    requires StoreOk(w) && Live(w, c) && x.op.c == c
    ensures Own(w.store, x) <==> x.fd >= 0 && w.conns[c].fd == x.fd
  {
  }

  /** An operation taken back leaves no trace but what looking for its entry submitted. */
  lemma TakenBackIsUnposted(w: World, c: Id, kind: OpKind, fd: int, taken: nat)
    requires Live(w, c) && w.conns[c].refcnt >= 1
    ensures TakeBack(Post(w, c, kind, fd, taken), Op(kind, c)) == Submit(w, taken)
  {
    hide Flush, Push, Withdraw;
    var q, op := Flush(w.queue, taken), Op(kind, c);
    var x := Entry(op, fd, !(fd >= 0 && At(w, c).fd == fd), false);
    PushedThenWithdrawn(q, x);
    var u := Submit(w, taken);
    var more := u.conns[c := u.conns[c].(refcnt := u.conns[c].refcnt + 1)];
    var v := u.(conns := more, ops := w.ops + multiset{op}, queue := Push(q, x));
    assert Post(w, c, kind, fd, taken) == v;
    assert v.ops - multiset{op} == w.ops;
    PutUndoesRef(u, c);
  }

  lemma PutUndoesRef(w: World, c: Id)
    requires Live(w, c) && w.conns[c].refcnt >= 1
    ensures Put(w.(conns := w.conns[c := w.conns[c].(refcnt := w.conns[c].refcnt + 1)]), c) == w
  {
    var more := w.conns[c := w.conns[c].(refcnt := w.conns[c].refcnt + 1)];
    assert more[c := w.conns[c]] == w.conns;
  }

  lemma MarkClosingKeepsInv(w: World, pend: seq<Id>, c: Id)
    requires Inv(w, pend, c, 0) && Live(w, c) && c !in pend
    ensures var v := MarkClosing(w, c);
      && Inv(v, pend, c, 0) && Live(v, c) && v.store == w.store && v.ops == w.ops && v.batch == w.batch
      && !v.conns[c].armed && v.conns[c].fd == w.conns[c].fd
  {
    hide QueueOk, RefsOk, OpsOk, StoreOk, ActiveOk, WheelOk, FreeOk, LifeOk, CountOk, CancelTimer;
    var r1 := w.conns[c].(abortive := false);
    var w1 := Set(w, c, r1);
    FlagsKeepInv(w, pend, c, 0, c, r1);
    CancelKeepsInv(w1, pend, c, 0, c);
    var w2 := CancelTimer(w1, c);
    FlagsKeepInv(w2, pend, c, 0, c, w2.conns[c].(closing := true));
  }

  lemma CancelPollKeepsInv(w: World, pend: seq<Id>, c: Id, k: nat, sqe: bool)
    requires Inv(w, pend, c, k) && Live(w, c)
    ensures Inv(CancelPoll(w, c, sqe), pend, c, k) && Live(CancelPoll(w, c, sqe), c)
    ensures CancelPoll(w, c, sqe).store == w.store && CancelPoll(w, c, sqe).ops == w.ops
    ensures CancelPoll(w, c, sqe).batch == w.batch
    ensures SameCore(CancelPoll(w, c, sqe).conns[c], w.conns[c])
  {
    hide QueueOk, RefsOk, OpsOk, StoreOk, ActiveOk, WheelOk, FreeOk, LifeOk, CountOk;
    FlagsKeepInv(w, pend, c, k, c, w.conns[c].(pollArmed := false));
  }

  lemma SyncTail(w: World, pend: seq<Id>, c: Id, fd: int, taken: nat)
    requires Inv(w, pend, c, 1) && Live(w, c) && !w.conns[c].armed && w.conns[c].fd == fd >= 0
    ensures var v := Put(Put(CloseNow(w, c, fd, taken), c), c);
      Inv(v, pend, c, 0) && v.store == w.store - {fd} && v.ops == w.ops && v.batch == w.batch
  {
    hide QueueOk, RefsOk, OpsOk, StoreOk, ActiveOk, WheelOk, FreeOk, LifeOk, CountOk, CloseNow, Put;
    CloseNowKeepsInv(w, pend, 1, c, fd, taken);
    var w1 := CloseNow(w, c, fd, taken);
    RefsAtLeast(w1, 2, c);
    PutKeepsInv(w1, pend, 1, c);
    PutKeepsInv(Put(w1, c), pend, 0, c);
  }

  lemma AsyncTail(w: World, pend: seq<Id>, c: Id, fd: int, taken: nat, flush: nat)
    requires Inv(w, pend, c, 1) && Live(w, c) && !w.conns[c].armed && w.conns[c].fd == fd >= 0
    ensures var v := Put(StageClose(w, c, fd, taken, flush), c);
      && Inv(v, pend, c, 0) && v.store == w.store - {fd} && v.batch == w.batch
      && v.ops == w.ops + multiset{Op(CloseOp, c)}
      && Live(v, c) && v.conns[c].fd < 0 && !v.conns[c].armed
  {
    hide QueueOk, RefsOk, OpsOk, StoreOk, ActiveOk, WheelOk, FreeOk, LifeOk, CountOk, StageClose, Put;
    StageCloseKeepsInv(w, pend, 1, c, fd, taken, flush);
    var w1 := StageClose(w, c, fd, taken, flush);
    PutKeepsInv(w1, pend, 0, c);
    NamedIsLive(Put(w1, c), Op(CloseOp, c));
  }

  lemma NamedIsLive(w: World, op: Op)
    requires OpsOk(w) && op in w.ops
    ensures Live(w, op.c)
  {
  }

  lemma FetchedIsLive(w: World, op: Op)
    requires OpsOk(w) && RingOk(w) && op in w.batch
    ensures op in w.ops && Live(w, op.c)
  {
    hide QueueOk;
    FetchedIsOutstanding(w.queue, w.store, w.ops, w.batch, op);
  }

  lemma ReleaseKeepsInv(w: World, pend: seq<Id>, c: Id, fd: int, sync: bool, e: CloseEnv)
    requires Inv(w, pend, c, 1) && Live(w, c) && !w.conns[c].armed && w.conns[c].fd == fd >= 0
    ensures var (v, async) := Release(w, c, fd, sync, e);
      && Inv(v, pend, c, 0) && v.store == w.store - {fd} && v.batch == w.batch
      && v.ops == w.ops + (if async then multiset{Op(CloseOp, c)} else multiset{})
      && (async ==> Live(v, c) && v.conns[c].fd < 0 && !v.conns[c].armed)
  {
    hide QueueOk, RefsOk, OpsOk, StoreOk, ActiveOk, WheelOk, FreeOk, LifeOk, CountOk, CloseNow, StageClose, Put, CancelPoll;
    if sync {
      CancelPollKeepsInv(w, pend, c, 1, e.pollSqe);
      SyncTail(CancelPoll(w, c, e.pollSqe), pend, c, fd, e.flush);
    } else if e.closeSqe.NoSlot? {
      SyncTail(w, pend, c, fd, e.flush);
    } else {
      CancelPollKeepsInv(w, pend, c, 1, e.pollSqe);
      AsyncTail(CancelPoll(w, c, e.pollSqe), pend, c, fd, e.closeSqe.taken, e.flush);
    }
  }

  /** Closing keeps the protocol, whatever the timers and the submission queue say. */
  lemma CloseKeepsInv(w: World, pend: seq<Id>, fd: int, e: CloseEnv)
    requires Quiet(w, pend)
    requires fd in w.store ==> w.store[fd] !in pend
    ensures var (v, async) := Close(w, fd, e);
      && Quiet(v, pend) && v.store == w.store - {fd} && v.batch == w.batch
      && v.ops == w.ops + (if async && fd in w.store then multiset{Op(CloseOp, w.store[fd])} else multiset{})
      && (async ==>
            && fd in w.store && Live(v, w.store[fd])
            && v.conns[w.store[fd]].fd < 0 && !v.conns[w.store[fd]].armed)
  {
    hide QueueOk, RefsOk, OpsOk, StoreOk, ActiveOk, WheelOk, FreeOk, LifeOk, CountOk;
    hide MarkClosing, Ref, Release, ActiveRemove, CountDown;
    if fd in w.store {
      var c := w.store[fd];
      StoredIsLive(w, fd);
      NoSlack(w, pend, 0, c);
      MarkClosingKeepsInv(w, pend, c);
      var w1 := MarkClosing(w, c);
      RefKeepsInv(w1, pend, c, 0, c);
      var dk := w.conns[c].kind;
      var sync := dk.InitialIdle? || dk.KaIdle? || dk.Drain? || w.conns[c].abortive;
      ReleaseKeepsInv(Ref(w1, c), pend, c, fd, sync, e);
      NoSlack(Close(w, fd, e).0, pend, c, 0);
    } else {
      assert w.store - {fd} == w.store;
    }
  }

  // ----- handlers keep the protocol ---------------------------------------------------

  /**
   The state a handler works in: its own completion is still in the batch, and the
   descriptor it was started with is either still its own or in nobody's hands.
   */
  ghost predicate Serving(w: World, op: Op, cfd: int) {
    && Quiet(w, []) && op in w.batch && cfd >= 0
    && Live(w, op.c)
    && (w.conns[op.c].fd == cfd || (w.conns[op.c].fd < 0 && cfd !in w.store))
  }

  lemma ServingFlags(w: World, op: Op, cfd: int, r: Conn)
    requires Serving(w, op, cfd) && SameCore(w.conns[op.c], r)
    ensures Serving(Set(w, op.c, r), op, cfd)
  {
    hide Inv;
    FlagsKeepInv(w, [], 0, 0, op.c, r);
  }

  lemma ServingSubmit(w: World, op: Op, cfd: int, n: nat)
    requires Serving(w, op, cfd)
    ensures Serving(Submit(w, n), op, cfd)
  {
    hide Inv;
    SubmitKeepsInv(w, [], 0, 0, n);
  }

  lemma ServingPost(w: World, op: Op, cfd: int, kind: OpKind, fd: int, taken: nat)
    requires Serving(w, op, cfd) && !kind.CloseOp?
    ensures Serving(Post(w, op.c, kind, fd, taken), op, cfd)
  {
    hide Inv;
    PostKeepsInv(w, [], op.c, kind, fd, taken);
  }

  lemma ServingCancel(w: World, op: Op, cfd: int)
    requires Serving(w, op, cfd)
    ensures Serving(CancelTimer(w, op.c), op, cfd)
  {
    hide Inv, CancelTimer;
    CancelKeepsInv(w, [], 0, 0, op.c);
  }

  lemma ServingResched(w: World, op: Op, cfd: int, t: Timer)
    requires Serving(w, op, cfd)
    ensures Serving(Reschedule(w, op.c, t), op, cfd)
  {
    hide Inv, CancelTimer, InsertTimer;
    CancelKeepsInv(w, [], 0, 0, op.c);
    InsertKeepsInv(CancelTimer(w, op.c), [], 0, 0, op.c, t);
  }

  lemma ServingRearm(w: World, op: Op, cfd: int, r: Rearm)
    requires Serving(w, op, cfd)
    ensures Serving(MaybeReschedule(w, op.c, r), op, cfd)
  {
    hide Serving, Reschedule;
    if r.Rearm? {
      ServingResched(w, op, cfd, r.t);
    }
  }

  lemma GoneFromStore(w: World, v: World, c: Id, cfd: int)
    requires StoreOk(w) && StoreOk(v) && v.store == w.store - {cfd}
    requires Live(w, c) && Live(v, c) && (w.conns[c].fd == cfd || w.conns[c].fd < 0)
    ensures v.conns[c].fd < 0
  {
  }

  lemma ServingClose(w: World, op: Op, cfd: int, e: CloseEnv)
    requires Serving(w, op, cfd)
    ensures Serving(Close(w, cfd, e).0, op, cfd)
  {
    hide QueueOk, RefsOk, OpsOk, StoreOk, ActiveOk, WheelOk, FreeOk, LifeOk, CountOk, Close;
    CloseKeepsInv(w, [], cfd, e);
    var v := Close(w, cfd, e).0;
    FetchedIsLive(v, op);
    GoneFromStore(w, v, op.c, cfd);
  }

  lemma ServingPostRecv(w: World, op: Op, cfd: int, sqe: Slot)
    requires Serving(w, op, cfd)
    ensures Serving(PostRecv(w, op.c, sqe), op, cfd)
  {
    hide Quiet, Post;
    if sqe.Slot? {
      var fd := w.conns[op.c].fd;
      ServingPost(w, op, cfd, Recv, fd, sqe.taken);
      var w1 := Post(w, op.c, Recv, fd, sqe.taken);
      ServingFlags(w1, op, cfd, w1.conns[op.c].(recvArmed := true));
    }
  }

  lemma ServingPostRemaining(w: World, op: Op, cfd: int, pending: bool, guard: bool, e: Env)
    requires Serving(w, op, cfd)
    ensures Serving(PostRemaining(w, op.c, cfd, pending, guard, e), op, cfd)
  {
    hide Serving, Post, Close;
    ServingClose(w, op, cfd, e.close);
    if e.sqe.Slot? {
      ServingPost(w, op, cfd, Send, cfd, e.sqe.taken);
    }
  }

  lemma ServingCancelPoll(w: World, op: Op, cfd: int, sqe: bool)
    requires Serving(w, op, cfd)
    ensures Serving(CancelPoll(w, op.c, sqe), op, cfd)
  {
    hide Quiet;
    ServingFlags(w, op, cfd, w.conns[op.c].(pollArmed := false));
  }

  /** Dropping the reference of the operation that completed. */
  lemma FinishKeepsInv(w: World, op: Op)
    requires Quiet(w, []) && op in w.batch
    ensures Quiet(Finish(w, op), [])
    ensures Finish(w, op).store == w.store && Finish(w, op).ops == w.ops - multiset{op}
    ensures Live(Finish(w, op), op.c) ==> Finish(w, op).conns[op.c].fd == At(w, op.c).fd
  {
    hide QueueOk, RefsOk, OpsOk, StoreOk, ActiveOk, WheelOk, FreeOk, LifeOk, CountOk, Put;
    NoSlack(w, [], 0, op.c);
    GiveBackKeepsInv(w, [], 0, op);
    var w1 := w.(ops := w.ops - multiset{op}, batch := w.batch - multiset{op});
    PutKeepsInv(w1, [], 0, op.c);
    NoSlack(Put(w1, op.c), [], op.c, 0);
  }

  lemma ServingArmPollout(w: World, op: Op, cfd: int, e: Env)
    requires Serving(w, op, cfd)
    ensures Serving(ArmPollout(w, op.c, cfd, e), op, cfd)
  {
    hide Quiet, Post, Close, MaybeReschedule, TakeBack, Submit;
    var c := op.c;
    ServingRearm(w, op, cfd, e.rearm);
    var w1 := MaybeReschedule(w, c, e.rearm);
    ServingClose(w1, op, cfd, e.close);
    if e.sqe.Slot? {
      ServingPost(w1, op, cfd, Pollout, cfd, e.sqe.taken);
      var w2 := Post(w1, c, Pollout, cfd, e.sqe.taken);
      if e.submit.Slot? {
        var r := w2.conns[c].(pollArmed := true);
        ServingFlags(w2, op, cfd, r);
        ServingSubmit(Set(w2, c, r), op, cfd, e.submit.taken);
      } else {
        ServingCounts(w1, op, cfd);
        TakenBackIsUnposted(w1, c, Pollout, cfd, e.sqe.taken);
        ServingSubmit(w1, op, cfd, e.sqe.taken);
        ServingClose(Submit(w1, e.sqe.taken), op, cfd, e.close);
      }
    }
  }

  lemma ServingCounts(w: World, op: Op, cfd: int)
    requires Serving(w, op, cfd)
    ensures w.conns[op.c].refcnt >= 1
  {
    hide QueueOk, OpsOk, StoreOk, ActiveOk, WheelOk, FreeOk, LifeOk, CountOk;
  }

  lemma ServingStage(w: World, op: Op, cfd: int, closeAfter: bool, taken: nat)
    requires Serving(w, op, cfd)
    ensures Serving(StageResponse(w, op.c, cfd, closeAfter, taken), op, cfd)
  {
    hide Quiet, Post, CancelTimer;
    var w1 := w;
    if closeAfter {
      var r := w.conns[op.c].(closing := true);
      ServingFlags(w, op, cfd, r);
      ServingCancel(Set(w, op.c, r), op, cfd);
      w1 := CancelTimer(Set(w, op.c, r), op.c);
    }
    ServingPost(w1, op, cfd, Send, cfd, taken);
  }

  lemma ServingApply(w: World, op: Op, cfd: int, p: Plan, e: Env)
    requires Serving(w, op, cfd)
    ensures Serving(ApplyAction(w, op.c, cfd, p, e), op, cfd)
  {
    hide Quiet, Post, Close, Reschedule, StageResponse, PostRecv;
    var c := op.c;
    match p
    case InternalError =>
      ServingClose(w, op, cfd, e.close);
      if e.sqe.Slot? {
        ServingStage(w, op, cfd, true, e.sqe.taken);
      }
    case Error(is431, closeAfter) =>
      ServingClose(w, op, cfd, e.close);
      var r := w.conns[c].(draining := true);
      ServingFlags(w, op, cfd, r);
      ServingResched(Set(w, c, r), op, cfd, e.timer);
      if e.sqe.Slot? {
        var w1 := if is431 then Reschedule(Set(w, c, r), c, e.timer) else w;
        ServingStage(w1, op, cfd, closeAfter, e.sqe.taken);
      }
    case Continue =>
      ServingPostRecv(w, op, cfd, e.recvSqe);
      ServingResched(PostRecv(w, c, e.recvSqe), op, cfd, e.timer);
    case Okay(d) =>
      ServingResched(w, op, cfd, e.okTimer);
      var w1 := Reschedule(w, c, e.okTimer);
      ServingClose(w1, op, cfd, e.close);
      if e.sqe.Slot? {
        ServingPost(w1, op, cfd, Send, cfd, e.sqe.taken);
        if d.HeaderResponse? {
          ServingStage(w1, op, cfd, d.closeAfter, e.sqe.taken);
        }
      }
  }

  lemma ServingRead(w: World, op: Op, cfd: int, i: ReadInput, e: Env)
    requires Serving(w, op, cfd)
    ensures Serving(ReadHandler(w, op.c, cfd, i, e), op, cfd)
  {
    hide Quiet, Close, PostRecv, ApplyAction;
    var r := w.conns[op.c].(recvArmed := false);
    ServingFlags(w, op, cfd, r);
    var w1 := Set(w, op.c, r);
    ServingClose(w1, op, cfd, e.close);
    ServingPostRecv(w1, op, cfd, e.recvSqe);
    if i.Data? {
      ServingClose(w1, op, cfd, i.stashClose);
      ServingApply(if i.stashFull then Close(w1, cfd, i.stashClose).0 else w1, op, cfd, i.plan, e);
    }
  }

  lemma ServingFull(w: World, op: Op, cfd: int, a: After, e: Env)
    requires Serving(w, op, cfd)
    ensures Serving(FullResponse(w, op.c, cfd, a, e), op, cfd)
  {
    hide Serving, Close, PostRecv, ApplyAction, Reschedule, MaybeReschedule, ResetRequest;
    var c := op.c;
    ServingRearm(w, op, cfd, e.rearm);
    var w1 := MaybeReschedule(w, c, e.rearm);
    match a
    case AfterShutWr => ServingPostRecv(w1, op, cfd, e.recvSqe);
    case AfterClose => ServingClose(w1, op, cfd, e.close);
    case AfterKeepalive(t, stashed, p, se) =>
      ServingReset(w1, op, cfd, t);
      var w2 := ResetRequest(w1, c, t);
      ServingApply(w2, op, cfd, p, se);
      var w3 := if stashed then ApplyAction(w2, c, cfd, p, se) else w2;
      ServingPostRecv(w3, op, cfd, e.recvSqe);
      ServingResched(PostRecv(w3, c, e.recvSqe), op, cfd, e.timer);
  }

  lemma ServingReset(w: World, op: Op, cfd: int, t: Timer)
    requires Serving(w, op, cfd)
    ensures Serving(ResetRequest(w, op.c, t), op, cfd)
  {
    hide Quiet, Reschedule;
    var r := w.conns[op.c].(closing := false, draining := false, recvArmed := false, pollArmed := false);
    ServingFlags(w, op, cfd, r);
    ServingResched(Set(w, op.c, r), op, cfd, t);
  }

  lemma {:induction false} ServingSendfile(w: World, op: Op, cfd: int, resumes: seq<Timer>, end: SendfileEnd, e: Env)
    requires Serving(w, op, cfd)
    ensures Serving(SendfileProgress(w, op.c, cfd, resumes, end, e), op, cfd)
    decreases |resumes|
  {
    hide Serving, Close, PostRecv, ArmPollout, Reschedule, MaybeReschedule, CancelPoll, FullResponse;
    var c := op.c;
    if resumes != [] {
      ServingResched(w, op, cfd, resumes[0]);
      ServingSendfile(Reschedule(w, c, resumes[0]), op, cfd, resumes[1..], end, e);
    } else {
      match end
      case SfPollout => ServingArmPollout(w, op, cfd, e);
      case SfError =>
        ServingRearm(w, op, cfd, e.rearm);
        ServingClose(MaybeReschedule(w, c, e.rearm), op, cfd, e.close);
      case SfShutWr =>
        ServingCancelPoll(w, op, cfd, e.sqe.Slot?);
        var w1 := CancelPoll(w, c, e.sqe.Slot?);
        ServingRearm(w1, op, cfd, e.rearm);
        ServingPostRecv(MaybeReschedule(w1, c, e.rearm), op, cfd, e.recvSqe);
      case SfFull(a) =>
        ServingCancelPoll(w, op, cfd, e.sqe.Slot?);
        ServingFull(CancelPoll(w, c, e.sqe.Slot?), op, cfd, a, e);
    }
  }

  lemma ServingWrite(w: World, op: Op, cfd: int, started: Rearm, i: WriteInput, e: Env)
    requires Serving(w, op, cfd)
    ensures Serving(WriteHandler(w, op.c, cfd, started, i, e), op, cfd)
  {
    hide Serving, Close, PostRecv, ArmPollout, MaybeReschedule, CancelPoll, FullResponse;
    hide SendfileProgress, PostRemaining;
    var c := op.c;
    ServingRearm(w, op, cfd, started);
    var w1 := MaybeReschedule(w, c, started);
    ServingCancelPoll(w1, op, cfd, e.submit.Slot?);
    var w2 := CancelPoll(w1, c, e.submit.Slot?);
    match i
    case WSendHeaders(pending) => ServingPostRemaining(w1, op, cfd, pending, true, e);
    case WSendfile(resumes, end) => ServingSendfile(w2, op, cfd, resumes, end, e);
    case WPollout => ServingArmPollout(w1, op, cfd, e);
    case WShutWr =>
      ServingRearm(w2, op, cfd, e.rearm);
      ServingPostRecv(MaybeReschedule(w2, c, e.rearm), op, cfd, e.recvSqe);
    case WDone(a) => ServingFull(w2, op, cfd, a, e);
    case WError =>
      ServingRearm(w1, op, cfd, e.rearm);
      ServingClose(MaybeReschedule(w1, c, e.rearm), op, cfd, e.close);
    case WNoop =>
  }

  lemma ServingReady(w: World, op: Op, cfd: int, i: ReadyInput, e: Env)
    requires Serving(w, op, cfd)
    ensures Serving(ReadyHandler(w, op.c, cfd, i, e), op, cfd)
  {
    hide Quiet, SendfileProgress, PostRemaining;
    var r := w.conns[op.c].(pollArmed := false);
    ServingFlags(w, op, cfd, r);
    var w1 := Set(w, op.c, r);
    match i
    case RSendfile(resumes, end) => ServingSendfile(w1, op, cfd, resumes, end, e);
    case RSendHeaders(pending) => ServingPostRemaining(w1, op, cfd, pending, false, e);
    case RNoop =>
  }

  lemma CompleteClose(w: World, op: Op)
    requires Quiet(w, []) && op in w.batch && op.kind.CloseOp?
    ensures Set(w, op.c, At(w, op.c).(fd := -1)) == w
  {
    hide QueueOk, RefsOk, StoreOk, ActiveOk, WheelOk, FreeOk, LifeOk, CountOk;
    FetchedIsLive(w, op);
    assert w.conns[op.c := w.conns[op.c].(fd := -1)] == w.conns;
  }

  lemma ServedThenFinished(w: World, op: Op, cfd: int)
    requires Serving(w, op, cfd)
    ensures Quiet(Finish(w, op), [])
  {
    FinishKeepsInv(w, op);
  }

  lemma StartServing(w: World, op: Op)
    requires Quiet(w, []) && op in w.batch && At(w, op.c).fd >= 0
    ensures Serving(w, op, At(w, op.c).fd)
  {
    hide QueueOk;
    FetchedIsLive(w, op);
  }

  /** Every completion, of any kind and in any order, keeps the protocol. */
  lemma CompleteKeepsInv(w: World, op: Op, i: Input, e: Env)
    requires Quiet(w, []) && op in w.batch
    ensures Quiet(Complete(w, op, i, e), [])
  {
    hide Quiet, Serving, Set, Finish, WriteHandler, ReadyHandler, ReadHandler;
    var fd := At(w, op.c).fd;
    FinishKeepsInv(w, op);
    if fd >= 0 {
      StartServing(w, op);
    }
    match op.kind
    case CloseOp =>
      CompleteClose(w, op);
    case Send =>
      if fd >= 0 && i.InWrite? {
        ServingWrite(w, op, fd, i.started, i.write, e);
        ServedThenFinished(WriteHandler(w, op.c, fd, i.started, i.write, e), op, fd);
      }
    case Pollout =>
      if fd >= 0 && i.InReady? {
        ServingReady(w, op, fd, i.ready, e);
        ServedThenFinished(ReadyHandler(w, op.c, fd, i.ready, e), op, fd);
      }
    case Recv =>
      if fd >= 0 && i.InRead? {
        ServingRead(w, op, fd, i.read, e);
        ServedThenFinished(ReadHandler(w, op.c, fd, i.read, e), op, fd);
      }
      DisarmedIsQuiet(w, op);
      FinishKeepsInv(Set(w, op.c, At(w, op.c).(recvArmed := false)), op);
  }

  lemma DisarmedIsQuiet(w: World, op: Op)
    requires Quiet(w, []) && op in w.batch
    ensures var v := Set(w, op.c, At(w, op.c).(recvArmed := false));
      Quiet(v, []) && v.batch == w.batch && v.ops == w.ops && v.store == w.store && v.died == w.died
      && Live(v, op.c) && v.conns[op.c].fd == At(w, op.c).fd
  {
    hide QueueOk, RefsOk, OpsOk, StoreOk, ActiveOk, WheelOk, FreeOk, LifeOk, CountOk;
    FetchedIsLive(w, op);
    FlagsKeepInv(w, [], 0, 0, op.c, w.conns[op.c].(recvArmed := false));
  }

  // ----- the timer sweep --------------------------------------------------------------

  /** What one visit of a tick finds: too early, put back; or expired. */
  datatype Visit = Early(slot: nat) | Expired(sendSqe: Slot, close: CloseEnv, timer: Timer)

  /** One connection of the detached bucket, its links and flag already cleared. */
  function Expire(w: World, c: Id, v: Expired_): (w': World) {
    var r := At(w, c);
    match r.kind
    case NoKind => InsertTimer(w, c, v.timer)
    case HeaderTimeout => ExpireRequest(w, c, v)
    case BodyTimeout => ExpireRequest(w, c, v)
    case WriteTimeout => AfterExpiry(Close(Set(w, c, r.(abortive := true)), r.fd, v.close), c, v)
    case _ => AfterExpiry(Close(w, r.fd, v.close), c, v)
  }

  type Expired_ = v: Visit | v.Expired? witness Expired(NoSlot, CloseEnv(NoSlot, false, 0), Off)

  /** Answer 408 and close after it, or close at once when the queue is full. */
  function ExpireRequest(w: World, c: Id, v: Expired_): (w': World) {
    var r := At(w, c);
    if v.sendSqe.NoSlot? then AfterExpiry(Close(w, r.fd, v.close), c, v)
    else InsertTimer(Post(Set(w, c, r.(closing := true)), c, Send, r.fd, v.sendSqe.taken), c, v.timer)
  }

  /** A connection closed synchronously is not looked at again. */
  function AfterExpiry(closed: (World, bool), c: Id, v: Expired_): (w': World) {
    if closed.1 then InsertTimer(closed.0, c, v.timer) else closed.0
  }

  function VisitOne(w: World, c: Id, v: Visit): (w': World) {
    var r := At(w, c);
    var w1 := Set(w, c, r.(armed := false));
    if v.Early? then InsertTimer(w1, c, Due(r.kind, v.slot)) else Expire(w1, c, v)
  }

  function Walk(w: World, pend: seq<Id>, visits: seq<Visit>): (w': World)
    requires |visits| == |pend|
    decreases |pend|
  {
    if pend == [] then w else Walk(VisitOne(w, pend[0], visits[0]), pend[1..], visits[1..])
  }

  function Tick(w: World, s: nat, visits: seq<Visit>): (w': World)
    requires s < |w.wheel| && |visits| == |w.wheel[s]|
  {
    Walk(w.(wheel := w.wheel[s := []]), w.wheel[s], visits)
  }

  /** The head of the detached list becomes an ordinary unarmed connection. */
  lemma TakeHead(w: World, pend: seq<Id>)
    requires Quiet(w, pend) && pend != []
    ensures Live(w, pend[0])
    ensures var v := Set(w, pend[0], At(w, pend[0]).(armed := false));
      && Quiet(v, pend[1..]) && Live(v, pend[0]) && !v.conns[pend[0]].armed && pend[0] !in pend[1..]
      && v.conns[pend[0]].fd in v.store && v.store[v.conns[pend[0]].fd] == pend[0]
      && v.conns[pend[0]].fd >= 0
      && v.store == w.store
  {
    hide QueueOk, RefsOk, OpsOk, StoreOk, ActiveOk, FreeOk, LifeOk, WheelOk;
    TakeHeadWheel(w, pend);
    var c := pend[0];
    TimerFrame(w, 0, 0, c, w.conns[c].(armed := false), w.wheel);
    OwnerIsStored(w, c);
  }

  lemma OwnerIsStored(w: World, c: Id)
    requires StoreOk(w) && Live(w, c) && w.conns[c].fd >= 0
    ensures w.conns[c].fd in w.store && w.store[w.conns[c].fd] == c
  {
  }

  lemma TakeHeadWheel(w: World, pend: seq<Id>)
    requires WheelOk(w, pend) && pend != []
    ensures Live(w, pend[0]) && w.conns[pend[0]].fd >= 0 && pend[0] !in pend[1..]
    ensures WheelOk(w.(conns := w.conns[pend[0] := w.conns[pend[0]].(armed := false)]), pend[1..])
  {
    var c := pend[0];
    assert c in pend;
    HeadAndTail(pend);
    hide NoDup;
    TakenBuckets(w, pend, c);
    TakenArmed(w, pend, c);
  }

  lemma HeadAndTail(pend: seq<Id>)
    requires NoDup(pend) && pend != []
    ensures NoDup(pend[1..]) && forall d :: d in pend[1..] <==> d in pend && d != pend[0]
  {
    forall d | d in pend && d != pend[0] ensures d in pend[1..] {
      var i :| 0 <= i < |pend| && pend[i] == d;
      assert pend[1..][i - 1] == d;
    }
  }

  lemma TakenBuckets(w: World, pend: seq<Id>, c: Id)
    requires WheelOk(w, pend) && c in pend
    ensures var v := w.(conns := w.conns[c := w.conns[c].(armed := false)]);
      forall s, d :: 0 <= s < |v.wheel| && d in v.wheel[s] ==>
        Live(v, d) && v.conns[d].armed && v.conns[d].slot == s && v.conns[d].fd >= 0 && d !in pend
  {
    hide NoDup;
  }

  lemma TakenArmed(w: World, pend: seq<Id>, c: Id)
    requires WheelOk(w, pend) && c in pend
    ensures var v := w.(conns := w.conns[c := w.conns[c].(armed := false)]);
      forall d :: d in v.conns && v.conns[d].armed ==>
        d != c && (d in pend || (v.conns[d].slot < |v.wheel| && d in v.wheel[v.conns[d].slot]))
  {
    hide NoDup;
    var v := w.(conns := w.conns[c := w.conns[c].(armed := false)]);
    forall d | d in v.conns && v.conns[d].armed
      ensures d != c && (d in pend || (v.conns[d].slot < |v.wheel| && d in v.wheel[v.conns[d].slot]))
    {
      assert d != c && d in w.conns && w.conns[d].armed;
    }
  }

  lemma QuietInsert(w: World, pend: seq<Id>, c: Id, t: Timer)
    requires Quiet(w, pend) && Live(w, c) && !w.conns[c].armed
    ensures Quiet(InsertTimer(w, c, t), pend)
  {
    hide Inv;
    InsertKeepsInv(w, pend, 0, 0, c, t);
  }

  lemma ExpiryClose(w: World, pend: seq<Id>, c: Id, fd: int, v: Expired_)
    requires Quiet(w, pend) && fd in w.store && w.store[fd] == c && c !in pend
    ensures Quiet(AfterExpiry(Close(w, fd, v.close), c, v), pend)
  {
    hide Inv, Close, InsertTimer;
    CloseKeepsInv(w, pend, fd, v.close);
    var (w1, async) := Close(w, fd, v.close);
    if async {
      QuietInsert(w1, pend, c, v.timer);
    }
  }

  lemma ExpiryAnswer(w: World, pend: seq<Id>, c: Id, v: Expired_)
    requires Quiet(w, pend) && Live(w, c) && !w.conns[c].armed && v.sendSqe.Slot?
    ensures
      var w1 := Post(Set(w, c, At(w, c).(closing := true)), c, Send, At(w, c).fd, v.sendSqe.taken);
      Quiet(InsertTimer(w1, c, v.timer), pend)
  {
    hide Inv, InsertTimer;
    var r := w.conns[c].(closing := true);
    FlagsKeepInv(w, pend, 0, 0, c, r);
    var w1 := Set(w, c, r);
    PostKeepsInv(w1, pend, c, Send, r.fd, v.sendSqe.taken);
    QuietInsert(Post(w1, c, Send, r.fd, v.sendSqe.taken), pend, c, v.timer);
  }

  lemma ExpireKeepsInv(w: World, pend: seq<Id>, c: Id, v: Expired_)
    requires Quiet(w, pend) && Live(w, c) && !w.conns[c].armed && c !in pend
    requires w.conns[c].fd in w.store && w.store[w.conns[c].fd] == c
    ensures Quiet(Expire(w, c, v), pend)
  {
    hide Inv, Close, InsertTimer, AfterExpiry, Post;
    var r := w.conns[c];
    QuietInsert(w, pend, c, v.timer);
    ExpiryClose(w, pend, c, r.fd, v);
    if v.sendSqe.Slot? {
      ExpiryAnswer(w, pend, c, v);
    }
    FlagsKeepInv(w, pend, 0, 0, c, r.(abortive := true));
    ExpiryClose(Set(w, c, r.(abortive := true)), pend, c, r.fd, v);
  }

  lemma VisitKeepsInv(w: World, pend: seq<Id>, v: Visit)
    requires Quiet(w, pend) && pend != []
    ensures Quiet(VisitOne(w, pend[0], v), pend[1..])
  {
    hide Quiet, Expire, InsertTimer;
    var c := pend[0];
    TakeHead(w, pend);
    var w1 := Set(w, c, At(w, c).(armed := false));
    if v.Early? {
      QuietInsert(w1, pend[1..], c, Due(At(w, c).kind, v.slot));
    } else {
      ExpireKeepsInv(w1, pend[1..], c, v);
    }
  }

  /** A tick may close, answer or re-insert into the bucket it walks: the protocol holds. */
  lemma {:induction false} WalkKeepsInv(w: World, pend: seq<Id>, visits: seq<Visit>)
    requires Quiet(w, pend) && |visits| == |pend|
    ensures Quiet(Walk(w, pend, visits), [])
    decreases |pend|
  {
    hide Quiet, VisitOne;
    if pend != [] {
      VisitKeepsInv(w, pend, visits[0]);
      WalkKeepsInv(VisitOne(w, pend[0], visits[0]), pend[1..], visits[1..]);
    }
  }

  lemma TickKeepsInv(w: World, s: nat, visits: seq<Visit>)
    requires Quiet(w, []) && s < |w.wheel| && |visits| == |w.wheel[s]|
    ensures Quiet(Tick(w, s, visits), [])
  {
    hide Inv, Walk;
    CutIsQuiet(w, s);
    WalkKeepsInv(w.(wheel := w.wheel[s := []]), w.wheel[s], visits);
  }

  /** With its bucket cut off, a tick has all of the bucket before it. */
  lemma CutIsQuiet(w: World, s: nat)
    requires Quiet(w, []) && s < |w.wheel|
    ensures Quiet(w.(wheel := w.wheel[s := []]), w.wheel[s])
  {
    hide QueueOk, RefsOk, OpsOk, StoreOk, ActiveOk, FreeOk, LifeOk, WheelOk;
    var v := w.(wheel := w.wheel[s := []]);
    RefsFrame(w, v, 0, 0);
    OpsFrame(w, v);
    StoreFrame(w, v);
    ActiveFrame(w, v);
    FreeFrame(w, v);
    LifeFrame(w, v);
    DetachBucket(w, s);
  }

  lemma DetachBucket(w: World, s: nat)
    requires WheelOk(w, []) && s < |w.wheel|
    ensures WheelOk(w.(wheel := w.wheel[s := []]), w.wheel[s])
  {
    var v := w.(wheel := w.wheel[s := []]);
    forall t, c: Id | 0 <= t < |v.wheel| && c in v.wheel[t] ensures
      Live(v, c) && v.conns[c].armed && v.conns[c].slot == t && v.conns[c].fd >= 0 && c !in w.wheel[s]
    {
      assert t != s;
      BucketOf(w, t, c);
    }
    forall c: Id | c in w.wheel[s] ensures Live(v, c) && v.conns[c].armed && v.conns[c].fd >= 0 {
      BucketOf(w, s, c);
    }
    forall c: Id | c in v.conns && v.conns[c].armed
      ensures c in w.wheel[s] || (v.conns[c].slot < |v.wheel| && c in v.wheel[v.conns[c].slot])
    {
      assert c in w.wheel[w.conns[c].slot];
    }
    forall t | 0 <= t < |v.wheel| ensures NoDup(v.wheel[t]) {
      assert NoDup(w.wheel[t]);
    }
  }

  lemma BucketOf(w: World, t: nat, c: Id)
    requires WheelOk(w, []) && t < |w.wheel| && c in w.wheel[t]
    ensures Live(w, c) && w.conns[c].slot == t && w.conns[c].armed && w.conns[c].fd >= 0
    ensures forall s :: 0 <= s < |w.wheel| && s != t ==> c !in w.wheel[s]
  {
  }

  // ----- accept -----------------------------------------------------------------------

  /** `block` is what the allocator would return if the freelist is empty. */
  datatype AcceptInput = AcceptInput(
    block: Id, connMemory: bool, storeMemory: bool, activeMemory: bool, vhost: bool,
    initTimer: Timer, recvSqe: Slot, sendSqe: Slot, close: CloseEnv)

  const NEW_CONN := BLANK.(refcnt := 1)

  /** Takes a block from the freelist, else from the allocator; none if both are empty. */
  function Alloc(w: World, a: AcceptInput): (res: (World, seq<Id>)) {
    if w.free != [] then
      (w.(free := w.free[1..], conns := w.conns[w.free[0] := BLANK],
          born := w.born + multiset{w.free[0]}), [w.free[0]])
    else if !a.connMemory then (w, [])
    else (w.(conns := w.conns[a.block := BLANK], born := w.born + multiset{a.block}), [a.block])
  }

  function Install(w: World, c: Id, fd: int, a: AcceptInput): (w': World) {
    var w1 := w.(store := w.store[fd := c], queue := Open(w.queue, fd, c), leaked := w.leaked - {fd},
                 counted := w.counted + 1);
    Reschedule(ActiveAdd(w1, fd, a.activeMemory), c, a.initTimer)
  }

  function AcceptTail(w: World, c: Id, fd: int, a: AcceptInput): (w': World) {
    if !a.vhost then Close(w, fd, a.close).0 else
    var w1 := PostRecv(w, c, a.recvSqe);
    if At(w1, c).recvArmed || At(w1, c).closing || At(w1, c).fd < 0 then w1
    else if a.sendSqe.NoSlot? then Close(w1, fd, a.close).0
    else StageResponse(w1, c, fd, true, a.sendSqe.taken)
  }

  /** A connection that cannot be set up is dropped; its descriptor stays open, owned by nobody. */
  function Accept(w: World, fd: int, a: AcceptInput): (w': World) {
    var w0 := w.(leaked := w.leaked + {fd});
    var (w1, got) := Alloc(w0, a);
    if got == [] then Close(w1, fd, a.close).0 else
    var c := got[0];
    var w2 := Set(w1, c, NEW_CONN.(fd := fd));
    if !a.storeMemory then Close(Recycle(w2, c), fd, a.close).0
    else AcceptTail(Install(w2, c, fd, a), c, fd, a)
  }

  ghost predicate Fresh(w: World, fd: int, a: AcceptInput) {
    fd >= 0 && fd !in w.queue.sockets && fd !in w.leaked && a.block !in w.conns
  }

  /** What a block from the freelist or the allocator has in common. */
  ghost predicate Taken(w: World, v: World, c: Id) {
    && (c in w.conns ==> c in w.free)
    && c !in v.free
    && v.conns == w.conns[c := BLANK]
    && v == w.(conns := v.conns, free := v.free, born := w.born + multiset{c})
    && (w.free == [c] + v.free || (w.free == v.free == [] && c !in w.conns))
  }

  lemma AllocTakes(w: World, a: AcceptInput)
    requires FreeOk(w) && a.block !in w.conns
    ensures var (v, got) := Alloc(w, a);
      if got == [] then v == w else |got| == 1 && Taken(w, v, got[0])
  {
    if w.free != [] {
      var c := w.free[0];
      assert w.free == [c] + w.free[1..];
      assert c !in w.free[1..];
      assert c in w.free;
    }
  }

  lemma LiveAfterTake(w: World, v: World, c: Id)
    requires Taken(w, v, c)
    ensures forall d :: Live(v, d) <==> Live(w, d) || d == c
    ensures !Live(w, c)
    ensures forall d :: d in v.free ==> d in w.free
  {
    forall d | d != c ensures d in v.free <==> d in w.free {
    }
  }

  /** The state right after the store accepted the new connection. */
  ghost function Installed(v: World, c: Id, fd: int): World {
    v.(conns := v.conns[c := NEW_CONN.(fd := fd)], store := v.store[fd := c], counted := v.counted + 1,
       queue := Open(v.queue, fd, c))
  }

  lemma InstalledRefs(w: World, v: World, c: Id, fd: int)
    requires RefsOk(w, 0, 0) && OpsOk(w) && Taken(w, v, c) && fd >= 0
    ensures RefsOk(Installed(v, c, fd), 0, 0) && OpsOk(Installed(v, c, fd))
  {
    hide OpsOf;
    LiveAfterTake(w, v, c);
    var u := Installed(v, c, fd);
    NoneOfDead(w, c);
    assert u.ops == w.ops;
    forall d | Live(u, d) && d != c ensures Live(w, d) && u.conns[d] == w.conns[d] {
      assert Live(v, d);
    }
  }

  lemma NoneOfDead(w: World, c: Id)
    requires OpsOk(w) && !Live(w, c)
    ensures OpsOf(w.ops, c) == 0
  {
    assert Op(Recv, c) !in w.ops && Op(Send, c) !in w.ops && Op(Pollout, c) !in w.ops && Op(CloseOp, c) !in w.ops;
  }

  lemma InstalledStore(w: World, v: World, c: Id, fd: int)
    requires StoreOk(w) && Taken(w, v, c) && fd >= 0 && fd !in w.store
    ensures StoreOk(Installed(v, c, fd))
  {
    LiveAfterTake(w, v, c);
    var u := Installed(v, c, fd);
    assert forall d :: Live(u, d) <==> Live(v, d);
    forall g | g in u.store ensures g >= 0 && Live(u, u.store[g]) && u.conns[u.store[g]].fd == g {
      if g != fd {
        assert g in w.store;
        assert w.store[g] != c;
      }
    }
  }

  lemma InstalledActive(w: World, v: World, c: Id, fd: int)
    requires StoreOk(w) && ActiveOk(w) && Taken(w, v, c) && fd >= 0 && fd !in w.store
    ensures ActiveOk(Installed(v, c, fd))
  {
    LiveAfterTake(w, v, c);
    var u := Installed(v, c, fd);
    assert forall d :: Live(u, d) <==> Live(v, d);
    forall i | 0 <= i < |u.active| ensures u.active[i] in u.store
      && At(u, u.store[u.active[i]]).inActive && At(u, u.store[u.active[i]]).activeIdx == i
    {
      var g := w.active[i];
      assert g in w.store;
      StoredIsLive(w, g);
      assert w.store[g] != c;
    }
    forall d | Live(u, d) && u.conns[d].inActive ensures u.conns[d].fd >= 0
      && 0 <= u.conns[d].activeIdx < |u.active| && u.active[u.conns[d].activeIdx] == u.conns[d].fd
    {
      assert d != c && Live(w, d) && w.conns[d].inActive;
    }
  }

  lemma InstalledWheel(w: World, v: World, c: Id, fd: int)
    requires WheelOk(w, []) && FreeOk(w) && Taken(w, v, c)
    ensures WheelOk(Installed(v, c, fd), [])
  {
    LiveAfterTake(w, v, c);
    var u := Installed(v, c, fd);
    assert forall d :: Live(u, d) <==> Live(v, d);
    forall s, d | 0 <= s < |u.wheel| && d in u.wheel[s] ensures
      Live(u, d) && u.conns[d].armed && u.conns[d].slot == s && u.conns[d].fd >= 0
    {
      assert d in w.wheel[s];
      assert Live(w, d) && d != c;
    }
    forall d | d in u.conns && u.conns[d].armed ensures u.conns[d].slot < |u.wheel| && d in u.wheel[u.conns[d].slot] {
      assert d != c && d in w.conns;
    }
  }

  lemma InstalledFree(w: World, v: World, c: Id, fd: int)
    requires FreeOk(w) && LifeOk(w) && Taken(w, v, c)
    ensures FreeOk(Installed(v, c, fd)) && LifeOk(Installed(v, c, fd))
  {
    LiveAfterTake(w, v, c);
    var u := Installed(v, c, fd);
    assert forall d :: Live(u, d) <==> Live(v, d);
    assert NoDup(v.free) by {
      if w.free == [c] + v.free {
        assert forall i :: 0 <= i < |v.free| ==> v.free[i] == w.free[i + 1];
      }
    }
  }

  lemma InstalledCount(w: World, v: World, c: Id, fd: int)
    requires CountOk(w) && Taken(w, v, c) && fd !in w.store && fd !in w.leaked
    ensures CountOk(Installed(v, c, fd))
  {
    GrowByOne(w.store, fd, c);
  }

  lemma GrowByOne<K, V>(f: map<K, V>, k: K, v: V)
    requires k !in f
    ensures |f[k := v]| == |f| + 1 && f[k := v].Keys == f.Keys + {k}
  {
    assert f[k := v].Keys == f.Keys + {k};
    assert |f.Keys + {k}| == |f.Keys| + 1;
  }

  lemma InstalledRing(w: World, v: World, c: Id, fd: int)
    requires RingOk(w) && OpsOk(w) && Taken(w, v, c) && fd !in w.queue.sockets
    ensures RingOk(Installed(v, c, fd)) && fd !in w.store
  {
    LiveAfterTake(w, v, c);
    forall o | o in w.ops ensures o.c != c {
      NamedIsLive(w, o);
    }
    OpenKeeps(w.queue, fd, c, w.store, w.ops, w.batch);
  }

  lemma InstalledKeepsInv(w: World, v: World, c: Id, fd: int)
    requires Quiet(w, []) && Taken(w, v, c) && fd >= 0 && fd !in w.queue.sockets && fd !in w.leaked
    ensures Quiet(Installed(v, c, fd), [])
    ensures Live(Installed(v, c, fd), c)
  {
    InstalledRing(w, v, c, fd);
    hide QueueOk, RefsOk, OpsOk, StoreOk, ActiveOk, FreeOk, LifeOk, CountOk, WheelOk;
    InstalledRefs(w, v, c, fd);
    InstalledStore(w, v, c, fd);
    InstalledActive(w, v, c, fd);
    InstalledWheel(w, v, c, fd);
    InstalledFree(w, v, c, fd);
    InstalledCount(w, v, c, fd);
  }

  /** A failed set-up hands its block straight back. */
  lemma AbandonKeepsInv(w: World, v: World, c: Id, fd: int)
    requires Quiet(w, []) && Taken(w, v, c)
    ensures Quiet(Recycle(Set(v, c, NEW_CONN.(fd := fd)), c), [])
    ensures Recycle(Set(v, c, NEW_CONN.(fd := fd)), c).store == w.store
  {
    var u := Recycle(Set(v, c, NEW_CONN.(fd := fd)), c);
    AbandonShape(w, v, c, fd);
    hide QueueOk, RefsOk, OpsOk, StoreOk, ActiveOk, FreeOk, LifeOk, WheelOk, Recycle;
    AbandonRefs(w, u, c);
    AbandonTables(w, u, c);
    AbandonWheel(w, u, c);
    AbandonFree(w, u, c);
  }

  ghost predicate Abandoned(w: World, u: World, c: Id) {
    && !Live(w, c)
    && u == w.(conns := u.conns, free := u.free, born := w.born + multiset{c}, died := w.died + multiset{c})
    && u.conns.Keys == w.conns.Keys + {c}
    && (forall d :: d in w.conns && d != c ==> u.conns[d] == w.conns[d])
    && u.conns[c].fd == -1 && !u.conns[c].armed && !u.conns[c].inActive
    && (u.free == w.free || (w.free == [] && u.free == [c]))
    && c in u.free
  }

  lemma AbandonShape(w: World, v: World, c: Id, fd: int)
    requires FreeOk(w) && Taken(w, v, c)
    ensures Abandoned(w, Recycle(Set(v, c, NEW_CONN.(fd := fd)), c), c)
  {
    LiveAfterTake(w, v, c);
    assert |v.free| < FREELIST_CAP;
  }

  lemma AbandonLive(w: World, u: World, c: Id)
    requires Abandoned(w, u, c)
    ensures forall d :: Live(u, d) <==> Live(w, d)
    ensures forall d :: Live(w, d) ==> u.conns[d] == w.conns[d]
  {
  }

  lemma AbandonRefs(w: World, u: World, c: Id)
    requires RefsOk(w, 0, 0) && OpsOk(w) && Abandoned(w, u, c)
    ensures RefsOk(u, 0, 0) && OpsOk(u)
  {
    AbandonLive(w, u, c);
  }

  lemma AbandonTables(w: World, u: World, c: Id)
    requires StoreOk(w) && ActiveOk(w) && Abandoned(w, u, c)
    ensures StoreOk(u) && ActiveOk(u)
  {
    AbandonLive(w, u, c);
    forall i | 0 <= i < |u.active| ensures u.active[i] in u.store
      && At(u, u.store[u.active[i]]).inActive && At(u, u.store[u.active[i]]).activeIdx == i
    {
      assert w.active[i] in w.store;
      StoredIsLive(w, w.active[i]);
    }
  }

  lemma AbandonWheel(w: World, u: World, c: Id)
    requires WheelOk(w, []) && Abandoned(w, u, c)
    ensures WheelOk(u, [])
  {
    AbandonLive(w, u, c);
    forall d | d in u.conns && u.conns[d].armed ensures u.conns[d].slot < |u.wheel| && d in u.wheel[u.conns[d].slot] {
      assert d in w.conns && w.conns[d].armed;
    }
  }

  lemma AbandonFree(w: World, u: World, c: Id)
    requires FreeOk(w) && LifeOk(w) && Abandoned(w, u, c)
    ensures FreeOk(u) && LifeOk(u)
  {
    AbandonLive(w, u, c);
  }

  lemma ActiveAddKeepsInv(w: World, c: Id, fd: int, memory: bool)
    requires Quiet(w, []) && fd in w.store && w.store[fd] == c
    ensures var v := ActiveAdd(w, fd, memory);
      && Quiet(v, []) && Live(v, c) && v.conns[c].fd == fd && v.store == w.store
  {
    hide QueueOk, RefsOk, OpsOk, StoreOk, ActiveOk, FreeOk, LifeOk, WheelOk;
    StoredIsLive(w, fd);
    var v := ActiveAdd(w, fd, memory);
    if !w.conns[c].inActive && memory {
      RefsFrame(w, v, 0, 0);
      OpsFrame(w, v);
      StoreFrame(w, v);
      WheelFrame(w, v, []);
      FreeFrame(w, v);
      LifeFrame(w, v);
      ActiveAddActive(w, c, fd);
    }
  }

  lemma ActiveAddActive(w: World, c: Id, fd: int)
    requires StoreOk(w) && ActiveOk(w) && fd in w.store && w.store[fd] == c && !At(w, c).inActive
    ensures ActiveOk(ActiveAdd(w, fd, true))
  {
    var v := ActiveAdd(w, fd, true);
    StoredIsLive(w, fd);
    assert forall d :: Live(v, d) <==> Live(w, d);
    forall i | 0 <= i < |v.active| ensures v.active[i] in v.store
      && At(v, v.store[v.active[i]]).inActive && At(v, v.store[v.active[i]]).activeIdx == i
    {
      if i < |w.active| {
        var g := w.active[i];
        assert g in w.store && At(w, w.store[g]).inActive;
      }
    }
    forall d | Live(v, d) && v.conns[d].inActive ensures v.conns[d].fd >= 0
      && 0 <= v.conns[d].activeIdx < |v.active| && v.active[v.conns[d].activeIdx] == v.conns[d].fd
    {
      if d != c {
        assert Live(w, d) && w.conns[d].inActive;
      }
    }
  }

  lemma QuietPostRecv(w: World, c: Id, sqe: Slot)
    requires Quiet(w, []) && Live(w, c)
    ensures var v := PostRecv(w, c, sqe);
      Quiet(v, []) && Live(v, c) && v.conns[c].fd == w.conns[c].fd && v.store == w.store
  {
    hide Inv, Post;
    if sqe.Slot? {
      var fd := w.conns[c].fd;
      PostKeepsInv(w, [], c, Recv, fd, sqe.taken);
      var w1 := Post(w, c, Recv, fd, sqe.taken);
      FlagsKeepInv(w1, [], 0, 0, c, w1.conns[c].(recvArmed := true));
    }
  }

  lemma QuietStage(w: World, c: Id, fd: int, taken: nat)
    requires Quiet(w, []) && Live(w, c)
    ensures Quiet(StageResponse(w, c, fd, true, taken), [])
  {
    hide Inv, CancelTimer;
    var r := w.conns[c].(closing := true);
    FlagsKeepInv(w, [], 0, 0, c, r);
    CancelKeepsInv(Set(w, c, r), [], 0, 0, c);
    PostKeepsInv(CancelTimer(Set(w, c, r), c), [], c, Send, fd, taken);
  }

  lemma AcceptTailKeepsInv(w: World, c: Id, fd: int, a: AcceptInput)
    requires Quiet(w, []) && Live(w, c) && w.conns[c].fd == fd
    ensures Quiet(AcceptTail(w, c, fd, a), [])
  {
    hide Quiet, Close, PostRecv, StageResponse;
    CloseKeepsInv(w, [], fd, a.close);
    QuietPostRecv(w, c, a.recvSqe);
    var w1 := PostRecv(w, c, a.recvSqe);
    CloseKeepsInv(w1, [], fd, a.close);
    if a.sendSqe.Slot? {
      QuietStage(w1, c, fd, a.sendSqe.taken);
    }
  }

  lemma InstallStart(w: World, v: World, c: Id, fd: int) returns (u: World)
    requires Quiet(w, []) && Taken(w.(leaked := w.leaked + {fd}), v, c)
    requires fd >= 0 && fd !in w.queue.sockets && fd !in w.leaked
    ensures
      var w2 := Set(v, c, NEW_CONN.(fd := fd));
      u == w2.(store := w2.store[fd := c], queue := Open(w2.queue, fd, c), leaked := w2.leaked - {fd},
               counted := w2.counted + 1)
    ensures Quiet(u, []) && fd in u.store && u.store[fd] == c
  {
    hide Quiet;
    var v0 := v.(leaked := w.leaked);
    assert Taken(w, v0, c);
    LiveAfterTake(w, v0, c);
    InstalledKeepsInv(w, v0, c, fd);
    u := Installed(v0, c, fd);
    assert v.leaked - {fd} == w.leaked;
  }

  lemma InstallKeepsInv(w: World, v: World, c: Id, fd: int, a: AcceptInput)
    requires Quiet(w, []) && Taken(w.(leaked := w.leaked + {fd}), v, c)
    requires fd >= 0 && fd !in w.queue.sockets && fd !in w.leaked
    ensures var u := Install(Set(v, c, NEW_CONN.(fd := fd)), c, fd, a);
      Quiet(u, []) && Live(u, c) && u.conns[c].fd == fd
  {
    hide Inv, ActiveAdd, CancelTimer, InsertTimer, Taken;
    var u0 := InstallStart(w, v, c, fd);
    ActiveAddKeepsInv(u0, c, fd, a.activeMemory);
    var u1 := ActiveAdd(u0, fd, a.activeMemory);
    CancelKeepsInv(u1, [], 0, 0, c);
    InsertKeepsInv(CancelTimer(u1, c), [], 0, 0, c, a.initTimer);
  }

  /** A connection is set up completely or dropped completely. */
  lemma AcceptKeepsInv(w: World, fd: int, a: AcceptInput)
    requires Quiet(w, []) && Fresh(w, fd, a)
    ensures Quiet(Accept(w, fd, a), [])
  {
    var w0 := w.(leaked := w.leaked + {fd});
    assert Quiet(w0, []) by { LeakKeepsInv(w, fd); }
    hide Quiet, Close, Alloc, Install, Recycle, AcceptTail, Set;
    AllocTakesQuiet(w0, a);
    var (w1, got) := Alloc(w0, a);
    if got == [] {
      CloseKeepsInv(w1, [], fd, a.close);
    } else {
      var c := got[0];
      var w2 := Set(w1, c, NEW_CONN.(fd := fd));
      if !a.storeMemory {
        AbandonKeepsInv(w0, w1, c, fd);
        CloseKeepsInv(Recycle(w2, c), [], fd, a.close);
      } else {
        InstallKeepsInv(w, w1, c, fd, a);
        AcceptTailKeepsInv(Install(w2, c, fd, a), c, fd, a);
      }
    }
  }

  lemma AllocTakesQuiet(w: World, a: AcceptInput)
    requires Quiet(w, []) && a.block !in w.conns
    ensures var (v, got) := Alloc(w, a);
      if got == [] then v == w else |got| == 1 && Taken(w, v, got[0])
  {
    AllocTakes(w, a);
  }

  lemma LeakKeepsInv(w: World, fd: int)
    requires Quiet(w, []) && fd !in w.queue.sockets
    ensures Quiet(w.(leaked := w.leaked + {fd}), [])
  {
    hide QueueOk, RefsOk, OpsOk, StoreOk, ActiveOk, FreeOk, LifeOk, WheelOk;
    var v := w.(leaked := w.leaked + {fd});
    assert SameFds(w, v);
    RefsFrame(w, v, 0, 0);
    OpsFrame(w, v);
    StoreFrame(w, v);
    ActiveFrame(w, v);
    WheelFrame(w, v, []);
    FreeFrame(w, v);
    LifeFrame(w, v);
  }

  // ----- runs -------------------------------------------------------------------------

  datatype Event =
    | Accepted(fd: int, accept: AcceptInput)
    | Completed(op: Op, input: Input, env: Env)
    | Ticked(slot: nat, visits: seq<Visit>)
    | Submitted(taken: nat)
    | Fetched(taken: nat, batch: multiset<Op>)

  /**
   What the kernel and the allocator may do: hand out a descriptor that is not open, return a
   block that is not in use, complete any operations it has taken.  A worker handles a batch of
   completions in full, then submits what is staged and fetches the next; a submission takes
   everything unless the kernel stops short.  Between handlers other users of the queue (accept,
   the sweep timer, the removal of a poll) may submit too.
   */
  ghost predicate Enabled(w: World, ev: Event) {
    match ev
    case Accepted(fd, a) => Fresh(w, fd, a)
    case Completed(op, _, _) => op in w.batch
    case Ticked(s, visits) => s < |w.wheel| && |visits| == |w.wheel[s]|
    case Submitted(_) => true
    case Fetched(n, batch) => w.batch == multiset{} && Named(Flush(w.queue, n).staged) + batch <= w.ops
  }

  function Step(w: World, ev: Event): (w': World)
    requires Enabled(w, ev)
  {
    match ev
    case Accepted(fd, a) => Accept(w, fd, a)
    case Completed(op, i, e) => Complete(w, op, i, e)
    case Ticked(s, visits) => Tick(w, s, visits)
    case Submitted(n) => Submit(w, n)
    case Fetched(n, batch) => Submit(w, n).(batch := batch)
  }

  function Start(slots: nat): (w: World) {
    World(map[], [], map[], [], seq(slots, _ => []), multiset{}, 0, Queue(map[], [], []), multiset{}, {},
          multiset{}, multiset{}, false)
  }

  /** `run` lists every state of one execution, `events` what happened between them. */
  ghost predicate IsRun(run: seq<World>, events: seq<Event>, slots: nat) {
    && |run| == |events| + 1
    && run[0] == Start(slots)
    && forall i :: 0 <= i < |events| ==> Enabled(run[i], events[i]) && run[i + 1] == Step(run[i], events[i])
  }

  lemma {:induction false} RunsAreQuiet(run: seq<World>, events: seq<Event>, slots: nat, n: nat)
    requires IsRun(run, events, slots) && n < |run|
    ensures Quiet(run[n], [])
    decreases n
  {
    hide Inv, Accept, Complete, Tick;
    if n == 0 {
      StartIsQuiet(slots);
    } else {
      RunsAreQuiet(run, events, slots, n - 1);
      var ev := events[n - 1];
      assert Enabled(run[n - 1], ev) && run[n] == Step(run[n - 1], ev);
      match ev
      case Accepted(fd, a) => AcceptKeepsInv(run[n - 1], fd, a);
      case Completed(op, i, e) => CompleteKeepsInv(run[n - 1], op, i, e);
      case Ticked(s, visits) => TickKeepsInv(run[n - 1], s, visits);
      case Submitted(m) => SubmitKeepsInv(run[n - 1], [], 0, 0, m);
      case Fetched(m, batch) => FetchKeepsInv(run[n - 1], m, batch);
    }
  }

  lemma FetchKeepsInv(w: World, n: nat, batch: multiset<Op>)
    requires Quiet(w, []) && Enabled(w, Fetched(n, batch))
    ensures Quiet(Step(w, Fetched(n, batch)), [])
  {
    hide RefsOk, OpsOk, StoreOk, ActiveOk, WheelOk, FreeOk, LifeOk, Flush, Honest, End, Named;
    SubmitKeepsInv(w, [], 0, 0, n);
    var u := Submit(w, n);
    var v := u.(batch := batch);
    RefsFrame(u, v, 0, 0);
    OpsFrame(u, v);
    StoreFrame(u, v);
    ActiveFrame(u, v);
    WheelFrame(u, v, []);
    FreeFrame(u, v);
    LifeFrame(u, v);
  }

  lemma StartIsQuiet(slots: nat)
    ensures Quiet(Start(slots), [])
  {
  }

  ghost predicate Stored(w: World, c: Id) {
    exists fd :: fd in w.store && w.store[fd] == c
  }

  /**
   Main result.  At every point of every run, with completions in any order:
   no recycled connection was touched; a live connection's count is one for the store
   plus one per outstanding operation; every outstanding operation names a live one;
   every block was recycled once per time it was handed out, except while it lives;
   a connection that is neither stored nor named by an operation is already recycled.
   */
  lemma LifetimeTheorem(run: seq<World>, events: seq<Event>, slots: nat, n: nat)
    requires IsRun(run, events, slots) && n < |run|
    ensures var w := run[n];
      && !w.fault
      && (forall c :: Live(w, c) ==>
            w.conns[c].refcnt == (if Stored(w, c) then 1 else 0) + OpsOf(w.ops, c))
      && (forall op :: op in w.ops ==> Live(w, op.c))
      && (forall c :: w.born[c] == w.died[c] + (if Live(w, c) then 1 else 0))
      && (forall c :: !Stored(w, c) && OpsOf(w.ops, c) == 0 ==> !Live(w, c))
  {
    var w := run[n];
    RunsAreQuiet(run, events, slots, n);
    forall c | Live(w, c) ensures Stored(w, c) <==> w.conns[c].fd >= 0 {
      if w.conns[c].fd >= 0 {
        assert w.conns[c].fd in w.store;
      }
    }
  }

  /**
   The tables agree at every point of every run: the store, the closes on their way and the
   open descriptors, the
   active set and its cached indices, the global count, the freelist and the wheel.
   A connection is armed exactly while some bucket holds it; closed and recycled ones are not.
   */
  lemma TablesTheorem(run: seq<World>, events: seq<Event>, slots: nat, n: nat)
    requires IsRun(run, events, slots) && n < |run|
    ensures var w := run[n];
      && w.counted == |w.store|
      && w.queue.sockets.Keys == w.store.Keys + Closing(w.queue.staged) && w.store.Keys !! Closing(w.queue.staged)
      && (forall fd :: fd in w.store ==> w.queue.sockets[fd] == w.store[fd])
      && w.queue.sockets.Keys !! w.leaked
      && NoDup(w.active)
      && (forall i :: 0 <= i < |w.active| ==>
            w.active[i] in w.store && At(w, w.store[w.active[i]]).activeIdx == i)
      && (forall c :: c in w.conns ==>
            (w.conns[c].armed <==> exists s :: 0 <= s < |w.wheel| && c in w.wheel[s]))
      && (forall c :: c in w.conns && (w.conns[c].fd < 0 || c in w.free) ==> !w.conns[c].armed)
      && NoDup(w.free) && |w.free| <= FREELIST_CAP
  {
    hide Step;
    RunsAreQuiet(run, events, slots, n);
    TablesAgree(run[n]);
    OpenNumbers(run[n].queue.sockets, run[n].queue.staged);
  }

  lemma TablesAgree(w: World)
    requires Quiet(w, [])
    ensures NoDup(w.active)
    ensures forall c :: c in w.conns ==>
      (w.conns[c].armed <==> exists s :: 0 <= s < |w.wheel| && c in w.wheel[s])
    ensures forall c :: c in w.conns && (w.conns[c].fd < 0 || c in w.free) ==> !w.conns[c].armed
  {
  }

  /**
   A closed connection only drains: completing one of its operations posts no new one,
   and the completion that leaves none behind is the one that recycles it.
   */
  lemma ClosedOnlyDrains(w: World, op: Op, i: Input, e: Env)
    requires Quiet(w, []) && op in w.batch && At(w, op.c).fd < 0
    ensures var v := Complete(w, op, i, e);
      && v.ops == w.ops - multiset{op}
      && OpsOf(v.ops, op.c) == OpsOf(w.ops, op.c) - 1
      && (Live(v, op.c) <==> OpsOf(v.ops, op.c) > 0)
      && v.died[op.c] == w.died[op.c] + (if OpsOf(v.ops, op.c) == 0 then 1 else 0)
  {
    hide Quiet, Finish, OpsOf, Set, WriteHandler, ReadyHandler, ReadHandler;
    FinishDrains(w, op);
    if op.kind.CloseOp? {
      CompleteClose(w, op);
    } else {
      DisarmedIsQuiet(w, op);
      FinishDrains(Set(w, op.c, At(w, op.c).(recvArmed := false)), op);
    }
  }

  lemma FinishDrains(w: World, op: Op)
    requires Quiet(w, []) && op in w.batch && At(w, op.c).fd < 0
    ensures var v := Finish(w, op);
      && v.ops == w.ops - multiset{op}
      && OpsOf(v.ops, op.c) == OpsOf(w.ops, op.c) - 1
      && (Live(v, op.c) <==> OpsOf(v.ops, op.c) > 0)
      && v.died[op.c] == w.died[op.c] + (if OpsOf(v.ops, op.c) == 0 then 1 else 0)
  {
    hide QueueOk, RefsOk, OpsOk, StoreOk, ActiveOk, WheelOk, FreeOk, LifeOk, CountOk, OpsOf, Finish, Put;
    FetchedIsLive(w, op);
    FinishKeepsInv(w, op);
    OneLess(w.ops, op, op.c);
    ClosedCount(w, op);
    PutCountsDeath(w.(ops := w.ops - multiset{op}, batch := w.batch - multiset{op}), op.c);
    assert Finish(w, op) == Put(w.(ops := w.ops - multiset{op}, batch := w.batch - multiset{op}), op.c) by {
      FinishIsPut(w, op);
    }
  }

  lemma FinishIsPut(w: World, op: Op)
    ensures Finish(w, op) == Put(w.(ops := w.ops - multiset{op}, batch := w.batch - multiset{op}), op.c)
  {
  }

  /** Of a closed connection every reference belongs to an operation. */
  lemma ClosedCount(w: World, op: Op)
    requires Quiet(w, []) && Live(w, op.c) && At(w, op.c).fd < 0
    ensures w.conns[op.c].refcnt == OpsOf(w.ops, op.c) >= 1
  {
    hide OpsOf;
  }

  lemma PutCountsDeath(w: World, c: Id)
    requires Live(w, c) && w.conns[c].refcnt >= 1
    ensures var v := Put(w, c);
      && (Live(v, c) <==> w.conns[c].refcnt > 1)
      && v.died[c] == w.died[c] + (if w.conns[c].refcnt == 1 then 1 else 0)
  {
  }
}
