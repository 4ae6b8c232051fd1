/**
 Which descriptors the connection protocol leaves open with no owner, and which of its operations
 the kernel takes on a number that is not the connection's own socket: exactly when, over every run.
 */
module Descriptors {
  import opened ActiveSet
  import opened Deadlines
  import opened Lifecycle
  import opened SubmissionQueue

  // ----- steps that touch neither book ----------------------------------------------------

  /** The operations staged when their connection no longer had the number, in order. */
  function Lates(w: World): (r: seq<(Op, int)>) {
    LateOnes(Log(w.queue))
  }

  predicate Calm(w: World, v: World) {
    v.leaked == w.leaked && Lates(v) == Lates(w)
  }

  /** And the connection still has the descriptor it had. */
  predicate Steady(w: World, v: World, c: Id) {
    Calm(w, v) && At(v, c).fd == At(w, c).fd
  }

  lemma SubmitSteady(w: World, c: Id, n: nat)
    ensures Steady(w, Submit(w, n), c)
  {
    LateOfFlush(w.queue, n);
  }

  lemma SetSteady(w: World, c: Id, r: Conn)
    requires r.fd == At(w, c).fd
    ensures Steady(w, Set(w, c, r), c)
  {
  }

  lemma CancelSteady(w: World, c: Id)
    ensures Steady(w, CancelTimer(w, c), c)
  {
  }

  lemma InsertSteady(w: World, c: Id, t: Timer)
    ensures Steady(w, InsertTimer(w, c, t), c)
  {
  }

  lemma RescheduleSteady(w: World, c: Id, t: Timer)
    ensures Steady(w, Reschedule(w, c, t), c)
  {
    hide CancelTimer, InsertTimer;
    CancelSteady(w, c);
    InsertSteady(CancelTimer(w, c), c, t);
  }

  lemma RearmSteady(w: World, c: Id, r: Rearm)
    ensures Steady(w, MaybeReschedule(w, c, r), c)
  {
    hide Reschedule;
    if r.Rearm? {
      RescheduleSteady(w, c, r.t);
    }
  }

  lemma CancelPollSteady(w: World, c: Id, sqe: bool)
    ensures Steady(w, CancelPoll(w, c, sqe), c)
  {
  }

  lemma PutCalm(w: World, c: Id)
    ensures Calm(w, Put(w, c))
  {
  }

  lemma FinishCalm(w: World, op: Op)
    ensures Calm(w, Finish(w, op))
  {
    hide Put;
    PutCalm(w.(ops := w.ops - multiset{op}, batch := w.batch - multiset{op}), op.c);
  }

  predicate SameBooks(w: World, v: World) {
    v.leaked == w.leaked && v.queue == w.queue
  }

  lemma SameBooksCalm(w: World, v: World)
    requires SameBooks(w, v)
    ensures Calm(w, v)
  {
  }

  lemma SetCalm(w: World, c: Id, r: Conn)
    ensures SameBooks(w, Set(w, c, r)) && Calm(w, Set(w, c, r))
  {
  }

  lemma ActiveRemoveCalm(w: World, fd: int)
    ensures SameBooks(w, ActiveRemove(w, fd))
  {
    hide SwapRemove, IndexOf, Set;
    forall u: World, c: Id, r: Conn ensures SameBooks(u, Set(u, c, r)) {
      SetCalm(u, c, r);
    }
  }

  lemma DetachCalm(w: World, c: Id, fd: int)
    ensures SameBooks(w, Detach(w, c, fd))
  {
    hide ActiveRemove;
    ActiveRemoveCalm(Set(w, c, At(w, c).(fd := -1)), fd);
  }

  lemma CloseNowCalm(w: World, c: Id, fd: int, taken: nat)
    ensures Calm(w, CloseNow(w, c, fd, taken))
  {
    hide Detach;
    DetachCalm(w, c, fd);
    LateOfFlush(w.queue, taken);
    LateOfShut(Flush(w.queue, taken), c, fd);
  }

  lemma StageCloseCalm(w: World, c: Id, fd: int, taken: nat, flush: nat)
    ensures Calm(w, StageClose(w, c, fd, taken, flush))
  {
    hide Detach;
    DetachCalm(w, c, fd);
    var x := Entry(Op(CloseOp, c), fd, false, false);
    LateOfFlush(w.queue, taken);
    LateOfPush(Flush(w.queue, taken), x);
    LateOfFlush(Push(Flush(w.queue, taken), x), flush);
  }

  lemma ReleaseCalm(w: World, c: Id, fd: int, sync: bool, e: CloseEnv)
    ensures Calm(w, Release(w, c, fd, sync, e).0)
  {
    hide Put, CloseNow, StageClose, CancelPoll, Lates;
    CancelPollSteady(w, c, e.pollSqe);
    var v := if sync || e.closeSqe.Slot? then CancelPoll(w, c, e.pollSqe) else w;
    if sync || e.closeSqe.NoSlot? {
      CloseNowCalm(v, c, fd, e.flush);
      var u := CloseNow(v, c, fd, e.flush);
      PutCalm(u, c);
      PutCalm(Put(u, c), c);
    } else {
      StageCloseCalm(v, c, fd, e.closeSqe.taken, e.flush);
      PutCalm(StageClose(v, c, fd, e.closeSqe.taken, e.flush), c);
    }
  }

  lemma CloseCalm(w: World, fd: int, e: CloseEnv)
    ensures Calm(w, Close(w, fd, e).0)
    ensures fd !in w.store ==> Close(w, fd, e).0 == w
  {
    hide Release, CancelTimer, ActiveRemove;
    if fd >= 0 && fd in w.store {
      var c := w.store[fd];
      var w1 := MarkClosing(w, c);
      assert Calm(w, w1) by {
        CancelSteady(Set(w, c, At(w, c).(abortive := false)), c);
      }
      ActiveRemoveCalm(w1, fd);
      var r := At(w1, c);
      var dk := At(w, c).kind;
      ReleaseCalm(Ref(w1, c), c, fd, dk.InitialIdle? || dk.KaIdle? || dk.Drain? || At(w, c).abortive, e);
    }
  }

  // ----- posting on the connection's own descriptor -----------------------------------------

  /** What staging on `fd` adds to the late ones. */
  function LateIf(w: World, op: Op, fd: int): (r: seq<(Op, int)>) {
    if fd >= 0 && At(w, op.c).fd == fd then [] else [(op, fd)]
  }

  lemma PostOwn(w: World, c: Id, kind: OpKind, fd: int, taken: nat)
    ensures var v := Post(w, c, kind, fd, taken);
      At(v, c).fd == At(w, c).fd && v.leaked == w.leaked && Lates(v) == Lates(w) + LateIf(w, Op(kind, c), fd)
  {
    var x := Entry(Op(kind, c), fd, !(fd >= 0 && At(w, c).fd == fd), false);
    LateOfFlush(w.queue, taken);
    LateOfPush(Flush(w.queue, taken), x);
  }

  lemma PostRecvSteady(w: World, c: Id, sqe: Slot)
    ensures Steady(w, PostRecv(w, c, sqe), c)
  {
    hide Post, Lates;
    if sqe.Slot? {
      PostOwn(w, c, Recv, At(w, c).fd, sqe.taken);
      var w1 := Post(w, c, Recv, At(w, c).fd, sqe.taken);
      SetSteady(w1, c, At(w1, c).(recvArmed := true));
    }
  }

  lemma PostRemainingOwn(w: World, c: Id, cfd: int, pending: bool, guard: bool, e: Env)
    requires At(w, c).fd == cfd >= 0
    ensures Calm(w, PostRemaining(w, c, cfd, pending, guard, e))
  {
    hide Post, Close, Lates;
    CloseCalm(w, cfd, e.close);
    if e.sqe.Slot? {
      PostOwn(w, c, Send, cfd, e.sqe.taken);
    }
  }

  lemma TakeBackCalm(w: World, c: Id, kind: OpKind, fd: int, taken: nat)
    ensures Calm(w, TakeBack(Post(w, c, kind, fd, taken), Op(kind, c)))
  {
    hide Put, Flush, Push, Withdraw, Lates;
    var q := Flush(w.queue, taken);
    PushedThenWithdrawn(q, Entry(Op(kind, c), fd, !(fd >= 0 && At(w, c).fd == fd), false));
    var v := Post(w, c, kind, fd, taken);
    SubmitSteady(w, c, taken);
    SameBooksCalm(Submit(w, taken), v.(ops := v.ops - multiset{Op(kind, c)}, queue := q));
    PutCalm(v.(ops := v.ops - multiset{Op(kind, c)}, queue := q), c);
  }

  lemma ArmPolloutOwn(w: World, c: Id, cfd: int, e: Env)
    requires At(w, c).fd == cfd >= 0
    ensures Calm(w, ArmPollout(w, c, cfd, e))
  {
    hide Post, Close, MaybeReschedule, TakeBack, Submit, Lates;
    RearmSteady(w, c, e.rearm);
    var w1 := MaybeReschedule(w, c, e.rearm);
    CloseCalm(w1, cfd, e.close);
    if e.sqe.Slot? {
      PostOwn(w1, c, Pollout, cfd, e.sqe.taken);
      var w2 := Post(w1, c, Pollout, cfd, e.sqe.taken);
      if e.submit.Slot? {
        var r := At(w2, c).(pollArmed := true);
        SetSteady(w2, c, r);
        SubmitSteady(Set(w2, c, r), c, e.submit.taken);
      } else {
        TakeBackCalm(w1, c, Pollout, cfd, e.sqe.taken);
        CloseCalm(TakeBack(w2, Op(Pollout, c)), cfd, e.close);
      }
    }
  }

  /** A staged response is one send on the given descriptor. */
  lemma StageSends(w: World, c: Id, cfd: int, closeAfter: bool, taken: nat)
    ensures var v := StageResponse(w, c, cfd, closeAfter, taken);
      v.leaked == w.leaked && Lates(v) == Lates(w) + LateIf(w, Op(Send, c), cfd)
  {
    hide Post, CancelTimer, Lates;
    var r := At(w, c).(closing := true);
    SetSteady(w, c, r);
    CancelSteady(Set(w, c, r), c);
    PostOwn(w, c, Send, cfd, taken);
    PostOwn(CancelTimer(Set(w, c, r), c), c, Send, cfd, taken);
  }

  /** Does the action send something? */
  predicate Answers(p: Plan, e: Env) {
    e.sqe.Slot? && match p
      case InternalError => true
      case Error(_, _) => true
      case Continue => false
      case Okay(d) => !d.NoResponse?
  }

  /** An action sends at most once, on the descriptor the handler was started with. */
  lemma ApplySends(w: World, c: Id, cfd: int, p: Plan, e: Env)
    ensures var v := ApplyAction(w, c, cfd, p, e);
      && v.leaked == w.leaked
      && Lates(v) == Lates(w) + if Answers(p, e) then LateIf(w, Op(Send, c), cfd) else []
  {
    hide Post, Close, Reschedule, StageResponse, PostRecv, Lates;
    CloseCalm(w, cfd, e.close);
    match p
    case InternalError =>
      if e.sqe.Slot? {
        StageSends(w, c, cfd, true, e.sqe.taken);
      }
    case Error(is431, closeAfter) =>
      if e.sqe.Slot? {
        var r := At(w, c).(draining := true);
        SetSteady(w, c, r);
        RescheduleSteady(Set(w, c, r), c, e.timer);
        StageSends(w, c, cfd, closeAfter, e.sqe.taken);
        StageSends(Reschedule(Set(w, c, r), c, e.timer), c, cfd, closeAfter, e.sqe.taken);
      }
    case Continue =>
      PostRecvSteady(w, c, e.recvSqe);
      RescheduleSteady(PostRecv(w, c, e.recvSqe), c, e.timer);
    case Okay(d) =>
      RescheduleSteady(w, c, e.okTimer);
      var w1 := Reschedule(w, c, e.okTimer);
      CloseCalm(w1, cfd, e.close);
      if e.sqe.Slot? {
        PostOwn(w1, c, Send, cfd, e.sqe.taken);
        if d.HeaderResponse? {
          StageSends(w1, c, cfd, d.closeAfter, e.sqe.taken);
        }
      }
  }

  lemma ResetSteady(w: World, c: Id, t: Timer)
    ensures Steady(w, ResetRequest(w, c, t), c)
  {
    hide Reschedule;
    var r := At(w, c).(closing := false, draining := false, recvArmed := false, pollArmed := false);
    SetSteady(w, c, r);
    RescheduleSteady(Set(w, c, r), c, t);
  }

  lemma FullOwn(w: World, c: Id, cfd: int, a: After, e: Env)
    requires At(w, c).fd == cfd >= 0
    ensures Calm(w, FullResponse(w, c, cfd, a, e))
  {
    hide PostRecv, Close, Reschedule, ResetRequest, ApplyAction, MaybeReschedule;
    RearmSteady(w, c, e.rearm);
    var w1 := MaybeReschedule(w, c, e.rearm);
    match a
    case AfterShutWr =>
      PostRecvSteady(w1, c, e.recvSqe);
    case AfterKeepalive(t, stashed, p, se) =>
      ResetSteady(w1, c, t);
      var w2 := ResetRequest(w1, c, t);
      ApplySends(w2, c, cfd, p, se);
      var w3 := if stashed then ApplyAction(w2, c, cfd, p, se) else w2;
      PostRecvSteady(w3, c, e.recvSqe);
      RescheduleSteady(PostRecv(w3, c, e.recvSqe), c, e.timer);
    case AfterClose =>
      CloseCalm(w1, cfd, e.close);
  }

  lemma {:induction false} SendfileOwn(w: World, c: Id, cfd: int, resumes: seq<Timer>, end: SendfileEnd, e: Env)
    requires At(w, c).fd == cfd >= 0
    ensures Calm(w, SendfileProgress(w, c, cfd, resumes, end, e))
    decreases |resumes|
  {
    hide PostRecv, Close, Reschedule, CancelPoll, FullResponse, ArmPollout, MaybeReschedule;
    if resumes != [] {
      RescheduleSteady(w, c, resumes[0]);
      SendfileOwn(Reschedule(w, c, resumes[0]), c, cfd, resumes[1..], end, e);
    } else {
      CancelPollSteady(w, c, e.sqe.Slot?);
      var w1 := CancelPoll(w, c, e.sqe.Slot?);
      match end
      case SfPollout =>
        ArmPolloutOwn(w, c, cfd, e);
      case SfError =>
        RearmSteady(w, c, e.rearm);
        CloseCalm(MaybeReschedule(w, c, e.rearm), cfd, e.close);
      case SfShutWr =>
        RearmSteady(w1, c, e.rearm);
        PostRecvSteady(MaybeReschedule(w1, c, e.rearm), c, e.recvSqe);
      case SfFull(a) =>
        FullOwn(w1, c, cfd, a, e);
    }
  }

  lemma WriteOwn(w: World, c: Id, cfd: int, started: Rearm, i: WriteInput, e: Env)
    requires At(w, c).fd == cfd >= 0
    ensures Calm(w, WriteHandler(w, c, cfd, started, i, e))
  {
    hide PostRecv, Close, CancelPoll, FullResponse, ArmPollout, MaybeReschedule, SendfileProgress, PostRemaining;
    RearmSteady(w, c, started);
    var w1 := MaybeReschedule(w, c, started);
    CancelPollSteady(w1, c, e.submit.Slot?);
    var w2 := CancelPoll(w1, c, e.submit.Slot?);
    match i
    case WSendHeaders(pending) =>
      PostRemainingOwn(w1, c, cfd, pending, true, e);
    case WSendfile(resumes, end) =>
      SendfileOwn(w2, c, cfd, resumes, end, e);
    case WPollout =>
      ArmPolloutOwn(w1, c, cfd, e);
    case WShutWr =>
      RearmSteady(w2, c, e.rearm);
      PostRecvSteady(MaybeReschedule(w2, c, e.rearm), c, e.recvSqe);
    case WDone(a) =>
      FullOwn(w2, c, cfd, a, e);
    case WError =>
      RearmSteady(w1, c, e.rearm);
      CloseCalm(MaybeReschedule(w1, c, e.rearm), cfd, e.close);
    case WNoop =>
  }

  lemma ReadyOwn(w: World, c: Id, cfd: int, i: ReadyInput, e: Env)
    requires At(w, c).fd == cfd >= 0
    ensures Calm(w, ReadyHandler(w, c, cfd, i, e))
  {
    hide SendfileProgress, PostRemaining;
    var r := At(w, c).(pollArmed := false);
    SetSteady(w, c, r);
    match i
    case RSendfile(resumes, end) =>
      SendfileOwn(Set(w, c, r), c, cfd, resumes, end, e);
    case RSendHeaders(pending) =>
      PostRemainingOwn(Set(w, c, r), c, cfd, pending, false, e);
    case RNoop =>
  }

  // ----- the full stash -----------------------------------------------------------------------

  /** The handler closed the connection over a full stash and its action still sends. */
  predicate SendsAfterClose(i: ReadInput, e: Env) {
    i.Data? && i.stashFull && Answers(i.plan, e)
  }

  lemma ClosedHasNoFd(w: World, op: Op, cfd: int, e: CloseEnv)
    requires Serving(w, op, cfd)
    requires At(w, op.c).fd == cfd
    ensures var v := Close(w, cfd, e).0; Serving(v, op, cfd) && At(v, op.c).fd < 0
  {
    hide Inv, Close;
    CloseKeepsInv(w, [], cfd, e);
    ServingClose(w, op, cfd, e);
    NotInStore(Close(w, cfd, e).0, op.c, cfd);
  }

  lemma NotInStore(w: World, c: Id, fd: int)
    requires Quiet(w, []) && Live(w, c) && fd >= 0 && fd !in w.store
    ensures At(w, c).fd != fd
  {
    hide QueueOk;
  }

  lemma ReadSends(w: World, op: Op, cfd: int, i: ReadInput, e: Env)
    requires Serving(w, op, cfd) && At(w, op.c).fd == cfd
    ensures var v := ReadHandler(w, op.c, cfd, i, e);
      && v.leaked == w.leaked
      && Lates(v) == Lates(w) + if SendsAfterClose(i, e) then [(Op(Send, op.c), cfd)] else []
  {
    hide Inv, PostRecv, Close, ApplyAction, Serving, Lates;
    var c := op.c;
    var r := At(w, c).(recvArmed := false);
    var w1 := Set(w, c, r);
    SetSteady(w, c, r);
    ServingLive(w, op, cfd);
    ServingFlags(w, op, cfd, r);
    PostRecvSteady(w1, c, e.recvSqe);
    CloseCalm(w1, cfd, e.close);
    match i
    case NoBuffer(second) =>
    case BadBuffer =>
    case Again =>
    case EndOrError =>
    case Data(stashFull, stashClose, p) =>
      ApplySends(w1, c, cfd, p, e);
      if stashFull {
        CloseCalm(w1, cfd, stashClose);
        ClosedHasNoFd(w1, op, cfd, stashClose);
        ApplySends(Close(w1, cfd, stashClose).0, c, cfd, p, e);
      }
  }

  lemma ServingLive(w: World, op: Op, cfd: int)
    requires Serving(w, op, cfd)
    ensures Live(w, op.c) && w.conns[op.c] == At(w, op.c) && cfd >= 0
  {
  }

  /** The one kind of completion that stages on a descriptor the connection no longer has. */
  predicate AnswersClosed(w: World, op: Op, i: Input, e: Env) {
    var r := At(w, op.c);
    op.kind == Recv && r.fd >= 0 && !r.closing && i.InRead? && SendsAfterClose(i.read, e)
  }

  lemma CompleteBooks(w: World, op: Op, i: Input, e: Env)
    requires Quiet(w, []) && op in w.batch
    ensures var v := Complete(w, op, i, e);
      && v.leaked == w.leaked
      && Lates(v) == Lates(w) + if AnswersClosed(w, op, i, e) then [(Op(Send, op.c), At(w, op.c).fd)] else []
  {
    hide Inv, Finish, WriteHandler, ReadyHandler, ReadHandler, Serving, Lates;
    var c, fd := op.c, At(w, op.c).fd;
    FinishCalm(w, op);
    if fd >= 0 {
      StartServing(w, op);
    }
    match op.kind
    case CloseOp =>
      SetCalm(w, c, At(w, c).(fd := -1));
      FinishCalm(Set(w, c, At(w, c).(fd := -1)), op);
    case Send =>
      if fd >= 0 && i.InWrite? {
        WriteOwn(w, c, fd, i.started, i.write, e);
        FinishCalm(WriteHandler(w, c, fd, i.started, i.write, e), op);
      }
    case Pollout =>
      if fd >= 0 && i.InReady? {
        ReadyOwn(w, c, fd, i.ready, e);
        FinishCalm(ReadyHandler(w, c, fd, i.ready, e), op);
      }
    case Recv =>
      if fd >= 0 && i.InRead? {
        ReadSends(w, op, fd, i.read, e);
        FinishCalm(ReadHandler(w, c, fd, i.read, e), op);
      }
      SetCalm(w, c, At(w, c).(recvArmed := false));
      FinishCalm(Set(w, c, At(w, c).(recvArmed := false)), op);
  }

  // ----- ticks --------------------------------------------------------------------------------

  lemma AfterExpiryCalm(w: World, fd: int, c: Id, v: Expired_)
    ensures Calm(w, AfterExpiry(Close(w, fd, v.close), c, v))
  {
    hide Close, InsertTimer;
    CloseCalm(w, fd, v.close);
    InsertSteady(Close(w, fd, v.close).0, c, v.timer);
  }

  lemma ExpireCalm(w: World, c: Id, v: Expired_)
    requires At(w, c).fd >= 0
    ensures Calm(w, Expire(w, c, v))
  {
    hide Close, InsertTimer, Post, AfterExpiry;
    var r := At(w, c);
    var w1, w2 := Set(w, c, r.(abortive := true)), Set(w, c, r.(closing := true));
    SetSteady(w, c, r.(abortive := true));
    SetSteady(w, c, r.(closing := true));
    InsertSteady(w, c, v.timer);
    AfterExpiryCalm(w, r.fd, c, v);
    AfterExpiryCalm(w1, r.fd, c, v);
    if v.sendSqe.Slot? {
      PostOwn(w2, c, Send, r.fd, v.sendSqe.taken);
      InsertSteady(Post(w2, c, Send, r.fd, v.sendSqe.taken), c, v.timer);
    }
  }

  lemma VisitCalm(w: World, c: Id, v: Visit)
    requires At(w, c).fd >= 0
    ensures Calm(w, VisitOne(w, c, v))
  {
    hide InsertTimer, Expire;
    var r := At(w, c);
    var w1 := Set(w, c, r.(armed := false));
    SetSteady(w, c, r.(armed := false));
    if v.Early? {
      InsertSteady(w1, c, Due(r.kind, v.slot));
    } else {
      ExpireCalm(w1, c, v);
    }
  }

  lemma {:induction false} WalkCalm(w: World, pend: seq<Id>, visits: seq<Visit>)
    requires Quiet(w, pend) && |visits| == |pend|
    ensures Calm(w, Walk(w, pend, visits))
    decreases |pend|
  {
    hide Inv, VisitOne;
    if pend != [] {
      TakeHead(w, pend);
      VisitCalm(w, pend[0], visits[0]);
      VisitKeepsInv(w, pend, visits[0]);
      WalkCalm(VisitOne(w, pend[0], visits[0]), pend[1..], visits[1..]);
    }
  }

  lemma TickCalm(w: World, s: nat, visits: seq<Visit>)
    requires Quiet(w, []) && s < |w.wheel| && |visits| == |w.wheel[s]|
    ensures Calm(w, Tick(w, s, visits))
  {
    hide Inv, Walk;
    CutIsQuiet(w, s);
    WalkCalm(w.(wheel := w.wheel[s := []]), w.wheel[s], visits);
  }

  // ----- accept -------------------------------------------------------------------------------

  /** No block, or no room in the table: the new connection is given up. */
  predicate SetupFails(w: World, a: AcceptInput) {
    (w.free == [] && !a.connMemory) || !a.storeMemory
  }

  lemma AcceptTailCalm(w: World, c: Id, fd: int, a: AcceptInput)
    requires At(w, c).fd == fd >= 0
    ensures Calm(w, AcceptTail(w, c, fd, a))
  {
    hide Close, PostRecv, StageResponse;
    CloseCalm(w, fd, a.close);
    PostRecvSteady(w, c, a.recvSqe);
    var w1 := PostRecv(w, c, a.recvSqe);
    CloseCalm(w1, fd, a.close);
    if a.sendSqe.Slot? {
      StageSends(w1, c, fd, true, a.sendSqe.taken);
    }
  }

  lemma InstallBooks(w: World, c: Id, fd: int, a: AcceptInput)
    ensures var v := Install(w, c, fd, a);
      v.leaked == w.leaked - {fd} && Lates(v) == Lates(w) && At(v, c).fd == At(w, c).fd
  {
    hide Reschedule;
    var w1 := w.(store := w.store[fd := c], queue := Open(w.queue, fd, c), leaked := w.leaked - {fd},
                 counted := w.counted + 1);
    var w2 := ActiveAdd(w1, fd, a.activeMemory);
    assert Calm(w1, w2) && At(w2, c).fd == At(w1, c).fd;
    RescheduleSteady(w2, c, a.initTimer);
  }

  /** A descriptor is left open with no owner exactly when setting up its connection fails. */
  lemma LeaksIffSetupFails(w: World, fd: int, a: AcceptInput)
    requires Quiet(w, []) && Fresh(w, fd, a)
    ensures var v := Accept(w, fd, a);
      && v.leaked == w.leaked + (if SetupFails(w, a) then {fd} else {})
      && Lates(v) == Lates(w)
      && (fd in v.leaked <==> SetupFails(w, a))
  {
    hide Inv, Close, Install, AcceptTail, Recycle;
    StoredIsOpen(w);
    var w0 := w.(leaked := w.leaked + {fd});
    var (w1, got) := Alloc(w0, a);
    CloseCalm(w1, fd, a.close);
    if got != [] {
      var c := got[0];
      LiveAfterAlloc(w, w0, a);
      var w2 := Set(w1, c, NEW_CONN.(fd := fd));
      RecycleCalm(w2, c);
      CloseCalm(Recycle(w2, c), fd, a.close);
      InstallBooks(w2, c, fd, a);
      AcceptTailCalm(Install(w2, c, fd, a), c, fd, a);
      assert w.leaked + {fd} - {fd} == w.leaked;
    }
  }

  lemma StoredIsOpen(w: World)
    requires Quiet(w, [])
    ensures w.store.Keys <= w.queue.sockets.Keys
  {
  }

  lemma RecycleCalm(w: World, c: Id)
    ensures Calm(w, Recycle(w, c))
  {
  }

  lemma LiveAfterAlloc(w: World, w0: World, a: AcceptInput)
    requires Quiet(w, []) && a.block !in w.conns && w0.free == w.free && w0.conns == w.conns
    ensures Alloc(w0, a).1 != [] ==> Live(Alloc(w0, a).0, Alloc(w0, a).1[0])
  {
    AllocTakes(w0, a);
  }

  // ----- runs ---------------------------------------------------------------------------------

  /** What one event adds to the descriptors without an owner. */
  ghost function Leak(w: World, ev: Event): (r: set<int>) {
    if ev.Accepted? && SetupFails(w, ev.accept) then {ev.fd} else {}
  }

  /** What one event stages too late. */
  ghost function Late(w: World, ev: Event): (r: seq<(Op, int)>) {
    if ev.Completed? && AnswersClosed(w, ev.op, ev.input, ev.env)
    then [(Op(Send, ev.op.c), At(w, ev.op.c).fd)] else []
  }

  ghost function Leaks(run: seq<World>, events: seq<Event>, n: nat): (r: set<int>)
    requires n <= |events| < |run|
  {
    if n == 0 then {} else Leaks(run, events, n - 1) + Leak(run[n - 1], events[n - 1])
  }

  ghost function AllLate(run: seq<World>, events: seq<Event>, n: nat): (r: seq<(Op, int)>)
    requires n <= |events| < |run|
  {
    if n == 0 then [] else AllLate(run, events, n - 1) + Late(run[n - 1], events[n - 1])
  }

  lemma StepBooks(w: World, ev: Event)
    requires Quiet(w, []) && Enabled(w, ev)
    ensures var v := Step(w, ev); v.leaked == w.leaked + Leak(w, ev) && Lates(v) == Lates(w) + Late(w, ev)
  {
    hide Inv, Accept, Complete, Tick, AnswersClosed, SetupFails, Submit, Lates;
    match ev
    case Accepted(fd, a) => LeaksIffSetupFails(w, fd, a);
    case Completed(op, i, e) => CompleteBooks(w, op, i, e);
    case Ticked(s, visits) => TickCalm(w, s, visits);
    case Submitted(n) => SubmitSteady(w, 0, n);
    case Fetched(n, batch) =>
      SubmitSteady(w, 0, n);
      SameBooksCalm(Submit(w, n), Submit(w, n).(batch := batch));
  }

  lemma NoneLate(slots: nat)
    ensures Lates(Start(slots)) == []
  {
  }

  lemma TakenAsFlagged(w: World)
    requires Quiet(w, [])
    ensures forall x :: x in w.queue.sent ==>
      && (x.own <==> !x.entry.late && !x.entry.overtaken)
      && (x.entry.op.kind.CloseOp? ==> x.own)
  {
    hide Honest, End, Named, RefsOk, OpsOk, StoreOk, ActiveOk, WheelOk, FreeOk, LifeOk, CountOk;
  }

  /**
   In every run the descriptors left open with no owner are exactly those of accepts whose setup
   failed, and they are never given up.  The kernel takes an operation on a number that is not its
   connection's socket if and only if it was staged when the connection no longer had the number,
   or was still staged when its connection was closed at once; the former are exactly the answers
   of receives that closed the connection over a full stash.  A close always finds its own socket.
   */
  lemma {:induction false} DescriptorTheorem(run: seq<World>, events: seq<Event>, slots: nat, n: nat)
    requires IsRun(run, events, slots) && n < |run|
    ensures run[n].leaked == Leaks(run, events, n)
    ensures n > 0 ==> run[n - 1].leaked <= run[n].leaked
    ensures Lates(run[n]) == AllLate(run, events, n)
    ensures forall x :: x in run[n].queue.sent ==>
      && (x.own <==> !x.entry.late && !x.entry.overtaken)
      && (x.entry.op.kind.CloseOp? ==> x.own)
  {
    hide Step, Quiet, Lates;
    RunsAreQuiet(run, events, slots, n);
    TakenAsFlagged(run[n]);
    if n == 0 {
      NoneLate(slots);
    } else {
      DescriptorTheorem(run, events, slots, n - 1);
      RunsAreQuiet(run, events, slots, n - 1);
      assert Enabled(run[n - 1], events[n - 1]) && run[n] == Step(run[n - 1], events[n - 1]);
      StepBooks(run[n - 1], events[n - 1]);
    }
  }

  // ----- which closes overtake ------------------------------------------------------------------

  /** A close that does not go through the queue: idle, drain, abortive, or no entry to be had. */
  predicate AtOnce(w: World, fd: int, e: CloseEnv) {
    fd in w.store
    && var r := At(w, w.store[fd]);
       r.kind in {InitialIdle, KaIdle, Drain} || r.abortive || e.closeSqe.NoSlot?
  }

  lemma PutSame(w: World, c: Id)
    ensures SameBooks(w, Put(w, c))
  {
  }

  lemma MarkSame(w: World, c: Id)
    ensures SameBooks(w, Ref(MarkClosing(w, c), c))
  {
  }

  lemma CloseQueue(w: World, pend: seq<Id>, fd: int, e: CloseEnv)
    requires Quiet(w, pend) && fd in w.store && w.store[fd] !in pend
    ensures Close(w, fd, e).0.queue ==
      var c := w.store[fd];
      if AtOnce(w, fd, e) then Shut(Flush(w.queue, e.flush), c, fd)
      else Flush(Push(Flush(w.queue, e.closeSqe.taken), Entry(Op(CloseOp, c), fd, false, false)), e.flush)
  {
    hide QueueOk, RefsOk, OpsOk, StoreOk, ActiveOk, WheelOk, FreeOk, LifeOk, CountOk;
    hide MarkClosing, Ref, Put, Detach, CancelPoll, Flush, Shut, Push, ActiveRemove, CountDown;
    var c := w.store[fd];
    StoredIsLive(w, fd);
    NoSlack(w, pend, 0, c);
    MarkClosingKeepsInv(w, pend, c);
    MarkSame(w, c);
    var w1 := Ref(MarkClosing(w, c), c);
    var w2 := CancelPoll(w1, c, e.pollSqe);
    PollSame(w1, c, e.pollSqe);
    DetachCalm(w1, c, fd);
    DetachCalm(w2, c, fd);
    forall u: World ensures SameBooks(u, Put(u, c)) {
      PutSame(u, c);
    }
  }

  lemma PollSame(w: World, c: Id, sqe: bool)
    ensures SameBooks(w, CancelPoll(w, c, sqe))
  {
  }

  lemma {:induction false} OvertakeAt(s: seq<Entry>, c: Id, i: nat)
    requires i < |s|
    ensures Overtake(s, c)[i] == if s[i].op.c == c then s[i].(overtaken := true) else s[i]
  {
    if i > 0 {
      OvertakeAt(s[1..], c, i - 1);
    }
  }

  /**
   A close overtakes exactly the operations of its own connection that are still staged when it
   closes at once; a close through the queue overtakes none and comes after them.
   */
  lemma CloseOvertakes(w: World, pend: seq<Id>, fd: int, e: CloseEnv, i: nat)
    requires Quiet(w, pend) && fd in w.store && w.store[fd] !in pend && i < |Log(w.queue)|
    ensures var x, log := Log(w.queue)[i], Log(Close(w, fd, e).0.queue);
      && i < |log|
      && log[i] == (if AtOnce(w, fd, e) && i >= |Flush(w.queue, e.flush).sent| && x.op.c == w.store[fd]
                    then x.(overtaken := true) else x)
      && (!AtOnce(w, fd, e) ==> log == Log(w.queue) + [Entry(Op(CloseOp, w.store[fd]), fd, false, false)])
  {
    hide Quiet, Close, Flush;
    var c := w.store[fd];
    CloseQueue(w, pend, fd, e);
    if AtOnce(w, fd, e) {
      var q := Flush(w.queue, e.flush);
      FlushKeepsLog(w.queue, e.flush);
      if i >= |q.sent| {
        OvertakeAt(q.staged, c, i - |q.sent|);
      }
    } else {
      var q := Flush(w.queue, e.closeSqe.taken);
      FlushKeepsLog(w.queue, e.closeSqe.taken);
      FlushKeepsLog(Push(q, Entry(Op(CloseOp, c), fd, false, false)), e.flush);
    }
  }
}
