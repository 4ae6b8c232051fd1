/**
 What becomes of a connection's own record (its flags and its timer) when a completion does not
 close it, and that a completion changes no other connection's record but for cached positions.
 */
module Records {
  import opened Deadlines
  import opened Lifecycle
  import opened SubmissionQueue
  import opened Outcomes

  // ----- the record alone -------------------------------------------------------------------------

  /** One deadline, the one given; none if there is none to arm or the wheel has no such bucket. */
  function Timed(r: Conn, t: Timer, slots: nat): (q: Conn) {
    if r.fd >= 0 && t.Due? && t.slot < slots then r.(kind := t.kind, armed := true, slot := t.slot)
    else r.(kind := NoKind, armed := false)
  }

  function Retimed(r: Conn, m: Rearm, slots: nat): (q: Conn) {
    if m.Keep? then r else Timed(r, m.t, slots)
  }

  function Reading(r: Conn, s: Slot): (q: Conn) {
    if CanRecv(r, s) then r.(recvArmed := true) else r
  }

  /** An answer after which the connection is closed has no deadline of its own. */
  function Answering(r: Conn, closeAfter: bool, slots: nat): (q: Conn) {
    if closeAfter then Timed(r.(closing := true), Off, slots) else r
  }

  function AfterAction(r: Conn, p: Plan, e: Env, slots: nat): (q: Conn) {
    match p
    case InternalError => Answering(r, true, slots)
    case Error(is431, closeAfter) =>
      Answering(if is431 then Timed(r.(draining := true), e.timer, slots) else r, closeAfter, slots)
    case Continue => Timed(Reading(r, e.recvSqe), e.timer, slots)
    case Okay(d) =>
      var timed := Timed(r, e.okTimer, slots);
      if d.HeaderResponse? then Answering(timed, d.closeAfter, slots) else timed
  }

  function AfterRead(r: Conn, i: ReadInput, e: Env, slots: nat): (q: Conn) {
    var disarmed := r.(recvArmed := false);
    if i.Data? then AfterAction(disarmed, i.plan, e, slots) else Reading(disarmed, e.recvSqe)
  }

  /** A new request starts with a clean record. */
  function Renewed(r: Conn, t: Timer, slots: nat): (q: Conn) {
    Timed(r.(closing := false, draining := false, recvArmed := false, pollArmed := false), t, slots)
  }

  function AfterFull(r: Conn, a: After, e: Env, slots: nat): (q: Conn) {
    var timed := Retimed(r, e.rearm, slots);
    match a
    case AfterClose => timed
    case AfterShutWr => Reading(timed, e.recvSqe)
    case AfterKeepalive(t, stashed, p, se) =>
      var renewed := Renewed(timed, t, slots);
      var next := if stashed then AfterAction(renewed, p, se, slots) else renewed;
      if stashed && !p.Continue? then next else Timed(Reading(next, e.recvSqe), e.timer, slots)
  }

  function AfterPoll(r: Conn, e: Env, slots: nat): (q: Conn) {
    if r.pollArmed then r
    else
      var timed := Retimed(r, e.rearm, slots);
      if e.sqe.Slot? && e.submit.Slot? then timed.(pollArmed := true) else timed
  }

  function AfterFile(r: Conn, resumes: seq<Timer>, end: SendfileEnd, e: Env, slots: nat): (q: Conn)
    decreases |resumes|
  {
    if resumes != [] then AfterFile(Timed(r, resumes[0], slots), resumes[1..], end, e, slots)
    else
      match end
      case SfPollout => AfterPoll(r, e, slots)
      case SfError => r
      case SfShutWr => Reading(Retimed(Unpolled(r, e.sqe), e.rearm, slots), e.recvSqe)
      case SfFull(a) => AfterFull(Unpolled(r, e.sqe), a, e, slots)
  }

  function AfterWrite(r: Conn, started: Rearm, i: WriteInput, e: Env, slots: nat): (q: Conn) {
    var timed := Retimed(r, started, slots);
    match i
    case WSendHeaders(_) => timed
    case WSendfile(resumes, end) => AfterFile(Unpolled(timed, e.submit), resumes, end, e, slots)
    case WPollout => AfterPoll(timed, e, slots)
    case WShutWr => Reading(Retimed(Unpolled(timed, e.submit), e.rearm, slots), e.recvSqe)
    case WDone(a) => AfterFull(Unpolled(timed, e.submit), a, e, slots)
    case WError => timed
    case WNoop => timed
  }

  function AfterReady(r: Conn, i: ReadyInput, e: Env, slots: nat): (q: Conn) {
    var disarmed := r.(pollArmed := false);
    if i.RSendfile? then AfterFile(disarmed, i.resumes, i.end, e, slots) else disarmed
  }

  function AfterCompletion(r: Conn, kind: OpKind, i: Input, e: Env, slots: nat): (q: Conn) {
    match kind
    case Recv => if !r.closing && i.InRead? then AfterRead(r, i.read, e, slots) else r.(recvArmed := false)
    case Send => if i.InWrite? then AfterWrite(r, i.started, i.write, e, slots) else r
    case Pollout => if i.InReady? && !(r.closing && i.noResponse) then AfterReady(r, i.ready, e, slots) else r
    case CloseOp => r
  }

  // ----- the worker does that to it -----------------------------------------------------------------

  /** A connection's record without its reference count. */
  function Rec(w: World, c: Id): (r: Conn) {
    At(w, c).(refcnt := 0)
  }

  /** From `w` to `v` the record of `c` becomes `q`. */
  ghost predicate Becomes(w: World, v: World, c: Id, q: Conn) {
    Live(v, c) && |v.wheel| == |w.wheel| && Rec(v, c) == q
  }

  lemma CancelRecord(w: World, c: Id)
    requires Live(w, c)
    ensures Becomes(w, CancelTimer(w, c), c, Rec(w, c).(armed := false, kind := NoKind))
  {
  }

  lemma InsertRecord(w: World, c: Id, t: Timer)
    requires Live(w, c) && !At(w, c).armed
    ensures Becomes(w, InsertTimer(w, c, t), c, Timed(Rec(w, c), t, |w.wheel|))
  {
    hide Set, At;
    var r := At(w, c);
    SetRecord(w, c, r.(kind := NoKind));
    if t.Due? && t.slot < |w.wheel| {
      var w1 := w.(wheel := w.wheel[t.slot := [c] + w.wheel[t.slot]]);
      SetRecord(w1, c, r.(kind := t.kind, armed := true, slot := t.slot));
    }
  }

  lemma RescheduleRecord(w: World, c: Id, t: Timer)
    requires Live(w, c)
    ensures Becomes(w, Reschedule(w, c, t), c, Timed(Rec(w, c), t, |w.wheel|))
  {
    hide CancelTimer, InsertTimer;
    CancelRecord(w, c);
    InsertRecord(CancelTimer(w, c), c, t);
  }

  lemma RearmRecord(w: World, c: Id, m: Rearm)
    requires Live(w, c)
    ensures Becomes(w, MaybeReschedule(w, c, m), c, Retimed(Rec(w, c), m, |w.wheel|))
  {
    hide Reschedule;
    if m.Rearm? {
      RescheduleRecord(w, c, m.t);
    }
  }

  lemma SetRecord(w: World, c: Id, r: Conn)
    requires Live(w, c)
    ensures Becomes(w, Set(w, c, r), c, r.(refcnt := 0)) && At(Set(w, c, r), c) == r
  {
  }

  lemma PostRecord(w: World, c: Id, kind: OpKind, fd: int, taken: nat)
    requires Live(w, c)
    ensures Becomes(w, Post(w, c, kind, fd, taken), c, Rec(w, c))
  {
  }

  lemma RecvRecord(w: World, c: Id, s: Slot)
    requires Live(w, c)
    ensures Becomes(w, PostRecv(w, c, s), c, Reading(Rec(w, c), s))
  {
    hide Post;
    if s.Slot? {
      PostRecord(w, c, Recv, At(w, c).fd, s.taken);
    }
  }

  lemma StageRecord(w: World, c: Id, cfd: int, closeAfter: bool, taken: nat)
    requires Live(w, c)
    ensures Becomes(w, StageResponse(w, c, cfd, closeAfter, taken), c, Answering(Rec(w, c), closeAfter, |w.wheel|))
  {
    hide Post, CancelTimer;
    var w0 := Set(w, c, At(w, c).(closing := true));
    CancelRecord(w0, c);
    PostRecord(w, c, Send, cfd, taken);
    PostRecord(CancelTimer(w0, c), c, Send, cfd, taken);
  }

  lemma ErrorRecord(w: World, c: Id, cfd: int, is431: bool, closeAfter: bool, e: Env)
    requires Live(w, c) && e.sqe.Slot?
    ensures Becomes(w, ApplyAction(w, c, cfd, Error(is431, closeAfter), e), c,
                    AfterAction(Rec(w, c), Error(is431, closeAfter), e, |w.wheel|))
  {
    hide Reschedule, StageResponse, Timed, Answering;
    var w0 := Set(w, c, At(w, c).(draining := true));
    SetRecord(w, c, At(w, c).(draining := true));
    RescheduleRecord(w0, c, e.timer);
    StageRecord(if is431 then Reschedule(w0, c, e.timer) else w, c, cfd, closeAfter, e.sqe.taken);
  }

  lemma OkayRecord(w: World, c: Id, cfd: int, d: Dispatch, e: Env)
    requires Live(w, c) && e.sqe.Slot?
    ensures Becomes(w, ApplyAction(w, c, cfd, Okay(d), e), c, AfterAction(Rec(w, c), Okay(d), e, |w.wheel|))
  {
    hide Reschedule, StageResponse, Post, Timed, Answering;
    RescheduleRecord(w, c, e.okTimer);
    var w1 := Reschedule(w, c, e.okTimer);
    PostRecord(w1, c, Send, cfd, e.sqe.taken);
    if d.HeaderResponse? {
      StageRecord(w1, c, cfd, d.closeAfter, e.sqe.taken);
    }
  }

  lemma ActionRecord(w: World, c: Id, cfd: int, p: Plan, e: Env)
    requires Live(w, c) && !ActionCloses(p, e)
    ensures Becomes(w, ApplyAction(w, c, cfd, p, e), c, AfterAction(Rec(w, c), p, e, |w.wheel|))
  {
    hide Post, Close, Reschedule, StageResponse, PostRecv, Timed, Answering, Reading;
    match p
    case InternalError => StageRecord(w, c, cfd, true, e.sqe.taken);
    case Error(is431, closeAfter) => ErrorRecord(w, c, cfd, is431, closeAfter, e);
    case Continue =>
      RecvRecord(w, c, e.recvSqe);
      RescheduleRecord(PostRecv(w, c, e.recvSqe), c, e.timer);
    case Okay(d) => OkayRecord(w, c, cfd, d, e);
  }

  lemma ReadRecord(w: World, c: Id, cfd: int, i: ReadInput, e: Env)
    requires Live(w, c) && !ReadCloses(i, e)
    ensures Becomes(w, ReadHandler(w, c, cfd, i, e), c, AfterRead(Rec(w, c), i, e, |w.wheel|))
  {
    hide Close, PostRecv, ApplyAction, AfterAction, Reading, Set;
    var w1 := Set(w, c, At(w, c).(recvArmed := false));
    SetRecord(w, c, At(w, c).(recvArmed := false));
    RecvRecord(w1, c, e.recvSqe);
    if i.Data? {
      ActionRecord(w1, c, cfd, i.plan, e);
    }
  }

  lemma ResetRecord(w: World, c: Id, t: Timer)
    requires Live(w, c)
    ensures Becomes(w, ResetRequest(w, c, t), c, Renewed(Rec(w, c), t, |w.wheel|))
  {
    hide Reschedule, Set, Timed;
    var r := At(w, c).(closing := false, draining := false, recvArmed := false, pollArmed := false);
    SetRecord(w, c, r);
    RescheduleRecord(Set(w, c, r), c, t);
  }

  lemma FullRecord(w: World, c: Id, cfd: int, a: After, e: Env)
    requires Live(w, c) && !FullCloses(a, e)
    ensures Becomes(w, FullResponse(w, c, cfd, a, e), c, AfterFull(Rec(w, c), a, e, |w.wheel|))
  {
    hide Close, PostRecv, ApplyAction, Reschedule, MaybeReschedule, ResetRequest;
    hide AfterAction, Timed, Retimed, Reading, Renewed;
    RearmRecord(w, c, e.rearm);
    var w1 := MaybeReschedule(w, c, e.rearm);
    match a
    case AfterShutWr => RecvRecord(w1, c, e.recvSqe);
    case AfterClose => assert false;
    case AfterKeepalive(t, stashed, p, se) =>
      ResetRecord(w1, c, t);
      var w2 := ResetRequest(w1, c, t);
      if stashed {
        ActionRecord(w2, c, cfd, p, se);
      }
      var w3 := if stashed then ApplyAction(w2, c, cfd, p, se) else w2;
      RecvRecord(w3, c, e.recvSqe);
      RescheduleRecord(PostRecv(w3, c, e.recvSqe), c, e.timer);
  }

  lemma PollRecord(w: World, c: Id, cfd: int, e: Env)
    requires Live(w, c) && At(w, c).refcnt >= 1 && !PollCloses(At(w, c), e)
    ensures Becomes(w, ArmPollout(w, c, cfd, e), c, AfterPoll(Rec(w, c), e, |w.wheel|))
  {
    hide Close, MaybeReschedule, Post, TakeBack, Retimed, Set;
    RearmRecord(w, c, e.rearm);
    RearmOnly(w, c, e.rearm);
    var w1 := MaybeReschedule(w, c, e.rearm);
    if !At(w, c).pollArmed && e.sqe.Slot? {
      PostRecord(w1, c, Pollout, cfd, e.sqe.taken);
      var w2 := Post(w1, c, Pollout, cfd, e.sqe.taken);
      SetRecord(w2, c, At(w2, c).(pollArmed := true));
      TakenBackIsUnposted(w1, c, Pollout, cfd, e.sqe.taken);
    }
  }

  lemma UnpolledRecord(w: World, c: Id, s: Slot)
    requires Live(w, c)
    ensures Becomes(w, CancelPoll(w, c, s.Slot?), c, Unpolled(Rec(w, c), s))
    ensures At(CancelPoll(w, c, s.Slot?), c).refcnt == At(w, c).refcnt
  {
  }

  lemma ShutRecord(w: World, c: Id, s: Slot, e: Env)
    requires Live(w, c)
    ensures Becomes(w, PostRecv(MaybeReschedule(CancelPoll(w, c, s.Slot?), c, e.rearm), c, e.recvSqe), c,
                    Reading(Retimed(Unpolled(Rec(w, c), s), e.rearm, |w.wheel|), e.recvSqe))
  {
    hide PostRecv, MaybeReschedule, CancelPoll, Reading, Retimed, Unpolled;
    UnpolledRecord(w, c, s);
    var w1 := CancelPoll(w, c, s.Slot?);
    RearmRecord(w1, c, e.rearm);
    RecvRecord(MaybeReschedule(w1, c, e.rearm), c, e.recvSqe);
  }

  lemma {:induction false} FileRecord(w: World, c: Id, cfd: int, resumes: seq<Timer>, end: SendfileEnd, e: Env)
    requires Live(w, c) && At(w, c).refcnt >= 1 && !FileCloses(At(w, c), end, e)
    ensures Becomes(w, SendfileProgress(w, c, cfd, resumes, end, e), c, AfterFile(Rec(w, c), resumes, end, e, |w.wheel|))
    decreases |resumes|
  {
    hide Close, PostRecv, ArmPollout, Reschedule, MaybeReschedule, CancelPoll, FullResponse;
    hide Timed, Retimed, Reading, Unpolled, AfterPoll, AfterFull;
    if resumes != [] {
      RescheduleRecord(w, c, resumes[0]);
      RescheduleOnly(w, c, resumes[0]);
      FileRecord(Reschedule(w, c, resumes[0]), c, cfd, resumes[1..], end, e);
    } else {
      match end
      case SfPollout => PollRecord(w, c, cfd, e);
      case SfError => assert false;
      case SfShutWr => ShutRecord(w, c, e.sqe, e);
      case SfFull(a) =>
        UnpolledRecord(w, c, e.sqe);
        FullRecord(CancelPoll(w, c, e.sqe.Slot?), c, cfd, a, e);
    }
  }

  lemma WriteRecord(w: World, c: Id, cfd: int, started: Rearm, i: WriteInput, e: Env)
    requires Live(w, c) && At(w, c).refcnt >= 1 && !WriteCloses(At(w, c), i, e)
    ensures Becomes(w, WriteHandler(w, c, cfd, started, i, e), c, AfterWrite(Rec(w, c), started, i, e, |w.wheel|))
  {
    hide Close, PostRecv, ArmPollout, MaybeReschedule, CancelPoll, FullResponse, SendfileProgress, Post;
    hide Retimed, Reading, Unpolled, AfterPoll, AfterFull, AfterFile, WriteCloses;
    RearmRecord(w, c, started);
    RearmOnly(w, c, started);
    var w1 := MaybeReschedule(w, c, started);
    SameFlagsSameWrite(At(w, c), At(w1, c), c, i, e);
    StartedRecord(w1, c, cfd, i, e);
    KeepKeeps(w1, c);
    assert Retimed(Rec(w1, c), Keep, |w.wheel|) == Rec(w1, c) by { KeepsRecord(Rec(w1, c), |w.wheel|); }
  }

  lemma KeepsRecord(r: Conn, n: nat)
    ensures Retimed(r, Keep, n) == r
  {
  }

  lemma StartedRecord(w: World, c: Id, cfd: int, i: WriteInput, e: Env)
    requires Live(w, c) && At(w, c).refcnt >= 1 && !WriteCloses(At(w, c), i, e)
    ensures Becomes(w, WriteHandler(w, c, cfd, Keep, i, e), c, AfterWrite(Rec(w, c), Keep, i, e, |w.wheel|))
  {
    hide Close, PostRecv, ArmPollout, CancelPoll, FullResponse, SendfileProgress, Post, Reschedule;
    hide Reading, AfterPoll, AfterFull, AfterFile, Timed;
    UnpolledRecord(w, c, e.submit);
    var w2 := CancelPoll(w, c, e.submit.Slot?);
    match i
    case WSendHeaders(pending) =>
      if pending && e.sqe.Slot? {
        PostRecord(w, c, Send, cfd, e.sqe.taken);
      }
    case WSendfile(resumes, end) =>
      UnpolledCloses(w, c, end, e);
      FileRecord(w2, c, cfd, resumes, end, e);
    case WPollout => PollRecord(w, c, cfd, e);
    case WShutWr => ShutRecord(w, c, e.submit, e);
    case WDone(a) => FullRecord(w2, c, cfd, a, e);
    case WError => assert false;
    case WNoop =>
  }

  lemma UnpolledCloses(w: World, c: Id, end: SendfileEnd, e: Env)
    requires Live(w, c)
    ensures FileCloses(At(CancelPoll(w, c, e.submit.Slot?), c), end, e) == FileCloses(Unpolled(At(w, c), e.submit), end, e)
  {
  }

  lemma ReadyRecord(w: World, c: Id, cfd: int, i: ReadyInput, e: Env)
    requires Live(w, c) && At(w, c).refcnt >= 1 && !ReadyCloses(At(w, c), i, e)
    ensures Becomes(w, ReadyHandler(w, c, cfd, i, e), c, AfterReady(Rec(w, c), i, e, |w.wheel|))
  {
    hide Close, SendfileProgress, Post, AfterFile, Set, FileCloses;
    var r := At(w, c).(pollArmed := false);
    var w1 := Set(w, c, r);
    SetRecord(w, c, r);
    match i
    case RSendfile(resumes, end) => FileRecord(w1, c, cfd, resumes, end, e);
    case RSendHeaders(pending) =>
      if pending && e.sqe.Slot? {
        PostRecord(w1, c, Send, cfd, e.sqe.taken);
      }
    case RNoop =>
  }

  lemma FinishRecord(w: World, v: World, op: Op, q: Conn)
    requires Becomes(w, v, op.c, q) && At(v, op.c).refcnt > 1
    ensures Becomes(w, Finish(v, op), op.c, q)
  {
  }

  /** While it has its descriptor, a connection is held by the table besides the operation. */
  lemma OpenIsHeldTwice(w: World, op: Op)
    requires Quiet(w, []) && op in w.batch && At(w, op.c).fd >= 0
    ensures Live(w, op.c) && At(w, op.c).refcnt > 1
  {
    hide QueueOk, StoreOk, ActiveOk, WheelOk, FreeOk, LifeOk, CountOk;
    FetchedIsLive(w, op);
    assert op == Op(op.kind, op.c);
    match op.kind case Recv => case Send => case Pollout => case CloseOp =>
  }

  /** As long as its number is in the table, the handler's connection has it. */
  lemma StillOpen(w: World, u: World, op: Op, fd: int)
    requires Serving(w, op, fd) && At(w, op.c).fd == fd && Serving(u, op, fd) && u.store == w.store
    ensures Quiet(u, []) && op in u.batch && At(u, op.c).fd == fd
  {
    hide QueueOk, RefsOk, OpsOk, ActiveOk, WheelOk, FreeOk, LifeOk, CountOk;
  }

  lemma Finished(w: World, u: World, op: Op, q: Conn)
    requires Serving(w, op, At(w, op.c).fd) && Serving(u, op, At(w, op.c).fd) && u.store == w.store
    requires Becomes(w, u, op.c, q)
    ensures Becomes(w, Finish(u, op), op.c, q)
  {
    hide Quiet, Serving, Becomes, Finish;
    StillOpen(w, u, op, At(w, op.c).fd);
    ServingIsQuiet(w, op, At(w, op.c).fd);
    OpenIsHeldTwice(u, op);
    FinishRecord(w, u, op, q);
  }

  lemma Unchanged(w: World, c: Id)
    requires Live(w, c)
    ensures Becomes(w, w, c, Rec(w, c))
  {
  }

  lemma StoreOfEffect(w: World, v: World, cfd: int, posts: multiset<Op>)
    requires Effect(w, v, cfd, false, posts)
    ensures v.store == w.store
  {
  }

  lemma WriteFinished(w: World, op: Op, started: Rearm, i: WriteInput, e: Env)
    requires Serving(w, op, At(w, op.c).fd) && At(w, op.c).refcnt > 1 && !WriteCloses(At(w, op.c), i, e)
    ensures var u := WriteHandler(w, op.c, At(w, op.c).fd, started, i, e);
      Becomes(w, Finish(u, op), op.c, AfterWrite(Rec(w, op.c), started, i, e, |w.wheel|))
  {
    hide Quiet, Serving, Finish, WriteHandler, Becomes, Effect, WriteCloses, AfterWrite, WritePosts;
    var c, fd := op.c, At(w, op.c).fd;
    var u := WriteHandler(w, c, fd, started, i, e);
    ServingIsQuiet(w, op, fd);
    WriteRecord(w, c, fd, started, i, e);
    ServingWrite(w, op, fd, started, i, e);
    WriteEffect(w, op, fd, started, i, e);
    StoreOfEffect(w, u, fd, WritePosts(At(w, c), c, i, e));
    Finished(w, u, op, AfterWrite(Rec(w, c), started, i, e, |w.wheel|));
  }

  lemma ReadyFinished(w: World, op: Op, i: ReadyInput, e: Env)
    requires Serving(w, op, At(w, op.c).fd) && At(w, op.c).refcnt > 1 && !ReadyCloses(At(w, op.c), i, e)
    ensures var u := ReadyHandler(w, op.c, At(w, op.c).fd, i, e);
      Becomes(w, Finish(u, op), op.c, AfterReady(Rec(w, op.c), i, e, |w.wheel|))
  {
    hide Quiet, Serving, Finish, ReadyHandler, Becomes, Effect, ReadyCloses, AfterReady, ReadyPosts;
    var c, fd := op.c, At(w, op.c).fd;
    var u := ReadyHandler(w, c, fd, i, e);
    ServingIsQuiet(w, op, fd);
    ReadyRecord(w, c, fd, i, e);
    ServingReady(w, op, fd, i, e);
    ReadyEffect(w, op, fd, i, e);
    StoreOfEffect(w, u, fd, ReadyPosts(At(w, c), c, i, e));
    Finished(w, u, op, AfterReady(Rec(w, c), i, e, |w.wheel|));
  }

  lemma ReadFinished(w: World, op: Op, i: ReadInput, e: Env)
    requires Serving(w, op, At(w, op.c).fd) && !At(w, op.c).closing && !ReadCloses(i, e)
    ensures var u := ReadHandler(w, op.c, At(w, op.c).fd, i, e);
      Becomes(w, Finish(u, op), op.c, AfterRead(Rec(w, op.c), i, e, |w.wheel|))
  {
    hide Quiet, Serving, Finish, ReadHandler, Becomes, Effect, ReadCloses, AfterRead, ReadPosts;
    var c, fd := op.c, At(w, op.c).fd;
    var u := ReadHandler(w, c, fd, i, e);
    ServingIsQuiet(w, op, fd);
    ReadRecord(w, c, fd, i, e);
    ServingRead(w, op, fd, i, e);
    ReadEffect(w, op, fd, i, e);
    StoreOfEffect(w, u, fd, ReadPosts(At(w, c), c, i, e));
    Finished(w, u, op, AfterRead(Rec(w, c), i, e, |w.wheel|));
  }

  /** A completion that does not close leaves the connection with exactly this record. */
  lemma RecordTheorem(w: World, op: Op, i: Input, e: Env)
    requires Quiet(w, []) && op in w.batch && At(w, op.c).fd >= 0 && !Closes(At(w, op.c), op.kind, i, e)
    ensures Becomes(w, Complete(w, op, i, e), op.c, AfterCompletion(Rec(w, op.c), op.kind, i, e, |w.wheel|))
  {
    hide Quiet, Serving, Finish, WriteHandler, ReadyHandler, ReadHandler, Becomes, Set;
    hide ReadCloses, WriteCloses, ReadyCloses, AfterRead, AfterWrite, AfterReady;
    var c, r := op.c, At(w, op.c);
    OpenIsHeldTwice(w, op);
    OpenHasEntry(w, op);
    StartServing(w, op);
    Unchanged(w, c);
    Finished(w, w, op, Rec(w, c));
    match op.kind
    case Send =>
      if i.InWrite? {
        WriteFinished(w, op, i.started, i.write, e);
      }
    case Pollout =>
      if i.InReady? && !(r.closing && i.noResponse) {
        ReadyFinished(w, op, i.ready, e);
      }
    case Recv =>
      if !r.closing && i.InRead? {
        ReadFinished(w, op, i.read, e);
      } else {
        SetRecord(w, c, r.(recvArmed := false));
        FlagsServe(w, op, r.fd, r.(recvArmed := false));
        Finished(w, Set(w, c, r.(recvArmed := false)), op, Rec(w, c).(recvArmed := false));
      }
  }
}
