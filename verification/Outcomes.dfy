/**
 What a completion does to its connection, in terms of its result, the queue entries to be had and
 the connection's flags: exactly when it closes, and exactly which operations it leaves behind.
 */
module Outcomes {
  import opened Deadlines
  import opened Lifecycle
  import opened SubmissionQueue

  // ----- when ---------------------------------------------------------------------------------

  /** May another receive be posted? */
  predicate CanRecv(r: Conn, s: Slot) {
    r.fd >= 0 && (r.closing ==> r.draining) && !r.recvArmed && s.Slot?
  }

  /** Anything but reading on needs a queue entry. */
  predicate ActionCloses(p: Plan, e: Env) {
    !p.Continue? && e.sqe.NoSlot?
  }

  predicate ActionSends(p: Plan, e: Env) {
    e.sqe.Slot? && !p.Continue? && !(p.Okay? && p.dispatch.NoResponse?)
  }

  predicate ReadCloses(i: ReadInput, e: Env) {
    || i.EndOrError?
    || (i.NoBuffer? && i.second)
    || (i.Data? && (i.stashFull || ActionCloses(i.plan, e)))
  }

  predicate FullCloses(a: After, e: Env) {
    a.AfterClose? || (a.AfterKeepalive? && a.stashed && ActionCloses(a.stashPlan, a.stashEnv))
  }

  /** No way to wait for the socket. */
  predicate PollCloses(r: Conn, e: Env) {
    !r.pollArmed && !r.closing && (e.sqe.NoSlot? || e.submit.NoSlot?)
  }

  predicate FileCloses(r: Conn, end: SendfileEnd, e: Env) {
    end.SfError? || (end.SfFull? && FullCloses(end.after, e)) || (end.SfPollout? && PollCloses(r, e))
  }

  /** A poll that was waited for is withdrawn first, if there is an entry for that. */
  function Unpolled(r: Conn, s: Slot): (q: Conn) {
    if s.Slot? then r.(pollArmed := false) else r
  }

  predicate WriteCloses(r: Conn, i: WriteInput, e: Env) {
    || i.WError?
    || (i.WSendHeaders? && i.pending && e.sqe.NoSlot? && !r.closing)
    || (i.WSendfile? && FileCloses(Unpolled(r, e.submit), i.end, e))
    || (i.WPollout? && PollCloses(r, e))
    || (i.WDone? && FullCloses(i.after, e))
  }

  predicate ReadyCloses(r: Conn, i: ReadyInput, e: Env) {
    || (i.RSendHeaders? && i.pending && e.sqe.NoSlot?)
    || (i.RSendfile? && FileCloses(r.(pollArmed := false), i.end, e))
  }

  /** Which completions of a connection with a descriptor close it. */
  predicate Closes(r: Conn, kind: OpKind, i: Input, e: Env) {
    match kind
    case Recv => !r.closing && i.InRead? && ReadCloses(i.read, e)
    case Send => i.InWrite? && WriteCloses(r, i.write, e)
    case Pollout => i.InReady? && !(r.closing && i.noResponse) && ReadyCloses(r, i.ready, e)
    case CloseOp => false
  }

  // ----- what is left behind --------------------------------------------------------------------

  function One(b: bool, c: Id, kind: OpKind): (m: multiset<Op>) {
    if b then multiset{Op(kind, c)} else multiset{}
  }

  function ActionPosts(r: Conn, c: Id, p: Plan, e: Env): (m: multiset<Op>) {
    if p.Continue? then One(CanRecv(r, e.recvSqe), c, Recv) else One(ActionSends(p, e), c, Send)
  }

  function ReadPosts(r: Conn, c: Id, i: ReadInput, e: Env): (m: multiset<Op>) {
    match i
    case EndOrError => multiset{}
    case NoBuffer(second) => One(!second && e.recvSqe.Slot?, c, Recv)
    case BadBuffer => One(e.recvSqe.Slot?, c, Recv)
    case Again => One(e.recvSqe.Slot?, c, Recv)
    case Data(stashFull, _, p) =>
      if p.Continue? then One(!stashFull && e.recvSqe.Slot?, c, Recv) else One(ActionSends(p, e), c, Send)
  }

  /** Between requests there is a receive, unless what is stashed calls for an answer at once. */
  function FullPosts(r: Conn, c: Id, a: After, e: Env): (m: multiset<Op>) {
    match a
    case AfterClose => multiset{}
    case AfterShutWr => One(CanRecv(r, e.recvSqe), c, Recv)
    case AfterKeepalive(_, stashed, p, se) =>
      if stashed && !p.Continue? then One(ActionSends(p, se), c, Send)
      else One(e.recvSqe.Slot? || (stashed && se.recvSqe.Slot?), c, Recv)
  }

  function PollPosts(r: Conn, c: Id, e: Env): (m: multiset<Op>) {
    One(!r.pollArmed && e.sqe.Slot? && e.submit.Slot?, c, Pollout)
  }

  function FilePosts(r: Conn, c: Id, end: SendfileEnd, e: Env): (m: multiset<Op>) {
    match end
    case SfPollout => PollPosts(r, c, e)
    case SfError => multiset{}
    case SfShutWr => One(CanRecv(r, e.recvSqe), c, Recv)
    case SfFull(a) => FullPosts(r, c, a, e)
  }

  function WritePosts(r: Conn, c: Id, i: WriteInput, e: Env): (m: multiset<Op>) {
    match i
    case WSendHeaders(pending) => One(pending && e.sqe.Slot?, c, Send)
    case WSendfile(_, end) => FilePosts(Unpolled(r, e.submit), c, end, e)
    case WPollout => PollPosts(r, c, e)
    case WShutWr => One(CanRecv(r, e.recvSqe), c, Recv)
    case WDone(a) => FullPosts(r, c, a, e)
    case WError => multiset{}
    case WNoop => multiset{}
  }

  function ReadyPosts(r: Conn, c: Id, i: ReadyInput, e: Env): (m: multiset<Op>) {
    match i
    case RSendfile(_, end) => FilePosts(r.(pollArmed := false), c, end, e)
    case RSendHeaders(pending) => One(pending && e.sqe.Slot?, c, Send)
    case RNoop => multiset{}
  }

  function Posts(r: Conn, c: Id, kind: OpKind, i: Input, e: Env): (m: multiset<Op>) {
    match kind
    case Recv => if !r.closing && i.InRead? then ReadPosts(r, c, i.read, e) else multiset{}
    case Send => if i.InWrite? then WritePosts(r, c, i.write, e) else multiset{}
    case Pollout =>
      if i.InReady? && !(r.closing && i.noResponse) then ReadyPosts(r, c, i.ready, e) else multiset{}
    case CloseOp => multiset{}
  }

  // ----- one step after another -------------------------------------------------------------------

  /** From `w` to `v`: `cfd` out of the table or not, and these operations more, a close apart. */
  ghost predicate Effect(w: World, v: World, cfd: int, closes: bool, posts: multiset<Op>) {
    && v.store == (if closes then w.store - {cfd} else w.store)
    && forall o: Op :: !o.kind.CloseOp? ==> v.ops[o] == w.ops[o] + posts[o]
  }

  lemma EffectsAdd(w: World, u: World, v: World, cfd: int, a: bool, p: multiset<Op>, b: bool, q: multiset<Op>)
    requires Effect(w, u, cfd, a, p) && Effect(u, v, cfd, b, q)
    ensures Effect(w, v, cfd, a || b, p + q)
  {
    assert w.store - {cfd} - {cfd} == w.store - {cfd};
  }

  lemma NoEffect(w: World, v: World, cfd: int)
    requires v.store == w.store && v.ops == w.ops
    ensures Effect(w, v, cfd, false, multiset{})
  {
  }

  lemma EffectAfter(w: World, u: World, v: World, cfd: int, closes: bool, posts: multiset<Op>)
    requires u.store == w.store && u.ops == w.ops && Effect(u, v, cfd, closes, posts)
    ensures Effect(w, v, cfd, closes, posts)
  {
  }

  lemma OneMoreOp(w: World, v: World, cfd: int, op: Op)
    requires v.store == w.store && v.ops == w.ops + multiset{op}
    ensures Effect(w, v, cfd, false, multiset{op})
  {
  }

  /** Only the timer of `c` changed. */
  ghost predicate TimerOnly(w: World, v: World, c: Id) {
    v.store == w.store && v.ops == w.ops && SameButTimer(At(v, c), At(w, c))
  }

  lemma CancelTimerOnly(w: World, c: Id)
    requires Live(w, c)
    ensures TimerOnly(w, CancelTimer(w, c), c) && Live(CancelTimer(w, c), c)
  {
  }

  lemma InsertTimerOnly(w: World, c: Id, t: Timer)
    requires Live(w, c)
    ensures TimerOnly(w, InsertTimer(w, c, t), c) && Live(InsertTimer(w, c, t), c)
  {
  }

  lemma RescheduleOnly(w: World, c: Id, t: Timer)
    requires Live(w, c)
    ensures TimerOnly(w, Reschedule(w, c, t), c) && Live(Reschedule(w, c, t), c)
  {
    hide CancelTimer, InsertTimer;
    CancelTimerOnly(w, c);
    InsertTimerOnly(CancelTimer(w, c), c, t);
  }

  lemma RearmOnly(w: World, c: Id, r: Rearm)
    requires Live(w, c)
    ensures TimerOnly(w, MaybeReschedule(w, c, r), c) && Live(MaybeReschedule(w, c, r), c)
  {
    hide Reschedule;
    if r.Rearm? {
      RescheduleOnly(w, c, r.t);
    }
  }

  lemma PostEffect(w: World, c: Id, kind: OpKind, fd: int, taken: nat)
    requires Live(w, c)
    ensures var v := Post(w, c, kind, fd, taken);
      && v.store == w.store && v.ops == w.ops + multiset{Op(kind, c)} && Live(v, c)
      && At(v, c) == At(w, c).(refcnt := At(w, c).refcnt + 1)
  {
  }

  lemma RecvEffect(w: World, c: Id, s: Slot)
    requires Live(w, c)
    ensures var v := PostRecv(w, c, s);
      && v.store == w.store && v.ops == w.ops + One(CanRecv(At(w, c), s), c, Recv) && Live(v, c)
      && At(v, c).recvArmed == (At(w, c).recvArmed || CanRecv(At(w, c), s))
      && At(v, c) == At(w, c).(refcnt := At(v, c).refcnt, recvArmed := At(v, c).recvArmed)
  {
    hide Post;
    if s.Slot? {
      PostEffect(w, c, Recv, At(w, c).fd, s.taken);
    }
  }

  lemma CloseEffect(w: World, fd: int, e: CloseEnv)
    requires Quiet(w, [])
    ensures Effect(w, Close(w, fd, e).0, fd, true, multiset{})
  {
    hide Inv, Close;
    CloseKeepsInv(w, [], fd, e);
  }

  // ----- the handlers -----------------------------------------------------------------------------

  lemma ErrorEffect(w: World, op: Op, cfd: int, is431: bool, closeAfter: bool, e: Env)
    requires Serving(w, op, cfd)
    ensures Effect(w, ApplyAction(w, op.c, cfd, Error(is431, closeAfter), e), cfd,
                   e.sqe.NoSlot?, One(e.sqe.Slot?, op.c, Send))
  {
    hide Quiet, Serving, Close, Reschedule, StageResponse, Effect;
    var c := op.c;
    ServingIsQuiet(w, op, cfd);
    CloseEffect(w, cfd, e.close);
    if e.sqe.Slot? {
      var r := At(w, c).(draining := true);
      var w1 := Set(w, c, r);
      FlagsServe(w, op, cfd, r);
      RescheduleOnly(w1, c, e.timer);
      ServingResched(w1, op, cfd, e.timer);
      var w2 := if is431 then Reschedule(w1, c, e.timer) else w;
      ServingIsQuiet(w2, op, cfd);
      StageEffect(w2, op, cfd, closeAfter, e.sqe.taken);
      EffectAfter(w, w2, StageResponse(w2, c, cfd, closeAfter, e.sqe.taken), cfd, false, multiset{Op(Send, c)});
    }
  }

  lemma OkayEffect(w: World, op: Op, cfd: int, d: Dispatch, e: Env)
    requires Serving(w, op, cfd)
    ensures Effect(w, ApplyAction(w, op.c, cfd, Okay(d), e), cfd,
                   e.sqe.NoSlot?, One(e.sqe.Slot? && !d.NoResponse?, op.c, Send))
  {
    hide Quiet, Serving, Close, Reschedule, StageResponse, Effect, Post;
    var c := op.c;
    ServingIsQuiet(w, op, cfd);
    RescheduleOnly(w, c, e.okTimer);
    ServingResched(w, op, cfd, e.okTimer);
    var w1 := Reschedule(w, c, e.okTimer);
    ServingIsQuiet(w1, op, cfd);
    var v := ApplyAction(w, c, cfd, Okay(d), e);
    if e.sqe.NoSlot? {
      CloseEffect(w1, cfd, e.close);
      EffectAfter(w, w1, v, cfd, true, multiset{});
    } else if d.TxBuffer? {
      PostEffect(w1, c, Send, cfd, e.sqe.taken);
      OneMoreOp(w1, v, cfd, Op(Send, c));
      EffectAfter(w, w1, v, cfd, false, multiset{Op(Send, c)});
    } else if d.HeaderResponse? {
      StageEffect(w1, op, cfd, d.closeAfter, e.sqe.taken);
      EffectAfter(w, w1, v, cfd, false, multiset{Op(Send, c)});
    } else {
      NoEffect(w, w1, cfd);
    }
  }

  /** Reading on: a receive if one may be posted, and nothing else changes but the timer. */
  lemma ContinueEffect(w: World, op: Op, cfd: int, e: Env)
    requires Serving(w, op, cfd)
    ensures var r, v := At(w, op.c), ApplyAction(w, op.c, cfd, Continue, e);
      && Effect(w, v, cfd, false, One(CanRecv(r, e.recvSqe), op.c, Recv)) && Live(v, op.c)
      && At(v, op.c).recvArmed == (r.recvArmed || CanRecv(r, e.recvSqe))
      && At(v, op.c).fd == r.fd && At(v, op.c).closing == r.closing && At(v, op.c).draining == r.draining
  {
    hide Quiet, Serving, Reschedule, PostRecv;
    var c := op.c;
    ServingIsQuiet(w, op, cfd);
    RecvEffect(w, c, e.recvSqe);
    RescheduleOnly(PostRecv(w, c, e.recvSqe), c, e.timer);
  }

  lemma ApplyEffect(w: World, op: Op, cfd: int, p: Plan, e: Env)
    requires Serving(w, op, cfd)
    ensures Effect(w, ApplyAction(w, op.c, cfd, p, e), cfd, ActionCloses(p, e), ActionPosts(At(w, op.c), op.c, p, e))
  {
    hide Quiet, Serving, Close, StageResponse, Effect, Reschedule, PostRecv, Post;
    match p
    case InternalError =>
      ServingIsQuiet(w, op, cfd);
      CloseEffect(w, cfd, e.close);
      if e.sqe.Slot? {
        StageEffect(w, op, cfd, true, e.sqe.taken);
      }
    case Error(is431, closeAfter) => ErrorEffect(w, op, cfd, is431, closeAfter, e);
    case Continue => ContinueEffect(w, op, cfd, e);
    case Okay(d) => OkayEffect(w, op, cfd, d, e);
  }

  lemma ServingIsQuiet(w: World, op: Op, cfd: int)
    requires Serving(w, op, cfd)
    ensures Quiet(w, []) && Live(w, op.c) && op in w.batch && cfd >= 0 && At(w, op.c) == w.conns[op.c]
  {
  }

  lemma FlagsServe(w: World, op: Op, cfd: int, r: Conn)
    requires Serving(w, op, cfd) && SameCore(At(w, op.c), r)
    ensures var v := Set(w, op.c, r);
      Serving(v, op, cfd) && Live(v, op.c) && At(v, op.c) == r && v.store == w.store && v.ops == w.ops
  {
    hide Inv;
    ServingFlags(w, op, cfd, r);
  }

  lemma StageEffect(w: World, op: Op, cfd: int, closeAfter: bool, taken: nat)
    requires Live(w, op.c)
    ensures Effect(w, StageResponse(w, op.c, cfd, closeAfter, taken), cfd, false, multiset{Op(Send, op.c)})
  {
    hide Post, CancelTimer;
    var c := op.c;
    var w0 := Set(w, c, At(w, c).(closing := true));
    CancelTimerOnly(w0, c);
    PostEffect(w, c, Send, cfd, taken);
    PostEffect(CancelTimer(w0, c), c, Send, cfd, taken);
  }

  lemma ReadEffect(w: World, op: Op, cfd: int, i: ReadInput, e: Env)
    requires Serving(w, op, cfd) && At(w, op.c).fd == cfd && !At(w, op.c).closing
    ensures Effect(w, ReadHandler(w, op.c, cfd, i, e), cfd, ReadCloses(i, e), ReadPosts(At(w, op.c), op.c, i, e))
  {
    hide Quiet, Serving, Close, PostRecv, ApplyAction, Effect, Set;
    var c := op.c;
    ServingIsQuiet(w, op, cfd);
    var r := At(w, c).(recvArmed := false);
    var w1 := Set(w, c, r);
    FlagsServe(w, op, cfd, r);
    var v := ReadHandler(w, c, cfd, i, e);
    if i.Data? {
      DataEffect(w1, op, cfd, i.stashFull, i.stashClose, i.plan, e);
    } else if ReadCloses(i, e) {
      ServingIsQuiet(w1, op, cfd);
      CloseEffect(w1, cfd, e.close);
    } else {
      RecvEffect(w1, c, e.recvSqe);
      MaybeOneMore(w1, v, cfd, e.recvSqe.Slot?, Op(Recv, c));
    }
    EffectAfter(w, w1, v, cfd, ReadCloses(i, e), ReadPosts(At(w, c), c, i, e));
  }

  lemma DataEffect(w: World, op: Op, cfd: int, stashFull: bool, stashClose: CloseEnv, p: Plan, e: Env)
    requires Serving(w, op, cfd) && At(w, op.c).fd == cfd && !At(w, op.c).closing && !At(w, op.c).recvArmed
    ensures var w1 := if stashFull then Close(w, cfd, stashClose).0 else w;
      Effect(w, ApplyAction(w1, op.c, cfd, p, e), cfd, stashFull || ActionCloses(p, e),
             if p.Continue? then One(!stashFull && e.recvSqe.Slot?, op.c, Recv) else One(ActionSends(p, e), op.c, Send))
  {
    hide Quiet, Serving, Close, ApplyAction, Effect;
    ServingIsQuiet(w, op, cfd);
    if stashFull {
      CloseEffect(w, cfd, stashClose);
      ClosedIsGone(w, op, cfd, stashClose);
      var w1 := Close(w, cfd, stashClose).0;
      ApplyEffect(w1, op, cfd, p, e);
      var posts := ActionPosts(At(w1, op.c), op.c, p, e);
      EffectsAdd(w, w1, ApplyAction(w1, op.c, cfd, p, e), cfd, true, multiset{}, ActionCloses(p, e), posts);
      assert multiset{} + posts == posts;
    } else {
      ApplyEffect(w, op, cfd, p, e);
    }
  }

  lemma ClosedIsGone(w: World, op: Op, cfd: int, e: CloseEnv)
    requires Serving(w, op, cfd) && At(w, op.c).fd == cfd
    ensures var v := Close(w, cfd, e).0; Serving(v, op, cfd) && At(v, op.c).fd < 0
  {
    hide QueueOk, RefsOk, OpsOk, ActiveOk, WheelOk, FreeOk, LifeOk, CountOk, Close;
    CloseKeepsInv(w, [], cfd, e);
    ServingClose(w, op, cfd, e);
  }

  lemma ResetEffect(w: World, op: Op, cfd: int, t: Timer)
    requires Serving(w, op, cfd)
    ensures var v := ResetRequest(w, op.c, t);
      && Serving(v, op, cfd) && v.store == w.store && v.ops == w.ops && Live(v, op.c) && At(v, op.c).fd == At(w, op.c).fd
      && !At(v, op.c).closing && !At(v, op.c).draining && !At(v, op.c).recvArmed && !At(v, op.c).pollArmed
  {
    hide Quiet, Serving, Reschedule;
    ServingIsQuiet(w, op, cfd);
    var r := At(w, op.c).(closing := false, draining := false, recvArmed := false, pollArmed := false);
    FlagsServe(w, op, cfd, r);
    ServingReset(w, op, cfd, t);
    RescheduleOnly(Set(w, op.c, r), op.c, t);
  }

  lemma FullEffect(w: World, op: Op, cfd: int, a: After, e: Env)
    requires Serving(w, op, cfd) && At(w, op.c).fd == cfd
    ensures Effect(w, FullResponse(w, op.c, cfd, a, e), cfd, FullCloses(a, e), FullPosts(At(w, op.c), op.c, a, e))
  {
    hide Quiet, Serving, Close, PostRecv, ApplyAction, Reschedule, MaybeReschedule, ResetRequest, Effect;
    var c := op.c;
    ServingIsQuiet(w, op, cfd);
    RearmOnly(w, c, e.rearm);
    ServingRearm(w, op, cfd, e.rearm);
    var w1 := MaybeReschedule(w, c, e.rearm);
    ServingIsQuiet(w1, op, cfd);
    var v := FullResponse(w, c, cfd, a, e);
    match a
    case AfterClose =>
      CloseEffect(w1, cfd, e.close);
      EffectAfter(w, w1, v, cfd, true, multiset{});
    case AfterShutWr =>
      RecvEffect(w1, c, e.recvSqe);
      MaybeOneMore(w1, v, cfd, CanRecv(At(w1, c), e.recvSqe), Op(Recv, c));
      EffectAfter(w, w1, v, cfd, false, One(CanRecv(At(w, c), e.recvSqe), c, Recv));
    case AfterKeepalive(t, stashed, p, se) =>
      ResetEffect(w1, op, cfd, t);
      var w2 := ResetRequest(w1, c, t);
      KeepaliveEffect(w2, op, cfd, stashed, p, se, e);
      EffectAfter(w, w2, v, cfd, FullCloses(a, e), FullPosts(At(w, c), c, a, e));
  }

  lemma MaybeOneMore(w: World, v: World, cfd: int, b: bool, op: Op)
    requires v.store == w.store && v.ops == w.ops + One(b, op.c, op.kind)
    ensures Effect(w, v, cfd, false, One(b, op.c, op.kind))
  {
  }

  lemma KeepaliveEffect(w: World, op: Op, cfd: int, stashed: bool, p: Plan, se: Env, e: Env)
    requires Serving(w, op, cfd) && At(w, op.c).fd == cfd && !At(w, op.c).closing && !At(w, op.c).recvArmed
    ensures
      var w1 := if stashed then ApplyAction(w, op.c, cfd, p, se) else w;
      var v := if stashed && !p.Continue? then w1 else Reschedule(PostRecv(w1, op.c, e.recvSqe), op.c, e.timer);
      Effect(w, v, cfd, stashed && ActionCloses(p, se),
             if stashed && !p.Continue? then One(ActionSends(p, se), op.c, Send)
             else One(e.recvSqe.Slot? || (stashed && se.recvSqe.Slot?), op.c, Recv))
  {
    hide Quiet, Serving, PostRecv, ApplyAction, Reschedule, Effect;
    var c := op.c;
    ServingIsQuiet(w, op, cfd);
    if stashed && !p.Continue? {
      ApplyEffect(w, op, cfd, p, se);
    } else {
      var w1 := if stashed then ApplyAction(w, c, cfd, p, se) else w;
      if stashed {
        ContinueEffect(w, op, cfd, se);
      } else {
        NoEffect(w, w1, cfd);
      }
      var first, second := stashed && se.recvSqe.Slot?, CanRecv(At(w1, c), e.recvSqe);
      RecvEffect(w1, c, e.recvSqe);
      var w2 := PostRecv(w1, c, e.recvSqe);
      RescheduleOnly(w2, c, e.timer);
      var v := Reschedule(w2, c, e.timer);
      MaybeOneMore(w1, v, cfd, second, Op(Recv, c));
      EffectsAdd(w, w1, v, cfd, false, One(first, c, Recv), false, One(second, c, Recv));
      assert One(first, c, Recv) + One(second, c, Recv) == One(first || second, c, Recv);
    }
  }

  lemma PollEffect(w: World, op: Op, cfd: int, e: Env)
    requires Serving(w, op, cfd) && At(w, op.c).fd == cfd
    ensures Effect(w, ArmPollout(w, op.c, cfd, e), cfd, PollCloses(At(w, op.c), e), PollPosts(At(w, op.c), op.c, e))
  {
    hide Quiet, Serving, Close, MaybeReschedule, Post, TakeBack, Effect, Submit;
    var c := op.c;
    ServingIsQuiet(w, op, cfd);
    var v := ArmPollout(w, c, cfd, e);
    if At(w, c).pollArmed {
      NoEffect(w, v, cfd);
    } else {
      RearmOnly(w, c, e.rearm);
      ServingRearm(w, op, cfd, e.rearm);
      var w1 := MaybeReschedule(w, c, e.rearm);
      ServingIsQuiet(w1, op, cfd);
      CloseEffect(w1, cfd, e.close);
      if e.sqe.NoSlot? {
        if At(w1, c).closing {
          NoEffect(w, v, cfd);
        } else {
          EffectAfter(w, w1, v, cfd, true, multiset{});
        }
      } else if e.submit.NoSlot? {
        TriedPollEffect(w1, op, cfd, e);
        EffectAfter(w, w1, v, cfd, PollCloses(At(w, c), e), multiset{});
      } else {
        PostEffect(w1, c, Pollout, cfd, e.sqe.taken);
        ArmedPollEffect(w1, c, cfd, e);
        EffectAfter(w, w1, v, cfd, false, multiset{Op(Pollout, c)});
      }
    }
  }

  lemma ArmedPollEffect(w: World, c: Id, cfd: int, e: Env)
    requires Live(w, c) && e.sqe.Slot? && e.submit.Slot?
    ensures
      var w2 := Post(w, c, Pollout, cfd, e.sqe.taken);
      Effect(w, Submit(Set(w2, c, At(w2, c).(pollArmed := true)), e.submit.taken), cfd, false, multiset{Op(Pollout, c)})
  {
    hide Post, Flush;
    PostEffect(w, c, Pollout, cfd, e.sqe.taken);
  }

  lemma TriedPollEffect(w: World, op: Op, cfd: int, e: Env)
    requires Serving(w, op, cfd) && e.sqe.Slot?
    ensures
      var w3 := TakeBack(Post(w, op.c, Pollout, cfd, e.sqe.taken), Op(Pollout, op.c));
      Effect(w, if At(w3, op.c).closing then w3 else Close(w3, cfd, e.close).0, cfd, !At(w, op.c).closing, multiset{})
  {
    hide Quiet, Serving, Post, TakeBack, Close, Effect, Flush;
    ServingIsQuiet(w, op, cfd);
    ServingCounts(w, op, cfd);
    TakenBackIsUnposted(w, op.c, Pollout, cfd, e.sqe.taken);
    ServingSubmit(w, op, cfd, e.sqe.taken);
    var w3 := Submit(w, e.sqe.taken);
    ServingIsQuiet(w3, op, cfd);
    if At(w3, op.c).closing {
      NoEffect(w, w3, cfd);
    } else {
      CloseEffect(w3, cfd, e.close);
      EffectAfter(w, w3, Close(w3, cfd, e.close).0, cfd, true, multiset{});
    }
  }

  lemma UnpolledEffect(w: World, op: Op, cfd: int, s: Slot)
    requires Serving(w, op, cfd)
    ensures var v := CancelPoll(w, op.c, s.Slot?);
      Serving(v, op, cfd) && v.store == w.store && v.ops == w.ops && Live(v, op.c) && At(v, op.c) == Unpolled(At(w, op.c), s)
  {
    hide Inv;
    ServingCancelPoll(w, op, cfd, s.Slot?);
  }

  lemma FileEndEffect(w: World, op: Op, cfd: int, end: SendfileEnd, e: Env)
    requires Serving(w, op, cfd) && At(w, op.c).fd == cfd
    ensures Effect(w, SendfileProgress(w, op.c, cfd, [], end, e), cfd,
                   FileCloses(At(w, op.c), end, e), FilePosts(At(w, op.c), op.c, end, e))
  {
    hide Quiet, Serving, Close, PostRecv, ArmPollout, Reschedule, MaybeReschedule, CancelPoll, FullResponse, Effect;
    var c := op.c;
    ServingIsQuiet(w, op, cfd);
    var v := SendfileProgress(w, c, cfd, [], end, e);
    match end
    case SfPollout => PollEffect(w, op, cfd, e);
    case SfError =>
      RearmOnly(w, c, e.rearm);
      ServingRearm(w, op, cfd, e.rearm);
      var w1 := MaybeReschedule(w, c, e.rearm);
      ServingIsQuiet(w1, op, cfd);
      CloseEffect(w1, cfd, e.close);
      EffectAfter(w, w1, v, cfd, true, multiset{});
    case SfShutWr =>
      UnpolledEffect(w, op, cfd, e.sqe);
      ShutEffect(w, CancelPoll(w, c, e.sqe.Slot?), op, cfd, e);
    case SfFull(a) =>
      UnpolledEffect(w, op, cfd, e.sqe);
      var w1 := CancelPoll(w, c, e.sqe.Slot?);
      FullEffect(w1, op, cfd, a, e);
      EffectAfter(w, w1, v, cfd, FullCloses(a, e), FullPosts(At(w, c), c, a, e));
  }

  lemma {:induction false} FileEffect(w: World, op: Op, cfd: int, resumes: seq<Timer>, end: SendfileEnd, e: Env)
    requires Serving(w, op, cfd) && At(w, op.c).fd == cfd
    ensures Effect(w, SendfileProgress(w, op.c, cfd, resumes, end, e), cfd,
                   FileCloses(At(w, op.c), end, e), FilePosts(At(w, op.c), op.c, end, e))
    decreases |resumes|
  {
    hide Quiet, Serving, Close, PostRecv, ArmPollout, Reschedule, MaybeReschedule, CancelPoll, FullResponse, Effect;
    hide FileCloses, FilePosts;
    var c := op.c;
    ServingIsQuiet(w, op, cfd);
    if resumes == [] {
      FileEndEffect(w, op, cfd, end, e);
    } else {
      RescheduleOnly(w, c, resumes[0]);
      ServingResched(w, op, cfd, resumes[0]);
      var w1 := Reschedule(w, c, resumes[0]);
      FileEffect(w1, op, cfd, resumes[1..], end, e);
      SameFlagsSameFile(At(w, c), At(w1, c), c, end, e);
      EffectAfter(w, w1, SendfileProgress(w, c, cfd, resumes, end, e), cfd,
                  FileCloses(At(w, c), end, e), FilePosts(At(w, c), c, end, e));
    }
  }

  lemma SameFlagsSameFile(r: Conn, q: Conn, c: Id, end: SendfileEnd, e: Env)
    requires SameButTimer(q, r)
    ensures FileCloses(q, end, e) == FileCloses(r, end, e) && FilePosts(q, c, end, e) == FilePosts(r, c, end, e)
  {
  }

  /** Half-closed: read on, if a receive may be posted. */
  lemma ShutEffect(w: World, w1: World, op: Op, cfd: int, e: Env)
    requires Serving(w1, op, cfd) && w1.store == w.store && w1.ops == w.ops
    requires At(w1, op.c) == At(w, op.c).(pollArmed := At(w1, op.c).pollArmed)
    ensures Effect(w, PostRecv(MaybeReschedule(w1, op.c, e.rearm), op.c, e.recvSqe), cfd, false,
                   One(CanRecv(At(w, op.c), e.recvSqe), op.c, Recv))
  {
    hide Quiet, Serving, PostRecv, MaybeReschedule, Effect;
    var c := op.c;
    ServingIsQuiet(w1, op, cfd);
    RearmOnly(w1, c, e.rearm);
    var w2 := MaybeReschedule(w1, c, e.rearm);
    RecvEffect(w2, c, e.recvSqe);
    var v := PostRecv(w2, c, e.recvSqe);
    MaybeOneMore(w2, v, cfd, CanRecv(At(w, c), e.recvSqe), Op(Recv, c));
    EffectAfter(w, w2, v, cfd, false, One(CanRecv(At(w, c), e.recvSqe), c, Recv));
  }

  lemma RestEffect(w: World, op: Op, cfd: int, pending: bool, guard: bool, e: Env)
    requires Serving(w, op, cfd)
    ensures Effect(w, PostRemaining(w, op.c, cfd, pending, guard, e), cfd,
                   pending && e.sqe.NoSlot? && !(guard && At(w, op.c).closing), One(pending && e.sqe.Slot?, op.c, Send))
  {
    hide Quiet, Serving, Post, Close, Effect;
    var c := op.c;
    ServingIsQuiet(w, op, cfd);
    CloseEffect(w, cfd, e.close);
    if pending && e.sqe.Slot? {
      PostEffect(w, c, Send, cfd, e.sqe.taken);
      OneMoreOp(w, PostRemaining(w, c, cfd, pending, guard, e), cfd, Op(Send, c));
    } else {
      NoEffect(w, w, cfd);
    }
  }

  lemma WriteEffect(w: World, op: Op, cfd: int, started: Rearm, i: WriteInput, e: Env)
    requires Serving(w, op, cfd) && At(w, op.c).fd == cfd
    ensures Effect(w, WriteHandler(w, op.c, cfd, started, i, e), cfd,
                   WriteCloses(At(w, op.c), i, e), WritePosts(At(w, op.c), op.c, i, e))
  {
    hide Quiet, Serving, Close, PostRecv, ArmPollout, MaybeReschedule, CancelPoll, FullResponse, SendfileProgress, PostRemaining, Effect;
    var c := op.c;
    ServingIsQuiet(w, op, cfd);
    RearmOnly(w, c, started);
    ServingRearm(w, op, cfd, started);
    var w1 := MaybeReschedule(w, c, started);
    var v := WriteHandler(w, c, cfd, started, i, e);
    StartedWriteEffect(w1, op, cfd, i, e);
    SameFlagsSameWrite(At(w, c), At(w1, c), c, i, e);
    KeepKeeps(w1, c);
    EffectAfter(w, w1, v, cfd, WriteCloses(At(w, c), i, e), WritePosts(At(w, c), c, i, e));
  }

  lemma KeepKeeps(w: World, c: Id)
    ensures MaybeReschedule(w, c, Keep) == w
  {
  }

  lemma SameFlagsSameWrite(r: Conn, q: Conn, c: Id, i: WriteInput, e: Env)
    requires SameButTimer(q, r)
    ensures WriteCloses(q, i, e) == WriteCloses(r, i, e) && WritePosts(q, c, i, e) == WritePosts(r, c, i, e)
  {
    if i.WSendfile? {
      SameFlagsSameFile(Unpolled(r, e.submit), Unpolled(q, e.submit), c, i.end, e);
    }
  }

  lemma StartedWriteEffect(w: World, op: Op, cfd: int, i: WriteInput, e: Env)
    requires Serving(w, op, cfd) && At(w, op.c).fd == cfd
    ensures Effect(w, WriteHandler(w, op.c, cfd, Keep, i, e), cfd,
                   WriteCloses(At(w, op.c), i, e), WritePosts(At(w, op.c), op.c, i, e))
  {
    hide Quiet, Serving, Close, PostRecv, ArmPollout, CancelPoll, FullResponse, SendfileProgress, PostRemaining, Effect, Reschedule;
    var c := op.c;
    ServingIsQuiet(w, op, cfd);
    UnpolledEffect(w, op, cfd, e.submit);
    var w2 := CancelPoll(w, c, e.submit.Slot?);
    var v := WriteHandler(w, c, cfd, Keep, i, e);
    match i
    case WSendHeaders(pending) => RestEffect(w, op, cfd, pending, true, e);
    case WSendfile(resumes, end) =>
      FileEffect(w2, op, cfd, resumes, end, e);
      EffectAfter(w, w2, v, cfd, FileCloses(At(w2, c), end, e), FilePosts(At(w2, c), c, end, e));
    case WPollout => PollEffect(w, op, cfd, e);
    case WShutWr => ShutEffect(w, w2, op, cfd, e);
    case WDone(a) =>
      FullEffect(w2, op, cfd, a, e);
      EffectAfter(w, w2, v, cfd, FullCloses(a, e), FullPosts(At(w, c), c, a, e));
    case WError =>
      RearmOnly(w, c, e.rearm);
      ServingRearm(w, op, cfd, e.rearm);
      var w1 := MaybeReschedule(w, c, e.rearm);
      ServingIsQuiet(w1, op, cfd);
      CloseEffect(w1, cfd, e.close);
      EffectAfter(w, w1, v, cfd, true, multiset{});
    case WNoop => NoEffect(w, v, cfd);
  }

  lemma ReadyEffect(w: World, op: Op, cfd: int, i: ReadyInput, e: Env)
    requires Serving(w, op, cfd) && At(w, op.c).fd == cfd
    ensures Effect(w, ReadyHandler(w, op.c, cfd, i, e), cfd,
                   ReadyCloses(At(w, op.c), i, e), ReadyPosts(At(w, op.c), op.c, i, e))
  {
    hide Quiet, Serving, SendfileProgress, PostRemaining, Effect;
    var c := op.c;
    ServingIsQuiet(w, op, cfd);
    var r := At(w, c).(pollArmed := false);
    var w1 := Set(w, c, r);
    FlagsServe(w, op, cfd, r);
    var v := ReadyHandler(w, c, cfd, i, e);
    match i
    case RSendfile(resumes, end) =>
      FileEffect(w1, op, cfd, resumes, end, e);
      EffectAfter(w, w1, v, cfd, FileCloses(r, end, e), FilePosts(r, c, end, e));
    case RSendHeaders(pending) =>
      RestEffect(w1, op, cfd, pending, false, e);
      EffectAfter(w, w1, v, cfd, pending && e.sqe.NoSlot?, One(pending && e.sqe.Slot?, c, Send));
    case RNoop => NoEffect(w, v, cfd);
  }

  // ----- the laws -----------------------------------------------------------------------------------

  lemma FinishEffect(w: World, v: World, op: Op, cfd: int, closes: bool, posts: multiset<Op>)
    requires Quiet(v, []) && op in v.batch && Effect(w, v, cfd, closes, posts) && op in w.ops && !op.kind.CloseOp?
    ensures var u := Finish(v, op);
      && u.store == (if closes then w.store - {cfd} else w.store)
      && forall o: Op :: !o.kind.CloseOp? ==> u.ops[o] == w.ops[o] - (if o == op then 1 else 0) + posts[o]
  {
    hide Inv, Finish;
    FinishKeepsInv(v, op);
  }

  /**
   A completion of an open connection takes its descriptor, and no other, out of the table exactly
   when `Closes` says so, and of the operations that are not closes it leaves exactly those there
   were before, without its own and with `Posts`.
   */
  lemma CompletionTheorem(w: World, op: Op, i: Input, e: Env)
    requires Quiet(w, []) && op in w.batch && At(w, op.c).fd >= 0
    ensures
      var r, v := At(w, op.c), Complete(w, op, i, e);
      && v.store == (if Closes(r, op.kind, i, e) then w.store - {r.fd} else w.store)
      && (r.fd !in v.store <==> Closes(r, op.kind, i, e))
      && forall o: Op :: !o.kind.CloseOp? ==>
           v.ops[o] == w.ops[o] - (if o == op then 1 else 0) + Posts(r, op.c, op.kind, i, e)[o]
  {
    hide Quiet, Serving, Finish, WriteHandler, ReadyHandler, ReadHandler, Effect;
    hide ReadCloses, WriteCloses, ReadyCloses, ReadPosts, WritePosts, ReadyPosts;
    var c, r := op.c, At(w, op.c);
    OpenHasEntry(w, op);
    StartServing(w, op);
    ServingIsQuiet(w, op, r.fd);
    NoEffect(w, w, r.fd);
    match op.kind
    case Send =>
      if i.InWrite? {
        WriteEffect(w, op, r.fd, i.started, i.write, e);
        ServingWrite(w, op, r.fd, i.started, i.write, e);
        var u := WriteHandler(w, c, r.fd, i.started, i.write, e);
        ServingIsQuiet(u, op, r.fd);
        FinishEffect(w, u, op, r.fd, WriteCloses(r, i.write, e), WritePosts(r, c, i.write, e));
      } else {
        FinishEffect(w, w, op, r.fd, false, multiset{});
      }
    case Pollout =>
      if i.InReady? && !(r.closing && i.noResponse) {
        ReadyEffect(w, op, r.fd, i.ready, e);
        ServingReady(w, op, r.fd, i.ready, e);
        var u := ReadyHandler(w, c, r.fd, i.ready, e);
        ServingIsQuiet(u, op, r.fd);
        FinishEffect(w, u, op, r.fd, ReadyCloses(r, i.ready, e), ReadyPosts(r, c, i.ready, e));
      } else {
        FinishEffect(w, w, op, r.fd, false, multiset{});
      }
    case Recv =>
      if !r.closing && i.InRead? {
        ReadEffect(w, op, r.fd, i.read, e);
        ServingRead(w, op, r.fd, i.read, e);
        var u := ReadHandler(w, c, r.fd, i.read, e);
        ServingIsQuiet(u, op, r.fd);
        FinishEffect(w, u, op, r.fd, ReadCloses(i.read, e), ReadPosts(r, c, i.read, e));
      } else {
        DisarmedIsQuiet(w, op);
        var u := Set(w, c, r.(recvArmed := false));
        NoEffect(w, u, r.fd);
        FinishEffect(w, u, op, r.fd, false, multiset{});
      }
  }

  lemma OpenHasEntry(w: World, op: Op)
    requires Quiet(w, []) && op in w.batch && At(w, op.c).fd >= 0
    ensures op in w.ops && At(w, op.c).fd in w.store && !op.kind.CloseOp?
  {
    hide QueueOk, RefsOk, ActiveOk, WheelOk, FreeOk, LifeOk, CountOk;
    FetchedIsLive(w, op);
  }

  /** A receive that was interrupted or found no buffer is replaced by another, on the open connection. */
  lemma ReceiveGoesOn(w: World, op: Op, i: ReadInput, e: Env)
    requires Quiet(w, []) && op in w.batch && op.kind.Recv? && At(w, op.c).fd >= 0 && !At(w, op.c).closing
    requires (i.Again? || i.BadBuffer? || (i.NoBuffer? && !i.second)) && e.recvSqe.Slot?
    ensures var v := Complete(w, op, InRead(i), e);
      && v.store == w.store && At(w, op.c).fd in v.store
      && v.ops[Op(Recv, op.c)] == w.ops[Op(Recv, op.c)] >= 1
  {
    hide Quiet, Complete;
    CompletionTheorem(w, op, InRead(i), e);
    OpenHasEntry(w, op);
    assert op == Op(Recv, op.c);
  }

  /** A response sent in full on a connection to be kept: it is open and has one receive more. */
  lemma KeptConnectionReads(w: World, op: Op, started: Rearm, i: WriteInput, t: Timer, p: Plan, se: Env, e: Env)
    requires Quiet(w, []) && op in w.batch && op.kind.Send? && At(w, op.c).fd >= 0 && e.recvSqe.Slot?
    requires var a := AfterKeepalive(t, false, p, se);
      i == WDone(a) || (i.WSendfile? && i.end == SfFull(a))
    ensures var v := Complete(w, op, InWrite(started, i), e);
      && v.store == w.store && At(w, op.c).fd in v.store
      && v.ops[Op(Recv, op.c)] == w.ops[Op(Recv, op.c)] + 1
  {
    hide Quiet, Complete;
    CompletionTheorem(w, op, InWrite(started, i), e);
    OpenHasEntry(w, op);
  }

  // ----- ticks --------------------------------------------------------------------------------------

  /** An expired idle, drain or write deadline closes; a header or body one answers, if it can. */
  predicate VisitCloses(r: Conn, v: Visit) {
    v.Expired? && r.kind != NoKind && !(r.kind in {HeaderTimeout, BodyTimeout} && v.sendSqe.Slot?)
  }

  predicate VisitAnswers(r: Conn, v: Visit) {
    v.Expired? && r.kind in {HeaderTimeout, BodyTimeout} && v.sendSqe.Slot?
  }

  lemma CloseEffectIn(w: World, pend: seq<Id>, fd: int, e: CloseEnv)
    requires Quiet(w, pend) && (fd in w.store ==> w.store[fd] !in pend)
    ensures Effect(w, Close(w, fd, e).0, fd, true, multiset{})
  {
    hide Inv, Close;
    CloseKeepsInv(w, pend, fd, e);
  }

  lemma AfterExpiryEffect(w: World, pend: seq<Id>, c: Id, fd: int, v: Expired_)
    requires Quiet(w, pend) && fd in w.store && w.store[fd] == c && c !in pend
    ensures Effect(w, AfterExpiry(Close(w, fd, v.close), c, v), fd, true, multiset{})
  {
    hide Inv, Close, InsertTimer, Effect;
    CloseEffectIn(w, pend, fd, v.close);
    CloseKeepsInv(w, pend, fd, v.close);
    var (w1, async) := Close(w, fd, v.close);
    if async {
      InsertTimerOnly(w1, c, v.timer);
      EffectThen(w, w1, InsertTimer(w1, c, v.timer), fd, true, multiset{});
    }
  }

  lemma EffectThen(w: World, u: World, v: World, cfd: int, closes: bool, posts: multiset<Op>)
    requires Effect(w, u, cfd, closes, posts) && v.store == u.store && v.ops == u.ops
    ensures Effect(w, v, cfd, closes, posts)
  {
  }

  lemma AnswerEffect(w: World, c: Id, v: Expired_)
    requires Live(w, c) && v.sendSqe.Slot?
    ensures
      var w1 := Post(Set(w, c, At(w, c).(closing := true)), c, Send, At(w, c).fd, v.sendSqe.taken);
      Effect(w, InsertTimer(w1, c, v.timer), At(w, c).fd, false, multiset{Op(Send, c)})
  {
    hide InsertTimer, Post;
    var w0 := Set(w, c, At(w, c).(closing := true));
    PostEffect(w0, c, Send, At(w, c).fd, v.sendSqe.taken);
    InsertTimerOnly(Post(w0, c, Send, At(w, c).fd, v.sendSqe.taken), c, v.timer);
  }

  lemma ExpireEffect(w: World, pend: seq<Id>, c: Id, v: Expired_)
    requires Quiet(w, pend) && Live(w, c) && c !in pend
    requires w.conns[c].fd in w.store && w.store[w.conns[c].fd] == c
    ensures Effect(w, Expire(w, c, v), w.conns[c].fd, VisitCloses(w.conns[c], v), One(VisitAnswers(w.conns[c], v), c, Send))
  {
    hide Quiet, Close, InsertTimer, AfterExpiry, Post, Effect;
    var r := w.conns[c];
    InsertTimerOnly(w, c, v.timer);
    NoEffect(w, InsertTimer(w, c, v.timer), r.fd);
    AfterExpiryEffect(w, pend, c, r.fd, v);
    if v.sendSqe.Slot? {
      AnswerEffect(w, c, v);
    }
    var w1 := Set(w, c, r.(abortive := true));
    FlagsKeepQuiet(w, pend, c, r.(abortive := true));
    AfterExpiryEffect(w1, pend, c, r.fd, v);
    EffectAfter(w, w1, AfterExpiry(Close(w1, r.fd, v.close), c, v), r.fd, true, multiset{});
  }

  lemma FlagsKeepQuiet(w: World, pend: seq<Id>, c: Id, r: Conn)
    requires Quiet(w, pend) && Live(w, c) && SameCore(w.conns[c], r)
    ensures Quiet(Set(w, c, r), pend)
  {
    hide Inv;
    FlagsKeepInv(w, pend, 0, 0, c, r);
  }

  /** One connection of a tick's bucket. */
  lemma VisitEffect(w: World, pend: seq<Id>, v: Visit)
    requires Quiet(w, pend) && pend != []
    ensures var r := At(w, pend[0]);
      Effect(w, VisitOne(w, pend[0], v), r.fd, VisitCloses(r, v), One(VisitAnswers(r, v), pend[0], Send))
  {
    hide Quiet, Expire, InsertTimer, Effect;
    var c := pend[0];
    TakeHead(w, pend);
    var r := w.conns[c];
    var w1 := Set(w, c, r.(armed := false));
    var u := VisitOne(w, c, v);
    if v.Early? {
      InsertTimerOnly(w1, c, Due(r.kind, v.slot));
      NoEffect(w, u, r.fd);
    } else {
      ExpireEffect(w1, pend[1..], c, v);
      EffectAfter(w, w1, u, r.fd, VisitCloses(r, v), One(VisitAnswers(r, v), c, Send));
    }
  }

  /** Idle, drain and write expiries close at once: no close operation is staged. */
  lemma ExpiryClosesAtOnce(w: World, pend: seq<Id>, v: Visit)
    requires Quiet(w, pend) && pend != [] && v.Expired? && At(w, pend[0]).kind in {InitialIdle, KaIdle, Drain, WriteTimeout}
    ensures VisitOne(w, pend[0], v).ops == w.ops
  {
    hide Quiet, Close;
    var c := pend[0];
    TakeHead(w, pend);
    var w1 := Set(w, c, w.conns[c].(armed := false));
    var r := w1.conns[c];
    var w2 := if r.kind.WriteTimeout? then Set(w1, c, r.(abortive := true)) else w1;
    FlagsKeepQuiet(w1, pend[1..], c, r.(abortive := true));
    CloseKeepsInv(w2, pend[1..], r.fd, v.close);
    AtOnceIsNotStaged(w2, r.fd, v.close);
    assert VisitOne(w, c, v) == Close(w2, r.fd, v.close).0;
    assert w2.ops + multiset{} == w2.ops;
  }

  lemma AtOnceIsNotStaged(w: World, fd: int, e: CloseEnv)
    requires fd in w.store
    requires At(w, w.store[fd]).kind in {InitialIdle, KaIdle, Drain} || At(w, w.store[fd]).abortive
    ensures !Close(w, fd, e).1
  {
    hide MarkClosing, Ref, Put, CloseNow, CancelPoll, ActiveRemove, CountDown;
  }

  /** The other connections keep their number and their kind of deadline. */
  ghost predicate Others(w: World, v: World, c: Id) {
    forall d :: d != c && d in w.conns ==>
      d in v.conns && v.conns[d].fd == w.conns[d].fd && v.conns[d].kind == w.conns[d].kind
  }

  lemma OthersThrough(w: World, u: World, v: World, c: Id)
    requires Others(w, u, c) && Others(u, v, c)
    ensures Others(w, v, c)
  {
  }

  lemma OthersOfSet(w: World, c: Id, r: Conn)
    ensures Others(w, Set(w, c, r), c)
  {
  }

  lemma OthersOfPut(w: World, c: Id)
    ensures Others(w, Put(w, c), c)
  {
  }

  lemma OthersOfTimer(w: World, c: Id, t: Timer)
    ensures Others(w, InsertTimer(w, c, t), c) && Others(w, CancelTimer(w, c), c)
  {
  }

  lemma OthersOfPost(w: World, c: Id, kind: OpKind, fd: int, taken: nat)
    ensures Others(w, Post(w, c, kind, fd, taken), c)
  {
  }

  lemma OthersOfDetach(w: World, pend: seq<Id>, k: nat, c: Id, fd: int)
    requires Books(w, pend, c, k) && Live(w, c) && !w.conns[c].armed && w.conns[c].fd == fd >= 0
    ensures Others(w, Detach(w, c, fd), c)
  {
    hide Books, Detach;
    DetachKeepsBooks(w, pend, k, c, fd);
  }

  lemma OthersOfRelease(w: World, pend: seq<Id>, c: Id, fd: int, sync: bool, e: CloseEnv)
    requires Inv(w, pend, c, 1) && Live(w, c) && !w.conns[c].armed && w.conns[c].fd == fd >= 0
    ensures Others(w, Release(w, c, fd, sync, e).0, c)
  {
    hide Books, RingOk, Others, Put, Detach, CancelPoll;
    CancelPollKeepsInv(w, pend, c, 1, e.pollSqe);
    var w1 := if sync || e.closeSqe.Slot? then CancelPoll(w, c, e.pollSqe) else w;
    OthersOfCancelPoll(w, c, e.pollSqe);
    OthersOfDetach(w1, pend, 1, c, fd);
    if sync || e.closeSqe.NoSlot? {
      var w2 := CloseNow(w1, c, fd, e.flush);
      OthersOfQueue(w1, Detach(w1, c, fd), w2, c);
      OthersOfPut(w2, c);
      OthersOfPut(Put(w2, c), c);
      OthersThrough(w1, w2, Put(w2, c), c);
      OthersThrough(w1, Put(w2, c), Put(Put(w2, c), c), c);
    } else {
      var w2 := StageClose(w1, c, fd, e.closeSqe.taken, e.flush);
      OthersOfQueue(w1, Detach(w1, c, fd), w2, c);
      OthersOfPut(w2, c);
      OthersThrough(w1, w2, Put(w2, c), c);
    }
    OthersOfSelf(w, c);
    OthersThrough(w, w1, Release(w, c, fd, sync, e).0, c);
  }

  lemma OthersOfSelf(w: World, c: Id)
    ensures Others(w, w, c)
  {
  }

  lemma OthersOfCancelPoll(w: World, c: Id, sqe: bool)
    ensures Others(w, CancelPoll(w, c, sqe), c)
  {
  }

  lemma OthersOfQueue(w: World, u: World, v: World, c: Id)
    requires Others(w, u, c) && v.conns == u.conns
    ensures Others(w, v, c)
  {
  }

  lemma OthersOfMark(w: World, c: Id)
    ensures Others(w, Ref(MarkClosing(w, c), c), c)
  {
    hide Others;
    var w1 := Set(w, c, At(w, c).(abortive := false));
    var w2 := CancelTimer(w1, c);
    var w3 := Set(w2, c, At(w2, c).(closing := true));
    OthersOfSet(w, c, At(w, c).(abortive := false));
    OthersOfTimer(w1, c, Off);
    OthersOfSet(w2, c, At(w2, c).(closing := true));
    OthersOfSet(w3, c, At(w3, c).(refcnt := At(w3, c).refcnt + 1));
    OthersThrough(w, w1, w2, c);
    OthersThrough(w, w2, w3, c);
    OthersThrough(w, w3, Ref(w3, c), c);
  }

  lemma OthersOfClose(w: World, pend: seq<Id>, fd: int, e: CloseEnv)
    requires Quiet(w, pend) && fd in w.store && w.store[fd] !in pend
    ensures Others(w, Close(w, fd, e).0, w.store[fd])
  {
    hide QueueOk, RefsOk, OpsOk, StoreOk, ActiveOk, WheelOk, FreeOk, LifeOk, CountOk, Others;
    hide MarkClosing, Ref, Release, ActiveRemove, CountDown;
    var c := w.store[fd];
    StoredIsLive(w, fd);
    NoSlack(w, pend, 0, c);
    MarkClosingKeepsInv(w, pend, c);
    var w1 := MarkClosing(w, c);
    RefKeepsInv(w1, pend, c, 0, c);
    OthersOfMark(w, c);
    var dk := w.conns[c].kind;
    var sync := dk.InitialIdle? || dk.KaIdle? || dk.Drain? || w.conns[c].abortive;
    OthersOfRelease(Ref(w1, c), pend, c, fd, sync, e);
    OthersThrough(w, Ref(w1, c), Close(w, fd, e).0, c);
  }

  lemma OthersOfExpiry(w: World, pend: seq<Id>, c: Id, fd: int, v: Expired_)
    requires Quiet(w, pend) && fd in w.store && w.store[fd] == c && c !in pend
    ensures Others(w, AfterExpiry(Close(w, fd, v.close), c, v), c)
  {
    hide Quiet, Close, InsertTimer, Others;
    OthersOfClose(w, pend, fd, v.close);
    var w1 := Close(w, fd, v.close).0;
    OthersOfTimer(w1, c, v.timer);
    OthersThrough(w, w1, InsertTimer(w1, c, v.timer), c);
  }

  lemma OthersOfExpire(w: World, pend: seq<Id>, c: Id, v: Expired_)
    requires Quiet(w, pend) && Live(w, c) && c !in pend
    requires w.conns[c].fd in w.store && w.store[w.conns[c].fd] == c
    ensures Others(w, Expire(w, c, v), c)
  {
    hide Quiet, Close, InsertTimer, AfterExpiry, Post, Others;
    var r := w.conns[c];
    OthersOfTimer(w, c, v.timer);
    OthersOfExpiry(w, pend, c, r.fd, v);
    var w1, w2 := Set(w, c, r.(abortive := true)), Set(w, c, r.(closing := true));
    OthersOfSet(w, c, r.(abortive := true));
    OthersOfSet(w, c, r.(closing := true));
    FlagsKeepQuiet(w, pend, c, r.(abortive := true));
    OthersOfExpiry(w1, pend, c, r.fd, v);
    OthersThrough(w, w1, AfterExpiry(Close(w1, r.fd, v.close), c, v), c);
    if v.sendSqe.Slot? {
      var w3 := Post(w2, c, Send, r.fd, v.sendSqe.taken);
      OthersOfPost(w2, c, Send, r.fd, v.sendSqe.taken);
      OthersOfTimer(w3, c, v.timer);
      OthersThrough(w, w2, w3, c);
      OthersThrough(w, w3, InsertTimer(w3, c, v.timer), c);
    }
  }

  lemma OthersOfVisit(w: World, pend: seq<Id>, v: Visit)
    requires Quiet(w, pend) && pend != []
    ensures Others(w, VisitOne(w, pend[0], v), pend[0])
  {
    hide Quiet, Expire, InsertTimer, Others;
    var c := pend[0];
    TakeHead(w, pend);
    var r := w.conns[c];
    var w1 := Set(w, c, r.(armed := false));
    OthersOfSet(w, c, r.(armed := false));
    if v.Early? {
      OthersOfTimer(w1, c, Due(r.kind, v.slot));
    } else {
      OthersOfExpire(w1, pend[1..], c, v);
    }
    OthersThrough(w, w1, VisitOne(w, c, v), c);
  }

  /** The numbers a tick closes, and the answers it sends, by what each visit finds. */
  function ClosedBy(w: World, pend: seq<Id>, visits: seq<Visit>): (r: set<int>)
    requires |visits| == |pend|
  {
    if pend == [] then {}
    else (if VisitCloses(At(w, pend[0]), visits[0]) then {At(w, pend[0]).fd} else {}) + ClosedBy(w, pend[1..], visits[1..])
  }

  function AnsweredBy(w: World, pend: seq<Id>, visits: seq<Visit>): (r: multiset<Op>)
    requires |visits| == |pend|
  {
    if pend == [] then multiset{}
    else One(VisitAnswers(At(w, pend[0]), visits[0]), pend[0], Send) + AnsweredBy(w, pend[1..], visits[1..])
  }

  lemma {:induction false} SameFindings(w: World, v: World, pend: seq<Id>, visits: seq<Visit>)
    requires |visits| == |pend|
    requires forall d :: d in pend ==> At(v, d).fd == At(w, d).fd && At(v, d).kind == At(w, d).kind
    ensures ClosedBy(v, pend, visits) == ClosedBy(w, pend, visits)
    ensures AnsweredBy(v, pend, visits) == AnsweredBy(w, pend, visits)
  {
    if pend != [] {
      SameFindings(w, v, pend[1..], visits[1..]);
    }
  }

  lemma {:induction false} WalkEffect(w: World, pend: seq<Id>, visits: seq<Visit>)
    requires Quiet(w, pend) && |visits| == |pend|
    ensures var v := Walk(w, pend, visits);
      && v.store == w.store - ClosedBy(w, pend, visits)
      && forall o: Op :: !o.kind.CloseOp? ==> v.ops[o] == w.ops[o] + AnsweredBy(w, pend, visits)[o]
    decreases |pend|
  {
    hide Quiet, VisitOne, VisitCloses, VisitAnswers;
    if pend != [] {
      VisitEffect(w, pend, visits[0]);
      VisitKeepsInv(w, pend, visits[0]);
      var w1 := VisitOne(w, pend[0], visits[0]);
      WalkEffect(w1, pend[1..], visits[1..]);
      RestIsSame(w, pend, visits[0]);
      SameFindings(w, w1, pend[1..], visits[1..]);
      assert w.store - ClosedBy(w, pend, visits) == w1.store - ClosedBy(w, pend[1..], visits[1..]);
    }
  }

  lemma RestIsSame(w: World, pend: seq<Id>, v: Visit)
    requires Quiet(w, pend) && pend != []
    ensures var u := VisitOne(w, pend[0], v);
      forall d :: d in pend[1..] ==> At(u, d).fd == At(w, d).fd && At(u, d).kind == At(w, d).kind
  {
    hide QueueOk, RefsOk, OpsOk, StoreOk, ActiveOk, FreeOk, LifeOk, CountOk, VisitOne;
    OthersOfVisit(w, pend, v);
    TakeHeadWheel(w, pend);
    forall d | d in pend[1..] ensures d in w.conns {
      assert d in pend;
    }
  }

  /**
   A tick takes out of the table exactly the numbers of those connections in its bucket whose
   deadline has come and is not a header or body one that can be answered, and sends exactly those
   answers.
   */
  lemma TickTheorem(w: World, s: nat, visits: seq<Visit>)
    requires Quiet(w, []) && s < |w.wheel| && |visits| == |w.wheel[s]|
    ensures var v := Tick(w, s, visits);
      && v.store == w.store - ClosedBy(w, w.wheel[s], visits)
      && forall o: Op :: !o.kind.CloseOp? ==> v.ops[o] == w.ops[o] + AnsweredBy(w, w.wheel[s], visits)[o]
  {
    hide Inv, Walk;
    CutIsQuiet(w, s);
    var w1 := w.(wheel := w.wheel[s := []]);
    WalkEffect(w1, w.wheel[s], visits);
    SameFindings(w, w1, w.wheel[s], visits);
  }

  // ----- accept -------------------------------------------------------------------------------------

  predicate SetUp(w: World, a: AcceptInput) {
    (w.free != [] || a.connMemory) && a.storeMemory
  }

  /** The block a new connection gets: the last one recycled, else a new one. */
  function NewBlock(w: World, a: AcceptInput): (c: Id) {
    if w.free != [] then w.free[0] else a.block
  }

  lemma AcceptTailEffect(w: World, c: Id, fd: int, a: AcceptInput)
    requires Quiet(w, []) && Live(w, c) && At(w, c).fd == fd >= 0 && !At(w, c).recvArmed && !At(w, c).closing
    ensures Effect(w, AcceptTail(w, c, fd, a), fd, !a.vhost || (a.recvSqe.NoSlot? && a.sendSqe.NoSlot?),
                   if !a.vhost then multiset{}
                   else if a.recvSqe.Slot? then multiset{Op(Recv, c)}
                   else One(a.sendSqe.Slot?, c, Send))
  {
    hide Quiet, Close, PostRecv, StageResponse, Effect;
    var v := AcceptTail(w, c, fd, a);
    CloseEffect(w, fd, a.close);
    QuietPostRecv(w, c, a.recvSqe);
    RecvEffect(w, c, a.recvSqe);
    var w1 := PostRecv(w, c, a.recvSqe);
    if a.vhost {
      if a.recvSqe.Slot? {
        OneMoreOp(w, w1, fd, Op(Recv, c));
      } else {
        assert w.ops + multiset{} == w.ops;
        CloseEffect(w1, fd, a.close);
        if a.sendSqe.Slot? {
          StageEffect(w1, Op(Send, c), fd, true, a.sendSqe.taken);
          EffectAfter(w, w1, v, fd, false, multiset{Op(Send, c)});
        } else {
          EffectAfter(w, w1, v, fd, true, multiset{});
        }
      }
    }
  }

  lemma InstallEffect(w: World, c: Id, fd: int, a: AcceptInput)
    requires Live(w, c) && At(w, c) == NEW_CONN.(fd := fd)
    ensures var v := Install(w, c, fd, a);
      && v.store == w.store[fd := c] && v.ops == w.ops && Live(v, c)
      && !At(v, c).recvArmed && !At(v, c).closing
  {
    hide Reschedule;
    var w1 := w.(store := w.store[fd := c], queue := Open(w.queue, fd, c), leaked := w.leaked - {fd},
                 counted := w.counted + 1);
    var w2 := ActiveAdd(w1, fd, a.activeMemory);
    assert w2.store == w1.store && w2.ops == w1.ops && Live(w2, c) && !At(w2, c).recvArmed && !At(w2, c).closing;
    RescheduleOnly(w2, c, a.initTimer);
  }

  /**
   A new connection is in the table exactly when it was set up, its host is known and a receive or
   else a refusal could be posted; then it has exactly that one operation.
   */
  lemma AcceptTheorem(w: World, fd: int, a: AcceptInput)
    requires Quiet(w, []) && Fresh(w, fd, a)
    ensures
      var c, v := NewBlock(w, a), Accept(w, fd, a);
      && v.store == (if SetUp(w, a) && a.vhost && (a.recvSqe.Slot? || a.sendSqe.Slot?)
                     then w.store[fd := c] else w.store)
      && forall o: Op :: !o.kind.CloseOp? ==>
           v.ops[o] == w.ops[o]
                     + (if !SetUp(w, a) || !a.vhost then multiset{}
                        else if a.recvSqe.Slot? then multiset{Op(Recv, c)}
                        else One(a.sendSqe.Slot?, c, Send))[o]
  {
    hide Quiet, Close, Install, AcceptTail, Recycle, Set;
    var w0 := w.(leaked := w.leaked + {fd});
    FreshIsNotStored(w, fd);
    LeakKeepsInv(w, fd);
    AllocTakesQuiet(w0, a);
    var (w1, got) := Alloc(w0, a);
    assert w.store - {fd} == w.store;
    NotStored(w1, fd, a.close);
    if got != [] {
      var c := got[0];
      LiveAfterTake(w0, w1, c);
      var w2 := Set(w1, c, NEW_CONN.(fd := fd));
      NewRecord(w1, c, fd);
      if !a.storeMemory {
        AbandonKeepsInv(w0, w1, c, fd);
        RecycledOps(w2, c);
        NotStored(Recycle(w2, c), fd, a.close);
      } else {
        InstallEffect(w2, c, fd, a);
        InstallKeepsInv(w, w1, c, fd, a);
        var w3 := Install(w2, c, fd, a);
        AcceptTailEffect(w3, c, fd, a);
        assert w.store[fd := c] - {fd} == w.store;
      }
    }
  }

  lemma FreshIsNotStored(w: World, fd: int)
    requires Quiet(w, []) && fd !in w.queue.sockets
    ensures fd !in w.store
  {
  }

  lemma NotStored(w: World, fd: int, e: CloseEnv)
    requires fd !in w.store
    ensures Close(w, fd, e).0 == w
  {
  }

  lemma NewRecord(w: World, c: Id, fd: int)
    requires Live(w, c)
    ensures var v := Set(w, c, NEW_CONN.(fd := fd));
      Live(v, c) && At(v, c) == NEW_CONN.(fd := fd) && v.store == w.store && v.ops == w.ops
  {
  }

  lemma RecycledOps(w: World, c: Id)
    ensures Recycle(w, c).store == w.store && Recycle(w, c).ops == w.ops
  {
  }
}
