/** Short runs, from the start, in which a descriptor leaks and in which operations go astray. */
module DescriptorExamples {
  import opened Chains
  import opened Deadlines
  import opened Lifecycle
  import opened SubmissionQueue
  import opened Descriptors

  const NO_CLOSE := CloseEnv(NoSlot, false, 0)
  const ENV := Env(Slot(0), Slot(0), Slot(1), NO_CLOSE, Keep, Due(WriteTimeout, 0), Off)
  const ACCEPT := AcceptInput(0, true, true, true, true, Due(InitialIdle, 0), Slot(0), Slot(0), NO_CLOSE)

  const RECV := Op(Recv, 0)
  const SEND := Op(Send, 0)
  const POLL := Op(Pollout, 0)

  function On7(op: Op): (x: Entry) {
    Entry(op, 7, false, false)
  }

  /** The first accept finds no memory for a connection. */
  lemma LeakExample(slots: nat)
    ensures var ev := Accepted(7, ACCEPT.(connMemory := false));
      Enabled(Start(slots), ev) && 7 in Step(Start(slots), ev).leaked && 7 !in Step(Start(slots), ev).store
  {
    StartIsQuiet(slots);
    LeaksIffSetupFails(Start(slots), 7, ACCEPT.(connMemory := false));
  }

  // ----- one connection, on number 7 --------------------------------------------------------

  /** What the steps below look at, while the worker has this one connection, armed in bucket 0. */
  ghost predicate Solo(w: World, kind: DeadlineKind, poll: bool, staged: seq<Entry>,
                       ops: multiset<Op>, batch: multiset<Op>) {
    && Live(w, 0) && Timed(w.conns[0], kind) && w.conns[0].pollArmed == poll
    && w.store == map[7 := 0] && w.wheel == [[0]]
    && w.queue.sockets == map[7 := 0] && w.queue.staged == staged
    && w.ops == ops && w.batch == batch
  }

  predicate Timed(r: Conn, kind: DeadlineKind) {
    r.fd == 7 && !r.closing && !r.abortive && r.armed && r.slot == 0 && r.kind == kind
  }

  lemma Refetch(w: World, kind: DeadlineKind, poll: bool, staged: seq<Entry>, n: nat, op: Op)
    requires Solo(w, kind, poll, staged, multiset{op}, multiset{}) && (staged == [] || (n == 1 && staged == [On7(op)]))
    requires !op.kind.CloseOp? && op.c == 0
    ensures var ev := Fetched(n, multiset{op});
      Enabled(w, ev) && Solo(Step(w, ev), kind, poll, [], multiset{op}, multiset{op})
  {
    var q := Flush(w.queue, n);
    assert q.staged == [] && q.sockets == w.queue.sockets by {
      if staged != [] {
        assert Flush(w.queue, 1) == Flush(Queue(w.queue.sockets, staged[1..], w.queue.sent + [Sent(On7(op), true)]), 0);
      }
    }
    assert Named(q.staged) == multiset{};
  }

  // An accept with nothing in its way: one connection, waiting for its first bytes.

  lemma FirstAccept()
    ensures Enabled(Start(1), Accepted(7, ACCEPT))
    ensures Solo(Step(Start(1), Accepted(7, ACCEPT)), InitialIdle, false, [On7(RECV)], multiset{RECV}, multiset{})
  {
    hide Install, AcceptTail;
    var w0 := Start(1).(leaked := {7});
    assert Start(1).leaked + {7} == {7};
    var w1 := w0.(conns := map[0 := BLANK], born := multiset{0});
    assert w0.conns[0 := BLANK] == map[0 := BLANK] && w0.born + multiset{0} == multiset{0};
    assert Alloc(w0, ACCEPT) == (w1, [0]);
    var w2 := Set(w1, 0, NEW_CONN.(fd := 7));
    assert w2 == w1.(conns := map[0 := NEW_CONN.(fd := 7)]);
    FirstInstall(w2);
    FirstReceive(Install(w2, 0, 7, ACCEPT));
  }

  lemma FirstInstall(w: World)
    requires w == Start(1).(leaked := {7}, conns := map[0 := NEW_CONN.(fd := 7)], born := multiset{0})
    ensures Solo(Install(w, 0, 7, ACCEPT), InitialIdle, false, [], multiset{}, multiset{})
    ensures !At(Install(w, 0, 7, ACCEPT), 0).recvArmed
  {
    var w1 := w.(store := map[7 := 0], queue := Open(w.queue, 7, 0), leaked := {}, counted := 1);
    assert w.store[7 := 0] == map[7 := 0] && w.leaked - {7} == {};
    assert w1.queue.sockets == map[7 := 0];
    var r := NEW_CONN.(fd := 7, inActive := true, activeIdx := 0);
    var w2 := w1.(active := [7], conns := w1.conns[0 := r]);
    assert ActiveAdd(w1, 7, true) == w2;
    assert CancelTimer(w2, 0) == w2.(conns := w2.conns[0 := r]);
    assert [0] + w2.wheel[0] == [0] && w2.wheel[0 := [0]] == [[0]];
  }

  lemma FirstReceive(w: World)
    requires Solo(w, InitialIdle, false, [], multiset{}, multiset{}) && !At(w, 0).recvArmed
    ensures Solo(AcceptTail(w, 0, 7, ACCEPT), InitialIdle, false, [On7(RECV)], multiset{RECV}, multiset{})
  {
    assert Flush(w.queue, 0) == w.queue;
  }

  // The request is answered, the socket is full, and becomes writable with headers left.

  const REQUEST := InRead(Data(false, NO_CLOSE, Okay(TxBuffer)))
  const SOCKET_FULL := InWrite(Keep, WPollout)
  const HEADERS_LEFT := InReady(false, RSendHeaders(true))

  /** The end of a handler that staged something: its own reference was not the last. */
  lemma SoloFinish(w: World, kind: DeadlineKind, poll: bool, staged: seq<Entry>, op: Op, next: Op)
    requires Solo(w, kind, poll, staged, multiset{op, next}, multiset{op}) && w.conns[0].refcnt > 1 && op.c == 0
    ensures Solo(Finish(w, op), kind, poll, staged, multiset{next}, multiset{})
  {
    assert multiset{op, next} - multiset{op} == multiset{next};
    assert multiset{op} - multiset{op} == multiset{};
  }

  lemma SoloReschedule(w: World, kind: DeadlineKind, poll: bool, staged: seq<Entry>,
                       ops: multiset<Op>, batch: multiset<Op>, k: DeadlineKind)
    requires Solo(w, kind, poll, staged, ops, batch)
    ensures var v := Reschedule(w, 0, Due(k, 0));
      Solo(v, k, poll, staged, ops, batch) && v.conns[0].refcnt == w.conns[0].refcnt
  {
    assert w.wheel[0] == [0] && [0][1..] == [];
    assert Without([0], 0) == [];
    assert w.wheel[0 := []] == [[]];
    assert [0] + [] == [0] && [[]][0 := [0]] == [[0]];
  }

  lemma SoloPost(w: World, kind: DeadlineKind, poll: bool, op: Op, next: Op)
    requires Solo(w, kind, poll, [], multiset{op}, multiset{op}) && next.c == 0
    ensures var v := Post(w, 0, next.kind, 7, 0);
      Solo(v, kind, poll, [On7(next)], multiset{op, next}, multiset{op}) && v.conns[0].refcnt == w.conns[0].refcnt + 1
  {
    assert next == Op(next.kind, 0);
    assert Flush(w.queue, 0) == w.queue && [] + [On7(next)] == [On7(next)];
    assert multiset{op} + multiset{next} == multiset{op, next};
  }

  lemma Answer(w: World)
    requires Solo(w, InitialIdle, false, [], multiset{RECV}, multiset{RECV}) && w.conns[0].refcnt >= 1
    ensures Solo(Step(w, Completed(RECV, REQUEST, ENV)), WriteTimeout, false, [On7(SEND)], multiset{SEND}, multiset{})
  {
    hide Reschedule, Post, Finish;
    var w1 := Set(w, 0, w.conns[0].(recvArmed := false));
    SoloReschedule(w1, InitialIdle, false, [], multiset{RECV}, multiset{RECV}, WriteTimeout);
    var w2 := Reschedule(w1, 0, Due(WriteTimeout, 0));
    SoloPost(w2, WriteTimeout, false, RECV, SEND);
    SoloFinish(Post(w2, 0, Send, 7, 0), WriteTimeout, false, [On7(SEND)], RECV, SEND);
  }

  lemma WaitForSocket(w: World)
    requires Solo(w, WriteTimeout, false, [], multiset{SEND}, multiset{SEND}) && w.conns[0].refcnt >= 1
    ensures Solo(Step(w, Completed(SEND, SOCKET_FULL, ENV)), WriteTimeout, true, [], multiset{POLL}, multiset{})
  {
    hide Post, Finish;
    SoloPost(w, WriteTimeout, false, SEND, POLL);
    var w1 := Post(w, 0, Pollout, 7, 0);
    var w2 := Set(w1, 0, w1.conns[0].(pollArmed := true));
    var q := w2.queue;
    assert Flush(q, 1) == Flush(Queue(q.sockets, q.staged[1..], q.sent + [Sent(On7(POLL), true)]), 0);
    SoloFinish(Submit(w2, 1), WriteTimeout, true, [], SEND, POLL);
  }

  lemma ResendHeaders(w: World)
    requires Solo(w, WriteTimeout, true, [], multiset{POLL}, multiset{POLL}) && w.conns[0].refcnt >= 1
    ensures Solo(Step(w, Completed(POLL, HEADERS_LEFT, ENV)), WriteTimeout, false, [On7(SEND)], multiset{SEND}, multiset{})
  {
    hide Post, Finish;
    var w1 := Set(w, 0, w.conns[0].(pollArmed := false));
    SoloPost(w1, WriteTimeout, false, POLL, SEND);
    SoloFinish(Post(w1, 0, Send, 7, 0), WriteTimeout, false, [On7(SEND)], POLL, SEND);
  }

  // ----- closed at once with headers staged -------------------------------------------------

  const EXPIRED := Expired(NoSlot, NO_CLOSE, Off)

  /** The write timeout, which the writable handler left as it was, expires in the same batch. */
  lemma ExpireStaged(w: World)
    requires Quiet(w, []) && Solo(w, WriteTimeout, false, [On7(SEND)], multiset{SEND}, multiset{})
    ensures Enabled(w, Ticked(0, [EXPIRED]))
    ensures var v := Step(w, Ticked(0, [EXPIRED]));
      && v.batch == multiset{} && v.queue.sockets == map[] && v.queue.staged == [On7(SEND).(overtaken := true)]
  {
    hide Inv, Close;
    var w1 := w.(wheel := w.wheel[0 := []]);
    CutIsQuiet(w, 0);
    TakeHead(w1, [0]);
    var w2 := Set(w1, 0, w1.conns[0].(armed := false));
    assert [0][1..] == [] && [EXPIRED][1..] == [];
    var r := w2.conns[0].(abortive := true);
    FlagsKeepInv(w2, [], 0, 0, 0, r);
    var w3 := Set(w2, 0, r);
    CloseQueue(w3, [], 7, NO_CLOSE);
    CloseKeepsInv(w3, [], 7, NO_CLOSE);
    assert AtOnce(w3, 7, NO_CLOSE);
    assert Flush(w3.queue, 0) == w3.queue;
    assert map[7 := 0] - {7} == map[];
    OvertakeAt([On7(SEND)], 0, 0);
    var v := Close(w3, 7, NO_CLOSE).0;
    assert !Close(w3, 7, NO_CLOSE).1 by {
      ClosedAtOnce(w3);
    }
    assert Walk(w1, [0], [EXPIRED]) == Walk(v, [], []);
  }

  lemma ClosedAtOnce(w: World)
    requires 7 in w.store && w.store[7] == 0 && At(w, 0).abortive
    ensures !Close(w, 7, NO_CLOSE).1
  {
    hide MarkClosing, Ref, Put, CloseNow, CancelPoll, ActiveRemove, CountDown;
  }

  lemma TakeForeign(w: World)
    requires w.batch == multiset{} && w.queue.sockets == map[]
    requires w.queue.staged == [On7(SEND).(overtaken := true)]
    ensures Enabled(w, Fetched(1, multiset{}))
    ensures Step(w, Fetched(1, multiset{})).queue.sent == w.queue.sent + [Sent(Entry(SEND, 7, false, true), false)]
  {
    var x := On7(SEND).(overtaken := true);
    var q := w.queue;
    assert Flush(q, 1) == Flush(Queue(q.sockets, q.staged[1..], q.sent + [Sent(x, false)]), 0);
    assert Named(Flush(q, 1).staged) == multiset{};
  }

  lemma GoOn(run: seq<World>, events: seq<Event>, slots: nat, ev: Event)
    requires IsRun(run, events, slots) && Enabled(run[|events|], ev)
    ensures IsRun(run + [Step(run[|events|], ev)], events + [ev], slots)
    ensures Quiet(Step(run[|events|], ev), [])
  {
    hide Step, Quiet, Enabled;
    var more, evs := run + [Step(run[|events|], ev)], events + [ev];
    forall i | 0 <= i < |evs| ensures Enabled(more[i], evs[i]) && more[i + 1] == Step(more[i], evs[i]) {
      if i < |events| {
        assert run[i + 1] == Step(run[i], events[i]);
      }
    }
    RunsAreQuiet(more, evs, slots, |evs|);
  }

  lemma Counted(w: World)
    requires Quiet(w, []) && Live(w, 0)
    ensures w.conns[0].refcnt >= 1
  {
    hide QueueOk, OpsOk, StoreOk, ActiveOk, WheelOk, FreeOk, LifeOk, CountOk;
  }

  /** One request up to the point where its answer waits for the socket. */
  lemma UpToWaiting() returns (run: seq<World>, events: seq<Event>)
    ensures IsRun(run, events, 1) && Quiet(run[|events|], [])
    ensures Solo(run[|events|], WriteTimeout, true, [], multiset{POLL}, multiset{})
    ensures events == [Accepted(7, ACCEPT), Fetched(1, multiset{RECV}), Completed(RECV, REQUEST, ENV),
                       Fetched(1, multiset{SEND}), Completed(SEND, SOCKET_FULL, ENV)]
  {
    hide Step, Quiet, Solo;
    FirstAccept();
    run, events := [Start(1)], [];
    GoOn(run, events, 1, Accepted(7, ACCEPT));
    var w1 := Step(Start(1), Accepted(7, ACCEPT));
    run, events := run + [w1], events + [Accepted(7, ACCEPT)];
    Refetch(w1, InitialIdle, false, [On7(RECV)], 1, RECV);
    GoOn(run, events, 1, Fetched(1, multiset{RECV}));
    var w2 := Step(w1, Fetched(1, multiset{RECV}));
    run, events := run + [w2], events + [Fetched(1, multiset{RECV})];
    SoloLive(w2, InitialIdle, false, [], multiset{RECV}, multiset{RECV});
    Answer(w2);
    GoOn(run, events, 1, Completed(RECV, REQUEST, ENV));
    var w3 := Step(w2, Completed(RECV, REQUEST, ENV));
    run, events := run + [w3], events + [Completed(RECV, REQUEST, ENV)];
    Refetch(w3, WriteTimeout, false, [On7(SEND)], 1, SEND);
    GoOn(run, events, 1, Fetched(1, multiset{SEND}));
    var w4 := Step(w3, Fetched(1, multiset{SEND}));
    run, events := run + [w4], events + [Fetched(1, multiset{SEND})];
    SoloLive(w4, WriteTimeout, false, [], multiset{SEND}, multiset{SEND});
    WaitForSocket(w4);
    GoOn(run, events, 1, Completed(SEND, SOCKET_FULL, ENV));
    run, events := run + [Step(w4, Completed(SEND, SOCKET_FULL, ENV))], events + [Completed(SEND, SOCKET_FULL, ENV)];
  }

  lemma SoloLive(w: World, kind: DeadlineKind, poll: bool, staged: seq<Entry>, ops: multiset<Op>, batch: multiset<Op>)
    requires Quiet(w, []) && Solo(w, kind, poll, staged, ops, batch)
    ensures w.batch == batch && Live(w, 0) && w.conns[0].refcnt >= 1
  {
    hide Inv;
    Counted(w);
  }

  /**
   One batch holds the socket becoming writable and a sweep: the rest of the headers is staged on
   number 7, the sweep closes 7 at once, and the kernel then takes the send on a number that is
   not the connection's.  No stash is involved.
   */
  lemma OvertakenExample() returns (run: seq<World>, events: seq<Event>)
    ensures IsRun(run, events, 1) && |events| == 9
    ensures events[5..] == [Fetched(0, multiset{POLL}), Completed(POLL, HEADERS_LEFT, ENV),
                            Ticked(0, [EXPIRED]), Fetched(1, multiset{})]
    ensures Sent(Entry(SEND, 7, false, true), false) in run[9].queue.sent
  {
    run, events := UpToWaiting();
    hide Step, Quiet, Solo, Enabled;
    var w5 := run[5];
    Refetch(w5, WriteTimeout, true, [], 0, POLL);
    GoOn(run, events, 1, Fetched(0, multiset{POLL}));
    var w6 := Step(w5, Fetched(0, multiset{POLL}));
    run, events := run + [w6], events + [Fetched(0, multiset{POLL})];
    SoloLive(w6, WriteTimeout, true, [], multiset{POLL}, multiset{POLL});
    Fetchable(w6, POLL, HEADERS_LEFT);
    ResendHeaders(w6);
    GoOn(run, events, 1, Completed(POLL, HEADERS_LEFT, ENV));
    var w7 := Step(w6, Completed(POLL, HEADERS_LEFT, ENV));
    run, events := run + [w7], events + [Completed(POLL, HEADERS_LEFT, ENV)];
    ExpireStaged(w7);
    GoOn(run, events, 1, Ticked(0, [EXPIRED]));
    var w8 := Step(w7, Ticked(0, [EXPIRED]));
    run, events := run + [w8], events + [Ticked(0, [EXPIRED])];
    TakeForeign(w8);
    GoOn(run, events, 1, Fetched(1, multiset{}));
    run, events := run + [Step(w8, Fetched(1, multiset{}))], events + [Fetched(1, multiset{})];
  }

  lemma Fetchable(w: World, op: Op, i: Input)
    requires op in w.batch
    ensures Enabled(w, Completed(op, i, ENV))
  {
  }

  // ----- answered after the close over a full stash ---------------------------------------------

  const FLOOD := InRead(Data(true, CloseEnv(Slot(0), false, 0), InternalError))

  lemma BatchAfterFlood(w: World)
    requires Quiet(w, []) && Solo(w, InitialIdle, false, [], multiset{RECV}, multiset{RECV})
    ensures Step(w, Completed(RECV, FLOOD, ENV)).batch == multiset{}
  {
    hide Inv, Close, StageResponse, Put, Set;
    var r := w.conns[0].(recvArmed := false);
    var w1 := Set(w, 0, r);
    assert w1.batch == w.batch by {
      SetKeepsBatch(w, r);
    }
    FlagsKeepInv(w, [], 0, 0, 0, r);
    CloseKeepsInv(w1, [], 7, FLOOD.read.stashClose);
    var w2 := Close(w1, 7, FLOOD.read.stashClose).0;
    StageKeepsBatch(w2);
    var w3 := StageResponse(w2, 0, 7, true, 0);
    assert Complete(w, RECV, FLOOD, ENV) == Finish(w3, RECV);
    PutKeepsBatch(w3.(ops := w3.ops - multiset{RECV}, batch := w3.batch - multiset{RECV}));
    assert multiset{RECV} - multiset{RECV} == multiset{};
  }

  lemma SetKeepsBatch(w: World, r: Conn)
    ensures Set(w, 0, r).batch == w.batch
  {
  }

  lemma StageKeepsBatch(w: World)
    ensures StageResponse(w, 0, 7, true, 0).batch == w.batch
  {
    hide Without;
  }

  lemma PutKeepsBatch(w: World)
    ensures Put(w, 0).batch == w.batch
  {
  }

  /** The first bytes overflow the stash and call for an answer, which finds number 7 closed. */
  lemma StrayExample() returns (run: seq<World>, events: seq<Event>, x: Sent)
    ensures IsRun(run, events, 1) && |events| == 4
    ensures events[..3] == [Accepted(7, ACCEPT), Fetched(1, multiset{RECV}), Completed(RECV, FLOOD, ENV)]
    ensures x in run[4].queue.sent && x.entry.op == SEND && x.entry.fd == 7 && x.entry.late && !x.own
  {
    hide Step, Quiet, Solo, Enabled, AnswersClosed;
    FirstAccept();
    run, events := [Start(1)], [];
    GoOn(run, events, 1, Accepted(7, ACCEPT));
    var w1 := Step(Start(1), Accepted(7, ACCEPT));
    run, events := run + [w1], events + [Accepted(7, ACCEPT)];
    Refetch(w1, InitialIdle, false, [On7(RECV)], 1, RECV);
    GoOn(run, events, 1, Fetched(1, multiset{RECV}));
    var w2 := Step(w1, Fetched(1, multiset{RECV}));
    run, events := run + [w2], events + [Fetched(1, multiset{RECV})];
    SoloLive(w2, InitialIdle, false, [], multiset{RECV}, multiset{RECV});
    Fetchable(w2, RECV, FLOOD);
    GoOn(run, events, 1, Completed(RECV, FLOOD, ENV));
    var w3 := Step(w2, Completed(RECV, FLOOD, ENV));
    run, events := run + [w3], events + [Completed(RECV, FLOOD, ENV)];
    BatchAfterFlood(w2);
    FloodIsLate(w2);
    var ev := Fetched(|w3.queue.staged|, multiset{});
    FlushAll(w3.queue);
    Drained(w3);
    GoOn(run, events, 1, ev);
    var w4 := Step(w3, ev);
    run, events := run + [w4], events + [ev];
    DrainedIsSent(w3);
    x := LateIsSent(w4.queue.sent, (SEND, 7));
    DescriptorTheorem(run, events, 1, 4);
  }

  lemma FloodIsLate(w: World)
    requires Quiet(w, []) && Solo(w, InitialIdle, false, [], multiset{RECV}, multiset{RECV})
    requires Enabled(w, Completed(RECV, FLOOD, ENV))
    ensures (SEND, 7) in Lates(Step(w, Completed(RECV, FLOOD, ENV)))
  {
    hide Inv, Complete, Lates;
    CompleteBooks(w, RECV, FLOOD, ENV);
  }

  lemma Drained(w: World)
    requires w.batch == multiset{}
    ensures Enabled(w, Fetched(|w.queue.staged|, multiset{}))
  {
    FlushAll(w.queue);
  }

  lemma DrainedIsSent(w: World)
    requires Enabled(w, Fetched(|w.queue.staged|, multiset{}))
    ensures Lates(w) == LateOnes(Entries(Step(w, Fetched(|w.queue.staged|, multiset{})).queue.sent))
  {
    hide Flush, LateOnes, Entries;
    FlushAll(w.queue);
    FlushKeepsLog(w.queue, |w.queue.staged|);
    var q := Flush(w.queue, |w.queue.staged|);
    assert Entries(q.sent) + [] == Entries(q.sent);
  }
}
