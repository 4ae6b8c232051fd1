/**
 A worker's submission queue.  Operations are staged on a descriptor number and taken by the
 kernel later, in order; in between the number may be closed and handed out again.  Whether an
 operation meets its own connection's socket is decided when the kernel takes it.
 */
module SubmissionQueue {
  type Id = nat

  datatype OpKind = Recv | Send | Pollout | CloseOp

  datatype Op = Op(kind: OpKind, c: Id)

  /**
   A staged operation.  `late`: when it was staged its connection no longer had the number;
   `overtaken`: it was still staged when its connection was closed at once.
   */
  datatype Entry = Entry(op: Op, fd: int, late: bool, overtaken: bool)

  /** An entry the kernel has taken, and whether the number was then its connection's socket. */
  datatype Sent = Sent(entry: Entry, own: bool)

  /** `sockets`: every open number of a connection, with the connection whose socket it is. */
  datatype Queue = Queue(sockets: map<int, Id>, staged: seq<Entry>, sent: seq<Sent>)

  predicate Own(sockets: map<int, Id>, x: Entry) {
    x.fd in sockets && sockets[x.fd] == x.op.c
  }

  /** A close frees its number, whoever has it. */
  function After(sockets: map<int, Id>, x: Entry): (r: map<int, Id>) {
    if x.op.kind.CloseOp? then sockets - {x.fd} else sockets
  }

  function Push(q: Queue, x: Entry): (r: Queue) {
    q.(staged := q.staged + [x])
  }

  /** The entry staged last is turned into a no-op. */
  function Withdraw(q: Queue): (r: Queue)
    requires q.staged != []
  {
    q.(staged := q.staged[..|q.staged| - 1])
  }

  /** The kernel takes up to `n` entries, first staged first. */
  function Flush(q: Queue, n: nat): (r: Queue)
    ensures r.sockets.Keys <= q.sockets.Keys
    decreases n
  {
    if n == 0 || q.staged == [] then q else
    var x := q.staged[0];
    Flush(Queue(After(q.sockets, x), q.staged[1..], q.sent + [Sent(x, Own(q.sockets, x))]), n - 1)
  }

  function Overtake(s: seq<Entry>, c: Id): (r: seq<Entry>)
    ensures |r| == |s|
  {
    if s == [] then []
    else [if s[0].op.c == c then s[0].(overtaken := true) else s[0]] + Overtake(s[1..], c)
  }

  /** A close that does not go through the queue: the number is free at once. */
  function Shut(q: Queue, c: Id, fd: int): (r: Queue) {
    q.(sockets := q.sockets - {fd}, staged := Overtake(q.staged, c))
  }

  function Open(q: Queue, fd: int, c: Id): (r: Queue) {
    q.(sockets := q.sockets[fd := c])
  }

  // ----- what the flags foretell ----------------------------------------------------------

  predicate Doomed(x: Entry) {
    x.late || x.overtaken
  }

  /** Taken in order, the entries meet their own sockets exactly as their flags say; closes do. */
  predicate Honest(sockets: map<int, Id>, s: seq<Entry>) {
    s == []
    || (&& (Own(sockets, s[0]) <==> !Doomed(s[0]))
        && (s[0].op.kind.CloseOp? ==> Own(sockets, s[0]))
        && Honest(After(sockets, s[0]), s[1..]))
  }

  /** The numbers that stay open once everything staged is taken. */
  function End(sockets: map<int, Id>, s: seq<Entry>): (r: map<int, Id>)
    ensures forall g :: g in r ==> g in sockets && r[g] == sockets[g]
  {
    if s == [] then sockets else End(After(sockets, s[0]), s[1..])
  }

  function Named(s: seq<Entry>): (r: multiset<Op>) {
    if s == [] then multiset{} else multiset{s[0].op} + Named(s[1..])
  }

  function Closing(s: seq<Entry>): (r: set<int>) {
    if s == [] then {} else (if s[0].op.kind.CloseOp? then {s[0].fd} else {}) + Closing(s[1..])
  }

  ghost predicate SentAsFlagged(sent: seq<Sent>) {
    forall i :: 0 <= i < |sent| ==>
      && (sent[i].own <==> !Doomed(sent[i].entry))
      && (sent[i].entry.op.kind.CloseOp? ==> sent[i].own)
  }

  /**
   `store` is the worker's table, `ops` the operations that hold a reference, `batch` the
   completions fetched and not yet handled: an operation is staged, with the kernel, or fetched.
   */
  ghost predicate QueueOk(q: Queue, store: map<int, Id>, ops: multiset<Op>, batch: multiset<Op>) {
    && Honest(q.sockets, q.staged)
    && End(q.sockets, q.staged) == store
    && Named(q.staged) + batch <= ops
    && SentAsFlagged(q.sent)
  }

  // ----- the kernel takes entries -----------------------------------------------------------

  lemma {:induction false} FlushKeeps(q: Queue, n: nat, store: map<int, Id>, ops: multiset<Op>, batch: multiset<Op>)
    requires QueueOk(q, store, ops, batch)
    ensures QueueOk(Flush(q, n), store, ops, batch)
    decreases n
  {
    if n > 0 && q.staged != [] {
      var x := q.staged[0];
      FlushKeeps(Queue(After(q.sockets, x), q.staged[1..], q.sent + [Sent(x, Own(q.sockets, x))]), n - 1, store, ops, batch);
    }
  }

  // ----- staging ----------------------------------------------------------------------------

  lemma {:induction false} NamedOfPush(s: seq<Entry>, x: Entry)
    ensures Named(s + [x]) == Named(s) + multiset{x.op}
  {
    if s == [] {
      assert [x][1..] == [];
    } else {
      assert (s + [x])[1..] == s[1..] + [x];
      NamedOfPush(s[1..], x);
    }
  }

  lemma {:induction false} EndOfPush(m: map<int, Id>, s: seq<Entry>, x: Entry)
    ensures End(m, s + [x]) == After(End(m, s), x)
    ensures Honest(m, s) ==>
      (Honest(m, s + [x]) <==>
        (Own(End(m, s), x) <==> !Doomed(x)) && (x.op.kind.CloseOp? ==> Own(End(m, s), x)))
  {
    if s == [] {
      assert [x][1..] == [];
    } else {
      assert (s + [x])[1..] == s[1..] + [x];
      EndOfPush(After(m, s[0]), s[1..], x);
    }
  }

  /** Any operation but a close: its flag says whether the table still maps the number to it. */
  lemma PushKeeps(q: Queue, x: Entry, store: map<int, Id>, ops: multiset<Op>, batch: multiset<Op>)
    requires QueueOk(q, store, ops, batch)
    requires !x.op.kind.CloseOp? && !x.overtaken && (x.late <==> !Own(store, x))
    ensures QueueOk(Push(q, x), store, ops + multiset{x.op}, batch)
  {
    EndOfPush(q.sockets, q.staged, x);
    NamedOfPush(q.staged, x);
  }

  lemma PushCloseKeeps(q: Queue, c: Id, fd: int, store: map<int, Id>, ops: multiset<Op>, batch: multiset<Op>)
    requires QueueOk(q, store, ops, batch) && fd in store && store[fd] == c
    ensures QueueOk(Push(q, Entry(Op(CloseOp, c), fd, false, false)), store - {fd}, ops + multiset{Op(CloseOp, c)}, batch)
  {
    var x := Entry(Op(CloseOp, c), fd, false, false);
    EndOfPush(q.sockets, q.staged, x);
    NamedOfPush(q.staged, x);
  }

  lemma PushOpensNone(q: Queue, x: Entry)
    ensures Push(q, x).sockets == q.sockets
  {
  }

  lemma PushedThenWithdrawn(q: Queue, x: Entry)
    ensures Push(q, x).staged != [] && Withdraw(Push(q, x)) == q
  {
    assert (q.staged + [x])[..|q.staged|] == q.staged;
  }

  // ----- closing at once ----------------------------------------------------------------------

  predicate NoCloseOf(s: seq<Entry>, c: Id) {
    Op(CloseOp, c) !in Named(s)
  }

  /** Without a close of it on the way, a connection keeps every number it has. */
  lemma {:induction false} NumberStays(m: map<int, Id>, s: seq<Entry>, g: int)
    requires Honest(m, s) && g in m && NoCloseOf(s, m[g])
    ensures g in End(m, s)
  {
    if s != [] {
      assert s[0].op == Op(s[0].op.kind, s[0].op.c);
      NumberStays(After(m, s[0]), s[1..], g);
    }
  }

  lemma {:induction false} OvertakenIsHonest(m: map<int, Id>, s: seq<Entry>, c: Id, fd: int)
    requires Honest(m, s) && NoCloseOf(s, c) && fd in m && m[fd] == c
    requires forall g :: g in m && m[g] == c ==> g == fd
    ensures Honest(m - {fd}, Overtake(s, c))
    ensures End(m - {fd}, Overtake(s, c)) == End(m, s) - {fd}
    ensures Named(Overtake(s, c)) == Named(s)
  {
    if s != [] {
      var x := s[0];
      assert x.op == Op(x.op.kind, x.op.c);
      OvertakenIsHonest(After(m, x), s[1..], c, fd);
      var y := Overtake(s, c)[0];
      assert Overtake(s, c)[1..] == Overtake(s[1..], c);
      assert After(m - {fd}, y) == After(m, x) - {fd};
      assert Own(m - {fd}, y) <==> Own(m, x) && x.op.c != c;
    }
  }

  /** A close at once: what the connection still has staged will miss its socket. */
  lemma ShutKeeps(q: Queue, c: Id, fd: int, store: map<int, Id>, ops: multiset<Op>, batch: multiset<Op>)
    requires QueueOk(q, store, ops, batch) && fd in store && store[fd] == c
    requires Op(CloseOp, c) !in ops && forall g :: g in store && store[g] == c ==> g == fd
    ensures QueueOk(Shut(q, c, fd), store - {fd}, ops, batch)
  {
    forall g | g in q.sockets && q.sockets[g] == c ensures g == fd {
      NumberStays(q.sockets, q.staged, g);
    }
    OvertakenIsHonest(q.sockets, q.staged, c, fd);
  }

  lemma ShutShrinks(q: Queue, c: Id, fd: int)
    ensures Shut(q, c, fd).sockets.Keys <= q.sockets.Keys
  {
  }

  // ----- a new socket -------------------------------------------------------------------------

  lemma {:induction false} OpenIsHonest(m: map<int, Id>, s: seq<Entry>, fd: int, c: Id)
    requires Honest(m, s) && fd !in m && forall o :: o in Named(s) ==> o.c != c
    ensures Honest(m[fd := c], s) && End(m[fd := c], s) == End(m, s)[fd := c]
  {
    if s != [] {
      assert s[0].op in Named(s);
      assert After(m[fd := c], s[0]) == After(m, s[0])[fd := c];
      OpenIsHonest(After(m, s[0]), s[1..], fd, c);
    }
  }

  lemma OpenKeeps(q: Queue, fd: int, c: Id, store: map<int, Id>, ops: multiset<Op>, batch: multiset<Op>)
    requires QueueOk(q, store, ops, batch) && fd !in q.sockets && forall o :: o in ops ==> o.c != c
    ensures QueueOk(Open(q, fd, c), store[fd := c], ops, batch)
  {
    forall o | o in Named(q.staged) ensures o.c != c {
      assert o in ops;
    }
    OpenIsHonest(q.sockets, q.staged, fd, c);
  }

  /** A number is open exactly when it is in the table or its close is on the way. */
  lemma {:induction false} OpenNumbers(m: map<int, Id>, s: seq<Entry>)
    requires Honest(m, s)
    ensures m.Keys == End(m, s).Keys + Closing(s) && End(m, s).Keys !! Closing(s)
  {
    if s != [] {
      OpenNumbers(After(m, s[0]), s[1..]);
      assert m.Keys == After(m, s[0]).Keys + (if s[0].op.kind.CloseOp? then {s[0].fd} else {});
    }
  }

  // ----- completions --------------------------------------------------------------------------

  lemma FetchedIsOutstanding(q: Queue, store: map<int, Id>, ops: multiset<Op>, batch: multiset<Op>, op: Op)
    requires QueueOk(q, store, ops, batch) && op in batch
    ensures op in ops && QueueOk(q, store, ops - multiset{op}, batch - multiset{op})
  {
    assert op in Named(q.staged) + batch;
  }

  // ----- the order of staging -------------------------------------------------------------------

  function Entries(sent: seq<Sent>): (r: seq<Entry>)
    ensures |r| == |sent|
  {
    if sent == [] then [] else Entries(sent[..|sent| - 1]) + [sent[|sent| - 1].entry]
  }

  /** Every entry ever staged and not withdrawn, in the order of staging. */
  function Log(q: Queue): (r: seq<Entry>) {
    Entries(q.sent) + q.staged
  }

  function LateOnes(s: seq<Entry>): (r: seq<(Op, int)>) {
    if s == [] then []
    else (if s[0].late then [(s[0].op, s[0].fd)] else []) + LateOnes(s[1..])
  }

  lemma {:induction false} LateOfConcat(a: seq<Entry>, b: seq<Entry>)
    ensures LateOnes(a + b) == LateOnes(a) + LateOnes(b)
  {
    if a == [] {
      assert a + b == b;
    } else {
      assert (a + b)[1..] == a[1..] + b;
      LateOfConcat(a[1..], b);
    }
  }

  lemma {:induction false} FlushKeepsLog(q: Queue, n: nat)
    ensures Log(Flush(q, n)) == Log(q)
    decreases n
  {
    if n > 0 && q.staged != [] {
      var x := q.staged[0];
      var sent := q.sent + [Sent(x, Own(q.sockets, x))];
      FlushKeepsLog(Queue(After(q.sockets, x), q.staged[1..], sent), n - 1);
      assert sent[..|q.sent|] == q.sent;
      assert q.staged == [x] + q.staged[1..];
    }
  }

  lemma {:induction false} OvertakeKeepsLate(s: seq<Entry>, c: Id)
    ensures LateOnes(Overtake(s, c)) == LateOnes(s)
  {
    if s != [] {
      assert Overtake(s, c)[1..] == Overtake(s[1..], c);
      OvertakeKeepsLate(s[1..], c);
    }
  }

  lemma LateOfFlush(q: Queue, n: nat)
    ensures LateOnes(Log(Flush(q, n))) == LateOnes(Log(q))
  {
    FlushKeepsLog(q, n);
  }

  lemma LateOfPush(q: Queue, x: Entry)
    ensures LateOnes(Log(Push(q, x))) == LateOnes(Log(q)) + if x.late then [(x.op, x.fd)] else []
  {
    assert Log(Push(q, x)) == Log(q) + [x];
    LateOfConcat(Log(q), [x]);
    assert LateOnes([x][1..]) == [];
  }

  lemma LateOfShut(q: Queue, c: Id, fd: int)
    ensures LateOnes(Log(Shut(q, c, fd))) == LateOnes(Log(q))
  {
    LateOfConcat(Entries(q.sent), q.staged);
    LateOfConcat(Entries(q.sent), Overtake(q.staged, c));
    OvertakeKeepsLate(q.staged, c);
  }

  lemma {:induction false} FlushAll(q: Queue)
    ensures Flush(q, |q.staged|).staged == []
    decreases |q.staged|
  {
    if q.staged != [] {
      var x := q.staged[0];
      FlushAll(Queue(After(q.sockets, x), q.staged[1..], q.sent + [Sent(x, Own(q.sockets, x))]));
    }
  }

  /** A late entry, once everything is taken, is among what was taken. */
  lemma {:induction false} LateIsSent(sent: seq<Sent>, y: (Op, int)) returns (x: Sent)
    requires y in LateOnes(Entries(sent))
    ensures x in sent && x.entry.late && (x.entry.op, x.entry.fd) == y
  {
    var last := sent[|sent| - 1];
    LateOfConcat(Entries(sent[..|sent| - 1]), [last.entry]);
    assert LateOnes([last.entry][1..]) == [];
    if y in LateOnes(Entries(sent[..|sent| - 1])) {
      x := LateIsSent(sent[..|sent| - 1], y);
    } else {
      x := last;
    }
  }
}
