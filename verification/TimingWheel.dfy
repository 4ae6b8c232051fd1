/**
 The per-worker timing wheel: one intrusive doubly linked list per bucket, one armed
 deadline per connection, and a sweep that catches up on missed ticks.
 */
module TimingWheel {
  import opened Bits
  import opened Chains
  import opened Deadlines

  // ----- time -------------------------------------------------------------------------

  function Max(a: nat, b: nat): (m: nat) {
    if a > b then a else b
  }

  /** When tick number `n` is due; the wheel was started at `start`. */
  function TickTime(start: nat, tickMs: nat, n: nat): (t: nat) {
    start + (n + 1) * tickMs
  }

  /** The number of the next tick that walks bucket `slot`. */
  function VisitTick(slot: nat, nowTick: nat, slots: nat): (n: nat)
    requires slots > 0
  {
    nowTick + (slot - nowTick) % slots
  }

  /** The next visit is the first tick from now on whose number is congruent to the slot. */
  lemma VisitIsFirst(slot: nat, nowTick: nat, slots: nat, n: nat)
    requires slot < slots
    ensures VisitTick(slot, nowTick, slots) % slots == slot
    ensures nowTick <= n && n % slots == slot ==> VisitTick(slot, nowTick, slots) <= n
  {
    var d := (slot - nowTick) % slots;
    var q := (slot - nowTick) / slots;
    assert slot - nowTick == q * slots + d;
    assert nowTick + d == -q * slots + slot by { assert -q * slots == -(q * slots); }
    ModUnique(nowTick + d, slots, -q, slot);
    if nowTick <= n && n % slots == slot && n < nowTick + d {
      var p := n / slots;
      assert n == p * slots + slot;
      assert n - nowTick == (p + q) * slots + d by { assert (p + q) * slots == p * slots + q * slots; }
      assert (p + q) * slots < 0;
      ModUnique(n - nowTick, slots, p + q, d);
      ModUnique(n - nowTick, slots, 0, n - nowTick);
    }
  }

  /** Moving on one tick does not move the next visit of any other bucket. */
  lemma VisitStays(slot: nat, nowTick: nat, slots: nat)
    requires slot < slots && nowTick % slots != slot
    ensures VisitTick(slot, nowTick + 1, slots) == VisitTick(slot, nowTick, slots)
  {
    var a, b := VisitTick(slot, nowTick, slots), VisitTick(slot, nowTick + 1, slots);
    VisitIsFirst(slot, nowTick, slots, b);
    VisitIsFirst(slot, nowTick + 1, slots, a);
    assert a != nowTick;
  }

  lemma ScaleLe(a: nat, b: nat, t: nat)
    requires a <= b
    ensures a * t <= b * t
  {
  }

  lemma TicksFit(start: nat, tickMs: nat, n: nat, dt: nat, v: nat)
    requires tickMs > 0 && v <= n + dt / tickMs
    ensures TickTime(start, tickMs, v) <= TickTime(start, tickMs, n) + dt
  {
    var q := dt / tickMs;
    ScaleLe(v + 1, n + 1 + q, tickMs);
    assert (n + 1 + q) * tickMs == (n + 1) * tickMs + q * tickMs;
    assert dt == tickMs * q + dt % tickMs;
  }

  /**
   The bucket chosen for a deadline is walked in time: at most one tick after the later of
   the deadline and now, even when the distance wraps the wheel any number of times.
   */
  lemma SlotIsTimely(start: nat, tickMs: nat, slots: nat, nowTick: nat, nowMs: nat, deadline: nat)
    requires slots > 0 && tickMs > 0
    requires TickTime(start, tickMs, nowTick) <= nowMs + tickMs
    ensures
      var dt := if deadline > nowMs then deadline - nowMs else 0;
      var slot := (nowTick + dt / tickMs) % slots;
      TickTime(start, tickMs, VisitTick(slot, nowTick, slots)) <= Max(deadline, nowMs) + tickMs
  {
    hide VisitTick, TickTime;
    var dt := if deadline > nowMs then deadline - nowMs else 0;
    var target := nowTick + dt / tickMs;
    VisitIsFirst(target % slots, nowTick, slots, target);
    TicksFit(start, tickMs, nowTick, dt, VisitTick(target % slots, nowTick, slots));
  }

  // ----- connections --------------------------------------------------------------------

  datatype ConnState =
    | StNone | StKaIdle | StInitialIdle | StHeader | StBody | StWrite | StDraining | StClosing

  datatype Timeouts = Timeouts(kaIdleMs: nat, initialIdleMs: nat, headerMs: nat, bodyMs: nat, writeMs: nat)

  /** What the classification looks at.  `writePending`: response bytes left to send. */
  datatype Facts = Facts(
    draining: bool,
    tlsPending: bool,
    closing: bool,
    kaIdle: bool,
    headersDone: bool,
    messageDone: bool,
    parserBytes: nat,
    writePending: bool,
    writeStartMs: nat,
    lastActiveMs: nat,
    headerStartMs: nat,
    drainDeadlineMs: nat,
    abortiveClose: bool)

  predicate WriteInProgress(f: Facts) {
    f.writeStartMs != 0 && f.writePending
  }

  /** The state a connection's deadline is derived from; the order of the tests matters. */
  function State(fd: int, f: Facts): (st: ConnState) {
    if fd < 0 then StNone
    else if f.draining then StDraining
    else if f.tlsPending then StInitialIdle
    else if f.closing then (if WriteInProgress(f) then StWrite else StClosing)
    else if f.kaIdle && f.parserBytes == 0 then StKaIdle
    else if !f.kaIdle && !f.headersDone && f.parserBytes == 0 then StInitialIdle
    else if !f.kaIdle && !f.headersDone && f.parserBytes > 0 then StHeader
    else if !f.kaIdle && f.headersDone && !f.messageDone then StBody
    else if WriteInProgress(f) then StWrite
    else StNone
  }

  /** The deadline kind and time the current state calls for; time 0 means none. */
  function Wanted(fd: int, f: Facts, t: Timeouts): (r: (DeadlineKind, nat))
    ensures fd < 0 ==> r == (NoKind, 0)
    ensures r.1 != 0 ==> r.0 != NoKind
  {
    match State(fd, f)
    case StDraining => (Drain, f.drainDeadlineMs)
    case StKaIdle => (KaIdle, f.lastActiveMs + t.kaIdleMs)
    case StInitialIdle => (InitialIdle, f.lastActiveMs + t.initialIdleMs)
    case StHeader => (HeaderTimeout, f.headerStartMs + t.headerMs)
    case StBody => (BodyTimeout, f.lastActiveMs + t.bodyMs)
    case StWrite =>
      (WriteTimeout, (if f.writeStartMs != 0 then f.writeStartMs else f.lastActiveMs) + t.writeMs)
    case StClosing => (NoKind, 0)
    case StNone => (NoKind, 0)
  }

  // What the classification comes to, in terms of the connection.

  /** Neither closed, draining, shaking hands nor on its way out. */
  predicate InUse(fd: int, f: Facts) {
    fd >= 0 && !f.draining && !f.tlsPending && !f.closing
  }

  predicate ReadingHead(fd: int, f: Facts) {
    InUse(fd, f) && !f.kaIdle && !f.headersDone && f.parserBytes > 0
  }

  predicate ReadingBody(fd: int, f: Facts) {
    InUse(fd, f) && !f.kaIdle && f.headersDone && !f.messageDone
  }

  predicate BetweenRequests(fd: int, f: Facts) {
    InUse(fd, f) && f.kaIdle && f.parserBytes == 0
  }

  predicate BeforeFirstByte(fd: int, f: Facts) {
    fd >= 0 && !f.draining && (f.tlsPending || (!f.closing && !f.kaIdle && !f.headersDone && f.parserBytes == 0))
  }

  /** Sending, with nothing of a request being read. */
  predicate Sending(fd: int, f: Facts) {
    && fd >= 0 && !f.draining && !f.tlsPending && f.writeStartMs != 0 && f.writePending
    && (f.closing || (f.kaIdle && f.parserBytes > 0) || (!f.kaIdle && f.headersDone && f.messageDone))
  }

  /** Exactly one kind of deadline for each of these, and none otherwise. */
  lemma KindIff(fd: int, f: Facts, t: Timeouts)
    ensures var k := Wanted(fd, f, t).0;
      && (k == Drain <==> fd >= 0 && f.draining)
      && (k == InitialIdle <==> BeforeFirstByte(fd, f))
      && (k == KaIdle <==> BetweenRequests(fd, f))
      && (k == HeaderTimeout <==> ReadingHead(fd, f))
      && (k == BodyTimeout <==> ReadingBody(fd, f))
      && (k == WriteTimeout <==> Sending(fd, f))
  {
  }

  /** While a head is read, activity does not move its deadline: it counts from the first byte. */
  lemma HeadDeadlineStays(fd: int, f: Facts, t: Timeouts, lastActiveMs: nat, parserBytes: nat)
    requires ReadingHead(fd, f) && parserBytes > 0
    ensures Wanted(fd, f.(lastActiveMs := lastActiveMs, parserBytes := parserBytes), t) == Wanted(fd, f, t)
    ensures Wanted(fd, f, t) == (HeaderTimeout, f.headerStartMs + t.headerMs)
  {
  }

  /** Idle and body deadlines move with the last activity; write deadlines with the start of the write. */
  lemma ActivityMovesDeadline(fd: int, f: Facts, t: Timeouts, d: nat)
    requires Wanted(fd, f, t).0 in {KaIdle, InitialIdle, BodyTimeout}
    ensures var (k, at) := Wanted(fd, f, t);
      && Wanted(fd, f.(lastActiveMs := f.lastActiveMs + d), t) == (k, at + d)
      && f.lastActiveMs <= at
  {
  }

  lemma WriteDeadline(fd: int, f: Facts, t: Timeouts, lastActiveMs: nat)
    requires Sending(fd, f)
    ensures Wanted(fd, f.(lastActiveMs := lastActiveMs), t) == (WriteTimeout, f.writeStartMs + t.writeMs)
  {
  }

  function TimeoutOf(k: DeadlineKind, t: Timeouts): (ms: nat) {
    match k
    case KaIdle => t.kaIdleMs
    case InitialIdle => t.initialIdleMs
    case HeaderTimeout => t.headerMs
    case BodyTimeout => t.bodyMs
    case WriteTimeout => t.writeMs
    case _ => 0
  }

  /** Each kind depends on its own timeout, millisecond for millisecond, and on no other. */
  lemma OwnTimeoutOnly(fd: int, f: Facts, t: Timeouts, u: Timeouts)
    ensures var (k, at) := Wanted(fd, f, t);
      Wanted(fd, f, u).0 == k && Wanted(fd, f, u).1 - TimeoutOf(k, u) == at - TimeoutOf(k, t)
    ensures Wanted(fd, f, t).0 == Drain ==> Wanted(fd, f, t).1 == f.drainDeadlineMs
  {
  }

  class Conn {
    var fd: int
    var facts: Facts
    // The armed deadline and its place in the wheel.
    var kind: DeadlineKind
    var deadlineMs: nat
    var active: bool
    var slot: nat
    var prev: Conn?
    var next: Conn?
    ghost var armedAt: nat
    ghost var rank: nat
  }

  /** What the wheel decides by: the connection's state and its deadline. */
  datatype Timer = Timer(fd: int, facts: Facts, kind: DeadlineKind, active: bool, deadlineMs: nat, armedAt: nat)

  ghost function TimerOf(c: Conn): (t: Timer)
    reads c
  {
    Timer(c.fd, c.facts, c.kind, c.active, c.deadlineMs, c.armedAt)
  }

  /** Armed exactly when its state wants a deadline, with that deadline, now. */
  predicate Rearmed(b: Timer, t: Timeouts, nowMs: nat) {
    var (kind, at) := Wanted(b.fd, b.facts, t);
    b.kind == kind && (b.active <==> at != 0) && (b.active ==> b.deadlineMs == at && b.armedAt == nowMs)
  }

  /** Closed for good: no descriptor, no deadline, the abortive mark used up. */
  predicate Gone(a: Timer, b: Timer) {
    b.fd < 0 && !b.active && b.kind == NoKind && b.facts == a.facts.(closing := true, abortiveClose := false)
  }

  predicate Answered(a: Timer, b: Timer, t: Timeouts, nowMs: nat) {
    b.fd == a.fd && b.facts == a.facts.(closing := true, writePending := true) && Rearmed(b, t, nowMs)
  }

  /**
   What the expiry of a deadline does: an idle, draining or stuck connection is closed; one slow
   to send its request is answered 408, to close after it, or closed if that cannot be posted.
   */
  predicate Expires(a: Timer, b: Timer, t: Timeouts, nowMs: nat) {
    match a.kind
    case HeaderTimeout => Gone(a, b) || Answered(a, b, t, nowMs)
    case BodyTimeout => Gone(a, b) || Answered(a, b, t, nowMs)
    case NoKind => b.fd == a.fd && b.facts == a.facts && Rearmed(b, t, nowMs)
    case _ => Gone(a, b)
  }

  lemma ExpiresToClosing(a: Timer, b: Timer, t: Timeouts, nowMs: nat)
    requires Expires(a, b, t, nowMs)
    ensures b.active ==> b.kind != NoKind
    ensures a.kind != NoKind ==> b.facts.closing
    ensures a.kind !in {NoKind, HeaderTimeout, BodyTimeout} ==> b.fd < 0 && !b.active
  {
    hide Wanted;
  }

  // ----- what happens to a head ---------------------------------------------------------

  /** More of the head has come in, and the timer is set anew; or the wheel catches up. */
  datatype Moment = Heard(at: nat, lastActiveMs: nat, more: nat) | Swept(at: nat)

  ghost predicate InOrder(clock: nat, moments: seq<Moment>, nowMs: nat)
    decreases |moments|
  {
    if moments == [] then clock <= nowMs else clock <= moments[0].at && InOrder(moments[0].at, moments[1..], nowMs)
  }

  ghost function LastHeard(moments: seq<Moment>): (ms: nat) {
    if moments == [] then 0
    else
      var last := moments[|moments| - 1];
      if last.Heard? then last.at else LastHeard(moments[..|moments| - 1])
  }

  ghost predicate AllHeardBy(moments: seq<Moment>, ms: nat) {
    forall i :: 0 <= i < |moments| && moments[i].Heard? ==> moments[i].at <= ms
  }

  lemma {:induction false} HeardBy(moments: seq<Moment>, ms: nat)
    ensures AllHeardBy(moments, ms) ==> LastHeard(moments) <= ms
  {
    if moments != [] {
      HeardBy(moments[..|moments| - 1], ms);
      assert AllHeardBy(moments, ms) ==> AllHeardBy(moments[..|moments| - 1], ms);
    }
  }

  // ----- the wheel ----------------------------------------------------------------------

  /** A deadline that expired: whose and what it was, when armed, on which tick, at what time. */
  datatype Firing =
    Firing(conn: Conn, kind: DeadlineKind, deadlineMs: nat, armedAt: nat, tickAt: nat, clockMs: nat)

  /** A deadline as an entry of the log. */
  function FiringOf(c: Conn, t: Timer, tickAt: nat, nowMs: nat): (f: Firing) {
    Firing(c, t.kind, t.deadlineMs, t.armedAt, tickAt, nowMs)
  }

  /** The log has the deadlines of exactly these connections, each once. */
  ghost predicate LogsOnce(log: seq<Firing>, due: set<Conn>, was: map<Conn, Timer>, tickAt: nat, nowMs: nat) {
    && (forall i :: 0 <= i < |log| ==>
          && log[i].conn in due && log[i].conn in was
          && log[i] == FiringOf(log[i].conn, was[log[i].conn], tickAt, nowMs))
    && (forall i, j :: 0 <= i < j < |log| ==> log[i].conn != log[j].conn)
    && (forall d :: d in due ==> exists i :: 0 <= i < |log| && log[i].conn == d)
  }

  lemma LogsNothing(was: map<Conn, Timer>, tickAt: nat, nowMs: nat)
    ensures LogsOnce([], {}, was, tickAt, nowMs)
  {
  }

  lemma LogsOneMore(log: seq<Firing>, due: set<Conn>, was: map<Conn, Timer>, tickAt: nat, nowMs: nat, c: Conn)
    requires LogsOnce(log, due, was, tickAt, nowMs) && c !in due && c in was
    ensures LogsOnce(log + [FiringOf(c, was[c], tickAt, nowMs)], due + {c}, was, tickAt, nowMs)
  {
    var more := log + [FiringOf(c, was[c], tickAt, nowMs)];
    forall d | d in due + {c} ensures exists i :: 0 <= i < |more| && more[i].conn == d {
      if d == c {
        assert more[|log|].conn == d;
      } else {
        var i :| 0 <= i < |log| && log[i].conn == d;
        assert more[i].conn == d;
      }
    }
  }

  /** A tick in progress: those visited are done with, all others are as they were. */
  ghost predicate Midway(was: map<Conn, Timer>, now: map<Conn, Timer>, pend: set<Conn>, due: set<Conn>,
                         t: Timeouts, nowMs: nat)
  {
    && pend <= was.Keys && was.Keys == now.Keys
    && (forall d :: d in pend ==> was[d].active && (d in due <==> was[d].deadlineMs <= nowMs))
    && (forall d :: d in was ==>
          if d in due && d !in pend then Expires(was[d], now[d], t, nowMs) else now[d] == was[d])
  }

  /** One more connection is visited: fired and logged if its time has come, else unchanged. */
  lemma MidwayStep(was: map<Conn, Timer>, now: map<Conn, Timer>, pend: set<Conn>, due: set<Conn>,
                   t: Timeouts, nowMs: nat, c: Conn, b: Timer, log: seq<Firing>, tickAt: nat)
    returns (more: seq<Firing>)
    requires Midway(was, now, pend, due, t, nowMs) && c in pend
    requires LogsOnce(log, due - pend, was, tickAt, nowMs)
    requires if now[c].deadlineMs <= nowMs then Expires(now[c], b, t, nowMs) else b == now[c]
    ensures Midway(was, now[c := b], pend - {c}, due, t, nowMs)
    ensures LogsOnce(more, due - (pend - {c}), was, tickAt, nowMs)
    ensures more == log + if now[c].deadlineMs <= nowMs then [FiringOf(c, now[c], tickAt, nowMs)] else []
  {
    hide Expires, LogsOnce;
    more := log + if now[c].deadlineMs <= nowMs then [FiringOf(c, now[c], tickAt, nowMs)] else [];
    if c in due {
      assert due - (pend - {c}) == (due - pend) + {c};
      LogsOneMore(log, due - pend, was, tickAt, nowMs, c);
    } else {
      assert due - (pend - {c}) == due - pend && log + [] == log;
    }
  }

  /** The log has an entry for this deadline of this connection. */
  ghost predicate LoggedAs(log: seq<Firing>, c: Conn, kind: DeadlineKind, deadlineMs: nat, armedAt: nat) {
    exists i :: 0 <= i < |log| &&
      log[i].conn == c && log[i].kind == kind && log[i].deadlineMs == deadlineMs && log[i].armedAt == armedAt
  }

  lemma StaysLogged(a: seq<Firing>, log: seq<Firing>, b: seq<Firing>,
                    c: Conn, kind: DeadlineKind, deadlineMs: nat, armedAt: nat)
    requires LoggedAs(log, c, kind, deadlineMs, armedAt)
    ensures LoggedAs(a + log + b, c, kind, deadlineMs, armedAt)
  {
    var i :| 0 <= i < |log| &&
      log[i].conn == c && log[i].kind == kind && log[i].deadlineMs == deadlineMs && log[i].armedAt == armedAt;
    assert (a + log + b)[|a| + i] == log[i];
  }

  class Wheel {
    const slots: nat
    const tickMs: nat
    const timeouts: Timeouts
    const buckets: array<Conn?>
    var nowTick: nat
    var nextTickMs: nat

    /** Every connection of the worker, and the detached part of the bucket being walked. */
    ghost var conns: set<Conn>
    ghost var pend: set<Conn>
    ghost var cur: Conn?
    ghost var nextRank: nat
    ghost const startMs: nat
    ghost var clock: nat
    ghost var fired: seq<Firing>

    /** In a bucket: armed and not on the detached list. */
    ghost predicate InBucket(c: Conn)
      reads this, c
    {
      c in conns && c.active && c !in pend
    }

    /** A connection in a bucket agrees with its neighbours; ranks fall along the list. */
    ghost predicate PrevOk(c: Conn)
      reads this, buckets, conns, c
    {
      && buckets.Length == slots && c.slot < slots && c.fd >= 0 && c.rank < nextRank
      && if c.prev == null then buckets[c.slot] == c
         else c.prev in conns && InBucket(c.prev) && c.prev.slot == c.slot && c.prev.next == c && c.prev.rank > c.rank
    }

    ghost predicate NextOk(c: Conn)
      reads this, conns, c
    {
      c.next != null ==>
        c.next in conns && InBucket(c.next) && c.next.slot == c.slot && c.next.prev == c && c.next.rank < c.rank
    }

    ghost predicate ListsOk()
      reads this, buckets, conns
    {
      && (forall c :: c in conns && InBucket(c) ==> PrevOk(c))
      && (forall c :: c in conns && InBucket(c) ==> NextOk(c))
    }

    ghost predicate HeadsOk()
      reads this, buckets, conns
    {
      && buckets.Length == slots
      && forall s :: 0 <= s < slots && buckets[s] != null ==>
           buckets[s] in conns && InBucket(buckets[s]) && buckets[s].slot == s && buckets[s].prev == null
    }

    /** A connection on the detached list: reached from `cur`, its links still the old ones. */
    ghost predicate Waiting(c: Conn)
      reads this, conns
    {
      && c in conns && c.active && c.fd >= 0 && c.rank < nextRank
      && nowTick > 0
      && TickTime(startMs, tickMs, nowTick - 1) <= Max(c.deadlineMs, c.armedAt) + tickMs
      && (c.next != null ==> c.next in pend && c.next in conns && c.next.prev == c && c.next.rank < c.rank)
      && (c != cur ==>
            c.prev != null && c.prev in pend && c.prev in conns && c.prev.next == c && c.prev.rank > c.rank)
    }

    /** The bucket is walked at most one tick after the later of deadline and arming time. */
    ghost predicate Timely(c: Conn)
      reads this, c
    {
      slots > 0 && TickTime(startMs, tickMs, VisitTick(c.slot, nowTick, slots)) <= Max(c.deadlineMs, c.armedAt) + tickMs
    }

    ghost predicate FiredOk(f: Firing) {
      f.deadlineMs <= f.clockMs && f.tickAt <= Max(f.deadlineMs, f.armedAt) + tickMs
    }

    ghost predicate PendOk()
      reads this, conns
    {
      && (forall c :: c in pend ==> Waiting(c))
      && (cur != null ==> cur in pend)
      && (cur == null ==> pend == {})
    }

    ghost predicate TimesOk()
      reads this, conns
    {
      && slots > 0 && IsPow2(slots) && tickMs > 0
      && (forall c :: c in conns && InBucket(c) ==> Timely(c))
      && (forall i :: 0 <= i < |fired| ==> FiredOk(fired[i]))
    }

    ghost predicate Valid()
      reads this, buckets, conns
    {
      ListsOk() && HeadsOk() && PendOk() && TimesOk()
    }

    ghost predicate KindsOk()
      reads this, conns
    {
      forall c :: c in conns && c.active ==> c.kind != NoKind
    }

    /** Between ticks: nothing detached, and the clock is within a tick of the schedule. */
    ghost predicate Idle()
      reads this, buckets, conns
    {
      && Valid() && KindsOk() && pend == {} && cur == null
      && nextTickMs == TickTime(startMs, tickMs, nowTick)
      && nextTickMs <= clock + tickMs
    }

    constructor (slots: nat, tickMs: nat, timeouts: Timeouts, nowMs: nat, conns: set<Conn>)
      requires slots > 0 && IsPow2(slots) && tickMs > 0
      requires forall c :: c in conns ==> !c.active
      ensures Idle() && this.conns == conns && fired == [] && clock == nowMs
      ensures this.slots == slots && this.tickMs == tickMs && nowTick == 0
    {
      this.slots := slots;
      this.tickMs := tickMs;
      this.timeouts := timeouts;
      buckets := new Conn?[slots](_ => null);
      nowTick := 0;
      nextTickMs := nowMs + tickMs;
      this.conns := conns;
      pend := {};
      cur := null;
      nextRank := 0;
      startMs := nowMs;
      clock := nowMs;
      fired := [];
    }

    /** What the classification reads, and the kind, as before. */
    twostate predicate SameFacts(d: Conn)
      reads d
    {
      d.fd == old(d.fd) && d.facts == old(d.facts) && d.kind == old(d.kind)
    }

    /** Armed as before, or unarmed as before, with everything the wheel decides by. */
    twostate predicate Kept(d: Conn)
      reads d
    {
      TimerOf(d) == old(TimerOf(d))
    }

    /** Every connection but `c` is as it was. */
    twostate predicate OthersKept(c: Conn)
      reads this, conns
    {
      conns == old(conns) && forall d :: d in old(conns) && d != c ==> Kept(d)
    }

    // ----- unlinking

    /** Exactly `c` is unlinked; every other connection keeps all but the links to `c`. */
    twostate predicate Unlinked(c: Conn)
      reads this, buckets, conns
    {
      && unchanged(this) && c in conns && !c.active
      && (forall d :: d in conns ==> SameFacts(d))
      && buckets.Length == slots && old(c.slot) < slots
      && (forall d :: d in conns && d != c ==>
            && d.active == old(d.active) && d.slot == old(d.slot) && d.rank == old(d.rank)
            && d.deadlineMs == old(d.deadlineMs) && d.armedAt == old(d.armedAt)
            && d.next == (if d == old(c.prev) then old(c.next) else old(d.next))
            && d.prev == (if d == old(c.next) then old(c.prev) else old(d.prev)))
      && (forall s :: 0 <= s < slots ==>
            buckets[s] == if old(c.prev) == null && s == old(c.slot) then old(c.next) else old(buckets[s]))
    }

    twostate lemma UnlinkKeepsPrevs(c: Conn)
      requires old(ListsOk()) && old(c in conns && InBucket(c)) && Unlinked(c)
      ensures forall d :: d in conns && InBucket(d) ==> PrevOk(d)
    {
      forall d | d in conns && InBucket(d) ensures PrevOk(d) {
        assert old(PrevOk(d)) && old(NextOk(d));
        assert old(PrevOk(c)) && old(NextOk(c));
      }
    }

    twostate lemma UnlinkKeepsNexts(c: Conn)
      requires old(ListsOk()) && old(c in conns && InBucket(c)) && Unlinked(c)
      ensures forall d :: d in conns && InBucket(d) ==> NextOk(d)
    {
      forall d | d in conns && InBucket(d) ensures NextOk(d) {
        assert old(PrevOk(d)) && old(NextOk(d));
        assert old(PrevOk(c)) && old(NextOk(c));
      }
    }

    twostate lemma UnlinkKeepsHeads(c: Conn)
      requires old(ListsOk()) && old(HeadsOk()) && old(c in conns && InBucket(c)) && Unlinked(c)
      ensures HeadsOk()
    {
      assert old(PrevOk(c)) && old(NextOk(c));
      forall s | 0 <= s < slots && buckets[s] != null ensures
        buckets[s] in conns && InBucket(buckets[s]) && buckets[s].slot == s && buckets[s].prev == null
      {
      }
    }

    twostate lemma UnlinkKeepsRest(c: Conn)
      requires old(PendOk()) && old(TimesOk()) && old(c in conns && InBucket(c)) && old(ListsOk()) && Unlinked(c)
      ensures PendOk() && TimesOk()
    {
      assert old(PrevOk(c)) && old(NextOk(c));
      forall d | d in pend ensures Waiting(d) {
        assert old(Waiting(d));
      }
    }

    twostate lemma UnlinkKeepsValid(c: Conn)
      requires old(Valid()) && old(c in conns && InBucket(c)) && Unlinked(c)
      ensures Valid()
    {
      hide HeadsOk, PendOk, TimesOk, PrevOk, NextOk, Unlinked;
      UnlinkKeepsPrevs(c);
      UnlinkKeepsNexts(c);
      UnlinkKeepsHeads(c);
      UnlinkKeepsRest(c);
    }

    lemma Here(c: Conn)
      requires ListsOk() && c in conns && InBucket(c)
      ensures PrevOk(c) && NextOk(c)
    {
    }

    method Unlink(c: Conn)
      requires Valid() && c in conns && InBucket(c)
      modifies buckets, conns
      ensures Valid() && Unlinked(c) && OthersKept(c)
      ensures !c.active && SameFacts(c) && c.prev == null && c.next == null
    {
      hide ListsOk, HeadsOk, PendOk, TimesOk;
      Here(c);
      if c.prev != null {
        c.prev.next := c.next;
      } else {
        buckets[c.slot] := c.next;
      }
      if c.next != null {
        c.next.prev := c.prev;
      }
      c.prev := null;
      c.next := null;
      c.active := false;
      UnlinkKeepsValid(c);
    }

    // ----- linking

    function SlotFor(nowMs: nat, deadlineMs: nat): (slot: nat)
      requires slots > 0 && tickMs > 0
      reads this
    {
      var dt := if deadlineMs > nowMs then deadlineMs - nowMs else 0;
      And(nowTick + dt / tickMs, slots - 1)
    }

    lemma SlotForIsTimely(nowMs: nat, deadlineMs: nat)
      requires slots > 0 && IsPow2(slots) && tickMs > 0
      requires TickTime(startMs, tickMs, nowTick) <= nowMs + tickMs
      ensures SlotFor(nowMs, deadlineMs) < slots
      ensures TickTime(startMs, tickMs, VisitTick(SlotFor(nowMs, deadlineMs), nowTick, slots))
           <= Max(deadlineMs, nowMs) + tickMs
    {
      var k: nat :| slots == Pow2(k);
      var dt := if deadlineMs > nowMs then deadlineMs - nowMs else 0;
      MaskIsMod(nowTick + dt / tickMs, k);
      SlotIsTimely(startMs, tickMs, slots, nowTick, nowMs, deadlineMs);
    }

    /** `c` is the new head of its bucket; the old head points back to it. */
    twostate predicate Inserted(c: Conn)
      reads this, buckets, conns, c
    {
      var s := c.slot;
      && unchanged(this`nowTick, this`nextTickMs, this`conns, this`pend, this`cur, this`clock, this`fired)
      && nextRank == old(nextRank) + 1
      && s < slots && buckets.Length == slots && c in conns && c.fd >= 0
      && c.active && c.prev == null && c.next == old(buckets[s]) && c.rank == old(nextRank)
      && (forall d :: d in conns ==> SameFacts(d))
      && (forall d :: d in conns && d != c ==>
            && d.active == old(d.active) && d.slot == old(d.slot) && d.rank == old(d.rank)
            && d.deadlineMs == old(d.deadlineMs) && d.armedAt == old(d.armedAt)
            && d.next == old(d.next)
            && d.prev == (if d == old(buckets[s]) then c else old(d.prev)))
      && (forall t :: 0 <= t < slots ==> buckets[t] == if t == s then c else old(buckets[t]))
    }

    twostate lemma InsertKeepsPrevs(c: Conn)
      requires old(ListsOk()) && old(HeadsOk()) && old(!c.active) && c !in pend && Inserted(c)
      ensures forall d :: d in conns && InBucket(d) ==> PrevOk(d)
    {
      forall d | d in conns && InBucket(d) ensures PrevOk(d) {
        if d != c {
          assert old(PrevOk(d));
        }
      }
    }

    twostate lemma InsertKeepsNexts(c: Conn)
      requires old(ListsOk()) && old(HeadsOk()) && old(!c.active) && c !in pend && Inserted(c)
      ensures forall d :: d in conns && InBucket(d) ==> NextOk(d)
    {
      var s := c.slot;
      var h := old(buckets[s]);
      if h != null {
        assert old(h in conns && InBucket(h) && PrevOk(h));
      }
      forall d | d in conns && InBucket(d) ensures NextOk(d) {
        if d != c {
          assert old(NextOk(d));
        }
      }
    }

    twostate lemma InsertKeepsRest(c: Conn)
      requires old(HeadsOk()) && old(PendOk()) && old(TimesOk())
      requires old(!c.active) && c !in pend && Inserted(c)
      requires Timely(c)
      ensures HeadsOk() && PendOk() && TimesOk()
    {
      forall d | d in pend ensures Waiting(d) {
        assert old(Waiting(d));
      }
    }

    twostate lemma InsertKeepsValid(c: Conn)
      requires old(Valid()) && old(!c.active) && c !in pend && Inserted(c)
      requires Timely(c)
      ensures Valid()
    {
      hide HeadsOk, PendOk, TimesOk, PrevOk, NextOk, Inserted;
      InsertKeepsPrevs(c);
      InsertKeepsNexts(c);
      InsertKeepsRest(c);
    }

    /** What linking relies on: the slot is in range and timely, its head is a connection. */
    lemma ReadyToLink(c: Conn, nowMs: nat, deadlineMs: nat)
      requires Valid() && !c.active && TickTime(startMs, tickMs, nowTick) <= nowMs + tickMs
      ensures c !in pend && slots > 0 && tickMs > 0 && buckets.Length == slots
      ensures SlotFor(nowMs, deadlineMs) < slots
      ensures TickTime(startMs, tickMs, VisitTick(SlotFor(nowMs, deadlineMs), nowTick, slots))
           <= Max(deadlineMs, nowMs) + tickMs
      ensures var h := buckets[SlotFor(nowMs, deadlineMs)]; h != null ==> h in conns && h.active
    {
      hide ListsOk;
      SlotForIsTimely(nowMs, deadlineMs);
    }

    /** Fills in the connection's own part of the link. */
    method Stamp(c: Conn, slot: nat, deadlineMs: nat, head: Conn?, ghost armed: nat, ghost rank: nat)
      modifies c
      ensures c.deadlineMs == deadlineMs && c.slot == slot && c.next == head && c.prev == null && c.active
      ensures c.armedAt == armed && c.rank == rank
      ensures c.fd == old(c.fd) && c.facts == old(c.facts) && c.kind == old(c.kind)
    {
      c.deadlineMs := deadlineMs;
      c.slot := slot;
      c.next := head;
      c.prev := null;
      c.active := true;
      c.armedAt := armed;
      c.rank := rank;
    }

    method Link(c: Conn, nowMs: nat, deadlineMs: nat, ghost armed: nat)
      requires Valid() && c in conns && !c.active && c.fd >= 0
      requires TickTime(startMs, tickMs, nowTick) <= nowMs + tickMs
      requires nowMs <= armed || nowMs <= deadlineMs
      modifies this`nextRank, buckets, conns
      ensures Valid()
      ensures Inserted(c) && OthersKept(c)
      ensures c.active && SameFacts(c) && c.deadlineMs == deadlineMs && c.armedAt == armed
    {
      hide Valid, VisitTick, SlotFor, TickTime;
      ReadyToLink(c, nowMs, deadlineMs);
      var s := SlotFor(nowMs, deadlineMs);
      var head := buckets[s];
      Stamp(c, s, deadlineMs, head, armed, nextRank);
      if head != null {
        head.prev := c;
      }
      buckets[s] := c;
      nextRank := nextRank + 1;
      InsertKeepsValid(c);
    }

    /** Links `c` unless its descriptor is gone.  `armed` is when the deadline was set. */
    method Insert(c: Conn, nowMs: nat, deadlineMs: nat, ghost armed: nat)
      requires Valid() && c in conns && !c.active
      requires TickTime(startMs, tickMs, nowTick) <= nowMs + tickMs
      requires nowMs <= armed || nowMs <= deadlineMs
      modifies this`nextRank, buckets, conns
      ensures Valid()
      ensures old(c.fd) < 0 ==> unchanged(this, buckets, conns)
      ensures old(c.fd) >= 0 ==>
        Inserted(c) && c.active && c.deadlineMs == deadlineMs && c.armedAt == armed
      ensures OthersKept(c) && SameFacts(c)
    {
      hide Valid, Inserted;
      if c.fd >= 0 {
        Link(c, nowMs, deadlineMs, armed);
      }
    }

    // ----- arming and cancelling

    /** Only fields of `c` changed, and of an armed one neither link, slot nor deadline. */
    twostate predicate Edited(c: Conn)
      reads this, buckets, conns
    {
      && unchanged(this, buckets) && c in conns && unchanged(conns - {c}) && c.active == old(c.active)
      && (c.active ==>
            && c.fd == old(c.fd) && c.slot == old(c.slot) && c.prev == old(c.prev) && c.next == old(c.next)
            && c.rank == old(c.rank) && c.deadlineMs == old(c.deadlineMs) && c.armedAt == old(c.armedAt))
    }

    twostate lemma EditKeepsLists(c: Conn)
      requires old(ListsOk()) && old(HeadsOk()) && Edited(c)
      ensures ListsOk() && HeadsOk()
    {
      forall d | d in conns && InBucket(d) ensures PrevOk(d) && NextOk(d) {
        assert old(d in conns && InBucket(d) && PrevOk(d) && NextOk(d));
      }
    }

    twostate lemma EditKeepsRest(c: Conn)
      requires old(PendOk()) && old(TimesOk()) && Edited(c)
      ensures PendOk() && TimesOk()
    {
      hide IsPow2;
      forall d | d in conns && InBucket(d) ensures Timely(d) {
        assert old(d in conns && InBucket(d) && Timely(d));
      }
      forall d | d in pend ensures Waiting(d) {
        assert old(Waiting(d));
      }
    }

    /** The wheel does not look at kind and facts, nor at anything of an unlinked connection. */
    twostate lemma HarmlessEdit(c: Conn)
      requires old(Valid()) && Edited(c)
      ensures Valid()
    {
      hide ListsOk, HeadsOk, PendOk, TimesOk;
      EditKeepsLists(c);
      EditKeepsRest(c);
    }

    /** The schedule, the clock and the log may change without touching any list. */
    twostate predicate BooksOnly()
      reads this, buckets, conns
    {
      && unchanged(this`nowTick, this`conns, this`pend, this`cur, this`nextRank)
      && unchanged(buckets) && unchanged(conns)
    }

    twostate lemma BooksKeepLists()
      requires old(ListsOk()) && old(HeadsOk()) && BooksOnly()
      ensures ListsOk() && HeadsOk()
    {
      forall d | d in conns && InBucket(d) ensures PrevOk(d) && NextOk(d) {
        assert old(d in conns && InBucket(d) && PrevOk(d) && NextOk(d));
      }
    }

    twostate lemma BooksKeepRest()
      requires old(PendOk()) && old(TimesOk()) && BooksOnly()
      requires forall i :: 0 <= i < |fired| ==> FiredOk(fired[i])
      ensures PendOk() && TimesOk()
    {
      hide IsPow2;
      forall d | d in conns && InBucket(d) ensures Timely(d) {
        assert old(d in conns && InBucket(d) && Timely(d));
      }
      forall d | d in pend ensures Waiting(d) {
        assert old(Waiting(d));
      }
    }

    twostate lemma BooksKeepValid()
      requires old(Valid()) && BooksOnly()
      requires fired == old(fired) || (|fired| > 0 && fired[..|fired| - 1] == old(fired) && FiredOk(fired[|fired| - 1]))
      ensures Valid()
    {
      assert old(TimesOk());
      forall i | 0 <= i < |fired| ensures FiredOk(fired[i]) {
        assert i < |old(fired)| ==> fired[i] == old(fired)[i];
      }
      hide ListsOk, HeadsOk, PendOk, TimesOk;
      BooksKeepLists();
      BooksKeepRest();
    }

    method SetKind(c: Conn, kind: DeadlineKind)
      requires Valid() && c in conns
      modifies c`kind
      ensures Valid() && c.kind == kind
    {
      hide Valid;
      c.kind := kind;
      HarmlessEdit(c);
    }

    /** Keeps a connection's timer in step with its state: one deadline, the one now wanted. */
    method Reschedule(c: Conn, nowMs: nat)
      requires Idle() && c in conns && clock <= nowMs
      modifies this`nextRank, this`clock, buckets, conns
      ensures Idle() && clock == nowMs && OthersKept(c)
      ensures c.fd == old(c.fd) && c.facts == old(c.facts)
      ensures var (kind, at) := Wanted(c.fd, c.facts, timeouts);
        && c.kind == kind
        && (c.active <==> at != 0)
        && (c.active ==> c.deadlineMs == at && c.armedAt == nowMs)
    {
      hide Valid, Unlinked, Inserted, State, TickTime;
      var (kind, at) := Wanted(c.fd, c.facts, timeouts);
      SetKind(c, kind);
      if c.active {
        Unlink(c);
      }
      if at != 0 {
        Insert(c, nowMs, at, nowMs);
      }
      SetClock(nowMs);
    }

    ghost method SetClock(nowMs: nat)
      requires Valid()
      modifies this`clock
      ensures Valid() && clock == nowMs
    {
      hide Valid;
      clock := nowMs;
      BooksKeepValid();
    }

    method Cancel(c: Conn)
      requires Valid() && c in conns && c !in pend
      modifies buckets, conns
      ensures Valid() && OthersKept(c)
      ensures !c.active && c.kind == NoKind && c.deadlineMs == 0
      ensures c.fd == old(c.fd) && c.facts == old(c.facts)
    {
      hide Valid, Unlinked;
      if c.active {
        Unlink(c);
      }
      ClearDeadline(c);
    }

    method ClearDeadline(c: Conn)
      requires Valid() && c in conns && !c.active
      modifies c`kind, c`deadlineMs
      ensures Valid() && c.kind == NoKind && c.deadlineMs == 0
    {
      hide Valid;
      c.kind := NoKind;
      c.deadlineMs := 0;
      HarmlessEdit(c);
    }

    method Edit(c: Conn, fd: int, facts: Facts)
      requires Valid() && c in conns && !c.active
      modifies c`fd, c`facts
      ensures Valid() && c.fd == fd && c.facts == facts
    {
      hide Valid;
      c.fd := fd;
      c.facts := facts;
      HarmlessEdit(c);
    }

    /**
     Closing as the wheel sees it: the deadline is cancelled first and the descriptor dropped
     in the same call, so a closed connection is in no bucket.  `staged` reports that a close
     operation was queued; whether the queue has room is the environment's choice.
     */
    method ScheduleClose(c: Conn) returns (staged: bool)
      requires Valid() && c in conns && c !in pend
      modifies buckets, conns
      ensures Valid() && OthersKept(c)
      ensures !c.active && c.fd < 0 && c.kind == NoKind
      ensures c.facts == old(c.facts).(closing := true, abortiveClose := false)
      ensures staged ==>
        old(c.fd) >= 0 && old(c.kind) !in {InitialIdle, KaIdle, Drain} && !old(c.facts).abortiveClose
    {
      hide Valid;
      var kind, abortive := c.kind, c.facts.abortiveClose;
      Cancel(c);
      var gone := c.fd < 0;
      Edit(c, if gone then c.fd else -1, c.facts.(abortiveClose := false, closing := true));
      if gone || kind in {InitialIdle, KaIdle, Drain} || abortive {
        return false;
      }
      staged := *;
    }

    // ----- the tick

    /** The clock has reached tick `nowTick - 1`; the tick in progress counts as passed. */
    ghost predicate Ticking(nowMs: nat)
      reads this
    {
      TickTime(startMs, tickMs, nowTick) <= nowMs + tickMs
    }

    /** The deadline of `c` expired and did what it has to. */
    twostate predicate Expired(c: Conn, nowMs: nat)
      reads c
    {
      Expires(old(TimerOf(c)), TimerOf(c), timeouts, nowMs)
    }

    /** An expired deadline: close, or answer 408 and close after it; then the next deadline. */
    method Fire(c: Conn, nowMs: nat)
      requires Valid() && c in conns && !c.active && c !in pend && c.fd >= 0 && Ticking(nowMs)
      modifies this`nextRank, buckets, conns
      ensures Valid() && OthersKept(c) && Expired(c, nowMs)
    {
      hide Valid, Inserted, Wanted, TickTime;
      var alive := true;
      match c.kind {
        case WriteTimeout =>
          Edit(c, c.fd, c.facts.(abortiveClose := true));
          alive := ScheduleClose(c);
        case Drain => alive := ScheduleClose(c);
        case KaIdle => alive := ScheduleClose(c);
        case InitialIdle => alive := ScheduleClose(c);
        case HeaderTimeout => alive := Answer408(c);
        case BodyTimeout => alive := Answer408(c);
        case NoKind =>
      }
      if alive {
        Rearm(c, nowMs);
      }
    }

    method Rearm(c: Conn, nowMs: nat)
      requires Valid() && c in conns && !c.active && c !in pend && Ticking(nowMs)
      modifies this`nextRank, buckets, conns
      ensures Valid() && OthersKept(c) && c.fd == old(c.fd) && c.facts == old(c.facts) && Rearmed(TimerOf(c), timeouts, nowMs)
    {
      hide Valid, Inserted, State, TickTime;
      var (kind, at) := Wanted(c.fd, c.facts, timeouts);
      SetKind(c, kind);
      if at != 0 {
        Insert(c, nowMs, at, nowMs);
      }
    }

    method Answer408(c: Conn) returns (alive: bool)
      requires Valid() && c in conns && !c.active && c !in pend && c.fd >= 0
      modifies buckets, conns
      ensures Valid() && OthersKept(c) && !c.active
      ensures Gone(old(TimerOf(c)), TimerOf(c)) || (alive && c.fd == old(c.fd) && c.facts == old(c.facts).(closing := true, writePending := true))
    {
      hide Valid;
      var sqe: bool := *;
      if !sqe {
        alive := ScheduleClose(c);
      } else {
        // The response is staged: pending bytes, and the connection closes after it.
        Edit(c, c.fd, c.facts.(closing := true, writePending := true));
        alive := true;
      }
    }

    /** Bucket `s` is cut off and becomes the detached list; the tick counter moves on. */
    twostate predicate CutOff(s: nat)
      reads this, buckets, conns
    {
      && conns == old(conns) && unchanged(conns) && nextRank == old(nextRank) && fired == old(fired)
      && nowTick == old(nowTick) + 1 && slots > 0 && s == old(nowTick) % slots
      && buckets.Length == slots
      && pend == (set c | c in conns && c.active && c.slot == s) && cur == old(buckets[s])
      && (forall t :: 0 <= t < slots ==> buckets[t] == if t == s then null else old(buckets[t]))
    }

    twostate lemma CutKeepsLists(s: nat)
      requires old(ListsOk()) && old(HeadsOk()) && old(pend) == {} && CutOff(s)
      ensures ListsOk() && HeadsOk()
    {
      forall c | c in conns && InBucket(c) ensures PrevOk(c) && NextOk(c) {
        assert old(InBucket(c) && PrevOk(c) && NextOk(c));
      }
    }

    twostate lemma CutMakesPend(s: nat)
      requires old(ListsOk()) && old(HeadsOk()) && old(TimesOk()) && old(pend) == {} && CutOff(s)
      ensures PendOk()
    {
      forall c | c in pend ensures Waiting(c) {
        assert old(InBucket(c) && PrevOk(c) && NextOk(c) && Timely(c));
        VisitIsFirst(s, old(nowTick), slots, old(nowTick));
      }
      if cur == null && pend != {} {
        var c :| c in pend;
        assert old(c in conns && InBucket(c) && PrevOk(c));
        CutHead(c);
      }
    }

    twostate lemma CutHead(c: Conn)
      requires old(ListsOk()) && old(c in conns && InBucket(c))
      ensures old(c.slot) < slots && buckets.Length == slots && old(buckets[c.slot]) != null
      decreases old(nextRank - c.rank)
    {
      assert old(PrevOk(c));
      if old(c.prev) != null {
        CutHead(old(c.prev));
      }
    }

    twostate lemma CutKeepsTimes(s: nat)
      requires old(ListsOk()) && old(TimesOk()) && old(pend) == {} && CutOff(s)
      ensures TimesOk()
    {
      forall c | c in conns && InBucket(c) ensures Timely(c) {
        assert old(InBucket(c) && PrevOk(c) && Timely(c));
        VisitStays(c.slot, old(nowTick), slots);
      }
    }

    /** The head of the detached list is taken off it. */
    twostate predicate TakenOff(c: Conn)
      reads this, buckets, conns
    {
      && unchanged(this`nowTick, this`nextTickMs, this`conns, this`nextRank, this`clock, this`fired)
      && c in conns && unchanged(conns - {c}) && unchanged(buckets)
      && c == old(cur) && cur == old(c.next) && pend == old(pend) - {c} && !c.active
    }

    /** From any waiting connection the detached list leads back to its head. */
    twostate lemma LeadsToCur(c: Conn)
      requires old(PendOk() && c in pend && c != cur)
      ensures old(cur) != null && old(cur.next) != null && old(cur.rank > c.rank)
      decreases old(nextRank - c.rank)
    {
      assert old(Waiting(c));
      if old(c.prev != cur) {
        LeadsToCur(old(c.prev));
      }
    }

    twostate lemma TakeKeepsPend(c: Conn)
      requires old(PendOk()) && TakenOff(c)
      ensures PendOk()
    {
      forall d | d in pend ensures Waiting(d) {
        assert old(Waiting(d));
        LeadsToCur(d);
      }
      if cur == null && pend != {} {
        var d :| d in pend;
        LeadsToCur(d);
      }
    }

    twostate lemma TakeKeepsRest(c: Conn)
      requires old(Valid()) && TakenOff(c)
      ensures ListsOk() && HeadsOk() && TimesOk()
    {
      hide IsPow2;
      forall d | d in conns && InBucket(d) ensures PrevOk(d) && NextOk(d) && Timely(d) {
        assert old(d in conns && InBucket(d) && PrevOk(d) && NextOk(d) && Timely(d));
      }
    }

    method CutBucket() returns (first: Conn?)
      requires Idle()
      modifies this`nowTick, this`pend, this`cur, buckets
      ensures Valid() && cur == first && nowTick == old(nowTick) + 1 && slots > 0
      ensures pend == set c | c in conns && c.active && c.slot == old(nowTick) % slots
    {
      hide ListsOk, HeadsOk, PendOk, TimesOk;
      var s := CurrentSlot();
      first := buckets[s];
      buckets[s] := null;
      nowTick := nowTick + 1;
      pend := set c | c in conns && c.active && c.slot == s;
      cur := first;
      CutKeepsLists(s);
      CutMakesPend(s);
      CutKeepsTimes(s);
    }

    method CurrentSlot() returns (s: nat)
      requires TimesOk() && HeadsOk()
      ensures slots > 0 && s == nowTick % slots && s < slots == buckets.Length
    {
      s := And(nowTick, slots - 1);
      ghost var k: nat :| slots == Pow2(k);
      MaskIsMod(nowTick, k);
    }

    method Take(c: Conn) returns (next: Conn?)
      requires Valid() && cur == c
      modifies this`pend, this`cur, c`next, c`prev, c`active
      ensures Valid() && cur == next && pend == old(pend) - {c} && |pend| < |old(pend)|
      ensures c in conns && !c.active && c !in pend && next == old(c.next) && c.prev == null && c.next == null
    {
      hide ListsOk, HeadsOk, TimesOk, PendOk;
      HeadIsDue();
      next := c.next;
      c.next := null;
      c.prev := null;
      c.active := false;
      pend := pend - {c};
      cur := next;
      TakeKeepsPend(c);
      TakeKeepsRest(c);
    }

    /** What the waiting connections were promised when they were armed. */
    lemma HeadIsDue()
      requires PendOk() && cur != null
      ensures cur in conns && cur in pend && nowTick > 0 && cur.active && cur.fd >= 0
      ensures TickTime(startMs, tickMs, nowTick - 1) <= Max(cur.deadlineMs, cur.armedAt) + tickMs
    {
      assert Waiting(cur);
    }

    ghost method Record(f: Firing)
      requires Valid() && FiredOk(f)
      modifies this`fired
      ensures Valid() && fired == old(fired) + [f]
    {
      hide Valid;
      fired := fired + [f];
      BooksKeepValid();
    }

    /** The connections of the next tick's bucket whose time has come. */
    ghost function Due(nowMs: nat): (due: set<Conn>)
      reads this, conns
    {
      set d | d in conns && slots > 0 && d.active && d.slot == nowTick % slots && d.deadlineMs <= nowMs
    }

    ghost function Timers(): (m: map<Conn, Timer>)
      reads this, conns
    {
      map d | d in conns :: TimerOf(d)
    }

    /** Takes one connection off the detached list and fires it or puts it back. */
    method Visit(c: Conn, nowMs: nat, ghost tickAt: nat) returns (next: Conn?)
      requires Valid() && cur == c && c in conns && c in pend && c.active && c.fd >= 0 && Ticking(nowMs)
      requires tickAt <= Max(c.deadlineMs, c.armedAt) + tickMs
      modifies this`nextRank, this`pend, this`cur, this`fired, buckets, conns
      ensures Valid() && cur == next && pend == old(pend) - {c} && |pend| < |old(pend)| && OthersKept(c)
      ensures nowMs < old(c.deadlineMs) ==> Kept(c) && fired == old(fired)
      ensures nowMs >= old(c.deadlineMs) ==>
        Expired(c, nowMs) && fired == old(fired) + [FiringOf(c, old(TimerOf(c)), tickAt, nowMs)]
    {
      hide Valid, Inserted, TickTime, Wanted;
      next := Take(c);
      if nowMs >= c.deadlineMs {
        Record(FiringOf(c, TimerOf(c), tickAt, nowMs));
        Fire(c, nowMs);
      } else {
        Insert(c, nowMs, c.deadlineMs, c.armedAt);
      }
    }

    lemma TimersAt(c: Conn)
      requires c in conns
      ensures Timers().Keys == conns && Timers()[c] == TimerOf(c)
    {
    }

    twostate lemma TimersAfter(c: Conn)
      requires OthersKept(c) && c in conns
      ensures Timers() == old(Timers())[c := TimerOf(c)]
    {
      hide TimerOf;
    }

    /** One visit of a tick in progress, with the log of the tick so far. */
    method VisitMidway(c: Conn, nowMs: nat, ghost tickAt: nat,
                       ghost was: map<Conn, Timer>, ghost due: set<Conn>, ghost log: seq<Firing>)
      returns (next: Conn?, ghost more: seq<Firing>)
      requires Valid() && cur == c && Ticking(nowMs) && nowTick > 0 && tickAt == TickTime(startMs, tickMs, nowTick - 1)
      requires Midway(was, Timers(), pend, due, timeouts, nowMs) && LogsOnce(log, due - pend, was, tickAt, nowMs)
      modifies this`nextRank, this`pend, this`cur, this`fired, buckets, conns
      ensures Valid() && cur == next && conns == old(conns) && |pend| < |old(pend)|
      ensures Midway(was, Timers(), pend, due, timeouts, nowMs) && LogsOnce(more, due - pend, was, tickAt, nowMs)
      ensures log <= more && fired == old(fired) + more[|log|..]
    {
      hide Valid, TickTime, Expires, LogsOnce, Midway, Timers, OthersKept;
      PendOfValid();
      HeadIsDue();
      TimersAt(c);
      ghost var before := pend;
      next := Visit(c, nowMs, tickAt);
      TimersAfter(c);
      more := MidwayStep(was, old(Timers()), before, due, timeouts, nowMs, c, TimerOf(c), log, tickAt);
    }

    /**
     One tick: the current bucket is cut off and every connection of it is visited once.
     An expired one fires, once; one that is early goes back, possibly into the same bucket;
     no other connection is touched.
     */
    method ProcessTick(nowMs: nat)
      requires Idle() && nextTickMs <= nowMs
      modifies this`nowTick, this`nextRank, this`pend, this`cur, this`fired, buckets, conns
      ensures Valid() && KindsOk() && pend == {} && cur == null && nowTick == old(nowTick) + 1
      ensures conns == old(conns) && old(fired) <= fired
      ensures forall d :: d in conns ==> if d in old(Due(nowMs)) then Expired(d, nowMs) else Kept(d)
      ensures LogsOnce(fired[|old(fired)|..], old(Due(nowMs)), old(Timers()), old(nextTickMs), nowMs)
    {
      hide Valid, TickTime, Expires, LogsOnce, Midway, Timers, KindsOk, Due;
      ghost var due, was, tickAt := Due(nowMs), Timers(), nextTickMs;
      ghost var log := [];
      TickTimeNext();
      KindsBefore();
      var c := BeginTick(nowMs);
      LogsNothing(was, tickAt, nowMs);
      while c != null
        invariant Valid() && cur == c && nowTick == old(nowTick) + 1 && conns == old(conns)
        invariant tickAt == TickTime(startMs, tickMs, nowTick - 1) && Ticking(nowMs)
        invariant Midway(was, Timers(), pend, due, timeouts, nowMs) && LogsOnce(log, due - pend, was, tickAt, nowMs)
        invariant fired == old(fired) + log
        decreases |pend|
      {
        c, log := VisitMidway(c, nowMs, tickAt, was, due, log);
      }
      PendOfValid();
      assert due - pend == due && fired[|old(fired)|..] == log;
      KindsAfter(was, due, nowMs);
      TickDone(nowMs);
    }

    /** Cuts off the bucket; everything due in this tick is on the detached list. */
    method BeginTick(nowMs: nat) returns (first: Conn?)
      requires Idle()
      modifies this`nowTick, this`pend, this`cur, buckets
      ensures Valid() && cur == first && nowTick == old(nowTick) + 1
      ensures Timers() == old(Timers()) && old(Due(nowMs)) - pend == {}
      ensures Midway(Timers(), Timers(), pend, old(Due(nowMs)), timeouts, nowMs)
    {
      hide Valid, Midway, TickTime;
      ghost var due := Due(nowMs);
      first := CutBucket();
      TimersStay();
      assert due <= pend;
      MidwayStart(due, nowMs);
    }

    twostate lemma TimersStay()
      requires conns == old(conns) && unchanged(conns)
      ensures Timers() == old(Timers())
    {
    }

    lemma KindsBefore()
      requires KindsOk()
      ensures forall d :: d in Timers() && Timers()[d].active ==> Timers()[d].kind != NoKind
    {
    }

    lemma MidwayStart(due: set<Conn>, nowMs: nat)
      requires pend <= conns && due <= pend
      requires forall d :: d in pend ==> d.active && (d in due <==> d.deadlineMs <= nowMs)
      ensures Midway(Timers(), Timers(), pend, due, timeouts, nowMs)
    {
    }

    lemma KindsAfter(was: map<Conn, Timer>, due: set<Conn>, nowMs: nat)
      requires Midway(was, Timers(), {}, due, timeouts, nowMs)
      requires forall d :: d in was && was[d].active ==> was[d].kind != NoKind
      ensures KindsOk()
    {
      hide Expires;
      forall d | d in conns && d.active ensures d.kind != NoKind {
        TimersAt(d);
        if d in due {
          ExpiresToClosing(was[d], TimerOf(d), timeouts, nowMs);
        }
      }
    }

    twostate lemma TickDone(nowMs: nat)
      requires conns == old(conns) && Midway(old(Timers()), Timers(), {}, old(Due(nowMs)), timeouts, nowMs)
      ensures forall d :: d in conns ==> if d in old(Due(nowMs)) then Expired(d, nowMs) else Kept(d)
    {
      hide Expires, TimerOf, Due;
      forall d | d in conns ensures if d in old(Due(nowMs)) then Expired(d, nowMs) else Kept(d) {
        assert Timers()[d] == TimerOf(d) && old(Timers())[d] == old(TimerOf(d));
      }
    }

    lemma PendOfValid()
      requires Valid()
      ensures PendOk()
    {
    }

    lemma TickTimeNext()
      ensures TickTime(startMs, tickMs, nowTick + 1) == TickTime(startMs, tickMs, nowTick) + tickMs
    {
      assert (nowTick + 2) * tickMs == (nowTick + 1) * tickMs + tickMs;
    }

    /** Its deadline had come and is in the log; the connection is closed, or closes after its 408. */
    twostate predicate Ended(d: Conn, nowMs: nat)
      reads this, d
    {
      && old(fired) <= fired && old(d.active) && old(d.deadlineMs) <= nowMs && d.facts.closing
      && (old(d.kind) !in {HeaderTimeout, BodyTimeout} ==> d.fd < 0 && !d.active)
      && LoggedAs(fired[|old(fired)|..], d, old(d.kind), old(d.deadlineMs), old(d.armedAt))
    }

    method NextTick(nowMs: nat)
      requires Idle() && nextTickMs <= nowMs && clock == nowMs
      modifies this`nowTick, this`nextTickMs, this`nextRank, this`pend, this`cur, this`fired, buckets, conns
      ensures Idle() && conns == old(conns) && nextTickMs == old(nextTickMs) + tickMs && tickMs > 0
      ensures old(fired) <= fired
      ensures forall d :: d in conns ==> Kept(d) || Ended(d, nowMs)
      ensures forall i :: |old(fired)| <= i < |fired| ==>
        fired[i].conn in conns && fired[i].clockMs == nowMs && fired[i].tickAt == old(nextTickMs)
    {
      hide Valid, TickTime, Expires;
      ghost var due := Due(nowMs);
      TickTimeNext();
      HasTicks();
      ProcessTick(nowMs);
      ghost var log := fired[|old(fired)|..];
      forall i | |old(fired)| <= i < |fired| ensures fired[i] == log[i - |old(fired)|] {
      }
      forall d | d in conns && d in due ensures d.facts.closing
        && (old(d.kind) !in {HeaderTimeout, BodyTimeout} ==> d.fd < 0 && !d.active)
      {
        ExpiresToClosing(old(TimerOf(d)), TimerOf(d), timeouts, nowMs);
      }
      Advance();
    }

    /**
     The sweep runs every tick that is due by `nowMs` with that one clock reading.  A connection
     keeps its deadline untouched, or that deadline had come and was fired; afterwards none is
     overdue by a tick past the later of its deadline and the time it was armed.
     */
    method Sweep(nowMs: nat)
      requires Idle() && clock <= nowMs
      modifies this`nowTick, this`nextTickMs, this`nextRank, this`pend, this`cur, this`fired, this`clock, buckets, conns
      ensures Idle() && conns == old(conns) && clock == nowMs && nextTickMs > nowMs
      ensures forall d :: d in conns ==> Kept(d) || Ended(d, nowMs)
      ensures forall d :: d in conns && old(d.active) && nowMs < old(d.deadlineMs) ==> Kept(d)
      ensures forall d :: d in conns && old(d.active) && nowMs >= Max(old(d.deadlineMs), old(d.armedAt)) + tickMs ==>
        Ended(d, nowMs)
      ensures forall c :: c in conns && c.active ==> nowMs < Max(c.deadlineMs, c.armedAt) + tickMs
      ensures old(fired) <= fired
      ensures forall i :: |old(fired)| <= i < |fired| ==>
        && fired[i].conn in conns
        && fired[i].clockMs == nowMs && fired[i].tickAt <= nowMs
        && fired[i].deadlineMs <= nowMs
        && fired[i].tickAt <= Max(fired[i].deadlineMs, fired[i].armedAt) + tickMs
    {
      hide Valid, TickTime, LoggedAs;
      SetClock(nowMs);
      while nextTickMs <= nowMs
        invariant Idle() && clock == nowMs && conns == old(conns)
        invariant old(fired) <= fired
        invariant forall d :: d in conns ==> Kept(d) || Ended(d, nowMs)
        invariant forall i :: |old(fired)| <= i < |fired| ==>
          fired[i].conn in conns && fired[i].clockMs == nowMs && fired[i].tickAt <= nowMs
        decreases nowMs + tickMs - nextTickMs
      {
        ghost var before, ended := fired, set d | d in conns && Ended(d, nowMs);
        ghost var gone := set d | d in conns && d.fd < 0 && !d.active;
        label Tick:
        NextTick(nowMs);
        ghost var log, more := before[|old(fired)|..], fired[|before|..];
        assert fired[|old(fired)|..] == [] + log + more && fired[|old(fired)|..] == log + more + [];
        forall d | d in conns ensures Kept(d) || Ended(d, nowMs) {
          if d in ended {
            StaysLogged([], log, more, d, old(d.kind), old(d.deadlineMs), old(d.armedAt));
            assert d in gone ==> Kept@Tick(d);
          } else if !Kept@Tick(d) {
            StaysLogged(log, more, [], d, old(d.kind), old(d.deadlineMs), old(d.armedAt));
          }
        }
      }
      NoneIsLate();
    }

    // ----- a head that arrives byte by byte

    /** More of the head has come in: the facts change, the deadline is not touched. */
    method Hear(c: Conn, lastActiveMs: nat, parserBytes: nat)
      requires Idle() && c in conns
      modifies c`facts
      ensures Idle() && c.facts == old(c.facts).(lastActiveMs := lastActiveMs, parserBytes := parserBytes)
    {
      hide Valid, TickTime;
      c.facts := c.facts.(lastActiveMs := lastActiveMs, parserBytes := parserBytes);
      HarmlessEdit(c);
    }

    /**
     However often more of a head arrives, its deadline stays where the first byte put it: with
     sweeps in between or not, a sweep a tick past that deadline, and past the last time the timer
     was set, has ended the connection.
     */
    method TrickledHead(c: Conn, moments: seq<Moment>, nowMs: nat)
      requires Idle() && c in conns && ReadingHead(c.fd, c.facts) && c.facts.headerStartMs + timeouts.headerMs > 0
      requires InOrder(clock, moments, nowMs) && moments != [] && moments[0].Heard?
      modifies this`nowTick, this`nextTickMs, this`nextRank, this`pend, this`cur, this`fired, this`clock, buckets, conns
      ensures Idle() && conns == old(conns)
      ensures var due := old(c.facts.headerStartMs) + timeouts.headerMs;
        && (nowMs >= Max(due, LastHeard(moments)) + tickMs ==> c.facts.closing)
        && (AllHeardBy(moments, due) && nowMs >= due + tickMs ==> c.facts.closing)
    {
      hide Valid, TickTime, Wanted;
      ghost var start := c.facts.headerStartMs;
      var i := 0;
      while i < |moments|
        invariant i <= |moments| && Idle() && conns == old(conns)
        invariant InOrder(clock, moments[i..], nowMs)
        invariant c.facts.closing || (ReadingHead(c.fd, c.facts) && c.facts.headerStartMs == start)
        invariant i > 0 && !c.facts.closing ==>
          c.active && c.deadlineMs == start + timeouts.headerMs && c.armedAt == LastHeard(moments[..i])
      {
        assert moments[..i + 1] == moments[..i] + [moments[i]];
        assert moments[i..][1..] == moments[i + 1..];
        match moments[i] {
          case Heard(at, lastActiveMs, more) =>
            if !c.facts.closing {
              HeadDeadlineStays(c.fd, c.facts, timeouts, lastActiveMs, c.facts.parserBytes + more);
              Hear(c, lastActiveMs, c.facts.parserBytes + more);
              Reschedule(c, at);
            } else {
              SetClock(at);
            }
          case Swept(at) =>
            Sweep(at);
        }
        i := i + 1;
      }
      assert moments[..i] == moments;
      HeardBy(moments, start + timeouts.headerMs);
      Sweep(nowMs);
    }

    method Advance()
      requires Valid()
      modifies this`nextTickMs
      ensures Valid() && nextTickMs == old(nextTickMs) + tickMs
    {
      hide Valid;
      nextTickMs := nextTickMs + tickMs;
      BooksKeepValid();
    }

    lemma HasTicks()
      requires Valid()
      ensures tickMs > 0
    {
    }

    lemma NoneIsLate()
      requires Idle()
      ensures forall c :: c in conns && c.active ==> nextTickMs <= Max(c.deadlineMs, c.armedAt) + tickMs
      ensures forall i :: 0 <= i < |fired| ==> FiredOk(fired[i])
    {
      forall c | c in conns && c.active ensures nextTickMs <= Max(c.deadlineMs, c.armedAt) + tickMs {
        assert InBucket(c) && Timely(c);
        ScaleLe(nowTick + 1, VisitTick(c.slot, nowTick, slots) + 1, tickMs);
      }
    }

    // ----- the buckets as lists

    /** The bucket read from `c` on by following the forward links. */
    ghost function Chain(c: Conn?): (l: seq<Conn>)
      requires ListsOk() && (c != null ==> c in conns && InBucket(c))
      reads this, buckets, conns
      decreases if c == null then 0 else c.rank + 1
    {
      if c == null then [] else
        assert NextOk(c);
        [c] + Chain(c.next)
    }

    /** Following the links stays in one bucket, with falling ranks. */
    lemma ChainFalls(c: Conn?)
      requires ListsOk() && (c != null ==> c in conns && InBucket(c))
      ensures forall d :: d in Chain(c) ==> c != null && InBucket(d) && d.slot == c.slot && d.rank <= c.rank
      decreases if c == null then 0 else c.rank + 1
    {
      if c != null {
        assert NextOk(c);
        ChainFalls(c.next);
      }
    }

    /** Following the links visits each connection once, and the back links match. */
    lemma ChainIsList(c: Conn?)
      requires ListsOk() && (c != null ==> c in conns && InBucket(c))
      ensures NoDup(Chain(c))
      ensures forall i :: 0 < i < |Chain(c)| ==>
        Chain(c)[i].prev == Chain(c)[i - 1] && Chain(c)[i - 1].next == Chain(c)[i]
      decreases if c == null then 0 else c.rank + 1
    {
      if c != null {
        assert NextOk(c);
        hide ListsOk;
        ChainIsList(c.next);
        ChainFalls(c.next);
        var rest := Chain(c.next);
        assert c !in rest;
        assert Chain(c) == [c] + rest;
      }
    }

    lemma ChainGoesOn(h: Conn, c: Conn)
      requires ListsOk() && h in conns && InBucket(h) && c in conns && InBucket(c)
      requires c in Chain(h) && c.next != null
      ensures c.next in Chain(h)
      decreases h.rank
    {
      assert NextOk(h);
      if c != h {
        ChainGoesOn(h.next, c);
      }
    }

    /** Every armed connection is in the list of its own bucket. */
    lemma ArmedIsListed(c: Conn)
      requires ListsOk() && HeadsOk() && c in conns && InBucket(c)
      ensures c.slot < slots && buckets[c.slot] != null && c in Chain(buckets[c.slot])
      decreases nextRank - c.rank
    {
      assert PrevOk(c);
      if c.prev != null {
        ArmedIsListed(c.prev);
        ChainGoesOn(buckets[c.slot], c.prev);
      }
    }

    /**
     Between ticks a connection is armed exactly when it is in the list of bucket `slot`,
     and in no other; a closed one is in none.
     */
    lemma ArmedIffListed(c: Conn, s: nat)
      requires Idle() && c in conns && s < slots
      ensures c in Chain(buckets[s]) <==> c.active && c.slot == s
      ensures c.fd < 0 ==> c !in Chain(buckets[s])
    {
      if buckets[s] != null {
        ChainFalls(buckets[s]);
      }
      if c.active {
        ArmedIsListed(c);
        assert PrevOk(c);
      }
    }
  }
}
