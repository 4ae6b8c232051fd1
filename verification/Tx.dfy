/**
 Sending a response: header bytes through an asynchronous send, then the file body through
 sendfile, resuming after partial results and after the socket was full.
 */
module Tx {
  import opened Kernel
  import opened Options

  const MAX_SENDFILE_CHUNK := 0x10_0000

  datatype RespKind = NoResponse | Ok | Error431 | Error503 | Other
  datatype IoKind = Headers | Sendfile
  datatype Decision = Noop | SendHeaders | StartSendfile | ResumeSendfile | ArmPollout
                    | ShutWrAndRead | DoneKeepalive | DoneClose | ErrorClose

  /** The transmit fields of a connection; a response body in a file has `fd >= 0`. */
  datatype State = State(
    buf: Option<string>, off: nat, kind: RespKind, keepalive: bool, drain: bool,
    fd: int, rem: nat, fileOff: nat)

  const IDLE := State(None, 0, NoResponse, false, false, -1, 0, 0)

  // ----- decisions ----------------------------------------------------------------------------

  predicate FileActive(s: State) {
    s.fd >= 0 && s.rem > 0
  }

  function Done(s: State): (d: Decision) {
    if s.keepalive then DoneKeepalive else DoneClose
  }

  predicate IsDone(d: Decision) {
    d == DoneKeepalive || d == DoneClose
  }

  function CloseFile(s: State): (r: State) {
    s.(fd := if s.fd >= 0 then -1 else s.fd, rem := 0, fileOff := 0)
  }

  function Attach(s: State, fd: int, offset: nat, length: nat): (r: Option<State>) {
    if fd < 0 || length == 0 then None
    else Some(s.(fd := fd, rem := length, fileOff := offset))
  }

  function BeginHeaders(s: State, kind: RespKind, buf: string, keepalive: bool, drain: bool): (r: (State, Decision)) {
    if buf == "" then (s, ErrorClose)
    else (s.(kind := kind, buf := Some(buf), off := 0, keepalive := keepalive, drain := drain), SendHeaders)
  }

  function Discard(s: State): (r: State) {
    s.(buf := None, off := 0)
  }

  /** The header bytes not yet acknowledged. */
  function Pending(s: State): (r: Option<string>)
    ensures r.Some? <==> s.buf.Some? && s.off < |s.buf.value|
  {
    if s.buf.None? || s.buf.value == "" || s.off >= |s.buf.value| then None else Some(s.buf.value[s.off..])
  }

  function OnIoResult(s: State, io: IoKind, sent: int): (r: (State, Decision)) {
    if sent == 0 then (s, ErrorClose)
    else if sent < 0 then
      (s, if sent == -EAGAIN then ArmPollout else if io == Sendfile && sent == -EINTR then Noop else ErrorClose)
    else if io == Headers then
      if s.buf.None? || s.buf.value == "" then (s, ErrorClose)
      else
        var t := s.(off := s.off + sent);
        (t, if t.off < |s.buf.value| then SendHeaders
            else if s.drain then ShutWrAndRead
            else if FileActive(s) then StartSendfile
            else Done(s))
    else if s.rem == 0 then (s, Done(s))
    else
      var t := s.(rem := if sent > s.rem then 0 else s.rem - sent);
      (t, if t.rem > 0 then ResumeSendfile else Done(s))
  }

  function OnPollout(s: State): (d: Decision) {
    if FileActive(s) && (s.buf.None? || s.off >= |s.buf.value|) then ResumeSendfile
    else if s.kind != NoResponse && Pending(s).Some? then SendHeaders
    else Noop
  }

  function NextChunk(s: State): (n: nat)
    ensures n <= s.rem && n <= MAX_SENDFILE_CHUNK && (n == s.rem || n == MAX_SENDFILE_CHUNK)
  {
    if s.rem == 0 then 0 else if s.rem > MAX_SENDFILE_CHUNK then MAX_SENDFILE_CHUNK else s.rem
  }

  predicate SameFlags(a: State, b: State) {
    b.kind == a.kind && b.keepalive == a.keepalive && b.drain == a.drain
  }

  // ----- one response, with what the peer has -----------------------------------------------------

  /**
   A response being sent: its header bytes, the stretch of the file that is its body, and the
   bytes the kernel has acknowledged.
   */
  datatype Transfer = Transfer(s: State, head: string, file: string, start: nat, len: nat, wire: string, over: bool)

  /** The whole response. */
  function Whole(t: Transfer): (w: string)
    requires t.start + t.len <= |t.file|
  {
    t.head + t.file[t.start..t.start + t.len]
  }

  /** Headers first: a prefix of the head while the buffer is there, then the file in order. */
  predicate Consistent(t: Transfer) {
    && t.head != "" && t.start + t.len <= |t.file|
    && (t.s.buf.Some? ==>
          && t.s.buf.value == t.head && t.s.off <= |t.head| && t.wire == t.head[..t.s.off]
          && (!t.over ==> t.s.off < |t.head|)
          && t.s.rem == t.len && (FileActive(t.s) <==> t.len > 0) && (t.len > 0 ==> t.s.fileOff == t.start))
    && (t.s.buf.None? ==>
          && t.s.fd >= 0 && !t.s.drain && t.s.fileOff + t.s.rem == t.start + t.len && t.start <= t.s.fileOff
          && t.wire == t.head + t.file[t.start..t.s.fileOff])
  }

  /** What the kernel reports: a send finished, one sendfile call returned, the socket is writable. */
  datatype Event = SendDone(res: int) | FileStep(res: int) | Writable

  /** The kernel acknowledges no more than it was offered, and reads no further than the file. */
  predicate Enabled(t: Transfer, e: Event) {
    && !t.over
    && match e
       case SendDone(res) => Pending(t.s).Some? && res <= |Pending(t.s).value|
       case FileStep(res) =>
         t.s.buf.None? && FileActive(t.s) && res <= NextChunk(t.s)
       case Writable => true
  }

  function Step(t: Transfer, e: Event): (r: (Transfer, Decision))
    requires Enabled(t, e) && Consistent(t)
  {
    match e
    case SendDone(res) =>
      var (s, d) := OnIoResult(t.s, Headers, res);
      var wire := if res > 0 then t.wire + t.head[t.s.off..t.s.off + res] else t.wire;
      var next := if d == StartSendfile then Discard(s) else s;
      (t.(s := next, wire := wire, over := IsDone(d) || d == ErrorClose || d == ShutWrAndRead), d)
    case FileStep(res) =>
      var read := if res > 0 then t.s.(fileOff := t.s.fileOff + res) else t.s;
      var (s, d) := OnIoResult(read, Sendfile, res);
      var wire := if res > 0 then t.wire + t.file[t.s.fileOff..t.s.fileOff + res] else t.wire;
      (t.(s := s, wire := wire, over := IsDone(d) || d == ErrorClose), d)
    case Writable =>
      (t, OnPollout(t.s))
  }

  lemma HeaderStep(t: Transfer, res: int)
    requires Consistent(t) && Enabled(t, SendDone(res))
    ensures var (u, d) := Step(t, SendDone(res));
      && Consistent(u) && t.wire <= u.wire
      && (IsDone(d) <==> !t.s.drain && u.wire == Whole(t))
      && (d == ShutWrAndRead <==> t.s.drain && u.wire == t.head)
      && (d == StartSendfile ==> u.wire == t.head && FileActive(u.s))
  {
    var (u, d) := Step(t, SendDone(res));
    var off := t.s.off;
    if res > 0 {
      assert t.head[..off] + t.head[off..off + res] == t.head[..off + res];
      assert t.head[..|t.head|] == t.head;
      assert t.file[t.start..t.start] == "";
      assert t.head + "" == t.head;
    }
    assert |u.wire| == (if res > 0 then off + res else off);
    assert t.len > 0 ==> |Whole(t)| > |t.head|;
  }

  /** Behind the headers, all of the response is there exactly when nothing of the file is left. */
  lemma WholeIffNothingLeft(t: Transfer)
    requires Consistent(t) && t.s.buf.None?
    ensures t.s.fd >= 0
    ensures t.wire == Whole(t) <==> t.s.rem == 0
  {
    assert |t.wire| == |t.head| + t.s.fileOff - t.start;
    assert |Whole(t)| == |t.head| + t.len;
  }

  lemma BodyStepFields(t: Transfer, res: int)
    requires Consistent(t) && Enabled(t, FileStep(res))
    ensures var (u, d) := Step(t, FileStep(res));
      && (u.s, d) == OnIoResult(t.s.(fileOff := t.s.fileOff + (if res > 0 then res else 0)), Sendfile, res)
      && u.wire == (if res > 0 then t.wire + t.file[t.s.fileOff..t.s.fileOff + res] else t.wire)
      && u == t.(s := u.s, wire := u.wire, over := IsDone(d) || d == ErrorClose)
      && |u.wire| == |t.wire| + (if res > 0 then res else 0)
      && Whole(u) == Whole(t)
  {
  }

  lemma SendfileResult(s: State, res: int)
    requires s.rem > 0
    ensures OnIoResult(s, Sendfile, res).0 == s.(rem := if res <= 0 then s.rem else if res > s.rem then 0 else s.rem - res)
  {
  }

  lemma BodyStepIsConsistent(t: Transfer, res: int)
    requires Consistent(t) && Enabled(t, FileStep(res))
    ensures var u := Step(t, FileStep(res)).0; Consistent(u) && u.s.buf.None? && t.wire <= u.wire
    ensures Whole(Step(t, FileStep(res)).0) == Whole(t)
  {
    hide Step, OnIoResult;
    BodyStepFields(t, res);
    SendfileResult(t.s.(fileOff := t.s.fileOff + (if res > 0 then res else 0)), res);
    if res > 0 {
      MoreOfTheFile(t.head, t.file, t.start, t.s.fileOff, t.s.fileOff + res);
    }
  }

  lemma MoreOfTheFile(head: string, file: string, a: nat, b: nat, c: nat)
    requires a <= b <= c <= |file|
    ensures head + file[a..b] + file[b..c] == head + file[a..c]
  {
  }

  lemma BodyStep(t: Transfer, res: int)
    requires Consistent(t) && Enabled(t, FileStep(res))
    ensures var (u, d) := Step(t, FileStep(res));
      && Consistent(u) && t.wire <= u.wire
      && (IsDone(d) <==> u.wire == Whole(t))
      && u.s.fileOff + u.s.rem == t.s.fileOff + t.s.rem
      && (d == ResumeSendfile ==> 0 < u.s.rem < t.s.rem)
      && (d == Noop ==> u == t)
  {
    BodyStepIsConsistent(t, res);
    WholeIffNothingLeft(t);
    WholeIffNothingLeft(Step(t, FileStep(res)).0);
    hide Consistent, Whole;
  }

  /**
   One event: what was acknowledged stays a prefix of the response and only grows, the response
   is declared done exactly when all of it is acknowledged, and the file position and what is
   left of the file always make up the same sum.
   */
  lemma StepIsSafe(t: Transfer, e: Event)
    requires Consistent(t) && Enabled(t, e)
    ensures var (u, d) := Step(t, e);
      && Consistent(u) && t.wire <= u.wire <= Whole(t)
      && (IsDone(d) ==> u.wire == Whole(t))
      && (e != Writable && !t.s.drain && u.wire == Whole(t) ==> IsDone(d))
      && (u.s.buf.Some? ==> u.wire <= t.head)
      && u.head == t.head && u.file == t.file && u.start == t.start && u.len == t.len && SameFlags(t.s, u.s)
      && (d == DoneKeepalive ==> t.s.keepalive && !t.s.drain) && (d == DoneClose ==> !t.s.keepalive && !t.s.drain)
      && (d == ShutWrAndRead ==> t.s.drain && u.wire == t.head)
  {
    hide Step;
    SameResponse(t, e);
    EndsByFlags(t, e);
    match e
    case SendDone(res) => HeaderStep(t, res);
    case FileStep(res) => BodyStep(t, res);
    case Writable => WritableStep(t);
    PrefixOfWhole(Step(t, e).0);
  }

  lemma SameResponse(t: Transfer, e: Event)
    requires Consistent(t) && Enabled(t, e)
    ensures var u := Step(t, e).0;
      u.head == t.head && u.file == t.file && u.start == t.start && u.len == t.len && SameFlags(t.s, u.s)
  {
  }

  lemma EndsByFlags(t: Transfer, e: Event)
    requires Consistent(t) && Enabled(t, e)
    ensures var d := Step(t, e).1;
      && (d == DoneKeepalive ==> t.s.keepalive && !t.s.drain) && (d == DoneClose ==> !t.s.keepalive && !t.s.drain)
      && (d == ShutWrAndRead ==> t.s.drain && e.SendDone?)
  {
  }

  lemma WritableStep(t: Transfer)
    requires Consistent(t) && Enabled(t, Writable)
    ensures Step(t, Writable).0 == t && !IsDone(Step(t, Writable).1)
  {
  }

  lemma PrefixOfWhole(t: Transfer)
    requires Consistent(t)
    ensures t.wire <= Whole(t) && (t.s.buf.Some? ==> t.wire <= t.head)
  {
    if t.s.buf.None? {
      MoreOfTheFile(t.head, t.file, t.start, t.s.fileOff, t.start + t.len);
    }
  }

  /** After a full socket the next writable event asks for exactly the bytes still missing. */
  lemma WritableResumes(t: Transfer)
    requires Consistent(t) && t.wire != Whole(t) && !t.over
    ensures t.s.buf.Some? && t.s.kind != NoResponse ==>
      OnPollout(t.s) == SendHeaders && t.wire + Pending(t.s).value == t.head
    ensures t.s.buf.Some? && t.s.kind == NoResponse ==> OnPollout(t.s) == Noop
    ensures t.s.buf.None? ==> OnPollout(t.s) == ResumeSendfile && 0 < NextChunk(t.s) <= t.s.rem
  {
    if t.s.buf.Some? {
      assert t.head[..t.s.off] + t.head[t.s.off..] == t.head;
    }
  }

  // ----- runs -----------------------------------------------------------------------------------

  /** A response just begun, with or without a file behind it. */
  function Begin(kind: RespKind, head: string, keepalive: bool, drain: bool,
                 file: string, fd: int, start: nat, len: nat): (t: Transfer)
    requires head != "" && (len > 0 ==> fd >= 0) && start + len <= |file|
  {
    var s := BeginHeaders(IDLE, kind, head, keepalive, drain).0;
    var a := Attach(s, fd, start, len);
    Transfer(if a.Some? then a.value else s, head, file, start, len, "", false)
  }

  lemma BeginIsConsistent(kind: RespKind, head: string, keepalive: bool, drain: bool,
                          file: string, fd: int, start: nat, len: nat)
    requires head != "" && (len > 0 ==> fd >= 0) && start + len <= |file|
    ensures var t := Begin(kind, head, keepalive, drain, file, fd, start, len);
      && Consistent(t) && t.wire == "" && !t.over && Whole(t) == head + file[start..start + len]
      && t.s.kind == kind && t.s.keepalive == keepalive && t.s.drain == drain
  {
  }

  predicate IsRun(t: Transfer, events: seq<Event>)
    decreases |events|
  {
    events == [] || (Consistent(t) && Enabled(t, events[0]) && IsRun(Step(t, events[0]).0, events[1..]))
  }

  function Run(t: Transfer, events: seq<Event>): (r: (Transfer, Decision))
    requires Consistent(t) && IsRun(t, events) && events != []
    decreases |events|
  {
    var r := Step(t, events[0]);
    if |events| == 1 then r
    else
      StepIsSafe(t, events[0]);
      Run(r.0, events[1..])
  }

  /** Every sequence of results. */
  lemma {:induction false} RunIsSafe(t: Transfer, events: seq<Event>)
    requires Consistent(t) && IsRun(t, events) && events != []
    ensures var (u, d) := Run(t, events);
      && Consistent(u) && t.wire <= u.wire <= Whole(t)
      && (IsDone(d) ==> u.wire == Whole(t))
      && (u.s.buf.None? ==> t.head <= u.wire && u.s.fileOff + u.s.rem == t.start + t.len)
      && u.head == t.head && u.file == t.file && u.start == t.start && u.len == t.len && SameFlags(t.s, u.s)
      && (d == DoneKeepalive ==> t.s.keepalive && !t.s.drain) && (d == DoneClose ==> !t.s.keepalive && !t.s.drain)
      && (d == ShutWrAndRead ==> t.s.drain && u.wire == t.head)
    decreases |events|
  {
    hide Step;
    StepIsSafe(t, events[0]);
    if |events| > 1 {
      RunIsSafe(Step(t, events[0]).0, events[1..]);
    } else {
      assert events[1..] == [];
    }
  }

  /**
   A response from its beginning, whatever the kernel reports: what was sent is a prefix of the
   headers and then the stretch of the file; it is declared done with all of that sent, to keep
   the connection or not as asked; it is shut down half-way only if asked, behind the headers.
   */
  lemma ResponseTheorem(kind: RespKind, head: string, keepalive: bool, drain: bool,
                        file: string, fd: int, start: nat, len: nat, events: seq<Event>)
    requires head != "" && (len > 0 ==> fd >= 0) && start + len <= |file| && events != []
    requires IsRun(Begin(kind, head, keepalive, drain, file, fd, start, len), events)
    ensures
      var t := Begin(kind, head, keepalive, drain, file, fd, start, len);
      var whole := head + file[start..start + len];
      && Consistent(t)
      && var (u, d) := Run(t, events);
         && u.wire <= whole && u.s.kind == kind
         && (IsDone(d) ==> u.wire == whole && !drain && (d == DoneKeepalive <==> keepalive))
         && (d == ShutWrAndRead ==> drain && u.wire == head)
  {
    hide Run, Consistent, IsRun;
    var t := Begin(kind, head, keepalive, drain, file, fd, start, len);
    BeginIsConsistent(kind, head, keepalive, drain, file, fd, start, len);
    RunIsSafe(t, events);
  }

  // ----- the connection's transmit state, in place ------------------------------------------------

  /** What follows a response sent in full: the next request, the end, or reading on half-closed. */
  datatype After = NextRequest | CloseAfter | ShutAfter

  function AfterFull(s: State, draining: bool): (a: After) {
    if draining && s.kind == Error431 then ShutAfter
    else if s.kind == Error503 then CloseAfter
    else if s.keepalive then NextRequest
    else CloseAfter
  }

  /** Kept alive exactly when asked for, unless overloaded or draining an oversized request. */
  ghost predicate EndsAs(a: After, s: State, draining: bool) {
    && (a == NextRequest <==> s.keepalive && s.kind != Error503 && !(draining && s.kind == Error431))
    && (a == ShutAfter <==> draining && s.kind == Error431)
  }

  /** What became of a completion: the rest to send again, a socket to wait for, or an end. */
  datatype Outcome = FullResponse(after: After) | Waiting | Closed | Resend | HalfClosed | Nothing

  /** Does the answer let the sendfile loop go on, as long as bytes are left? */
  predicate GoesOn(answer: int) {
    answer > 0 || answer == -EINTR
  }

  predicate Fails(answer: int) {
    answer <= 0 && answer != -EINTR && answer != -EAGAIN
  }

  /** How many of `rem` file bytes a stretch of sendfile calls took, a chunk at most in each. */
  ghost function Taken(kernel: nat -> int, from: nat, next: nat, rem: nat): (n: nat)
    requires from <= next
    ensures n <= rem
    decreases next
  {
    if from == next then 0
    else
      var before := Taken(kernel, from, next - 1, rem);
      var answer := kernel(next - 1);
      if answer <= 0 then before else before + Least(answer, Least(rem - before, MAX_SENDFILE_CHUNK))
  }

  function Least(a: int, b: int): (m: int) {
    if a < b then a else b
  }

  ghost predicate AllGoOn(kernel: nat -> int, from: nat, next: nat) {
    forall k: nat :: from <= k < next ==> GoesOn(kernel(k))
  }

  class Sender {
    var writeBuf: Option<string>
    var writeOff: nat
    var kind: RespKind
    var keepalive: bool
    var drain: bool
    var fileFd: int
    var fileRem: nat
    var fileOff: nat
    ghost var wire: string

    function Fields(): (s: State)
      reads this
    {
      State(writeBuf, writeOff, kind, keepalive, drain, fileFd, fileRem, fileOff)
    }

    /** This sender in the middle of a given response. */
    ghost predicate Sending(t: Transfer)
      reads this
    {
      t.s == Fields() && t.wire == wire && Consistent(t)
    }

    constructor ()
      ensures Fields() == IDLE && wire == ""
    {
      writeBuf, writeOff, kind, keepalive, drain := None, 0, NoResponse, false, false;
      fileFd, fileRem, fileOff := -1, 0, 0;
      wire := "";
    }

    method CloseAttachedFile() returns (closed: bool)
      modifies this
      ensures Fields() == CloseFile(old(Fields())) && wire == old(wire)
      ensures fileFd < 0 && fileRem == 0 && fileOff == 0
      ensures closed == (old(fileFd) >= 0)
    {
      closed := fileFd >= 0;
      if closed {
        fileFd := -1;
      }
      fileOff, fileRem := 0, 0;
    }

    method AttachSendfile(fd: int, offset: nat, length: nat) returns (rc: int)
      modifies this
      ensures wire == old(wire)
      ensures rc == (if Attach(old(Fields()), fd, offset, length).Some? then 0 else -1)
      ensures Fields() == if rc == 0 then Attach(old(Fields()), fd, offset, length).value else old(Fields())
    {
      if fd < 0 || length == 0 {
        return -1;
      }
      var closed := CloseAttachedFile();
      fileFd, fileRem, fileOff := fd, length, offset;
      return 0;
    }

    method Start(rk: RespKind, buf: string, ka: bool, drainAfter: bool) returns (d: Decision)
      modifies this
      ensures (Fields(), d) == BeginHeaders(old(Fields()), rk, buf, ka, drainAfter) && wire == old(wire)
    {
      if buf == "" {
        return ErrorClose;
      }
      kind, writeBuf, writeOff := rk, Some(buf), 0;
      keepalive, drain := ka, drainAfter;
      return SendHeaders;
    }

    method DiscardBuffer()
      modifies this
      ensures Fields() == Discard(old(Fields())) && wire == old(wire)
    {
      writeBuf, writeOff := None, 0;
    }

    method IoResult(io: IoKind, sent: int) returns (d: Decision)
      modifies this
      ensures (Fields(), d) == OnIoResult(old(Fields()), io, sent) && wire == old(wire)
    {
      if sent == 0 {
        return ErrorClose;
      }
      if sent < 0 {
        if sent == -EAGAIN {
          return ArmPollout;
        }
        if io == Sendfile && sent == -EINTR {
          return Noop;
        }
        return ErrorClose;
      }
      if io == Headers {
        if writeBuf.None? || writeBuf.value == "" {
          return ErrorClose;
        }
        writeOff := writeOff + sent;
        if writeOff < |writeBuf.value| {
          return SendHeaders;
        }
        if drain {
          return ShutWrAndRead;
        }
        if fileFd >= 0 && fileRem > 0 {
          return StartSendfile;
        }
        return if keepalive then DoneKeepalive else DoneClose;
      }
      if fileRem == 0 {
        return if keepalive then DoneKeepalive else DoneClose;
      }
      var s := sent;
      if s > fileRem {
        s := fileRem;
      }
      fileRem := fileRem - s;
      if fileRem > 0 {
        return ResumeSendfile;
      }
      return if keepalive then DoneKeepalive else DoneClose;
    }

    /** Begins a response, with a file behind the headers if there is one. */
    method BeginResponse(rk: RespKind, head: string, ka: bool, drainAfter: bool,
                         ghost file: string, fd: int, start: nat, len: nat)
      returns (d: Decision)
      requires Fields() == IDLE && (len > 0 ==> fd >= 0) && start + len <= |file|
      modifies this
      ensures head == "" ==> d == ErrorClose && Fields() == IDLE
      ensures head != "" ==> d == SendHeaders && Sending(Begin(rk, head, ka, drainAfter, file, fd, start, len))
      ensures head != "" ==> kind == rk && keepalive == ka && drain == drainAfter && writeBuf == Some(head) && writeOff == 0
    {
      wire := "";
      d := Start(rk, head, ka, drainAfter);
      if d == SendHeaders {
        var rc := AttachSendfile(fd, start, len);
        BeginIsConsistent(rk, head, ka, drainAfter, file, fd, start, len);
      }
    }

    /** A send was acknowledged: one step of the transfer. */
    method SendCompleted(res: int, ghost t: Transfer) returns (d: Decision, ghost u: Transfer)
      requires Sending(t) && Enabled(t, SendDone(res))
      modifies this
      ensures (u, d) == Step(t, SendDone(res)) && Sending(u)
    {
      HeaderStep(t, res);
      hide Consistent, Whole;
      ghost var more := HeadBytes(t, res);
      d := IoResult(Headers, res);
      wire := wire + more;
      if d == StartSendfile {
        DiscardBuffer();
      }
      u := Step(t, SendDone(res)).0;
    }

    static ghost function HeadBytes(t: Transfer, res: int): (s: string)
      requires Consistent(t) && Enabled(t, SendDone(res))
      ensures t.wire + s == if res > 0 then t.wire + t.head[t.s.off..t.s.off + res] else t.wire
    {
      if res > 0 then t.head[t.s.off..t.s.off + res] else ""
    }

    /** One sendfile call: the kernel takes what it is ready for of the chunk, and moves the file position by it. */
    method CallSendfile(want: nat, answer: int, ghost t: Transfer) returns (res: int)
      requires Sending(t) && t.s.buf.None? && FileActive(t.s) && want == NextChunk(t.s)
      modifies this`fileOff, this`wire
      ensures res == (if answer > want then want else answer)
      ensures fileOff == old(fileOff) + (if res > 0 then res else 0)
      ensures wire == if res > 0 then t.wire + t.file[t.s.fileOff..t.s.fileOff + res] else t.wire
    {
      res := if answer > want then want else answer;
      if res > 0 {
        wire := wire + t.file[fileOff..fileOff + res];
        fileOff := fileOff + res;
      }
    }

    /** One call and its accounting is one step of the transfer. */
    method SendSome(answer: int, ghost t: Transfer) returns (d: Decision, ghost u: Transfer)
      requires Sending(t) && t.s.buf.None? && FileActive(t.s) && !t.over
      modifies this
      ensures (u, d) == FileAnswer(t, answer) && Sending(u)
    {
      hide Consistent, Whole, Step;
      var want := NextChunk(Fields());
      if want == 0 {
        assert false;
      }
      var res := CallSendfile(want, answer, t);
      BodyStep(t, res);
      BodyStepFields(t, res);
      d := IoResult(Sendfile, res);
      u := Step(t, FileStep(res)).0;
    }

    /** One round of the loop, told by the answer it got. */
    method SendRound(kernel: nat -> int, ghost from: nat, next: nat, ghost t0: Transfer, ghost t: Transfer)
      returns (d: Decision, ghost u: Transfer)
      requires Sending(t) && t.s.buf.None? && FileActive(t.s) && !t.over && Follows(t0, t, kernel, from, next)
      modifies this
      ensures Sending(u) && u.s.buf.None? && Follows(t0, u, kernel, from, next + 1) && u.s == Fields() && u.wire == wire
      ensures t0.start + t0.len <= |t0.file| && (IsDone(d) ==> wire == Whole(t0))
      ensures d == ArmPollout ==> kernel(next) == -EAGAIN && !u.over && FileActive(u.s) && wire < Whole(t0) && OnPollout(u.s) == ResumeSendfile
      ensures d == ErrorClose ==> Fails(kernel(next))
      ensures d == Noop ==> kernel(next) == -EINTR && fileRem == old(fileRem) && !u.over && FileActive(u.s)
      ensures d == ResumeSendfile ==> kernel(next) > 0 && fileRem < old(fileRem) && !u.over && FileActive(u.s)
      ensures IsDone(d) ==> kernel(next) > 0
      ensures IsDone(d) || d in {ResumeSendfile, Noop, ArmPollout, ErrorClose}
    {
      hide Whole, Consistent, Follows, FileAnswer, GoesOn, Fails;
      FollowsOn(t0, t, kernel, from, next);
      d, u := SendSome(kernel(next), t);
      FollowsIsSame(t0, u, kernel, from, next + 1);
    }

    /** Calls sendfile until an answer ends it; what is left of the file is the measure between interruptions. */
    method SendLoop(kernel: nat -> int, from: nat, ghost t0: Transfer)
      returns (d: Decision, next: nat, ghost t: Transfer)
      requires Patient(kernel) && Sending(t0) && t0.s.buf.None? && FileActive(t0.s) && !t0.over
      modifies this
      ensures from < next && Sending(t) && Follows(t0, t, kernel, from, next) && AllGoOn(kernel, from, next - 1)
      ensures d == ArmPollout ==> kernel(next - 1) == -EAGAIN && !t.over && FileActive(t.s) && t.s.buf.None?
      ensures d == ArmPollout ==> t0.start + t0.len <= |t0.file| && wire < Whole(t0)
      ensures d == ErrorClose ==> Fails(kernel(next - 1))
      ensures IsDone(d) ==> kernel(next - 1) > 0 && t0.start + t0.len <= |t0.file| && wire == Whole(t0)
      ensures IsDone(d) || d == ArmPollout || d == ErrorClose
    {
      hide Whole, Consistent, Follows, Fails, OnPollout;
      t, next := t0, from;
      FollowsItself(t0, kernel, from);
      assert HeardFrom(kernel, next);
      ghost var stop: nat :| stop >= next && kernel(stop) != -EINTR;
      while true
        invariant from <= next <= stop && kernel(stop) != -EINTR && AllGoOn(kernel, from, next)
        invariant Sending(t) && t.s.buf.None? && !t.over && FileActive(t.s) && Follows(t0, t, kernel, from, next)
        decreases fileRem, stop - next
      {
        d, t := SendRound(kernel, from, next, t0, t);
        next := next + 1;
        if d == ResumeSendfile {
          assert HeardFrom(kernel, next);
          stop :| stop >= next && kernel(stop) != -EINTR;
        } else if d != Noop {
          return;
        }
      }
    }

    /**
     Sends the file until it is done, the socket is full or an error ends it: exactly at the
     first answer that says so.
     */
    method SendfileProgress(draining: bool, kernel: nat -> int, from: nat, ghost t0: Transfer)
      returns (r: Outcome, next: nat, ghost t: Transfer)
      requires Patient(kernel) && Sending(t0) && t0.s.buf.None? && !t0.over
      modifies this
      ensures from <= next && t.wire == wire && Follows(t0, t, kernel, from, next)
      ensures r.FullResponse? || r in {Waiting, Closed}
      ensures next > from ==> AllGoOn(kernel, from, next - 1)
      ensures r.FullResponse? ==> wire == Whole(t0) && AllGoOn(kernel, from, next) && fileFd < 0
      ensures r.FullResponse? ==> EndsAs(r.after, t0.s, draining)
      ensures r == Waiting ==> next > from && kernel(next - 1) == -EAGAIN
      ensures r == Waiting ==> Sending(t) && !t.over && FileActive(t.s) && OnPollout(t.s) == ResumeSendfile && wire < Whole(t0)
      ensures r == Closed ==> next > from && Fails(kernel(next - 1)) && fileFd < 0
    {
      hide Whole, Consistent, Follows, Fails;
      if !FileActive(Fields()) {
        FollowsItself(t0, kernel, from);
        WholeIffNothingLeft(t0);
        var closed := CloseAttachedFile();
        return FullResponse(AfterFull(Fields(), draining)), from, t0;
      }
      var d;
      d, next, t := SendLoop(kernel, from, t0);
      if d == ArmPollout {
        return Waiting, next, t;
      }
      var closed := CloseAttachedFile();
      FollowsIsSame(t0, t, kernel, from, next);
      r := if d == ErrorClose then Closed else FullResponse(AfterFull(Fields(), draining));
    }

    /** The whole handler of a finished send: headers again, on to the file, or an end. */
    method HandleSend(res: int, draining: bool, kernel: nat -> int, from: nat, ghost t: Transfer)
      returns (r: Outcome, next: nat, ghost u: Transfer)
      requires Patient(kernel) && Sending(t) && Enabled(t, SendDone(res))
      modifies this
      ensures from <= next && SameTransfer(t, u) && u.wire == wire && t.wire <= wire <= Whole(t)
      ensures |wire| == |t.wire| + (if res > 0 then res else 0) + Taken(kernel, from, next, t.len)
      ensures r.FullResponse? ==> wire == Whole(t) && !t.s.drain && AllGoOn(kernel, from, next)
      ensures r.FullResponse? ==> EndsAs(r.after, t.s, draining)
      ensures next > from ==> AllGoOn(kernel, from, next - 1)
      ensures r == HalfClosed <==> t.s.drain && res > 0 && t.s.off + res == |t.head|
      ensures r == HalfClosed ==> wire == t.head
      ensures r == Resend <==> res > 0 && t.s.off + res < |t.head|
      ensures r == Resend ==> Sending(u) && Pending(u.s).Some? && wire + Pending(u.s).value == t.head
      ensures r == Waiting ==> Sending(u) && wire < Whole(t) && !u.over
      ensures r == Waiting ==> res == -EAGAIN || (next > from && kernel(next - 1) == -EAGAIN)
      ensures r == Closed ==> res == 0 || (res < 0 && res != -EAGAIN) || (next > from && Fails(kernel(next - 1)))
      ensures r != Nothing
    {
      hide Consistent, Whole, Step, Follows, Taken, AllGoOn, OnPollout, Fails;
      next := from;
      NothingTaken(kernel, from, t.len);
      var d;
      SendFacts(t, res);
      d, u := SendCompleted(res, t);
      match d {
        case SendHeaders => r := Resend;
        case StartSendfile =>
          ghost var v := u;
          r, next, u := SendfileProgress(draining, kernel, from, v);
          FollowsIsSame(v, u, kernel, from, next);
        case ArmPollout => r := Waiting;
        case ShutWrAndRead => r := HalfClosed;
        case DoneKeepalive => r := FullResponse(AfterFull(Fields(), draining));
        case DoneClose => r := FullResponse(AfterFull(Fields(), draining));
        case ErrorClose => r := Closed;
        case _ => assert false;
      }
    }

    /** The whole handler of a writable socket. */
    method HandleWritable(draining: bool, kernel: nat -> int, from: nat, ghost t: Transfer)
      returns (r: Outcome, next: nat, ghost u: Transfer)
      requires Patient(kernel) && Sending(t) && !t.over
      modifies this
      ensures from <= next && SameTransfer(t, u) && u.wire == wire && t.wire <= wire <= Whole(t)
      ensures t.s.buf.Some? ==> unchanged(this) && r in {Resend, Nothing}
      ensures r == Resend ==> Pending(t.s).Some? && t.wire + Pending(t.s).value == t.head
      ensures r == Nothing <==> OnPollout(t.s) == Noop
      ensures |wire| == |t.wire| + Taken(kernel, from, next, t.s.rem)
      ensures r.FullResponse? ==> wire == Whole(t) && AllGoOn(kernel, from, next) && EndsAs(r.after, t.s, draining)
      ensures next > from ==> AllGoOn(kernel, from, next - 1)
      ensures r == Waiting ==> Sending(u) && wire < Whole(t) && next > from && kernel(next - 1) == -EAGAIN
      ensures r == Closed ==> next > from && Fails(kernel(next - 1))
    {
      hide Whole;
      PrefixOfWhole(t);
      next, u := from, t;
      if FileActive(Fields()) && (writeBuf.None? || writeOff >= |writeBuf.value|) {
        r, next, u := SendfileProgress(draining, kernel, from, t);
        FollowsIsSame(t, u, kernel, from, next);
      } else if kind != NoResponse && Pending(Fields()).Some? {
        assert t.head[..t.s.off] + t.head[t.s.off..] == t.head;
        r := Resend;
      } else {
        r := Nothing;
      }
    }
  }

  // ----- the sendfile loop, answer by answer ------------------------------------------------------

  predicate SameTransfer(t: Transfer, u: Transfer) {
    u.head == t.head && u.file == t.file && u.start == t.start && u.len == t.len && SameFlags(t.s, u.s)
  }

  /** The step one answer makes: of the chunk asked for, the kernel takes what it is ready for. */
  function FileAnswer(t: Transfer, answer: int): (r: (Transfer, Decision))
    requires Consistent(t) && t.s.buf.None? && FileActive(t.s) && !t.over
  {
    Step(t, FileStep(if answer > NextChunk(t.s) then NextChunk(t.s) else answer))
  }

  /** A later point of the same response, with exactly the bytes that the answers took. */
  ghost predicate Follows(t0: Transfer, t: Transfer, kernel: nat -> int, from: nat, next: nat) {
    && from <= next && SameTransfer(t0, t) && t0.start + t0.len <= |t0.file|
    && t0.wire <= t.wire <= Whole(t0)
    && |t.wire| == |t0.wire| + Taken(kernel, from, next, t0.s.rem)
    && t.s.rem + |t.wire| == t0.s.rem + |t0.wire|
  }

  lemma FollowsItself(t: Transfer, kernel: nat -> int, from: nat)
    requires Consistent(t)
    ensures Follows(t, t, kernel, from, from)
  {
    PrefixOfWhole(t);
  }

  lemma FollowsIsSame(t0: Transfer, t: Transfer, kernel: nat -> int, from: nat, next: nat)
    requires Follows(t0, t, kernel, from, next)
    ensures SameTransfer(t0, t) && t0.start + t0.len <= |t0.file| && t0.wire <= t.wire <= Whole(t0)
    ensures from <= next && |t.wire| == |t0.wire| + Taken(kernel, from, next, t0.s.rem)
  {
  }

  lemma NothingTaken(kernel: nat -> int, from: nat, rem: nat)
    ensures Taken(kernel, from, from, rem) == 0 && AllGoOn(kernel, from, from)
  {
  }

  lemma TakenOneMore(kernel: nat -> int, from: nat, next: nat, rem: nat)
    requires from <= next
    ensures var before := Taken(kernel, from, next, rem);
      Taken(kernel, from, next + 1, rem)
      == if kernel(next) <= 0 then before else before + Least(kernel(next), Least(rem - before, MAX_SENDFILE_CHUNK))
  {
  }

  /** What one answer does to the transfer. */
  lemma AnswerFacts(t: Transfer, answer: int)
    requires Consistent(t) && t.s.buf.None? && FileActive(t.s) && !t.over
    ensures var (u, d) := FileAnswer(t, answer);
      && Consistent(u) && SameTransfer(t, u) && u.s.buf.None? && t.wire <= u.wire <= Whole(t) && u.s.fd >= 0
      && |u.wire| == |t.wire| + (if answer > 0 then Least(answer, Least(t.s.rem, MAX_SENDFILE_CHUNK)) else 0)
      && u.s.rem + |u.wire| == t.s.rem + |t.wire|
      && (IsDone(d) <==> u.wire == Whole(t))
      && (d == Noop <==> answer == -EINTR) && (d == ArmPollout <==> answer == -EAGAIN)
      && (d == ErrorClose <==> Fails(answer)) && (d == ResumeSendfile || IsDone(d) <==> answer > 0)
      && (u.over <==> IsDone(d) || d == ErrorClose)
      && (!u.over ==> FileActive(u.s))
  {
    var res := if answer > NextChunk(t.s) then NextChunk(t.s) else answer;
    var u := Step(t, FileStep(res)).0;
    BodyStep(t, res);
    BodyStepFields(t, res);
    PrefixOfWhole(u);
    WholeIffNothingLeft(u);
    hide Whole, Consistent, Step;
  }

  lemma FollowsOn(t0: Transfer, t: Transfer, kernel: nat -> int, from: nat, next: nat)
    requires Follows(t0, t, kernel, from, next)
    requires Consistent(t) && t.s.buf.None? && FileActive(t.s) && !t.over
    ensures var (u, d) := FileAnswer(t, kernel(next));
      && Follows(t0, u, kernel, from, next + 1) && u.s.buf.None?
      && (IsDone(d) <==> u.wire == Whole(t0))
      && (d == Noop <==> kernel(next) == -EINTR) && (d == ArmPollout <==> kernel(next) == -EAGAIN)
      && (d == ErrorClose <==> Fails(kernel(next))) && (d == ResumeSendfile || IsDone(d) <==> kernel(next) > 0)
      && (IsDone(d) || d in {ResumeSendfile, Noop, ArmPollout, ErrorClose})
      && (GoesOn(kernel(next)) <==> d == ResumeSendfile || IsDone(d) || d == Noop)
      && (u.over <==> IsDone(d) || d == ErrorClose)
      && (!u.over ==> FileActive(u.s))
      && (d == Noop ==> u.s.rem == t.s.rem) && (d == ResumeSendfile ==> u.s.rem < t.s.rem)
  {
    AnswerFacts(t, kernel(next));
    TakenOneMore(kernel, from, next, t0.s.rem);
    hide FileAnswer, Consistent, Taken;
  }

  /** What a finished send means for the bytes. */
  lemma SendFacts(t: Transfer, res: int)
    requires Consistent(t) && Enabled(t, SendDone(res))
    ensures var (u, d) := Step(t, SendDone(res));
      && Consistent(u) && SameTransfer(t, u) && t.wire <= u.wire <= Whole(t) && Whole(u) == Whole(t)
      && |u.wire| == |t.wire| + (if res > 0 then res else 0)
      && (IsDone(d) ==> u.wire == Whole(t) && !t.s.drain)
      && (d == ShutWrAndRead <==> t.s.drain && res > 0 && t.s.off + res == |t.head|)
      && (d == ShutWrAndRead ==> u.wire == t.head)
      && (d == SendHeaders <==> res > 0 && t.s.off + res < |t.head|)
      && (d == SendHeaders ==> Pending(u.s).Some? && u.wire + Pending(u.s).value == t.head && !u.over)
      && (d == ArmPollout <==> res == -EAGAIN) && (d == ArmPollout ==> u == t && t.wire < Whole(t))
      && (d == ErrorClose <==> res == 0 || (res < 0 && res != -EAGAIN))
      && (d == StartSendfile ==> u.s.buf.None? && !u.over && !t.s.drain && u.s.rem == t.len)
      && d != Noop && d != ResumeSendfile
  {
    HeaderStep(t, res);
    PrefixOfWhole(t);
    var u := Step(t, SendDone(res)).0;
    PrefixOfWhole(u);
    if res > 0 && t.s.off + res < |t.head| {
      assert t.head[..u.s.off] + t.head[u.s.off..] == t.head;
    }
    assert |t.wire| < |t.head|;
  }
}
