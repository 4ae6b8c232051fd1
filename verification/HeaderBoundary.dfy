/**
 Finding the end of a request head in a stream that arrives in pieces: a sliding-window scan,
 the three bytes carried from one piece to the next, and the receive stash.
 */
module HeaderBoundary {
  import opened Options
  import opened Pieces

  const RBUF_SZ := 256
  const TERMINATOR := "\r\n\r\n"

  // ----- where the head ends ----------------------------------------------------------------

  /** A terminator ends just before position `e`. */
  predicate EndsAt(s: string, e: int) {
    4 <= e <= |s| && s[e - 4] == '\r' && s[e - 3] == '\n' && s[e - 2] == '\r' && s[e - 1] == '\n'
  }

  /** The first such position, or -1. */
  ghost predicate FirstEnd(s: string, r: int) {
    && (r == -1 || EndsAt(s, r))
    && (forall e :: EndsAt(s, e) && r != -1 ==> r <= e)
    && (r == -1 ==> forall e :: !EndsAt(s, e))
  }

  lemma EndsAtIsTerminator(s: string, e: int)
    requires 4 <= e <= |s|
    ensures EndsAt(s, e) <==> s[e - 4..e] == TERMINATOR
  {
    var w := s[e - 4..e];
    assert w[0] == s[e - 4] && w[1] == s[e - 3] && w[2] == s[e - 2] && w[3] == s[e - 1];
    if EndsAt(s, e) {
      assert w == TERMINATOR;
    }
  }

  /** Scans the carried bytes and the new ones through a four-byte window. */
  method FindEnd(prefix: string, buf: string) returns (r: int)
    ensures FirstEnd(prefix + buf, r)
  {
    if prefix == "" && buf == "" {
      return -1;
    }
    var total := |prefix| + |buf|;
    if total < 4 {
      return -1;
    }
    ghost var s := prefix + buf;
    var w0, w1, w2, w3 := '\0', '\0', '\0', '\0';
    var i := 0;
    while i < total
      invariant 0 <= i <= total
      invariant i >= 1 ==> w3 == s[i - 1]
      invariant i >= 2 ==> w2 == s[i - 2]
      invariant i >= 3 ==> w1 == s[i - 3]
      invariant forall e :: e <= i ==> !EndsAt(s, e)
    {
      var c := if i < |prefix| then prefix[i] else buf[i - |prefix|];
      w0, w1, w2, w3 := w1, w2, w3, c;
      if i >= 3 && w0 == '\r' && w1 == '\n' && w2 == '\r' && w3 == '\n' {
        return i + 1;
      }
      i := i + 1;
    }
    return -1;
  }

  // ----- the carried tail -------------------------------------------------------------------

  function LastThree(s: string): (t: string) {
    if |s| < 3 then s else s[|s| - 3..]
  }

  /** Carrying three bytes is carrying enough of the whole past. */
  lemma TailOfTail(done: string, fed: string)
    ensures LastThree(LastThree(done) + fed) == LastThree(done + fed)
  {
  }

  /** A terminator that is not in the past shows up at the same place behind the tail alone. */
  lemma SameEnds(done: string, chunk: string, e: int)
    requires forall x :: !EndsAt(done, x)
    ensures EndsAt(done + chunk, e) <==> EndsAt(LastThree(done) + chunk, e - |done| + |LastThree(done)|)
    ensures EndsAt(done + chunk, e) ==> e > |done|
  {
    var t := LastThree(done);
    var a, b := done + chunk, t + chunk;
    var d := |done| - |t|;
    assert forall i :: 0 <= i < |b| ==> b[i] == a[i + d];
    assert e <= |done| ==> (EndsAt(a, e) <==> EndsAt(done, e));
  }

  lemma SameFirstEnd(done: string, chunk: string, r: int)
    requires forall x :: !EndsAt(done, x)
    requires FirstEnd(LastThree(done) + chunk, r)
    ensures r == -1 ==> FirstEnd(done + chunk, -1)
    ensures r != -1 ==> |LastThree(done)| < r <= |LastThree(done)| + |chunk|
    ensures r != -1 ==> FirstEnd(done + chunk, |done| + r - |LastThree(done)|)
  {
    hide EndsAt;
    var d := |done| - |LastThree(done)|;
    forall e ensures EndsAt(done + chunk, e) <==> EndsAt(LastThree(done) + chunk, e - d) {
      SameEnds(done, chunk, e);
    }
    if r != -1 {
      InRange(LastThree(done) + chunk, r);
      assert EndsAt(LastThree(done) + chunk, r + d - d);
    }
  }

  lemma InRange(s: string, e: int)
    requires EndsAt(s, e)
    ensures 4 <= e <= |s|
  {
  }

  /** The first end of one piece behind a tail, as an offset into the piece. */
  function FeedLength(tail: string, chunk: string, from: nat): (r: Option<nat>)
    decreases |tail| + |chunk| - from
  {
    if from > |tail| + |chunk| then None
    else if EndsAt(tail + chunk, from) then Some(if from > |tail| then from - |tail| else 0)
    else FeedLength(tail, chunk, from + 1)
  }

  /** Piece by piece: in which piece, and after how many of its bytes, the head ends. */
  function Scan(tail: string, chunks: seq<string>): (r: Option<(nat, nat)>)
    decreases |chunks|
  {
    if chunks == [] then None
    else match FeedLength(tail, chunks[0], 0)
      case Some(f) => Some((0, f))
      case None =>
        match Scan(LastThree(tail + chunks[0]), chunks[1..])
        case None => None
        case Some(p) => Some((p.0 + 1, p.1))
  }

  lemma {:induction false} FeedLengthIsFirst(tail: string, chunk: string, from: nat)
    requires forall e :: e < from ==> !EndsAt(tail + chunk, e)
    requires |tail| <= 3
    ensures FeedLength(tail, chunk, from) == None ==> FirstEnd(tail + chunk, -1)
    ensures FeedLength(tail, chunk, from).Some? ==>
      FirstEnd(tail + chunk, |tail| + FeedLength(tail, chunk, from).value)
    decreases |tail| + |chunk| - from
  {
    if from <= |tail| + |chunk| && !EndsAt(tail + chunk, from) {
      FeedLengthIsFirst(tail, chunk, from + 1);
    }
  }

  /**
   However the stream is cut, the pieces give the first terminator of the whole, in the piece
   and at the offset where it really ends.
   */
  lemma {:induction false} ScanFindsFirst(done: string, chunks: seq<string>)
    requires forall x :: !EndsAt(done, x)
    ensures var r := Scan(LastThree(done), chunks);
      && (r == None ==> FirstEnd(done + Concat(chunks), -1))
      && (r.Some? ==>
            && r.value.0 < |chunks| && 0 < r.value.1 <= |chunks[r.value.0]|
            && FirstEnd(done + Concat(chunks), |done| + |Concat(chunks[..r.value.0])| + r.value.1))
    decreases |chunks|
  {
    hide EndsAt, FeedLength;
    if chunks == [] {
      assert done + "" == done;
    } else {
      var t, c, rest := LastThree(done), chunks[0], chunks[1..];
      NoEarlyEnd(t + c);
      FeedLengthIsFirst(t, c, 0);
      assert done + Concat(chunks) == done + c + Concat(rest);
      match FeedLength(t, c, 0)
      case Some(f) =>
        SameFirstEnd(done, c, |t| + f);
        FirstEndStays(done + c, Concat(rest), |done| + f);
        assert chunks[..0] == [];
      case None =>
        SameFirstEnd(done, c, -1);
        TailOfTail(done, c);
        ScanFindsFirst(done + c, rest);
        var r := Scan(LastThree(done + c), rest);
        if r.Some? {
          assert chunks[..r.value.0 + 1] == [c] + rest[..r.value.0];
          ConcatOfCons(c, rest[..r.value.0]);
        }
    }
  }

  lemma NoEarlyEnd(s: string)
    ensures forall e :: e < 0 ==> !EndsAt(s, e)
  {
  }

  lemma ConcatOfCons(c: string, rest: seq<string>)
    ensures Concat([c] + rest) == c + Concat(rest)
  {
    assert ([c] + rest)[1..] == rest;
  }

  /** What comes later does not change where the first terminator ends. */
  lemma FirstEndStays(s: string, more: string, r: int)
    requires r != -1 && FirstEnd(s, r)
    ensures FirstEnd(s + more, r)
  {
    forall e | EndsAt(s + more, e) ensures r <= e {
      if e <= |s| {
        assert EndsAt(s, e);
      }
    }
  }

  // ----- the connection's receive state -------------------------------------------------------

  class Receiver {
    const tail: array<char>
    var tailLen: nat
    ghost var stream: string

    ghost predicate Valid()
      reads this, tail
    {
      tail.Length == 3 && tailLen <= 3 && tail[..tailLen] == LastThree(stream)
    }

    constructor ()
      ensures Valid() && stream == "" && fresh(tail)
    {
      tail := new char[3];
      tailLen := 0;
      stream := "";
      new;
      assert tail[..0] == "";
    }

    /** Keeps the last three bytes of everything fed so far. */
    method UpdateAfterFeed(fed: string)
      requires Valid()
      modifies this, tail
      ensures Valid() && stream == old(stream) + fed
    {
      var prev := tail[..tailLen];
      var total := |prev| + |fed|;
      var take := if total < 3 then total else 3;
      ghost var s := prev + fed;
      var i := 0;
      while i < take
        invariant i <= take
        invariant forall k :: 0 <= k < i ==> tail[k] == s[total - take + k]
        modifies tail
      {
        var idx := total - take + i;
        tail[i] := if idx < |prev| then prev[idx] else fed[idx - |prev|];
        i := i + 1;
      }
      tailLen := take;
      TailOfTail(stream, fed);
      assert tail[..take] == LastThree(s);
      stream := stream + fed;
    }

    /** How much of the new bytes belongs to the head, if the head ends in them. */
    method HeadBytes(buf: string) returns (found: bool, feed: nat)
      requires Valid() && forall e :: !EndsAt(stream, e)
      ensures found ==> 0 < feed <= |buf| && FirstEnd(stream + buf, |stream| + feed)
      ensures !found ==> FirstEnd(stream + buf, -1) && feed == |buf|
    {
      var end := FindEnd(tail[..tailLen], buf);
      SameFirstEnd(stream, buf, end);
      if end < 0 {
        return false, |buf|;
      }
      // The source also clamps the length below at 0 and above at the new bytes.
      if end <= tailLen || end - tailLen > |buf| {
        assert false;
      }
      return true, end - tailLen;
    }
  }

  // ----- the stash ----------------------------------------------------------------------------

  /** Bytes kept for the next request on the connection, in one block taken on demand. */
  class Stash {
    var block: array?<char>
    var len: nat

    ghost predicate Valid()
      reads this
    {
      && len <= RBUF_SZ
      && (len > 0 ==> block != null)
      && (block != null ==> block.Length == RBUF_SZ)
    }

    ghost function Contents(): (s: string)
      requires Valid()
      reads this, block
    {
      if block == null then "" else block[..len]
    }

    constructor ()
      ensures Valid() && Contents() == ""
    {
      block, len := null, 0;
    }

    /** All or nothing: refused when the bytes do not fit or no block is to be had. */
    method Append(data: string) returns (rc: int)
      requires Valid()
      modifies this, block
      ensures Valid()
      ensures rc == 0 ==> Contents() == old(Contents()) + data
      ensures rc != 0 ==> rc == -1 && Contents() == old(Contents())
      ensures old(|Contents()|) + |data| > RBUF_SZ && data != "" ==> rc == -1
      ensures rc == -1 ==> old(|Contents()|) + |data| > RBUF_SZ || old(block) == null
    {
      if data == "" {
        return 0;
      }
      if len + |data| > RBUF_SZ {
        return -1;
      }
      if block == null {
        var found: bool := *;
        if !found {
          return -1;
        }
        block := new char[RBUF_SZ];
      }
      ghost var was := block[..len];
      var i := 0;
      while i < |data|
        invariant i <= |data| && len + |data| <= RBUF_SZ && block != null && block.Length == RBUF_SZ
        invariant block == old(block) || fresh(block)
        invariant len == old(len) && block[..len + i] == was + data[..i]
      {
        block[len + i] := data[i];
        assert block[..len + i + 1] == block[..len + i] + [data[i]];
        i := i + 1;
      }
      assert data[..|data|] == data;
      len := len + |data|;
      return 0;
    }

    /** Drops bytes from the front; the block goes back once nothing is left. */
    method Consume(n: nat)
      requires Valid()
      modifies this, block
      ensures Valid()
      ensures Contents() == if n >= old(|Contents()|) then "" else old(Contents())[n..]
      ensures n >= old(len) > 0 ==> block == null
    {
      if n == 0 || len == 0 {
        return;
      }
      if n >= len {
        len, block := 0, null;
        return;
      }
      ghost var was := block[..len];
      var i := 0;
      while i < len - n
        invariant i <= len - n && Valid() && len == old(len) && block == old(block) && block != null
        invariant forall k :: 0 <= k < i ==> block[k] == was[k + n]
        invariant forall k :: i <= k < len ==> block[k] == was[k]
      {
        block[i] := block[i + n];
        i := i + 1;
      }
      len := len - n;
      assert block[..len] == was[n..];
    }
  }
}
