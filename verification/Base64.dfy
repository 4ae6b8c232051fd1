/** Base64 decoding of credentials (section 4 of RFC 4648), padded or not. */
module Base64 {
  import opened Options

  const PAD := -2
  const BAD := -1

  /** 0 to 63, or padding, or not in the alphabet. */
  function CharVal(c: char): (v: int)
    ensures -2 <= v < 64
  {
    if 'A' <= c <= 'Z' then c as int - 'A' as int
    else if 'a' <= c <= 'z' then c as int - 'a' as int + 26
    else if '0' <= c <= '9' then c as int - '0' as int + 52
    else if c == '+' then 62
    else if c == '/' then 63
    else if c == '=' then PAD
    else BAD
  }

  function Symbol(v: nat): (c: char)
    requires v < 64
  {
    if v < 26 then ('A' as int + v) as char
    else if v < 52 then ('a' as int + v - 26) as char
    else if v < 62 then ('0' as int + v - 52) as char
    else if v == 62 then '+'
    else '/'
  }

  lemma SymbolIsRead(v: nat)
    requires v < 64
    ensures CharVal(Symbol(v)) == v
  {
  }

  /** The shifts and masks of one group, as arithmetic on its 24 bits. */
  function First(a: nat, b: nat): (x: nat)
    requires a < 64 && b < 64
    ensures x < 256
  {
    a * 4 + b / 16
  }

  function Second(b: nat, c: nat): (y: nat)
    requires b < 64 && c < 64
    ensures y < 256
  {
    (b % 16) * 16 + c / 4
  }

  function Third(c: nat, d: nat): (z: nat)
    requires c < 64 && d < 64
    ensures z < 256
  {
    (c % 4) * 64 + d
  }

  // ----- decoding, group by group ---------------------------------------------------------------

  function Prepend(done: seq<int>, r: Option<seq<int>>): (q: Option<seq<int>>) {
    if r.None? then None else Some(done + r.value)
  }

  /** One group of up to four characters: its bytes and whether it has to be the last. */
  datatype Group = Wrong | Bytes(data: seq<int>, last: bool)

  function ReadGroup(s: string): (g: Group)
    requires s != ""
    ensures g.Bytes? ==> 1 <= |g.data| <= 3 && (!g.last ==> |s| >= 4)
  {
    var a := CharVal(s[0]);
    var b := if |s| > 1 then CharVal(s[1]) else BAD;
    var c := if |s| > 2 then CharVal(s[2]) else PAD;
    var d := if |s| > 3 then CharVal(s[3]) else PAD;
    if a < 0 || b < 0 then Wrong
    else if c == PAD then
      if |s| > 2 && (|s| <= 3 || d != PAD) then Wrong else Bytes([First(a, b)], true)
    else if c < 0 then Wrong
    else if d == PAD then Bytes([First(a, b), Second(b, c)], true)
    else if d < 0 then Wrong
    else Bytes([First(a, b), Second(b, c), Third(c, d)], false)
  }

  function Decode(s: string): (r: Option<seq<int>>) {
    if s == "" then Some([])
    else match ReadGroup(s)
      case Wrong => None
      case Bytes(data, last) =>
        if last then (if |s| > 4 then None else Some(data))
        else Prepend(data, Decode(s[4..]))
  }

  lemma PrependTwice(a: seq<int>, b: seq<int>, r: Option<seq<int>>)
    ensures Prepend(a, Prepend(b, r)) == Prepend(a + b, r)
  {
    if r.Some? {
      assert a + (b + r.value) == a + b + r.value;
    }
  }

  lemma PrependNothing(r: Option<seq<int>>)
    ensures Prepend([], r) == r
  {
    if r.Some? {
      assert [] + r.value == r.value;
    }
  }

  predicate TooLong(r: Option<seq<int>>, cap: nat) {
    r.Some? ==> |r.value| > cap
  }

  /** What a group gives, when it is right, is more than the bytes stored so far. */
  lemma NoRoom(src: string, i: nat, done: seq<int>, stored: nat, cap: nat)
    requires i < |src| && Decode(src) == Prepend(done, Decode(src[i..]))
    requires ReadGroup(src[i..]).Bytes? ==> |ReadGroup(src[i..]).data| > stored
    requires |done| + stored >= cap
    ensures TooLong(Decode(src), cap)
  {
    hide ReadGroup;
  }

  lemma WrongGroup(src: string, i: nat, done: seq<int>)
    requires i < |src| && Decode(src) == Prepend(done, Decode(src[i..])) && ReadGroup(src[i..]).Wrong?
    ensures Decode(src) == None
  {
  }

  lemma LastBytes(src: string, i: nat, done: seq<int>)
    requires i < |src| && Decode(src) == Prepend(done, Decode(src[i..]))
    requires ReadGroup(src[i..]).Bytes? && ReadGroup(src[i..]).last
    ensures Decode(src) == if |src| > i + 4 then None else Some(done + ReadGroup(src[i..]).data)
  {
    hide ReadGroup;
  }

  lemma MoreBytes(src: string, i: nat, done: seq<int>)
    requires i < |src| && Decode(src) == Prepend(done, Decode(src[i..]))
    requires ReadGroup(src[i..]).Bytes? && !ReadGroup(src[i..]).last
    ensures i + 4 <= |src| && Decode(src) == Prepend(done + ReadGroup(src[i..]).data, Decode(src[i + 4..]))
  {
    hide ReadGroup;
    assert src[i..][4..] == src[i + 4..];
    PrependTwice(done, ReadGroup(src[i..]).data, Decode(src[i + 4..]));
  }

  /** The next character's value, if there is one. */
  method Next(src: string, i: nat, missing: int) returns (present: bool, v: int, next: nat)
    requires i <= |src|
    ensures present == (i < |src|)
    ensures v == (if i < |src| then CharVal(src[i]) else missing)
    ensures next == (if i < |src| then i + 1 else i)
  {
    present := i < |src|;
    v := if present then CharVal(src[i]) else missing;
    next := if present then i + 1 else i;
  }

  method Put(dst: array<int>, out: nat, x: int) returns (ok: bool)
    requires out <= dst.Length
    modifies dst
    ensures ok == (out < dst.Length)
    ensures ok ==> dst[..out + 1] == old(dst[..out]) + [x]
  {
    if out >= dst.Length {
      return false;
    }
    ghost var was := dst[..out];
    dst[out] := x;
    assert dst[..out + 1] == was + [x];
    return true;
  }

  /** The number of bytes, or -1: exactly when the text is wrong or its bytes do not fit. */
  method DecodeInto(src: string, dst: array<int>) returns (rc: int)
    modifies dst
    ensures rc >= 0 ==> rc <= dst.Length && Decode(src) == Some(dst[..rc])
    ensures rc >= -1 && (rc == -1 <==> Decode(src) == None || |Decode(src).value| > dst.Length)
  {
    hide Decode, CharVal, First, Second, Third;
    var out: nat, i: nat := 0, 0;
    assert src[0..] == src && dst[..0] == [];
    PrependNothing(Decode(src));
    while i < |src|
      invariant i <= |src| && out <= dst.Length
      invariant Decode(src) == Prepend(dst[..out], Decode(src[i..]))
      decreases |src| - i
    {
      ghost var at, done := i, dst[..out];
      ghost var g := ReadGroup(src[at..]);
      var present, a, b, cPresent, c, dPresent, d;
      present, a, i := Next(src, i, BAD);
      present, b, i := Next(src, i, BAD);
      cPresent, c, i := Next(src, i, PAD);
      dPresent, d, i := Next(src, i, PAD);
      if a < 0 || b < 0 {
        WrongGroup(src, at, done);
        return -1;
      }
      var ok := Put(dst, out, First(a, b));
      if !ok {
        NoRoom(src, at, done, 0, dst.Length);
        return -1;
      }
      out := out + 1;
      if c == PAD {
        if cPresent && (!dPresent || d != PAD) {
          WrongGroup(src, at, done);
          return -1;
        }
        LastBytes(src, at, done);
        if i < |src| {
          return -1;
        }
        return out;
      }
      if c < 0 {
        WrongGroup(src, at, done);
        return -1;
      }
      ok := Put(dst, out, Second(b, c));
      if !ok {
        NoRoom(src, at, done, 1, dst.Length);
        return -1;
      }
      out := out + 1;
      if d == PAD {
        LastBytes(src, at, done);
        if i < |src| {
          return -1;
        }
        assert dst[..out] == done + g.data;
        return out;
      }
      if d < 0 {
        WrongGroup(src, at, done);
        return -1;
      }
      ok := Put(dst, out, Third(c, d));
      if !ok {
        NoRoom(src, at, done, 2, dst.Length);
        return -1;
      }
      out := out + 1;
      MoreBytes(src, at, done);
      assert dst[..out] == done + g.data;
    }
    assert src[i..] == "";
    NothingToDecode();
    assert dst[..out] + [] == dst[..out];
    return out;
  }

  lemma NothingToDecode()
    ensures Decode("") == Some([])
  {
  }

  // ----- encoding ------------------------------------------------------------------------------

  predicate AllBytes(s: seq<int>) {
    forall i :: 0 <= i < |s| ==> 0 <= s[i] < 256
  }

  /** Three bytes to four characters; one or two left over are padded, or not. */
  function Encode(s: seq<int>, padded: bool): (t: string)
    requires AllBytes(s)
  {
    if s == [] then ""
    else if |s| == 1 then
      [Symbol(s[0] / 4), Symbol((s[0] % 4) * 16)] + (if padded then "==" else "")
    else if |s| == 2 then
      [Symbol(s[0] / 4), Symbol((s[0] % 4) * 16 + s[1] / 16), Symbol((s[1] % 16) * 4)] + (if padded then "=" else "")
    else
      [Symbol(s[0] / 4), Symbol((s[0] % 4) * 16 + s[1] / 16), Symbol((s[1] % 16) * 4 + s[2] / 64), Symbol(s[2] % 64)]
      + Encode(s[3..], padded)
  }

  /** A full group keeps its 24 bits. */
  lemma GroupKeepsBits(x: nat, y: nat, z: nat)
    requires x < 256 && y < 256 && z < 256
    ensures First(x / 4, (x % 4) * 16 + y / 16) == x
    ensures Second((x % 4) * 16 + y / 16, (y % 16) * 4 + z / 64) == y
    ensures Third((y % 16) * 4 + z / 64, z % 64) == z
  {
  }

  lemma ReadFour(p: char, q: char, u: char, v: char, rest: string)
    requires CharVal(p) >= 0 && CharVal(q) >= 0 && CharVal(u) >= 0 && CharVal(v) >= 0
    ensures var t := [p, q, u, v] + rest;
      && t[4..] == rest
      && ReadGroup(t) == Bytes([First(CharVal(p), CharVal(q)), Second(CharVal(q), CharVal(u)),
                                Third(CharVal(u), CharVal(v))], false)
  {
    hide CharVal, First, Second, Third;
    var t := [p, q, u, v] + rest;
    assert t[0] == p && t[1] == q && t[2] == u && t[3] == v;
  }

  lemma ReadThree(p: char, q: char, u: char, padded: bool)
    requires CharVal(p) >= 0 && CharVal(q) >= 0 && CharVal(u) >= 0
    ensures var t := [p, q, u] + (if padded then "=" else "");
      ReadGroup(t) == Bytes([First(CharVal(p), CharVal(q)), Second(CharVal(q), CharVal(u))], true)
  {
    PadIsRead();
    hide CharVal, First, Second, Third;
    var t := [p, q, u] + (if padded then "=" else "");
    assert t[0] == p && t[1] == q && t[2] == u;
  }

  lemma ReadTwo(p: char, q: char, padded: bool)
    requires CharVal(p) >= 0 && CharVal(q) >= 0
    ensures var t := [p, q] + (if padded then "==" else "");
      ReadGroup(t) == Bytes([First(CharVal(p), CharVal(q))], true)
  {
    PadIsRead();
    hide CharVal, First, Second, Third;
    var t := [p, q] + (if padded then "==" else "");
    assert t[0] == p && t[1] == q;
  }

  lemma PadIsRead()
    ensures CharVal('=') == PAD
  {
  }

  lemma FullGroup(s: seq<int>, padded: bool)
    requires AllBytes(s) && |s| >= 3
    ensures var t := Encode(s, padded);
      |t| >= 4 && t[4..] == Encode(s[3..], padded) && ReadGroup(t) == Bytes(s[..3], false)
  {
    hide Symbol, CharVal, First, Second, Third, ReadGroup;
    var a, b, c, d := s[0] / 4, (s[0] % 4) * 16 + s[1] / 16, (s[1] % 16) * 4 + s[2] / 64, s[2] % 64;
    SymbolIsRead(a);
    SymbolIsRead(b);
    SymbolIsRead(c);
    SymbolIsRead(d);
    GroupKeepsBits(s[0], s[1], s[2]);
    ReadFour(Symbol(a), Symbol(b), Symbol(c), Symbol(d), Encode(s[3..], padded));
    assert s[..3] == [s[0], s[1], s[2]];
  }

  lemma ShortGroup(s: seq<int>, padded: bool)
    requires AllBytes(s) && 1 <= |s| <= 2
    ensures var t := Encode(s, padded);
      2 <= |t| <= 4 && ReadGroup(t) == Bytes(s, true)
  {
    hide Symbol, CharVal, First, Second, Third, ReadGroup;
    var y := if |s| == 2 then s[1] else 0;
    var a, b, c := s[0] / 4, (s[0] % 4) * 16 + y / 16, (y % 16) * 4;
    SymbolIsRead(a);
    SymbolIsRead(b);
    SymbolIsRead(c);
    GroupKeepsBits(s[0], y, 0);
    if |s| == 1 {
      ReadTwo(Symbol(a), Symbol(b), padded);
      assert s == [s[0]];
    } else {
      ReadThree(Symbol(a), Symbol(b), Symbol(c), padded);
      assert s == [s[0], s[1]];
    }
  }

  /** Decoding undoes encoding, padded or not. */
  lemma {:induction false} DecodeUndoesEncode(s: seq<int>, padded: bool)
    requires AllBytes(s)
    ensures Decode(Encode(s, padded)) == Some(s)
  {
    hide ReadGroup, Encode;
    if s == [] {
      EncodeNothing(padded);
    } else if |s| < 3 {
      ShortGroup(s, padded);
    } else {
      FullGroup(s, padded);
      DecodeUndoesEncode(s[3..], padded);
      assert s[..3] + s[3..] == s;
    }
  }

  lemma EncodeNothing(padded: bool)
    ensures Encode([], padded) == ""
  {
  }

  // ----- the texts accepted ---------------------------------------------------------------------

  function DataCount(s: string): (n: nat)
    ensures n <= |s|
  {
    if s == "" || CharVal(s[0]) < 0 then 0 else 1 + DataCount(s[1..])
  }

  /** Data characters, then padding that fills the last group, or none at all. */
  predicate Accepted(s: string) {
    GoodEnd(DataCount(s), s[DataCount(s)..])
  }

  lemma OneMoreData(s: string, i: nat)
    requires i < |s| && CharVal(s[i]) >= 0
    ensures DataCount(s[i..]) == 1 + DataCount(s[i + 1..])
  {
    hide CharVal;
    assert s[i..][1..] == s[i + 1..];
  }

  lemma DataCountOfGroup(s: string)
    requires |s| >= 4 && CharVal(s[0]) >= 0 && CharVal(s[1]) >= 0 && CharVal(s[2]) >= 0 && CharVal(s[3]) >= 0
    ensures DataCount(s) == 4 + DataCount(s[4..])
  {
    hide CharVal, DataCount;
    OneMoreData(s, 0);
    OneMoreData(s, 1);
    OneMoreData(s, 2);
    OneMoreData(s, 3);
    assert s[0..] == s;
  }

  lemma GroupArithmetic(n: nat)
    ensures (n + 4) % 4 == n % 4 && (n + 4) * 3 / 4 == 3 + n * 3 / 4
  {
  }

  /** The padding that may follow `n` data characters. */
  predicate GoodEnd(n: nat, end: string) {
    (end == "" && n % 4 != 1) || (end == "==" && n % 4 == 2) || (end == "=" && n % 4 == 3)
  }

  lemma GoodEndAfterGroup(n: nat, end: string)
    ensures GoodEnd(n + 4, end) <==> GoodEnd(n, end)
  {
    GroupArithmetic(n);
  }

  lemma AcceptedAfterGroup(s: string)
    requires |s| >= 4 && DataCount(s) == 4 + DataCount(s[4..])
    ensures Accepted(s) <==> Accepted(s[4..])
    ensures DataCount(s) * 3 / 4 == 3 + DataCount(s[4..]) * 3 / 4
  {
    hide DataCount, GoodEnd;
    var n := DataCount(s[4..]);
    assert s[4..][n..] == s[n + 4..];
    GoodEndAfterGroup(n, s[n + 4..]);
    GroupArithmetic(n);
  }

  /** A text decodes exactly when it is accepted, to three bytes for every four data characters. */
  lemma {:induction false} DecodesIffAccepted(s: string)
    ensures Decode(s).Some? <==> Accepted(s)
    ensures Decode(s).Some? ==> |Decode(s).value| == DataCount(s) * 3 / 4
  {
    if s != "" {
      if |s| >= 4 && CharVal(s[0]) >= 0 && CharVal(s[1]) >= 0 && CharVal(s[2]) >= 0 && CharVal(s[3]) >= 0 {
        DataCountOfGroup(s);
        AcceptedAfterGroup(s);
        DecodesIffAccepted(s[4..]);
      } else {
        LastGroup(s);
      }
    }
  }

  lemma LastGroup(s: string)
    requires s != ""
    requires !(|s| >= 4 && CharVal(s[0]) >= 0 && CharVal(s[1]) >= 0 && CharVal(s[2]) >= 0 && CharVal(s[3]) >= 0)
    ensures Decode(s).Some? <==> Accepted(s)
    ensures Decode(s).Some? ==> |Decode(s).value| == DataCount(s) * 3 / 4
  {
    var n := DataCount(s);
    if |s| > 1 {
      assert s[1..][0] == s[1];
      if |s| > 2 {
        assert s[1..][1..] == s[2..];
      }
    }
    assert n <= 3;
  }
}
