/**
 Request paths: percent decoding, dot-segment removal on absolute paths, and what they
 leave for the file system.  A character stands for one byte.
 */
module Url {
  import opened Options

  const MAX_DEPTH := 256

  // ----- segments -------------------------------------------------------------------------

  /** The segments between slashes, empty ones included. */
  function Split(s: string): (r: seq<string>)
    ensures |r| >= 1
  {
    if s == "" then [""]
    else if s[0] == '/' then [""] + Split(s[1..])
    else
      var r := Split(s[1..]);
      [[s[0]] + r[0]] + r[1..]
  }

  function NonEmpty(segs: seq<string>): (r: seq<string>) {
    if segs == [] then []
    else (if segs[0] == "" then [] else [segs[0]]) + NonEmpty(segs[1..])
  }

  /** Repeated, leading and trailing slashes do not count. */
  function Components(s: string): (r: seq<string>) {
    NonEmpty(Split(s))
  }

  /** What a kept segment looks like: not empty, no slash, neither "." nor "..". */
  predicate Proper(seg: string) {
    seg != "" && '/' !in seg && seg != "." && seg != ".."
  }

  predicate AllProper(segs: seq<string>) {
    forall i :: 0 <= i < |segs| ==> Proper(segs[i])
  }

  lemma {:induction false} SplitAfterSegment(seg: string, rest: string)
    requires '/' !in seg
    ensures Split(seg + rest) == [seg + Split(rest)[0]] + Split(rest)[1..]
  {
    if seg == "" {
      assert seg + rest == rest;
      assert seg + Split(rest)[0] == Split(rest)[0];
    } else {
      assert (seg + rest)[1..] == seg[1..] + rest;
      SplitAfterSegment(seg[1..], rest);
      assert [seg[0]] + (seg[1..] + Split(rest)[0]) == seg + Split(rest)[0];
    }
  }

  lemma {:induction false} SlashIsSkipped(s: string)
    requires s != "" && s[0] == '/'
    ensures Components(s) == Components(s[1..])
  {
    assert ([""] + Split(s[1..]))[1..] == Split(s[1..]);
  }

  /** A whole segment at the front is the first component. */
  lemma {:induction false} SegmentComesFirst(seg: string, rest: string)
    requires seg != "" && '/' !in seg && (rest == "" || rest[0] == '/')
    ensures Components(seg + rest) == [seg] + Components(rest)
  {
    SplitAfterSegment(seg, rest);
    assert Split(rest)[0] == "";
    assert seg + "" == seg;
    var r := Split(rest);
    assert ([seg] + r[1..])[1..] == r[1..];
    assert NonEmpty(r) == NonEmpty(r[1..]);
  }

  // ----- dot segments ---------------------------------------------------------------------

  /** Processes segments over a stack of kept ones; more than 256 kept at once is refused. */
  function Resolve(stack: seq<string>, segs: seq<string>): (r: Option<seq<string>>)
    decreases |segs|
  {
    if segs == [] then Some(stack)
    else if segs[0] == "." then Resolve(stack, segs[1..])
    else if segs[0] == ".." then Resolve(if stack == [] then [] else stack[..|stack| - 1], segs[1..])
    else if |stack| >= MAX_DEPTH then None
    else Resolve(stack + [segs[0]], segs[1..])
  }

  function Cat(stack: seq<string>): (s: string) {
    if stack == [] then "" else Cat(stack[..|stack| - 1]) + "/" + stack[|stack| - 1]
  }

  function Join(stack: seq<string>): (s: string) {
    if stack == [] then "/" else Cat(stack)
  }

  /** The normal form of an absolute path. */
  function Normal(path: string): (r: Option<string>) {
    match Resolve([], Components(path))
    case None => None
    case Some(stack) => Some(Join(stack))
  }

  lemma {:induction false} NonEmptyHasNoSlash(segs: seq<string>)
    requires forall i :: 0 <= i < |segs| ==> '/' !in segs[i]
    ensures forall i :: 0 <= i < |NonEmpty(segs)| ==> NonEmpty(segs)[i] != "" && '/' !in NonEmpty(segs)[i]
  {
    if segs != [] {
      NonEmptyHasNoSlash(segs[1..]);
    }
  }

  lemma {:induction false} SplitHasNoSlash(s: string)
    ensures forall i :: 0 <= i < |Split(s)| ==> '/' !in Split(s)[i]
  {
    if s != "" {
      SplitHasNoSlash(s[1..]);
    }
  }

  lemma {:induction false} ResolveIsProper(stack: seq<string>, segs: seq<string>)
    requires AllProper(stack) && |stack| <= MAX_DEPTH
    requires forall i :: 0 <= i < |segs| ==> segs[i] != "" && '/' !in segs[i]
    ensures Resolve(stack, segs).Some? ==>
      AllProper(Resolve(stack, segs).value) && |Resolve(stack, segs).value| <= MAX_DEPTH
    decreases |segs|
  {
    if segs != [] {
      if segs[0] == "." {
        ResolveIsProper(stack, segs[1..]);
      } else if segs[0] == ".." {
        ResolveIsProper(if stack == [] then [] else stack[..|stack| - 1], segs[1..]);
      } else if |stack| < MAX_DEPTH {
        ResolveIsProper(stack + [segs[0]], segs[1..]);
      }
    }
  }

  lemma NormalIsProper(path: string)
    requires Resolve([], Components(path)).Some?
    ensures AllProper(Resolve([], Components(path)).value) && |Resolve([], Components(path)).value| <= MAX_DEPTH
  {
    SplitHasNoSlash(path);
    NonEmptyHasNoSlash(Split(path));
    ResolveIsProper([], Components(path));
  }

  lemma {:induction false} ProperResolvesToItself(stack: seq<string>, segs: seq<string>)
    requires AllProper(segs) && |stack| + |segs| <= MAX_DEPTH
    ensures Resolve(stack, segs) == Some(stack + segs)
    decreases |segs|
  {
    if segs == [] {
      assert stack + segs == stack;
    } else {
      ProperResolvesToItself(stack + [segs[0]], segs[1..]);
      assert stack + [segs[0]] + segs[1..] == stack + segs;
    }
  }

  lemma {:induction false} CatOfSnoc(stack: seq<string>, rest: string)
    requires stack != []
    ensures Cat(stack) + rest == Cat(stack[..|stack| - 1]) + ("/" + stack[|stack| - 1] + rest)
  {
    var init, seg := Cat(stack[..|stack| - 1]), stack[|stack| - 1];
    assert init + "/" + seg + rest == init + ("/" + seg + rest);
  }

  /** One more segment behind a slash. */
  lemma {:induction false} SlashThenSegment(seg: string, rest: string)
    requires Proper(seg) && (rest == "" || rest[0] == '/')
    ensures Components("/" + seg + rest) == [seg] + Components(rest)
  {
    hide Components;
    var tail := "/" + seg + rest;
    SlashIsSkipped(tail);
    assert tail[1..] == seg + rest;
    SegmentComesFirst(seg, rest);
  }

  /** Cutting a joined path gives back what was joined. */
  lemma {:induction false} ComponentsOfCat(stack: seq<string>, rest: string)
    requires AllProper(stack) && (rest == "" || rest[0] == '/')
    ensures Components(Cat(stack) + rest) == stack + Components(rest)
    decreases |stack|
  {
    hide Components, Proper;
    if stack == [] {
      assert Cat(stack) + rest == rest;
      assert stack + Components(rest) == Components(rest);
    } else {
      hide Cat;
      var n := |stack| - 1;
      CatOfSnoc(stack, rest);
      ComponentsOfCat(stack[..n], "/" + stack[n] + rest);
      SlashThenSegment(stack[n], rest);
      assert stack[..n] + ([stack[n]] + Components(rest)) == stack + Components(rest);
    }
  }

  lemma ComponentsOfJoin(stack: seq<string>)
    requires AllProper(stack)
    ensures Components(Join(stack)) == stack
  {
    ComponentsOfCat(stack, "");
    assert Cat(stack) + "" == Cat(stack);
    if stack == [] {
      SlashIsSkipped("/");
    }
    assert Components("") == [];
    assert stack + [] == stack;
  }

  /** Normalising twice is normalising once. */
  lemma NormalIsIdempotent(path: string)
    requires Normal(path).Some?
    ensures Normal(Normal(path).value) == Normal(path)
  {
    var stack := Resolve([], Components(path)).value;
    NormalIsProper(path);
    ComponentsOfJoin(stack);
    ProperResolvesToItself([], stack);
    assert [] + stack == stack;
  }

  // ----- depth ------------------------------------------------------------------------------

  /** The kept segments when depth is not limited. */
  function Kept(segs: seq<string>): (r: seq<string>) {
    if segs == [] then []
    else
      var before, last := Kept(segs[..|segs| - 1]), segs[|segs| - 1];
      if last == "." then before
      else if last == ".." then (if before == [] then [] else before[..|before| - 1])
      else before + [last]
  }

  ghost predicate TooDeep(segs: seq<string>) {
    exists k :: 0 <= k <= |segs| && |Kept(segs[..k])| > MAX_DEPTH
  }

  lemma {:induction false} ResolveFollowsKept(segs: seq<string>, k: nat)
    requires k <= |segs|
    requires forall j :: 0 <= j <= k ==> |Kept(segs[..j])| <= MAX_DEPTH
    ensures if TooDeep(segs) then Resolve(Kept(segs[..k]), segs[k..]) == None
            else Resolve(Kept(segs[..k]), segs[k..]) == Some(Kept(segs))
    decreases |segs| - k
  {
    if k == |segs| {
      assert segs[..k] == segs;
    } else {
      assert segs[..k + 1][..k] == segs[..k];
      assert segs[k..][1..] == segs[k + 1..];
      assert segs[k..][0] == segs[k];
      if |Kept(segs[..k + 1])| <= MAX_DEPTH {
        ResolveFollowsKept(segs, k + 1);
      } else {
        assert TooDeep(segs);
      }
    }
  }

  /** A path is refused exactly when, at some segment, more than 256 kept ones are live. */
  lemma RefusedIffTooDeep(path: string)
    ensures Normal(path) == None <==> TooDeep(Components(path))
  {
    var segs := Components(path);
    assert segs[..0] == [] && segs[0..] == segs;
    ResolveFollowsKept(segs, 0);
  }

  // ----- the in-place normaliser --------------------------------------------------------------

  method SkipSlashes(path: string, from: nat) returns (i: nat)
    requires from <= |path|
    ensures from <= i <= |path| && (i < |path| ==> path[i] != '/')
    ensures from < |path| && path[from] == '/' ==> from < i
    ensures forall k :: from <= k < i ==> path[k] == '/'
    ensures Components(path[i..]) == Components(path[from..])
  {
    i := from;
    while i < |path| && path[i] == '/'
      invariant from <= i <= |path|
      invariant forall k :: from <= k < i ==> path[k] == '/'
      invariant from < |path| && path[from] == '/' && i == from ==> path[i] == '/'
      invariant Components(path[i..]) == Components(path[from..])
    {
      SlashIsSkipped(path[i..]);
      assert path[i..][1..] == path[i + 1..];
      i := i + 1;
    }
  }

  method ScanSegment(path: string, start: nat) returns (i: nat)
    requires start < |path| && path[start] != '/'
    ensures start < i <= |path| && (i < |path| ==> path[i] == '/')
    ensures '/' !in path[start..i]
    ensures Components(path[start..]) == [path[start..i]] + Components(path[i..])
  {
    i := start;
    while i < |path| && path[i] != '/'
      invariant start <= i <= |path| && '/' !in path[start..i]
    {
      assert path[start..i + 1] == path[start..i] + [path[i]];
      i := i + 1;
    }
    SegmentComesFirst(path[start..i], path[i..]);
    assert path[start..] == path[start..i] + path[i..];
  }

  method Copy(out: array<char>, o: nat, seg: string)
    requires o + |seg| <= out.Length
    modifies out
    ensures out[..o + |seg|] == old(out[..o]) + seg
  {
    var k := 0;
    while k < |seg|
      invariant k <= |seg|
      invariant out[..o + k] == old(out[..o]) + seg[..k]
    {
      out[o + k] := seg[k];
      assert out[..o + k + 1] == out[..o + k] + [seg[k]];
      k := k + 1;
    }
  }

  /** Where the kept segments start in the output. */
  ghost predicate StartsOk(starts: seq<nat>, stack: seq<string>) {
    |starts| == |stack| && forall k :: 0 <= k < |stack| ==> starts[k] == |Cat(stack[..k])| + 1
  }

  lemma CatGrows(stack: seq<string>, seg: string)
    ensures Cat(stack + [seg]) == Cat(stack) + "/" + seg
  {
    assert (stack + [seg])[..|stack|] == stack;
  }

  lemma PushStarts(starts: seq<nat>, stack: seq<string>, seg: string, o: nat)
    requires StartsOk(starts, stack) && o == |Cat(stack)| + 1
    ensures StartsOk(starts + [o], stack + [seg])
  {
    forall k | 0 <= k < |stack| + 1 ensures (starts + [o])[k] == |Cat((stack + [seg])[..k])| + 1 {
      assert (stack + [seg])[..k] == stack[..k];
      if k == |stack| {
        assert stack[..k] == stack;
      }
    }
  }

  lemma PopStarts(starts: seq<nat>, stack: seq<string>)
    requires StartsOk(starts, stack) && stack != []
    ensures StartsOk(starts[..|starts| - 1], stack[..|stack| - 1])
    ensures starts[|starts| - 1] == |Cat(stack[..|stack| - 1])| + 1
  {
    var n := |stack| - 1;
    forall k | 0 <= k < n ensures starts[..n][k] == |Cat(stack[..n][..k])| + 1 {
      assert stack[..n][..k] == stack[..k];
    }
  }

  /** The offset a pop goes back to, and the slash before it that goes too. */
  lemma PopOffset(stack: seq<string>)
    requires stack != [] && AllProper(stack)
    ensures var n := |stack| - 1;
      var at := |Cat(stack[..n])| + 1;
      && at < |Join(stack)|
      && Join(stack)[at - 1] == '/'
      && Join(stack)[..(if at > 1 then at - 1 else at)] == Join(stack[..n])
  {
    var n := |stack| - 1;
    if n > 0 {
      assert Cat(stack[..n]) != "";
    }
  }

  /** The output holds the kept segments joined, and knows where each starts. */
  ghost predicate Laid(text: string, starts: seq<nat>, stack: seq<string>) {
    text == Join(stack) && StartsOk(starts, stack) && AllProper(stack) && |stack| <= MAX_DEPTH
  }

  lemma LaidShape(text: string, starts: seq<nat>, stack: seq<string>)
    requires Laid(text, starts, stack)
    ensures |starts| == |stack| && |text| >= 1
    ensures |text| > 1 <==> stack != []
  {
    if stack != [] {
      assert Proper(stack[|stack| - 1]);
    }
  }

  method Pop(out: array<char>, o: nat, starts: seq<nat>, ghost stack: seq<string>)
    returns (o': nat, starts': seq<nat>)
    requires o <= out.Length && Laid(out[..o], starts, stack) && stack != []
    modifies out
    ensures o' <= o && starts' == starts[..|starts| - 1]
    ensures Laid(out[..o'], starts', stack[..|stack| - 1])
  {
    PopStarts(starts, stack);
    PopOffset(stack);
    ghost var text := out[..o];
    o' := starts[|starts| - 1];
    starts' := starts[..|starts| - 1];
    if o' > 1 && out[o' - 1] == '/' {
      o' := o' - 1;
    }
    assert out[..o'] == text[..o'];
    out[o'] := '\0';
    assert out[..o'] == text[..o'];
  }

  /** Appends a segment; the codes are the ones the normaliser returns. */
  method Push(out: array<char>, o: nat, starts: seq<nat>, seg: string, ghost stack: seq<string>)
    returns (rc: int, o': nat, starts': seq<nat>)
    requires o <= out.Length && Laid(out[..o], starts, stack) && Proper(seg)
    modifies out
    ensures rc == 0 ==> o' == o + |seg| + (if stack == [] then 0 else 1) <= out.Length
    ensures rc == 0 ==> Laid(out[..o'], starts', stack + [seg]) && |stack| < MAX_DEPTH
    ensures rc == -1 ==> |stack| >= MAX_DEPTH
    ensures rc == -2 ==> o + |seg| + (if stack == [] then 0 else 1) > out.Length
    ensures rc in {0, -1, -2}
  {
    LaidShape(out[..o], starts, stack);
    CatGrows(stack, seg);
    ghost var text := out[..o];
    o', starts' := o, starts;
    if o' > 1 {
      if o' + 1 > out.Length {
        return -2, o', starts';
      }
      out[o'] := '/';
      o' := o' + 1;
      assert out[..o'] == text + "/";
    }
    if |starts| >= MAX_DEPTH {
      return -1, o', starts';
    }
    PushStarts(starts, stack, seg, o');
    starts' := starts + [o'];
    if o' + |seg| > out.Length {
      return -2, o', starts';
    }
    Copy(out, o', seg);
    o' := o' + |seg|;
    rc := 0;
    assert stack + [seg] != [];
  }

  /** One step of the segment loop, as resolution sees it. */
  lemma ResolveStep(stack: seq<string>, path: string, start: nat, i: nat)
    requires start < i <= |path| && Components(path[start..]) == [path[start..i]] + Components(path[i..])
    ensures var seg, rest := path[start..i], Components(path[i..]);
      Resolve(stack, Components(path[start..])) ==
        if seg == "." then Resolve(stack, rest)
        else if seg == ".." then Resolve(if stack == [] then [] else stack[..|stack| - 1], rest)
        else if |stack| >= MAX_DEPTH then None
        else Resolve(stack + [seg], rest)
  {
    hide Components;
    var seg, rest := path[start..i], Components(path[i..]);
    assert ([seg] + rest)[1..] == rest;
  }

  /**
   Normalises in one pass over a caller-supplied buffer.  The result is the normal form, or
   -1 exactly when it is refused for depth; -2 can only happen in a buffer shorter than the
   path.
   */
  method NormalizeAbsolute(path: string, out: array<char>)
    returns (rc: int, len: nat, endsWithSlash: bool)
    modifies out
    ensures out.Length == 0 || path == "" || path[0] != '/' ==> rc == -1
    ensures out.Length > 0 && path != "" && path[0] == '/' ==>
      && endsWithSlash == (path[|path| - 1] == '/')
      && (rc == 0 ==> len <= out.Length && Normal(path) == Some(out[..len]))
      && (rc == -1 ==> Normal(path) == None)
      && (rc == -2 ==> out.Length < |path|)
      && rc in {0, -1, -2}
  {
    len, endsWithSlash := 0, false;
    if out.Length == 0 {
      return -1, len, endsWithSlash;
    }
    if path == "" || path[0] != '/' {
      return -1, len, endsWithSlash;
    }
    endsWithSlash := path[|path| - 1] == '/';
    var starts: seq<nat> := [];
    ghost var stack: seq<string> := [];
    out[0] := '/';
    var o, i := 1, 1;
    SlashIsSkipped(path);
    assert out[..1] == "/";
    hide Components, Resolve, Laid;
    EmptyLaid();
    while i < |path|
      invariant 1 <= o <= i <= |path| && o <= out.Length
      invariant Laid(out[..o], starts, stack)
      invariant Resolve(stack, Components(path[i..])) == Resolve([], Components(path))
      invariant stack != [] && i < |path| ==> path[i] == '/'
      decreases |path| - i
    {
      LaidShape(out[..o], starts, stack);
      var start := SkipSlashes(path, i);
      if start >= |path| {
        i := start;
        break;
      }
      i := ScanSegment(path, start);
      ResolveStep(stack, path, start, i);
      var seg := path[start..i];
      if seg == "." {
        continue;
      }
      if seg == ".." {
        if |starts| > 0 {
          o, starts := Pop(out, o, starts, stack);
          stack := stack[..|stack| - 1];
          LaidShape(out[..o], starts, stack);
        }
        continue;
      }
      rc, o, starts := Push(out, o, starts, seg, stack);
      if rc != 0 {
        return;
      }
      stack := stack + [seg];
    }
    FinishNormal(path, out[..o], starts, stack, i);
    return 0, o, endsWithSlash;
  }

  lemma EmptyLaid()
    ensures Laid("/", [], [])
  {
  }

  lemma FinishNormal(path: string, text: string, starts: seq<nat>, stack: seq<string>, i: nat)
    requires i == |path| && Laid(text, starts, stack)
    requires Resolve(stack, Components(path[i..])) == Resolve([], Components(path))
    ensures Normal(path) == Some(text)
  {
    assert path[i..] == "";
    assert Components("") == [];
  }

  // ----- path and query -----------------------------------------------------------------------

  /** The first question mark, if any, ends the path; what follows it is the query. */
  method SplitPathQuery(target: string) returns (pathLen: nat, queryOff: nat, queryLen: nat)
    ensures pathLen <= |target| && '?' !in target[..pathLen]
    ensures queryOff + queryLen == |target|
    ensures pathLen < |target| ==> target == target[..pathLen] + "?" + target[queryOff..queryOff + queryLen]
    ensures pathLen == |target| ==> queryOff == |target| && queryLen == 0
  {
    var q := 0;
    while q < |target| && target[q] != '?'
      invariant q <= |target| && '?' !in target[..q]
    {
      assert target[..q + 1] == target[..q] + [target[q]];
      q := q + 1;
    }
    pathLen := q;
    if q == |target| {
      return q, |target|, 0;
    }
    queryOff := q + 1;
    queryLen := |target| - (q + 1);
  }

  // ----- percent decoding ---------------------------------------------------------------------

  function HexVal(c: char): (v: int)
    ensures -1 <= v < 16
  {
    if '0' <= c <= '9' then c as int - '0' as int
    else if 'a' <= c <= 'f' then 10 + c as int - 'a' as int
    else if 'A' <= c <= 'F' then 10 + c as int - 'A' as int
    else -1
  }

  /** What an escape stands for, when it is one the decoder accepts. */
  function Escape(hi: char, lo: char, strict: bool): (r: Option<char>) {
    if HexVal(hi) < 0 || HexVal(lo) < 0 then None
    else
      var d := 16 * HexVal(hi) + HexVal(lo);
      if d == 0 || (strict && (d == '/' as int || d == '\\' as int)) then None
      else Some(d as char)
  }

  function Decode(s: string, strict: bool): (r: Option<string>) {
    if s == "" then Some("")
    else if s[0] == '%' then
      if |s| < 3 then None
      else Cons(Escape(s[1], s[2], strict), Decode(s[3..], strict))
    else Cons(Some(s[0]), Decode(s[1..], strict))
  }

  function Cons(c: Option<char>, r: Option<string>): (q: Option<string>) {
    if c.None? || r.None? then None else Some([c.value] + r.value)
  }

  function Prepend(done: string, r: Option<string>): (q: Option<string>) {
    if r.None? then None else Some(done + r.value)
  }

  lemma {:induction false} DecodeShrinks(s: string, strict: bool)
    ensures Decode(s, strict).Some? ==> |Decode(s, strict).value| <= |s|
  {
    if s != "" {
      if s[0] == '%' {
        if |s| >= 3 {
          DecodeShrinks(s[3..], strict);
        }
      } else {
        DecodeShrinks(s[1..], strict);
      }
    }
  }

  /** Decodes into a buffer; -1 on a bad escape, -2 only in a buffer shorter than the input. */
  method PercentDecode(input: string, out: array<char>, strict: bool) returns (rc: int, len: nat)
    modifies out
    ensures out.Length == 0 ==> rc == -1
    ensures out.Length > 0 ==>
      && rc in {0, -1, -2}
      && (rc == 0 ==> len <= out.Length && Decode(input, strict) == Some(out[..len]))
      && (rc == -1 ==> Decode(input, strict) == None)
      && (rc == -2 ==> out.Length < |input|)
      && (rc == -2 && Decode(input, strict).Some? ==> |Decode(input, strict).value| > out.Length)
  {
    len := 0;
    if out.Length == 0 {
      return -1, 0;
    }
    var o, i := 0, 0;
    assert input[0..] == input && out[..0] == "";
    PrependNothing(Decode(input, strict));
    while i < |input|
      invariant o <= i <= |input| && o <= out.Length
      invariant Decode(input, strict) == Prepend(out[..o], Decode(input[i..], strict))
      decreases |input| - i
    {
      var d := input[i];
      var step := 1;
      if input[i] == '%' {
        if i + 2 >= |input| {
          return -1, 0;
        }
        var e := Escape(input[i + 1], input[i + 2], strict);
        if e.None? {
          return -1, 0;
        }
        d := e.value;
        step := 3;
      }
      if o + 1 > out.Length {
        return -2, 0;
      }
      ghost var done := out[..o];
      assert input[i..][step..] == input[i + step..];
      PrependOne(done, d, Decode(input[i + step..], strict));
      out[o] := d;
      o := o + 1;
      assert out[..o] == done + [d];
      i := i + step;
    }
    assert input[i..] == "";
    assert out[..o] + "" == out[..o];
    return 0, o;
  }

  lemma PrependNothing(r: Option<string>)
    ensures Prepend("", r) == r
  {
    if r.Some? {
      assert "" + r.value == r.value;
    }
  }

  lemma PrependOne(done: string, d: char, r: Option<string>)
    ensures Prepend(done, Cons(Some(d), r)) == Prepend(done + [d], r)
  {
    if r.Some? {
      assert done + ([d] + r.value) == done + [d] + r.value;
    }
  }

  // The encoders the decoder undoes: any choice of which bytes to escape, each digit in either case.

  const LOWER_DIGITS := "0123456789abcdef"
  const UPPER_DIGITS := "0123456789ABCDEF"

  function Digit(v: nat, upper: bool): (c: char)
    requires v < 16
  {
    if upper then UPPER_DIGITS[v] else LOWER_DIGITS[v]
  }

  predicate IsDigit(c: char) {
    c in LOWER_DIGITS || c in UPPER_DIGITS
  }

  /** A byte as a percent sign and its two digits, high one first. */
  function Printed(c: char, upperHi: bool, upperLo: bool): (s: string)
    requires c as int < 256
    ensures |s| == 3
  {
    ['%', Digit(c as int / 16, upperHi), Digit(c as int % 16, upperLo)]
  }

  datatype Choice = Literal | Escaped(upperHi: bool, upperLo: bool)

  /** What may be escaped at all; the strict decoder takes no slash of either kind from an escape. */
  predicate Escapable(c: char, strict: bool) {
    0 < c as int < 256 && !(strict && c in {'/', '\\'})
  }

  predicate Legal(c: char, choice: Choice, strict: bool) {
    match choice case Literal => c != '%' case Escaped(_, _) => Escapable(c, strict)
  }

  predicate AllLegal(raw: string, choices: seq<Choice>, strict: bool) {
    |choices| == |raw| && forall i :: 0 <= i < |raw| ==> Legal(raw[i], choices[i], strict)
  }

  function EncodeOne(c: char, choice: Choice): (s: string) {
    match choice
    case Literal => [c]
    case Escaped(hi, lo) => if c as int < 256 then Printed(c, hi, lo) else [c]
  }

  function Encode(raw: string, choices: seq<Choice>): (s: string)
    requires |choices| == |raw|
  {
    if raw == "" then "" else EncodeOne(raw[0], choices[0]) + Encode(raw[1..], choices[1..])
  }

  /** Reading a digit undoes printing it. */
  lemma DigitIsRead(v: nat, upper: bool)
    requires v < 16
    ensures HexVal(Digit(v, upper)) == v
  {
    match v
    case 0 => case 1 => case 2 => case 3 => case 4 => case 5 => case 6 => case 7 =>
    case 8 => case 9 => case 10 => case 11 => case 12 => case 13 => case 14 => case 15 =>
    case _ => assert false;
  }

  lemma ReadIsDigit(c: char)
    ensures HexVal(c) >= 0 <==> IsDigit(c)
    ensures HexVal(c) >= 0 ==> c == Digit(HexVal(c), c in UPPER_DIGITS)
  {
    if IsDigit(c) {
      var upper := c in UPPER_DIGITS;
      var digits := if upper then UPPER_DIGITS else LOWER_DIGITS;
      var v: nat :| v < |digits| && digits[v] == c;
      assert |digits| == 16 && Digit(v, upper) == c;
      DigitIsRead(v, upper);
    }
  }

  /** An escape stands for the byte that is printed so. */
  lemma EscapeIsPrinted(hi: char, lo: char, strict: bool, c: char)
    ensures Escape(hi, lo, strict) == Some(c) <==>
      Escapable(c, strict) && exists a, b :: Printed(c, a, b) == ['%', hi, lo]
  {
    hide HexVal, Digit, Printed;
    if Escape(hi, lo, strict) == Some(c) {
      ReadIsPrinted(hi, lo, c);
    }
    if c as int < 256 {
      forall a, b | Printed(c, a, b) == ['%', hi, lo] ensures HexVal(hi) == c as int / 16 && HexVal(lo) == c as int % 16 {
        PrintedIsRead(hi, lo, c, a, b);
      }
    }
  }

  lemma ReadIsPrinted(hi: char, lo: char, c: char)
    requires HexVal(hi) >= 0 && HexVal(lo) >= 0 && c as int == 16 * HexVal(hi) + HexVal(lo)
    ensures Printed(c, hi in UPPER_DIGITS, lo in UPPER_DIGITS) == ['%', hi, lo]
  {
    hide HexVal, Digit;
    ReadIsDigit(hi);
    ReadIsDigit(lo);
    assert c as int / 16 == HexVal(hi) && c as int % 16 == HexVal(lo);
  }

  lemma PrintedIsRead(hi: char, lo: char, c: char, a: bool, b: bool)
    requires c as int < 256 && Printed(c, a, b) == ['%', hi, lo]
    ensures HexVal(hi) == c as int / 16 && HexVal(lo) == c as int % 16
  {
    hide HexVal, Digit;
    assert Printed(c, a, b)[1] == hi && Printed(c, a, b)[2] == lo;
    DigitIsRead(c as int / 16, a);
    DigitIsRead(c as int % 16, b);
  }

  /** Refused exactly: no digit, byte 0, and in strict mode a slash. */
  lemma EscapeIsRefused(hi: char, lo: char, strict: bool)
    ensures Escape(hi, lo, strict) == None <==>
      || !IsDigit(hi) || !IsDigit(lo)
      || hi == lo == '0'
      || (strict && hi == '2' && lo in {'f', 'F'})
      || (strict && hi == '5' && lo in {'c', 'C'})
  {
    ReadIsDigit(hi);
    ReadIsDigit(lo);
  }

  /** Decoding undoes every encoder. */
  lemma {:induction false} DecodeUndoesEncode(raw: string, choices: seq<Choice>, strict: bool)
    requires AllLegal(raw, choices, strict)
    ensures Decode(Encode(raw, choices), strict) == Some(raw)
  {
    if raw != "" {
      var c, rest, s := raw[0], Encode(raw[1..], choices[1..]), Encode(raw, choices);
      assert Legal(c, choices[0], strict);
      forall i | 0 <= i < |raw[1..]| ensures Legal(raw[1..][i], choices[1..][i], strict) {
        assert Legal(raw[i + 1], choices[i + 1], strict);
      }
      DecodeUndoesEncode(raw[1..], choices[1..], strict);
      assert [c] + raw[1..] == raw;
      match choices[0]
      case Literal =>
        assert s[1..] == rest;
      case Escaped(a, b) =>
        assert Printed(c, a, b) == ['%', s[1], s[2]];
        EscapeIsPrinted(s[1], s[2], strict, c);
        assert s[0] == '%' && s[3..] == rest;
    }
  }

  /** And only encodings decode: every accepted input is the encoding of its result. */
  lemma {:induction false} DecodedWasEncoded(s: string, strict: bool) returns (choices: seq<Choice>)
    requires Decode(s, strict).Some?
    ensures AllLegal(Decode(s, strict).value, choices, strict)
    ensures Encode(Decode(s, strict).value, choices) == s
  {
    hide Escape, Printed;
    if s == "" {
      choices := [];
    } else {
      var n := if s[0] == '%' then 3 else 1;
      var rest := DecodedWasEncoded(s[n..], strict);
      var raw := Decode(s, strict).value;
      var first := Literal;
      if s[0] == '%' {
        EscapeIsPrinted(s[1], s[2], strict, raw[0]);
        var a, b :| Printed(raw[0], a, b) == ['%', s[1], s[2]];
        first := Escaped(a, b);
      }
      choices := [first] + rest;
      assert raw[1..] == Decode(s[n..], strict).value && choices[1..] == rest;
      forall i | 0 <= i < |raw| ensures Legal(raw[i], choices[i], strict) {
        if i > 0 {
          assert Legal(raw[1..][i - 1], rest[i - 1], strict);
        }
      }
      assert EncodeOne(raw[0], first) == s[..n];
      assert s == s[..n] + s[n..];
    }
  }

  // Decoding and splitting commute.

  function DecodeAll(segs: seq<string>, strict: bool): (r: Option<seq<string>>) {
    if segs == [] then Some([])
    else
      var first, rest := Decode(segs[0], strict), DecodeAll(segs[1..], strict);
      if first.None? || rest.None? then None else Some([first.value] + rest.value)
  }

  function SplitOf(r: Option<string>): (q: Option<seq<string>>) {
    if r.None? then None else Some(Split(r.value))
  }

  /** Decoding the first segment of a split character by character. */
  function ConsFirst(c: Option<char>, r: Option<seq<string>>): (q: Option<seq<string>>) {
    if c.None? || r.None? || r.value == [] then None
    else Some([[c.value] + r.value[0]] + r.value[1..])
  }

  lemma SplitOfCons(c: char, r: Option<string>)
    requires c != '/'
    ensures SplitOf(Cons(Some(c), r)) == ConsFirst(Some(c), SplitOf(r))
  {
    if r.Some? {
      assert ([c] + r.value)[1..] == r.value;
    }
  }

  lemma EscapeIsNoSlash(hi: char, lo: char)
    ensures Escape(hi, lo, true).Some? ==> Escape(hi, lo, true).value != '/'
    ensures Escape(hi, lo, true).Some? ==> hi != '/' && lo != '/'
  {
  }

  lemma {:induction false} ConsAllFirst(c: Option<char>, first: string, rest: seq<string>, decoded: Option<string>)
    requires decoded == Cons(c, Decode(first, true))
    ensures (if decoded.None? || DecodeAll(rest, true).None? then None
             else Some([decoded.value] + DecodeAll(rest, true).value))
         == ConsFirst(c, DecodeAll([first] + rest, true))
  {
    assert ([first] + rest)[1..] == rest;
  }

  lemma {:induction false} CommuteAtLiteral(s: string)
    requires s != "" && s[0] != '/' && s[0] != '%'
    requires DecodeAll(Split(s[1..]), true) == SplitOf(Decode(s[1..], true))
    ensures DecodeAll(Split(s), true) == SplitOf(Decode(s, true))
  {
    var r := Split(s[1..]);
    var first := [s[0]] + r[0];
    assert first[1..] == r[0] && Split(s)[1..] == r[1..] && r == [r[0]] + r[1..];
    ConsAllFirst(Some(s[0]), r[0], r[1..], Decode(first, true));
    SplitOfCons(s[0], Decode(s[1..], true));
  }

  lemma {:induction false} SegmentIsFirst(s: string, n: nat)
    requires n <= |s| && '/' !in s[..n] && (n == |s| || s[n] == '/')
    ensures Split(s)[0] == s[..n]
  {
    assert s == s[..n] + s[n..];
    SplitAfterSegment(s[..n], s[n..]);
    assert Split(s[n..])[0] == "";
    assert s[..n] + "" == s[..n];
  }

  /** An escape that a slash cuts short is refused on both sides. */
  lemma {:induction false} CutEscape(s: string)
    requires s != "" && s[0] == '%' && (|s| < 3 || s[1] == '/' || s[2] == '/')
    ensures Decode(Split(s)[0], true) == None && Decode(s, true) == None
  {
    var n := if |s| >= 2 && s[1] == '/' then 1 else if |s| >= 3 then 2 else |s|;
    SegmentIsFirst(s, n);
    assert s[..n][0] == '%';
  }

  lemma {:induction false} CommuteAtEscape(s: string)
    requires |s| >= 3 && s[0] == '%' && s[1] != '/' && s[2] != '/'
    requires DecodeAll(Split(s[3..]), true) == SplitOf(Decode(s[3..], true))
    ensures DecodeAll(Split(s), true) == SplitOf(Decode(s, true))
  {
    var r := Split(s[3..]);
    assert s == s[..3] + s[3..];
    SplitAfterSegment(s[..3], s[3..]);
    var first := s[..3] + r[0];
    assert first[3..] == r[0] && Split(s)[1..] == r[1..] && r == [r[0]] + r[1..];
    var e := Escape(s[1], s[2], true);
    ConsAllFirst(e, r[0], r[1..], Decode(first, true));
    if e.Some? {
      EscapeIsNoSlash(s[1], s[2]);
      SplitOfCons(e.value, Decode(s[3..], true));
    }
  }

  lemma {:induction false} DecodeCommutesWithSplit(s: string)
    ensures DecodeAll(Split(s), true) == SplitOf(Decode(s, true))
    decreases |s|
  {
    if s == "" {
      var segs := Split(s);
      assert segs[1..] == [] && segs[0] == "";
      assert Decode(segs[0], true) == Some("") && DecodeAll(segs[1..], true) == Some([]);
      assert [""] + [] == segs;
    } else if s[0] == '/' {
      DecodeCommutesWithSplit(s[1..]);
      assert Split(s)[1..] == Split(s[1..]);
      if Decode(s[1..], true).Some? {
        assert (['/'] + Decode(s[1..], true).value)[1..] == Decode(s[1..], true).value;
      }
    } else if s[0] != '%' {
      DecodeCommutesWithSplit(s[1..]);
      CommuteAtLiteral(s);
    } else if |s| < 3 || s[1] == '/' || s[2] == '/' {
      CutEscape(s);
    } else {
      DecodeCommutesWithSplit(s[3..]);
      CommuteAtEscape(s);
    }
  }
}
