/**
 From a request path to an open file: the parser's decode-and-normalise step, the path
 relative to the document root, and the walk that opens it one component at a time.
 */
module Docroot {
  import opened Options
  import opened Url

  const REQ_PATH_MAX := 2048
  const PATH_MAX := 4096
  const NAME_MAX := 255
  const INDEX_MAX := 64
  const DEFAULT_INDEX := "index.html"

  // ----- what the parser accepts ------------------------------------------------------------

  predicate Accepted(path: string) {
    && |path| <= REQ_PATH_MAX
    && var d := Decode(path, true);
       d.Some? && d.value != "" && d.value[0] == '/' && Normal(d.value).Some?
  }

  function Decoded(path: string): (d: string)
    requires Accepted(path)
  {
    Decode(path, true).value
  }

  function Stack(path: string): (r: seq<string>)
    requires Accepted(path)
  {
    Resolve([], Components(Decoded(path))).value
  }

  /** A plain file name, as the configuration accepts it; empty when none was given. */
  predicate IndexOk(index: string) {
    index == "" || (Proper(index) && Clean(index) && |index| < INDEX_MAX)
  }

  function IndexName(index: string): (r: string) {
    if index != "" then index else DEFAULT_INDEX
  }

  /** No terminator inside. */
  predicate Clean(s: string) {
    '\0' !in s
  }

  predicate AllClean(segs: seq<string>) {
    forall i :: 0 <= i < |segs| ==> Clean(segs[i])
  }

  // ----- lengths and terminators ------------------------------------------------------------

  /** The room the segments take, each with one slash. */
  function Room(segs: seq<string>): (n: nat) {
    if segs == [] then 0 else |segs[0]| + 1 + Room(segs[1..])
  }

  lemma {:induction false} RoomOfSnoc(segs: seq<string>, seg: string)
    ensures Room(segs + [seg]) == Room(segs) + |seg| + 1
  {
    if segs == [] {
      assert [] + [seg] == [seg];
    } else {
      assert (segs + [seg])[1..] == segs[1..] + [seg];
      RoomOfSnoc(segs[1..], seg);
    }
  }

  lemma {:induction false} RoomOfSplit(s: string)
    ensures Room(Split(s)) == |s| + 1
  {
    if s != "" {
      RoomOfSplit(s[1..]);
      var r := Split(s[1..]);
      if s[0] == '/' {
        assert ([""] + r)[1..] == r;
      } else {
        assert ([[s[0]] + r[0]] + r[1..])[1..] == r[1..];
      }
    }
  }

  lemma {:induction false} RoomOfNonEmpty(segs: seq<string>)
    ensures Room(NonEmpty(segs)) <= Room(segs)
  {
    if segs != [] {
      RoomOfNonEmpty(segs[1..]);
      var rest := NonEmpty(segs[1..]);
      if segs[0] == "" {
        assert [] + rest == rest;
      } else {
        assert ([segs[0]] + rest)[1..] == rest;
      }
    }
  }

  lemma RoomOfComponents(path: string)
    requires path != "" && path[0] == '/'
    ensures Room(Components(path)) <= |path|
  {
    SlashIsSkipped(path);
    RoomOfSplit(path[1..]);
    RoomOfNonEmpty(Split(path[1..]));
  }

  lemma {:induction false} RoomOfResolve(stack: seq<string>, segs: seq<string>)
    requires Resolve(stack, segs).Some?
    ensures Room(Resolve(stack, segs).value) <= Room(stack) + Room(segs)
    decreases |segs|
  {
    if segs != [] {
      if segs[0] == "." {
        RoomOfResolve(stack, segs[1..]);
      } else if segs[0] == ".." {
        if stack != [] {
          var n := |stack| - 1;
          RoomOfSnoc(stack[..n], stack[n]);
          assert stack[..n] + [stack[n]] == stack;
          RoomOfResolve(stack[..n], segs[1..]);
        } else {
          RoomOfResolve([], segs[1..]);
        }
      } else {
        RoomOfSnoc(stack, segs[0]);
        RoomOfResolve(stack + [segs[0]], segs[1..]);
      }
    }
  }

  lemma {:induction false} CatFillsRoom(stack: seq<string>)
    ensures |Cat(stack)| == Room(stack)
    decreases |stack|
  {
    if stack != [] {
      var n := |stack| - 1;
      CatFillsRoom(stack[..n]);
      RoomOfSnoc(stack[..n], stack[n]);
      assert stack[..n] + [stack[n]] == stack;
    }
  }

  /** Normalising never makes a path longer. */
  lemma NormalShrinks(path: string)
    requires path != "" && path[0] == '/' && Normal(path).Some?
    ensures |Normal(path).value| <= |path|
  {
    var segs := Components(path);
    RoomOfComponents(path);
    RoomOfResolve([], segs);
    CatFillsRoom(Resolve([], segs).value);
  }

  lemma {:induction false} DecodeIsClean(s: string)
    requires Clean(s) && Decode(s, true).Some?
    ensures Clean(Decode(s, true).value)
  {
    if s != "" {
      DecodeIsClean(s[if s[0] == '%' then 3 else 1..]);
    }
  }

  lemma {:induction false} SplitIsClean(s: string)
    requires Clean(s)
    ensures AllClean(Split(s))
  {
    if s != "" {
      SplitIsClean(s[1..]);
    }
  }

  lemma {:induction false} NonEmptyIsClean(segs: seq<string>)
    requires AllClean(segs)
    ensures AllClean(NonEmpty(segs))
  {
    if segs != [] {
      NonEmptyIsClean(segs[1..]);
    }
  }

  lemma {:induction false} ResolveIsClean(stack: seq<string>, segs: seq<string>)
    requires AllClean(stack) && AllClean(segs) && Resolve(stack, segs).Some?
    ensures AllClean(Resolve(stack, segs).value)
    decreases |segs|
  {
    if segs != [] {
      if segs[0] == "." {
        ResolveIsClean(stack, segs[1..]);
      } else if segs[0] == ".." {
        ResolveIsClean(if stack == [] then [] else stack[..|stack| - 1], segs[1..]);
      } else {
        ResolveIsClean(stack + [segs[0]], segs[1..]);
      }
    }
  }

  lemma {:induction false} CatIsClean(stack: seq<string>)
    requires AllClean(stack)
    ensures Clean(Cat(stack))
    decreases |stack|
  {
    if stack != [] {
      CatIsClean(stack[..|stack| - 1]);
    }
  }

  lemma StackIsClean(path: string)
    requires Clean(path) && Accepted(path)
    ensures AllClean(Stack(path))
  {
    DecodeIsClean(path);
    SplitIsClean(Decoded(path));
    NonEmptyIsClean(Split(Decoded(path)));
    ResolveIsClean([], Components(Decoded(path)));
  }

  // ----- parsing ------------------------------------------------------------------------------

  /** Decodes and normalises a request path in buffers as long as the path itself. */
  method ParsePath(path: string) returns (ok: bool, norm: string, endsWithSlash: bool)
    ensures ok <==> Accepted(path)
    ensures ok ==> norm == Join(Stack(path))
    ensures ok ==> endsWithSlash == (Decoded(path)[|Decoded(path)| - 1] == '/')
  {
    norm, endsWithSlash := "", false;
    if |path| > REQ_PATH_MAX {
      return false, norm, endsWithSlash;
    }
    var cap := if |path| < 1 then 1 else |path|;
    var dec := new char[cap];
    var rc, n := PercentDecode(path, dec, true);
    if rc != 0 {
      return false, norm, endsWithSlash;
    }
    var buf := new char[cap];
    var text := dec[..n];
    DecodeShrinks(path, true);
    var m;
    rc, m, endsWithSlash := NormalizeAbsolute(text, buf);
    if rc != 0 {
      return false, norm, endsWithSlash;
    }
    return true, buf[..m], endsWithSlash;
  }

  // ----- the path below the document root ---------------------------------------------------

  /** The relative path, when it fits; a directory gets the index file's name. */
  function RelPath(norm: string, endsWithSlash: bool, index: string): (r: Option<string>) {
    if norm == "" || norm[0] != '/' then None
    else
      var rel := norm[1..];
      var text := if rel == "" || endsWithSlash then DirPart(rel) + IndexName(index) else rel;
      if |text| < PATH_MAX then Some(text) else None
  }

  function DirPart(rel: string): (r: string) {
    var dir := if rel != "" && rel[|rel| - 1] == '/' then rel[..|rel| - 1] else rel;
    if dir == "" then "" else dir + "/"
  }

  method PutDirPart(out: array<char>, rel: string) returns (ok: bool, len: nat)
    requires out.Length == PATH_MAX
    modifies out
    ensures ok ==> len < PATH_MAX && out[..len] == DirPart(rel)
    ensures !ok ==> |DirPart(rel)| >= PATH_MAX
  {
    len := 0;
    var relLen := |rel|;
    if relLen > 0 {
      if rel[relLen - 1] == '/' {
        relLen := relLen - 1;
      }
      if relLen > 0 {
        if relLen >= PATH_MAX {
          return false, 0;
        }
        Copy(out, len, rel[..relLen]);
        len := len + relLen;
        if len + 1 >= PATH_MAX {
          return false, 0;
        }
        Copy(out, len, "/");
        len := len + 1;
      }
    }
    return true, len;
  }

  method BuildRelPath(out: array<char>, norm: string, endsWithSlash: bool, index: string)
    returns (rc: int, len: nat)
    requires out.Length == PATH_MAX
    modifies out
    ensures rc == 0 <==> RelPath(norm, endsWithSlash, index).Some?
    ensures rc == 0 ==> len < PATH_MAX && out[len] == '\0'
    ensures rc == 0 ==> RelPath(norm, endsWithSlash, index) == Some(out[..len])
    ensures rc != 0 ==> rc == -1
  {
    hide DirPart;
    len := 0;
    if norm == "" || norm[0] != '/' {
      return -1, 0;
    }
    var rel := norm[1..];
    if rel == "" || endsWithSlash {
      var idx := IndexName(index);
      var ok;
      ok, len := PutDirPart(out, rel);
      if !ok || len + |idx| >= PATH_MAX {
        return -1, 0;
      }
      Copy(out, len, idx);
      len := len + |idx|;
    } else {
      if |rel| >= PATH_MAX {
        return -1, 0;
      }
      Copy(out, len, rel);
      len := |rel|;
      assert out[..len] == rel;
    }
    ghost var text := out[..len];
    out[len] := '\0';
    assert out[..len] == text;
    return 0, len;
  }

  // ----- the walk -----------------------------------------------------------------------------

  datatype Outcome = Invalid | TooLong | DotRefused | OpenFailed | Opened

  /** Steps over slashes to the next component; none is left when it returns false. */
  method NextComponent(relPath: string, p: nat) returns (more: bool, start: nat, end: nat)
    requires p < |relPath|
    ensures !more ==> relPath[|relPath| - 1] == '/' && Components(relPath[p..]) == []
    ensures more ==> p <= start < end <= |relPath| && relPath[start] != '/'
    ensures more ==> relPath[start..end] != "" && '/' !in relPath[start..end]
    ensures more && end < |relPath| ==>
      relPath[end] == '/' && Components(relPath[p..]) == [relPath[start..end]] + Components(relPath[end + 1..])
    ensures more && end == |relPath| ==>
      relPath[end - 1] != '/' && Components(relPath[p..]) == [relPath[start..end]]
  {
    hide Components;
    end := 0;
    start := SkipSlashes(relPath, p);
    more := start < |relPath|;
    NothingLeft(relPath);
    if more {
      end := ScanSegment(relPath, start);
      if end < |relPath| {
        SlashIsSkipped(relPath[end..]);
        assert relPath[end..][1..] == relPath[end + 1..];
      } else {
        assert relPath[end - 1] == relPath[start..end][end - 1 - start];
      }
    }
  }

  /** What was visited and what is left make up the whole. */
  predicate Visited(all: seq<string>, names: seq<string>, rest: seq<string>) {
    all == names + rest
  }

  lemma OneMore(all: seq<string>, names: seq<string>, seg: string, rest: seq<string>)
    requires Visited(all, names, [seg] + rest)
    ensures names <= all && |names| < |all| && all[|names|] == seg
    ensures Visited(all, names + [seg], rest) && names + [seg] <= all
    ensures rest == [] ==> names + [seg] == all
  {
  }

  lemma SomeVisited(all: seq<string>, names: seq<string>, rest: seq<string>)
    requires Visited(all, names, rest)
    ensures names <= all
  {
  }

  lemma AllVisited(all: seq<string>, names: seq<string>)
    requires Visited(all, names, [])
    ensures names == all
  {
  }

  lemma OneMoreIsProper(names: seq<string>, seg: string)
    requires Short(names) && Proper(seg) && |seg| <= NAME_MAX
    ensures Short(names + [seg])
  {
  }

  predicate Short(names: seq<string>) {
    AllProper(names) && forall i :: 0 <= i < |names| ==> |names[i]| <= NAME_MAX
  }

  lemma NotShort(all: seq<string>)
    ensures forall i :: 0 <= i < |all| && (|all[i]| > NAME_MAX || all[i] in {".", ".."}) ==> !Short(all)
  {
  }

  datatype Verdict = AtEnd | Long | Dots | Good

  /** Looks at the next component before anything is opened. */
  method Examine(relPath: string, p: nat, ghost all: seq<string>, ghost names: seq<string>)
    returns (v: Verdict, seg: string, end: nat)
    requires p < |relPath| && Visited(all, names, Components(relPath[p..])) && Short(names)
    ensures names <= all
    ensures v == AtEnd ==> relPath[|relPath| - 1] == '/' && names == all
    ensures v == Long ==> |names| < |all| && |all[|names|]| > NAME_MAX
    ensures v == Dots ==> |names| < |all| && all[|names|] in {".", ".."}
    ensures v == Good ==> p < end <= |relPath| && Short(names + [seg]) && names + [seg] <= all
    ensures v == Good && end < |relPath| ==>
      relPath[end] == '/' && Visited(all, names + [seg], Components(relPath[end + 1..]))
    ensures v == Good && end == |relPath| ==> names + [seg] == all && relPath[end - 1] != '/'
  {
    hide Components, Short, Visited;
    SomeVisited(all, names, Components(relPath[p..]));
    var more, start;
    more, start, end := NextComponent(relPath, p);
    if !more {
      AllVisited(all, names);
      return AtEnd, "", end;
    }
    seg := relPath[start..end];
    ghost var rest := if end < |relPath| then Components(relPath[end + 1..]) else [];
    assert [seg] + [] == [seg];
    OneMore(all, names, seg, rest);
    if |seg| > NAME_MAX {
      return Long, seg, end;
    }
    if seg == "." || seg == ".." {
      return Dots, seg, end;
    }
    OneMoreIsProper(names, seg);
    return Good, seg, end;
  }

  /**
   Opens the path below the root one component at a time, never through ".", ".." or an
   absolute path.  Every directory opened on the way is closed again.  `found` is the answer of
   the file system to each open in turn; the outcome is that of the first component that is
   refused or not found, and the file is opened exactly when there is none.
   */
  method Walk(rootOk: bool, relPath: string, found: nat -> bool)
    returns (r: Outcome, names: seq<string>, opens: nat, closes: nat)
    ensures names <= Components(relPath) && Short(names)
    ensures opens == closes + (if r == Opened then 1 else 0)
    ensures r == Opened <==>
      && Relative(rootOk, relPath) && relPath[|relPath| - 1] != '/'
      && Short(Components(relPath)) && AllFound(found, |Components(relPath)|)
    ensures r == Opened ==> names == Components(relPath) && opens == |names| && names != []
    ensures r != Invalid ==> Relative(rootOk, relPath)
    ensures r == Invalid && Relative(rootOk, relPath) ==>
      relPath[|relPath| - 1] == '/' && names == Components(relPath) && AllFound(found, |names|)
    ensures r == DotRefused ==>
      && |names| < |Components(relPath)| && Components(relPath)[|names|] in {".", ".."}
      && AllFound(found, |names|)
    ensures r == TooLong ==>
      && |names| < |Components(relPath)| && |Components(relPath)[|names|]| > NAME_MAX
      && AllFound(found, |names|)
    ensures r == OpenFailed ==>
      names != [] && !found(|names| - 1) && AllFound(found, |names| - 1) && opens == |names| - 1
  {
    hide Components, Short, Visited;
    names, opens, closes := [], 0, 0;
    ghost var all := Components(relPath);
    NoneYet(all);
    if !rootOk || relPath == "" || relPath[0] == '/' {
      return Invalid, names, opens, closes;
    }
    var atRoot := true;
    var p := 0;
    assert relPath[0..] == relPath;
    while p < |relPath|
      invariant p <= |relPath| && (p == 0 || relPath[p - 1] == '/')
      invariant Visited(all, names, Components(relPath[p..]))
      invariant Short(names)
      invariant opens == closes + (if atRoot then 0 else 1)
      invariant opens == |names| && AllFound(found, |names|)
      decreases |relPath| - p
    {
      var v, seg, end := Examine(relPath, p, all, names);
      closes := closes + (if atRoot then 0 else 1);
      if v != Good {
        NotShort(all);
        return if v == AtEnd then Invalid else if v == Long then TooLong else DotRefused, names, opens, closes;
      }
      names := names + [seg];
      if !found(opens) {
        return OpenFailed, names, opens, closes;
      }
      opens := opens + 1;
      if end == |relPath| {
        return Opened, names, opens, closes;
      }
      atRoot := false;
      p := end + 1;
    }
    NothingLeft(relPath);
    AllVisited(all, names);
    return Invalid, names, opens, closes + (if atRoot then 0 else 1);
  }

  predicate Relative(rootOk: bool, relPath: string) {
    rootOk && relPath != "" && relPath[0] != '/'
  }

  ghost predicate AllFound(found: nat -> bool, n: int) {
    forall k: nat :: k < n ==> found(k)
  }

  lemma NoneYet(all: seq<string>)
    ensures Short([]) && Visited(all, [], all) && [] <= all
  {
  }

  lemma NothingLeft(s: string)
    ensures Components(s[|s|..]) == []
    ensures forall r: seq<string> :: r + [] == r
  {
    assert s[|s|..] == "";
    assert Split("") == [""];
    assert [""][1..] == [];
  }

  // ----- accepted paths are servable ------------------------------------------------------------

  function Directory(path: string): (b: bool)
    requires Accepted(path)
  {
    Stack(path) == [] || Decoded(path)[|Decoded(path)| - 1] == '/'
  }

  lemma RelPathLength(path: string, index: string)
    requires Accepted(path) && IndexOk(index)
    ensures |Join(Stack(path))| <= REQ_PATH_MAX && |IndexName(index)| < INDEX_MAX
  {
    DecodeShrinks(path, true);
    NormalShrinks(Decoded(path));
  }

  lemma JoinStartsWithSlash(stack: seq<string>)
    ensures Join(stack) != "" && Join(stack)[0] == '/'
    ensures stack != [] && AllProper(stack) ==>
      |Join(stack)| > 1 && Join(stack)[1] != '/' && Join(stack)[|Join(stack)| - 1] != '/'
  {
    FirstOfCat(stack);
    if stack != [] && AllProper(stack) {
      var last := stack[|stack| - 1];
      assert Proper(last);
      assert Join(stack)[|Join(stack)| - 1] == last[|last| - 1];
    }
  }

  lemma {:induction false} FirstOfCat(stack: seq<string>)
    ensures stack != [] ==> Cat(stack) != "" && Cat(stack)[0] == '/'
    ensures stack != [] && AllProper(stack) ==> |Cat(stack)| > 1 && Cat(stack)[1] != '/'
    decreases |stack|
  {
    if |stack| > 1 {
      FirstOfCat(stack[..|stack| - 1]);
    } else if |stack| == 1 {
      assert Cat(stack[..0]) == "";
      assert Cat(stack) == "/" + stack[0];
      assert AllProper(stack) ==> Proper(stack[0]);
    }
  }

  /** The text of the relative path of an accepted request. */
  lemma RelPathText(path: string, index: string)
    requires Accepted(path) && IndexOk(index)
    ensures var stack := Stack(path);
      RelPath(Join(stack), Decoded(path)[|Decoded(path)| - 1] == '/', index)
      == Some((Join(stack) + (if !Directory(path) then "" else if stack == [] then IndexName(index)
                              else "/" + IndexName(index)))[1..])
  {
    var stack := Stack(path);
    var norm := Join(stack);
    RelPathLength(path, index);
    NormalIsProper(Decoded(path));
    JoinStartsWithSlash(stack);
    var idx := IndexName(index);
    if stack == [] {
      assert norm[1..] == "" && ("/" + idx)[1..] == idx && "" + idx == idx;
    } else if Directory(path) {
      assert (norm + ("/" + idx))[1..] == norm[1..] + "/" + idx;
    } else {
      assert norm + "" == norm;
    }
  }

  lemma CatOfNone()
    ensures Cat([]) == ""
  {
  }

  lemma RelPathComponents(stack: seq<string>, idx: string)
    requires AllProper(stack) && Proper(idx)
    ensures Components(Join(stack)[1..]) == stack
    ensures Components((Join(stack) + (if stack == [] then idx else "/" + idx))[1..]) == stack + [idx]
  {
    hide Components, Cat;
    ComponentsOfJoin(stack);
    JoinStartsWithSlash(stack);
    SlashIsSkipped(Join(stack));
    var text := Join(stack) + (if stack == [] then idx else "/" + idx);
    assert text == Cat(stack) + ("/" + idx) by {
      if stack == [] {
        CatOfNone();
        assert "" + ("/" + idx) == "/" + idx;
      }
    }
    ComponentsOfCat(stack, "/" + idx);
    SlashIsSkipped("/" + idx);
    assert ("/" + idx)[1..] == idx && idx + "" == idx;
    SegmentComesFirst(idx, "");
    NothingLeft("");
    assert Components("") == [];
    SlashIsSkipped(text);
  }

  /**
   Every accepted request path without a terminator in it gives a relative path, and that path
   is the kept segments, then the index name for a directory: no component is empty, "." or
   "..", it is not absolute, does not end in a slash, and fits.
   */
  lemma AcceptedIsServable(path: string, index: string)
    requires Clean(path) && Accepted(path) && IndexOk(index)
    ensures var rel := RelPath(Join(Stack(path)), Decoded(path)[|Decoded(path)| - 1] == '/', index);
      && rel.Some?
      && rel.value != "" && rel.value[0] != '/' && rel.value[|rel.value| - 1] != '/'
      && Clean(rel.value)
      && Components(rel.value) == Stack(path) + (if Directory(path) then [IndexName(index)] else [])
      && AllProper(Components(rel.value))
  {
    hide Components, RelPath, Resolve, Decode;
    var stack, idx := Stack(path), IndexName(index);
    NormalIsProper(Decoded(path));
    StackIsClean(path);
    CatIsClean(stack);
    RelPathText(path, index);
    assert Proper(idx) && Clean(idx);
    RelPathComponents(stack, idx);
    JoinStartsWithSlash(stack);
    if !Directory(path) {
      assert Join(stack) + "" == Join(stack);
      assert stack + [] == stack;
    }
  }

  /** Parse, build, walk: for an accepted path neither of the last two refuses it. */
  method OpenTarget(path: string, index: string, rootOk: bool, found: nat -> bool)
    returns (accepted: bool, r: Outcome, names: seq<string>)
    requires Clean(path) && IndexOk(index)
    ensures accepted <==> Accepted(path)
    ensures accepted ==> r != DotRefused && (rootOk ==> r != Invalid)
    ensures accepted ==>
      var target := Stack(path) + (if Directory(path) then [IndexName(index)] else []);
      && (r == Opened <==> rootOk && Short(target) && AllFound(found, |target|))
      && (r == Opened ==> names == target)
      && (r == OpenFailed ==> names <= target && names != [] && !found(|names| - 1))
  {
    hide Components, RelPath, Accepted, Stack, Decoded, Directory;
    names, r := [], Invalid;
    var norm, ends;
    accepted, norm, ends := ParsePath(path);
    if !accepted {
      return;
    }
    AcceptedIsServable(path, index);
    var out := new char[PATH_MAX];
    var rc, len := BuildRelPath(out, norm, ends, index);
    var opens, closes;
    r, names, opens, closes := Walk(rootOk, out[..len], found);
  }
}
