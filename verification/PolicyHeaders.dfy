/**
 Response headers set by policy: security headers of the host and of the matched route, CORS
 headers, and the host's custom lines, collected into one list without repeated names.
 */
module PolicyHeaders {
  import Decimal
  import opened Options

  const HDR_MAX := 64
  const LINE_MAX := 384
  const NAME_MAX := 64

  // ----- names --------------------------------------------------------------------------------

  function Lower(c: char): (l: char) {
    if 'A' <= c <= 'Z' then (c as int + 32) as char else c
  }

  function LowerAll(s: string): (l: string)
    ensures |l| == |s|
  {
    if s == "" then "" else [Lower(s[0])] + LowerAll(s[1..])
  }

  predicate SameName(a: string, b: string) {
    LowerAll(a) == LowerAll(b)
  }

  /** A name as it is stored, cut to the room there is. */
  function Stored(name: string): (s: string)
    ensures s <= name && |s| == if |name| <= 63 then |name| else 63
  {
    if |name| < NAME_MAX then name else name[..NAME_MAX - 1]
  }

  function LineOf(name: string, value: string): (s: string) {
    name + ": " + value + "\r\n"
  }

  /** Where the first colon is, or the length. */
  function ColonAt(line: string): (i: nat)
    ensures i <= |line|
  {
    if line == "" || line[0] == ':' then 0 else 1 + ColonAt(line[1..])
  }

  /** The name in front of the colon, when there is one of a size that can be stored. */
  function NameOf(line: string): (r: Option<string>) {
    var i := ColonAt(line);
    if i == |line| || i == 0 || i >= NAME_MAX then None else Some(line[..i])
  }

  // ----- the list of headers ------------------------------------------------------------------

  /** `own`: the line is the context's own copy, not a borrowed one. */
  datatype Entry = Entry(name: string, line: string, own: bool)
  datatype List = List(entries: seq<Entry>, overflow: bool)

  function Find(es: seq<Entry>, name: string): (k: int)
    ensures -1 <= k < |es|
    ensures k >= 0 ==> SameName(es[k].name, name)
    ensures k < 0 ==> forall i :: 0 <= i < |es| ==> !SameName(es[i].name, name)
    ensures forall i :: 0 <= i < k ==> !SameName(es[i].name, name)
  {
    FindFrom(es, name, 0)
  }

  function FindFrom(es: seq<Entry>, name: string, from: nat): (k: int)
    requires from <= |es|
    ensures k == -1 || from <= k < |es|
    ensures k >= 0 ==> SameName(es[k].name, name)
    ensures forall i :: from <= i < |es| && (k < 0 || i < k) ==> !SameName(es[i].name, name)
    decreases |es| - from
  {
    if from == |es| then -1
    else if SameName(es[from].name, name) then from
    else FindFrom(es, name, from + 1)
  }

  /** Replaces the line of a name already there, or adds it; what does not fit sets the flag. */
  function Upsert(c: List, name: string, value: string): (r: List) {
    if name == "" then c
    else
      var line := LineOf(name, value);
      var k := Find(c.entries, name);
      if k < 0 && |c.entries| >= HDR_MAX then c.(overflow := true)
      else if |line| >= LINE_MAX then
        if k < 0 then c.(overflow := true)
        else if !c.entries[k].own then c.(overflow := true)
        else List(c.entries[k := c.entries[k].(line := line[..LINE_MAX - 1])], true)
      else if k < 0 then c.(entries := c.entries + [Entry(Stored(name), line, true)])
      else c.(entries := c.entries[k := c.entries[k].(line := line, own := true)])
  }

  /** Adds a ready line unless its name is already there. */
  function AppendCustom(c: List, line: string): (r: List) {
    if line == "" then c
    else if |c.entries| >= HDR_MAX then c.(overflow := true)
    else match NameOf(line)
      case None => c
      case Some(name) =>
        if Find(c.entries, name) >= 0 then c else c.(entries := c.entries + [Entry(name, line, false)])
  }

  datatype Pair = Pair(name: string, value: string)

  function UpsertAll(c: List, pairs: seq<Pair>): (r: List) {
    if pairs == [] then c
    else
      var n := |pairs| - 1;
      Upsert(UpsertAll(c, pairs[..n]), pairs[n].name, pairs[n].value)
  }

  function AppendAll(c: List, lines: seq<string>): (r: List) {
    if lines == [] then c
    else AppendCustom(AppendAll(c, lines[..|lines| - 1]), lines[|lines| - 1])
  }

  // ----- the policy ---------------------------------------------------------------------------

  datatype Security = Security(enabled: bool, enabledSet: bool, headers: seq<Pair>)

  datatype Cors = Cors(
    enabled: bool, enabledSet: bool,
    origin: string, originSet: bool,
    methods: string, methodsSet: bool,
    headers: string, headersSet: bool,
    credentials: bool, credentialsSet: bool,
    maxAge: nat, maxAgeSet: bool)

  const NO_CORS := Cors(false, false, "", false, "", false, "", false, false, false, 0, false)

  datatype Route = Route(inherit: bool, inheritSet: bool, security: Security, cors: Cors)
  datatype Policy = Policy(security: Option<Security>, cors: Option<Cors>, custom: seq<string>, route: Option<Route>)

  function EffectiveCors(p: Policy): (c: Cors) {
    var base := if p.cors.Some? then p.cors.value else NO_CORS;
    if p.route.None? then base
    else
      var r := p.route.value.cors;
      base.(enabled := if r.enabledSet then r.enabled else base.enabled,
            enabledSet := base.enabledSet || r.enabledSet,
            origin := if r.originSet then r.origin else base.origin,
            originSet := base.originSet || r.originSet,
            methods := if r.methodsSet then r.methods else base.methods,
            methodsSet := base.methodsSet || r.methodsSet,
            headers := if r.headersSet then r.headers else base.headers,
            headersSet := base.headersSet || r.headersSet,
            credentials := if r.credentialsSet then r.credentials else base.credentials,
            credentialsSet := base.credentialsSet || r.credentialsSet,
            maxAge := if r.maxAgeSet then r.maxAge else base.maxAge,
            maxAgeSet := base.maxAgeSet || r.maxAgeSet)
  }

  /** The pairs with something in them. */
  function Filled(pairs: seq<Pair>): (r: seq<Pair>)
    ensures |r| <= |pairs|
  {
    if pairs == [] then []
    else
      var n := |pairs| - 1;
      Filled(pairs[..n]) + (if pairs[n].name != "" && pairs[n].value != "" then [pairs[n]] else [])
  }

  function HostPairs(p: Policy): (r: seq<Pair>) {
    if p.route.Some? && p.route.value.inheritSet && !p.route.value.inherit then []
    else if p.security.Some? && p.security.value.enabled then Filled(p.security.value.headers)
    else []
  }

  predicate RouteDisables(p: Policy) {
    p.route.Some? && p.route.value.security.enabledSet && !p.route.value.security.enabled
  }

  function RoutePairs(p: Policy): (r: seq<Pair>) {
    if p.route.None? || RouteDisables(p) then [] else Filled(p.route.value.security.headers)
  }

  function If(b: bool, name: string, value: string): (r: seq<Pair>)
    ensures |r| <= 1
  {
    if b then [Pair(name, value)] else []
  }

  function CorsPairs(c: Cors): (r: seq<Pair>)
    ensures |r| <= 6
  {
    if !c.enabled then []
    else
      If(c.origin != "", "Access-Control-Allow-Origin", c.origin)
      + If(c.origin != "" && c.origin != "*", "Vary", "Origin")
      + If(c.methods != "", "Access-Control-Allow-Methods", c.methods)
      + If(c.headers != "", "Access-Control-Allow-Headers", c.headers)
      + If(c.credentials, "Access-Control-Allow-Credentials", "true")
      + If(c.maxAgeSet && c.maxAge > 0, "Access-Control-Max-Age", Decimal.Print(c.maxAge))
  }

  const EMPTY := List([], false)

  /** A route that switches its security headers off also drops the host's. */
  function Collect(p: Policy): (r: List) {
    var host := UpsertAll(EMPTY, HostPairs(p));
    var security := if RouteDisables(p) then host.(entries := []) else UpsertAll(host, RoutePairs(p));
    AppendAll(UpsertAll(security, CorsPairs(EffectiveCors(p))), p.custom)
  }

  // ----- what a lookup finds ------------------------------------------------------------------

  predicate Unique(es: seq<Entry>) {
    forall i, j :: 0 <= i < j < |es| ==> !SameName(es[i].name, es[j].name)
  }

  function Lookup(es: seq<Entry>, name: string): (r: Option<string>) {
    var k := Find(es, name);
    if k < 0 then None else Some(es[k].line)
  }

  /** The last pair of that name decides. */
  function LastOf(pairs: seq<Pair>, name: string): (r: Option<string>) {
    if pairs == [] then None
    else
      var n := |pairs| - 1;
      if SameName(pairs[n].name, name) then Some(LineOf(pairs[n].name, pairs[n].value)) else LastOf(pairs[..n], name)
  }

  /** The first custom line of that name decides. */
  function FirstCustom(lines: seq<string>, name: string): (r: Option<string>) {
    if lines == [] then None
    else
      var n := |lines| - 1;
      var earlier := FirstCustom(lines[..n], name);
      if earlier.Some? then earlier
      else if NameOf(lines[n]).Some? && SameName(NameOf(lines[n]).value, name) then Some(lines[n])
      else None
  }

  function Or(a: Option<string>, b: Option<string>): (r: Option<string>) {
    if a.Some? then a else b
  }

  /** Within the sizes the configuration reader allows. */
  predicate Fits(p: Pair) {
    p.name != "" && |p.name| < NAME_MAX && |p.value| < 256
  }

  predicate AllFit(pairs: seq<Pair>) {
    forall i :: 0 <= i < |pairs| ==> Fits(pairs[i])
  }

  lemma FindIs(es: seq<Entry>, name: string, k: int)
    requires Unique(es) && 0 <= k < |es| && SameName(es[k].name, name)
    ensures Find(es, name) == k
  {
    hide LowerAll;
    var j := Find(es, name);
    assert SameName(es[j].name, es[k].name);
  }

  lemma FindStored(name: string)
    requires |name| < NAME_MAX
    ensures Stored(name) == name
  {
  }

  /** One upsert: its own name gets the new line, every other name keeps its own. */
  lemma UpsertOne(c: List, p: Pair, n: string)
    requires Unique(c.entries) && !c.overflow && |c.entries| < HDR_MAX && Fits(p)
    ensures var r := Upsert(c, p.name, p.value);
      && !r.overflow && Unique(r.entries) && |r.entries| <= |c.entries| + 1
      && Lookup(r.entries, n) == (if SameName(p.name, n) then Some(LineOf(p.name, p.value)) else Lookup(c.entries, n))
  {
    hide LowerAll;
    var es := c.entries;
    var r := Upsert(c, p.name, p.value).entries;
    var k := Find(es, p.name);
    var at := if k < 0 then |es| else k;
    FindStored(p.name);
    assert r[at].line == LineOf(p.name, p.value) && SameName(r[at].name, p.name);
    assert forall i :: 0 <= i < |es| ==> r[i].name == es[i].name;
    assert Unique(r);
    if SameName(p.name, n) {
      FindIs(r, n, at);
    } else {
      var j := Find(es, n);
      if j >= 0 {
        FindIs(r, n, j);
      } else {
        assert forall i :: 0 <= i < |r| ==> !SameName(r[i].name, n);
      }
    }
  }

  predicate Misfit(c: List, p: Pair) {
    (Find(c.entries, p.name) < 0 && |c.entries| >= 64) || |p.name| + |p.value| + 4 >= 384
  }

  /** What does not fit: a 65th name, or a line of 384 bytes or more; no other header is touched. */
  lemma UpsertOverflows(c: List, p: Pair)
    ensures var r := Upsert(c, p.name, p.value);
      && (r.overflow <==> c.overflow || (p.name != "" && Misfit(c, p)))
      && |r.entries| <= |c.entries| + 1
      && forall i :: 0 <= i < |c.entries| && i != Find(c.entries, p.name) ==> r.entries[i] == c.entries[i]
  {
    hide SameName;
  }

  lemma {:induction false} UpsertMany(pairs: seq<Pair>, n: string)
    requires AllFit(pairs) && |pairs| <= HDR_MAX
    ensures var r := UpsertAll(EMPTY, pairs);
      !r.overflow && Unique(r.entries) && |r.entries| <= |pairs| && Lookup(r.entries, n) == LastOf(pairs, n)
  {
    hide SameName, Upsert, LineOf, Unique, Fits;
    if pairs == [] {
      NothingIsUnique();
    } else {
      var m := |pairs| - 1;
      UpsertMany(pairs[..m], n);
      UpsertOne(UpsertAll(EMPTY, pairs[..m]), pairs[m], n);
    }
  }

  lemma {:induction false} UpsertAllInTurn(c: List, a: seq<Pair>, b: seq<Pair>)
    ensures UpsertAll(UpsertAll(c, a), b) == UpsertAll(c, a + b)
    decreases |b|
  {
    hide Upsert;
    if b == [] {
      assert a + b == a;
    } else {
      assert (a + b)[..|a + b| - 1] == a + b[..|b| - 1];
      UpsertAllInTurn(c, a, b[..|b| - 1]);
    }
  }

  lemma NothingIsUnique()
    ensures Unique([])
  {
  }

  lemma AppendOne(c: List, line: string, n: string)
    requires Unique(c.entries) && !c.overflow && |c.entries| < HDR_MAX
    ensures var r := AppendCustom(c, line);
      && !r.overflow && Unique(r.entries) && |r.entries| <= |c.entries| + 1
      && Lookup(r.entries, n)
         == Or(Lookup(c.entries, n),
               if NameOf(line).Some? && SameName(NameOf(line).value, n) then Some(line) else None)
  {
    hide LowerAll, NameOf;
    NoNameInNothing();
    var es := c.entries;
    var r := AppendCustom(c, line).entries;
    var j := Find(es, n);
    if r == es {
      if NameOf(line).Some? && SameName(NameOf(line).value, n) {
        var k := Find(es, NameOf(line).value);
        FindIs(es, n, k);
      }
    } else {
      assert r == es + [Entry(NameOf(line).value, line, false)];
      assert Unique(r);
      if j >= 0 {
        FindIs(r, n, j);
      } else if SameName(NameOf(line).value, n) {
        FindIs(r, n, |es|);
      }
    }
  }

  lemma NoNameInNothing()
    ensures NameOf("") == None
  {
  }

  lemma AppendOverflows(c: List, line: string)
    ensures var r := AppendCustom(c, line);
      && (r.overflow <==> c.overflow || (line != "" && |c.entries| >= 64))
      && c.entries <= r.entries
  {
    hide SameName;
  }

  lemma {:induction false} AppendMany(c: List, lines: seq<string>, n: string)
    requires Unique(c.entries) && !c.overflow && |c.entries| + |lines| <= HDR_MAX
    ensures var r := AppendAll(c, lines);
      && !r.overflow && Unique(r.entries) && |r.entries| <= |c.entries| + |lines|
      && Lookup(r.entries, n) == Or(Lookup(c.entries, n), FirstCustom(lines, n))
    decreases |lines|
  {
    hide SameName, AppendCustom, NameOf, Unique, Lookup;
    if lines != [] {
      var m := |lines| - 1;
      AppendMany(c, lines[..m], n);
      AppendOne(AppendAll(c, lines[..m]), lines[m], n);
    }
  }

  // ----- the merge ----------------------------------------------------------------------------

  predicate CorsFits(c: Cors) {
    |c.origin| < 256 && |c.methods| < 128 && |c.headers| < 256 && c.maxAge < 0x1_0000_0000
  }

  /** The reader stores at most 16 entries of each kind, in fields of fixed size. */
  predicate Configured(p: Policy) {
    && (p.security.Some? ==> |p.security.value.headers| <= 16 && Storable(p.security.value.headers))
    && (p.route.Some? ==> |p.route.value.security.headers| <= 16 && Storable(p.route.value.security.headers))
    && (p.cors.Some? ==> CorsFits(p.cors.value))
    && (p.route.Some? ==> CorsFits(p.route.value.cors))
    && |p.custom| <= 16
  }

  predicate Storable(pairs: seq<Pair>) {
    forall i :: 0 <= i < |pairs| ==> |pairs[i].name| < NAME_MAX && |pairs[i].value| < 256
  }

  lemma {:induction false} FilledFits(pairs: seq<Pair>)
    requires Storable(pairs)
    ensures AllFit(Filled(pairs))
  {
    if pairs != [] {
      FilledFits(pairs[..|pairs| - 1]);
    }
  }

  lemma {:induction false} PrintIsShort(n: nat, d: nat)
    requires n < Pow10(d) && d >= 1
    ensures |Decimal.Print(n)| <= d
    decreases d
  {
    if n >= 10 {
      assert d > 1;
      PrintIsShort(n / 10, d - 1);
    }
  }

  function Pow10(d: nat): (p: nat) {
    if d == 0 then 1 else 10 * Pow10(d - 1)
  }

  lemma CorsPairsFit(c: Cors)
    requires CorsFits(c)
    ensures AllFit(CorsPairs(c))
  {
    assert Pow10(2) == 100 && Pow10(4) == 10000 && Pow10(6) == 1000000 && Pow10(8) == 100000000 && Pow10(10) == 10000000000;
    PrintIsShort(c.maxAge, 10);
  }

  lemma {:induction false} LastOfSum(a: seq<Pair>, b: seq<Pair>, n: string)
    ensures LastOf(a + b, n) == Or(LastOf(b, n), LastOf(a, n))
    decreases |b|
  {
    if b == [] {
      assert a + b == a;
    } else {
      assert (a + b)[..|a + b| - 1] == a + b[..|b| - 1];
      LastOfSum(a, b[..|b| - 1], n);
    }
  }

  /**
   Every configuration within the reader's limits: no overflow, no name twice, and each name has
   the CORS line, else the route's, else the host's, else the first custom line of that name.
   */
  lemma MergeTheorem(p: Policy, n: string)
    requires Configured(p)
    ensures var r := Collect(p);
      && !r.overflow && Unique(r.entries) && |r.entries| <= 54
      && Lookup(r.entries, n)
         == Or(LastOf(CorsPairs(EffectiveCors(p)), n),
               Or(LastOf(RoutePairs(p), n),
                  Or(if RouteDisables(p) then None else LastOf(HostPairs(p), n), FirstCustom(p.custom, n))))
  {
    hide Unique, Lookup, LastOf, FirstCustom, Fits, Storable, CorsPairs, UpsertAll, AppendAll;
    if p.security.Some? {
      FilledFits(p.security.value.headers);
    }
    if p.route.Some? {
      FilledFits(p.route.value.security.headers);
    }
    var host, cors := HostPairs(p), CorsPairs(EffectiveCors(p));
    var security := if RouteDisables(p) then [] else host + RoutePairs(p);
    CorsPairsFit(EffectiveCors(p));
    UpsertMany(host, n);
    UpsertNone();
    UpsertAllInTurn(EMPTY, host, RoutePairs(p));
    UpsertAllInTurn(EMPTY, security, cors);
    UpsertMany(security + cors, n);
    AppendMany(UpsertAll(EMPTY, security + cors), p.custom, n);
    LastOfSum(security, cors, n);
    LastOfSum(host, RoutePairs(p), n);
    LastOfNone(n);
  }

  lemma UpsertNone()
    ensures UpsertAll(EMPTY, []) == EMPTY
  {
  }

  lemma LastOfNone(n: string)
    ensures LastOf([], n) == None
  {
  }

  // ----- what the merge means, in the configuration's own terms -------------------------------------

  predicate SameLetter(a: char, b: char) {
    a == b || ('A' <= a <= 'Z' && b as int == a as int + 32) || ('A' <= b <= 'Z' && a as int == b as int + 32)
  }

  lemma {:induction false} LowerAt(s: string, i: nat)
    requires i < |s|
    ensures LowerAll(s)[i] == Lower(s[i])
  {
    if i > 0 {
      LowerAt(s[1..], i - 1);
    }
  }

  /** Names are the same when they agree letter by letter but for case. */
  lemma SameNameIff(a: string, b: string)
    ensures SameName(a, b) <==> |a| == |b| && forall i :: 0 <= i < |a| ==> SameLetter(a[i], b[i])
  {
    forall i | 0 <= i < |a| ensures LowerAll(a)[i] == Lower(a[i]) {
      LowerAt(a, i);
    }
    forall i | 0 <= i < |b| ensures LowerAll(b)[i] == Lower(b[i]) {
      LowerAt(b, i);
    }
    if SameName(a, b) {
      forall i | 0 <= i < |a| ensures SameLetter(a[i], b[i]) {
        assert LowerAll(a)[i] == LowerAll(b)[i];
      }
    }
  }

  predicate Given(p: Pair, n: string) {
    p.name != "" && p.value != "" && SameName(p.name, n)
  }

  /** Of a table's entries the last one with that name and something in it counts. */
  lemma {:induction false} LastGivenCounts(headers: seq<Pair>, n: string, i: int)
    requires -1 <= i < |headers| && (i >= 0 ==> Given(headers[i], n))
    requires forall j :: i < j < |headers| ==> !Given(headers[j], n)
    ensures LastOf(Filled(headers), n) == if i < 0 then None else Some(LineOf(headers[i].name, headers[i].value))
  {
    hide SameName, LineOf;
    if headers != [] {
      var m := |headers| - 1;
      var last := if headers[m].name != "" && headers[m].value != "" then [headers[m]] else [];
      LastOfSum(Filled(headers[..m]), last, n);
      if i < m {
        LastGivenCounts(headers[..m], n, i);
      }
    }
  }

  /** A setting of the route, if it has one, else the host's. */
  function Chosen<T>(p: Policy, isSet: Cors -> bool, get: Cors -> T): (v: T) {
    if p.route.Some? && isSet(p.route.value.cors) then get(p.route.value.cors)
    else if p.cors.Some? then get(p.cors.value)
    else get(NO_CORS)
  }

  function Origin(p: Policy): (v: string) { Chosen(p, (c: Cors) => c.originSet, (c: Cors) => c.origin) }
  function Methods(p: Policy): (v: string) { Chosen(p, (c: Cors) => c.methodsSet, (c: Cors) => c.methods) }
  function Headers(p: Policy): (v: string) { Chosen(p, (c: Cors) => c.headersSet, (c: Cors) => c.headers) }
  function MaxAge(p: Policy): (v: nat) { Chosen(p, (c: Cors) => c.maxAgeSet, (c: Cors) => c.maxAge) }

  predicate Enabled(p: Policy) {
    Chosen(p, (c: Cors) => c.enabledSet, (c: Cors) => c.enabled)
  }

  predicate Credentials(p: Policy) {
    Chosen(p, (c: Cors) => c.credentialsSet, (c: Cors) => c.credentials)
  }

  predicate MaxAgeGiven(p: Policy) {
    (p.route.Some? && p.route.value.cors.maxAgeSet) || (p.cors.Some? && p.cors.value.maxAgeSet)
  }

  const ALLOW_ORIGIN := "Access-Control-Allow-Origin"
  const VARY := "Vary"
  const ALLOW_METHODS := "Access-Control-Allow-Methods"
  const ALLOW_HEADERS := "Access-Control-Allow-Headers"
  const ALLOW_CREDENTIALS := "Access-Control-Allow-Credentials"
  const MAX_AGE := "Access-Control-Max-Age"

  lemma LengthsDiffer(a: string, b: string)
    requires |a| != |b|
    ensures !SameName(a, b)
  {
  }

  lemma MethodsAreNotHeaders()
    ensures !SameName(ALLOW_METHODS, ALLOW_HEADERS) && !SameName(ALLOW_HEADERS, ALLOW_METHODS)
  {
    hide SameName;
    assert ALLOW_METHODS[21] == 'M' && ALLOW_HEADERS[21] == 'H';
    SameNameIff(ALLOW_METHODS, ALLOW_HEADERS);
    SameNameIff(ALLOW_HEADERS, ALLOW_METHODS);
  }

  lemma Sizes()
    ensures |ALLOW_ORIGIN| == 27 && |VARY| == 4 && |ALLOW_METHODS| == 28 && |ALLOW_HEADERS| == 28
    ensures |ALLOW_CREDENTIALS| == 32 && |MAX_AGE| == 22
  {
  }

  /** The line a setting gives to name `n`, if any. */
  function Gives(given: bool, m: string, v: string, n: string): (r: Option<string>) {
    if given && SameName(m, n) then Some(LineOf(m, v)) else None
  }

  lemma LastOfIf(given: bool, m: string, v: string, n: string)
    ensures LastOf(If(given, m, v), n) == Gives(given, m, v, n)
  {
    hide SameName, LineOf;
    LastOfNone(n);
    assert [Pair(m, v)][..0] == [];
  }

  function CorsLine(c: Cors, n: string): (r: Option<string>) {
    Or(Gives(c.maxAgeSet && c.maxAge > 0, MAX_AGE, Decimal.Print(c.maxAge), n),
    Or(Gives(c.credentials, ALLOW_CREDENTIALS, "true", n),
    Or(Gives(c.headers != "", ALLOW_HEADERS, c.headers, n),
    Or(Gives(c.methods != "", ALLOW_METHODS, c.methods, n),
    Or(Gives(c.origin != "" && c.origin != "*", VARY, "Origin", n),
       Gives(c.origin != "", ALLOW_ORIGIN, c.origin, n))))))
  }

  lemma CorsLookup(c: Cors, n: string)
    ensures !c.enabled ==> LastOf(CorsPairs(c), n) == None
    ensures c.enabled ==> LastOf(CorsPairs(c), n) == CorsLine(c, n)
  {
    hide SameName, LineOf, LastOf, Gives, If;
    LastOfNone(n);
    var a := If(c.origin != "", ALLOW_ORIGIN, c.origin);
    var b := If(c.origin != "" && c.origin != "*", VARY, "Origin");
    var d := If(c.methods != "", ALLOW_METHODS, c.methods);
    var e := If(c.headers != "", ALLOW_HEADERS, c.headers);
    var f := If(c.credentials, ALLOW_CREDENTIALS, "true");
    var g := If(c.maxAgeSet && c.maxAge > 0, MAX_AGE, Decimal.Print(c.maxAge));
    assert c.enabled ==> CorsPairs(c) == a + b + d + e + f + g;
    LastOfIf(c.origin != "", ALLOW_ORIGIN, c.origin, n);
    LastOfIf(c.origin != "" && c.origin != "*", VARY, "Origin", n);
    LastOfIf(c.methods != "", ALLOW_METHODS, c.methods, n);
    LastOfIf(c.headers != "", ALLOW_HEADERS, c.headers, n);
    LastOfIf(c.credentials, ALLOW_CREDENTIALS, "true", n);
    LastOfIf(c.maxAgeSet && c.maxAge > 0, MAX_AGE, Decimal.Print(c.maxAge), n);
    LastOfSum(a, b, n);
    LastOfSum(a + b, d, n);
    LastOfSum(a + b + d, e, n);
    LastOfSum(a + b + d + e, f, n);
    LastOfSum(a + b + d + e + f, g, n);
  }

  /** What the server sends under a name. */
  ghost function Sent(p: Policy, n: string): (r: Option<string>) {
    Lookup(Collect(p).entries, n)
  }

  lemma ChosenIsEffective(p: Policy)
    ensures var c := EffectiveCors(p);
      && c.enabled == Enabled(p) && c.origin == Origin(p) && c.methods == Methods(p) && c.headers == Headers(p)
      && c.credentials == Credentials(p) && c.maxAge == MaxAge(p) && c.maxAgeSet == MaxAgeGiven(p)
      && (p.cors.Some? && p.route.Some? ==>
            var h, r := p.cors.value, p.route.value.cors;
            && (c.enabledSet <==> h.enabledSet || r.enabledSet) && (c.originSet <==> h.originSet || r.originSet)
            && (c.methodsSet <==> h.methodsSet || r.methodsSet) && (c.headersSet <==> h.headersSet || r.headersSet)
            && (c.credentialsSet <==> h.credentialsSet || r.credentialsSet))
  {
  }

  /** Every CORS header has the route's setting, if the route has one, else the host's. */
  lemma CorsTheorem(p: Policy)
    requires Configured(p) && Enabled(p)
    ensures Origin(p) != "" ==> Sent(p, ALLOW_ORIGIN) == Some(ALLOW_ORIGIN + ": " + Origin(p) + "\r\n")
    ensures Origin(p) !in {"", "*"} ==> Sent(p, VARY) == Some(VARY + ": " + "Origin" + "\r\n")
    ensures Methods(p) != "" ==> Sent(p, ALLOW_METHODS) == Some(ALLOW_METHODS + ": " + Methods(p) + "\r\n")
    ensures Headers(p) != "" ==> Sent(p, ALLOW_HEADERS) == Some(ALLOW_HEADERS + ": " + Headers(p) + "\r\n")
    ensures Credentials(p) ==> Sent(p, ALLOW_CREDENTIALS) == Some(ALLOW_CREDENTIALS + ": " + "true" + "\r\n")
    ensures MaxAgeGiven(p) && MaxAge(p) > 0 ==>
      Sent(p, MAX_AGE) == Some(MAX_AGE + ": " + Decimal.Print(MaxAge(p)) + "\r\n")
  {
    hide SameName, Collect, CorsPairs, EffectiveCors, LastOf, FirstCustom, Lookup, Configured;
    hide Enabled, Origin, Methods, Headers, Credentials, MaxAge, MaxAgeGiven, RoutePairs, HostPairs;
    ChosenIsEffective(p);
    CorsSent(p, ALLOW_ORIGIN);
    CorsSent(p, VARY);
    CorsSent(p, ALLOW_METHODS);
    CorsSent(p, ALLOW_HEADERS);
    CorsSent(p, ALLOW_CREDENTIALS);
    CorsSent(p, MAX_AGE);
  }

  /** A CORS name has its own setting's line, when that is given. */
  lemma CorsSent(p: Policy, n: string)
    requires Configured(p) && n in {ALLOW_ORIGIN, VARY, ALLOW_METHODS, ALLOW_HEADERS, ALLOW_CREDENTIALS, MAX_AGE}
    ensures var c := EffectiveCors(p);
      c.enabled ==>
        && (n == MAX_AGE && c.maxAgeSet && c.maxAge > 0 ==> Sent(p, n) == Some(LineOf(n, Decimal.Print(c.maxAge))))
        && (n == ALLOW_CREDENTIALS && c.credentials ==> Sent(p, n) == Some(LineOf(n, "true")))
        && (n == ALLOW_HEADERS && c.headers != "" ==> Sent(p, n) == Some(LineOf(n, c.headers)))
        && (n == ALLOW_METHODS && c.methods != "" ==> Sent(p, n) == Some(LineOf(n, c.methods)))
        && (n == VARY && c.origin != "" && c.origin != "*" ==> Sent(p, n) == Some(LineOf(n, "Origin")))
        && (n == ALLOW_ORIGIN && c.origin != "" ==> Sent(p, n) == Some(LineOf(n, c.origin)))
  {
    hide SameName, LineOf, Collect, CorsPairs, EffectiveCors, LastOf, FirstCustom, Lookup, Configured, RoutePairs, HostPairs;
    MergeTheorem(p, n);
    CorsLookup(EffectiveCors(p), n);
    Apart(n);
  }

  lemma Apart(n: string)
    requires n in {ALLOW_ORIGIN, VARY, ALLOW_METHODS, ALLOW_HEADERS, ALLOW_CREDENTIALS, MAX_AGE}
    ensures forall m :: m in {ALLOW_ORIGIN, VARY, ALLOW_METHODS, ALLOW_HEADERS, ALLOW_CREDENTIALS, MAX_AGE} ==>
      (SameName(m, n) <==> m == n)
  {
    hide SameName;
    Sizes();
    MethodsAreNotHeaders();
    forall m | m in {ALLOW_ORIGIN, VARY, ALLOW_METHODS, ALLOW_HEADERS, ALLOW_CREDENTIALS, MAX_AGE}
      ensures SameName(m, n) <==> m == n
    {
      if m == n {
        SameNameIff(m, n);
      } else if |m| != |n| {
        LengthsDiffer(m, n);
      }
    }
  }

  predicate RouteOff(p: Policy) {
    p.route.Some? && p.route.value.security.enabledSet && !p.route.value.security.enabled
  }

  /** The route's security headers that count: all, unless the route switches them off. */
  function RouteTable(p: Policy): (r: seq<Pair>) {
    if p.route.Some? && !RouteOff(p) then p.route.value.security.headers else []
  }

  /** The host's: when it has them on, the route does not switch them off and does not refuse to inherit. */
  function HostTable(p: Policy): (r: seq<Pair>) {
    if p.security.Some? && p.security.value.enabled && !RouteOff(p)
       && (p.route.Some? && p.route.value.inheritSet ==> p.route.value.inherit)
    then p.security.value.headers else []
  }

  predicate LastGiven(headers: seq<Pair>, n: string, i: int) {
    && -1 <= i < |headers| && (i >= 0 ==> Given(headers[i], n))
    && forall j :: i < j < |headers| ==> !Given(headers[j], n)
  }

  /** A ready line with that name in front of its first colon. */
  predicate Named(line: string, n: string) {
    exists k :: 0 < k < |line| && k < NAME_MAX && line[k] == ':' && ':' !in line[..k] && SameName(line[..k], n)
  }

  predicate FirstNamed(lines: seq<string>, n: string, k: int) {
    && -1 <= k < |lines| && (k >= 0 ==> Named(lines[k], n))
    && forall j :: 0 <= j < |lines| && (k < 0 || j < k) ==> !Named(lines[j], n)
  }

  lemma {:induction false} ColonIsFirst(line: string)
    ensures ':' !in line[..ColonAt(line)]
    ensures ColonAt(line) < |line| ==> line[ColonAt(line)] == ':'
  {
    if line != "" && line[0] != ':' {
      ColonIsFirst(line[1..]);
      var i := ColonAt(line[1..]);
      assert line[..i + 1] == [line[0]] + line[1..][..i];
    }
  }

  lemma NamedIff(line: string, n: string)
    ensures Named(line, n) <==> NameOf(line).Some? && SameName(NameOf(line).value, n)
  {
    hide SameName;
    ColonIsFirst(line);
    var i := ColonAt(line);
    forall k | 0 < k < |line| && line[k] == ':' && ':' !in line[..k] ensures k == i {
    }
  }

  lemma {:induction false} FirstCustomIs(lines: seq<string>, n: string, k: int)
    requires FirstNamed(lines, n, k)
    ensures FirstCustom(lines, n) == if k < 0 then None else Some(lines[k])
  {
    hide SameName, NameOf, Named;
    if lines != [] {
      var m := |lines| - 1;
      NamedIff(lines[m], n);
      if k < m {
        FirstCustomIs(lines[..m], n, k);
      } else {
        FirstCustomIs(lines[..m], n, -1);
      }
    }
  }

  /**
   A name without a CORS line has the last entry of the route's table for it, else of the host's,
   else the host's first custom line; a route may switch both tables off, or refuse the host's.
   */
  lemma SecurityTheorem(p: Policy, n: string, i: int, j: int, k: int)
    requires Configured(p)
    requires !Enabled(p)
      || forall m :: m in {ALLOW_ORIGIN, VARY, ALLOW_METHODS, ALLOW_HEADERS, ALLOW_CREDENTIALS, MAX_AGE} ==> !SameName(m, n)
    requires LastGiven(RouteTable(p), n, i) && LastGiven(HostTable(p), n, j) && FirstNamed(p.custom, n, k)
    ensures Sent(p, n) ==
      if i >= 0 then Some(LineOf(RouteTable(p)[i].name, RouteTable(p)[i].value))
      else if j >= 0 then Some(LineOf(HostTable(p)[j].name, HostTable(p)[j].value))
      else if k >= 0 then Some(p.custom[k])
      else None
  {
    hide SameName, LineOf, Collect, CorsPairs, EffectiveCors, LastOf, FirstCustom, Lookup, Configured, Filled, Enabled, FirstNamed;
    MergeTheorem(p, n);
    ChosenIsEffective(p);
    CorsLookup(EffectiveCors(p), n);
    LastGivenCounts(RouteTable(p), n, i);
    LastGivenCounts(HostTable(p), n, j);
    FirstCustomIs(p.custom, n, k);
    LastOfNone(n);
    FilledNone();
  }

  lemma FilledNone()
    ensures Filled([]) == []
  {
  }

  // ----- the header context, in place -----------------------------------------------------------

  datatype Line = Own | Custom(text: string)
  datatype Slot = Slot(name: string, owned: string, line: Line)

  function EntryOf(s: Slot): (e: Entry) {
    Entry(s.name, if s.line.Own? then s.owned else s.line.text, s.line.Own?)
  }

  function Entries(slots: seq<Slot>): (es: seq<Entry>)
    ensures |es| == |slots|
    ensures forall i :: 0 <= i < |slots| ==> es[i] == EntryOf(slots[i])
  {
    if slots == [] then [] else Entries(slots[..|slots| - 1]) + [EntryOf(slots[|slots| - 1])]
  }

  class Context {
    const slots: array<Slot>
    var count: nat
    var overflow: bool

    ghost predicate Valid()
      reads this
    {
      slots.Length == HDR_MAX && count <= HDR_MAX
    }

    ghost function Model(): (c: List)
      requires Valid()
      reads this, slots
    {
      List(Entries(slots[..count]), overflow)
    }

    constructor ()
      ensures Valid() && fresh(slots) && Model() == EMPTY
    {
      slots := new Slot[HDR_MAX](_ => Slot("", "", Own));
      count, overflow := 0, false;
    }

    method FindName(name: string) returns (k: int)
      requires Valid()
      ensures k == if name == "" then -1 else Find(Model().entries, name)
    {
      hide SameName, Find;
      if name == "" {
        return -1;
      }
      ghost var es := Model().entries;
      var i := 0;
      while i < count
        invariant i <= count && es == Model().entries
        invariant forall j :: 0 <= j < i ==> !SameName(es[j].name, name)
      {
        assert es[i].name == slots[i].name;
        if SameName(slots[i].name, name) {
          FindFirst(es, name, i);
          return i;
        }
        i := i + 1;
      }
      FindNone(es, name);
      return -1;
    }

    static lemma FindFirst(es: seq<Entry>, name: string, i: nat)
      requires i < |es| && SameName(es[i].name, name)
      requires forall j :: 0 <= j < i ==> !SameName(es[j].name, name)
      ensures Find(es, name) == i
    {
      hide SameName;
    }

    static lemma FindNone(es: seq<Entry>, name: string)
      requires forall j :: 0 <= j < |es| ==> !SameName(es[j].name, name)
      ensures Find(es, name) == -1
    {
      hide SameName;
    }

    method SetHeader(name: string, value: string)
      requires Valid()
      modifies this, slots
      ensures Valid()
      ensures Model() == Upsert(old(Model()), name, value)
    {
      hide SameName, LineOf;
      if name == "" {
        return;
      }
      var k := FindName(name);
      var at := if k >= 0 then k else count;
      ghost var was := slots[..count];
      if k < 0 {
        if count >= HDR_MAX {
          overflow := true;
          return;
        }
        slots[at] := slots[at].(name := Stored(name));
        count := count + 1;
      }
      var line := LineOf(name, value);
      if |line| >= LINE_MAX {
        slots[at] := slots[at].(owned := line[..LINE_MAX - 1]);
        if k < 0 && count > 0 {
          count := count - 1;
        }
        overflow := true;
        return;
      }
      slots[at] := slots[at].(owned := line, line := Own);
    }

    /** Adds a borrowed line unless its name is there. */
    method AddCustom(line: string)
      requires Valid()
      modifies this, slots
      ensures Valid()
      ensures Model() == AppendCustom(old(Model()), line)
    {
      hide SameName, NameOf;
      if line == "" {
        return;
      }
      if count >= HDR_MAX {
        overflow := true;
        return;
      }
      var name := NameOf(line);
      if name.None? {
        return;
      }
      NamesAreNotEmpty(line);
      var k := FindName(name.value);
      if k >= 0 {
        return;
      }
      ghost var was := slots[..count];
      slots[count] := slots[count].(name := name.value, line := Custom(line));
      assert slots[..count + 1] == was + [slots[count]];
      count := count + 1;
    }

    static lemma NamesAreNotEmpty(line: string)
      ensures NameOf(line).Some? ==> NameOf(line).value != ""
    {
    }

    /** The filled-in pairs of one table, in order. */
    method SetAll(pairs: seq<Pair>)
      requires Valid()
      modifies this, slots
      ensures Valid()
      ensures Model() == UpsertAll(old(Model()), Filled(pairs))
    {
      hide Upsert;
      var i := 0;
      UpsertNothing(Model());
      while i < |pairs|
        invariant i <= |pairs| && Valid()
        invariant Model() == UpsertAll(old(Model()), Filled(pairs[..i]))
      {
        FilledGrows(pairs, i);
        UpsertAllGrows(old(Model()), Filled(pairs[..i]), pairs[i]);
        if pairs[i].name != "" && pairs[i].value != "" {
          SetHeader(pairs[i].name, pairs[i].value);
        }
        i := i + 1;
      }
      assert pairs[..i] == pairs;
    }

    static lemma FilledGrows(pairs: seq<Pair>, i: nat)
      requires i < |pairs|
      ensures Filled(pairs[..i + 1])
           == Filled(pairs[..i]) + (if pairs[i].name != "" && pairs[i].value != "" then [pairs[i]] else [])
    {
      assert pairs[..i + 1][..i] == pairs[..i];
    }

    static lemma UpsertAllGrows(c: List, pairs: seq<Pair>, p: Pair)
      ensures UpsertAll(c, pairs + [p]) == Upsert(UpsertAll(c, pairs), p.name, p.value)
      ensures pairs + [] == pairs
    {
      assert (pairs + [p])[..|pairs|] == pairs;
    }

    static lemma UpsertNothing(c: List)
      ensures UpsertAll(c, []) == c
    {
    }

    method SetIf(b: bool, name: string, value: string)
      requires Valid()
      modifies this, slots
      ensures Valid()
      ensures Model() == UpsertAll(old(Model()), If(b, name, value))
    {
      hide Upsert;
      UpsertNothing(Model());
      UpsertAllGrows(Model(), [], Pair(name, value));
      assert [] + [Pair(name, value)] == [Pair(name, value)];
      if b {
        SetHeader(name, value);
      }
    }

    method SetCors(c: Cors)
      requires Valid()
      modifies this, slots
      ensures Valid()
      ensures Model() == UpsertAll(old(Model()), CorsPairs(c))
    {
      hide Upsert, UpsertAll, If;
      ghost var m := Model();
      UpsertNothing(m);
      if !c.enabled {
        return;
      }
      var a := If(c.origin != "", "Access-Control-Allow-Origin", c.origin);
      SetIf(c.origin != "", "Access-Control-Allow-Origin", c.origin);
      var b := If(c.origin != "" && c.origin != "*", "Vary", "Origin");
      SetIf(c.origin != "" && c.origin != "*", "Vary", "Origin");
      UpsertAllInTurn(m, a, b);
      var d := If(c.methods != "", "Access-Control-Allow-Methods", c.methods);
      SetIf(c.methods != "", "Access-Control-Allow-Methods", c.methods);
      UpsertAllInTurn(m, a + b, d);
      var e := If(c.headers != "", "Access-Control-Allow-Headers", c.headers);
      SetIf(c.headers != "", "Access-Control-Allow-Headers", c.headers);
      UpsertAllInTurn(m, a + b + d, e);
      var f := If(c.credentials, "Access-Control-Allow-Credentials", "true");
      SetIf(c.credentials, "Access-Control-Allow-Credentials", "true");
      UpsertAllInTurn(m, a + b + d + e, f);
      var g := If(c.maxAgeSet && c.maxAge > 0, "Access-Control-Max-Age", Decimal.Print(c.maxAge));
      SetIf(c.maxAgeSet && c.maxAge > 0, "Access-Control-Max-Age", Decimal.Print(c.maxAge));
      UpsertAllInTurn(m, a + b + d + e + f, g);
    }

    method AddAll(lines: seq<string>)
      requires Valid()
      modifies this, slots
      ensures Valid()
      ensures Model() == AppendAll(old(Model()), lines)
    {
      hide AppendCustom;
      var i := 0;
      while i < |lines|
        invariant i <= |lines| && Valid()
        invariant Model() == AppendAll(old(Model()), lines[..i])
      {
        assert lines[..i + 1][..i] == lines[..i];
        AddCustom(lines[i]);
        i := i + 1;
      }
      assert lines[..i] == lines;
    }

    /** Fills the context for one response. */
    method CollectInto(p: Policy)
      requires Valid()
      modifies this, slots
      ensures Valid()
      ensures Model() == Collect(p)
    {
      hide UpsertAll, AppendAll, CorsPairs, EffectiveCors, Filled;
      count, overflow := 0, false;
      UpsertNothing(EMPTY);
      var inherit := true;
      if p.route.Some? && p.route.value.inheritSet {
        inherit := p.route.value.inherit;
      }
      if inherit && p.security.Some? && p.security.value.enabled {
        SetAll(p.security.value.headers);
      }
      assert Model() == UpsertAll(EMPTY, HostPairs(p));
      UpsertNothing(Model());
      if p.route.Some? {
        if p.route.value.security.enabledSet && !p.route.value.security.enabled {
          count := 0;
        } else {
          SetAll(p.route.value.security.headers);
        }
      }
      SetCors(EffectiveCors(p));
      AddAll(p.custom);
    }
  }
}
