/**
 Route rules of a virtual host: grouping them by host, sorting each group in place, and the
 first-match lookup the sort makes into a longest-prefix lookup.
 */
module Routes {
  import opened Options
  import PolicyHeaders

  const CFG_MAX_ROUTES := 256

  datatype Rule = Rule(prefix: string, ordinal: nat)

  // ----- matching -----------------------------------------------------------------------------

  /** The character at a position; the terminator at the end. */
  function CharAt(s: string, i: nat): (c: char)
    requires i <= |s|
  {
    if i < |s| then s[i] else '\0'
  }

  predicate Matches(path: string, prefix: string) {
    if prefix == "" then false
    else if prefix == "/" then CharAt(path, 0) == '/'
    else if !(prefix <= path) then false
    else
      var next := CharAt(path, |prefix|);
      next == '\0' || prefix[|prefix| - 1] == '/' || next == '/'
  }

  /** A prefix matches itself, what is below it, and with a final slash whatever starts with it. */
  lemma MatchesIffBelow(path: string, prefix: string)
    requires '\0' !in path
    ensures Matches(path, prefix) <==>
      prefix != "" && (path == prefix || prefix + "/" <= path || (prefix[|prefix| - 1] == '/' && prefix <= path))
  {
    if prefix <= path && |prefix| < |path| {
      assert path[|prefix|] in path;
    }
    if prefix + "/" <= path {
      assert path[|prefix|] == (prefix + "/")[|prefix|];
      assert prefix <= path;
    }
    if prefix <= path && |prefix| < |path| && path[|prefix|] == '/' {
      assert prefix + "/" <= path;
    }
  }

  // ----- order --------------------------------------------------------------------------------

  /** Longer prefixes come first, equally long ones in order of declaration. */
  predicate Before(a: Rule, b: Rule) {
    |a.prefix| > |b.prefix| || (|a.prefix| == |b.prefix| && a.ordinal <= b.ordinal)
  }

  predicate InRange(s: seq<nat>, rules: seq<Rule>) {
    forall k :: 0 <= k < |s| ==> s[k] < |rules|
  }

  predicate Sorted(s: seq<nat>, rules: seq<Rule>)
    requires InRange(s, rules)
  {
    forall i, j :: 0 <= i < j < |s| ==> Before(rules[s[i]], rules[s[j]])
  }

  function Inserted(s: seq<nat>, j: nat, key: nat): (r: seq<nat>)
    requires j <= |s|
  {
    s[..j] + [key] + s[j..]
  }

  lemma InsertedIsSorted(s: seq<nat>, j: nat, key: nat, rules: seq<Rule>)
    requires InRange(s, rules) && Sorted(s, rules) && j <= |s| && key < |rules|
    requires j > 0 ==> Before(rules[s[j - 1]], rules[key])
    requires forall k :: j <= k < |s| ==> !Before(rules[s[k]], rules[key])
    ensures InRange(Inserted(s, j, key), rules) && Sorted(Inserted(s, j, key), rules)
  {
    var r := Inserted(s, j, key);
    forall p, q | 0 <= p < q < |r| ensures Before(rules[r[p]], rules[r[q]]) {
      assert r[p] == (if p < j then s[p] else if p == j then key else s[p - 1]);
      assert r[q] == (if q < j then s[q] else if q == j then key else s[q - 1]);
    }
  }

  lemma InsertedIsPermutation(s: seq<nat>, j: nat, key: nat)
    requires j <= |s|
    ensures multiset(Inserted(s, j, key)) == multiset(s + [key])
  {
    assert s == s[..j] + s[j..];
  }

  /** Shifts the larger entries of the sorted part up by one and drops the key into the hole. */
  method ShiftIn(idx: array<nat>, i: nat, rules: seq<Rule>) returns (j: nat)
    requires i < idx.Length && InRange(idx[..i], rules) && idx[i] < |rules|
    modifies idx
    ensures j <= i
    ensures forall k :: 0 <= k < j ==> idx[k] == old(idx[k])
    ensures idx[j] == old(idx[i])
    ensures forall k :: j < k <= i ==> idx[k] == old(idx[k - 1])
    ensures forall k :: i < k < idx.Length ==> idx[k] == old(idx[k])
    ensures j > 0 ==> Before(rules[old(idx[..i])[j - 1]], rules[old(idx[i])])
    ensures forall k :: j <= k < i ==> !Before(rules[old(idx[..i])[k]], rules[old(idx[i])])
  {
    ghost var s := idx[..i];
    var key := idx[i];
    j := i;
    while j > 0
      invariant j <= i
      invariant forall k :: 0 <= k < j ==> idx[k] == s[k]
      invariant forall k :: j < k <= i ==> idx[k] == s[k - 1]
      invariant forall k :: j <= k < i ==> !Before(rules[s[k]], rules[key])
      invariant forall k :: i < k < idx.Length ==> idx[k] == old(idx[k])
    {
      var prev := idx[j - 1];
      assert prev == s[j - 1];
      var swap := false;
      if |rules[prev].prefix| < |rules[key].prefix| {
        swap := true;
      } else if |rules[prev].prefix| == |rules[key].prefix| && rules[prev].ordinal > rules[key].ordinal {
        swap := true;
      }
      if !swap {
        break;
      }
      idx[j] := idx[j - 1];
      j := j - 1;
    }
    idx[j] := key;
  }

  lemma ShiftedIsInserted(was: seq<nat>, now: seq<nat>, i: nat, j: nat)
    requires j <= i < |was| == |now|
    requires forall k :: 0 <= k < j ==> now[k] == was[k]
    requires now[j] == was[i]
    requires forall k :: j < k <= i ==> now[k] == was[k - 1]
    ensures now[..i + 1] == Inserted(was[..i], j, was[i])
  {
    var r := Inserted(was[..i], j, was[i]);
    forall k | 0 <= k <= i ensures now[k] == r[k] {
    }
  }

  method InsertOne(idx: array<nat>, i: nat, rules: seq<Rule>)
    requires i < idx.Length && InRange(idx[..i], rules) && idx[i] < |rules|
    requires Sorted(idx[..i], rules)
    modifies idx
    ensures multiset(idx[..i + 1]) == multiset(old(idx[..i + 1]))
    ensures InRange(idx[..i + 1], rules) && Sorted(idx[..i + 1], rules)
    ensures forall k :: i < k < idx.Length ==> idx[k] == old(idx[k])
  {
    hide Sorted, Before, Inserted;
    ghost var was := idx[..];
    var j := ShiftIn(idx, i, rules);
    assert was[..i] == old(idx[..i]);
    assert was[..i + 1] == was[..i] + [was[i]];
    ShiftedIsInserted(was, idx[..], i, j);
    assert idx[..][..i + 1] == idx[..i + 1];
    InsertedIsSorted(was[..i], j, was[i], rules);
    InsertedIsPermutation(was[..i], j, was[i]);
  }

  lemma PermutedHead(h: seq<nat>, g: seq<nat>, tail: seq<nat>)
    requires multiset(h) == multiset(g)
    ensures multiset(h + tail) == multiset(g + tail)
  {
  }

  /** Sorts the first `n` indices in place: a permutation of them, in order. */
  method Sort(idx: array<nat>, n: nat, rules: seq<Rule>)
    requires n <= idx.Length && InRange(idx[..n], rules)
    modifies idx
    ensures multiset(idx[..n]) == multiset(old(idx[..n]))
    ensures InRange(idx[..n], rules) && Sorted(idx[..n], rules)
    ensures forall k :: n <= k < idx.Length ==> idx[k] == old(idx[k])
  {
    if n <= 1 {
      return;
    }
    assert forall k :: 0 <= k < n ==> idx[k] == idx[..n][k];
    var i := 1;
    while i < n
      invariant 1 <= i <= n
      invariant InRange(idx[..i], rules) && Sorted(idx[..i], rules)
      invariant forall k :: i <= k < n ==> idx[k] < |rules|
      invariant multiset(idx[..n]) == multiset(old(idx[..n]))
      invariant forall k :: n <= k < idx.Length ==> idx[k] == old(idx[k])
    {
      i := SortStep(idx, i, n, rules);
    }
  }

  method SortStep(idx: array<nat>, i: nat, n: nat, rules: seq<Rule>) returns (next: nat)
    requires i < n <= idx.Length && InRange(idx[..i], rules) && idx[i] < |rules| && Sorted(idx[..i], rules)
    modifies idx
    ensures next == i + 1
    ensures InRange(idx[..i + 1], rules) && Sorted(idx[..i + 1], rules)
    ensures forall k :: i < k < idx.Length ==> idx[k] == old(idx[k])
    ensures multiset(idx[..n]) == multiset(old(idx[..n]))
  {
    hide Sorted, InRange;
    ghost var head, tail := idx[..i + 1], idx[i + 1..n];
    assert idx[..n] == head + tail;
    InsertOne(idx, i, rules);
    assert idx[..n] == idx[..i + 1] + tail;
    PermutedHead(head, idx[..i + 1], tail);
    next := i + 1;
  }

  // ----- lookup -------------------------------------------------------------------------------

  /** The first listed rule whose prefix matches. */
  method FirstMatch(path: string, list: seq<nat>, rules: seq<Rule>) returns (r: Option<nat>)
    requires InRange(list, rules)
    ensures r == None ==> forall k :: 0 <= k < |list| ==> !Matches(path, rules[list[k]].prefix)
    ensures r.Some? ==> exists k :: IsFirstMatch(path, list, rules, k) && r.value == list[k]
  {
    if list == [] || path == "" {
      return None;
    }
    var i := 0;
    while i < |list|
      invariant i <= |list|
      invariant forall k :: 0 <= k < i ==> !Matches(path, rules[list[k]].prefix)
    {
      var prefix := rules[list[i]].prefix;
      if prefix != "" && Matches(path, prefix) {
        assert IsFirstMatch(path, list, rules, i);
        return Some(list[i]);
      }
      i := i + 1;
    }
    return None;
  }

  predicate IsFirstMatch(path: string, list: seq<nat>, rules: seq<Rule>, k: int)
    requires InRange(list, rules)
  {
    && 0 <= k < |list| && Matches(path, rules[list[k]].prefix)
    && forall j :: 0 <= j < k ==> !Matches(path, rules[list[j]].prefix)
  }

  /** No rule of the group that matches is more specific, or as specific and declared earlier. */
  predicate IsBest(path: string, group: seq<nat>, rules: seq<Rule>, best: nat)
    requires InRange(group, rules)
  {
    && best in group && best < |rules| && Matches(path, rules[best].prefix)
    && forall k :: 0 <= k < |group| && Matches(path, rules[group[k]].prefix) ==> Before(rules[best], rules[group[k]])
  }

  lemma FirstOfSortedIsBest(path: string, group: seq<nat>, list: seq<nat>, rules: seq<Rule>, k: nat)
    requires InRange(group, rules) && InRange(list, rules)
    requires multiset(list) == multiset(group) && Sorted(list, rules) && IsFirstMatch(path, list, rules, k)
    ensures IsBest(path, group, rules, list[k])
  {
    assert list[k] in multiset(group);
    forall g | 0 <= g < |group| && Matches(path, rules[group[g]].prefix)
      ensures Before(rules[list[k]], rules[group[g]])
    {
      assert group[g] in multiset(list);
      var j :| 0 <= j < |list| && list[j] == group[g];
      assert j >= k;
    }
  }

  /** Rules with different ordinals: the best one is unique. */
  lemma BestIsUnique(path: string, group: seq<nat>, rules: seq<Rule>, a: nat, b: nat)
    requires InRange(group, rules) && IsBest(path, group, rules, a) && IsBest(path, group, rules, b)
    requires forall i, j :: 0 <= i < j < |rules| ==> rules[i].ordinal != rules[j].ordinal
    ensures a == b
  {
    var i :| 0 <= i < |group| && group[i] == a;
    var j :| 0 <= j < |group| && group[j] == b;
    assert Before(rules[a], rules[group[j]]) && Before(rules[b], rules[group[i]]);
  }

  /** Sorting a group and taking the first match finds the best rule, or there is none. */
  method Resolve(path: string, group: seq<nat>, rules: seq<Rule>) returns (r: Option<nat>)
    requires InRange(group, rules)
    ensures r.Some? ==> IsBest(path, group, rules, r.value)
    ensures r == None ==> forall k :: 0 <= k < |group| ==> !Matches(path, rules[group[k]].prefix)
  {
    hide Matches, Before;
    var idx := new nat[|group|];
    var i := 0;
    while i < |group|
      invariant i <= |group| && idx[..i] == group[..i]
    {
      idx[i] := group[i];
      assert idx[..i + 1] == idx[..i] + [group[i]];
      i := i + 1;
    }
    assert idx[..|group|] == group;
    Sort(idx, |group|, rules);
    var list := idx[..|group|];
    r := FirstMatch(path, list, rules);
    if r.Some? {
      var k :| IsFirstMatch(path, list, rules, k) && r.value == list[k];
      FirstOfSortedIsBest(path, group, list, rules, k);
    } else {
      forall k | 0 <= k < |group| ensures !Matches(path, rules[group[k]].prefix) {
        assert group[k] in multiset(list);
        var j :| 0 <= j < |list| && list[j] == group[k];
      }
    }
  }

  // ----- grouping -------------------------------------------------------------------------------

  /** A declared route: `owner` is the host its host name was resolved to, -1 when there is none. */
  datatype Declared = Declared(hostName: string, prefix: string, owner: int, policy: PolicyHeaders.Policy)

  /** Credentials together with every origin. */
  predicate CorsConflict(p: PolicyHeaders.Policy) {
    var c := PolicyHeaders.EffectiveCors(p);
    c.enabled && c.credentials && c.origin == "*"
  }

  /** By the settings that count: the route's, where it has one, else the host's. */
  lemma ConflictIff(p: PolicyHeaders.Policy)
    ensures CorsConflict(p) <==>
      PolicyHeaders.Enabled(p) && PolicyHeaders.Credentials(p) && PolicyHeaders.Origin(p) == "*"
  {
    PolicyHeaders.ChosenIsEffective(p);
  }

  predicate Acceptable(d: Declared, vhosts: nat) {
    && d.hostName != "" && d.prefix != "" && d.prefix[0] == '/'
    && 0 <= d.owner < vhosts && !CorsConflict(d.policy)
  }

  /** The routes of one host among the first `n`, in order of declaration. */
  function RoutesOf(routes: seq<Declared>, n: nat, v: nat): (r: seq<nat>)
    requires n <= |routes|
    ensures |r| <= n
  {
    if n == 0 then []
    else RoutesOf(routes, n - 1, v) + (if routes[n - 1].owner == v then [n - 1] else [])
  }

  lemma {:induction false} RoutesOfAreThose(routes: seq<Declared>, n: nat, v: nat)
    requires n <= |routes|
    ensures forall i :: i in RoutesOf(routes, n, v) <==> 0 <= i < n && routes[i].owner == v
    ensures forall i, j :: 0 <= i < j < |RoutesOf(routes, n, v)| ==> RoutesOf(routes, n, v)[i] < RoutesOf(routes, n, v)[j]
  {
    if n > 0 {
      RoutesOfAreThose(routes, n - 1, v);
      var before := RoutesOf(routes, n - 1, v);
      assert forall i :: 0 <= i < |before| ==> before[i] in before;
    }
  }

  lemma {:induction false} RoutesOfGrow(routes: seq<Declared>, n: nat, m: nat, v: nat)
    requires n <= m <= |routes|
    ensures |RoutesOf(routes, n, v)| <= |RoutesOf(routes, m, v)|
  {
    if n < m {
      RoutesOfGrow(routes, n, m - 1, v);
    }
  }

  ghost predicate AllAcceptable(routes: seq<Declared>, vhosts: nat) {
    forall i :: 0 <= i < |routes| ==> Acceptable(routes[i], vhosts)
  }

  ghost predicate Crowded(routes: seq<Declared>, vhosts: nat) {
    exists v: nat :: v < vhosts && |RoutesOf(routes, |routes|, v)| > CFG_MAX_ROUTES
  }

  /** Fails exactly on a route that is not acceptable or on more routes than a host may have. */
  method BuildIndex(routes: seq<Declared>, vhosts: nat) returns (ok: bool, index: seq<seq<nat>>)
    ensures ok <==> AllAcceptable(routes, vhosts) && !Crowded(routes, vhosts)
    ensures ok ==> |index| == vhosts && forall v :: 0 <= v < vhosts ==> index[v] == RoutesOf(routes, |routes|, v)
    ensures |routes| <= CFG_MAX_ROUTES ==> !Crowded(routes, vhosts)
  {
    hide CorsConflict;
    index := seq(vhosts, _ => []);
    var i := 0;
    while i < |routes|
      invariant i <= |routes| && |index| == vhosts
      invariant forall k :: 0 <= k < i ==> Acceptable(routes[k], vhosts)
      invariant forall v :: 0 <= v < vhosts ==> index[v] == RoutesOf(routes, i, v) && |index[v]| <= CFG_MAX_ROUTES
    {
      var d := routes[i];
      if d.hostName == "" || d.prefix == "" || d.prefix[0] != '/' || !(0 <= d.owner < vhosts) {
        return false, index;
      }
      if |index[d.owner]| >= CFG_MAX_ROUTES {
        RoutesOfGrow(routes, i + 1, |routes|, d.owner);
        assert |RoutesOf(routes, i + 1, d.owner)| > CFG_MAX_ROUTES;
        return false, index;
      }
      index := index[d.owner := index[d.owner] + [i]];
      if CorsConflict(d.policy) {
        return false, index;
      }
      i := i + 1;
    }
    ok := true;
  }
}
