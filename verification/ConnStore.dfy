/**
 The per-thread map from descriptor to connection: open addressing, linear probing,
 tombstones, growth by doubling.  It behaves as a plain finite map, and one occupancy
 bound keeps an EMPTY slot on every probe path.
 */
module ConnStore {
  import opened Bits
  import opened Options

  const FM_EMPTY := -1
  const FM_TOMB := -2
  const SIZE_T := 0x1_0000_0000_0000_0000

  /** How many slots hold `v`. */
  function Count(keys: seq<int>, v: int): (n: nat)
    ensures n <= |keys|
  {
    if keys == [] then 0 else (if keys[|keys| - 1] == v then 1 else 0) + Count(keys[..|keys| - 1], v)
  }

  /** How many slots are in use. */
  function Live(keys: seq<int>): (n: nat)
    ensures n <= |keys|
  {
    if keys == [] then 0 else (if keys[|keys| - 1] >= 0 then 1 else 0) + Live(keys[..|keys| - 1])
  }

  lemma {:induction false} WriteCounts(keys: seq<int>, i: nat, k: int)
    requires i < |keys|
    ensures forall v ::
      Count(keys[i := k], v) == Count(keys, v) - (if keys[i] == v then 1 else 0) + (if k == v then 1 else 0)
    ensures Live(keys[i := k]) == Live(keys) - (if keys[i] >= 0 then 1 else 0) + (if k >= 0 then 1 else 0)
  {
    var n := |keys| - 1;
    if i == n {
      assert keys[i := k][..n] == keys[..n];
    } else {
      assert keys[i := k][..n] == keys[..n][i := k];
      WriteCounts(keys[..n], i, k);
    }
  }

  /** Slots are live, tombstones or empty, so a table that is not full has an empty slot. */
  lemma {:induction false} CountsAddUp(keys: seq<int>)
    requires forall i :: 0 <= i < |keys| ==> keys[i] >= FM_TOMB
    ensures Live(keys) + Count(keys, FM_TOMB) + Count(keys, FM_EMPTY) == |keys|
  {
    if keys != [] {
      CountsAddUp(keys[..|keys| - 1]);
    }
  }

  lemma {:induction false} CountFinds(keys: seq<int>, v: int) returns (i: nat)
    requires Count(keys, v) > 0
    ensures i < |keys| && keys[i] == v
  {
    var n := |keys| - 1;
    if keys[n] == v {
      i := n;
    } else {
      i := CountFinds(keys[..n], v);
    }
  }

  lemma {:induction false} EmptyTableCounts(keys: seq<int>)
    requires forall i :: 0 <= i < |keys| ==> keys[i] == FM_EMPTY
    ensures Live(keys) == 0 && Count(keys, FM_TOMB) == 0
  {
    if keys != [] {
      EmptyTableCounts(keys[..|keys| - 1]);
    }
  }

  // ----- probe sequences ----------------------------------------------------------------

  /** `(size_t)fd`: a negative descriptor wraps. */
  function AsSize(fd: int): (n: nat)
    requires -SIZE_T <= fd
  {
    if fd < 0 then fd + SIZE_T else fd
  }

  /** The d-th slot of the probe sequence that starts at `home`. */
  function Probe(home: nat, d: nat, cap: nat): (i: nat)
    requires cap > 0
    ensures i < cap
  {
    (home + d) % cap
  }

  lemma ProbeStep(home: nat, d: nat, cap: nat)
    requires cap > 0
    ensures Probe(home, d + 1, cap) == (Probe(home, d, cap) + 1) % cap
  {
    var x := home + d;
    var q, r := x / cap, x % cap;
    assert x == q * cap + r;
    if r + 1 < cap {
      ModUnique(x + 1, cap, q, r + 1);
      ModUnique(r + 1, cap, 0, r + 1);
    } else {
      assert x + 1 == (q + 1) * cap by { assert (q + 1) * cap == q * cap + cap; }
      ModUnique(x + 1, cap, q + 1, 0);
      ModUnique(r + 1, cap, 1, 0);
    }
  }

  /** Every slot is reached from every home within `cap` steps, at exactly one distance. */
  function Distance(home: nat, i: nat, cap: nat): (d: nat)
    requires i < cap
    ensures d < cap
  {
    (i - home) % cap
  }

  lemma DistanceReaches(home: nat, i: nat, cap: nat)
    requires i < cap
    ensures Probe(home, Distance(home, i, cap), cap) == i
  {
    var d := (i - home) % cap;
    var q := (i - home) / cap;
    assert i - home == q * cap + d;
    assert home + d == (-q) * cap + i by { assert (-q) * cap == -(q * cap); }
    ModUnique(home + d, cap, -q, i);
  }

  lemma ProbeIsInjective(home: nat, d: nat, e: nat, cap: nat)
    requires d < e < cap
    ensures Probe(home, d, cap) != Probe(home, e, cap)
  {
    var q, p := (home + d) / cap, (home + e) / cap;
    var r := (home + d) % cap;
    if r == (home + e) % cap {
      assert home + d == q * cap + r && home + e == p * cap + r;
      assert e - d == (p - q) * cap by { assert (p - q) * cap == p * cap - q * cap; }
      ModUnique(e - d, cap, p - q, 0);
      ModUnique(e - d, cap, 0, e - d);
    }
  }

  // ----- the table as a map -------------------------------------------------------------

  /** The first `d` slots of `home`'s probe sequence hold neither EMPTY nor `k`. */
  ghost predicate Passed(keys: seq<int>, home: nat, d: nat, k: int)
    requires |keys| > 0
  {
    forall e :: 0 <= e < d ==> keys[Probe(home, e, |keys|)] != FM_EMPTY && keys[Probe(home, e, |keys|)] != k
  }

  lemma NonePassed(keys: seq<int>, home: nat, k: int)
    requires |keys| > 0
    ensures Passed(keys, home, 0, k)
  {
  }

  lemma PassOneMore(keys: seq<int>, home: nat, d: nat, k: int)
    requires |keys| > 0 && Passed(keys, home, d, k)
    requires keys[Probe(home, d, |keys|)] != FM_EMPTY && keys[Probe(home, d, |keys|)] != k
    ensures Passed(keys, home, d + 1, k)
  {
  }

  /** A key sits on its own probe path with no EMPTY slot before it. */
  ghost predicate Reached(keys: seq<int>, k: nat, d: nat)
    requires |keys| > 0
  {
    d < |keys| && keys[Probe(k, d, |keys|)] == k && Passed(keys, k, d, k)
  }

  ghost predicate OnPath(keys: seq<int>, k: nat)
    requires |keys| > 0
  {
    exists d :: Reached(keys, k, d)
  }

  ghost predicate TableOk<V>(keys: seq<int>, vals: seq<Option<V>>, m: map<int, V>) {
    && |keys| == |vals| > 0
    && (forall i :: 0 <= i < |keys| ==> keys[i] >= FM_TOMB)
    && (forall i :: 0 <= i < |keys| && keys[i] >= 0 ==> keys[i] in m && vals[i] == Some(m[keys[i]]))
    && (forall i :: 0 <= i < |keys| && keys[i] < 0 ==> vals[i] == None)
    && (forall k :: k in m ==> k >= 0)
    && (forall k: nat :: k in m ==> OnPath(keys, k))
    && (forall i, j :: 0 <= i < j < |keys| && keys[i] >= 0 ==> keys[i] != keys[j])
  }

  /** Meeting an EMPTY slot proves absence. */
  lemma MissIsAbsent<V>(keys: seq<int>, vals: seq<Option<V>>, m: map<int, V>, k: nat, d: nat)
    requires TableOk(keys, vals, m) && Passed(keys, k, d, k) && keys[Probe(k, d, |keys|)] == FM_EMPTY
    ensures k !in m
  {
  }

  /** Filling a slot that is not in use, on the key's own path, adds exactly that key. */
  lemma InsertKeepsTable<V>(keys: seq<int>, vals: seq<Option<V>>, m: map<int, V>, k: nat, v: V, d: nat)
    requires TableOk(keys, vals, m) && k !in m && d < |keys| && Passed(keys, k, d, k)
    requires keys[Probe(k, d, |keys|)] < 0
    ensures var i := Probe(k, d, |keys|); TableOk(keys[i := k], vals[i := Some(v)], m[k := v])
  {
    var i := Probe(k, d, |keys|);
    var keys' := keys[i := k];
    forall c: nat | c in m[k := v] ensures OnPath(keys', c) {
      if c == k {
        forall e | 0 <= e < d ensures Probe(k, e, |keys|) != i {
          ProbeIsInjective(k, e, d, |keys|);
        }
        assert Reached(keys', c, d);
      } else {
        var e :| Reached(keys, c, e);
        assert Reached(keys', c, e);
      }
    }
  }

  lemma UpdateKeepsTable<V>(keys: seq<int>, vals: seq<Option<V>>, m: map<int, V>, i: nat, v: V)
    requires TableOk(keys, vals, m) && i < |keys| && keys[i] >= 0
    ensures TableOk(keys, vals[i := Some(v)], m[keys[i] := v])
  {
    forall c: nat | c in m[keys[i] := v] ensures OnPath(keys, c) {
      assert c in m;
    }
  }

  /** A tombstone takes exactly its key away and keeps every other probe path whole. */
  lemma DeleteKeepsTable<V>(keys: seq<int>, vals: seq<Option<V>>, m: map<int, V>, i: nat)
    requires TableOk(keys, vals, m) && i < |keys| && keys[i] >= 0
    ensures TableOk(keys[i := FM_TOMB], vals[i := None], m - {keys[i]})
  {
    var keys' := keys[i := FM_TOMB];
    forall c: nat | c in m - {keys[i]} ensures OnPath(keys', c) {
      var e :| Reached(keys, c, e);
      assert Reached(keys', c, e);
    }
  }

  lemma FreshTable<V>(keys: seq<int>, vals: seq<Option<V>>)
    requires |keys| == |vals| > 0
    requires forall i :: 0 <= i < |keys| ==> keys[i] == FM_EMPTY && vals[i] == None
    ensures TableOk(keys, vals, map[])
  {
  }

  /** Over 70 in 100 in use, over half deleted, or no slot to spare. */
  predicate Crowded(size: nat, tombs: nat, cap: nat) {
    100 * (size + 1) > 70 * cap || tombs > cap - tombs || cap - size - tombs <= 1
  }

  /** The only change is at the first slot of the key's path without a live key. */
  ghost predicate TakesFirst(before: seq<int>, after: seq<int>, k: nat, d: nat) {
    |before| > 0 && IsFirstFree(before, k, d) && after == before[Probe(k, d, |before|) := k]
  }

  ghost predicate IsFirstFree(keys: seq<int>, home: nat, d: nat)
    requires |keys| > 0
  {
    && d < |keys| && keys[Probe(home, d, |keys|)] < 0
    && forall e :: 0 <= e < d ==> keys[Probe(home, e, |keys|)] >= 0
  }

  lemma PassedBefore(keys: seq<int>, home: nat, d: nat, e: nat, k: int)
    requires |keys| > 0 && d <= e && Passed(keys, home, e, k)
    ensures Passed(keys, home, d, k)
  {
  }

  class FdMap<V> {
    var keys: array<int>
    var vals: array<Option<V>>
    var size: nat
    var tombs: nat
    /** The plain map this table stands for. */
    ghost var entries: map<int, V>

    /** An uninitialised store has no arrays; otherwise at least one slot is EMPTY. */
    ghost predicate Valid()
      reads this, keys, vals
    {
      && keys.Length == vals.Length
      && if keys.Length == 0 then entries == map[]
         else
           && IsPow2(keys.Length)
           && TableOk(keys[..], vals[..], entries)
           && size == |entries| == Live(keys[..])
           && tombs == Count(keys[..], FM_TOMB)
           && size + tombs < keys.Length
    }

    constructor ()
      ensures Valid() && entries == map[] && keys.Length == 0 && size == tombs == 0 && fresh(keys) && fresh(vals)
    {
      keys := new int[0];
      vals := new Option<V>[0];
      size := 0;
      tombs := 0;
      entries := map[];
    }

    /** The occupancy bound: an EMPTY slot, hence an end to every probe from `home`. */
    lemma EmptyAhead(home: nat) returns (d: nat)
      requires Valid() && keys.Length > 0
      ensures d < keys.Length && keys[Probe(home, d, keys.Length)] == FM_EMPTY
    {
      CountsAddUp(keys[..]);
      var i := CountFinds(keys[..], FM_EMPTY);
      d := Distance(home, i, keys.Length);
      DistanceReaches(home, i, keys.Length);
    }

    /** The step every probe loop takes. */
    function Next(i: nat): (j: nat)
      requires keys.Length > 0
      reads this
    {
      And(i + 1, keys.Length - 1)
    }

    lemma NextProbes(home: nat, d: nat)
      requires Valid() && keys.Length > 0
      ensures And(home, keys.Length - 1) == Probe(home, 0, keys.Length)
      ensures Next(Probe(home, d, keys.Length)) == Probe(home, d + 1, keys.Length)
    {
      var k: nat :| keys.Length == Pow2(k);
      MaskIsMod(home, k);
      MaskIsMod(Probe(home, d, keys.Length) + 1, k);
      ProbeStep(home, d, keys.Length);
    }

    /** EMPTY at the end of a passed probe path: the key is absent. */
    lemma Miss(fd: int, home: nat, d: nat)
      requires Valid() && keys.Length > 0 && -SIZE_T <= fd && home == AsSize(fd)
      requires Passed(keys[..], home, d, fd) && keys[Probe(home, d, keys.Length)] == FM_EMPTY
      ensures fd !in entries
    {
      if fd >= 0 {
        MissIsAbsent(keys[..], vals[..], entries, fd, d);
      }
    }

    /** What a slot holds is what the map says of its key. */
    lemma Hit(i: nat)
      requires Valid() && i < keys.Length
      ensures vals[i] == if keys[i] in entries then Some(entries[keys[i]]) else None
    {
      assert vals[..][i] == vals[i] && keys[..][i] == keys[i];
    }

    method Get(fd: int) returns (r: Option<V>)
      requires Valid() && -SIZE_T <= fd
      ensures r == if fd in entries then Some(entries[fd]) else None
    {
      hide TableOk, Live, Count, IsPow2;
      if keys.Length == 0 {
        return None;
      }
      var home := AsSize(fd);
      var i := And(home, keys.Length - 1);
      var start := i;
      ghost var d := 0;
      NextProbes(home, 0);
      ghost var stop := EmptyAhead(home);
      while true
        invariant d <= stop < keys.Length && i == Probe(home, d, keys.Length)
        invariant Passed(keys[..], home, d, fd)
        decreases stop - d
      {
        var k := keys[i];
        if k == FM_EMPTY {
          Miss(fd, home, d);
          return None;
        }
        if k == fd {
          Hit(i);
          return vals[i];
        }
        NextProbes(home, d);
        i := Next(i);
        d := d + 1;
        if i == start {
          // A full scan: never, since the EMPTY slot ahead is closer than a whole turn.
          ProbeIsInjective(home, 0, d, keys.Length);
          assert false;
        }
      }
    }

    /** Rounds the capacity up to a power of two, at least 256. */
    method Init(capHint: nat, memory: bool) returns (ok: bool)
      modifies this
      ensures ok == memory
      ensures ok ==>
        Valid() && entries == map[] && keys.Length >= capHint && keys.Length >= 256 && fresh(keys) && fresh(vals)
      ensures ok ==> size == tombs == 0 && (keys.Length == 256 || keys.Length < 2 * capHint)
      ensures !ok ==> unchanged(this)
    {
      var cap := 256;
      ghost var k := 8;
      assert Pow2(8) == 256;
      while cap < capHint
        invariant cap == Pow2(k) && cap >= 256 && (cap == 256 || cap < 2 * capHint)
        decreases capHint - cap
      {
        cap := cap * 2;
        k := k + 1;
      }
      if !memory {
        return false;
      }
      keys := new int[cap](_ => FM_EMPTY);
      vals := new Option<V>[cap](_ => None);
      size := 0;
      tombs := 0;
      entries := map[];
      EmptyTableCounts(keys[..]);
      FreshTable(keys[..], vals[..]);
      return true;
    }

    /** Finds the slot to use for a key that is not in the (tombstone-free) table yet. */
    static method Claim(keys: array<int>, k: nat, ghost stop: nat) returns (j: nat, ghost d: nat)
      requires keys.Length > 0 && IsPow2(keys.Length)
      requires stop < keys.Length && keys[Probe(k, stop, keys.Length)] == FM_EMPTY
      requires forall i :: 0 <= i < keys.Length ==> keys[i] == FM_EMPTY || keys[i] >= 0
      requires forall i :: 0 <= i < keys.Length ==> keys[i] != k
      ensures d < keys.Length && j == Probe(k, d, keys.Length) && keys[j] == FM_EMPTY
      ensures Passed(keys[..], k, d, k)
    {
      hide Probe, And, Pow2, Passed, IsPow2;
      j := Home(keys.Length, k);
      d := 0;
      NonePassed(keys[..], k, k);
      while keys[j] >= 0
        invariant d <= stop && j == Probe(k, d, keys.Length)
        invariant Passed(keys[..], k, d, k)
        decreases stop - d
      {
        PassOneMore(keys[..], k, d, k);
        j := NextSlot(keys.Length, k, d, j);
        d := d + 1;
      }
    }

    /** `k & (cap - 1)`, where the search for `k` begins. */
    static method Home(cap: nat, k: nat) returns (j: nat)
      requires cap > 0 && IsPow2(cap)
      ensures j == Probe(k, 0, cap)
    {
      ghost var p: nat :| cap == Pow2(p);
      MaskIsMod(k, p);
      j := And(k, cap - 1);
    }

    /** `(j + 1) & (cap - 1)`, the next slot of the search. */
    static method NextSlot(cap: nat, k: nat, ghost d: nat, j: nat) returns (next: nat)
      requires cap > 0 && IsPow2(cap) && j == Probe(k, d, cap)
      ensures next == Probe(k, d + 1, cap)
    {
      ghost var p: nat :| cap == Pow2(p);
      MaskIsMod(j + 1, p);
      ProbeStep(k, d, cap);
      next := And(j + 1, cap - 1);
    }

    /** A table under construction: no tombstones, `m` its content, not full. */
    static ghost predicate Growing(keys: array<int>, vals: array<Option<V>>, m: map<int, V>)
      reads keys, vals
    {
      && keys.Length > 0 && IsPow2(keys.Length)
      && TableOk(keys[..], vals[..], m) && |m| == Live(keys[..])
      && (forall j :: 0 <= j < keys.Length ==> keys[j] == FM_EMPTY || keys[j] >= 0)
    }

    static method Place(keys: array<int>, vals: array<Option<V>>, k: nat, v: V, ghost m: map<int, V>)
      requires Growing(keys, vals, m) && |m| < keys.Length && k !in m
      modifies keys, vals
      ensures Growing(keys, vals, m[k := v])
    {
      NoTombs(keys[..]);
      CountsAddUp(keys[..]);
      ghost var e := CountFinds(keys[..], FM_EMPTY);
      DistanceReaches(k, e, keys.Length);
      AbsentKey(keys[..], vals[..], m, k);
      var j, d := Claim(keys, k, Distance(k, e, keys.Length));
      InsertKeepsTable(keys[..], vals[..], m, k, v, d);
      WriteCounts(keys[..], j, k);
      hide TableOk, Live, Count;
      ghost var keys', vals' := keys[..][j := k], vals[..][j := Some(v)];
      keys[j] := k;
      vals[j] := Some(v);
      assert keys[..] == keys' && vals[..] == vals';
    }

    static lemma AbsentKey(keys: seq<int>, vals: seq<Option<V>>, m: map<int, V>, k: nat)
      requires TableOk(keys, vals, m) && k !in m
      ensures forall i :: 0 <= i < |keys| ==> keys[i] != k
    {
    }

    /** Copies every live entry of the old table into fresh arrays. */
    static method Rebuild(oldKeys: array<int>, oldVals: array<Option<V>>, newCap: nat, ghost whole: map<int, V>)
      returns (newKeys: array<int>, newVals: array<Option<V>>, n: nat)
      requires TableOk(oldKeys[..], oldVals[..], whole)
      requires newCap > oldKeys.Length && IsPow2(newCap)
      ensures fresh(newKeys) && fresh(newVals) && newKeys.Length == newVals.Length == newCap
      ensures Growing(newKeys, newVals, whole) && n == |whole| <= oldKeys.Length
    {
      hide TableOk, Live, Count, IsPow2, Moved;
      newKeys := new int[newCap](_ => FM_EMPTY);
      newVals := new Option<V>[newCap](_ => None);
      ghost var m: map<int, V> := map[];
      n := 0;
      EmptyTableCounts(newKeys[..]);
      FreshTable(newKeys[..], newVals[..]);
      NothingMoved(oldKeys[..], whole);
      TableShape(oldKeys[..], oldVals[..], whole);
      for i := 0 to oldKeys.Length
        invariant Moved(oldKeys[..], i, whole, m)
        invariant Growing(newKeys, newVals, m) && n == |m| <= i
      {
        var k := oldKeys[i];
        if k >= 0 {
          MovedFresh(oldKeys[..], oldVals[..], i, whole, m);
          Place(newKeys, newVals, k, oldVals[i].value, m);
          MoveOne(oldKeys[..], i, whole, m);
          m := m[k := whole[k]];
          n := n + 1;
        } else {
          SkipOne(oldKeys[..], i, whole, m);
        }
      }
      MovedAll(oldKeys[..], oldVals[..], whole, m);
    }

    /** Rebuilds the table at twice the size: the same map, no tombstones. */
    method Resize(newCap: nat, memory: bool) returns (ok: bool)
      requires Valid() && keys.Length > 0 && newCap == 2 * keys.Length
      modifies this
      ensures ok == memory
      ensures !ok ==> unchanged(this)
      ensures ok ==> Valid() && fresh(keys) && fresh(vals) && keys.Length == newCap && tombs == 0
      ensures entries == old(entries) && size == old(size)
    {
      hide TableOk, Live, Count, IsPow2;
      if !memory {
        return false;
      }
      DoublePow2(keys.Length);
      var newKeys, newVals, n := Rebuild(keys, vals, newCap, entries);
      NoTombs(newKeys[..]);
      keys := newKeys;
      vals := newVals;
      size := n;
      tombs := 0;
      return true;
    }

    /**
     Inserts or replaces; fails only when there is no table or it cannot grow.  A negative key is
     not refused: it is written into the table and leaves it invalid.
     */
    method Put(fd: int, c: V, memory: bool) returns (ok: bool)
      requires Valid() && -SIZE_T <= fd
      modifies this, keys, vals
      ensures Valid() <==> fd >= 0 || !ok
      ensures keys == old(keys) || fresh(keys)
      ensures vals == old(vals) || fresh(vals)
      ensures entries == if ok then old(entries)[fd := c] else old(entries)
      ensures ok <==> old(keys.Length) > 0 && (memory || !Crowded(old(size), old(tombs), old(keys.Length)))
      ensures keys.Length == (if ok && Crowded(old(size), old(tombs), old(keys.Length)) then 2 else 1) * old(keys.Length)
    {
      hide TableOk, Live, Count;
      if keys.Length == 0 {
        return false;
      }
      if (size + 1) * 10 > keys.Length * 7 || tombs * 2 > keys.Length || size + tombs + 1 >= keys.Length {
        ok := Resize(2 * keys.Length, memory);
        if !ok {
          return;
        }
      }
      PutSlot(fd, c);
      ok := true;
    }

    /**
     The probe of an insertion: where the key is, or else the first slot of its path that holds
     none.  The code goes on to EMPTY before it reuses a tombstone.
     */
    method FindSlot(fd: int) returns (hit: bool, at: nat, ghost d: nat)
      requires Valid() && keys.Length > 0 && -SIZE_T <= fd
      ensures at < keys.Length && hit == (fd in entries)
      ensures hit ==> fd >= 0 && keys[at] == fd
      ensures !hit ==> IsFirstFree(keys[..], AsSize(fd), d) && at == Probe(AsSize(fd), d, keys.Length)
      ensures !hit ==> Passed(keys[..], AsSize(fd), d, fd) || fd < 0
    {
      hide Valid, Passed;
      var home := AsSize(fd);
      var i := And(home, keys.Length - 1);
      var tomb := -1;
      ghost var e, tombD := 0, 0;
      NextProbes(home, 0);
      NonePassed(keys[..], home, fd);
      ghost var stop := EmptyAhead(home);
      while true
        invariant e <= stop < keys.Length && i == Probe(home, e, keys.Length)
        invariant Passed(keys[..], home, e, fd) || fd < 0
        invariant tomb != -1 ==> tombD < e && tomb == Probe(home, tombD, keys.Length) && keys[tomb] == FM_TOMB
        invariant forall x :: 0 <= x < (if tomb == -1 then e else tombD) ==> keys[Probe(home, x, keys.Length)] >= 0
        invariant forall x :: 0 <= x < e ==> keys[Probe(home, x, keys.Length)] != FM_EMPTY
        decreases stop - e
      {
        var k := keys[i];
        KeysInRange(i);
        if k == FM_EMPTY {
          if fd >= 0 {
            Miss(fd, home, e);
            if tomb != -1 {
              PassedBefore(keys[..], home, tombD, e, fd);
            }
          } else {
            NegativeIsAbsent(fd);
          }
          at, d := if tomb != -1 then tomb else i, if tomb != -1 then tombD else e;
          return false, at, d;
        }
        if k == FM_TOMB {
          if tomb == -1 {
            tomb := i;
            tombD := e;
          }
        } else if k == fd {
          HitIsPresent(i);
          return true, i, e;
        }
        if fd >= 0 {
          PassOneMore(keys[..], home, e, fd);
        }
        NextProbes(home, e);
        i := Next(i);
        e := e + 1;
      }
    }

    lemma NegativeIsAbsent(fd: int)
      requires Valid() && fd < 0
      ensures fd !in entries
    {
    }

    lemma HitIsPresent(i: nat)
      requires Valid() && i < keys.Length && keys[i] >= 0
      ensures keys[i] in entries
    {
      assert keys[..][i] == keys[i];
    }

    /** A new key takes the first slot of its path that holds none. */
    method PutSlot(fd: int, c: V)
      requires Valid() && keys.Length > 0 && size + tombs + 1 < keys.Length && -SIZE_T <= fd
      modifies this`size, this`tombs, this`entries, keys, vals
      ensures (Valid() <==> fd >= 0) && entries == old(entries)[fd := c]
      ensures fd >= 0 && fd in old(entries) ==> keys[..] == old(keys[..])
      ensures fd >= 0 && fd !in old(entries) ==> exists d :: TakesFirst(old(keys[..]), keys[..], fd, d)
    {
      hide Valid, Passed;
      var hit, at;
      ghost var d;
      hit, at, d := FindSlot(fd);
      if hit {
        ReplaceSlot(c, at);
      } else {
        KeysInRange(at);
        if fd >= 0 {
          FillSlot(fd, c, at, d);
          assert TakesFirst(old(keys[..]), keys[..], fd, d);
        } else {
          SpoilSlot(fd, c, at);
        }
      }
    }

    method FillSlot(fd: nat, c: V, ins: nat, ghost d: nat)
      requires Valid() && keys.Length > 0 && size + tombs + 1 < keys.Length && fd !in entries
      requires d < keys.Length && ins == Probe(fd, d, keys.Length) && Passed(keys[..], fd, d, fd)
      requires keys[ins] == FM_EMPTY || keys[ins] == FM_TOMB
      modifies this`size, this`tombs, this`entries, keys, vals
      ensures Valid() && entries == old(entries)[fd := c] && keys[..] == old(keys[..])[ins := fd]
    {
      InsertKeepsTable(keys[..], vals[..], entries, fd, c, d);
      WriteCounts(keys[..], ins, fd);
      hide TableOk, Live, Count;
      ghost var keys', vals' := keys[..][ins := fd], vals[..][ins := Some(c)];
      WriteSlot(fd, c, ins);
      assert keys[..] == keys' && vals[..] == vals';
    }

    /** The same writes for a key that is not a descriptor: a value without a live key. */
    method SpoilSlot(fd: int, c: V, ins: nat)
      requires Valid() && ins < keys.Length && fd < 0
      requires keys[ins] == FM_EMPTY || keys[ins] == FM_TOMB
      modifies this`size, this`tombs, this`entries, keys, vals
      ensures !Valid() && entries == old(entries)[fd := c]
    {
      WriteSlot(fd, c, ins);
      assert keys[..][ins] < 0 && vals[..][ins] != None;
    }

    method WriteSlot(fd: int, c: V, ins: nat)
      requires ins < keys.Length == vals.Length
      modifies this`size, this`tombs, this`entries, keys, vals
      ensures keys[..] == old(keys[..])[ins := fd] && vals[..] == old(vals[..])[ins := Some(c)]
      ensures size == old(size) + 1 && entries == old(entries)[fd := c]
      ensures tombs == old(tombs) - (if old(keys[ins]) == FM_TOMB && old(tombs) > 0 then 1 else 0)
    {
      if keys[ins] == FM_TOMB && tombs > 0 {
        tombs := tombs - 1;
      }
      keys[ins] := fd;
      vals[ins] := Some(c);
      size := size + 1;
      entries := entries[fd := c];
    }

    method ReplaceSlot(c: V, i: nat)
      requires Valid() && i < keys.Length && keys[i] >= 0
      modifies this`entries, vals
      ensures Valid() && entries == old(entries)[keys[i] := c]
    {
      UpdateKeepsTable(keys[..], vals[..], entries, i, c);
      SlotHoldsKey(i);
      hide TableOk, Live, Count;
      ghost var vals' := vals[..][i := Some(c)];
      vals[i] := Some(c);
      assert vals[..] == vals';
      entries := entries[keys[i] := c];
    }

    lemma KeysInRange(i: nat)
      requires Valid() && i < keys.Length
      ensures keys[i] >= FM_TOMB
    {
    }

    lemma NoTables(fd: int)
      requires Valid() && keys.Length == 0
      ensures entries - {fd} == entries
    {
    }

    lemma SlotHoldsKey(i: nat)
      requires Valid() && i < keys.Length && keys[i] >= 0
      ensures keys[i] in entries
    {
    }

    /**
     Removing leaves a tombstone; a key that is not there changes nothing.  The tombstone mark
     itself is not refused: asked to remove it, the search takes the first tombstone it meets
     for the key and counts it out once more.
     */
    method Del(fd: int)
      requires Valid() && -SIZE_T <= fd
      modifies this`size, this`tombs, this`entries, keys, vals
      ensures entries == old(entries) - {fd}
      ensures Valid() <==> !(fd == FM_TOMB && keys.Length > 0 && MeetsTomb(old(keys[..])))
    {
      hide Valid;
      if keys.Length == 0 {
        NoTables(fd);
        return;
      }
      var home := AsSize(fd);
      var i := And(home, keys.Length - 1);
      ghost var d := 0;
      NextProbes(home, 0);
      ghost var stop := EmptyAhead(home);
      while true
        invariant d <= stop < keys.Length && i == Probe(home, d, keys.Length)
        invariant Passed(keys[..], home, d, fd)
        invariant unchanged(this) && unchanged(keys) && unchanged(vals)
        decreases stop - d
      {
        var k := keys[i];
        if k == FM_EMPTY {
          Miss(fd, home, d);
          MinusAbsent(entries, fd);
          if fd == FM_TOMB {
            MeetsNoTomb(keys[..], d);
          }
          return;
        }
        if k == fd {
          KeysInRange(i);
          MinusNegative(fd);
          ClearSlot(i);
          return;
        }
        NextProbes(home, d);
        i := Next(i);
        d := d + 1;
      }
    }

    lemma MinusNegative(fd: int)
      requires Valid() && keys.Length > 0
      ensures fd < 0 ==> entries - {fd} == entries
    {
    }

    method ClearSlot(i: nat)
      requires Valid() && i < keys.Length && keys[i] != FM_EMPTY && keys[i] >= FM_TOMB
      modifies this`size, this`tombs, this`entries, keys, vals
      ensures old(keys[i]) >= 0 ==> Valid() && entries == old(entries) - {old(keys[i])}
      ensures old(keys[i]) == FM_TOMB ==> !Valid() && entries == old(entries)
    {
      if keys[i] >= 0 {
        DeleteKeepsTable(keys[..], vals[..], entries, i);
        WriteCounts(keys[..], i, FM_TOMB);
        SlotHoldsKey(i);
      }
      hide TableOk, Live, Count;
      ghost var keys', vals', k := keys[..][i := FM_TOMB], vals[..][i := None], keys[i];
      keys[i] := FM_TOMB;
      vals[i] := None;
      assert keys[..] == keys' && vals[..] == vals';
      size := if size == 0 then SIZE_T - 1 else size - 1;
      tombs := tombs + 1;
      if k >= 0 {
        entries := entries - {k};
      } else {
        assert keys' == old(keys[..]);
      }
    }
  }

  /** Searching for the tombstone mark comes upon a tombstone before an EMPTY slot. */
  ghost predicate MeetsTomb(keys: seq<int>)
    requires |keys| > 0
  {
    var home := AsSize(FM_TOMB);
    exists d: nat :: d < |keys| && keys[Probe(home, d, |keys|)] == FM_TOMB && Passed(keys, home, d, FM_TOMB)
  }

  lemma MeetsNoTomb(keys: seq<int>, d: nat)
    requires |keys| > 0
    requires keys[Probe(AsSize(FM_TOMB), d, |keys|)] == FM_EMPTY && Passed(keys, AsSize(FM_TOMB), d, FM_TOMB)
    ensures !MeetsTomb(keys)
  {
    hide Probe;
  }

  /** One deleted descriptor is enough: 254 in a table of 256 slots. */
  lemma MeetsTombExample<V>()
    ensures var keys := seq(256, i => if i == 254 then FM_TOMB else FM_EMPTY);
      var vals: seq<Option<V>> := seq(256, _ => None);
      TableOk(keys, vals, map[]) && MeetsTomb(keys)
  {
    var keys := seq(256, i => if i == 254 then FM_TOMB else FM_EMPTY);
    var home := AsSize(FM_TOMB);
    ModUnique(home, 256, 0x1_0000_0000_0000_00 - 1, 254);
    assert Probe(home, 0, 256) == 254;
    assert Passed(keys, home, 0, FM_TOMB);
  }

  lemma MinusAbsent<V>(m: map<int, V>, k: int)
    requires k !in m
    ensures m - {k} == m
  {
  }

  lemma DoublePow2(n: nat)
    requires IsPow2(n)
    ensures IsPow2(2 * n)
  {
    var k: nat :| n == Pow2(k);
    assert 2 * n == Pow2(k + 1);
  }

  lemma {:induction false} NoTombs(keys: seq<int>)
    requires forall i :: 0 <= i < |keys| ==> keys[i] != FM_TOMB
    ensures Count(keys, FM_TOMB) == 0
  {
    if keys != [] {
      NoTombs(keys[..|keys| - 1]);
    }
  }

  /** `m` is what the first `i` slots of the old table hold. */
  ghost predicate Moved<V>(keys: seq<int>, i: nat, whole: map<int, V>, m: map<int, V>)
    requires i <= |keys|
  {
    && (forall k :: k in m ==> k in whole && m[k] == whole[k])
    && (forall k :: k in m <==> k >= 0 && k in keys[..i])
  }

  lemma TableShape<V>(keys: seq<int>, vals: seq<Option<V>>, m: map<int, V>)
    requires TableOk(keys, vals, m)
    ensures |keys| == |vals| > 0
  {
  }

  lemma NothingMoved<V>(keys: seq<int>, whole: map<int, V>)
    ensures Moved(keys, 0, whole, map[])
  {
  }

  lemma MoveOne<V>(keys: seq<int>, i: nat, whole: map<int, V>, m: map<int, V>)
    requires i < |keys| && keys[i] >= 0 && keys[i] in whole && Moved(keys, i, whole, m)
    ensures Moved(keys, i + 1, whole, m[keys[i] := whole[keys[i]]])
  {
    assert keys[..i + 1] == keys[..i] + [keys[i]];
  }

  lemma SkipOne<V>(keys: seq<int>, i: nat, whole: map<int, V>, m: map<int, V>)
    requires i < |keys| && keys[i] < 0 && Moved(keys, i, whole, m)
    ensures Moved(keys, i + 1, whole, m)
  {
    assert keys[..i + 1] == keys[..i] + [keys[i]];
  }

  lemma MovedFresh<V>(keys: seq<int>, vals: seq<Option<V>>, i: nat, whole: map<int, V>, m: map<int, V>)
    requires TableOk(keys, vals, whole) && i < |keys| && keys[i] >= 0 && Moved(keys, i, whole, m)
    ensures keys[i] in whole && keys[i] !in m && vals[i] == Some(whole[keys[i]])
  {
  }

  lemma MovedAll<V>(keys: seq<int>, vals: seq<Option<V>>, whole: map<int, V>, m: map<int, V>)
    requires TableOk(keys, vals, whole) && Moved(keys, |keys|, whole, m)
    ensures m == whole
  {
    forall k | k in whole ensures k >= 0 && k in m {
      var key: nat := k;
      assert OnPath(keys, key);
      var d :| Reached(keys, key, d);
      assert keys[..|keys|][Probe(key, d, |keys|)] == k;
    }
    assert forall k :: k in m ==> k in whole;
    assert m.Keys == whole.Keys;
  }
}
