/**
 The worker's array of active descriptors.  Each stored connection caches the index of
 its own entry, so removal swaps the last entry into the hole in constant time.
 */
module ActiveSet {

  /** The first place of `x`, or the length when it is absent. */
  function IndexOf(s: seq<int>, x: int): (i: nat)
    ensures i <= |s|
    ensures i < |s| ==> s[i] == x
    ensures i == |s| ==> x !in s
  {
    if s == [] then 0 else if s[0] == x then 0 else 1 + IndexOf(s[1..], x)
  }

  /** Overwrites entry `i` with the last entry and drops the last place. */
  function SwapRemove(s: seq<int>, i: nat): (r: seq<int>)
    requires i < |s|
    ensures |r| == |s| - 1
  {
    s[i := s[|s| - 1]][..|s| - 1]
  }

  /** Exactly one entry goes. */
  lemma SwapRemoveDropsOne(s: seq<int>, i: nat)
    requires i < |s|
    ensures multiset(SwapRemove(s, i)) == multiset(s) - multiset{s[i]}
  {
    var n := |s| - 1;
    if i == n {
      assert s == s[..n] + [s[n]];
      assert SwapRemove(s, i) == s[..n];
    } else {
      assert s == s[..i] + [s[i]] + s[i + 1..n] + [s[n]];
      assert SwapRemove(s, i) == s[..i] + [s[n]] + s[i + 1..n];
    }
  }

  datatype Link = Link(inSet: bool, idx: int)

  class Actives {
    var fds: array<int>
    var count: nat
    /** The cached entry of every stored connection, by descriptor. */
    var links: map<int, Link>

    ghost predicate Valid()
      reads this, fds
    {
      && count <= fds.Length
      && (forall i :: 0 <= i < count ==> fds[i] in links && links[fds[i]] == Link(true, i))
      && (forall fd :: fd in links && links[fd].inSet ==>
            0 <= links[fd].idx < count && fds[links[fd].idx] == fd)
    }

    ghost function Contents(): (s: seq<int>)
      requires count <= fds.Length
      reads this, fds
    {
      fds[..count]
    }

    constructor ()
      ensures Valid() && Contents() == [] && links == map[] && fresh(fds) && fds.Length == 0
    {
      fds := new int[0];
      count := 0;
      links := map[];
    }

    /** Appends a stored descriptor that is not listed; out of memory leaves it unlisted. */
    method Add(fd: int, memory: bool)
      requires Valid()
      modifies this, fds
      ensures Valid() && (fds == old(fds) || fresh(fds))
      ensures
        if fd in old(links) && !old(links)[fd].inSet && (old(count) < old(fds.Length) || memory)
        then Contents() == old(Contents()) + [fd] && links == old(links)[fd := Link(true, old(count))]
        else Contents() == old(Contents()) && links == old(links)
    {
      if fd !in links || links[fd].inSet {
        return;
      }
      if count == fds.Length {
        if !memory {
          return;
        }
        Grow();
      }
      fds[count] := fd;
      links := links[fd := Link(true, count)];
      count := count + 1;
    }

    method Grow()
      requires Valid() && count == fds.Length
      modifies this`fds
      ensures Valid() && fresh(fds) && fds.Length > count && Contents() == old(Contents())
      ensures fds.Length == if old(fds.Length) == 0 then 1024 else 2 * old(fds.Length)
    {
      var wider := new int[if fds.Length == 0 then 1024 else 2 * fds.Length];
      forall i | 0 <= i < count {
        wider[i] := fds[i];
      }
      assert wider[..count] == fds[..count];
      fds := wider;
    }

    /**
     Removes a listed descriptor.  The cached index is always exact, so the linear scan the
     code keeps as a fallback is dead.
     */
    method Remove(fd: int)
      requires Valid()
      modifies this, fds
      ensures Valid() && fds == old(fds)
      ensures fd in old(links) && old(links)[fd].inSet ==>
        && 0 <= old(links)[fd].idx < old(count)
        && Contents() == SwapRemove(old(Contents()), old(links)[fd].idx)
        && fd !in Contents()
        && (forall g :: g in old(links) && g != fd && g != old(fds[count - 1]) ==> g in links && links[g] == old(links)[g])
        && links.Keys == old(links).Keys && links[fd] == Link(false, -1)
        && (old(fds[count - 1]) != fd ==> links[old(fds[count - 1])] == Link(true, old(links)[fd].idx))
      ensures !(fd in old(links) && old(links)[fd].inSet) ==> unchanged(this, fds)
    {
      if fd !in links || !links[fd].inSet {
        return;
      }
      var idx := links[fd].idx;
      if idx < 0 || idx >= count || fds[idx] != fd {
        assert false;
      }
      ghost var before := Contents();
      var last := count - 1;
      var moved := fds[last];
      fds[idx] := moved;
      count := last;
      if idx != last && moved in links {
        links := links[moved := links[moved].(idx := idx)];
      }
      links := links[fd := Link(false, -1)];
      assert Contents() == SwapRemove(before, idx);
    }
  }
}
