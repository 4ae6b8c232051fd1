/**
 The request arena: bump allocation out of a list of chunks, and a thread's cache of spare
 minimum-size chunks.  Sizes are 64-bit words and wrap around.
 */
module Arena {
  import opened Bits
  import opened Chains
  import opened Options

  const CHUNK_MIN := 1024
  const CACHE_CAP := 1024
  const RETAIN_MAX := 4096

  /** Bytes of a chunk in front of its data, and what the allocator aligns to. */
  const HEADER := 32
  const MAX_ALIGN := 16

  const WORD := 0x1_0000_0000_0000_0000
  const LARGEST_BLOCK := 0x7fff_ffff_ffff_ffff

  // ----- sizes ------------------------------------------------------------------------------

  /** A power of two that fits a word. */
  ghost predicate IsAlign(align: nat) {
    exists k: nat :: k < 64 && align == Pow2(k)
  }

  lemma WordIsPow2()
    ensures Pow2(64) == WORD
  {
    assert Pow2(2) == 4;
    Pow2Doubles(2);
    Pow2Doubles(4);
    Pow2Doubles(8);
    Pow2Doubles(16);
    Pow2Doubles(32);
  }

  lemma Pow2Doubles(a: nat)
    ensures Pow2(2 * a) == Pow2(a) * Pow2(a)
  {
    hide Pow2;
    assert a + a == 2 * a;
    Pow2OfSum(a, a);
  }

  lemma {:induction false} Pow2OfSum(a: nat, b: nat)
    ensures Pow2(a + b) == Pow2(a) * Pow2(b)
  {
    if a > 0 {
      Pow2OfSum(a - 1, b);
      assert 2 * (Pow2(a - 1) * Pow2(b)) == (2 * Pow2(a - 1)) * Pow2(b);
    }
  }

  lemma AlignIsSmall(align: nat)
    requires IsAlign(align)
    ensures 1 <= align <= WORD / 2
  {
    var k: nat :| k < 64 && align == Pow2(k);
    WordIsPow2();
    Pow2Grows(k, 63);
    assert Pow2(64) == 2 * Pow2(63);
  }

  /** No alignment asked for is alignment 1. */
  function Aligned(align: nat): (a: nat) {
    if align == 0 then 1 else align
  }

  function RoundUp(off: nat, align: nat): (r: nat)
    requires 1 <= align <= WORD
  {
    And((off + align - 1) % WORD, WORD - align)
  }

  /** The next multiple, when the sum does not wrap. */
  lemma RoundUpIsNextMultiple(off: nat, align: nat)
    requires IsAlign(align) && 1 <= align <= WORD && off + align <= WORD
    ensures off <= RoundUp(off, align) < off + align
    ensures RoundUp(off, align) % align == 0
  {
    hide RoundUp, IsAlign;
    var x := off + align - 1;
    RoundUpCutsBack(off, align);
    CutBackIsMultiple(x, align);
  }

  lemma RoundUpCutsBack(off: nat, align: nat)
    requires IsAlign(align) && 1 <= align <= WORD && off + align <= WORD
    ensures RoundUp(off, align) == off + align - 1 - (off + align - 1) % align
  {
    hide And, Pow2;
    var k: nat :| k < 64 && align == Pow2(k);
    WordIsPow2();
    HighMaskRoundsDown(off + align - 1, 64, k);
    ModUnique(off + align - 1, WORD, 0, off + align - 1);
  }

  lemma CutBackIsMultiple(x: nat, align: nat)
    requires align > 0
    ensures 0 <= x % align < align && (x - x % align) % align == 0
  {
    assert x == (x / align) * align + x % align;
    ModUnique(x - x % align, align, x / align, 0);
  }

  function Wrap(n: nat): (r: nat)
    ensures r < WORD
  {
    n % WORD
  }

  /** Does `n` more bytes at this alignment end inside the chunk? */
  predicate Fits(off: nat, cap: nat, n: nat, align: nat)
    requires 1 <= align <= WORD
  {
    var end := Wrap(RoundUp(off, align) + n);
    RoundUp(off, align) <= end <= cap
  }

  /** A size the allocator can really have given. */
  predicate RealSize(cap: nat) {
    HEADER + cap <= LARGEST_BLOCK
  }

  /** On words the test comes to this: the next aligned byte and `n` more end inside the chunk. */
  lemma FitsIsInside(off: nat, cap: nat, n: nat, align: nat)
    requires IsAlign(align) && 1 <= align <= WORD && n < WORD
    requires off <= cap && RealSize(cap)
    ensures off <= RoundUp(off, align) && RoundUp(off, align) % align == 0
    ensures Fits(off, cap, n, align) <==> RoundUp(off, align) + n <= cap
    ensures Fits(off, cap, n, align) ==> RoundUp(off, align) + n == Wrap(RoundUp(off, align) + n)
  {
    AlignIsSmall(align);
    RoundUpIsNextMultiple(off, align);
    var end := RoundUp(off, align) + n;
    if end >= WORD {
      ModUnique(end, WORD, 1, end - WORD);
    } else {
      ModUnique(end, WORD, 0, end);
    }
  }

  function ChunkCap(n: nat, align: nat): (cap: nat) {
    var need := Wrap(n + align);
    if need < CHUNK_MIN then CHUNK_MIN else need
  }

  /** In a new chunk a request fits exactly when `n + align` did not wrap. */
  lemma FreshFitsIffNoWrap(n: nat, align: nat)
    requires IsAlign(align) && 1 <= align <= WORD && n < WORD
    ensures RoundUp(0, align) == 0
    ensures Fits(0, ChunkCap(n, align), n, align) <==> n + align < WORD
  {
    AlignIsSmall(align);
    RoundUpIsNextMultiple(0, align);
    var r := RoundUp(0, align);
    ModUnique(r, align, 0, r);
    ModUnique(n, WORD, 0, n);
    if n + align < WORD {
      ModUnique(n + align, WORD, 0, n + align);
    } else {
      ModUnique(n + align, WORD, 1, n + align - WORD);
    }
  }

  /** The bytes asked of the allocator; the sum can wrap. */
  function BlockBytes(cap: nat): (b: nat) {
    Wrap(HEADER + cap)
  }

  /** The data bytes of a block really obtained: fewer than `cap` exactly in the wrapping band. */
  lemma BlockHoldsCapIffNoWrap(cap: nat)
    requires cap < WORD && BlockBytes(cap) <= LARGEST_BLOCK
    ensures BlockBytes(cap) - HEADER == cap <==> cap < WORD - HEADER
    ensures cap < WORD - HEADER <==> RealSize(cap)
    ensures cap >= WORD - HEADER ==> BlockBytes(cap) < HEADER
  {
    if cap < WORD - HEADER {
      ModUnique(HEADER + cap, WORD, 0, HEADER + cap);
    } else {
      ModUnique(HEADER + cap, WORD, 1, HEADER + cap - WORD);
    }
  }

  lemma ChunkCapIsWord(n: nat, align: nat)
    ensures CHUNK_MIN <= ChunkCap(n, align) < WORD
  {
  }

  // ----- chunks -----------------------------------------------------------------------------

  /** Where a chunk is.  `Held` is only ever seen inside an operation. */
  datatype Place = InArena(owner: ReqArena) | Cached | Freed | Held

  class Chunk {
    var next: Chunk?
    var cap: nat
    var off: nat
    ghost const base: nat
    ghost var place: Place

    constructor (cap: nat, ghost base: nat)
      ensures next == null && this.cap == cap && off == 0 && this.base == base && place == Held
    {
      next, this.cap, off := null, cap, 0;
      this.base, place := base, Held;
    }
  }

  /** One returned pointer. */
  datatype Region = Region(chunk: Chunk, start: nat, len: nat, align: nat)

  class ReqArena {
    var head: Chunk?
    var tail: Chunk?
    ghost var chunks: seq<Chunk>
    ghost var regions: seq<Region>

    constructor ()
      ensures head == null && tail == null && chunks == [] && regions == []
    {
      head, tail, chunks, regions := null, null, [], [];
    }
  }

  ghost function At(s: seq<Chunk>, i: nat): (c: Chunk?) {
    if i < |s| then s[i] else null
  }

  /** `head` and the links spell out `s`. */
  ghost predicate Chain(head: Chunk?, s: seq<Chunk>)
    reads s
  {
    && NoDup(s)
    && head == At(s, 0)
    && forall i :: 0 <= i < |s| ==> s[i].next == At(s, i + 1)
  }

  ghost predicate RegionOk(r: Region)
    reads r.chunk
  {
    IsAlign(r.align) && r.align > 0 && r.start % r.align == 0 && r.start + r.len <= r.chunk.off
  }

  ghost predicate InOrder(regions: seq<Region>) {
    forall i, j :: 0 <= i < j < |regions| && regions[i].chunk == regions[j].chunk ==>
      regions[i].start + regions[i].len <= regions[j].start
  }

  // ----- a thread -----------------------------------------------------------------------------

  class Thread {
    var cache: Chunk?
    var count: nat
    ghost var cached: seq<Chunk>
    ghost var arenas: set<ReqArena>
    ghost var chunks: set<Chunk>

    constructor ()
      ensures Valid() && Sound() && arenas == {} && chunks == {} && cached == []
    {
      cache, count := null, 0;
      cached, arenas, chunks := [], {}, {};
    }

    ghost predicate CacheOk()
      reads this, chunks
    {
      && (forall c :: c in cached ==> c in chunks)
      && Chain(cache, cached)
      && count == |cached| <= CACHE_CAP
      && forall c :: c in cached ==> c.place == Cached && c.cap == CHUNK_MIN && c.off == 0
    }

    ghost predicate ArenaOk(a: ReqArena)
      reads this, a, chunks
    {
      && (forall c :: c in a.chunks ==> c in chunks)
      && Chain(a.head, a.chunks)
      && a.tail == (if a.chunks == [] then null else a.chunks[|a.chunks| - 1])
      && forall c :: c in a.chunks ==> c.place == InArena(a)
    }

    /** Every chunk is where its place says. */
    ghost predicate PlacesOk()
      reads this, arenas, chunks
    {
      forall c :: c in chunks ==>
        && c.base % MAX_ALIGN == 0
        && (c.place == Cached ==> c in cached)
        && (c.place.InArena? ==> c.place.owner in arenas && c in c.place.owner.chunks)
    }

    ghost predicate Structured()
      reads this, arenas, chunks
    {
      CacheOk() && PlacesOk() && forall a :: a in arenas ==> ArenaOk(a)
    }

    /** In addition nothing is in flight: every chunk is in an arena, in the cache or freed. */
    ghost predicate Valid()
      reads this, arenas, chunks
    {
      Structured() && forall c :: c in chunks ==> c.place != Held
    }

    /** The returned regions are aligned, inside the used part, and in order of address. */
    ghost predicate RegionsOk(a: ReqArena)
      reads this, a, chunks
    {
      && (forall r :: r in a.regions ==> r.chunk in chunks && r.chunk in a.chunks)
      && (forall r :: r in a.regions ==> RegionOk(r))
      && InOrder(a.regions)
    }

    ghost predicate SizesOk()
      reads this, chunks
    {
      forall c :: c in chunks && c.place != Freed ==> RealSize(c.cap) && c.off <= c.cap
    }

    /** Every live block holds its capacity, and every arena's regions are in order in them. */
    ghost predicate Sound()
      reads this, arenas, chunks
    {
      SizesOk() && forall a :: a in arenas ==> RegionsOk(a)
    }

    // ----- blocks ---------------------------------------------------------------------------

    static method Malloc(cap: nat) returns (c: Chunk?)
      requires cap < WORD
      ensures c != null ==> fresh(c) && c.next == null && c.cap == cap && c.off == 0
      ensures c != null ==> c.place == Held && c.base % MAX_ALIGN == 0
      ensures c != null ==> BlockBytes(cap) <= LARGEST_BLOCK
    {
      var found: bool := *;
      if BlockBytes(cap) > LARGEST_BLOCK || !found {
        return null;
      }
      assert 0 % MAX_ALIGN == 0;
      ghost var base: nat :| base % MAX_ALIGN == 0;
      c := new Chunk(cap, base);
    }

    /** Of the known chunks only `c` changed, and no arena did. */
    twostate predicate OnlyChanged(c: Chunk)
      reads this, arenas, chunks
    {
      && arenas == old(arenas) && old(chunks) <= chunks
      && (forall x :: x in old(chunks) && x != c ==>
            x.next == old(x.next) && x.cap == old(x.cap) && x.off == old(x.off) && x.place == old(x.place))
      && (forall a :: a in arenas ==>
            a.head == old(a.head) && a.tail == old(a.tail) && a.chunks == old(a.chunks) && a.regions == old(a.regions))
    }

    twostate lemma ArenasStay(c: Chunk)
      requires old(Structured()) && OnlyChanged(c) && !old(c.place).InArena?
      ensures forall a :: a in arenas ==> ArenaOk(a)
    {
      forall a | a in arenas ensures ArenaOk(a) {
        assert old(ArenaOk(a)) && c !in a.chunks;
        forall i | 0 <= i < |a.chunks| ensures a.chunks[i].next == At(a.chunks, i + 1) {
          assert a.chunks[i] in old(chunks);
        }
      }
    }

    twostate lemma RegionsStay(c: Chunk)
      requires old(Structured()) && old(Sound()) && OnlyChanged(c) && !old(c.place).InArena?
      ensures forall a :: a in arenas ==> RegionsOk(a)
    {
      forall a | a in arenas ensures RegionsOk(a) {
        assert old(ArenaOk(a)) && old(RegionsOk(a));
        forall r | r in a.regions ensures RegionOk(r) {
          assert r.chunk in old(chunks) && r.chunk != c;
        }
      }
    }

    /** `c` goes to the front of the cache. */
    twostate lemma Pushed(c: Chunk)
      requires old(CacheOk()) && old(count) < CACHE_CAP && OnlyChanged(c) && c in chunks && old(c.place) != Cached
      requires cached == [c] + old(cached) && cache == c && count == old(count) + 1
      requires c.next == old(cache) && c.place == Cached && c.cap == CHUNK_MIN && c.off == 0
      ensures CacheOk()
    {
      assert c !in old(cached);
      forall i | 0 <= i < |cached| ensures cached[i].next == At(cached, i + 1) {
        if i > 0 {
          assert cached[i] == old(cached)[i - 1];
          assert cached[i] in old(cached);
        }
      }
    }

    /** Puts a chunk into the cache, or frees it. */
    method Release(c: Chunk)
      requires Structured() && c in chunks && c.place == Held
      modifies this`cache, this`count, this`cached, c
      ensures Structured()
      ensures c.cap == old(c.cap)
      ensures c.place == if c.cap == CHUNK_MIN && old(count) < CACHE_CAP then Cached else Freed
      ensures cached == if c.place == Cached then [c] + old(cached) else old(cached)
      ensures old(Sound()) ==> Sound()
    {
      hide ArenaOk, RegionsOk, CacheOk;
      if c.cap == CHUNK_MIN && count < CACHE_CAP {
        c.off := 0;
        c.next := cache;
        cache := c;
        count := count + 1;
        c.place, cached := Cached, [c] + cached;
        Pushed(c);
      } else {
        c.place := Freed;
        CacheStays(c);
      }
      ArenasStay(c);
      if old(Sound()) {
        RegionsStay(c);
      }
    }

    twostate lemma CacheStays(c: Chunk)
      requires old(CacheOk()) && OnlyChanged(c) && old(c.place) != Cached
      requires cached == old(cached) && cache == old(cache) && count == old(count)
      ensures CacheOk()
    {
      assert c !in cached;
      forall i | 0 <= i < |cached| ensures cached[i].next == At(cached, i + 1) {
        assert cached[i] in cached;
      }
    }

    /** The front of the cache is taken off. */
    twostate lemma Popped(c: Chunk)
      requires old(CacheOk()) && OnlyChanged(c) && old(cached) != [] && c == old(cached)[0]
      requires cached == old(cached)[1..] && cache == old(c.next) && count == old(count) - 1
      ensures CacheOk()
    {
      assert forall i :: 0 <= i < |cached| ==> cached[i] == old(cached)[i + 1];
      assert c !in cached;
      forall i | 0 <= i < |cached| ensures cached[i].next == At(cached, i + 1) {
        assert cached[i] in old(cached);
      }
    }

    /** A chunk from the cache when it is the minimum size and there is one, else a new block. */
    method NewChunk(cap: nat) returns (c: Chunk?)
      requires Structured() && cap < WORD
      modifies this`cache, this`count, this`cached, this`chunks, cached
      ensures Structured() && arenas == old(arenas)
      ensures c == null ==> chunks == old(chunks) && cached == old(cached) && (forall x :: x in chunks ==> unchanged(x))
      ensures c != null ==> c in chunks && c.place == Held && c.cap == cap && c.off == 0 && c.next == null
      ensures c != null && !fresh(c) ==>
        cap == CHUNK_MIN && c in old(cached) && chunks == old(chunks) && cached == old(cached)[1..]
      ensures c != null && fresh(c) ==> BlockBytes(cap) <= LARGEST_BLOCK && chunks == old(chunks) + {c}
      ensures c != null ==> (forall x :: x in old(chunks) && x != c ==> unchanged(x))
      ensures c != null && fresh(c) ==> c !in old(chunks)
      ensures cap == CHUNK_MIN && old(cache) != null ==> c == old(cache) && !fresh(c)
      ensures old(Sound()) && c == null ==> Sound()
      ensures old(Sound()) && c != null ==> (Sound() <==> RealSize(cap))
    {
      hide ArenaOk, CacheOk, RegionsOk, RealSize;
      MinIsReal();
      if cap == CHUNK_MIN && cache != null {
        CacheFront();
        c := cache;
        cache := c.next;
        if count > 0 {
          count := count - 1;
        }
        c.next, c.cap, c.off := null, cap, 0;
        c.place, cached := Held, cached[1..];
        Popped(c);
        ArenasStay(c);
        if old(Sound()) {
          RegionsStay(c);
        }
        return;
      }
      c := Malloc(cap);
      if c != null {
        assert Structured() && (old(Sound()) ==> Sound());
        label New:
        chunks := chunks + {c};
        ArenasStay@New(c);
        CacheStays@New(c);
        if old(Sound()) {
          RegionsStay@New(c);
        }
      }
    }

    static lemma MinIsReal()
      ensures RealSize(CHUNK_MIN)
    {
    }

    lemma CacheFront()
      requires CacheOk() && cache != null
      ensures cached != [] && cached[0] == cache && cache in chunks && cache.place == Cached && count == |cached|
    {
    }

    // ----- allocation -----------------------------------------------------------------------

    /** Only one arena, its chunks, and a chunk that was in no list changed. */
    twostate predicate OnlyIn(a: ReqArena)
      reads this, arenas, chunks
    {
      && arenas == old(arenas) && chunks == old(chunks)
      && cache == old(cache) && count == old(count) && cached == old(cached)
      && (forall x :: x in chunks && old(x.place) != InArena(a) && old(x.place) != Held ==>
            x.next == old(x.next) && x.cap == old(x.cap) && x.off == old(x.off) && x.place == old(x.place))
      && (forall b :: b in arenas && b != a ==>
            b.head == old(b.head) && b.tail == old(b.tail) && b.chunks == old(b.chunks) && b.regions == old(b.regions))
    }

    twostate lemma CacheUntouched(a: ReqArena)
      requires old(CacheOk()) && OnlyIn(a)
      ensures CacheOk()
    {
      forall i | 0 <= i < |cached| ensures cached[i].next == At(cached, i + 1) {
        assert cached[i] in cached;
      }
    }

    twostate lemma OthersUntouched(a: ReqArena)
      requires old(Structured()) && OnlyIn(a)
      ensures forall b :: b in arenas && b != a ==> ArenaOk(b)
    {
      hide CacheOk;
      forall b | b in arenas && b != a ensures ArenaOk(b) {
        assert old(ArenaOk(b));
        forall i | 0 <= i < |b.chunks| ensures b.chunks[i].next == At(b.chunks, i + 1) {
          assert b.chunks[i] in chunks;
        }
      }
    }

    twostate lemma RegionsUntouched(a: ReqArena)
      requires old(Structured()) && old(Sound()) && OnlyIn(a)
      ensures forall b :: b in arenas && b != a ==> RegionsOk(b)
    {
      hide CacheOk;
      forall b | b in arenas && b != a ensures RegionsOk(b) {
        assert old(ArenaOk(b)) && old(RegionsOk(b));
        forall r | r in b.regions ensures RegionOk(r) {
          assert r.chunk in b.chunks;
        }
      }
    }

    /** A held chunk is now the last one of `a`. */
    twostate lemma Appended(a: ReqArena)
      requires old(ArenaOk(a)) && chunks == old(chunks)
      requires a.tail != null && a.tail in chunks && a.tail !in old(a.chunks)
      requires a.tail.place == InArena(a) && a.tail.next == null
      requires a.chunks == old(a.chunks) + [a.tail]
      requires a.head == (if old(a.head) == null then a.tail else old(a.head))
      requires forall x :: x in old(a.chunks) ==>
        x.place == old(x.place) && x.next == (if x == old(a.tail) then a.tail else old(x.next))
      ensures ArenaOk(a)
    {
      var was := old(a.chunks);
      forall i | 0 <= i < |a.chunks| ensures a.chunks[i].next == At(a.chunks, i + 1) {
        if i < |was| {
          assert a.chunks[i] == was[i] && was[i] in was;
        }
      }
    }

    lemma HeldIsNotListed(a: ReqArena, c: Chunk)
      requires ArenaOk(a) && c.place == Held
      ensures c !in a.chunks && a.chunks <= a.chunks + [c]
      ensures a.tail != null ==> a.tail in a.chunks && a.tail in chunks
      ensures forall x :: x in a.chunks ==> x.place == InArena(a)
    {
    }

    /** The writes that link `c` behind the tail. */
    static method Splice(a: ReqArena, c: Chunk)
      requires a.tail != null ==> a.tail in a.chunks
      requires c !in a.chunks
      modifies a`head, a`tail, a`chunks, a.chunks`next, c`place
      ensures a.head == (if old(a.head) == null then c else old(a.head))
      ensures a.tail == c && a.chunks == old(a.chunks) + [c] && c.place == InArena(a)
      ensures forall x :: x in old(a.chunks) ==> x.next == (if x == old(a.tail) then c else old(x.next))
    {
      if a.head == null {
        a.head := c;
      }
      if a.tail != null {
        a.tail.next := c;
      }
      a.tail := c;
      a.chunks, c.place := a.chunks + [c], InArena(a);
    }

    twostate lemma PlacesAfterAppend(a: ReqArena)
      requires old(PlacesOk()) && OnlyIn(a) && a in arenas
      requires a.tail != null && a.tail.place == InArena(a) && a.chunks == old(a.chunks) + [a.tail]
      requires forall x :: x in chunks && x != a.tail ==> x.place == old(x.place)
      ensures PlacesOk()
    {
    }

    twostate lemma RegionsStillOk(a: ReqArena)
      requires old(RegionsOk(a)) && chunks == old(chunks)
      requires a.regions == old(a.regions) && old(a.chunks) <= a.chunks
      requires forall x :: x in chunks ==> x.off == old(x.off)
      ensures RegionsOk(a)
    {
      forall r | r in a.regions ensures RegionOk(r) {
        assert r.chunk in chunks;
      }
    }

    method Append(a: ReqArena, c: Chunk)
      requires Structured() && a in arenas && c in chunks && c.place == Held && c.next == null
      modifies a`head, a`tail, a`chunks, a.chunks`next, c`place
      ensures Structured()
      ensures a.chunks == old(a.chunks) + [c]
      ensures c.place == InArena(a)
      ensures old(Sound()) ==> Sound()
    {
      hide CacheOk, ArenaOk, PlacesOk, RegionsOk, RealSize;
      HeldIsNotListed(a, c);
      Splice(a, c);
      if old(Sound()) {
        RegionsUntouched(a);
        RegionsStillOk(a);
      }
      Appended(a);
      CacheUntouched(a);
      OthersUntouched(a);
      PlacesAfterAppend(a);
    }

    /** The last region is new: it starts at or after what was used of its chunk. */
    twostate lemma RegionAdded(a: ReqArena)
      requires old(RegionsOk(a)) && chunks == old(chunks) && a.chunks == old(a.chunks)
      requires |a.regions| == |old(a.regions)| + 1 && a.regions[..|old(a.regions)|] == old(a.regions)
      requires var r := a.regions[|old(a.regions)|];
        && r.chunk in chunks && r.chunk in a.chunks && RegionOk(r) && r.start >= old(r.chunk.off)
        && r.chunk.off >= old(r.chunk.off)
        && forall x :: x in chunks && x != r.chunk ==> x.off == old(x.off)
      ensures RegionsOk(a)
    {
      var was := old(a.regions);
      forall i | 0 <= i < |a.regions| ensures RegionOk(a.regions[i]) && a.regions[i].chunk in a.chunks && a.regions[i].chunk in chunks {
        if i < |was| {
          assert a.regions[i] == was[i] && was[i] in was;
        }
      }
      forall i, j | 0 <= i < j < |a.regions| && a.regions[i].chunk == a.regions[j].chunk
        ensures a.regions[i].start + a.regions[i].len <= a.regions[j].start
      {
        assert a.regions[i] == was[i] && was[i] in was;
        if j < |was| {
          assert a.regions[j] == was[j];
        }
      }
    }

    /** Hands out the next aligned bytes of a chunk they fit in. */
    method Bump(a: ReqArena, c: Chunk, n: nat, align: nat) returns (r: Region)
      requires Structured() && a in arenas && c in a.chunks && c in chunks && c.place == InArena(a)
      requires IsAlign(align) && 1 <= align <= WORD && n < WORD && Fits(c.off, c.cap, n, align)
      modifies c`off, a`regions
      ensures Structured()
      ensures r == Region(c, RoundUp(old(c.off), align), n, align) && a.regions == old(a.regions) + [r]
      ensures old(Sound()) ==> Sound()
    {
      hide CacheOk, ArenaOk, PlacesOk, RegionsOk, RealSize, RoundUp, Fits, IsAlign;
      assert old(Sound()) ==> RealSize(c.cap) && c.off <= c.cap;
      if old(Sound()) {
        FitsIsInside(c.off, c.cap, n, align);
      }
      FitsIsInCap(c.off, c.cap, n, align);
      var start := RoundUp(c.off, align);
      c.off := Wrap(start + n);
      r := Region(c, start, n, align);
      a.regions := a.regions + [r];
      BumpStays(a);
      CacheUntouched(a);
      OthersUntouched(a);
      if old(Sound()) {
        RegionsUntouched(a);
        assert a.regions[..|old(a.regions)|] == old(a.regions);
        RegionAdded(a);
      }
    }

    lemma FitsIsInCap(off: nat, cap: nat, n: nat, align: nat)
      requires 1 <= align <= WORD && Fits(off, cap, n, align)
      ensures Wrap(RoundUp(off, align) + n) <= cap
    {
    }

    twostate lemma BumpStays(a: ReqArena)
      requires old(ArenaOk(a)) && old(PlacesOk()) && OnlyIn(a)
      requires a.head == old(a.head) && a.tail == old(a.tail) && a.chunks == old(a.chunks)
      requires forall x :: x in chunks ==> x.next == old(x.next) && x.place == old(x.place)
      ensures ArenaOk(a) && PlacesOk()
    {
      forall i | 0 <= i < |a.chunks| ensures a.chunks[i].next == At(a.chunks, i + 1) {
        assert a.chunks[i] in chunks;
      }
    }

    method Open() returns (a: ReqArena)
      requires Valid()
      modifies this`arenas
      ensures Valid() && fresh(a) && arenas == old(arenas) + {a} && a.chunks == [] && a.regions == []
      ensures old(Sound()) ==> Sound()
    {
      hide CacheOk, PlacesOk, RegionsOk, Sound;
      a := new ReqArena();
      assert Structured() && (old(Sound()) ==> Sound());
      label New:
      arenas := arenas + {a};
      Joined@New(a);
      if old(Sound()) {
        JoinedSoundly@New(a);
      }
    }

    ghost predicate TailFits(a: ReqArena, n: nat, align: nat)
      reads a, a.tail
    {
      a.tail != null && 1 <= align <= WORD && Fits(a.tail.off, a.tail.cap, n, align)
    }

    /**
     Returned regions never move and never overlap.  The one request that breaks this is a new
     chunk whose block size wraps: `n + align` within 32 bytes of the word size.
     */
    method Alloc(a: ReqArena, n: nat, align: nat) returns (p: Option<Region>)
      requires Valid() && a in arenas && n < WORD && (align == 0 || IsAlign(align))
      modifies this`cache, this`count, this`cached, this`chunks, cached, a, a.chunks
      ensures Valid() && arenas == old(arenas) && old(chunks) <= chunks
      ensures p.None? ==> a.regions == old(a.regions)
      ensures p.Some? ==>
        && a.regions == old(a.regions) + [p.value]
        && p.value.len == n && p.value.align == Aligned(align)
      ensures old(a.chunks) <= a.chunks && |a.chunks| <= |old(a.chunks)| + 1
      ensures old(TailFits(a, n, Aligned(align))) ==>
        && a.chunks == old(a.chunks) && chunks == old(chunks) && cached == old(cached)
        && p == Some(Region(old(a.tail), RoundUp(old(a.tail.off), Aligned(align)), n, Aligned(align)))
      ensures !old(TailFits(a, n, Aligned(align))) ==>
        && (a.chunks == old(a.chunks) ==> p == None)
        && (ChunkCap(n, Aligned(align)) == CHUNK_MIN && old(cache) != null ==>
              a.chunks == old(a.chunks) + [old(cache)] && chunks == old(chunks))
      ensures a.chunks != old(a.chunks) ==>
        && a.chunks[|old(a.chunks)|].cap == ChunkCap(n, Aligned(align))
        && (p.Some? <==> n + Aligned(align) < WORD)
      ensures old(Sound()) ==>
        (Sound() <==> a.chunks == old(a.chunks) || ChunkCap(n, Aligned(align)) < WORD - HEADER)
    {
      hide CacheOk, ArenaOk, PlacesOk, RegionsOk, RoundUp, Fits, IsAlign;
      var al := Aligned(align);
      OneIsAlign();
      AlignIsSmall(al);
      if a.tail != null {
        TailIsListed(a);
        if Fits(a.tail.off, a.tail.cap, n, al) {
          var r := Bump(a, a.tail, n, al);
          return Some(r);
        }
      }
      p := AllocFresh(a, n, al);
    }

    /** The part of allocation that needs another chunk. */
    method AllocFresh(a: ReqArena, n: nat, align: nat) returns (p: Option<Region>)
      requires Valid() && a in arenas && n < WORD && IsAlign(align) && 1 <= align <= WORD
      modifies this`cache, this`count, this`cached, this`chunks, cached, a, a.chunks
      ensures Valid() && arenas == old(arenas) && old(chunks) <= chunks
      ensures p.None? ==> a.regions == old(a.regions)
      ensures p.Some? ==> a.regions == old(a.regions) + [p.value] && p.value.len == n && p.value.align == align
      ensures a.chunks == old(a.chunks) ==> p.None?
      ensures ChunkCap(n, align) == CHUNK_MIN && old(cache) != null ==>
        a.chunks == old(a.chunks) + [old(cache)] && chunks == old(chunks)
      ensures old(a.chunks) <= a.chunks && |a.chunks| <= |old(a.chunks)| + 1
      ensures a.chunks != old(a.chunks) ==>
        a.chunks[|old(a.chunks)|].cap == ChunkCap(n, align) && (p.Some? <==> n + align < WORD)
      ensures old(Sound()) ==> (Sound() <==> a.chunks == old(a.chunks) || ChunkCap(n, align) < WORD - HEADER)
    {
      hide CacheOk, ArenaOk, PlacesOk, RegionsOk, RoundUp, Fits, IsAlign, ChunkCap, BlockBytes, RealSize;
      var cap := ChunkCap(n, align);
      ChunkCapIsWord(n, align);
      var c := NewChunk(cap);
      if c == null {
        return None;
      }
      if fresh(c) {
        BlockHoldsCapIffNoWrap(cap);
      }
      MinIsReal();
      Append(a, c);
      assert c == a.chunks[|old(a.chunks)|];
      FreshFitsIffNoWrap(n, align);
      if !Fits(c.off, c.cap, n, align) {
        return None;
      }
      var r := Bump(a, c, n, align);
      return Some(r);
    }

    static lemma OneIsAlign()
      ensures IsAlign(1)
    {
      assert 1 == Pow2(0);
    }

    lemma TailIsListed(a: ReqArena)
      requires ArenaOk(a) && a.tail != null
      ensures a.tail in a.chunks && a.tail in chunks && a.tail.place == InArena(a)
    {
    }

    // ----- giving chunks back ---------------------------------------------------------------

    /** Takes an arena's chunks out of it, for release. */
    ghost method Detach(a: ReqArena)
      requires Valid() && a in arenas
      modifies this`arenas, a.chunks`place
      ensures Structured() && arenas == old(arenas) - {a}
      ensures AllHeld(a.chunks) && Chain(a.head, a.chunks)
      ensures forall x :: x in chunks && x !in a.chunks ==> x.place != Held
      ensures old(Sound()) ==> Sound()
    {
      hide RealSize;
      assert ArenaOk(a);
      arenas := arenas - {a};
      forall x | x in a.chunks {
        x.place := Held;
      }
      DetachStays(a);
    }

    twostate lemma DetachStays(a: ReqArena)
      requires old(Valid()) && old(a in arenas) && arenas == old(arenas) - {a} && chunks == old(chunks)
      requires cache == old(cache) && count == old(count) && cached == old(cached) && a.chunks == old(a.chunks)
      requires forall b :: b in arenas ==> unchanged(b)
      requires forall x :: x in chunks ==> x.next == old(x.next) && x.cap == old(x.cap) && x.off == old(x.off)
      requires forall x :: x in chunks && x !in a.chunks ==> x.place == old(x.place)
      requires forall x :: x in a.chunks ==> x.place == Held
      ensures CacheOk() && PlacesOk()
      ensures forall b :: b in arenas ==> ArenaOk(b)
      ensures old(Sound()) ==> forall b :: b in arenas ==> RegionsOk(b)
    {
    }

    ghost predicate AllHeld(s: seq<Chunk>)
      reads this, s
    {
      forall x :: x in s ==> x in chunks && x.place == Held
    }

    static ghost predicate AllGone(s: seq<Chunk>)
      reads s
    {
      forall x :: x in s ==> x.place == Freed || (x.place == Cached && x.cap == CHUNK_MIN)
    }

    /** Releases the first of a detached chain; the rest is still one. */
    method ReleaseFirst(c: Chunk, ghost s: seq<Chunk>) returns (next: Chunk?)
      requires Structured() && Chain(c, s) && AllHeld(s)
      modifies this`cache, this`count, this`cached, c
      ensures s != [] && s[0] == c && c !in s[1..]
      ensures Structured() && Chain(next, s[1..]) && AllHeld(s[1..])
      ensures AllGone([c])
      ensures old(Sound()) ==> Sound()
    {
      hide Structured, Sound;
      next := c.next;
      ChainTail(c, s);
      Release(c);
    }

    /** Releases a detached chain, first to last. */
    method Drain(head: Chunk?, ghost all: seq<Chunk>)
      requires Structured() && Chain(head, all) && AllHeld(all)
      modifies this`cache, this`count, this`cached, all
      ensures Structured() && AllGone(all)
      ensures old(Sound()) ==> Sound()
    {
      hide Structured, Sound, Chain, AllHeld, AllGone;
      var c := head;
      ghost var k := 0;
      assert all[0..] == all;
      ChainStart(c, all);
      NoneGone();
      while c != null
        invariant k <= |all| && Structured() && Chain(c, all[k..]) && AllHeld(all[k..])
        invariant AllGone(all[..k])
        invariant c == At(all, k)
        invariant old(Sound()) ==> Sound()
        decreases |all| - k
      {
        assert c == all[k] && c !in all[..k];
        assert all[k..][1..] == all[k + 1..] && all[..k + 1] == all[..k] + [c];
        c := ReleaseFirst(c, all[k..]);
        OneMoreGone(all[..k], all[k]);
        k := k + 1;
        ChainStart(c, all[k..]);
      }
      assert all[..k] == all;
    }

    static lemma ChainStart(c: Chunk?, s: seq<Chunk>)
      requires Chain(c, s)
      ensures NoDup(s) && c == At(s, 0)
    {
    }

    static lemma NoneGone()
      ensures AllGone([])
    {
    }

    static lemma OneMoreGone(s: seq<Chunk>, c: Chunk)
      requires AllGone(s) && AllGone([c])
      ensures AllGone(s + [c])
    {
      assert c in [c];
    }

    static lemma ChainTail(c: Chunk, s: seq<Chunk>)
      requires Chain(c, s)
      ensures s != [] && s[0] == c && c !in s[1..] && Chain(c.next, s[1..])
    {
      forall i | 0 <= i < |s[1..]| ensures s[1..][i].next == At(s[1..], i + 1) {
        assert s[1..][i] == s[i + 1];
      }
    }

    /** An arena that was out of the books is back, over chunks that were held. */
    twostate lemma Joined(a: ReqArena)
      requires old(Structured()) && a !in old(arenas) && arenas == old(arenas) + {a} && chunks == old(chunks)
      requires cache == old(cache) && count == old(count) && cached == old(cached)
      requires forall b :: b in old(arenas) ==> unchanged(b)
      requires forall x :: x in chunks && x !in a.chunks ==> unchanged(x)
      requires forall x :: x in a.chunks ==> x in old(chunks) && old(x.place) == Held
      requires ArenaOk(a)
      ensures Structured()
    {
      assert CacheOk() by {
        forall i | 0 <= i < |cached| ensures cached[i].next == At(cached, i + 1) {
          assert cached[i] in cached && cached[i] !in a.chunks;
        }
      }
      forall b | b in old(arenas) ensures ArenaOk(b) {
        assert old(ArenaOk(b));
        forall i | 0 <= i < |b.chunks| ensures b.chunks[i].next == At(b.chunks, i + 1) {
          assert b.chunks[i] in chunks && b.chunks[i] !in a.chunks;
        }
      }
    }

    twostate lemma JoinedSoundly(a: ReqArena)
      requires old(Structured()) && old(Sound()) && arenas == old(arenas) + {a} && chunks == old(chunks)
      requires forall b :: b in old(arenas) ==> unchanged(b)
      requires forall x :: x in chunks && x !in a.chunks ==> unchanged(x)
      requires forall x :: x in a.chunks ==> x in old(chunks) && old(x.place) == Held && x.cap == old(x.cap) && x.off == 0
      requires a.regions == []
      ensures Sound()
    {
      hide CacheOk, PlacesOk, RealSize;
      forall b | b in old(arenas) ensures RegionsOk(b) {
        assert old(RegionsOk(b)) && old(ArenaOk(b));
        forall r | r in b.regions ensures RegionOk(r) {
          assert r.chunk in b.chunks && r.chunk !in a.chunks;
        }
      }
    }

    /** Puts a detached arena back with no chunk. */
    method Clear(a: ReqArena)
      requires Structured() && a !in arenas
      modifies this`arenas, a
      ensures Structured() && arenas == old(arenas) + {a}
      ensures a.chunks == [] && a.regions == []
      ensures old(Sound()) ==> Sound()
    {
      hide CacheOk, PlacesOk, RegionsOk;
      a.head, a.tail := null, null;
      a.chunks, a.regions := [], [];
      arenas := arenas + {a};
      Joined(a);
      if old(Sound()) {
        JoinedSoundly(a);
      }
    }

    /** Puts a detached arena back with one held chunk, emptied. */
    method Keep(a: ReqArena, first: Chunk)
      requires Structured() && a !in arenas && first in chunks && first.place == Held
      modifies this`arenas, a, first`off, first`next, first`place
      ensures Structured() && arenas == old(arenas) + {a}
      ensures a.chunks == [first] && a.regions == [] && first.off == 0 && first.place == InArena(a)
      ensures old(Sound()) ==> Sound()
    {
      hide CacheOk, PlacesOk, RegionsOk;
      first.off := 0;
      first.next := null;
      a.head, a.tail := first, first;
      a.chunks, a.regions := [first], [];
      first.place := InArena(a);
      arenas := arenas + {a};
      Joined(a);
      if old(Sound()) {
        JoinedSoundly(a);
      }
    }

    lemma HeadIsFirst(a: ReqArena)
      requires ArenaOk(a)
      ensures Chain(a.head, a.chunks) && (a.head == null <==> a.chunks == [])
      ensures forall x :: x in a.chunks ==> x in chunks
    {
    }

    /** Releases every chunk of an arena but the first, which is left held. */
    method ReleaseRest(a: ReqArena) returns (first: Chunk)
      requires Valid() && a in arenas && a.chunks != []
      modifies this`cache, this`count, this`cached, this`arenas, a.chunks
      ensures Structured() && arenas == old(arenas) - {a}
      ensures first == old(a.chunks)[0] && first in chunks && first.place == Held && first.cap == old(first.cap)
      ensures AllGone(old(a.chunks)[1..])
      ensures forall x :: x in chunks && x != first ==> x.place != Held
      ensures old(Sound()) ==> Sound()
    {
      hide Structured, Sound, Chain, ArenaOk;
      StructuredArena(a);
      HeadIsFirst(a);
      first := a.head;
      ghost var all := a.chunks;
      HeadIs(first, all);
      assert all == [first] + all[1..];
      Detach(a);
      ChainTail(first, all);
      Drain(first.next, all[1..]);
    }

    static lemma HeadIs(head: Chunk, s: seq<Chunk>)
      requires Chain(head, s)
      ensures s != [] && s[0] == head
    {
    }

    /** Between requests: all but a small first chunk are released, and no region is left. */
    method Reset(a: ReqArena)
      requires Valid() && a in arenas
      modifies this`cache, this`count, this`cached, this`arenas, a, a.chunks
      ensures Valid() && arenas == old(arenas)
      ensures a.chunks == if old(a.chunks) == [] || old(a.chunks[0].cap) > RETAIN_MAX then [] else [old(a.chunks)[0]]
      ensures old(a.chunks) != [] ==> a.regions == []
      ensures old(a.chunks) != [] && a.chunks != [] ==> a.chunks[0].off == 0
      ensures forall x :: x in old(a.chunks) && x !in a.chunks ==> x.place == Freed || x.place == Cached
      ensures old(Sound()) ==> Sound()
    {
      hide Structured, Sound, Chain, ArenaOk;
      StructuredArena(a);
      HeadIsFirst(a);
      if a.head == null {
        return;
      }
      ghost var all := a.chunks;
      assert all == [all[0]] + all[1..];
      var first := ReleaseRest(a);
      if first.cap > RETAIN_MAX {
        Release(first);
        Clear(a);
      } else {
        Keep(a, first);
      }
      assert arenas == old(arenas);
    }

    /** At the end of a connection every chunk is released. */
    method Destroy(a: ReqArena)
      requires Valid() && a in arenas
      modifies this`cache, this`count, this`cached, this`arenas, a, a.chunks
      ensures Valid() && arenas == old(arenas)
      ensures a.chunks == [] && a.regions == []
      ensures AllGone(old(a.chunks))
      ensures old(Sound()) ==> Sound()
    {
      hide Structured, Sound;
      StructuredArena(a);
      HeadIsFirst(a);
      ghost var all := a.chunks;
      var head := a.head;
      Detach(a);
      Drain(head, all);
      Clear(a);
      assert arenas == old(arenas);
    }

    /** When the thread ends the cache is freed, and nothing else. */
    method DestroyCache()
      requires Valid()
      modifies this`cache, this`count, this`cached, cached`place
      ensures Valid() && cached == [] && count == 0
      ensures forall x :: x in old(cached) ==> x.place == Freed
      ensures old(Sound()) ==> Sound()
    {
      hide ArenaOk, RegionsOk, RealSize, PlacesOk, Chain;
      FreeAll(cache, cached);
      cache, count, cached := null, 0, [];
      CacheDropped();
    }

    static method FreeAll(head: Chunk?, ghost all: seq<Chunk>)
      requires Chain(head, all)
      modifies all`place
      ensures forall x :: x in all ==> x.place == Freed
    {
      var c := head;
      ghost var k := 0;
      while c != null
        invariant k <= |all| && c == At(all, k)
        invariant forall i :: 0 <= i < k ==> all[i].place == Freed
        decreases |all| - k
      {
        var next := c.next;
        c.place := Freed;
        c := next;
        k := k + 1;
      }
    }

    twostate lemma CacheDropped()
      requires old(Structured()) && arenas == old(arenas) && chunks == old(chunks)
      requires cache == null && count == 0 && cached == []
      requires forall b :: b in arenas ==> unchanged(b)
      requires forall x :: x in chunks ==> x.next == old(x.next) && x.cap == old(x.cap) && x.off == old(x.off)
      requires forall x :: x in chunks && x !in old(cached) ==> x.place == old(x.place)
      requires forall x :: x in old(cached) ==> x.place == Freed
      ensures Structured()
      ensures old(Sound()) ==> forall b :: b in arenas ==> RegionsOk(b)
    {
      forall b | b in arenas ensures ArenaOk(b) && (old(Sound()) ==> RegionsOk(b)) {
        assert old(ArenaOk(b)) && (old(Sound()) ==> old(RegionsOk(b)));
      }
    }

    lemma StructuredArena(a: ReqArena)
      requires Structured() && a in arenas
      ensures ArenaOk(a)
    {
    }

    // ----- what the books mean ---------------------------------------------------------------

    /** Inside the block really obtained. */
    static ghost predicate InBounds(r: Region)
      reads r.chunk
    {
      r.start + r.len <= BlockBytes(r.chunk.cap) - HEADER
    }

    static predicate Apart(r: Region, q: Region) {
      r.chunk != q.chunk || r.start + r.len <= q.start || q.start + q.len <= r.start
    }

    static ghost predicate AddressAligned(r: Region) {
      r.align > 0 && (r.chunk.base + r.start) % r.align == 0
    }

    /** Every region is inside its block, and its address is aligned exactly when the block's is. */
    lemma RegionTheorem(a: ReqArena, i: nat)
      requires Valid() && Sound() && a in arenas && i < |a.regions|
      ensures InBounds(a.regions[i])
      ensures a.regions[i].align > 0
      ensures AddressAligned(a.regions[i]) <==> a.regions[i].chunk.base % a.regions[i].align == 0
      ensures a.regions[i].align <= MAX_ALIGN ==> AddressAligned(a.regions[i])
    {
      hide CacheOk, RoundUp;
      var r := a.regions[i];
      assert r in a.regions && r.chunk in a.chunks;
      assert ArenaOk(a) && RegionsOk(a) && RegionOk(r);
      ModUnique(HEADER + r.chunk.cap, WORD, 0, HEADER + r.chunk.cap);
      SumOfMultiple(r.chunk.base, r.start, r.align);
      if r.align <= MAX_ALIGN {
        SmallAlignDivides(r.chunk.base, r.align);
      }
    }

    /** No two regions, of one arena or of two, share a byte. */
    lemma DisjointTheorem(a: ReqArena, i: nat, b: ReqArena, j: nat)
      requires Valid() && Sound() && a in arenas && b in arenas && i < |a.regions| && j < |b.regions|
      requires a != b || i != j
      ensures Apart(a.regions[i], b.regions[j])
    {
      hide CacheOk, PlacesOk;
      assert ArenaOk(a) && RegionsOk(a) && ArenaOk(b) && RegionsOk(b);
      assert a.regions[i] in a.regions && b.regions[j] in b.regions;
    }

    /** Every chunk is in exactly one arena's list, in the cache, or freed. */
    lemma PlaceTheorem(c: Chunk)
      requires Valid() && c in chunks
      ensures c.place == Cached <==> c in cached
      ensures c.place == Freed <==> c !in cached && forall a :: a in arenas ==> c !in a.chunks
      ensures forall a :: a in arenas ==> (c.place == InArena(a) <==> c in a.chunks)
      ensures forall a, b :: a in arenas && b in arenas && c in a.chunks && c in b.chunks ==> a == b
      ensures forall a :: a in arenas && c in a.chunks ==> c !in cached
    {
      forall a | a in arenas ensures c.place == InArena(a) <==> c in a.chunks {
        assert ArenaOk(a);
      }
    }
  }

  /** A block at address 16 and an alignment of 32: the address is not aligned. */
  lemma MisalignedExample(c: Chunk)
    requires c.base == 16
    ensures c.base % MAX_ALIGN == 0 && IsAlign(32) && !Thread.AddressAligned(Region(c, 0, 1, 32))
  {
    assert Pow2(5) == 32;
  }

  lemma SumOfMultiple(x: nat, y: nat, n: nat)
    requires n > 0 && y % n == 0
    ensures (x + y) % n == x % n
  {
    var q := x / n + y / n;
    assert x == (x / n) * n + x % n && y == (y / n) * n;
    assert q * n == (x / n) * n + (y / n) * n;
    ModUnique(x + y, n, q, x % n);
  }

  lemma SmallAligns(align: nat)
    requires IsAlign(align) && align <= MAX_ALIGN
    ensures align == 1 || align == 2 || align == 4 || align == 8 || align == 16
  {
    var k: nat :| k < 64 && align == Pow2(k);
    assert Pow2(1) == 2 && Pow2(2) == 4 && Pow2(3) == 8 && Pow2(4) == 16 && Pow2(5) == 32;
    hide Pow2;
    if k >= 5 {
      Pow2Grows(5, k);
    }
    assert k == 0 || k == 1 || k == 2 || k == 3 || k == 4;
  }

  /** Powers of two up to 16 divide any multiple of 16. */
  lemma SmallAlignDivides(x: nat, align: nat)
    requires IsAlign(align) && 0 < align <= MAX_ALIGN && x % MAX_ALIGN == 0
    ensures x % align == 0
  {
    hide IsAlign;
    SmallAligns(align);
    var h := x / 16;
    assert x == 16 * h;
    var q := if align == 1 then 16 * h else if align == 2 then 8 * h else if align == 4 then 4 * h
             else if align == 8 then 2 * h else h;
    ModUnique(x, align, q, 0);
  }

  /** A request in the wrapping band gets a pointer to fewer bytes than it asked for. */
  lemma WrappingBandIsOutOfBounds(n: nat, align: nat)
    requires IsAlign(align) && n < WORD && ChunkCap(n, align) >= WORD - HEADER
    ensures n + align < WORD && n > BlockBytes(ChunkCap(n, align)) - HEADER
  {
    AlignIsSmall(align);
    var cap := ChunkCap(n, align);
    ModUnique(HEADER + cap, WORD, 1, HEADER + cap - WORD);
    if n + align >= WORD {
      ModUnique(n + align, WORD, 1, n + align - WORD);
    }
  }

  /** The band is not empty. */
  lemma WrappingBandExample()
    ensures ChunkCap(WORD - 2, 1) == WORD - 1 && BlockBytes(WORD - 1) == HEADER - 1
  {
    ModUnique(WORD - 1, WORD, 0, WORD - 1);
    ModUnique(HEADER + WORD - 1, WORD, 1, HEADER - 1);
  }
}
