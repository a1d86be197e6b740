/** The checking allocator of libs/lang/memory-dev.c: blocks are cut from the ends of free
    stretches, and a hash table of descriptors tells which addresses were given out. */
module CheckedMemory {
  import opened Prelude

  /** A stretch of memory: a block given out, or free space. A free one is in the circle of free
      stretches, and its field free is set. */
  class Descriptor {
    var free: Descriptor?
    var link: Descriptor?
    const ptr: int
    var size: int

    constructor (ptr: int, size: int)
      ensures this.ptr == ptr && this.size == size && free == null && link == null
    {
      this.ptr, this.size := ptr, size;
      free, link := null, null;
    }
  }

  const BUCKETS := 2048
  const ALIGN := 16
  const NALLOC := 4096

  function Hash(p: int): (h: nat)
    ensures h < BUCKETS
  {
    (p / 8) % BUCKETS
  }

  /** A chain of the hash table. */
  ghost predicate Chain(d: Descriptor?, s: seq<Descriptor>)
    reads s`link
  {
    if s == [] then d == null else d == s[0] && Chain(s[0].link, s[1..])
  }

  lemma {:induction false} ChainFrom(d: Descriptor?, s: seq<Descriptor>, i: nat)
    requires Chain(d, s) && i < |s|
    ensures Chain(s[i], s[i..])
  {
    if i > 0 {
      ChainFrom(s[0].link, s[1..], i - 1);
      assert s[1..][i - 1..] == s[i..];
    } else {
      assert s[0..] == s;
    }
  }

  /** A chain ends, so it does not come by the same descriptor twice. */
  lemma {:induction false} ChainLength(d: Descriptor?, s: seq<Descriptor>, t: seq<Descriptor>)
    requires Chain(d, s) && Chain(d, t)
    ensures |s| == |t|
    decreases |s|
  {
    if d != null { ChainLength(d.link, s[1..], t[1..]); }
  }

  lemma ChainOnce(s: seq<Descriptor>, i: nat, j: nat)
    requires i < j < |s| && Chain(s[i], s[i..]) && Chain(s[j], s[j..])
    ensures s[i] != s[j]
  {
    if s[i] == s[j] { ChainLength(s[i], s[i..], s[j..]); }
  }

  /** The circle of free stretches, from d to its head. */
  ghost predicate Circle(d: Descriptor, s: seq<Descriptor>, head: Descriptor)
    reads s`free
  {
    if s == [] then d == head else d == s[0] && s[0].free != null && Circle(s[0].free, s[1..], head)
  }

  predicate Disjoint(p: int, n: int, q: int, m: int) {
    p + n <= q || q + m <= p
  }

  /** No two stretches overlap; all are aligned and not empty. */
  ghost predicate Separate(all: set<Descriptor>)
    reads all`size
  {
    && (forall d :: d in all ==> d.size > 0 && d.ptr % ALIGN == 0 && d.size % ALIGN == 0 && d.ptr > 0)
    && forall d, e {:trigger Disjoint(d.ptr, d.size, e.ptr, e.size)} ::
         d in all && e in all && d != e ==> Disjoint(d.ptr, d.size, e.ptr, e.size)
  }

  lemma SeparateAdded(all: set<Descriptor>, d: Descriptor)
    requires Separate(all) && Outside(all, d.ptr, d.size)
    requires d.size > 0 && d.ptr % ALIGN == 0 && d.size % ALIGN == 0 && d.ptr > 0
    ensures Separate(all + {d}) && forall e :: e in all ==> e.ptr != d.ptr
  {
  }

  lemma AlignedParts(a: int, n: int, p: int)
    requires a % ALIGN == 0 && n % ALIGN == 0 && p % ALIGN == 0
    ensures (a - n) % ALIGN == 0 && (p + (a - n)) % ALIGN == 0
  {
  }

  /** A stretch that has become shorter. */
  lemma Shortened(all: set<Descriptor>, desc: Descriptor, whole: int)
    requires desc in all && 0 < desc.size < whole && desc.size % ALIGN == 0
    requires forall d :: d in all ==>
      d.ptr % ALIGN == 0 && d.ptr > 0 && (d != desc ==> d.size > 0 && d.size % ALIGN == 0)
    requires forall d :: d in all && d != desc ==>
      Disjoint(d.ptr, d.size, desc.ptr, whole) && Disjoint(desc.ptr, whole, d.ptr, d.size)
    requires forall d, e :: d in all && e in all && d != e && d != desc && e != desc ==>
      Disjoint(d.ptr, d.size, e.ptr, e.size)
    ensures Separate(all) && Outside(all, desc.ptr + desc.size, whole - desc.size)
  {
  }

  /** A stretch of memory, as a value. */
  datatype Stretch = Stretch(ptr: int, size: int)

  /** The blocks in use. */
  ghost function InUse(all: set<Descriptor>): set<Stretch>
    reads all`size, all`free
  {
    set d | d in all && d.free == null :: Stretch(d.ptr, d.size)
  }

  lemma OneMoreInUse(before: set<Descriptor>, d: Descriptor)
    requires d.free == null
    ensures InUse(before + {d}) == InUse(before) + {Stretch(d.ptr, d.size)}
  {
    assert d in before + {d};
  }

  lemma OneLessInUse(others: set<Descriptor>, d: Descriptor)
    requires d.free != null
    ensures InUse(others + {d}) == InUse(others)
  {
  }

  /** A block in use and the others. */
  lemma UsedParts(all: set<Descriptor>, d: Descriptor)
    requires Separate(all) && d in all && d.free == null
    ensures all - {d} + {d} == all && InUse(all - {d}) == InUse(all) - {Stretch(d.ptr, d.size)}
  {
    var others := all - {d};
    assert others + {d} == all;
    OneMoreInUse(others, d);
    forall e | e in others ensures Stretch(e.ptr, e.size) != Stretch(d.ptr, d.size) {
      assert Disjoint(d.ptr, d.size, e.ptr, e.size);
    }
  }

  /** A free stretch that is not in the hash table. */
  lemma OneMoreFree(before: set<Descriptor>, chains: seq<seq<Descriptor>>, d: Descriptor)
    requires d.free != null && !Chained(chains, d)
    ensures InUse(before + {d}) == InUse(before) && Listed(before + {d}, chains) == Listed(before, chains)
  {
  }

  /** The descriptor is in its chain. */
  ghost predicate Chained(chains: seq<seq<Descriptor>>, d: Descriptor) {
    Hash(d.ptr) < |chains| && d in chains[Hash(d.ptr)]
  }

  /** The addresses in the hash table. */
  ghost function Listed(all: set<Descriptor>, chains: seq<seq<Descriptor>>): set<int> {
    set d | d in all && Chained(chains, d) :: d.ptr
  }

  lemma OneMoreListed(all: set<Descriptor>, chains: seq<seq<Descriptor>>, d: Descriptor)
    requires |chains| == BUCKETS && d !in all
    ensures var h := Hash(d.ptr); var after := chains[h := [d] + chains[h]];
      && Chained(after, d) && (forall e :: e in all ==> (Chained(after, e) <==> Chained(chains, e)))
      && Listed(all + {d}, after) == Listed(all, chains) + {d.ptr}
  {
    assert d in all + {d};
  }

  lemma NewAddress(all: set<Descriptor>, p: int, n: int)
    requires Separate(all) && Outside(all, p, n) && n > 0
    ensures forall e :: e in all ==> e.ptr != p
  {
  }

  /** The address is outside all stretches. */
  ghost predicate Outside(all: set<Descriptor>, p: int, n: int)
    reads all`size
  {
    forall d :: d in all ==> Disjoint(d.ptr, d.size, p, n)
  }

  function RoundUp(n: nat): (r: nat)
    ensures r >= n && r % ALIGN == 0 && r < n + ALIGN
  {
    ((n + ALIGN - 1) / ALIGN) * ALIGN
  }

  ghost function Stretches(f: seq<Descriptor>): (s: seq<Stretch>)
    reads f
    ensures |s| == |f| && forall i :: 0 <= i < |f| ==> s[i] == Stretch(f[i].ptr, f[i].size)
  {
    seq(|f|, i requires 0 <= i < |f| reads f => Stretch(f[i].ptr, f[i].size))
  }

  /** The free list in which an allocation of n bytes finds its stretch: if none is large enough, memory
      from the system comes in front. */
  function Supplied(s: seq<Stretch>, n: int, memory: Option<int>): seq<Stretch> {
    if FirstLarge(s, n) == |s| && memory.Some? then [Stretch(memory.value, n + NALLOC)] + s else s
  }

  /** The list without the last n bytes of the first stretch that is large enough. */
  function Without(s: seq<Stretch>, n: int): seq<Stretch> {
    var i := FirstLarge(s, n);
    if i < |s| then s[i := Stretch(s[i].ptr, s[i].size - n)] else s
  }

  /** Where these bytes are. */
  function EndOfFirst(s: seq<Stretch>, n: int): Option<int> {
    var i := FirstLarge(s, n);
    if i < |s| then Some(s[i].ptr + s[i].size - n) else None
  }

  lemma FirstIsLarge(s: seq<Stretch>, n: int, p: int)
    ensures FirstLarge([Stretch(p, n + NALLOC)] + s, n) == 0
  {
  }

  /** Memory from the system serves the allocation at its end, and all but n bytes of it stay. */
  lemma FromSystem(s: seq<Stretch>, n: int, p: int)
    requires FirstLarge(s, n) == |s|
    ensures var t := Supplied(s, n, Some(p));
      Without(t, n) == [Stretch(p, NALLOC)] + s && EndOfFirst(t, n) == Some(p + NALLOC)
  {
    FirstIsLarge(s, n, p);
  }

  /** A stretch that is large enough, with none before it, serves the allocation, whatever the system has. */
  lemma FromList(s: seq<Stretch>, n: int, memory: Option<int>, i: nat)
    requires i < |s| && s[i].size > n && forall j :: 0 <= j < i ==> s[j].size <= n
    ensures var t := Supplied(s, n, memory);
      Without(t, n) == s[i := Stretch(s[i].ptr, s[i].size - n)] && EndOfFirst(t, n) == Some(s[i].ptr + s[i].size - n)
  {
    FirstLargeIs(s, n, i);
  }

  /** Without such a stretch the system is asked, and without its memory nothing is given. */
  lemma FromOutside(s: seq<Stretch>, n: int, memory: Option<int>)
    requires forall j :: 0 <= j < |s| ==> s[j].size <= n
    ensures var t := Supplied(s, n, memory);
      match memory
      case None => Without(t, n) == s && EndOfFirst(t, n) == None
      case Some(p) => Without(t, n) == [Stretch(p, NALLOC)] + s && EndOfFirst(t, n) == Some(p + NALLOC)
  {
    FirstLargeIs(s, n, |s|);
    if memory.Some? { FromSystem(s, n, memory.value); }
  }

  /** An allocation of n bytes from the free list s gives r and leaves s': the bytes are the end of the first
      stretch with more than n, or of NALLOC + n bytes from the system if no stretch has more than n. */
  ghost predicate Serves(s: seq<Stretch>, n: int, memory: Option<int>, room: bool, s': seq<Stretch>, r: Option<int>) {
    && (r.Some? ==> room)
    && (forall i :: 0 <= i < |s| && s[i].size > n && (forall j :: 0 <= j < i ==> s[j].size <= n) ==>
          s' == s[i := Stretch(s[i].ptr, s[i].size - n)] && (room ==> r == Some(s[i].ptr + s[i].size - n)))
    && ((forall j :: 0 <= j < |s| ==> s[j].size <= n) ==>
          match memory
          case None => s' == s && r == None
          case Some(p) => s' == [Stretch(p, NALLOC)] + s && (room ==> r == Some(p + NALLOC)))
  }

  lemma Served(s: seq<Stretch>, n: int, memory: Option<int>, room: bool)
    ensures var t := Supplied(s, n, memory);
      Serves(s, n, memory, room, Without(t, n), if room then EndOfFirst(t, n) else None)
  {
    if forall j :: 0 <= j < |s| ==> s[j].size <= n { FromOutside(s, n, memory); }
    forall i | 0 <= i < |s| && s[i].size > n && (forall j :: 0 <= j < i ==> s[j].size <= n)
      ensures Without(Supplied(s, n, memory), n) == s[i := Stretch(s[i].ptr, s[i].size - n)]
      ensures EndOfFirst(Supplied(s, n, memory), n) == Some(s[i].ptr + s[i].size - n)
    {
      FromList(s, n, memory, i);
    }
  }

  lemma FrontAdded(f: seq<Descriptor>, d: Descriptor)
    ensures Stretches([d] + f) == [Stretch(d.ptr, d.size)] + Stretches(f)
  {
  }

  /** The list when only the first stretch that is large enough has changed. */
  lemma Resized(f: seq<Descriptor>, s: seq<Stretch>, k: nat, n: int)
    requires |s| == |f| && k == FirstLarge(s, n) < |s| && f[k].ptr == s[k].ptr && f[k].size == s[k].size - n
    requires forall i :: 0 <= i < |f| && i != k ==> s[i] == Stretch(f[i].ptr, f[i].size)
    ensures Stretches(f) == Without(s, n) && EndOfFirst(s, n) == Some(f[k].ptr + f[k].size)
  {
  }

  /** The place of the first stretch with more than n bytes, or the end. */
  function FirstLarge(s: seq<Stretch>, n: int): (i: nat)
    ensures i <= |s| && (i < |s| ==> s[i].size > n)
  {
    if s == [] || s[0].size > n then 0 else 1 + FirstLarge(s[1..], n)
  }

  /** All stretches before it are too small, and no other place is like that. */
  lemma {:induction false} FirstLargeIs(s: seq<Stretch>, n: int, i: nat)
    requires i <= |s|
    ensures FirstLarge(s, n) == i <==> (i < |s| ==> s[i].size > n) && forall j :: 0 <= j < i ==> s[j].size <= n
  {
    if s != [] && s[0].size <= n {
      if i > 0 {
        FirstLargeIs(s[1..], n, i - 1);
        assert forall j :: 0 <= j < i - 1 ==> s[1..][j] == s[j + 1];
        if forall j :: 0 <= j < i - 1 ==> s[1..][j].size <= n {
          forall j | 0 <= j < i ensures s[j].size <= n { if j > 0 { assert s[1..][j - 1] == s[j]; } }
        }
      }
    }
  }

  /** The head is not in the circle, so no descriptor is in it twice. */
  lemma {:induction false} CircleLength(d: Descriptor, s: seq<Descriptor>, t: seq<Descriptor>, head: Descriptor)
    requires Circle(d, s, head) && Circle(d, t, head) && head !in s && head !in t
    ensures |s| == |t|
    decreases |s|
  {
    if d != head { CircleLength(d.free, s[1..], t[1..], head); }
  }

  lemma {:induction false} CircleFrom(d: Descriptor, s: seq<Descriptor>, i: nat, head: Descriptor)
    requires Circle(d, s, head) && i < |s|
    ensures Circle(s[i], s[i..], head)
  {
    if i > 0 {
      CircleFrom(s[0].free, s[1..], i - 1, head);
      assert s[1..][i - 1..] == s[i..];
    } else {
      assert s[0..] == s;
    }
  }

  lemma CircleOnce(d: Descriptor, s: seq<Descriptor>, head: Descriptor, k: nat)
    requires Circle(d, s, head) && head !in s && k < |s|
    ensures forall i :: 0 <= i < |s| && s[i] == s[k] ==> i == k
  {
    CircleFrom(d, s, k, head);
    forall i | 0 <= i < |s| && s[i] == s[k] ensures i == k {
      CircleFrom(d, s, i, head);
      CircleLength(s[i], s[i..], s[k..], head);
    }
  }

  class Memory {
    const htab: array<Descriptor?>
    const freelist: Descriptor
    ghost var chains: seq<seq<Descriptor>>
    ghost var frees: seq<Descriptor>
    ghost var all: set<Descriptor>

    ghost predicate Valid()
      reads this, htab, all, freelist
    {
      && freelist !in all && freelist.size == 0 && freelist.free != null
      && (forall d :: d in frees ==> d in all)
      && Circle(freelist.free, frees, freelist)
      && htab.Length == BUCKETS == |chains|
      && (forall h :: 0 <= h < BUCKETS ==> ChainOk(h))
      && (forall d :: d in all ==> (d.free != null <==> d in frees))
      && (forall d :: d in all && d.free == null ==> Known(d))
      && Separate(all)
    }

    ghost predicate ChainOk(h: nat)
      requires h < htab.Length && h < |chains|
      reads `chains, `all, htab, all`link
    {
      && (forall d :: d in chains[h] ==> d in all && Hash(d.ptr) == h)
      && Chain(htab[h], chains[h])
    }

    /** The descriptor is in the hash table: its address was given out. */
    ghost predicate Known(d: Descriptor)
      reads `chains
    {
      Chained(chains, d)
    }

    /** The blocks in use. */
    ghost function Blocks(): set<Stretch>
      reads `all, all`size, all`free
    {
      InUse(all)
    }

    /** The free stretches, in the order of the circle. */
    ghost function FreeList(): seq<Stretch>
      reads `frees, frees
    {
      Stretches(frees)
    }

    /** The addresses given out at some time. */
    ghost function Addresses(): set<int>
      reads `all, `chains
    {
      Listed(all, chains)
    }

    constructor ()
      ensures Valid() && all == {} && fresh(htab) && fresh(freelist) && FreeList() == []
      ensures Blocks() == {} && Addresses() == {}
    {
      htab := new Descriptor?[BUCKETS](_ => null);
      var head := new Descriptor(0, 0);
      freelist := head;
      chains := seq(BUCKETS, _ => []);
      frees := [];
      all := {};
      new;
      head.free := head;
    }

    /** Looks an address up in the hash table. */
    method Find(p: int) returns (desc: Descriptor?)
      requires Valid()
      ensures desc != null ==> desc in all && desc.ptr == p && Known(desc)
      ensures desc == null ==> forall d :: d in all && Known(d) ==> d.ptr != p
    {
      desc := htab[Hash(p)];
      ghost var rest := chains[Hash(p)];
      assert ChainOk(Hash(p));
      while desc != null && desc.ptr != p
        invariant Chain(desc, rest) && (forall d :: d in rest ==> d in chains[Hash(p)])
        invariant forall d :: d in chains[Hash(p)] && d !in rest ==> d.ptr != p
        decreases |rest|
      {
        assert rest == [rest[0]] + rest[1..];
        desc := desc.link;
        rest := rest[1..];
      }
    }

    /** Two stretches do not begin at the same address. */
    lemma SamePtr(d: Descriptor, e: Descriptor)
      requires Separate(all) && d in all && e in all && d.ptr == e.ptr
      ensures d == e
    {
      assert Disjoint(d.ptr, d.size, e.ptr, e.size) ==> d == e;
    }

    /** Succeeds exactly for blocks in use, and for null: every double free and every address never
        given out is detected. */
    method Free(p: int) returns (ok: bool)
      requires Valid()
      modifies `frees, all`free, freelist`free
      ensures Valid() && Addresses() == old(Addresses())
      ensures ok == (p == 0 || exists x :: x in old(Blocks()) && x.ptr == p)
      ensures ok && p != 0 ==>
        exists x ::
          && x in old(Blocks()) && x.ptr == p
          && Blocks() == old(Blocks()) - {x} && FreeList() == [x] + old(FreeList())
      ensures !ok || p == 0 ==> Blocks() == old(Blocks()) && FreeList() == old(FreeList())
    {
      if p == 0 { return true; }
      var desc := InUseAt(p);
      ok := desc != null;
      if ok { Release(desc); }
    }

    /** The block in use at an address; null for a wrong address, an unknown one and a free block. */
    method InUseAt(p: int) returns (desc: Descriptor?)
      requires Valid()
      ensures if desc != null then desc in all && desc.ptr == p && desc.free == null
        else forall x :: x in Blocks() ==> x.ptr != p
    {
      if p % ALIGN != 0 { return null; }
      desc := Find(p);
      if desc == null || desc.free != null {
        NotInUse(p, desc);
        desc := null;
      }
    }

    /** A block in use goes to the front of the free list. */
    method Release(desc: Descriptor)
      requires Valid() && desc in all && desc.free == null
      modifies `frees, desc`free, freelist`free
      ensures Valid() && Addresses() == old(Addresses())
      ensures exists x ::
        && x in old(Blocks()) && x.ptr == desc.ptr
        && Blocks() == old(Blocks()) - {x} && FreeList() == [x] + old(FreeList())
    {
      ghost var blocks, list := Blocks(), FreeList();
      ghost var x := Stretch(desc.ptr, desc.size);
      assert x in blocks;
      PutBack(desc);
      assert Blocks() == blocks - {x} && FreeList() == [x] + list;
    }

    lemma NotInUse(p: int, desc: Descriptor?)
      requires Valid() && (desc != null ==> desc in all && desc.ptr == p && desc.free != null)
      requires desc == null ==> forall d :: d in all && Known(d) ==> d.ptr != p
      ensures forall x :: x in Blocks() ==> x.ptr != p
    {
      if desc != null { forall d | d in all && d.ptr == p ensures d == desc { SamePtr(d, desc); } }
    }

    /** The stretch joins the circle. */
    method PutBack(desc: Descriptor)
      requires Valid() && desc in all && desc.free == null
      modifies `frees, desc`free, freelist`free
      ensures Valid() && FreeList() == [Stretch(desc.ptr, desc.size)] + old(FreeList())
      ensures Blocks() == old(Blocks()) - {Stretch(desc.ptr, desc.size)}
    {
      ghost var others, f, list := all - {desc}, frees, FreeList();
      UsedParts(all, desc);
      ghost var used := InUse(others);
      LinkFree(desc);
      assert Stretches(f) == list && InUse(others) == used;
      FrontAdded(f, desc);
      OneLessInUse(others, desc);
    }

    method LinkFree(desc: Descriptor)
      requires Valid() && desc in all && desc.free == null
      modifies `frees, desc`free, freelist`free
      ensures Valid() && desc.free != null && frees == [desc] + old(frees)
    {
      assert desc !in frees;
      desc.free := freelist.free;
      freelist.free := desc;
      frees := [desc] + frees;
      assert frees[1..] == old(frees);
    }

    /** A new stretch from the system joins the circle. */
    method Grow(p: int, n: int)
      requires Valid() && n > 0 && n % ALIGN == 0 && p % ALIGN == 0 && p > 0 && Outside(all, p, n)
      modifies `frees, `all, freelist`free
      ensures Valid() && |frees| == |old(frees)| + 1 && fresh(frees[0]) && freelist.free == frees[0]
      ensures all == old(all) + {frees[0]} && FreeList() == [Stretch(p, n)] + old(FreeList())
      ensures Blocks() == old(Blocks()) && Addresses() == old(Addresses())
    {
      ghost var f, list, used := frees, FreeList(), InUse(all);
      ghost var d := AddFree(p, n);
      assert Stretches(f) == list && InUse(old(all)) == used;
      FrontAdded(f, d);
      OneMoreFree(old(all), chains, d);
    }

    method AddFree(p: int, n: int) returns (ghost d: Descriptor)
      requires Valid() && n > 0 && n % ALIGN == 0 && p % ALIGN == 0 && p > 0 && Outside(all, p, n)
      modifies `frees, `all, freelist`free
      ensures Valid() && fresh(d) && all == old(all) + {d} && frees == [d] + old(frees) && freelist.free == d
      ensures d.ptr == p && d.size == n && d.free != null && !Known(d)
    {
      var e := new Descriptor(p, n);
      e.free := freelist.free;
      freelist.free := e;
      d := e;
      frees := [d] + frees;
      all := all + {d};
      assert Circle(d.free, old(frees), freelist);
      forall k | 0 <= k < BUCKETS ensures ChainOk(k) { assert old(ChainOk(k)); }
      Grown(old(all), old(frees), d);
      assert ChainOk(Hash(d.ptr)) && old(ChainOk(Hash(p)));
    }

    /** All is well again with a free stretch in front of the circle. */
    lemma Grown(before: set<Descriptor>, circle: seq<Descriptor>, d: Descriptor)
      requires all == before + {d} && d !in before && d != freelist && Separate(before) && frees == [d] + circle
      requires Outside(before, d.ptr, d.size) && d.size > 0 && d.ptr % ALIGN == 0 && d.size % ALIGN == 0 && d.ptr > 0
      requires freelist !in before && freelist.size == 0 && freelist.free == d
      requires forall e :: e in circle ==> e in before
      requires d.free != null && Circle(d.free, circle, freelist) && htab.Length == BUCKETS == |chains|
      requires forall h :: 0 <= h < BUCKETS ==> ChainOk(h)
      requires forall e :: e in before ==> (e.free != null <==> e in circle) && (e.free == null ==> Known(e))
      ensures Valid() && frees[1..] == circle
    {
      SeparateAdded(before, d);
      assert frees[1..] == circle;
    }

    /** Cuts n bytes off the end of a free stretch, and enters them in the hash table if there is
        room for a descriptor. */
    method Cut(desc: Descriptor, n: int, room: bool) returns (r: Option<int>)
      requires Valid() && IsFirst(desc, n) && n > 0 && n % ALIGN == 0
      modifies `chains, `all, desc`size, htab
      ensures Valid() && FreeList() == Without(old(FreeList()), n)
      ensures r == if room then EndOfFirst(old(FreeList()), n) else None
      ensures r.Some? ==> r.value % ALIGN == 0 && r.value !in old(Addresses())
      ensures Blocks() == old(Blocks()) + (if r.Some? then {Stretch(r.value, n)} else {})
      ensures Addresses() == old(Addresses()) + if r.Some? then {r.value} else {}
      ensures old(all) <= all && forall d :: d in all && d !in old(all) ==> fresh(d)
    {
      var p := Shorten(desc, n);
      if !room { return None; }
      GiveOut(p, n);
      r := Some(p);
    }

    /** The block at p is given out. */
    method GiveOut(p: int, n: int)
      requires Valid() && n > 0 && n % ALIGN == 0 && p % ALIGN == 0 && p > 0 && Outside(all, p, n)
      modifies `chains, `all, htab
      ensures Valid() && p !in old(Addresses()) && FreeList() == old(FreeList())
      ensures old(all) <= all && forall d :: d in all && d !in old(all) ==> fresh(d)
      ensures Blocks() == old(Blocks()) + {Stretch(p, n)} && Addresses() == old(Addresses()) + {p}
    {
      NewAddress(all, p, n);
      ghost var d := Enter(p, n);
      OneMoreInUse(old(all), d);
      OneMoreListed(old(all), old(chains), d);
    }

    /** The first stretch of the circle with more than n bytes. */
    ghost predicate IsFirst(desc: Descriptor, n: int)
      reads `frees, frees
    {
      var k := FirstLarge(FreeList(), n);
      k < |frees| && frees[k] == desc
    }

    /** The stretch loses its last n bytes. */
    method Shorten(desc: Descriptor, n: int) returns (p: int)
      requires Valid() && IsFirst(desc, n) && n > 0 && n % ALIGN == 0
      modifies desc`size
      ensures Valid() && Outside(all, p, n) && p % ALIGN == 0 && p > 0
      ensures FreeList() == Without(old(FreeList()), n) && Some(p) == EndOfFirst(old(FreeList()), n)
      ensures Blocks() == old(Blocks())
    {
      ghost var s, k := FreeList(), FirstLarge(FreeList(), n);
      CircleOnce(freelist.free, frees, freelist, k);
      p := Shrink(desc, n);
      Resized(frees, s, k, n);
    }

    method Shrink(desc: Descriptor, n: int) returns (p: int)
      requires Valid() && desc in frees && desc.size > n > 0 && n % ALIGN == 0
      modifies desc`size
      ensures Valid() && Outside(all, p, n) && p % ALIGN == 0 && p > 0 && desc.size == old(desc.size) - n
      ensures p == desc.ptr + desc.size
      ensures Blocks() == old(Blocks())
    {
      AlignedParts(desc.size, n, desc.ptr);
      assert Circle(freelist.free, frees, freelist) && desc in all;
      ghost var whole := desc.size;
      assert forall d :: d in all && d != desc ==>
        Disjoint(d.ptr, d.size, desc.ptr, whole) && Disjoint(desc.ptr, whole, d.ptr, d.size);
      desc.size := desc.size - n;
      p := desc.ptr + desc.size;
      Shortened(all, desc, whole);
    }

    method Enter(p: int, n: int) returns (ghost d: Descriptor)
      requires Valid() && n > 0 && n % ALIGN == 0 && p % ALIGN == 0 && p > 0 && Outside(all, p, n)
      modifies `chains, `all, htab
      ensures Valid() && fresh(d) && all == old(all) + {d} && d.ptr == p && d.size == n && d.free == null
      ensures chains == old(chains)[Hash(p) := [d] + old(chains)[Hash(p)]]
    {
      var e := new Descriptor(p, n);
      InsertLink(e, Hash(p));
      d := e;
      all := all + {d};
      forall k | 0 <= k < BUCKETS ensures ChainOk(k) { assert old(ChainOk(k)); }
      Entered(old(all), old(chains), d);
    }

    /** All is well again with a block in use added to the stretches. */
    lemma Entered(before: set<Descriptor>, chained: seq<seq<Descriptor>>, d: Descriptor)
      requires all == before + {d} && d !in before && d.free == null && d != freelist && Separate(before)
      requires Outside(before, d.ptr, d.size) && d.size > 0 && d.ptr % ALIGN == 0 && d.size % ALIGN == 0 && d.ptr > 0
      requires freelist !in before && freelist.size == 0 && freelist.free != null
      requires forall e :: e in frees ==> e in before
      requires Circle(freelist.free, frees, freelist) && htab.Length == BUCKETS == |chained|
      requires chains == chained[Hash(d.ptr) := [d] + chained[Hash(d.ptr)]]
      requires forall h :: 0 <= h < BUCKETS ==> ChainOk(h)
      requires forall e :: e in before ==> (e.free != null <==> e in frees) && (e.free == null ==> Chained(chained, e))
      ensures Valid()
    {
      SeparateAdded(before, d);
      OneMoreListed(before, chained, d);
    }

    /** Puts a descriptor in front of its chain. */
    method InsertLink(d: Descriptor, h: nat)
      requires htab.Length == BUCKETS == |chains| && h == Hash(d.ptr) && d !in all
      requires forall k :: 0 <= k < BUCKETS ==> ChainOk(k)
      modifies `chains, htab, d`link
      ensures |chains| == BUCKETS && chains == old(chains)[h := [d] + old(chains)[h]]
      ensures forall k :: 0 <= k < BUCKETS ==> Chain(htab[k], chains[k])
    {
      assert ChainOk(h);
      d.link := htab[h];
      htab[h] := d;
      chains := chains[h := [d] + chains[h]];
      assert chains[h][1..] == old(chains[h]);
      forall k | 0 <= k < BUCKETS ensures Chain(htab[k], chains[k]) { assert old(ChainOk(k)); }
    }

    /** Walks the circle to the first stretch that is large enough, or to the head of the circle, which
        has size 0. */
    method Walk(n: int) returns (desc: Descriptor)
      requires Valid() && n > 0
      ensures if desc == freelist then FirstLarge(FreeList(), n) == |frees| else IsFirst(desc, n)
    {
      ghost var rest, k: nat := frees, 0;
      desc := freelist.free;
      while desc.size <= n && desc != freelist
        invariant Circle(desc, rest, freelist) && k <= |frees| && rest == frees[k..]
        invariant forall j :: 0 <= j < k ==> frees[j].size <= n
        decreases |rest|
      {
        assert rest == [rest[0]] + rest[1..];
        desc := desc.free;
        rest, k := rest[1..], k + 1;
      }
      FirstLargeIs(FreeList(), n, k);
    }

    /** The first stretch that is large enough; if there is none, a new one is made, in front of the
        others, and found next. */
    method FirstFit(n: int, memory: Option<int>) returns (desc: Descriptor?)
      requires Valid() && n > 0 && n % ALIGN == 0
      requires memory.Some? ==> memory.value > 0 && memory.value % ALIGN == 0 && Outside(all, memory.value, n + NALLOC)
      modifies `frees, `all, freelist`free
      ensures Valid() && FreeList() == Supplied(old(FreeList()), n, memory)
      ensures if desc == null then FirstLarge(FreeList(), n) == |frees| else IsFirst(desc, n)
      ensures Blocks() == old(Blocks()) && Addresses() == old(Addresses())
      ensures old(all) <= all && forall d :: d in all && d !in old(all) ==> fresh(d)
    {
      var found := Walk(n);
      if found != freelist || memory == None {
        assert Supplied(FreeList(), n, memory) == FreeList();
        return if found != freelist then found else null;
      }
      Supply(memory.value, n);
      desc := freelist.free;
    }

    /** Memory from the system, for want of a stretch that is large enough. */
    method Supply(p: int, n: int)
      requires Valid() && n > 0 && n % ALIGN == 0 && p > 0 && p % ALIGN == 0 && Outside(all, p, n + NALLOC)
      requires FirstLarge(FreeList(), n) == |frees|
      modifies `frees, `all, freelist`free
      ensures Valid() && FreeList() == Supplied(old(FreeList()), n, Some(p)) && IsFirst(freelist.free, n)
      ensures Blocks() == old(Blocks()) && Addresses() == old(Addresses())
      ensures old(all) <= all && forall d :: d in all && d !in old(all) ==> fresh(d)
    {
      FirstIsLarge(FreeList(), n, p);
      Grow(p, n + NALLOC);
    }

    /** Descriptors of one chain have different addresses. */
    lemma AddressOnce(h: nat, i: nat, j: nat)
      requires Valid() && h < BUCKETS && i < j < |chains[h]|
      ensures chains[h][i].ptr != chains[h][j].ptr
    {
      assert ChainOk(h);
      ChainFrom(htab[h], chains[h], i);
      ChainFrom(htab[h], chains[h], j);
      ChainOnce(chains[h], i, j);
      if chains[h][i].ptr == chains[h][j].ptr { SamePtr(chains[h][i], chains[h][j]); }
    }

    /** Blocks in use are aligned and do not overlap each other, nor free space. */
    lemma BlocksApart(x: Stretch)
      requires Valid() && x in Blocks()
      ensures x.ptr % ALIGN == 0 && x.size > 0
      ensures forall y :: (y in Blocks() && y != x) || y in FreeList() ==>
        x.ptr + x.size <= y.ptr || y.ptr + y.size <= x.ptr
    {
      var d :| d in all && d.free == null && x == Stretch(d.ptr, d.size);
      forall y | y in Blocks() && y != x ensures Disjoint(x.ptr, x.size, y.ptr, y.size) {
        var e :| e in all && e.free == null && y == Stretch(e.ptr, e.size);
        assert Disjoint(d.ptr, d.size, e.ptr, e.size);
      }
      forall y | y in FreeList() ensures Disjoint(x.ptr, x.size, y.ptr, y.size) {
        var i :| 0 <= i < |frees| && FreeList()[i] == y;
        assert Disjoint(d.ptr, d.size, frees[i].ptr, frees[i].size);
      }
    }

    /** The block is the end of the first free stretch that is large enough, which keeps the rest; if
        there is none, the end of a new stretch from the system, in front of the others. Some(p): the
        block at p, aligned, at an address never given out before, is in use from now on. */
    method Alloc(nbytes: nat, memory: Option<int>, room: bool) returns (r: Option<int>)
      requires Valid() && nbytes > 0
      requires memory.Some? ==>
        memory.value > 0 && memory.value % ALIGN == 0 && Outside(all, memory.value, RoundUp(nbytes) + NALLOC)
      modifies `chains, `frees, `all, all`size, htab, freelist`free
      ensures Valid() && (r.Some? ==> r.value % ALIGN == 0 && r.value !in old(Addresses()))
      ensures FreeList() == Without(Supplied(old(FreeList()), RoundUp(nbytes), memory), RoundUp(nbytes))
      ensures var n := RoundUp(nbytes);
        r == if room then EndOfFirst(Supplied(old(FreeList()), n, memory), n) else None
      ensures Serves(old(FreeList()), RoundUp(nbytes), memory, room, FreeList(), r)
      ensures Blocks() == old(Blocks()) + (if r.Some? then {Stretch(r.value, RoundUp(nbytes))} else {})
      ensures Addresses() == old(Addresses()) + if r.Some? then {r.value} else {}
      ensures old(all) <= all && forall d :: d in all && d !in old(all) ==> fresh(d)
    {
      Served(FreeList(), RoundUp(nbytes), memory, room);
      r := AllocFirst(nbytes, memory, room);
    }

    method AllocFirst(nbytes: nat, memory: Option<int>, room: bool) returns (r: Option<int>)
      requires Valid() && nbytes > 0
      requires memory.Some? ==>
        memory.value > 0 && memory.value % ALIGN == 0 && Outside(all, memory.value, RoundUp(nbytes) + NALLOC)
      modifies `chains, `frees, `all, all`size, htab, freelist`free
      ensures Valid() && (r.Some? ==> r.value % ALIGN == 0 && r.value !in old(Addresses()))
      ensures FreeList() == Without(Supplied(old(FreeList()), RoundUp(nbytes), memory), RoundUp(nbytes))
      ensures var n := RoundUp(nbytes);
        r == if room then EndOfFirst(Supplied(old(FreeList()), n, memory), n) else None
      ensures Blocks() == old(Blocks()) + (if r.Some? then {Stretch(r.value, RoundUp(nbytes))} else {})
      ensures Addresses() == old(Addresses()) + if r.Some? then {r.value} else {}
      ensures old(all) <= all && forall d :: d in all && d !in old(all) ==> fresh(d)
    {
      var n := RoundUp(nbytes);
      var desc := FirstFit(n, memory);
      if desc == null { return None; }
      r := Cut(desc, n, room);
    }
  }
}
