/** The 128 chains of the hash driver as values, and the map they stand for. */
module HashChains {
  import opened Wrappers

  datatype Obj = Obj(key: int, data: int)

  const BUCKETS: int := 128

  type Bucket = b: int | 0 <= b < BUCKETS

  /** `hash_min(key, 7)` of the kernel: any function into 0..127. */
  type Hash = int -> Bucket

  // ----- One chain, newest node first -----

  predicate HasKey(c: seq<Obj>, k: int) {
    exists i :: 0 <= i < |c| && c[i].key == k
  }

  predicate UniqueKeys(c: seq<Obj>) {
    forall i, j :: 0 <= i < j < |c| ==> c[i].key != c[j].key
  }

  function CountKey(c: seq<Obj>, k: int): nat {
    if c == [] then 0 else (if c[0].key == k then 1 else 0) + CountKey(c[1..], k)
  }

  /** What the delete walk leaves: `hash_del` clears the `next` of the node it
      unlinks, so the walk ends at the first match. */
  function RemoveFirst(c: seq<Obj>, k: int): seq<Obj> {
    if c == [] then []
    else if c[0].key == k then c[1..]
    else [c[0]] + RemoveFirst(c[1..], k)
  }

  /** What the update walk leaves: it has no `break`, so it sets every match. */
  function SetAll(c: seq<Obj>, k: int, d: int): seq<Obj> {
    seq(|c|, i requires 0 <= i < |c| => if c[i].key == k then Obj(k, d) else c[i])
  }

  /** What the read walk reports: it has no `break`, so the last match wins. */
  function LastMatch(c: seq<Obj>, k: int): Option<int> {
    if c == [] then None
    else if c[|c| - 1].key == k then Some(c[|c| - 1].data)
    else LastMatch(c[..|c| - 1], k)
  }

  function WriteChain(c: seq<Obj>, k: int, d: int): seq<Obj> {
    if d == 0 then RemoveFirst(c, k)
    else if HasKey(c, k) then SetAll(c, k, d)
    else [Obj(k, d)] + c
  }

  // ----- The whole table -----

  /** The chains of one table, a chain for each bucket. */
  type Chains = v: seq<seq<Obj>> | |v| == BUCKETS witness seq(BUCKETS, _ => [])

  function WriteView(h: Hash, v: Chains, k: int, d: int): Chains {
    v[h(k) := WriteChain(v[h(k)], k, d)]
  }

  /** The data a read hands back: -1 stands for "not found". */
  function ReadData(h: Hash, v: Chains, k: int): int {
    match LastMatch(v[h(k)], k)
    case None => -1
    case Some(d) => d
  }

  function EmptyView(): (v: Chains)
    ensures forall b :: 0 <= b < BUCKETS ==> v[b] == []
  {
    seq(BUCKETS, i => [])
  }

  ghost predicate ChainOk(h: Hash, c: seq<Obj>, b: int) {
    && UniqueKeys(c)
    && forall i :: 0 <= i < |c| ==> h(c[i].key) == b && c[i].data != 0
  }

  /** Keys are unique, every node sits in its key's bucket, no stored data is 0. */
  ghost predicate Wf(h: Hash, v: Chains) {
    forall b :: 0 <= b < BUCKETS ==> ChainOk(h, v[b], b)
  }

  /** The table after a run of writes, each an object handed to the driver. */
  function RunPuts(h: Hash, puts: seq<Obj>): Chains {
    if puts == [] then EmptyView()
    else WriteView(h, RunPuts(h, puts[..|puts| - 1]), puts[|puts| - 1].key, puts[|puts| - 1].data)
  }

  /** The same write on a plain map: data 0 removes, other data binds. */
  function WriteMap(m: map<int, int>, o: Obj): map<int, int> {
    if o.data == 0 then m - {o.key} else m[o.key := o.data]
  }

  function Replay(puts: seq<Obj>): map<int, int> {
    if puts == [] then map[] else WriteMap(Replay(puts[..|puts| - 1]), puts[|puts| - 1])
  }

  function Get(m: map<int, int>, k: int): Option<int> {
    if k in m then Some(m[k]) else None
  }

  // ----- Walks over one chain -----

  lemma {:induction false} LastMatchIs(c: seq<Obj>, k: int)
    ensures LastMatch(c, k) == None <==> !HasKey(c, k)
    ensures UniqueKeys(c) ==>
              forall i :: 0 <= i < |c| && c[i].key == k ==> LastMatch(c, k) == Some(c[i].data)
  {
    if c != [] {
      var init := c[..|c| - 1];
      LastMatchIs(init, k);
      if c[|c| - 1].key != k {
        if HasKey(c, k) {
          var i :| 0 <= i < |c| && c[i].key == k;
          assert init[i].key == k;
        }
        if HasKey(init, k) {
          var i :| 0 <= i < |init| && init[i].key == k;
          assert c[i].key == k;
        }
        forall i | UniqueKeys(c) && 0 <= i < |c| && c[i].key == k
          ensures LastMatch(c, k) == Some(c[i].data)
        {
          assert init[i] == c[i];
        }
      }
    }
  }

  lemma LookupIsMembership(c: seq<Obj>, k: int)
    requires UniqueKeys(c)
    ensures forall d :: LastMatch(c, k) == Some(d) <==> Obj(k, d) in c
  {
    LastMatchIs(c, k);
    forall d ensures LastMatch(c, k) == Some(d) <==> Obj(k, d) in c {
      if Obj(k, d) in c {
        var i :| 0 <= i < |c| && c[i] == Obj(k, d);
        assert c[i].key == k;
      }
      if LastMatch(c, k) == Some(d) {
        var i :| 0 <= i < |c| && c[i].key == k;
        assert c[i] == Obj(k, d);
      }
    }
  }

  lemma {:induction false} CountKeyZero(c: seq<Obj>, k: int)
    ensures CountKey(c, k) == 0 <==> !HasKey(c, k)
  {
    if c != [] {
      CountKeyZero(c[1..], k);
      if HasKey(c, k) && c[0].key != k {
        var i :| 0 <= i < |c| && c[i].key == k;
        assert c[1..][i - 1].key == k;
      }
      if HasKey(c[1..], k) {
        var i :| 0 <= i < |c[1..]| && c[1..][i].key == k;
        assert c[i + 1].key == k;
      }
    }
  }

  /** The early end of the delete walk is harmless exactly when the chain holds
      the key at most once. */
  lemma {:induction false} DeleteWalkCompleteIff(c: seq<Obj>, k: int)
    ensures !HasKey(RemoveFirst(c, k), k) <==> CountKey(c, k) <= 1
  {
    if c != [] {
      if c[0].key == k {
        CountKeyZero(c[1..], k);
      } else {
        DeleteWalkCompleteIff(c[1..], k);
        var rest := RemoveFirst(c[1..], k);
        assert RemoveFirst(c, k) == [c[0]] + rest;
        CountKeyZero(rest, k);
        CountKeyZero([c[0]] + rest, k);
        assert ([c[0]] + rest)[1..] == rest;
      }
    }
  }

  lemma {:induction false} UniqueCountsOnce(c: seq<Obj>, k: int)
    requires UniqueKeys(c)
    ensures CountKey(c, k) <= 1
  {
    if c != [] {
      UniqueCountsOnce(c[1..], k);
      if c[0].key == k {
        CountKeyZero(c[1..], k);
      }
    }
  }

  /** The chain without its place `p`, if it has one. */
  function CutAt<T>(c: seq<T>, p: nat): seq<T>
    requires p <= |c|
  {
    if p < |c| then c[..p] + c[p + 1..] else c
  }

  lemma CutInTail(c: seq<Obj>, p: nat)
    requires 0 < p <= |c|
    ensures [c[0]] + CutAt(c[1..], p - 1) == CutAt(c, p)
  {
  }

  /** Deleting cuts out the first match and keeps everything else in order. */
  lemma {:induction false} RemoveFirstAt(c: seq<Obj>, k: int, p: nat)
    requires p <= |c| && (forall j :: 0 <= j < p ==> c[j].key != k) && (p < |c| ==> c[p].key == k)
    ensures RemoveFirst(c, k) == CutAt(c, p)
  {
    if p == 0 {
      assert c != [] ==> c[..0] + c[1..] == c[1..];
    } else {
      assert c[0].key != k;
      RemoveFirstAt(c[1..], k, p - 1);
      CutInTail(c, p);
    }
  }

  lemma FirstMatch(c: seq<Obj>, k: int) returns (p: nat)
    ensures p <= |c| && (forall j :: 0 <= j < p ==> c[j].key != k) && (p < |c| ==> c[p].key == k)
    ensures RemoveFirst(c, k) == CutAt(c, p)
  {
    p := 0;
    while p < |c| && c[p].key != k
      invariant p <= |c| && forall j :: 0 <= j < p ==> c[j].key != k
    {
      p := p + 1;
    }
    RemoveFirstAt(c, k, p);
  }

  // ----- One write on a well-formed table -----

  lemma DeleteOk(h: Hash, c: seq<Obj>, k: int)
    requires ChainOk(h, c, h(k))
    ensures ChainOk(h, RemoveFirst(c, k), h(k)) && !HasKey(RemoveFirst(c, k), k)
  {
    var w := RemoveFirst(c, k);
    var p := FirstMatch(c, k);
    UniqueCountsOnce(c, k);
    DeleteWalkCompleteIff(c, k);
    forall i | 0 <= i < |w| ensures w[i] == if i < p then c[i] else c[i + 1] {}
  }

  lemma SetOk(h: Hash, c: seq<Obj>, k: int, d: int)
    requires ChainOk(h, c, h(k)) && HasKey(c, k) && d != 0
    ensures ChainOk(h, SetAll(c, k, d), h(k)) && Obj(k, d) in SetAll(c, k, d)
  {
    var i :| 0 <= i < |c| && c[i].key == k;
    assert SetAll(c, k, d)[i] == Obj(k, d);
  }

  lemma WriteChainOk(h: Hash, c: seq<Obj>, k: int, d: int)
    requires ChainOk(h, c, h(k))
    ensures ChainOk(h, WriteChain(c, k, d), h(k))
    ensures LastMatch(WriteChain(c, k, d), k) == if d == 0 then None else Some(d)
    ensures forall j :: j != k ==> LastMatch(WriteChain(c, k, d), j) == LastMatch(c, j)
  {
    var w := WriteChain(c, k, d);
    if d == 0 {
      DeleteOk(h, c, k);
      LastMatchIs(w, k);
    } else if HasKey(c, k) {
      SetOk(h, c, k, d);
      LookupIsMembership(w, k);
    } else {
      assert w[0] == Obj(k, d);
      LookupIsMembership(w, k);
    }
    forall j | j != k ensures LastMatch(w, j) == LastMatch(c, j) {
      OtherKeysKept(c, k, d, j);
    }
  }

  lemma OtherKeysKept(c: seq<Obj>, k: int, d: int, j: int)
    requires UniqueKeys(c) && UniqueKeys(WriteChain(c, k, d)) && j != k
    ensures LastMatch(WriteChain(c, k, d), j) == LastMatch(c, j)
  {
    var w := WriteChain(c, k, d);
    forall e ensures Obj(j, e) in w <==> Obj(j, e) in c {
      SameMembers(c, k, d, Obj(j, e));
    }
    LookupIsMembership(c, j);
    LookupIsMembership(w, j);
    assert LastMatch(c, j).Some? ==> Obj(j, LastMatch(c, j).value) in w;
    assert LastMatch(w, j).Some? ==> Obj(j, LastMatch(w, j).value) in c;
  }

  lemma SameMembers(c: seq<Obj>, k: int, d: int, o: Obj)
    requires o.key != k
    ensures o in WriteChain(c, k, d) <==> o in c
  {
    var w := WriteChain(c, k, d);
    if d == 0 {
      var p := FirstMatch(c, k);
      if p < |c| {
        assert c == c[..p] + [c[p]] + c[p + 1..];
      }
    } else if HasKey(c, k) {
      if o in c {
        var i :| 0 <= i < |c| && c[i] == o;
        assert w[i] == o;
      }
      if o in w {
        var i :| 0 <= i < |w| && w[i] == o;
        assert c[i] == o;
      }
    }
  }

  /** A write keeps the table well formed, a read of the written key returns the
      data just written (not found for 0), and every other key reads as before. */
  lemma WriteThenRead(h: Hash, v: Chains, k: int, d: int, j: int)
    requires Wf(h, v)
    ensures Wf(h, WriteView(h, v, k, d))
    ensures ReadData(h, WriteView(h, v, k, d), k) == if d == 0 then -1 else d
    ensures j != k ==> ReadData(h, WriteView(h, v, k, d), j) == ReadData(h, v, j)
  {
    WriteChainOk(h, v[h(k)], k, d);
  }

  // ----- Every run of writes -----

  lemma WriteRefinesMap(h: Hash, v: Chains, m: map<int, int>, o: Obj, k: int)
    requires Wf(h, v) && LastMatch(v[h(k)], k) == Get(m, k)
    ensures Wf(h, WriteView(h, v, o.key, o.data))
    ensures LastMatch(WriteView(h, v, o.key, o.data)[h(k)], k) == Get(WriteMap(m, o), k)
  {
    WriteChainOk(h, v[h(o.key)], o.key, o.data);
  }

  /** After any writes the 128 chains are well formed and agree with the plain
      map on every key. */
  lemma {:induction false} TableRefinesMap(h: Hash, puts: seq<Obj>, k: int)
    ensures Wf(h, RunPuts(h, puts))
    ensures LastMatch(RunPuts(h, puts)[h(k)], k) == Get(Replay(puts), k)
  {
    if puts != [] {
      var init, last := puts[..|puts| - 1], puts[|puts| - 1];
      TableRefinesMap(h, init, k);
      WriteRefinesMap(h, RunPuts(h, init), Replay(init), last, k);
    }
  }

  /** The client's "not found" value is also what a stored -1 reads as: after any
      writes a read gives -1 exactly for an unbound key or one bound to -1. */
  lemma MinusOneReadsAsNotFound(h: Hash, puts: seq<Obj>, k: int)
    ensures ReadData(h, RunPuts(h, puts), k) == -1 <==> k !in Replay(puts) || Replay(puts)[k] == -1
    ensures ReadData(h, RunPuts(h, puts + [Obj(k, -1)]), k) == -1 && k in Replay(puts + [Obj(k, -1)])
  {
    TableRefinesMap(h, puts, k);
    TableRefinesMap(h, puts + [Obj(k, -1)], k);
    assert (puts + [Obj(k, -1)])[..|puts|] == puts;
  }

  // ----- Dumping -----

  /** The nodes DUMP copies out of one chain: at most eight. */
  function FirstEight(c: seq<Obj>): seq<Obj> {
    if |c| <= 8 then c else c[..8]
  }

  /** The key search of DUMP, over keys 0..128, finds bucket `b`. */
  predicate Reached(h: Hash, b: int) {
    exists k :: 0 <= k <= 128 && h(k) == b
  }

  /** What DUMP hands out for bucket `b`; one that the search does not find is
      refused. */
  function DumpBucket(h: Hash, c: seq<Obj>, b: int): seq<Obj> {
    if Reached(h, b) then FirstEight(c) else []
  }

  /** What a client collects by asking for buckets 0..n-1. */
  function DumpUpTo(h: Hash, v: Chains, n: nat): seq<Obj>
    requires n <= BUCKETS
  {
    if n == 0 then [] else DumpUpTo(h, v, n - 1) + DumpBucket(h, v[n - 1], n - 1)
  }

  lemma DumpGrows(h: Hash, v: Chains, n: Bucket)
    ensures DumpUpTo(h, v, n + 1) == DumpUpTo(h, v, n) + DumpBucket(h, v[n], n)
  {
  }

  function Occurs(c: seq<Obj>, o: Obj): nat {
    multiset(c)[o]
  }

  lemma {:induction false} OccursInChain(c: seq<Obj>, o: Obj)
    requires UniqueKeys(c)
    ensures Occurs(c, o) == if o in c then 1 else 0
  {
    if c != [] {
      OccursInChain(c[1..], o);
      assert c == [c[0]] + c[1..];
    }
  }

  predicate Listed(h: Hash, v: Chains, o: Obj) {
    Reached(h, h(o.key)) && o in FirstEight(v[h(o.key)])
  }

  lemma OccursInBucket(h: Hash, v: Chains, b: Bucket, o: Obj)
    requires Wf(h, v)
    ensures Occurs(DumpBucket(h, v[b], b), o) == if h(o.key) == b && Listed(h, v, o) then 1 else 0
  {
    assert ChainOk(h, v[b], b);
    OccursInChain(FirstEight(v[b]), o);
  }

  lemma OccursInBoth(a: seq<Obj>, b: seq<Obj>, o: Obj)
    ensures Occurs(a + b, o) == Occurs(a, o) + Occurs(b, o)
  {
  }

  /** What occurs in one part only occurs as often in all of them joined. */
  lemma {:induction false} OccursInJoined(parts: seq<seq<Obj>>, n: nat, o: Obj, b: nat, times: nat)
    requires n <= |parts|
    requires forall a :: 0 <= a < |parts| ==> Occurs(parts[a], o) == if a == b then times else 0
    ensures Occurs(Joined(parts, n), o) == if b < n then times else 0
  {
    if n > 0 {
      OccursInJoined(parts, n - 1, o, b, times);
      OccursInBoth(Joined(parts, n - 1), parts[n - 1], o);
    }
  }

  lemma {:induction false} DumpIsJoined(h: Hash, v: Chains, parts: seq<seq<Obj>>, n: nat)
    requires n <= BUCKETS == |parts|
    requires forall b: Bucket :: parts[b] == DumpBucket(h, v[b], b)
    ensures DumpUpTo(h, v, n) == Joined(parts, n)
  {
    if n > 0 {
      DumpIsJoined(h, v, parts, n - 1);
    }
  }

  lemma OccursInDump(h: Hash, v: Chains, o: Obj)
    requires Wf(h, v)
    ensures Occurs(DumpUpTo(h, v, BUCKETS), o) == if Listed(h, v, o) then 1 else 0
  {
    var parts := seq(BUCKETS, b requires 0 <= b < BUCKETS => DumpBucket(h, v[b], b));
    var times := if Listed(h, v, o) then 1 else 0;
    forall b: int | 0 <= b < BUCKETS ensures Occurs(parts[b], o) == if b == h(o.key) then times else 0 {
      OccursInBucket(h, v, b, o);
    }
    OccursInJoined(parts, BUCKETS, o, h(o.key), times);
    DumpIsJoined(h, v, parts, BUCKETS);
  }

  /** The outcome of a run of writes, dumped bucket by bucket. */
  function DumpAfter(h: Hash, puts: seq<Obj>): seq<Obj> {
    DumpUpTo(h, RunPuts(h, puts), BUCKETS)
  }

  predicate Bound(puts: seq<Obj>, o: Obj) {
    Get(Replay(puts), o.key) == Some(o.data)
  }

  lemma BoundIsStored(h: Hash, puts: seq<Obj>, o: Obj)
    ensures Bound(puts, o) <==> o in RunPuts(h, puts)[h(o.key)]
  {
    TableRefinesMap(h, puts, o.key);
    assert ChainOk(h, RunPuts(h, puts)[h(o.key)], h(o.key));
    LookupIsMembership(RunPuts(h, puts)[h(o.key)], o.key);
  }

  /** A full dump lists a binding of the map once if its bucket is reached by a
      key 0..128 and it is among the eight newest there, and otherwise not at all;
      it lists nothing else. */
  lemma DumpLists(h: Hash, puts: seq<Obj>, o: Obj)
    ensures Occurs(DumpAfter(h, puts), o)
         == if Bound(puts, o) && Listed(h, RunPuts(h, puts), o) then 1 else 0
  {
    TableRefinesMap(h, puts, o.key);
    OccursInDump(h, RunPuts(h, puts), o);
    BoundIsStored(h, puts, o);
  }

  ghost predicate ListsTheMap(h: Hash, puts: seq<Obj>) {
    forall o :: Occurs(DumpAfter(h, puts), o) == if Bound(puts, o) then 1 else 0
  }

  /** Every bound key sits in a bucket that a key 0..128 reaches, and no chain is
      longer than eight. */
  ghost predicate Dumpable(h: Hash, puts: seq<Obj>) {
    && (forall k :: k in Replay(puts) ==> Reached(h, h(k)))
    && forall b :: 0 <= b < BUCKETS ==> |RunPuts(h, puts)[b]| <= 8
  }

  /** An object of a chain that a full dump lists is in its first eight. */
  lemma ListedIsAmongEight(h: Hash, puts: seq<Obj>, b: Bucket, i: nat)
    requires i < |RunPuts(h, puts)[b]| && ListsTheMap(h, puts)
    ensures Reached(h, b) && RunPuts(h, puts)[b][i] in FirstEight(RunPuts(h, puts)[b])
  {
    var o := RunPuts(h, puts)[b][i];
    TableRefinesMap(h, puts, o.key);
    assert ChainOk(h, RunPuts(h, puts)[b], b);
    BoundIsStored(h, puts, o);
    DumpLists(h, puts, o);
    assert Occurs(DumpAfter(h, puts), o) == 1;
  }

  /** The full dump lists exactly the map, each binding once, exactly when the
      table is dumpable. */
  lemma DumpListsTheMapIff(h: Hash, puts: seq<Obj>)
    ensures ListsTheMap(h, puts) <==> Dumpable(h, puts)
  {
    if Dumpable(h, puts) {
      forall o ensures Occurs(DumpAfter(h, puts), o) == if Bound(puts, o) then 1 else 0 {
        DumpLists(h, puts, o);
        BoundIsStored(h, puts, o);
      }
    }
    if ListsTheMap(h, puts) {
      forall k | k in Replay(puts) ensures Reached(h, h(k)) {
        var o := Obj(k, Replay(puts)[k]);
        BoundIsStored(h, puts, o);
        var i :| 0 <= i < |RunPuts(h, puts)[h(k)]| && RunPuts(h, puts)[h(k)][i] == o;
        ListedIsAmongEight(h, puts, h(k), i);
      }
      forall b: Bucket ensures |RunPuts(h, puts)[b]| <= 8 {
        ShortIfListed(h, puts, b);
      }
    }
  }

  lemma NinthIsLeftOut(c: seq<Obj>)
    requires UniqueKeys(c) && |c| > 8
    ensures c[8] !in FirstEight(c)
  {
  }

  lemma ShortIfListed(h: Hash, puts: seq<Obj>, b: Bucket)
    requires ListsTheMap(h, puts)
    ensures |RunPuts(h, puts)[b]| <= 8
  {
    var c := RunPuts(h, puts)[b];
    TableRefinesMap(h, puts, 0);
    assert ChainOk(h, c, b);
    if |c| > 8 {
      NinthIsLeftOut(c);
      ListedIsAmongEight(h, puts, b, 8);
    }
  }

  /** A hash that keeps the keys 0..128 out of bucket 1. */
  function Skewed(k: int): Bucket {
    if 0 <= k <= 128 then 0 else 1
  }

  /** Under it one write is enough: the dump lists nothing although 200 is bound. */
  lemma DumpMissesUnreached()
    ensures Bound([Obj(200, 7)], Obj(200, 7)) && Occurs(DumpAfter(Skewed, [Obj(200, 7)]), Obj(200, 7)) == 0
  {
    var puts := [Obj(200, 7)];
    assert puts[..0] == [];
    assert Replay(puts) == map[200 := 7];
    assert !Reached(Skewed, 1);
    DumpLists(Skewed, puts, Obj(200, 7));
  }
}
