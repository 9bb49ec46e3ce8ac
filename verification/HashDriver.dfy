/** The character driver over its two tables. The minor number of the most
    recently opened device picks the table, whatever file is used. */
module HashDriver {
  import opened HashChains
  import opened HashTable
  import opened Wrappers
  import Runs

  datatype DriverView = DriverView(minor: int, tbl0: Chains, tbl1: Chains) {
    function Picked(): Chains {
      if minor == 0 then tbl0 else tbl1
    }

    function WithPicked(v: Chains): (r: DriverView)
      ensures r.Picked() == v && r.minor == minor
      ensures if minor == 0 then r.tbl1 == tbl1 else r.tbl0 == tbl0
    {
      if minor == 0 then this.(tbl0 := v) else this.(tbl1 := v)
    }

    function Opened(m: int): DriverView {
      this.(minor := m).WithPicked(EmptyView())
    }

    function Written(h: Hash, o: Obj): DriverView {
      WithPicked(WriteView(h, Picked(), o.key, o.data))
    }

    function Released(): DriverView {
      WithPicked(EmptyView())
    }
  }

  /** The two tables share neither nodes nor bucket arrays. */
  ghost predicate Apart(a: Table, b: Table)
    reads a, a.first, a.nodes, b, b.first, b.nodes
  {
    a != b && a.first != b.first && a.nodes !! b.nodes && a.Valid() && b.Valid()
  }

  /** A write to one table leaves the other alone. */
  method WriteTo(t: Table, other: Table, key: int, data: int)
    requires Apart(t, other)
    modifies t, t.first, t.nodes
    ensures Apart(t, other) && fresh(t.nodes - old(t.nodes)) && other.nodes == old(other.nodes)
    ensures t.View() == WriteView(t.hash, old(t.View()), key, data) && other.View() == old(other.View())
  {
    t.Write(key, data);
  }

  method EmptyOnly(t: Table, other: Table)
    requires Apart(t, other)
    modifies t, t.first
    ensures Apart(t, other) && t.nodes == {} && other.nodes == old(other.nodes)
    ensures t.View() == EmptyView() && other.View() == old(other.View())
  {
    t.HashInit();
  }

  method ReleaseOnly(t: Table, other: Table)
    requires Apart(t, other)
    modifies t, t.first, t.nodes
    ensures Apart(t, other) && t.nodes == {} && other.nodes == old(other.nodes)
    ensures t.View() == EmptyView() && other.View() == old(other.View())
  {
    ghost var freed := t.Release();
  }

  class Driver {
    const hash: Hash
    const tbl0: Table
    const tbl1: Table
    var currentMinor: int

    ghost predicate Valid()
      reads this, tbl0, tbl0.first, tbl0.nodes, tbl1, tbl1.first, tbl1.nodes
    {
      tbl0.hash == hash && tbl1.hash == hash && Apart(tbl0, tbl1)
    }

    ghost function View(): DriverView
      requires Valid()
      reads this, tbl0, tbl0.first, tbl0.nodes, tbl1, tbl1.first, tbl1.nodes
    {
      DriverView(currentMinor, tbl0.View(), tbl1.View())
    }

    constructor (hash: Hash)
      ensures Valid() && this.hash == hash
      ensures View() == DriverView(0, EmptyView(), EmptyView())
    {
      this.hash := hash;
      currentMinor := 0;
      tbl0 := new Table(hash);
      tbl1 := new Table(hash);
    }

    function Selected(): Table
      reads this
    {
      if currentMinor == 0 then tbl0 else tbl1
    }

    /** `ht530_drv_driver_open`: selects a table and empties it. */
    method Open(minor: int)
      requires Valid()
      modifies this, tbl0, tbl0.first, tbl1, tbl1.first
      ensures Valid() && View() == old(View()).Opened(minor)
    {
      currentMinor := minor;
      if minor == 0 {
        EmptyOnly(tbl0, tbl1);
      } else {
        EmptyOnly(tbl1, tbl0);
      }
    }

    method Write(key: int, data: int)
      requires Valid()
      modifies Selected(), Selected().first, Selected().nodes
      ensures Valid()
      ensures View() == old(View()).Written(hash, Obj(key, data))
    {
      if currentMinor == 0 {
        WriteTo(tbl0, tbl1, key, data);
      } else {
        WriteTo(tbl1, tbl0, key, data);
      }
    }

    method Read(key: int) returns (ret: int, data: int)
      requires Valid()
      ensures data == ReadData(hash, View().Picked(), key)
      ensures ret == if HasKey(View().Picked()[hash(key)], key) then 1 else -EINVAL
    {
      ret, data := Selected().Read(key);
    }

    method Dump(n: int) returns (ret: int, copied: seq<Obj>)
      requires Valid()
      ensures ret == if Reached(hash, n) then 0 else -EINVAL
      ensures ret == 0 ==> 0 <= n < BUCKETS
      ensures copied == if 0 <= n < BUCKETS then DumpBucket(hash, View().Picked()[n], n) else []
    {
      ret, copied := Selected().Dump(n);
    }

    method Release()
      requires Valid()
      modifies Selected(), Selected().first, Selected().nodes
      ensures Valid() && View() == old(View()).Released()
    {
      if currentMinor == 0 {
        ReleaseOnly(tbl0, tbl1);
      } else {
        ReleaseOnly(tbl1, tbl0);
      }
    }
  }

  /** One more answer of DUMP behind those for the buckets before. */
  method DumpNext(driver: Driver, n: Bucket, listed: seq<Obj>) returns (longer: seq<Obj>)
    requires driver.Valid() && listed == DumpUpTo(driver.hash, driver.View().Picked(), n)
    ensures longer == DumpUpTo(driver.hash, driver.View().Picked(), n + 1)
  {
    var ret, copied := driver.Dump(n);
    longer := listed + copied;
    DumpGrows(driver.hash, driver.View().Picked(), n);
  }

  /** A client that asks for every bucket in turn, with the object array cleared
      in between; a refusal adds nothing. */
  method DumpAll(driver: Driver) returns (listed: seq<Obj>)
    requires driver.Valid()
    ensures listed == DumpUpTo(driver.hash, driver.View().Picked(), BUCKETS)
  {
    listed := [];
    for n := 0 to BUCKETS
      invariant listed == DumpUpTo(driver.hash, driver.View().Picked(), n)
    {
      listed := DumpNext(driver, n, listed);
    }
  }

  // ----- Every run of calls -----

  datatype Event = Opens(minor: int) | Writes(o: Obj) | Releases

  function Step(h: Hash, v: DriverView, e: Event): DriverView {
    match e
    case Opens(minor) => v.Opened(minor)
    case Writes(o) => v.Written(h, o)
    case Releases => v.Released()
  }

  function Start(): DriverView {
    DriverView(0, EmptyView(), EmptyView())
  }

  /** The driver after the first `n` calls. */
  function Run(h: Hash, es: seq<Event>, n: nat): DriverView
    requires n <= |es|
  {
    Runs.Run((v: DriverView, e: Event) => Step(h, v, e), Start(), es, n)
  }

  /** The table that a device of this minor number selects. */
  function TableOf(minor: int): int {
    if minor == 0 then 0 else 1
  }

  function LatestAfter(t: int, e: Event): int {
    if e.Opens? then TableOf(e.minor) else t
  }

  /** The table of the device opened last. */
  function LatestTable(es: seq<Event>, n: nat): int
    requires n <= |es|
  {
    if n == 0 then 0 else LatestAfter(LatestTable(es, n - 1), es[n - 1])
  }

  function PutsAfter(puts: seq<Obj>, e: Event): seq<Obj> {
    match e
    case Opens(_) => []
    case Writes(o) => puts + [o]
    case Releases => []
  }

  /** The writes made while table `t` belonged to the device opened last, since
      that table was last emptied by an open or a release. */
  function PutsTo(es: seq<Event>, n: nat, t: int): seq<Obj>
    requires n <= |es|
  {
    if n == 0 then []
    else if LatestTable(es, n) == t then PutsAfter(PutsTo(es, n - 1, t), es[n - 1])
    else PutsTo(es, n - 1, t)
  }

  /** The tables hold the outcomes of these writes, and `t` is selected. */
  predicate Agrees(h: Hash, v: DriverView, t: int, puts0: seq<Obj>, puts1: seq<Obj>) {
    TableOf(v.minor) == t && v.tbl0 == RunPuts(h, puts0) && v.tbl1 == RunPuts(h, puts1)
  }

  lemma PutsNext(h: Hash, puts: seq<Obj>, o: Obj)
    ensures RunPuts(h, puts + [o]) == WriteView(h, RunPuts(h, puts), o.key, o.data)
  {
    assert (puts + [o])[..|puts|] == puts;
  }

  lemma StepAgrees(h: Hash, v: DriverView, t: int, puts0: seq<Obj>, puts1: seq<Obj>, e: Event)
    requires Agrees(h, v, t, puts0, puts1)
    ensures var t' := LatestAfter(t, e);
            Agrees(h, Step(h, v, e), t',
                   if t' == 0 then PutsAfter(puts0, e) else puts0,
                   if t' == 1 then PutsAfter(puts1, e) else puts1)
  {
    if e.Writes? {
      PutsNext(h, if t == 0 then puts0 else puts1, e.o);
    }
  }

  /** Over every run of opens, writes and releases of either device, through
      whatever file: each table is the outcome of the writes that went to it since
      it was last emptied, and calls go to the table of the device opened last. */
  lemma {:induction false} EachTableIsItsWrites(h: Hash, es: seq<Event>, n: nat)
    requires n <= |es|
    ensures Agrees(h, Run(h, es, n), LatestTable(es, n), PutsTo(es, n, 0), PutsTo(es, n, 1))
  {
    if n > 0 {
      EachTableIsItsWrites(h, es, n - 1);
      StepAgrees(
        h, Run(h, es, n - 1), LatestTable(es, n - 1), PutsTo(es, n - 1, 0), PutsTo(es, n - 1, 1), es[n - 1]);
    }
  }

  /** So every read is answered from the map of those writes. */
  lemma EveryReadIsRight(h: Hash, es: seq<Event>, n: nat, k: int)
    requires n <= |es|
    ensures ReadData(h, Run(h, es, n).Picked(), k)
         == match Get(Replay(PutsTo(es, n, LatestTable(es, n))), k) case None => -1 case Some(d) => d
  {
    EachTableIsItsWrites(h, es, n);
    TableRefinesMap(h, PutsTo(es, n, LatestTable(es, n)), k);
  }
}
