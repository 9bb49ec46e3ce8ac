/** The hash driver's chained table: real nodes, `next` and `pprev` links. */
module HashTable {
  import opened Wrappers
  import opened HashChains

  /** What a node's `pprev` points at. */
  datatype Link = Unhashed | FromHead(bucket: int) | FromNode(node: Node)

  class Node {
    const key: int
    var data: int
    var next: Node?
    var pprev: Link

    constructor (key: int, data: int)
      ensures this.key == key && this.data == data
    {
      this.key, this.data := key, data;
      next, pprev := null, Unhashed;
    }
  }

  function At(c: seq<Node>, i: nat): Node? {
    if i < |c| then c[i] else null
  }

  function Origin(b: int, c: seq<Node>, i: nat): Link
    requires i <= |c|
  {
    if i == 0 then FromHead(b) else FromNode(c[i - 1])
  }

  ghost function FirstObjs(c: seq<Node>, n: nat): (o: seq<Obj>)
    requires n <= |c|
    reads c`data
    ensures |o| == n && forall i :: 0 <= i < n ==> o[i] == Obj(c[i].key, c[i].data)
  {
    if n == 0 then [] else FirstObjs(c, n - 1) + [Obj(c[n - 1].key, c[n - 1].data)]
  }

  /** The nodes as key and data pairs. */
  ghost function Objs(c: seq<Node>): (o: seq<Obj>)
    reads c`data
    ensures |o| == |c| && forall i :: 0 <= i < |c| ==> o[i] == Obj(c[i].key, c[i].data)
  {
    FirstObjs(c, |c|)
  }

  lemma OneBucketChanged(v: Chains, w: Chains, b: Bucket, c: seq<Obj>)
    requires w[b] == c
    requires forall a :: 0 <= a < BUCKETS && a != b ==> w[a] == v[a]
    ensures w == v[b := c]
  {
  }

  class Table {
    const hash: Hash
    const first: array<Node?>
    ghost var chains: seq<seq<Node>>
    ghost var nodes: set<Node>

    /** The nodes are distinct and all hash to bucket `b`. */
    ghost predicate Homed(b: int, c: seq<Node>) {
      && (forall i :: 0 <= i < |c| ==> hash(c[i].key) == b)
      && (forall i, j :: 0 <= i < j < |c| ==> c[i] != c[j])
    }

    /** Chain `b` is acyclic, correctly linked both ways, and in its bucket. */
    ghost predicate Linked(b: int, c: seq<Node>)
      reads c`next, c`pprev
    {
      && Homed(b, c)
      && (forall i {:trigger c[i].next} :: 0 <= i < |c| ==> c[i].next == At(c, i + 1))
      && (forall i {:trigger c[i].pprev} :: 0 <= i < |c| ==> c[i].pprev == Origin(b, c, i))
    }

    ghost predicate Valid()
      reads this, first, nodes`next, nodes`pprev
    {
      && first.Length == BUCKETS
      && |chains| == BUCKETS
      && (forall b, i :: 0 <= b < BUCKETS && 0 <= i < |chains[b]| ==> chains[b][i] in nodes)
      && (forall b :: 0 <= b < BUCKETS ==> first[b] == At(chains[b], 0) && Linked(b, chains[b]))
    }

    /** The abstract value: every chain as key and data pairs, newest first. */
    ghost function View(): (v: Chains)
      requires Valid()
      reads this, first, nodes
      ensures forall b :: 0 <= b < BUCKETS ==> v[b] == Objs(chains[b])
    {
      seq(BUCKETS, b requires 0 <= b < BUCKETS && Valid() reads this, first, nodes => Objs(chains[b]))
    }

    constructor (hash: Hash)
      ensures Valid() && fresh(first) && nodes == {} && this.hash == hash
      ensures View() == EmptyView()
    {
      this.hash := hash;
      first := new Node?[BUCKETS](_ => null);
      chains := seq(BUCKETS, _ => []);
      nodes := {};
    }

    /** `hash_init`: forgets every chain without touching its nodes. */
    method HashInit()
      requires Valid()
      modifies this, first
      ensures Valid() && nodes == {}
      ensures View() == EmptyView()
    {
      chains, nodes := seq(BUCKETS, _ => []), {};
      for b := 0 to BUCKETS
        invariant forall a :: 0 <= a < b ==> first[a] == null
        invariant chains == seq(BUCKETS, _ => []) && nodes == {}
      {
        first[b] := null;
      }
    }

    /** `hlist_add_head`: links a node in front of chain `b`. */
    method Link(n: Node, b: int)
      requires Valid() && n !in nodes && 0 <= b < BUCKETS
      modifies first, nodes`pprev, n`next, n`pprev
      ensures first[b] == n && n.next == old(first[b]) && n.pprev == FromHead(b)
      ensures forall a :: 0 <= a < BUCKETS && a != b ==> first[a] == old(first[a])
      ensures forall x :: x in nodes ==> x.pprev == if x == old(first[b]) then FromNode(n) else old(x.pprev)
    {
      var f := first[b];
      assert f != null ==> f == chains[b][0];
      n.next := f;
      if f != null {
        f.pprev := FromNode(n);
      }
      first[b] := n;
      n.pprev := FromHead(b);
    }

    /** `hash_add`. */
    method HashAdd(n: Node)
      requires Valid() && n !in nodes
      modifies this, first, nodes`pprev, n`next, n`pprev
      ensures Valid() && nodes == old(nodes) + {n}
      ensures chains == old(chains)[hash(n.key) := [n] + old(chains)[hash(n.key)]]
    {
      var b: int := hash(n.key);
      ghost var c := chains[b];
      Link(n, b);
      nodes := nodes + {n};
      chains := chains[b := [n] + chains[b]];

      forall a | 0 <= a < BUCKETS && a != b ensures Linked(a, chains[a]) {
        ghost var d := chains[a];
        assert old(Linked(a, d));
        assert forall i :: 0 <= i < |d| ==> d[i].next == old(d[i].next) && d[i].pprev == old(d[i].pprev);
      }
      PushedFront(b, n, c);
    }

    lemma PushedFront(b: int, n: Node, c: seq<Node>)
      requires Homed(b, c) && hash(n.key) == b && n !in c
      requires n.next == At(c, 0) && n.pprev == FromHead(b)
      requires forall i {:trigger c[i].next} :: 0 <= i < |c| ==> c[i].next == At(c, i + 1)
      requires forall i {:trigger c[i].pprev} :: 0 <= i < |c| ==>
                 c[i].pprev == if i == 0 then FromNode(n) else Origin(b, c, i)
      ensures Linked(b, [n] + c)
    {
      var d := [n] + c;
      assert forall i :: 0 < i < |d| ==> d[i] == c[i - 1];
    }

    lemma CutNext(c: seq<Node>, p: nat, i: nat)
      requires p < |c| && i < |c| - 1
      requires forall k {:trigger c[k].next} :: 0 <= k < |c| && k != p ==>
                 c[k].next == At(c, if k == p - 1 then p + 1 else k + 1)
      ensures CutAt(c, p)[i].next == At(CutAt(c, p), i + 1)
    {
      var d := CutAt(c, p);
      assert d[i] == c[if i < p then i else i + 1];
      assert i + 1 < |d| ==> d[i + 1] == c[if i + 1 < p then i + 1 else i + 2];
    }

    lemma CutPrev(b: int, c: seq<Node>, p: nat, i: nat)
      requires p < |c| && i < |c| - 1
      requires forall k {:trigger c[k].pprev} :: 0 <= k < |c| && k != p ==>
                 c[k].pprev == Origin(b, c, if k == p + 1 then p else k)
      ensures CutAt(c, p)[i].pprev == Origin(b, CutAt(c, p), i)
    {
      var d := CutAt(c, p);
      assert d[i] == c[if i < p then i else i + 1];
      assert i > 0 ==> d[i - 1] == c[if i <= p then i - 1 else i];
    }

    lemma CutHomed(b: int, c: seq<Node>, p: nat)
      requires Homed(b, c) && p < |c|
      ensures Homed(b, CutAt(c, p))
    {
      var d := CutAt(c, p);
      assert forall i :: 0 <= i < |d| ==> d[i] == c[if i < p then i else i + 1];
    }

    lemma CutOut(b: int, c: seq<Node>, p: int)
      requires Homed(b, c) && 0 <= p < |c|
      requires forall i {:trigger c[i].next} :: 0 <= i < |c| && i != p ==>
                 c[i].next == At(c, if i == p - 1 then p + 1 else i + 1)
      requires forall i {:trigger c[i].pprev} :: 0 <= i < |c| && i != p ==>
                 c[i].pprev == Origin(b, c, if i == p + 1 then p else i)
      ensures Linked(b, CutAt(c, p))
    {
      var d := CutAt(c, p);
      CutHomed(b, c, p);
      forall i | 0 <= i < |d| ensures d[i].next == At(d, i + 1) && d[i].pprev == Origin(b, d, i) {
        CutNext(c, p, i);
        CutPrev(b, c, p, i);
      }
    }

    /** `hlist_del_init`: unlinks a node through its own `pprev` and leaves its
        links cleared. */
    method Unlink(n: Node, ghost b: int, ghost p: int)
      requires Valid() && 0 <= b < BUCKETS && 0 <= p < |chains[b]| && chains[b][p] == n
      modifies first, nodes`next, nodes`pprev
      ensures n.next == null && n.pprev == Unhashed
      ensures forall a :: 0 <= a < BUCKETS && (a != b || p != 0) ==> first[a] == old(first[a])
      ensures p == 0 ==> first[b] == At(chains[b], 1)
      ensures forall x :: x in nodes && x !in chains[b] ==> x.next == old(x.next) && x.pprev == old(x.pprev)
      ensures var c := chains[b];
              forall i {:trigger c[i].next} :: 0 <= i < |c| && i != p ==>
                c[i].next == At(c, if i == p - 1 then p + 1 else i + 1)
      ensures var c := chains[b];
              forall i {:trigger c[i].pprev} :: 0 <= i < |c| && i != p ==>
                c[i].pprev == Origin(b, c, if i == p + 1 then p else i)
    {
      ghost var c := chains[b];
      assert Linked(b, c);
      ghost var before: Node? := if p == 0 then null else c[p - 1];
      ghost var after := At(c, p + 1);
      assert n.next == after && n.pprev == Origin(b, c, p);
      match n.pprev {
        case Unhashed =>
        case FromHead(h) => first[h] := n.next;
        case FromNode(m) => m.next := n.next;
      }
      if n.next != null {
        n.next.pprev := n.pprev;
      }
      n.next, n.pprev := null, Unhashed;

      forall i | 0 <= i < |c| && i != p
        ensures c[i].next == At(c, if i == p - 1 then p + 1 else i + 1)
      {
        assert c[i] != n && (i != p - 1 ==> c[i] != before);
        assert old(c[i].next) == At(c, i + 1);
      }
      forall i | 0 <= i < |c| && i != p
        ensures c[i].pprev == Origin(b, c, if i == p + 1 then p else i)
      {
        assert c[i] != n && (i != p + 1 ==> c[i] != after);
        assert old(c[i].pprev) == Origin(b, c, i);
      }
    }

    /** The rest of the table does not notice. */
    method UnlinkAlone(n: Node, ghost b: int, ghost p: int)
      requires Valid() && 0 <= b < BUCKETS && 0 <= p < |chains[b]| && chains[b][p] == n
      modifies first, nodes`next, nodes`pprev
      ensures n.next == null && n.pprev == Unhashed
      ensures first[b] == At(CutAt(chains[b], p), 0) && Linked(b, CutAt(chains[b], p))
      ensures forall a :: 0 <= a < BUCKETS && a != b ==> Linked(a, chains[a]) && first[a] == At(chains[a], 0)
      ensures forall a :: 0 <= a < BUCKETS && a != b ==> forall i :: 0 <= i < |chains[a]| ==> chains[a][i] != n
    {
      ghost var c := chains[b];
      Unlink(n, b, p);
      CutOut(b, c, p);
      forall a | 0 <= a < BUCKETS && a != b
        ensures Linked(a, chains[a])
        ensures forall i :: 0 <= i < |chains[a]| ==> chains[a][i] != n
      {
        assert old(Linked(a, chains[a]));
        assert forall i :: 0 <= i < |chains[a]| ==> chains[a][i] !in c;
      }
    }

    /** `hash_del`. */
    method HashDel(n: Node, ghost b: int, ghost p: int)
      requires Valid() && 0 <= b < BUCKETS && 0 <= p < |chains[b]| && chains[b][p] == n
      modifies this, first, nodes`next, nodes`pprev
      ensures Valid() && nodes == old(nodes) - {n}
      ensures chains == old(chains)[b := CutAt(old(chains)[b], p)]
      ensures n.next == null && n.pprev == Unhashed
    {
      ghost var c := chains[b];
      assert Homed(b, c);
      UnlinkAlone(n, b, p);
      nodes := nodes - {n};
      chains := chains[b := CutAt(c, p)];
      ghost var d := chains[b];
      forall i | 0 <= i < |d| ensures d[i] in nodes {
        assert d[i] == c[if i < p then i else i + 1];
      }
    }

    /** The walk of a write of data 0. `hash_del` nulls the unlinked node's
        `next`, so the walk stops after the first match, here at place `p`. */
    method CutMatch(key: int, ghost c: seq<Node>) returns (ghost p: nat)
      requires Valid() && c == chains[hash(key)]
      modifies this, first, nodes`next, nodes`pprev
      ensures Valid() && nodes <= old(nodes)
      ensures p <= |c| && (forall j :: 0 <= j < p ==> c[j].key != key) && (p < |c| ==> c[p].key == key)
      ensures chains == old(chains)[hash(key) := CutAt(c, p)]
    {
      var b: int := hash(key);
      var it := first[b];
      p := 0;
      ghost var cut := false;
      while it != null
        invariant Valid() && nodes <= old(nodes)
        invariant p <= |c| && forall j :: 0 <= j < p ==> c[j].key != key
        invariant !cut ==> chains == old(chains) && it == At(c, p)
        invariant cut ==> it == null && p < |c| && c[p].key == key
        invariant cut ==> chains == old(chains)[b := CutAt(c, p)]
        decreases it != null, |c| - p
      {
        if it.key == key {
          HashDel(it, b, p);
          cut := true;
        } else {
          p := p + 1;
        }
        it := it.next;
      }
    }

    lemma ObjsOfCut(c: seq<Node>, p: nat)
      requires p <= |c|
      ensures Objs(CutAt(c, p)) == CutAt(Objs(c), p)
    {
    }

    /** The abstract value after chain `b` has become `c`, with no data changed. */
    lemma ViewOfOneChanged(all: seq<seq<Node>>, v: Chains, b: Bucket, c: seq<Node>)
      requires Valid() && |all| == BUCKETS && chains == all[b := c]
      requires forall a :: 0 <= a < BUCKETS ==> Objs(all[a]) == v[a]
      ensures View() == v[b := Objs(c)]
    {
      forall a | 0 <= a < BUCKETS && a != b ensures View()[a] == v[a] {
        assert chains[a] == all[a];
      }
      OneBucketChanged(v, View(), b, Objs(c));
    }

    method DeleteWalk(key: int)
      requires Valid()
      modifies this, first, nodes`next, nodes`pprev
      ensures Valid() && nodes <= old(nodes)
      ensures View() == old(View())[hash(key) := RemoveFirst(old(View())[hash(key)], key)]
    {
      ghost var b, all, v := hash(key), chains, View();
      ghost var c := chains[b];
      ghost var p := CutMatch(key, c);
      ViewOfOneChanged(all, v, b, CutAt(c, p));
      ObjsOfCut(c, p);
      RemoveFirstAt(v[b], key, p);
    }

    /** The walk of a write of other data: every match is updated. */
    method SetMatches(key: int, data: int, ghost c: seq<Node>) returns (found: bool)
      requires Valid() && c == chains[hash(key)]
      modifies c`data
      ensures found <==> exists j :: 0 <= j < |c| && c[j].key == key
      ensures forall j :: 0 <= j < |c| ==> c[j].data == if c[j].key == key then data else old(c[j].data)
    {
      assert Linked(hash(key), c);
      found := false;
      var it := first[hash(key)];
      ghost var i := 0;
      while it != null
        invariant i <= |c| && it == At(c, i)
        invariant found <==> exists j :: 0 <= j < i && c[j].key == key
        invariant forall j :: 0 <= j < |c| ==>
                    c[j].data == if j < i && c[j].key == key then data else old(c[j].data)
        decreases |c| - i
      {
        if it.key == key {
          it.data := data;
          found := true;
        }
        it := it.next;
        i := i + 1;
      }
    }

    method UpdateWalk(key: int, data: int) returns (found: bool)
      requires Valid()
      modifies nodes`data
      ensures Valid()
      ensures found <==> HasKey(old(View())[hash(key)], key)
      ensures View() == old(View())[hash(key) := SetAll(old(View())[hash(key)], key, data)]
    {
      ghost var b: int := hash(key);
      ghost var v := View();
      ghost var c := chains[b];
      found := SetMatches(key, data, c);
      assert forall j :: 0 <= j < |c| ==> v[b][j].key == c[j].key;
      assert Objs(c) == SetAll(v[b], key, data);
      forall a | 0 <= a < BUCKETS && a != b ensures View()[a] == v[a] {
        assert Homed(a, chains[a]) && Homed(b, c);
        assert forall j :: 0 <= j < |chains[a]| ==> chains[a][j] !in c;
      }
      OneBucketChanged(v, View(), b, SetAll(v[b], key, data));
    }

    lemma ObjsOfPushed(n: Node, c: seq<Node>)
      ensures Objs([n] + c) == [Obj(n.key, n.data)] + Objs(c)
    {
    }

    method PutInFront(n: Node)
      requires Valid() && n !in nodes
      modifies this, first, nodes`pprev, n`next, n`pprev
      ensures Valid() && nodes == old(nodes) + {n}
      ensures View() == old(View())[hash(n.key) := [Obj(n.key, n.data)] + old(View())[hash(n.key)]]
    {
      ghost var b, all, v := hash(n.key), chains, View();
      HashAdd(n);
      ViewOfOneChanged(all, v, b, [n] + all[b]);
      ObjsOfPushed(n, all[b]);
    }

    /** A write of data other than 0. */
    method Upsert(n: Node)
      requires Valid() && n !in nodes && n.data != 0
      modifies this, first, nodes, n`next, n`pprev
      ensures Valid() && nodes <= old(nodes) + {n}
      ensures View() == WriteView(hash, old(View()), n.key, n.data)
    {
      var found := UpdateWalk(n.key, n.data);
      if !found {
        PutInFront(n);
      }
    }

    /** `ht530_drv_driver_write` on the selected table. */
    method Write(key: int, data: int)
      requires Valid()
      modifies this, first, nodes
      ensures Valid() && fresh(nodes - old(nodes))
      ensures View() == WriteView(hash, old(View()), key, data)
    {
      var n := new Node(key, data);
      if data == 0 {
        DeleteWalk(key);
      } else {
        Upsert(n);
      }
    }

    /** The walk of a read: it has no `break`, so the last match is reported. */
    method FindLast(key: int) returns (found: bool, data: int)
      requires Valid()
      ensures LastMatch(View()[hash(key)], key) == if found then Some(data) else None
    {
      ghost var c := chains[hash(key)];
      ghost var objs := Objs(c);
      found, data := false, 0;
      var it := first[hash(key)];
      ghost var i := 0;
      while it != null
        invariant i <= |c| && it == At(c, i)
        invariant LastMatch(objs[..i], key) == if found then Some(data) else None
        decreases |c| - i
      {
        assert objs[..i + 1][..i] == objs[..i];
        if it.key == key {
          data := it.data;
          found := true;
        }
        it := it.next;
        i := i + 1;
      }
      assert objs[..i] == objs;
    }

    /** `ht530_drv_driver_read` on the selected table. */
    method Read(key: int) returns (ret: int, data: int)
      requires Valid()
      ensures data == ReadData(hash, View(), key)
      ensures ret == if HasKey(View()[hash(key)], key) then 1 else -EINVAL
    {
      LastMatchIs(View()[hash(key)], key);
      if first[hash(key)] == null {
        return -EINVAL, -1;
      }
      var found;
      found, data := FindLast(key);
      if found {
        return 1, data;
      }
      return -EINVAL, -1;
    }

    /** The DUMP ioctl on the selected table: it first searches a key that
        hashes to bucket `n`, then copies out at most eight nodes. */
    method Dump(n: int) returns (ret: int, copied: seq<Obj>)
      requires Valid()
      ensures ret == if Reached(hash, n) then 0 else -EINVAL
      ensures ret == 0 ==> 0 <= n < BUCKETS
      ensures copied == if 0 <= n < BUCKETS then DumpBucket(hash, View()[n], n) else []
    {
      var k := 0;
      while k < 1000000
        invariant 0 <= k <= 1000000
        invariant forall j :: 0 <= j < k ==> hash(j) != n
      {
        if hash(k) == n {
          break;
        }
        k := k + 1;
      }
      if k > 128 {
        return -EINVAL, [];
      }
      ghost var c := chains[n];
      ghost var objs := Objs(c);
      copied := [];
      var it := first[hash(k)];
      while it != null
        invariant |copied| <= 8 && |copied| <= |c|
        invariant it == At(c, |copied|)
        invariant copied == objs[..|copied|]
        decreases |c| - |copied|
      {
        if |copied| < 8 {
          copied := copied + [Obj(it.key, it.data)];
        } else {
          break;
        }
        it := it.next;
      }
      ret := 0;
    }

    /** One bucket of the release loop: unlink and free from the head on. */
    method ReleaseBucket(b: int) returns (ghost freed: seq<Node>)
      requires Valid() && 0 <= b < BUCKETS
      modifies this, first, nodes`next, nodes`pprev
      ensures Valid() && nodes <= old(nodes) && chains == old(chains)[b := []]
      ensures freed == old(chains)[b]
      ensures forall x :: x in freed ==> x !in nodes && x.next == null && x.pprev == Unhashed
    {
      ghost var c, i := chains[b], 0;
      freed := [];
      var it := first[b];
      while it != null
        invariant Valid() && nodes <= old(nodes)
        invariant i <= |c| && chains == old(chains)[b := c[i..]] && it == At(c, i)
        invariant freed == c[..i]
        invariant forall x :: x in freed ==> x !in nodes && x.next == null && x.pprev == Unhashed
        decreases |c| - i
      {
        var following := it.next;
        assert chains[b][0] == c[i] == it;
        assert chains[b][..0] + chains[b][1..] == c[i + 1..];
        HashDel(it, b, 0);
        freed := freed + [it];
        it := following;
        i := i + 1;
      }
    }

    /** `ht530_drv_driver_release` on the selected table: every linked node is
        unlinked and freed exactly once. */
    method Release() returns (ghost freed: seq<Node>)
      requires Valid()
      modifies this, first, nodes`next, nodes`pprev
      ensures Valid() && nodes == {} && View() == EmptyView()
      ensures freed == Joined(old(chains), BUCKETS)
      ensures forall x :: x in freed ==> x.next == null && x.pprev == Unhashed
    {
      ghost var all := chains;
      freed := [];
      for b := 0 to BUCKETS
        invariant Valid() && nodes <= old(nodes)
        invariant forall a :: b <= a < BUCKETS ==> chains[a] == all[a]
        invariant freed == Joined(all, b)
        invariant forall x :: x in freed ==> x !in nodes && x.next == null && x.pprev == Unhashed
      {
        ghost var more := ReleaseBucket(b);
        freed := freed + more;
      }
      HashInit();
    }
  }

  const EINVAL: int := 22
}
