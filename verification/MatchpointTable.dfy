/** The chained hash table that remembers the debugger's breakpoints and watchpoints. */
module MatchpointTable {
  const MP_HASH_SIZE: nat := 1021

  type Word = x: int | 0 <= x < 0x1_0000_0000

  /** A matchpoint is identified by its type (the digit of the 'Z' packet) and its address. */
  datatype Key = Key(kind: nat, addr: Word)

  function Hash(k: Key): (h: nat)
    ensures h < MP_HASH_SIZE
  {
    k.addr % MP_HASH_SIZE
  }

  /** Addresses less than the table's size apart are in different buckets. */
  lemma NeighboursSpread(j: Key, k: Key)
    requires j.addr < k.addr < j.addr + MP_HASH_SIZE
    ensures Hash(j) != Hash(k)
  {
  }

  /** `struct mp_entry`; only the link is ever rewritten. */
  class Entry {
    const key: Key
    const instr: Word
    var next: Entry?

    constructor (key: Key, instr: Word, next: Entry?)
      ensures this.key == key && this.instr == instr && this.next == next
    {
      this.key, this.instr, this.next := key, instr, next;
    }
  }

  /** The j-th entry of a chain, or null one past its end. */
  ghost function At(c: seq<Entry>, j: nat): Entry?
    requires j <= |c|
  {
    if j < |c| then c[j] else null
  }

  /** Following the links from `head` visits exactly the entries of `c`, in order. */
  ghost predicate Linked(head: Entry?, c: seq<Entry>)
    reads c
  {
    && head == At(c, 0)
    && forall j :: 0 <= j < |c| ==> c[j].next == At(c, j + 1)
  }

  ghost predicate HasKey(c: seq<Entry>, k: Key) {
    exists j :: 0 <= j < |c| && c[j].key == k
  }

  /** The chain of bucket h holds exactly the keys of `m` that hash to h, once each. */
  ghost predicate Represents(c: seq<Entry>, h: nat, m: map<Key, Word>) {
    && (forall j :: 0 <= j < |c| ==>
          Hash(c[j].key) == h && c[j].key in m && m[c[j].key] == c[j].instr)
    && (forall i, j :: 0 <= i < j < |c| ==> c[i].key != c[j].key)
    && (forall k :: k in m && Hash(k) == h ==> HasKey(c, k))
  }

  lemma ChainGrows(c: seq<Entry>, e: Entry, m: map<Key, Word>)
    requires Represents(c, Hash(e.key), m) && e.key !in m
    ensures Represents([e] + c, Hash(e.key), m[e.key := e.instr])
  {
    var d, n := [e] + c, m[e.key := e.instr];
    forall k | k in n && Hash(k) == Hash(e.key)
      ensures HasKey(d, k)
    {
      if k == e.key {
        assert d[0].key == k;
      } else {
        var j :| 0 <= j < |c| && c[j].key == k;
        assert d[j + 1].key == k;
      }
    }
  }

  lemma ChainShrinks(c: seq<Entry>, p: nat, m: map<Key, Word>)
    requires p < |c| && Represents(c, Hash(c[p].key), m)
    ensures Represents(c[..p] + c[p + 1..], Hash(c[p].key), m - {c[p].key})
  {
    var d, n := c[..p] + c[p + 1..], m - {c[p].key};
    forall k | k in n && Hash(k) == Hash(c[p].key)
      ensures HasKey(d, k)
    {
      var j :| 0 <= j < |c| && c[j].key == k;
      assert j != p;
      assert d[if j < p then j else j - 1].key == k;
    }
  }

  lemma LinkGrows(head: Entry?, c: seq<Entry>, e: Entry)
    requires Linked(head, c) && e.next == head
    ensures Linked(e, [e] + c)
  {
    forall j | 0 <= j < |c| + 1
      ensures ([e] + c)[j].next == At([e] + c, j + 1)
    {
      if j > 0 {
        assert c[j - 1].next == At(c, j);
      }
    }
  }

  lemma Links(head: Entry?, c: seq<Entry>)
    requires Linked(head, c)
    ensures head == At(c, 0)
    ensures forall j :: 0 <= j < |c| ==> c[j].next == At(c, j + 1)
  {
  }

  /** What remains once the one link that led to the p-th entry leads past it. */
  lemma LinkShrinks(head: Entry?, c: seq<Entry>, p: nat)
    requires p < |c|
    requires forall j :: 0 <= j < |c| && j + 1 != p ==> c[j].next == At(c, j + 1)
    requires p == 0 ==> head == At(c, 1)
    requires p > 0 ==> head == At(c, 0) && c[p - 1].next == At(c, p + 1)
    ensures Linked(head, c[..p] + c[p + 1..])
  {
    var d := c[..p] + c[p + 1..];
    forall j | 0 <= j < |d|
      ensures d[j].next == At(d, j + 1)
    {
      assert d[j] == c[if j < p then j else j + 1];
    }
  }

  lemma Distinct(c: seq<Entry>, h: nat, m: map<Key, Word>)
    requires Represents(c, h, m)
    ensures forall i, j :: 0 <= i < j < |c| ==> c[i] != c[j]
    ensures forall j :: 0 <= j < |c| ==> Hash(c[j].key) == h && c[j].key in m && m[c[j].key] == c[j].instr
  {
    forall i, j | 0 <= i < j < |c|
      ensures c[i] != c[j]
    {
      assert c[i].key != c[j].key;
    }
  }

  lemma SearchFails(c: seq<Entry>, h: nat, m: map<Key, Word>, k: Key)
    requires Represents(c, h, m) && h == Hash(k)
    requires forall j :: 0 <= j < |c| ==> c[j].key != k
    ensures k !in m
  {
  }

  lemma OtherChains(c: seq<Entry>, h: nat, m: map<Key, Word>, n: map<Key, Word>, k: Key)
    requires Represents(c, h, m) && Hash(k) != h
    requires n.Keys <= m.Keys + {k} && m.Keys <= n.Keys + {k}
    requires forall q :: q in m && q in n && q != k ==> m[q] == n[q]
    ensures Represents(c, h, n)
  {
    forall q | q in n && Hash(q) == h
      ensures HasKey(c, q)
    {
      assert q in n.Keys;
    }
    forall j | 0 <= j < |c|
      ensures c[j].key in n && n[c[j].key] == c[j].instr
    {
      assert c[j].key in m.Keys;
    }
  }

  class Table {
    var buckets: array<Entry?>
    ghost var chains: seq<seq<Entry>>
    ghost var entries: map<Key, Word>
    ghost var repr: set<object>

    ghost predicate Bucket(h: nat)
      reads this, buckets, repr
      requires h < buckets.Length && h < |chains|
      requires forall j :: 0 <= j < |chains[h]| ==> chains[h][j] in repr
    {
      Linked(buckets[h], chains[h]) && Represents(chains[h], h, entries)
    }

    ghost predicate Valid()
      reads this, repr
    {
      && this in repr && buckets in repr
      && buckets.Length == MP_HASH_SIZE == |chains|
      && (forall h, j :: 0 <= h < MP_HASH_SIZE && 0 <= j < |chains[h]| ==> chains[h][j] in repr)
      && (forall h :: 0 <= h < MP_HASH_SIZE ==> Bucket(h))
    }

    /** `mp_hash_init` */
    constructor ()
      ensures Valid() && fresh(repr) && entries == map[]
    {
      buckets := new Entry?[MP_HASH_SIZE](_ => null);
      chains := seq(MP_HASH_SIZE, _ => []);
      entries := map[];
      new;
      repr := {this, buckets};
    }

    /** The search all three operations make: the entry for `k` and the one before it. */
    method Find(k: Key) returns (prev: Entry?, e: Entry?, ghost p: nat)
      requires Valid()
      ensures p <= |chains[Hash(k)]|
      ensures e != null ==> p < |chains[Hash(k)]| && e == chains[Hash(k)][p]
      ensures prev == if p == 0 then null else chains[Hash(k)][p - 1]
      ensures e == null <==> k !in entries
      ensures e != null ==> e.key == k && e.instr == entries[k]
    {
      hide Represents, Hash;
      var h := Hash(k);
      ghost var c := chains[h];
      assert Bucket(h);
      prev, e, p := null, buckets[h], 0;
      Distinct(c, h, entries);
      while e != null
        invariant 0 <= p <= |c| && e == At(c, p)
        invariant prev == if p == 0 then null else c[p - 1]
        invariant forall j :: 0 <= j < p ==> c[j].key != k
        decreases |c| - p
      {
        if e.key == k {
          return;
        }
        prev, e, p := e, e.next, p + 1;
      }
      SearchFails(c, h, entries, k);
    }

    /** `mp_hash_lookup` */
    method Lookup(k: Key) returns (e: Entry?)
      requires Valid()
      ensures e == null <==> k !in entries
      ensures e != null ==> e.key == k && e.instr == entries[k]
    {
      hide *;
      ghost var p;
      var prev;
      prev, e, p := Find(k);
    }

    /** `mp_hash_add`: an entry that is there already is left alone. */
    method Add(k: Key, instr: Word)
      requires Valid()
      modifies repr
      ensures Valid() && fresh(repr - old(repr))
      ensures entries == if k in old(entries) then old(entries) else old(entries)[k := instr]
    {
      hide Represents, Linked, Hash, At;
      var h := Hash(k);
      var e := Lookup(k);
      if e != null {
        return;
      }
      assert Bucket(h);
      e := new Entry(k, instr, buckets[h]);
      ChainGrows(chains[h], e, entries);
      LinkGrows(buckets[h], chains[h], e);
      buckets[h] := e;
      chains := chains[h := [e] + chains[h]];
      entries := entries[k := instr];
      repr := repr + {e};
      forall g | 0 <= g < MP_HASH_SIZE
        ensures Bucket(g)
      {
        if g != h {
          assert old(Bucket(g));
          OtherChains(chains[g], g, old(entries), entries, k);
        }
      }
    }

    /** `mp_hash_delete`: unlinks the entry, which the caller then owns. */
    method Delete(k: Key) returns (e: Entry?)
      requires Valid()
      modifies repr
      ensures Valid() && repr == old(repr)
      ensures e == null <==> k !in old(entries)
      ensures e != null ==> e.key == k && e.instr == old(entries)[k]
      ensures entries == old(entries) - {k}
    {
      hide Represents, Linked, Hash, At;
      var h := Hash(k);
      var prev;
      ghost var p;
      prev, e, p := Find(k);
      if e == null {
        assert entries == entries - {k};
        return;
      }
      ghost var c := chains[h];
      assert Bucket(h);
      Distinct(c, h, entries);
      ChainShrinks(c, p, entries);
      Links(buckets[h], c);
      if prev == null {
        buckets[h] := e.next;
      } else {
        prev.next := e.next;
      }
      LinkShrinks(buckets[h], c, p);
      entries := entries - {k};
      chains := chains[h := c[..p] + c[p + 1..]];
      forall g | 0 <= g < MP_HASH_SIZE
        ensures Bucket(g)
      {
        assert old(Bucket(g));
        if g != h {
          Distinct(chains[g], g, old(entries));
          OtherChains(chains[g], g, old(entries), entries, k);
        }
      }
    }
  }
}
