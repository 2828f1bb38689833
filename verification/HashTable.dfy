/**
 The chained hash table, with its links rewritten in place.  What it stands for is the finite set
 `entries` of live entries (each with its own key and value, so equal keys may occur twice).
 */
module HashTable {
  import opened Wrappers
  import opened LoadFactor
  import Bits

  // What keys and values point to, the table never looks at.
  type Key
  type Value

  class Entry {
    var next: Entry?
    const keyHash: nat
    const key: Key
    const value: Value

    constructor (keyHash: nat, key: Key, value: Value)
      ensures this.keyHash == keyHash && this.key == key && this.value == value
    {
      this.keyHash, this.key, this.value, next := keyHash, key, value, null;
    }
  }

  // The list that starts at head is exactly c.
  ghost predicate IsChain(head: Entry?, c: seq<Entry>)
    reads c
  {
    && (|c| == 0 ==> head == null)
    && (|c| > 0 ==> head == c[0] && c[|c| - 1].next == null)
    && (forall j {:trigger c[j].next} | 0 <= j < |c| - 1 :: c[j].next == c[j + 1])
  }

  ghost predicate Distinct<T>(s: seq<T>) {
    forall i, j | 0 <= i < j < |s| :: s[i] != s[j]
  }

  lemma {:induction false} DistinctInSet(s: seq<Entry>, all: set<Entry>)
    requires Distinct(s) && forall e | e in s :: e in all
    ensures |s| <= |all|
  {
    if |s| > 0 {
      var e, t := s[|s| - 1], s[..|s| - 1];
      assert forall j | 0 <= j < |t| :: t[j] == s[j];
      DistinctInSet(t, all - {e});
    }
  }

  // Every entry is once in the chain of its hash, and the chains hold nothing else.
  ghost predicate Placed(chains: seq<seq<Entry>>, entries: set<Entry>) {
    && (forall i, e | 0 <= i < |chains| && e in chains[i] :: e in entries && GetIndex(e.keyHash, |chains|) == i)
    && (forall e | e in entries ::
        GetIndex(e.keyHash, |chains|) < |chains| && e in chains[GetIndex(e.keyHash, |chains|)])
    && (forall i | 0 <= i < |chains| :: Distinct(chains[i]))
  }

  // The buckets hold the heads of the chains.
  ghost predicate Linked(buckets: array<Entry?>, chains: seq<seq<Entry>>, entries: set<Entry>)
    requires Placed(chains, entries)
    reads buckets, entries
  {
    buckets.Length == |chains| && forall i | 0 <= i < |chains| :: IsChain(buckets[i], chains[i])
  }

  ghost predicate Table(buckets: array<Entry?>, chains: seq<seq<Entry>>, entries: set<Entry>)
    reads buckets, entries
  {
    Placed(chains, entries) && Linked(buckets, chains, entries)
  }

  // ---- slist.h -----------------------------------------------------------------------------------

  method SlistPrepend(buckets: array<Entry?>, index: nat, item: Entry, ghost c: seq<Entry>)
    requires index < buckets.Length && IsChain(buckets[index], c) && item !in c
    modifies buckets, item`next
    ensures IsChain(buckets[index], [item] + c)
    ensures forall j | 0 <= j < buckets.Length && j != index :: buckets[j] == old(buckets[j])
  {
    assert IsChain(buckets[index], c);
    item.next := buckets[index];
    buckets[index] := item;
    ghost var d := [item] + c;
    forall j {:trigger d[j].next} | 0 <= j < |d| - 1
      ensures d[j].next == d[j + 1]
    {
      if j > 0 {
        assert d[j] == c[j - 1] && d[j + 1] == c[j] && c[j - 1] in c;
      }
    }
    assert |c| > 0 ==> d[|d| - 1] == c[|c| - 1] && c[|c| - 1] in c;
  }

  // Unlinks c[k]; `previous` is the item in front of it, or null for the head.
  method SlistRemove(buckets: array<Entry?>, index: nat, previous: Entry?, item: Entry,
                           ghost c: seq<Entry>, ghost k: nat)
    requires index < buckets.Length && IsChain(buckets[index], c) && Distinct(c)
    requires k < |c| && item == c[k] && previous == if k == 0 then null else c[k - 1]
    modifies if previous == null then {buckets} else {}, if previous == null then {} else {previous}
    ensures IsChain(buckets[index], c[..k] + c[k + 1..])
    ensures forall j | 0 <= j < buckets.Length && j != index :: buckets[j] == old(buckets[j])
    ensures item.next == old(item.next)
  {
    assert IsChain(buckets[index], c);
    if previous != null {
      previous.next := item.next;
    } else {
      buckets[index] := item.next;
    }
    ghost var d := c[..k] + c[k + 1..];
    assert forall j {:trigger d[j]} | 0 <= j < |d| :: d[j] == if j < k then c[j] else c[j + 1];
    assert forall j {:trigger c[j].next} | 0 <= j < |c| && c[j] != previous :: c[j].next == old(c[j].next);
  }

  // ---- Chains as values ---------------------------------------------------------------------------

  lemma PopChain(head: Entry, c: seq<Entry>)
    requires IsChain(head, c)
    ensures |c| > 0 && head == c[0] && IsChain(head.next, c[1..])
  {
    var d := c[1..];
    assert forall j {:trigger d[j]} | 0 <= j < |d| :: d[j] == c[j + 1];
    assert |d| > 0 ==> c[0].next == c[1];
    forall j {:trigger d[j].next} | 0 <= j < |d| - 1
      ensures d[j].next == d[j + 1]
    {
      assert c[j + 1].next == c[j + 2];
    }
  }

  lemma PlacedAdd(chains: seq<seq<Entry>>, entries: set<Entry>, e: Entry, index: nat)
    requires Placed(chains, entries) && e !in entries && index == GetIndex(e.keyHash, |chains|) < |chains|
    ensures Placed(chains[index := [e] + chains[index]], entries + {e})
  {
    var d := chains[index := [e] + chains[index]];
    assert forall i, x | 0 <= i < |d| :: x in d[i] <==> x in chains[i] || (i == index && x == e);
    assert Distinct(d[index]) by {
      assert forall j {:trigger d[index][j]} | 1 <= j < |d[index]| :: d[index][j] == chains[index][j - 1];
    }
  }

  lemma PlacedRemove(chains: seq<seq<Entry>>, entries: set<Entry>, index: nat, k: nat)
    requires Placed(chains, entries) && index < |chains| && k < |chains[index]|
    ensures Placed(chains[index := chains[index][..k] + chains[index][k + 1..]], entries - {chains[index][k]})
  {
    var c := chains[index];
    var d := chains[index := c[..k] + c[k + 1..]];
    assert forall j {:trigger d[index][j]} | 0 <= j < |d[index]| :: d[index][j] == if j < k then c[j] else c[j + 1];
    forall x | x in c && x != c[k]
      ensures x in d[index]
    {
      var j :| 0 <= j < |c| && c[j] == x;
      assert d[index][if j < k then j else j - 1] == x;
    }
    forall x | x in d[index]
      ensures x in c && x != c[k]
    {
      var j :| 0 <= j < |d[index]| && d[index][j] == x;
      var m := if j < k then j else j + 1;
      assert c[m] == x && m != k;
      assert Distinct(chains[index]);
      assert c[m] != c[k];
    }
    assert c[k] in chains[index];
    forall i, x | 0 <= i < |d| && x in d[i]
      ensures x in entries - {c[k]} && GetIndex(x.keyHash, |d|) == i
    {
      if i == index {
        assert x in d[index];
      } else {
        assert d[i] == chains[i];
      }
      assert x in chains[i] && GetIndex(x.keyHash, |chains|) == i;
      assert GetIndex(c[k].keyHash, |chains|) == index;
    }
  }

  // Puts an entry in front of its chain in a table under construction.
  method Relink(buckets: array<Entry?>, entry: Entry, ghost chains: seq<seq<Entry>>,
                      ghost entries: set<Entry>)
      returns (ghost chains': seq<seq<Entry>>)
    requires Table(buckets, chains, entries)
    requires entry !in entries && IsPow2(buckets.Length) && buckets.Length < SIZE_MAX_PLUS_1
    modifies buckets, entry`next
    ensures Table(buckets, chains', entries + {entry})
  {
    hide IsChain;
    IndexIsModulo(entry.keyHash, buckets.Length);
    var index := GetIndex(entry.keyHash, buckets.Length);
    PlacedAdd(chains, entries, entry, index);
    SlistPrepend(buckets, index, entry, chains[index]);
    chains' := chains[index := [entry] + chains[index]];
    assert forall i | 0 <= i < |chains| && i != index :: entry !in chains[i];
  }

  // What is left of a table that is being taken apart: the list c at head, and the buckets from i on.
  ghost predicate Rest(buckets: array<Entry?>, chains: seq<seq<Entry>>, i: nat,
                             head: Entry?, c: seq<Entry>, left: set<Entry>)
    reads buckets, left
  {
    && i <= |chains| == buckets.Length
    && (forall e | e in c :: e in left && GetIndex(e.keyHash, |chains|) < i)
    && (forall e | e in left ::
          e in c || (i <= GetIndex(e.keyHash, |chains|) < |chains| && e in chains[GetIndex(e.keyHash, |chains|)]))
    && (forall k | i <= k < |chains| ::
          (forall e | e in chains[k] :: e in left && GetIndex(e.keyHash, |chains|) == k) && Distinct(chains[k]))
    && Distinct(c) && IsChain(head, c)
    && (forall k | i <= k < |chains| :: IsChain(buckets[k], chains[k]))
  }

  lemma RestAtStart(buckets: array<Entry?>, chains: seq<seq<Entry>>, entries: set<Entry>)
    requires Table(buckets, chains, entries)
    ensures Rest(buckets, chains, 0, null, [], entries)
  {
    hide IsChain;
    assert IsChain(null, []) by {
      EmptyChain();
    }
  }

  lemma EmptyChain()
    ensures IsChain(null, [])
  {
  }

  lemma RestNextBucket(buckets: array<Entry?>, chains: seq<seq<Entry>>, i: nat, c: seq<Entry>, left: set<Entry>)
    requires Rest(buckets, chains, i, null, c, left) && i < |chains|
    ensures Rest(buckets, chains, i + 1, buckets[i], chains[i], left)
  {
    assert |c| == 0;
    hide IsChain;
  }

  lemma RestDone(buckets: array<Entry?>, chains: seq<seq<Entry>>, c: seq<Entry>, left: set<Entry>)
    requires Rest(buckets, chains, |chains|, null, c, left)
    ensures left == {}
  {
    assert |c| == 0;
  }

  lemma RestNextEntry(buckets: array<Entry?>, chains: seq<seq<Entry>>, i: nat, head: Entry, c: seq<Entry>,
                      left: set<Entry>)
    requires Rest(buckets, chains, i, head, c, left)
    ensures head in left && |c| > 0 && Rest(buckets, chains, i, head.next, c[1..], left - {head})
  {
    PopChain(head, c);
    hide IsChain;
    assert head in c;
  }

  // A table being rebuilt: `moved` is in the new one, the rest still in the old one.
  ghost predicate Rebuilding(newBuckets: array<Entry?>, newChains: seq<seq<Entry>>, moved: set<Entry>,
                             buckets: array<Entry?>, chains: seq<seq<Entry>>, i: nat, head: Entry?, c: seq<Entry>,
                             entries: set<Entry>)
    reads newBuckets, buckets, entries
  {
    && moved <= entries && newBuckets != buckets
    && Table(newBuckets, newChains, moved)
    && Rest(buckets, chains, i, head, c, entries - moved)
    && (entries != {} ==> IsPow2(newBuckets.Length) && newBuckets.Length < SIZE_MAX_PLUS_1)
  }

  lemma RebuildStart(newBuckets: array<Entry?>, newChains: seq<seq<Entry>>, buckets: array<Entry?>,
                     chains: seq<seq<Entry>>, entries: set<Entry>)
    requires newBuckets != buckets && Table(buckets, chains, entries)
    requires |newChains| == newBuckets.Length
    requires forall k | 0 <= k < newBuckets.Length :: newBuckets[k] == null && newChains[k] == []
    requires entries != {} ==> IsPow2(newBuckets.Length) && newBuckets.Length < SIZE_MAX_PLUS_1
    ensures Rebuilding(newBuckets, newChains, {}, buckets, chains, 0, null, [], entries)
    ensures |chains| == buckets.Length
  {
    RestAtStart(buckets, chains, entries);
    hide Rest;
    assert entries - {} == entries;
  }

  lemma RebuildNextBucket(newBuckets: array<Entry?>, newChains: seq<seq<Entry>>, moved: set<Entry>,
                          buckets: array<Entry?>, chains: seq<seq<Entry>>, i: nat, c: seq<Entry>, entries: set<Entry>)
    requires Rebuilding(newBuckets, newChains, moved, buckets, chains, i, null, c, entries) && i < buckets.Length
    ensures i < |chains|
    ensures Rebuilding(newBuckets, newChains, moved, buckets, chains, i + 1, buckets[i], chains[i], entries)
  {
    assert i < |chains|;
    RestNextBucket(buckets, chains, i, c, entries - moved);
    hide Rest, Table;
  }

  lemma RebuildDone(newBuckets: array<Entry?>, newChains: seq<seq<Entry>>, moved: set<Entry>,
                    buckets: array<Entry?>, chains: seq<seq<Entry>>, c: seq<Entry>, entries: set<Entry>)
    requires Rebuilding(newBuckets, newChains, moved, buckets, chains, |chains|, null, c, entries)
    ensures moved == entries && Table(newBuckets, newChains, entries)
  {
    RestDone(buckets, chains, c, entries - moved);
    hide Rest, Table;
    assert entries == moved + (entries - moved);
  }

  lemma RebuildHead(newBuckets: array<Entry?>, newChains: seq<seq<Entry>>, moved: set<Entry>,
                    buckets: array<Entry?>, chains: seq<seq<Entry>>, i: nat, head: Entry, c: seq<Entry>,
                    entries: set<Entry>)
    requires Rebuilding(newBuckets, newChains, moved, buckets, chains, i, head, c, entries)
    ensures head in entries && head !in moved
  {
    RestNextEntry(buckets, chains, i, head, c, entries - moved);
  }

  // Takes the entry at the head of the old list and puts it in front of its new chain.
  method RebuildNextEntry(newBuckets: array<Entry?>, entry: Entry, ghost newChains: seq<seq<Entry>>,
                          ghost moved: set<Entry>, ghost buckets: array<Entry?>,
                          ghost chains: seq<seq<Entry>>, ghost i: nat, ghost c: seq<Entry>,
                          ghost entries: set<Entry>)
      returns (next: Entry?, ghost newChains': seq<seq<Entry>>)
    requires Rebuilding(newBuckets, newChains, moved, buckets, chains, i, entry, c, entries)
    modifies newBuckets, entry`next
    ensures entry !in moved && entry in entries && |c| > 0
    ensures Rebuilding(newBuckets, newChains', moved + {entry}, buckets, chains, i, next, c[1..], entries)
  {
    RestNextEntry(buckets, chains, i, entry, c, entries - moved);
    hide Rest, Table;
    next := entry.next;
    assert entries - moved - {entry} == entries - (moved + {entry});
    newChains' := Relink(newBuckets, entry, newChains, moved);
  }

  // What has been cleared, and what is left.
  ghost predicate Cleared(cleared: seq<Value>, visited: seq<Entry>, left: set<Entry>, entries: set<Entry>) {
    && Distinct(visited) && (forall e | e in visited :: e in entries && e !in left)
    && left <= entries && (forall e | e in entries :: e in visited || e in left)
    && |cleared| == |visited| && forall m | 0 <= m < |visited| :: cleared[m] == visited[m].value
  }

  lemma ClearedAll(cleared: seq<Value>, visited: seq<Entry>, left: set<Entry>, entries: set<Entry>)
    requires Cleared(cleared, visited, left, entries) && |left| == 0
    ensures Distinct(visited) && (forall e :: e in visited <==> e in entries)
    ensures |cleared| == |visited| && forall m | 0 <= m < |visited| :: cleared[m] == visited[m].value
  {
  }

  lemma ClearedNext(cleared: seq<Value>, visited: seq<Entry>, left: set<Entry>, entries: set<Entry>, e: Entry)
    requires Cleared(cleared, visited, left, entries) && e in left
    ensures Cleared(cleared + [e.value], visited + [e], left - {e}, entries)
  {
  }

  // The table when a sweep began.
  datatype Before = Before(entries: set<Entry>, freed: set<Entry>, removals: nat)

  class HashTable {
    var nentries: nat
    var nbuckets: nat
    var buckets: array<Entry?>
    ghost var chains: seq<seq<Entry>>
    ghost var entries: set<Entry>
    ghost var freed: set<Entry>       // the entries given back to the allocator

    // How many entries rehashing has relinked, and how many sets and removals there have been.
    ghost var relinked: nat
    ghost var sets: nat
    ghost var removals: nat

    ghost predicate Structure()
      reads this, buckets, entries
    {
      && nbuckets == buckets.Length < SIZE_MAX_PLUS_1
      && (IsPow2(nbuckets) || (nbuckets == 0 && entries == {}))
      && Table(buckets, chains, entries)
    }

    ghost predicate Valid()
      reads this, buckets, entries
    {
      && Structure() && entries !! freed
      && nentries == |entries| <= MAX_ENTRIES
      && !TooFull(nentries, nbuckets)
      && 80 * relinked + Credit(nentries, nbuckets) <= 240 * sets + 80 * removals + 272
    }

    constructor ()
      ensures Valid() && fresh(buckets) && entries == {} && nbuckets == 16
      ensures relinked == 0 && sets == 0 && removals == 0 && freed == {}
    {
      nentries, nbuckets := 0, HASHTABLE_MIN_SIZE;
      var bs := new Entry?[HASHTABLE_MIN_SIZE](_ => null);
      buckets := bs;
      chains := seq(HASHTABLE_MIN_SIZE, _ => []);
      entries, freed := {}, {};
      relinked, sets, removals := 0, 0, 0;
      new;
      assert Bits.Pow2(4) == HASHTABLE_MIN_SIZE;
    }

    // Over any run, three entries relinked for every set and one for every removal, and at most three more.
    lemma RelinkBound()
      requires Valid()
      ensures relinked <= 3 * sets + removals + 3
    {
    }

    // The load stays at most 3/4, and a table without buckets is empty.
    lemma BucketCount()
      requires Valid()
      ensures IsPow2(nbuckets) || (nbuckets == 0 && entries == {})
      ensures 4 * |entries| <= 3 * nbuckets
    {
    }

    // Rebuilds the chains for the bucket count that fits nentries.  `hasMemory` says whether calloc succeeds.
    method Rehash(hasMemory: bool) returns (ok: bool)
      requires Structure() && |entries| <= nentries <= MAX_ENTRIES
      modifies this`nbuckets, this`buckets, this`chains, this`relinked, entries
      ensures Structure()
      ensures ok <==> hasMemory || RehashSize(nentries) == old(nbuckets)
      ensures nbuckets == if ok then RehashSize(nentries) else old(nbuckets)
      ensures relinked == old(relinked) + if ok && nbuckets != old(nbuckets) then |entries| else 0
      ensures buckets == old(buckets) || fresh(buckets)
    {
      hide Table, RehashSize;
      var numBuckets := RehashSize(nentries);
      if numBuckets == nbuckets {
        return true;
      }
      if !hasMemory {
        return false;
      }
      if nentries > 0 {
        RehashLoad(nentries);
      } else {
        RehashOfNone();
      }
      var newBuckets := new Entry?[numBuckets](_ => null);
      ghost var newChains := RelinkAll(newBuckets);
      nbuckets := numBuckets;
      buckets := newBuckets;
      chains := newChains;
      return true;
    }

    // Moves every entry of the old chains, in their order, to the front of its new chain.
    method RelinkAll(newBuckets: array<Entry?>) returns (ghost newChains: seq<seq<Entry>>)
      requires Structure() && newBuckets != buckets && forall k | 0 <= k < newBuckets.Length :: newBuckets[k] == null
      requires entries != {} ==> IsPow2(newBuckets.Length) && newBuckets.Length < SIZE_MAX_PLUS_1
      modifies newBuckets, this`relinked, entries
      ensures Table(newBuckets, newChains, entries)
      ensures relinked == old(relinked) + |entries|
    {
      newChains := seq(newBuckets.Length, _ => []);
      ghost var moved: set<Entry>, c: seq<Entry> := {}, [];
      var i := 0;
      hide Rebuilding, Table;
      RebuildStart(newBuckets, newChains, buckets, chains, entries);
      ghost var before := relinked;
      hide Structure, IsPow2;
      while i < nbuckets
        invariant i <= nbuckets == |chains| == buckets.Length
        invariant Rebuilding(newBuckets, newChains, moved, buckets, chains, i, null, c, entries)
        invariant relinked == before + |moved|
      {
        newChains, moved, c := RelinkChain(newBuckets, i, newChains, moved, c);
        i := i + 1;
      }
      RebuildDone(newBuckets, newChains, moved, buckets, chains, c, entries);
    }

    method RelinkChain(newBuckets: array<Entry?>, i: nat, ghost newChains0: seq<seq<Entry>>, ghost moved0: set<Entry>,
                       ghost c0: seq<Entry>)
        returns (ghost newChains: seq<seq<Entry>>, ghost moved: set<Entry>, ghost c: seq<Entry>)
      requires i < buckets.Length && Rebuilding(newBuckets, newChains0, moved0, buckets, chains, i, null, c0, entries)
      modifies newBuckets, this`relinked, entries
      ensures Rebuilding(newBuckets, newChains, moved, buckets, chains, i + 1, null, c, entries)
      ensures relinked + |moved0| == old(relinked) + |moved|
    {
      RebuildNextBucket(newBuckets, newChains0, moved0, buckets, chains, i, c0, entries);
      hide Rebuilding;
      newChains, moved, c := newChains0, moved0, chains[i];
      var entry := buckets[i];
      while entry != null
        invariant Rebuilding(newBuckets, newChains, moved, buckets, chains, i + 1, entry, c, entries)
        invariant relinked + |moved0| == old(relinked) + |moved|
        decreases |c|
      {
        RebuildHead(newBuckets, newChains, moved, buckets, chains, i + 1, entry, c, entries);
        var next;
        next, newChains := RebuildNextEntry(newBuckets, entry, newChains, moved, buckets, chains, i + 1, c, entries);
        moved, c, relinked := moved + {entry}, c[1..], relinked + 1;
        entry := next;
      }
    }

    // hashtable_min_set.  Either malloc fails, or calloc fails in a rehash the set asks for, and nothing
    // changes; or there is one more entry.
    method MinSet(value: Value, key: Key, hash: nat, entryMemory: bool, bucketMemory: bool)
        returns (ok: bool, ghost added: Entry?)
      requires Valid() && (entryMemory ==> nentries < MAX_ENTRIES)
      modifies this, buckets, entries
      ensures Valid()
      ensures ok <==> entryMemory && (bucketMemory || !TooFull(old(nentries) + 1, old(nbuckets)))
      ensures !ok ==> entries == old(entries) && nbuckets == old(nbuckets) && sets == old(sets)
      ensures ok ==> added != null && fresh(added) && added.value == value && added.key == key && added.keyHash == hash
      ensures ok ==> entries == old(entries) + {added} && nbuckets > 0 && sets == old(sets) + 1
      ensures nbuckets == if ok && TooFull(|entries|, old(nbuckets)) then RehashSize(|entries|) else old(nbuckets)
      ensures ok ==> 4 * |entries| <= 3 * nbuckets
      ensures ok && 4 * |entries| <= 3 * old(nbuckets) ==> nbuckets == old(nbuckets)
      ensures relinked == old(relinked) + if nbuckets != old(nbuckets) then |old(entries)| else 0
      ensures ok ==> freed == old(freed)
      ensures !ok ==> old(freed) <= freed && fresh(freed - old(freed))
      ensures removals == old(removals) && (buckets == old(buckets) || fresh(buckets))
    {
      hide Table, Credit, RehashSize, IsPow2, TooFull;
      added := null;
      if !entryMemory {
        return false, null;
      }
      var entry := new Entry(hash, key, value);
      var room := MakeRoom(bucketMemory);
      if !room {
        freed := freed + {entry};
        return false, null;
      }
      hide Valid;
      Insert(entry);
      return true, entry;
    }

    // Puts the new entry, which has been counted, in front of its chain.
    method Insert(entry: Entry)
      requires Structure() && IsPow2(nbuckets) && entry !in entries && entry !in freed && entries !! freed
      requires nentries == |entries| + 1 <= MAX_ENTRIES && !TooFull(nentries, nbuckets)
      requires 80 * relinked + Credit(nentries, nbuckets) <= 240 * (sets + 1) + 80 * removals + 272
      modifies this`chains, this`entries, this`sets, buckets, entry`next
      ensures Valid() && entries == old(entries) + {entry} && nentries == |entries| && sets == old(sets) + 1
    {
      hide Table, Credit, RehashSize, IsPow2, TooFull;
      chains := Relink(buckets, entry, chains, entries);
      entries := entries + {entry};
      sets := sets + 1;
    }

    // Counts the new entry in and lets the table grow for it; takes the count back if calloc fails.
    method MakeRoom(bucketMemory: bool) returns (ok: bool)
      requires Valid() && nentries < MAX_ENTRIES
      modifies this`nentries, this`nbuckets, this`buckets, this`chains, this`relinked, entries
      ensures Structure() && (buckets == old(buckets) || fresh(buckets))
      ensures ok <==> bucketMemory || !TooFull(old(nentries) + 1, old(nbuckets))
      ensures !ok ==> Valid() && nbuckets == old(nbuckets)
      ensures ok ==> nentries == old(nentries) + 1 && nbuckets > 0 && !TooFull(nentries, nbuckets) && IsPow2(nbuckets)
      ensures ok ==> 80 * relinked + Credit(nentries, nbuckets) <= 240 * (sets + 1) + 80 * removals + 272
      ensures ok ==> nbuckets == if TooFull(nentries, old(nbuckets)) then RehashSize(nentries) else old(nbuckets)
      ensures ok ==> 4 * nentries <= 3 * nbuckets
      ensures ok && 4 * nentries <= 3 * old(nbuckets) ==> nbuckets == old(nbuckets)
      ensures relinked == old(relinked) + if nbuckets != old(nbuckets) then |entries| else 0
    {
      hide Table, Credit, RehashSize, IsPow2;
      nentries := nentries + 1;
      if TooFull(nentries, nbuckets) {
        GrowthDoubles(nentries, nbuckets);
        GrowthIsPaid(nentries, nbuckets);
        RehashLoad(nentries);
        ok := Rehash(bucketMemory);
        if !ok {
          nentries := nentries - 1;
        }
        return;
      }
      OtherSteps(nentries - 1, nbuckets, 0);
      SomeBuckets(nentries, nbuckets);
      return true;
    }

    // The first entry of the bucket that matches, if there is one.
    method GetEntry(key: Key, hash: nat, cmp: (Key, Key) -> bool) returns (entry: Entry?)
      requires Valid() && nbuckets > 0
      ensures entry != null ==> entry in entries && entry.keyHash == hash && cmp(entry.key, key)
      ensures entry == null ==> forall e | e in entries :: !(e.keyHash == hash && cmp(e.key, key))
    {
      IndexIsModulo(hash, nbuckets);
      assert |chains| == nbuckets;
      var index := GetIndex(hash, nbuckets);
      entry := buckets[index];
      ghost var c, k := chains[index], 0;
      while entry != null
        invariant k <= |c| && IsChain(entry, c[k..])
        invariant forall j | 0 <= j < k :: !(c[j].keyHash == hash && cmp(c[j].key, key))
        decreases |c| - k
      {
        PopChain(entry, c[k..]);
        if entry.keyHash == hash && cmp(entry.key, key) {
          return;
        }
        entry := entry.next;
        k := k + 1;
      }
    }

    // hashtable_min_remove: unlinks the first entry of the bucket that matches, and shrinks the table
    // if it has become too empty and calloc succeeds.
    method MinRemove(key: Key, hash: nat, cmp: (Key, Key) -> bool, bucketMemory: bool)
        returns (value: Option<Value>, ghost removed: Entry?)
      requires Valid() && nbuckets > 0
      modifies this, buckets, entries
      ensures Valid() && sets == old(sets)
      ensures value == None <==> removed == null
      ensures removed == null ==> entries == old(entries) && nbuckets == old(nbuckets) && removals == old(removals)
      ensures removed == null ==> forall e | e in entries :: !(e.keyHash == hash && cmp(e.key, key))
      ensures removed != null && bucketMemory ==> 10 * |entries| >= nbuckets
      ensures removed != null && 10 * |entries| >= old(nbuckets) ==> nbuckets == old(nbuckets)
      ensures relinked == old(relinked) + if nbuckets != old(nbuckets) then |entries| else 0
      ensures freed == old(freed) + if removed == null then {} else {removed}
      ensures removed != null ==>
          value == Some(removed.value) && removed in old(entries) && removed.keyHash == hash && cmp(removed.key, key)
      ensures removed != null ==> entries == old(entries) - {removed} && removals == old(removals) + 1
      ensures removed != null ==>
                nbuckets == if && TooEmpty(nentries, old(nbuckets))
                               && (bucketMemory || RehashSize(nentries) == old(nbuckets))
                            then RehashSize(nentries) else old(nbuckets)
      ensures buckets == old(buckets) || fresh(buckets)
    {
      hide Credit, RehashSize, IsPow2, Table;
      var index, prev, entry;
      ghost var k;
      index, prev, entry, k := FindEntry(key, hash, cmp);
      if entry == null {
        return None, null;
      }
      removed := entry;
      value := RemoveEntry(index, prev, entry, k);
      assert nentries == |entries|;
      hide Valid;
      if TooEmpty(nentries, nbuckets) {
        Shrink(bucketMemory);
      }
    }

    // Unlinks the entry, frees it and returns its value.
    method RemoveEntry(index: nat, prev: Entry?, entry: Entry, ghost k: nat) returns (value: Option<Value>)
      requires Valid() && index < |chains| && k < |chains[index]| && entry == chains[index][k]
      requires prev == if k == 0 then null else chains[index][k - 1]
      modifies this`nentries, this`chains, this`entries, this`removals, this`freed, buckets, entries
      ensures Valid() && value == Some(entry.value) && nentries + 1 == old(nentries)
      ensures entry in old(entries) && entries == old(entries) - {entry} && freed == old(freed) + {entry}
      ensures removals == old(removals) + 1
      ensures chains == old(chains)[index := old(chains)[index][..k] + old(chains)[index][k + 1..]]
    {
      hide Credit, IsPow2, Table;
      Unlink(index, prev, entry, k);
      value := Some(entry.value);
      freed := freed + {entry};
      nentries := nentries - 1;
      removals := removals + 1;
      OtherSteps(nentries + 1, nbuckets, 1);
    }

    // Rehashes a table that has become too empty.
    method Shrink(bucketMemory: bool)
      requires Valid() && TooEmpty(nentries, nbuckets)
      modifies this`nbuckets, this`buckets, this`chains, this`relinked, entries
      ensures Valid() && (buckets == old(buckets) || fresh(buckets))
      ensures bucketMemory ==> 10 * nentries >= nbuckets
      ensures nbuckets ==
              if bucketMemory || RehashSize(nentries) == old(nbuckets) then RehashSize(nentries) else old(nbuckets)
      ensures relinked == old(relinked) + if nbuckets != old(nbuckets) then |entries| else 0
    {
      hide Credit, RehashSize, IsPow2, Table;
      ShrinkIsPaid(nentries, nbuckets);
      if nentries == 0 {
        RehashOfNone();
      } else {
        RehashLoad(nentries);
      }
      var _ := Rehash(bucketMemory);
    }

    // The search of hashtable_min_remove, which also returns the entry in front.
    method FindEntry(key: Key, hash: nat, cmp: (Key, Key) -> bool)
        returns (index: nat, prev: Entry?, entry: Entry?, ghost k: nat)
      requires Structure() && nbuckets > 0
      ensures index == GetIndex(hash, nbuckets) && |chains| == nbuckets && index < nbuckets && k <= |chains[index]|
      ensures entry == if k < |chains[index]| then chains[index][k] else null
      ensures prev == if k == 0 then null else chains[index][k - 1]
      ensures entry != null ==> entry.keyHash == hash && cmp(entry.key, key)
      ensures entry == null ==> forall e | e in entries :: !(e.keyHash == hash && cmp(e.key, key))
    {
      IndexIsModulo(hash, nbuckets);
      assert |chains| == nbuckets;
      index := GetIndex(hash, nbuckets);
      entry := buckets[index];
      prev := null;
      k := 0;
      ghost var c := chains[index];
      assert c[0..] == c;
      while entry != null
        invariant k <= |c| && IsChain(entry, c[k..])
        invariant prev == if k == 0 then null else c[k - 1]
        invariant forall j | 0 <= j < k :: !(c[j].keyHash == hash && cmp(c[j].key, key))
        decreases |c| - k
      {
        PopChain(entry, c[k..]);
        if entry.keyHash == hash && cmp(entry.key, key) {
          return;
        }
        prev := entry;
        entry := entry.next;
        k := k + 1;
      }
    }

    // Takes entry number k out of its chain.
    method Unlink(index: nat, prev: Entry?, entry: Entry, ghost k: nat)
      requires Structure() && index < |chains| && k < |chains[index]| && entry == chains[index][k]
      requires prev == if k == 0 then null else chains[index][k - 1]
      modifies this`chains, this`entries, buckets, entries
      ensures Structure() && entries == old(entries) - {entry} && entry in old(entries)
      ensures chains == old(chains)[index := old(chains)[index][..k] + old(chains)[index][k + 1..]]
      ensures entry.next == old(entry.next)
    {
      hide IsPow2, Distinct, IsChain;
      ghost var c := chains[index];
      assert |chains| == buckets.Length;
      UnlinkFacts(buckets, chains, entries, index, prev, k);
      hide Table, Placed, Linked;
      SlistRemove(buckets, index, prev, entry, c, k);
      chains := chains[index := c[..k] + c[k + 1..]];
      entries := entries - {entry};
      TableFromChains(buckets, chains, entries);
    }

    // hashtable_foreach_remove.  The callback may have state of its own: toRemove(m) is what it answers
    // the m-th time it is called, and `visited` are the entries it was called on.
    method ForeachRemove(toRemove: nat -> bool) returns (ghost visited: seq<Entry>)
      requires Valid()
      modifies this`nentries, this`chains, this`entries, this`removals, this`freed, buckets, entries
      ensures Valid() && freed == old(freed) + (old(entries) - entries)
      ensures Distinct(visited) && (forall e :: e in visited <==> e in old(entries))
      ensures entries <= old(entries) && forall m | 0 <= m < |visited| :: visited[m] in entries <==> !toRemove(m)
      ensures removals + |entries| == old(removals) + |old(entries)|
    {
      visited := [];
      var i, calls := 0, 0;
      ghost var b := Before(entries, freed, removals);
      hide Swept, Valid;
      SweepStart(toRemove);
      while i < nbuckets
        invariant i <= nbuckets && Swept(i, visited, toRemove, b)
        invariant calls == |visited| && entries <= b.entries
      {
        calls, visited := SweepBucket(i, toRemove, calls, visited, b);
        i := i + 1;
      }
      SweepDone(i, visited, toRemove, b);
    }

    // What has been removed since then has been counted and freed.
    ghost predicate Kept(b: Before)
      reads this
    {
      removals + |entries| == b.removals + |b.entries| && freed + entries == b.freed + b.entries && b.freed !! b.entries
    }

    // The sweep stands before bucket i.
    ghost predicate Swept(i: nat, visited: seq<Entry>, toRemove: nat -> bool, b: Before)
      reads this, buckets, entries
    {
      Valid() && Visiting(visited, toRemove, chains, entries, i, 0, b.entries) && Kept(b)
    }

    // The sweep stands before entry k of bucket i.
    ghost predicate Sweeping(i: nat, k: nat, prev: Entry?, entry: Entry?, visited: seq<Entry>, toRemove: nat -> bool,
                             b: Before)
      reads this, buckets, entries
    {
      && Valid() && i < |chains| && k <= |chains[i]|
      && entry == (if k < |chains[i]| then chains[i][k] else null)
      && prev == (if k == 0 then null else chains[i][k - 1])
      && Visiting(visited, toRemove, chains, entries, i, k, b.entries) && Kept(b)
    }

    lemma SweepStart(toRemove: nat -> bool)
      requires Valid()
      ensures Swept(0, [], toRemove, Before(entries, freed, removals))
    {
      VisitStart(toRemove, buckets, chains, entries);
    }

    lemma SweepNextBucket(i: nat, visited: seq<Entry>, toRemove: nat -> bool, b: Before)
      requires Swept(i, visited, toRemove, b) && i < nbuckets
      ensures i < buckets.Length && Sweeping(i, 0, null, buckets[i], visited, toRemove, b)
    {
      hide Visiting, Credit, IsPow2;
      ChainHead(buckets, chains, entries, i);
      hide Table;
    }

    // An entry ahead has not been visited, so there are fewer visits than entries.
    lemma SweepBounded(i: nat, k: nat, prev: Entry?, entry: Entry, visited: seq<Entry>, toRemove: nat -> bool,
                       b: Before)
      requires Sweeping(i, k, prev, entry, visited, toRemove, b)
      ensures |visited| < |b.entries|
    {
      assert Placed(chains, entries);
      hide Valid, Placed;
      AheadIsUnvisited(visited, toRemove, chains, entries, i, k, b.entries);
    }

    lemma SweepBucketDone(i: nat, k: nat, prev: Entry?, visited: seq<Entry>, toRemove: nat -> bool, b: Before)
      requires Sweeping(i, k, prev, null, visited, toRemove, b)
      ensures Swept(i + 1, visited, toRemove, b)
    {
      hide Credit, IsPow2, Table;
      VisitNextBucket(visited, toRemove, buckets, chains, entries, i, b.entries);
      hide Visiting;
    }

    lemma SweepDone(i: nat, visited: seq<Entry>, toRemove: nat -> bool, b: Before)
      requires Swept(i, visited, toRemove, b) && i == nbuckets
      ensures Valid() && Distinct(visited) && entries <= b.entries && (forall e :: e in visited <==> e in b.entries)
      ensures (forall m | 0 <= m < |visited| :: visited[m] in entries <==> !toRemove(m)) && Kept(b)
      ensures freed == b.freed + (b.entries - entries)
    {
      hide Credit, IsPow2, Visiting;
      assert |chains| == nbuckets;
      VisitDone(visited, toRemove, buckets, chains, entries, i, b.entries);
      NothingElseFreed(b.freed, b.entries, freed, entries);
    }

    method SweepBucket(i: nat, toRemove: nat -> bool, calls0: nat, ghost visited0: seq<Entry>, ghost b: Before)
        returns (calls: nat, ghost visited: seq<Entry>)
      requires Swept(i, visited0, toRemove, b) && i < nbuckets && calls0 == |visited0|
      modifies this`nentries, this`chains, this`entries, this`removals, this`freed, buckets, entries
      ensures Swept(i + 1, visited, toRemove, b) && calls == |visited| && entries <= old(entries)
    {
      hide Swept, Sweeping;
      SweepNextBucket(i, visited0, toRemove, b);
      calls, visited := calls0, visited0;
      var entry, prev := buckets[i], null;
      ghost var k := 0;
      while entry != null
        invariant Sweeping(i, k, prev, entry, visited, toRemove, b)
        invariant calls == |visited| && entries <= old(entries)
        decreases |b.entries| - |visited|
      {
        SweepBounded(i, k, prev, entry, visited, toRemove, b);
        prev, entry, k, visited := SweepEntry(i, prev, entry, toRemove(calls), k, toRemove, visited, b);
        calls := calls + 1;
      }
      SweepBucketDone(i, k, prev, visited, toRemove, b);
    }

    method SweepEntry(i: nat, prev: Entry?, entry: Entry, answer: bool, ghost k: nat, ghost toRemove: nat -> bool,
                      ghost visited: seq<Entry>, ghost b: Before)
        returns (prev': Entry?, next: Entry?, ghost k': nat, ghost visited': seq<Entry>)
      requires Sweeping(i, k, prev, entry, visited, toRemove, b) && answer == toRemove(|visited|)
      modifies this`nentries, this`chains, this`entries, this`removals, this`freed, buckets, entries
      ensures Sweeping(i, k', prev', next, visited', toRemove, b)
      ensures |visited'| == |visited| + 1 && entries <= old(entries)
    {
      hide Visiting, Table, IsPow2, Credit, Placed, Linked, IsChain, Distinct, TooFull;
      next := entry.next;
      ChainNext(buckets, chains, entries, i, k);
      visited' := visited + [entry];
      if answer {
        VisitRemove(visited, toRemove, buckets, chains, entries, i, k, b.entries);
        var _ := RemoveEntry(i, prev, entry, k);
        prev', k' := prev, k;
      } else {
        VisitKeep(visited, toRemove, buckets, chains, entries, i, k, b.entries);
        prev', k' := entry, k + 1;
      }
    }

    // The entries of one bucket, from `head` on; `left` are all that are still to come.
    method DestroyChain(head: Entry?, ghost i: nat, cleared0: seq<Value>, ghost visited0: seq<Entry>,
                        ghost left0: set<Entry>, ghost c0: seq<Entry>)
        returns (cleared: seq<Value>, ghost visited: seq<Entry>, ghost left: set<Entry>, ghost c: seq<Entry>)
      requires Rest(buckets, chains, i, head, c0, left0)
      requires Cleared(cleared0, visited0, left0, entries) && nentries == |left0| && left0 !! freed
      modifies this`nentries, this`freed
      ensures Rest(buckets, chains, i, null, c, left)
      ensures Cleared(cleared, visited, left, entries) && nentries == |left|
      ensures left !! freed && freed + left == old(freed) + left0
    {
      hide Rest, Cleared;
      cleared, visited, left, c := cleared0, visited0, left0, c0;
      var entry := head;
      while entry != null
        invariant Rest(buckets, chains, i, entry, c, left)
        invariant Cleared(cleared, visited, left, entries) && nentries == |left|
        invariant left !! freed && freed + left == old(freed) + left0
        decreases |left|
      {
        RestNextEntry(buckets, chains, i, entry, c, left);
        assert entry !in freed;
        var next := entry.next;
        ClearedNext(cleared, visited, left, entries, entry);
        cleared, visited := cleared + [entry.value], visited + [entry];
        freed := freed + {entry};
        nentries := nentries - 1;
        left, c := left - {entry}, c[1..];
        entry := next;
      }
    }

    // hashtable_min_detroy: every entry is handed to the callback and freed, once, after its link was read.
    method MinDestroy() returns (cleared: seq<Value>, ghost visited: seq<Entry>)
      requires Valid()
      modifies this`nentries, this`freed
      ensures Distinct(visited) && (forall e :: e in visited <==> e in entries)
      ensures freed == old(freed) + entries
      ensures |cleared| == |visited| && forall m | 0 <= m < |visited| :: cleared[m] == visited[m].value
      ensures nentries == 0
    {
      cleared, visited := [], [];
      ghost var left, c := entries, [];
      var i := 0;
      RestAtStart(buckets, chains, entries);
      assert nbuckets == |chains|;
      assert Cleared(cleared, visited, left, entries);
      hide Rest, Table, Cleared, Credit, TooFull, IsPow2;
      while i < nbuckets && nentries > 0
        invariant i <= nbuckets && Rest(buckets, chains, i, null, c, left)
        invariant Cleared(cleared, visited, left, entries) && nentries == |left|
        invariant left !! freed && freed + left == old(freed) + entries
      {
        RestNextBucket(buckets, chains, i, c, left);
        var entry := buckets[i];
        i := i + 1;
        cleared, visited, left, c := DestroyChain(entry, i, cleared, visited, left, chains[i - 1]);
      }
      if nentries > 0 {
        RestDone(buckets, chains, c, left);
      }
      ClearedAll(cleared, visited, left, entries);
    }
  }

  lemma NothingElseFreed<T>(before: set<T>, all: set<T>, freed: set<T>, entries: set<T>)
    requires before !! all && freed !! entries && entries <= all && freed + entries == before + all
    ensures freed == before + (all - entries)
  {
    assert forall e :: e in freed <==> e in freed + entries && e !in entries;
    assert forall e :: e in freed <==> e in before + (all - entries);
  }

  // ---- The order of a sweep ------------------------------------------------------------------------

  lemma AheadIsUnvisited(visited: seq<Entry>, toRemove: nat -> bool, chains: seq<seq<Entry>>, entries: set<Entry>,
                         i: nat, k: nat, all: set<Entry>)
    requires Placed(chains, entries) && i < |chains| && k < |chains[i]|
    requires Visiting(visited, toRemove, chains, entries, i, k, all)
    ensures |visited| < |all|
  {
    var e := chains[i][k];
    assert e in chains[i] && e in chains[i][k..];
    assert e !in visited && e in all;
    hide Placed;
    DistinctInSet(visited, all - {e});
  }

  // The entries that have been visited, when the sweep stands before entry k of chain i.
  ghost predicate Visiting(visited: seq<Entry>, toRemove: nat -> bool, chains: seq<seq<Entry>>, entries: set<Entry>,
                           i: nat, k: nat, all: set<Entry>)
  {
    && Distinct(visited) && entries <= all
    && (forall e | e in visited :: e in all)
    && (forall e | e in all :: e in visited <==> !(e in entries && Ahead(e, chains, i, k)))
    && (forall m | 0 <= m < |visited| :: visited[m] in entries <==> !toRemove(m))
  }

  ghost predicate Ahead(e: Entry, chains: seq<seq<Entry>>, i: nat, k: nat) {
    var g := GetIndex(e.keyHash, |chains|);
    g > i || (g == i < |chains| && k <= |chains[i]| && e in chains[i][k..])
  }

  // What unlinking entry k of a chain relies on: nothing else reaches the entry in front of it.
  lemma UnlinkFacts(buckets: array<Entry?>, chains: seq<seq<Entry>>, entries: set<Entry>, index: nat, prev: Entry?,
                    k: nat)
    requires Table(buckets, chains, entries) && index < |chains| && k < |chains[index]|
    requires prev == if k == 0 then null else chains[index][k - 1]
    ensures Placed(chains[index := chains[index][..k] + chains[index][k + 1..]], entries - {chains[index][k]})
    ensures chains[index][k] in entries && Distinct(chains[index]) && |chains| == buckets.Length
    ensures forall i | 0 <= i < |chains| :: IsChain(buckets[i], chains[i])
    ensures prev != null ==> prev in entries && forall i | 0 <= i < |chains| && i != index :: prev !in chains[i]
  {
    PlacedRemove(chains, entries, index, k);
    assert chains[index][k] in chains[index];
    assert prev != null ==> prev in chains[index];
  }

  lemma TableFromChains(buckets: array<Entry?>, chains: seq<seq<Entry>>, entries: set<Entry>)
    requires Placed(chains, entries) && buckets.Length == |chains|
    requires forall i | 0 <= i < |chains| :: IsChain(buckets[i], chains[i])
    ensures Table(buckets, chains, entries)
  {
  }

  lemma ChainHead(buckets: array<Entry?>, chains: seq<seq<Entry>>, entries: set<Entry>, i: nat)
    requires Table(buckets, chains, entries) && i < buckets.Length
    ensures i < |chains| && buckets[i] == if |chains[i]| > 0 then chains[i][0] else null
  {
  }

  lemma ChainNext(buckets: array<Entry?>, chains: seq<seq<Entry>>, entries: set<Entry>, i: nat, k: nat)
    requires Table(buckets, chains, entries) && i < |chains| && k < |chains[i]|
    ensures chains[i][k].next == if k + 1 < |chains[i]| then chains[i][k + 1] else null
  {
    assert IsChain(buckets[i], chains[i]);
  }

  lemma VisitStart(toRemove: nat -> bool, buckets: array<Entry?>, chains: seq<seq<Entry>>, entries: set<Entry>)
    requires Table(buckets, chains, entries)
    ensures Visiting([], toRemove, chains, entries, 0, 0, entries)
  {
    assert |chains| > 0 ==> chains[0][0..] == chains[0];
  }

  lemma VisitKeep(visited: seq<Entry>, toRemove: nat -> bool, buckets: array<Entry?>, chains: seq<seq<Entry>>,
                  entries: set<Entry>,
                  i: nat, k: nat, all: set<Entry>)
    requires Table(buckets, chains, entries) && i < |chains| && k < |chains[i]| && !toRemove(|visited|)
    requires Visiting(visited, toRemove, chains, entries, i, k, all)
    ensures Visiting(visited + [chains[i][k]], toRemove, chains, entries, i, k + 1, all)
  {
    hide Linked;
    var c := chains[i];
    assert c[k] in c && c[k] in c[k..] && Distinct(c);
    assert forall e :: e in c[k..] <==> e == c[k] || e in c[k + 1..];
    assert c[k] !in c[k + 1..];
  }

  lemma VisitRemove(visited: seq<Entry>, toRemove: nat -> bool, buckets: array<Entry?>, chains: seq<seq<Entry>>,
                    entries: set<Entry>,
                    i: nat, k: nat, all: set<Entry>)
    requires Table(buckets, chains, entries) && i < |chains| && k < |chains[i]| && toRemove(|visited|)
    requires Visiting(visited, toRemove, chains, entries, i, k, all)
    ensures Visiting(visited + [chains[i][k]], toRemove, chains[i := chains[i][..k] + chains[i][k + 1..]],
                     entries - {chains[i][k]}, i, k, all)
  {
    hide Linked;
    var c := chains[i];
    assert c[k] in c && c[k] in c[k..] && Distinct(c);
    assert (c[..k] + c[k + 1..])[k..] == c[k + 1..];
    assert forall e :: e in c[k..] <==> e == c[k] || e in c[k + 1..];
  }

  lemma VisitNextBucket(visited: seq<Entry>, toRemove: nat -> bool, buckets: array<Entry?>, chains: seq<seq<Entry>>,
                        entries: set<Entry>,
                        i: nat, all: set<Entry>)
    requires Table(buckets, chains, entries) && i < |chains|
    requires Visiting(visited, toRemove, chains, entries, i, |chains[i]|, all)
    ensures Visiting(visited, toRemove, chains, entries, i + 1, 0, all)
  {
    hide Linked;
    assert i + 1 < |chains| ==> chains[i + 1][0..] == chains[i + 1];
  }

  lemma VisitDone(visited: seq<Entry>, toRemove: nat -> bool, buckets: array<Entry?>, chains: seq<seq<Entry>>,
                  entries: set<Entry>,
                  i: nat, all: set<Entry>)
    requires Table(buckets, chains, entries) && i == |chains|
    requires Visiting(visited, toRemove, chains, entries, i, 0, all)
    ensures Distinct(visited) && entries <= all && forall e :: e in visited <==> e in all
    ensures forall m | 0 <= m < |visited| :: visited[m] in entries <==> !toRemove(m)
  {
    hide Linked;
  }
}
