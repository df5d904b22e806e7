/** Buckets of ids under a key, as the entity manager keeps them by type and by chunk. */
module Buckets {
  import opened Sequences

  /** The sequence without an id. */
  function Without(ids: seq<nat>, id: nat): (rest: seq<nat>)
    ensures forall i :: i in rest <==> i in ids && i != id
  {
    if ids == [] then []
    else if ids[0] == id then Without(ids[1..], id)
    else [ids[0]] + Without(ids[1..], id)
  }

  lemma {:induction false} WithoutHasNoRepeats(ids: seq<nat>, id: nat)
    requires NoRepeats(ids)
    ensures NoRepeats(Without(ids, id))
  {
    if ids != [] {
      WithoutHasNoRepeats(ids[1..], id);
      assert ids[0] !in ids[1..];
    }
  }

  /** Each id is in the bucket of its tag, once, and in no other; no bucket is empty. */
  ghost predicate Match<K>(buckets: map<K, seq<nat>>, tag: map<nat, K>) {
    && (forall k :: k in buckets ==> buckets[k] != [] && NoRepeats(buckets[k]))
    && (forall k, id :: k in buckets && id in buckets[k] ==> id in tag && tag[id] == k)
    && (forall id :: id in tag ==> tag[id] in buckets && id in buckets[tag[id]])
  }

  /** `entry(k).or_default().push(id)` */
  function AddTo<K>(buckets: map<K, seq<nat>>, k: K, id: nat): map<K, seq<nat>> {
    buckets[k := (if k in buckets then buckets[k] else []) + [id]]
  }

  /** `retain` on one bucket, dropping the bucket when nothing is left. */
  function RemoveFrom<K>(buckets: map<K, seq<nat>>, k: K, id: nat): map<K, seq<nat>> {
    if k !in buckets then buckets
    else if Without(buckets[k], id) == [] then buckets - {k}
    else buckets[k := Without(buckets[k], id)]
  }

  lemma AddMatches<K>(buckets: map<K, seq<nat>>, tag: map<nat, K>, k: K, id: nat)
    requires Match(buckets, tag) && id !in tag
    ensures Match(AddTo(buckets, k, id), tag[id := k])
  {
  }

  lemma RemoveMatches<K>(buckets: map<K, seq<nat>>, tag: map<nat, K>, id: nat)
    requires Match(buckets, tag) && id in tag
    ensures Match(RemoveFrom(buckets, tag[id], id), tag - {id})
  {
    var k := tag[id];
    var left := RemoveFrom(buckets, k, id);
    WithoutHasNoRepeats(buckets[k], id);
    forall c, j | c in left && j in left[c] ensures j in tag - {id} && (tag - {id})[j] == c {
      assert c in buckets && j in buckets[c];
    }
    forall j | j in tag - {id} ensures tag[j] in left && j in left[tag[j]] {
      var c := tag[j];
      assert c in buckets && j in buckets[c];
      if c == k { assert j in Without(buckets[k], id); }
    }
  }

  /** Moving an id is removing it from one bucket and adding it to another. */
  lemma MoveMatches<K>(buckets: map<K, seq<nat>>, tag: map<nat, K>, id: nat, k: K)
    requires Match(buckets, tag) && id in tag
    ensures Match(AddTo(RemoveFrom(buckets, tag[id], id), k, id), tag[id := k])
  {
    RemoveMatches(buckets, tag, id);
    AddMatches(RemoveFrom(buckets, tag[id], id), tag - {id}, k, id);
    assert (tag - {id})[id := k] == tag[id := k];
  }

  /** As sets, the buckets are determined by the tags. */
  lemma MatchIsDetermined<K>(b: map<K, seq<nat>>, c: map<K, seq<nat>>, tag: map<nat, K>)
    requires Match(b, tag) && Match(c, tag)
    ensures b.Keys == c.Keys
    ensures forall k :: k in b ==> (set id | id in b[k]) == (set id | id in c[k])
  {
    KeysAreTags(b, tag);
    KeysAreTags(c, tag);
    forall k | k in b ensures (set id | id in b[k]) == (set id | id in c[k]) {
      forall id ensures id in b[k] <==> id in c[k] {
        if id in b[k] { assert tag[id] == k; }
        if id in c[k] { assert tag[id] == k; }
      }
    }
  }

  lemma KeysAreTags<K>(buckets: map<K, seq<nat>>, tag: map<nat, K>)
    requires Match(buckets, tag)
    ensures buckets.Keys == tag.Values
  {
    forall k | k in buckets ensures k in tag.Values {
      var id := buckets[k][0];
      assert id in buckets[k];
      assert tag[id] == k;
    }
  }
}
