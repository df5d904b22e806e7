/** The section scheduler of `src/chunk_schedule.rs`: a map of pending work and an ordered set of
    priorities that shadows it. */
module MeshSchedulers {
  import opened Options
  import opened MeshQueue

  /** Within `distance` chunks along both axes. */
  predicate InView(key: SectionKey, player: (int, int), distance: int) {
    && -distance <= key.cx - player.0 <= distance
    && -distance <= key.cz - player.1 <= distance
  }

  ghost predicate Nearest(p: Pending, k: SectionKey, player: (int, int), distance: int) {
    && k in p && InView(k, player, distance)
    && forall j :: j in p && j != k && InView(j, player, distance) ==> PriorityOf(k, p[k]).Less(PriorityOf(j, p[j]))
  }

  /** The section in view that comes first, by the numbers, `player` and `distance` being counted in chunks. */
  ghost predicate IsFirstInView(p: Pending, k: SectionKey, player: (int, int), distance: int) {
    && k in p && IsWithin(k.cx, player.0, distance) && IsWithin(k.cz, player.1, distance)
    && forall j :: j in p && j != k && IsWithin(j.cx, player.0, distance) && IsWithin(j.cz, player.1, distance) ==>
         ComesBefore(p[k].distanceSq, k, p[j].distanceSq, j)
  }

  ghost predicate IsWithin(a: int, b: int, distance: int) {
    if a < b then b - a <= distance else a - b <= distance
  }

  lemma NearestIsFirstInView(p: Pending, k: SectionKey, player: (int, int), distance: int)
    ensures Nearest(p, k, player, distance) <==> IsFirstInView(p, k, player, distance)
    ensures InView(k, player, distance) <==> IsWithin(k.cx, player.0, distance) && IsWithin(k.cz, player.1, distance)
  {
    forall j | j in p && k in p
      ensures InView(j, player, distance) <==> IsWithin(j.cx, player.0, distance) && IsWithin(j.cz, player.1, distance)
      ensures PriorityOf(k, p[k]).Less(PriorityOf(j, p[j])) <==> ComesBefore(p[k].distanceSq, k, p[j].distanceSq, j)
    {
      LessComesBefore(PriorityOf(k, p[k]), PriorityOf(j, p[j]));
    }
  }

  /** `set` holds the priority of each pending section and nothing else. */
  ghost predicate Shadows(p: Pending, priorities: set<Priority>) {
    && (forall k :: k in p ==> p[k].identity.key == k && PriorityOf(k, p[k]) in priorities)
    && (forall q :: q in priorities ==> q.Key() in p && PriorityOf(q.Key(), p[q.Key()]) == q)
  }

  lemma ShadowsWithout(p: Pending, priorities: set<Priority>, k: SectionKey)
    requires Shadows(p, priorities) && k in p
    ensures Shadows(p - {k}, priorities - {PriorityOf(k, p[k])})
  {
    forall j | j in p - {k} ensures PriorityOf(j, p[j]) in priorities - {PriorityOf(k, p[k])} {
      assert PriorityOf(j, p[j]).Key() == j;
    }
  }

  /** The greatest priority is that of the farthest section. */
  lemma LastIsFarthest(p: Pending, priorities: set<Priority>, last: Priority)
    requires Shadows(p, priorities) && last in priorities
    requires forall q :: q in priorities && q != last ==> q.Less(last)
    ensures Farthest(p, last.Key())
  {
    forall j | j in p && j != last.Key() ensures PriorityOf(j, p[j]).Less(PriorityOf(last.Key(), p[last.Key()])) {
      assert PriorityOf(j, p[j]).Key() == j;
    }
  }

  method LastOf(s: set<Priority>) returns (last: Priority)
    requires s != {} && forall p, q :: p in s && q in s && p != q ==> p.Key() != q.Key()
    ensures last in s && forall q :: q in s && q != last ==> q.Less(last)
  {
    last :| last in s;
    var rest := s - {last};
    while rest != {}
      invariant last in s && rest <= s && last !in rest
      invariant forall q :: q in s && q != last ==> q in rest || q.Less(last)
      decreases rest
    {
      var q :| q in rest;
      LessIsTotal(q, last);
      if last.Less(q) {
        forall r | r in s && r != q ensures r in rest - {q} || r.Less(q) {
          if r != last && r !in rest { LessIsTransitive(r, last, q); }
        }
        last := q;
      }
      rest := rest - {q};
    }
  }

  lemma DropNone(p: Pending, all: set<SectionKey>)
    ensures p - (all - all) == p
  {
    assert all - all == {};
  }

  lemma DropOne(p: Pending, all: set<SectionKey>, keys: set<SectionKey>, key: SectionKey)
    requires key in keys && keys <= all
    ensures p - (all - keys) - {key} == p - (all - (keys - {key}))
  {
    assert all - (keys - {key}) == all - keys + {key};
  }

  function InColumn(keys: set<SectionKey>, cx: int, cz: int): set<SectionKey> {
    set k | k in keys && k.cx == cx && k.cz == cz
  }

  /** The works of some sections, their distances taken from a player. */
  function Measured(works: Pending, done: set<SectionKey>, player: (int, int)): Pending {
    map k | k in works && k in done :: works[k].(distanceSq := SectionDistance(k, player))
  }

  lemma MeasuredMore(works: Pending, done: set<SectionKey>, player: (int, int), key: SectionKey)
    requires done <= works.Keys && key in works && key !in done && |works| <= MAX_DIRTY_MESH_QUEUE
    ensures Measured(works, done + {key}, player)
         == Measured(works, done, player)[key := works[key].(distanceSq := SectionDistance(key, player))]
    ensures |Measured(works, done + {key}, player)| <= MAX_DIRTY_MESH_QUEUE
  {
    SubsetIsSmaller(Measured(works, done + {key}, player).Keys, works.Keys);
  }

  lemma NothingMeasured(works: Pending, player: (int, int))
    ensures Measured(works, {}, player) == map[] && Shadows(map[], {})
  {
  }

  lemma AllMeasured(works: Pending, player: (int, int))
    ensures var all := Measured(works, works.Keys, player);
      && all.Keys == works.Keys
      && forall k :: k in all ==>
           && all[k].identity == works[k].identity && all[k].reason == works[k].reason
           && all[k].distanceSq == SectionDistance(k, player)
  {
  }

  lemma KeysAreKnown(p: Pending, priorities: set<Priority>)
    requires Shadows(p, priorities)
    ensures forall k :: k in p ==> p[k].identity.key == k
  {
  }

  class SectionMeshScheduler {
    var pending: Pending
    var priority: set<Priority>
    var inFlight: map<SectionKey, SectionIdentity>

    ghost predicate Valid()
      reads this
    {
      Shadows(pending, priority) && |pending| <= MAX_DIRTY_MESH_QUEUE
    }

    constructor ()
      ensures Valid() && pending == map[] && inFlight == map[]
    {
      pending, priority, inFlight := map[], {}, map[];
    }

    /** Latest wins per section; overflow evicts the farthest. */
    method Enqueue(identity: SectionIdentity, reason: DependencyReason, player: (int, int))
      requires Valid()
      modifies this`pending, this`priority
      ensures Valid()
      ensures var work := DirtySectionWork(identity, reason, SectionDistance(identity.key, player));
        Enqueued(old(pending), work, pending) && JoinsBounded(old(pending), work, pending)
    {
      hide JoinsBounded;
      var key := identity.key;
      var work := DirtySectionWork(identity, reason, SectionDistance(key, player));
      var before := pending;
      pending := pending[key := work];
      if key in before {
        priority := priority - {PriorityOf(key, before[key])};
      }
      priority := priority + {PriorityOf(key, work)};
      assert pending.Keys == old(pending).Keys + {key};
      ShadowsMore(old(pending), old(priority), key, work);
      if |pending| > MAX_DIRTY_MESH_QUEUE {
        EvictFarthest();
      }
      EnqueuedJoins(old(pending), work, pending);
    }

    /** Takes the nearest pending section in view, if there is one. */
    method PopNearest(player: (int, int), distance: int) returns (work: Option<DirtySectionWork>)
      requires Valid()
      modifies this`pending, this`priority
      ensures Valid()
      ensures work.None? ==> pending == old(pending) && forall k :: k in pending ==> !InView(k, player, distance)
      ensures work.None? ==> forall k :: k in pending ==>
        !(IsWithin(k.cx, player.0, distance) && IsWithin(k.cz, player.1, distance))
      ensures work.Some? ==> Nearest(old(pending), work.value.identity.key, player, distance)
      ensures work.Some? ==> IsFirstInView(old(pending), work.value.identity.key, player, distance)
      ensures work.Some? ==> work.value == old(pending)[work.value.identity.key]
      ensures work.Some? ==> pending == old(pending) - {work.value.identity.key}
    {
      KeysTellApart(pending, priority);
      var item := FindNearest(priority, player, distance);
      forall k | k in pending ensures PriorityOf(k, pending[k]) in priority && PriorityOf(k, pending[k]).Key() == k {
      }
      if item.None? {
        forall k | k in pending ensures !(IsWithin(k.cx, player.0, distance) && IsWithin(k.cz, player.1, distance)) {
          NearestIsFirstInView(pending, k, player, distance);
        }
        return None;
      }
      NearestIsFirstInView(pending, item.value.Key(), player, distance);
      var key := item.value.Key();
      ShadowsWithout(pending, priority, key);
      work := Some(pending[key]);
      priority := priority - {item.value};
      pending := pending - {key};
      assert pending.Keys == old(pending).Keys - {key};
      assert |pending.Keys| == |old(pending).Keys| - 1;
    }

    method Remove(key: SectionKey) returns (work: Option<DirtySectionWork>)
      requires Valid()
      modifies this`pending, this`priority
      ensures Valid() && pending == old(pending) - {key}
      ensures work == if key in old(pending) then Some(old(pending)[key]) else None
    {
      if key in pending {
        ShadowsWithout(pending, priority, key);
        work := Some(pending[key]);
        priority := priority - {PriorityOf(key, pending[key])};
        pending := pending - {key};
        assert pending.Keys == old(pending).Keys - {key};
        assert |pending.Keys| == |old(pending).Keys| - 1;
      } else {
        work := None;
        assert pending - {key} == pending;
      }
    }

    /** Drops all work of one chunk column, pending and in flight. */
    method RemoveChunk(cx: int, cz: int)
      requires Valid()
      modifies this
      ensures Valid()
      ensures pending == old(pending) - InColumn(old(pending).Keys, cx, cz)
      ensures inFlight == old(inFlight) - InColumn(old(inFlight).Keys, cx, cz)
      ensures forall k :: k in pending <==> k in old(pending) && (k.cx != cx || k.cz != cz)
      ensures forall k :: k in inFlight <==> k in old(inFlight) && (k.cx != cx || k.cz != cz)
    {
      DropColumn(InColumn(pending.Keys, cx, cz));
      inFlight := inFlight - InColumn(inFlight.Keys, cx, cz);
    }

    /** Removes each of the collected keys. */
    method DropColumn(all: set<SectionKey>)
      requires Valid()
      modifies this`pending, this`priority
      ensures Valid() && pending == old(pending) - all
    {
      hide Shadows;
      var keys := all;
      DropNone(pending, all);
      while keys != {}
        invariant Valid() && pending == old(pending) - (all - keys) && keys <= all
        decreases keys
      {
        var key :| key in keys;
        var _ := Remove(key);
        DropOne(old(pending), all, keys, key);
        keys := keys - {key};
      }
      assert all - {} == all;
    }

    method MarkInFlight(work: DirtySectionWork)
      modifies this`inFlight
      ensures inFlight == old(inFlight)[work.identity.key := work.identity]
    {
      inFlight := inFlight[work.identity.key := work.identity];
    }

    /** A completion counts only if it is the one in flight for its section. */
    method Complete(identity: SectionIdentity) returns (current: bool)
      modifies this`inFlight
      ensures current <==> identity.key in old(inFlight) && old(inFlight)[identity.key] == identity
      ensures inFlight == if current then old(inFlight) - {identity.key} else old(inFlight)
    {
      current := identity.key in inFlight && inFlight[identity.key] == identity;
      if current { inFlight := inFlight - {identity.key}; }
    }

    /** Recomputes every distance for a player who moved; nothing is evicted. */
    method Reprioritize(player: (int, int))
      requires Valid()
      modifies this`pending, this`priority
      ensures Valid() && pending == Measured(old(pending), old(pending).Keys, player)
      ensures pending.Keys == old(pending).Keys && forall k :: k in pending ==>
        && pending[k].identity == old(pending)[k].identity && pending[k].reason == old(pending)[k].reason
        && pending[k].distanceSq == SectionDistance(k, player)
    {
      hide JoinsBounded, Shadows, Farthest, Measured;
      var works := pending;
      var left := works.Keys;
      KeysAreKnown(pending, priority);
      pending, priority := map[], {};
      NothingMeasured(works, player);
      assert works.Keys - left == {};
      while left != {}
        invariant left <= works.Keys && Valid() && pending == Measured(works, works.Keys - left, player)
        decreases left
      {
        var key :| key in left;
        MeasuredMore(works, works.Keys - left, player, key);
        Enqueue(works[key].identity, works[key].reason, player);
        assert works.Keys - (left - {key}) == works.Keys - left + {key};
        left := left - {key};
      }
      assert works.Keys - {} == works.Keys;
      AllMeasured(works, player);
    }

    /** `pop_last` on the priorities, and the removal of the section it names. */
    method EvictFarthest()
      requires Shadows(pending, priority) && |pending| > MAX_DIRTY_MESH_QUEUE
      modifies this`pending, this`priority
      ensures Shadows(pending, priority) && |pending| == old(|pending|) - 1
      ensures exists k :: Farthest(old(pending), k) && pending == old(pending) - {k}
      ensures exists k :: k in old(pending) && pending == old(pending) - {k} && forall j :: j in pending ==>
        ComesBefore(pending[j].distanceSq, j, old(pending)[k].distanceSq, k)
    {
      var k0 :| k0 in pending;
      assert PriorityOf(k0, pending[k0]) in priority;
      KeysTellApart(pending, priority);
      var last := LastOf(priority);
      LastIsFarthest(pending, priority, last);
      ShadowsWithout(pending, priority, last.Key());
      priority := priority - {last};
      pending := pending - {last.Key()};
      FarthestIsBehind(old(pending), last.Key());
      assert pending.Keys == old(pending).Keys - {last.Key()};
      assert |pending.Keys| == |old(pending).Keys| - 1;
    }
  }

  /** The first priority, in ascending order, whose section is in view. */
  method FindNearest(s: set<Priority>, player: (int, int), distance: int) returns (found: Option<Priority>)
    requires forall p, q :: p in s && q in s && p != q ==> p.Key() != q.Key()
    ensures found.None? ==> forall q :: q in s ==> !InView(q.Key(), player, distance)
    ensures found.Some? ==> found.value in s && InView(found.value.Key(), player, distance)
    ensures found.Some? ==>
              forall q :: q in s && q != found.value && InView(q.Key(), player, distance) ==> found.value.Less(q)
  {
    found := None;
    var rest := s;
    while rest != {}
      invariant rest <= s
      invariant found.None? ==> forall q :: q in s && InView(q.Key(), player, distance) ==> q in rest
      invariant found.Some? ==> found.value in s && found.value !in rest && InView(found.value.Key(), player, distance)
      invariant found.Some? ==>
                  forall q :: q in s && q != found.value && InView(q.Key(), player, distance) ==>
                    q in rest || found.value.Less(q)
      decreases rest
    {
      var q :| q in rest;
      if InView(q.Key(), player, distance) && (found.None? || !found.value.Less(q)) {
        forall r | r in s && r != q && InView(r.Key(), player, distance) ensures r in rest - {q} || q.Less(r) {
          if found.Some? {
            LessIsTotal(q, found.value);
            if r !in rest && r != found.value { LessIsTransitive(q, found.value, r); }
          }
        }
        found := Some(q);
      }
      rest := rest - {q};
    }
  }

  lemma KeysTellApart(p: Pending, priorities: set<Priority>)
    requires Shadows(p, priorities)
    ensures forall q, r :: q in priorities && r in priorities && q != r ==> q.Key() != r.Key()
  {
  }

  lemma ShadowsMore(p: Pending, priorities: set<Priority>, k: SectionKey, work: DirtySectionWork)
    requires Shadows(p, priorities) && work.identity.key == k
    ensures Shadows(p[k := work],
                    (if k in p then priorities - {PriorityOf(k, p[k])} else priorities) + {PriorityOf(k, work)})
  {
    var rest := if k in p then priorities - {PriorityOf(k, p[k])} else priorities;
    forall j | j in p && j != k ensures PriorityOf(j, p[j]) in rest {
      assert PriorityOf(j, p[j]).Key() == j;
    }
    assert forall q :: q in rest ==> q.Key() != k;
  }
}
