/** The bounded dirty-section queue of `src/chunk_schedule.rs` as a map, and why a run of enqueues
    keeps the nearest sections. */
module MeshQueue {
  import opened Integers

  const MAX_DIRTY_MESH_QUEUE: nat := 16_384

  datatype SectionKey = SectionKey(cx: int, sectionY: int, cz: int)

  datatype SectionIdentity = SectionIdentity(key: SectionKey, revision: nat, lifetime: nat)

  datatype DependencyReason = Block | Fluid | Light | Weather | Redstone | Network | BreakPlace | Mob | Ao | ChunkLoad

  datatype DirtySectionWork = DirtySectionWork(identity: SectionIdentity, reason: DependencyReason, distanceSq: nat)

  /** The sort key of a pending section. */
  datatype Priority = Priority(distanceSq: nat, cx: int, sectionY: int, cz: int) {
    function Key(): SectionKey { SectionKey(cx, sectionY, cz) }

    predicate Less(other: Priority) {
      || distanceSq < other.distanceSq
      || (distanceSq == other.distanceSq
          && (cx < other.cx
              || (cx == other.cx && (sectionY < other.sectionY || (sectionY == other.sectionY && cz < other.cz)))))
    }
  }

  /** Nearer by the numbers: the squared distance first, then the coordinates in the order x, section, z. */
  ghost predicate ComesBefore(d: nat, k: SectionKey, d': nat, k': SectionKey) {
    && d <= d'
    && (d == d' ==> k.cx <= k'.cx)
    && (d == d' && k.cx == k'.cx ==> k.sectionY <= k'.sectionY)
    && (d == d' && k.cx == k'.cx && k.sectionY == k'.sectionY ==> k.cz < k'.cz)
  }

  lemma LessComesBefore(p: Priority, q: Priority)
    ensures p.Less(q) <==> ComesBefore(p.distanceSq, p.Key(), q.distanceSq, q.Key())
  {
  }

  type Pending = map<SectionKey, DirtySectionWork>

  /** The squared chunk distance; the source's 64-bit arithmetic wraps. */
  function SectionDistance(key: SectionKey, player: (int, int)): (d: nat)
    ensures var (dx, dz) := (key.cx - player.0, key.cz - player.1);
            -0x8000_0000 < dx < 0x8000_0000 && -0x8000_0000 < dz < 0x8000_0000 ==> d == dx * dx + dz * dz
  {
    var (dx, dz) := (key.cx - player.0, key.cz - player.1);
    SquareFits(dx);
    SquareFits(dz);
    (dx * dx + dz * dz) % U64
  }

  lemma SquareFits(d: int)
    ensures -0x8000_0000 < d < 0x8000_0000 ==> 0 <= d * d < 0x4000_0000_0000_0000
  {
    if -0x8000_0000 < d < 0x8000_0000 {
      var e := if d < 0 then -d else d;
      assert e * e <= e * 0x8000_0000 < 0x8000_0000 * 0x8000_0000 by {
        Monotone(e, e, 0x8000_0000);
      }
      assert d * d == e * e;
    }
  }

  lemma Monotone(e: nat, a: nat, b: nat)
    requires a <= b
    ensures e * a <= e * b
  {
  }

  function PriorityOf(key: SectionKey, work: DirtySectionWork): Priority {
    Priority(work.distanceSq, key.cx, key.sectionY, key.cz)
  }

  ghost predicate Farthest(p: Pending, k: SectionKey) {
    k in p && forall j :: j in p && j != k ==> PriorityOf(j, p[j]).Less(PriorityOf(k, p[k]))
  }

  /** The farthest section, by the numbers. */
  lemma FarthestIsBehind(p: Pending, k: SectionKey)
    ensures Farthest(p, k)
       <==> k in p && forall j :: j in p && j != k ==> ComesBefore(p[j].distanceSq, j, p[k].distanceSq, k)
  {
    forall j | j in p && k in p
      ensures PriorityOf(j, p[j]).Less(PriorityOf(k, p[k])) <==> ComesBefore(p[j].distanceSq, j, p[k].distanceSq, k)
    {
      LessComesBefore(PriorityOf(j, p[j]), PriorityOf(k, p[k]));
    }
  }

  /** The latest work for a section replaces the one before; on overflow the farthest goes. */
  ghost predicate Enqueued(p: Pending, work: DirtySectionWork, p': Pending) {
    var all := p[work.identity.key := work];
    if |all| <= MAX_DIRTY_MESH_QUEUE then p' == all
    else exists k :: Farthest(all, k) && p' == all - {k}
  }

  /** The same by numbers: only a section that is new to a queue of 16384 makes one leave, the last. */
  ghost predicate JoinsBounded(p: Pending, work: DirtySectionWork, p': Pending) {
    var all := p[work.identity.key := work];
    if work.identity.key in p || |p| < 16384 then p' == all
    else exists k :: k in all && p' == all - {k} && forall j :: j in p' ==>
      ComesBefore(all[j].distanceSq, j, all[k].distanceSq, k)
  }

  lemma EnqueuedJoins(p: Pending, work: DirtySectionWork, p': Pending)
    requires |p| <= 16384
    ensures Enqueued(p, work, p') <==> JoinsBounded(p, work, p')
  {
    var all := p[work.identity.key := work];
    assert all.Keys == p.Keys + {work.identity.key};
    assert |all| == if work.identity.key in p then |p| else |p| + 1;
    forall k ensures Farthest(all, k) <==> k in all && forall j :: j in all - {k} ==>
        ComesBefore(all[j].distanceSq, j, all[k].distanceSq, k)
    {
      FarthestIsBehind(all, k);
    }
  }

  lemma LessIsTotal(p: Priority, q: Priority)
    requires p.Key() != q.Key()
    ensures p.Less(q) <==> !q.Less(p)
  {
  }

  lemma LessIsTransitive(p: Priority, q: Priority, r: Priority)
    requires p.Less(q) && q.Less(r)
    ensures p.Less(r)
  {
  }

  // ----- Runs of enqueues -----

  ghost function Keys(works: seq<DirtySectionWork>): set<SectionKey> {
    set w | w in works :: w.identity.key
  }

  /** The last work enqueued for a section. */
  ghost function Latest(works: seq<DirtySectionWork>, k: SectionKey): DirtySectionWork
    requires k in Keys(works)
    decreases |works|
  {
    var last := works[|works| - 1];
    if last.identity.key == k then last
    else
      (assert works == works[..|works| - 1] + [last]; Latest(works[..|works| - 1], k))
  }

  /** The distance is that of the section, for a player who does not move. */
  ghost predicate FromHere(works: seq<DirtySectionWork>, player: (int, int)) {
    forall w :: w in works ==> w.distanceSq == SectionDistance(w.identity.key, player)
  }

  function Rank(k: SectionKey, player: (int, int)): Priority {
    Priority(SectionDistance(k, player), k.cx, k.sectionY, k.cz)
  }

  /** `p` holds the nearest distinct sections of `works`, as many as fit, each with its latest work. */
  ghost predicate HoldsNearest(p: Pending, works: seq<DirtySectionWork>, player: (int, int)) {
    && p.Keys <= Keys(works)
    && |p| == (if |Keys(works)| <= MAX_DIRTY_MESH_QUEUE then |Keys(works)| else MAX_DIRTY_MESH_QUEUE)
    && (forall k, j :: k in p && j in Keys(works) && j !in p ==> Rank(k, player).Less(Rank(j, player)))
    && (forall k :: k in p ==> p[k] == Latest(works, k))
  }

  ghost predicate IsRun(works: seq<DirtySectionWork>, states: seq<Pending>) {
    && |states| == |works| + 1 && states[0] == map[]
    && forall i :: 0 <= i < |works| ==> Enqueued(states[i], works[i], states[i + 1])
  }

  lemma LatestMore(works: seq<DirtySectionWork>, w: DirtySectionWork)
    ensures Keys(works + [w]) == Keys(works) + {w.identity.key}
    ensures Latest(works + [w], w.identity.key) == w
    ensures forall k :: k in Keys(works) && k != w.identity.key ==> Latest(works + [w], k) == Latest(works, k)
  {
    assert (works + [w])[..|works|] == works;
  }

  lemma WorkIsHere(works: seq<DirtySectionWork>, player: (int, int), k: SectionKey)
    requires FromHere(works, player) && k in Keys(works)
    ensures Latest(works, k).identity.key == k && PriorityOf(k, Latest(works, k)) == Rank(k, player)
    decreases |works|
  {
    var last := works[|works| - 1];
    assert works == works[..|works| - 1] + [last];
    if last.identity.key != k { WorkIsHere(works[..|works| - 1], player, k); }
  }

  lemma SubsetOfSameSize<T>(a: set<T>, b: set<T>)
    requires a <= b && |a| == |b|
    ensures a == b
  {
    forall x | x in b ensures x in a {
      if x !in a { SubsetIsSmaller(a, b - {x}); }
    }
  }

  lemma {:induction false} SubsetIsSmaller<T>(a: set<T>, b: set<T>)
    requires a <= b
    ensures |a| <= |b|
    decreases |a|
  {
    if x :| x in a {
      SubsetIsSmaller(a - {x}, b - {x});
    }
  }

  /** Where a section that is not pending falls: behind everything that is. */
  lemma EnqueueKeeps(p: Pending, works: seq<DirtySectionWork>, w: DirtySectionWork, player: (int, int), p': Pending)
    requires FromHere(works + [w], player) && HoldsNearest(p, works, player) && Enqueued(p, w, p')
    ensures HoldsNearest(p', works + [w], player)
  {
    var key, all := w.identity.key, p[w.identity.key := w];
    assert FromHere(works, player) && w in works + [w];
    LatestMore(works, w);
    assert all.Keys == p.Keys + {key};
    forall k | k in all ensures PriorityOf(k, all[k]) == Rank(k, player) && all[k] == Latest(works + [w], k) {
      if k != key { WorkIsHere(works, player, k); }
    }
    if |Keys(works)| <= MAX_DIRTY_MESH_QUEUE {
      SubsetOfSameSize(p.Keys, Keys(works));
    }
    if |all| > MAX_DIRTY_MESH_QUEUE {
      var f :| Farthest(all, f) && p' == all - {f};
      EvictionKeeps(p, all, works, w, player, f);
    } else {
      SmallStays(p, works, w, player);
    }
  }

  lemma SmallStays(p: Pending, works: seq<DirtySectionWork>, w: DirtySectionWork, player: (int, int))
    requires HoldsNearest(p, works, player) && |p[w.identity.key := w]| <= MAX_DIRTY_MESH_QUEUE
    requires |Keys(works)| <= MAX_DIRTY_MESH_QUEUE ==> p.Keys == Keys(works)
    ensures var all := p[w.identity.key := w];
            && all.Keys <= Keys(works) + {w.identity.key}
            && |all| == (if |Keys(works) + {w.identity.key}| <= MAX_DIRTY_MESH_QUEUE
                         then |Keys(works) + {w.identity.key}|
                         else MAX_DIRTY_MESH_QUEUE)
            && forall k, j :: k in all && j in Keys(works) + {w.identity.key} && j !in all ==>
                 Rank(k, player).Less(Rank(j, player))
  {
    var all := p[w.identity.key := w];
    assert all.Keys == p.Keys + {w.identity.key};
    if p.Keys == Keys(works) {
      assert |all| == |all.Keys|;
    } else {
      assert w.identity.key in p;
      assert |Keys(works) + {w.identity.key}| > MAX_DIRTY_MESH_QUEUE by {
        assert Keys(works) + {w.identity.key} == Keys(works);
      }
    }
  }

  lemma EvictionRanks(p: Pending, all: Pending, works: seq<DirtySectionWork>, w: DirtySectionWork, player: (int, int),
                      f: SectionKey)
    requires HoldsNearest(p, works, player) && all == p[w.identity.key := w]
    requires Farthest(all, f) && forall k :: k in all ==> PriorityOf(k, all[k]) == Rank(k, player)
    ensures forall k, j :: k in all - {f} && j in Keys(works) + {w.identity.key} && j !in all - {f}
              ==> Rank(k, player).Less(Rank(j, player))
  {
    hide Rank, PriorityOf, Keys;
    var key := w.identity.key;
    forall k, j | k in all - {f} && j in Keys(works) + {key} && j !in all - {f}
      ensures Rank(k, player).Less(Rank(j, player))
    {
      if j != f && k == key {
        LessIsTransitive(Rank(key, player), Rank(f, player), Rank(j, player));
      }
    }
  }

  lemma EvictionKeeps(p: Pending, all: Pending, works: seq<DirtySectionWork>, w: DirtySectionWork, player: (int, int),
                      f: SectionKey)
    requires HoldsNearest(p, works, player) && all == p[w.identity.key := w] && |all| > MAX_DIRTY_MESH_QUEUE
    requires Farthest(all, f) && forall k :: k in all ==> PriorityOf(k, all[k]) == Rank(k, player)
    ensures var (p', keys) := (all - {f}, Keys(works) + {w.identity.key});
            && p'.Keys <= keys && |keys| > MAX_DIRTY_MESH_QUEUE && |p'| == MAX_DIRTY_MESH_QUEUE
            && forall k, j :: k in p' && j in keys && j !in p' ==> Rank(k, player).Less(Rank(j, player))
  {
    var key, p' := w.identity.key, all - {f};
    assert all.Keys == p.Keys + {key};
    assert p'.Keys == all.Keys - {f};
    SubsetIsSmaller(all.Keys, Keys(works) + {key});
    EvictionRanks(p, all, works, w, player, f);
  }

  lemma {:induction false} RunHoldsFirst(works: seq<DirtySectionWork>, states: seq<Pending>, player: (int, int))
    requires FromHere(works, player) && IsRun(works, states)
    ensures HoldsNearest(states[|works|], works, player)
    decreases |works|
  {
    if works == [] {
      assert Keys(works) == {};
    } else {
      var n := |works| - 1;
      var w := works[n];
      assert works == works[..n] + [w];
      forall i | 0 <= i < n ensures Enqueued(states[..n + 1][i], works[..n][i], states[..n + 1][i + 1]) {
        assert Enqueued(states[i], works[i], states[i + 1]);
      }
      RunHoldsFirst(works[..n], states[..n + 1], player);
      EnqueueKeeps(states[n], works[..n], w, player, states[n + 1]);
    }
  }

  /** The bounded queue is a streaming selection: after any run of enqueues from one place it holds
      exactly the nearest distinct sections, each with the latest work enqueued for it. */
  lemma RunHoldsNearest(works: seq<DirtySectionWork>, states: seq<Pending>, player: (int, int))
    requires FromHere(works, player) && IsRun(works, states)
    ensures HoldsNearest(states[|works|], works, player)
    ensures forall k, j :: k in states[|works|] && j in Keys(works) && j !in states[|works|] ==>
              ComesBefore(SectionDistance(k, player), k, SectionDistance(j, player), j)
  {
    RunHoldsFirst(works, states, player);
    forall k, j | k in states[|works|] && j in Keys(works) && j !in states[|works|]
      ensures ComesBefore(SectionDistance(k, player), k, SectionDistance(j, player), j)
    {
      LessComesBefore(Rank(k, player), Rank(j, player));
    }
  }
}
