/**
 * Identity resolution (overseer/identity.py): every frame's anonymous
 * detections are matched to the known identities by an exhaustive search over
 * assignment hypotheses, and the per-identity histories are extended with the
 * winning assignment.
 *
 * Entities are identified by their position in the frame's detection list; a
 * hypothesis is a sequence aligned with that list whose entries are either
 * `Some(identity)` or `None` ("a new identity").
 */
module Identity {
  import opened Wrappers
  import Window

  /** A detection box: centre `(x, y)`, width `w` and height `h`. */
  datatype Entity = Entity(x: int, y: int, w: int, h: int)

  type Hypothesis = seq<Option<int>>

  function Area(e: Entity): int
  {
    e.w * e.h
  }

  function Abs(z: int): nat
  {
    if z < 0 then -z else z
  }

  ghost predicate Distinct(s: seq<int>)
  {
    forall i, j :: 0 <= i < j < |s| ==> s[i] != s[j]
  }

  /** What the cost relies on of the square root it is given. */
  ghost predicate IsRoot(root: int -> real)
  {
    root(0) == 0.0 && forall z :: root(z) >= 0.0
  }

  // ---------------------------------------------------------------------------
  // Pairwise cost (YoloEntity.__sub__)
  // ---------------------------------------------------------------------------

  /**
   * `a - b`: the distance between the two centres plus the absolute difference
   * of the two areas. The square root is supplied by the caller.
   */
  function Cost(a: Entity, b: Entity, root: int -> real): real
  {
    root((a.x - b.x) * (a.x - b.x) + (a.y - b.y) * (a.y - b.y)) + Abs(Area(a) - Area(b)) as real
  }

  lemma CostSymmetric(a: Entity, b: Entity, root: int -> real)
    ensures Cost(a, b, root) == Cost(b, a, root)
  {
    assert (a.x - b.x) * (a.x - b.x) == (b.x - a.x) * (b.x - a.x);
    assert (a.y - b.y) * (a.y - b.y) == (b.y - a.y) * (b.y - a.y);
  }

  lemma CostNonNegative(a: Entity, b: Entity, root: int -> real)
    requires IsRoot(root)
    ensures Cost(a, b, root) >= 0.0
  {
  }

  lemma CostToItself(a: Entity, root: int -> real)
    requires IsRoot(root)
    ensures Cost(a, a, root) == 0.0
  {
    assert (a.x - a.x) * (a.x - a.x) + (a.y - a.y) * (a.y - a.y) == 0;
  }

  // ---------------------------------------------------------------------------
  // Hypothesis generation (_configurations)
  // ---------------------------------------------------------------------------

  /** `{x: None for x in entities}` for `n` entities. */
  function Nones(n: nat): (r: Hypothesis)
    ensures |r| == n && forall i :: 0 <= i < n ==> r[i] == None
  {
    seq(n, i => None)
  }

  /** `[x for x in ids if x != id]`. */
  function Remove(ids: seq<int>, id: int): (r: seq<int>)
    ensures |r| <= |ids|
    ensures forall y :: y in r <==> y in ids && y != id
  {
    if ids == [] then []
    else (if ids[0] == id then [] else [ids[0]]) + Remove(ids[1..], id)
  }

  /** `{entity: x, **configuration}` for every configuration of the remaining entities. */
  function Prepend(x: Option<int>, hs: seq<Hypothesis>): (r: seq<Hypothesis>)
    ensures |r| == |hs| && forall i :: 0 <= i < |hs| ==> r[i] == [x] + hs[i]
  {
    seq(|hs|, i requires 0 <= i < |hs| => [x] + hs[i])
  }

  /**
   * _configurations(entities, identities) for `n` entities, in generation
   * order: nothing for no entities, the all-new hypothesis for no identities,
   * and otherwise, identity by identity, the first entity on that identity
   * followed by every hypothesis of the remaining entities on the remaining
   * identities.
   */
  function Configurations(n: nat, ids: seq<int>): (r: seq<Hypothesis>)
    decreases n, |ids| + 1
  {
    if n == 0 then []
    else if ids == [] then [Nones(n)]
    else Branches(n, ids, 0)
  }

  /** The hypotheses that put the first entity on `ids[j]`, then on `ids[j + 1]`, and so on. */
  function Branches(n: nat, ids: seq<int>, j: nat): (r: seq<Hypothesis>)
    requires 0 < n && j <= |ids|
    decreases n, |ids| - j
  {
    if j == |ids| then []
    else
      var rest := Configurations(n - 1, Remove(ids, ids[j]));
      Prepend(Some(ids[j]), rest) + Branches(n, ids, j + 1)
  }

  /**
   * What a generated hypothesis looks like: there are more entities than
   * identities, the first |ids| entities receive distinct known identities
   * (hence a permutation of them) and every other entity is new.
   */
  ghost predicate IsHypothesis(h: Hypothesis, n: nat, ids: seq<int>)
  {
    && |h| == n && |ids| < n
    && (forall i :: 0 <= i < |ids| ==> h[i].Some? && h[i].value in ids)
    && (forall i :: |ids| <= i < n ==> h[i] == None)
    && (forall i, j :: 0 <= i < j < |ids| ==> h[i] != h[j])
  }

  /** No identity is used twice. */
  ghost predicate Injective(h: Hypothesis)
  {
    forall i, j :: 0 <= i < j < |h| && h[i].Some? && h[j].Some? ==> h[i].value != h[j].value
  }

  lemma {:induction false} RemoveDistinct(ids: seq<int>, id: int)
    requires Distinct(ids)
    ensures Distinct(Remove(ids, id))
    ensures id in ids ==> |Remove(ids, id)| == |ids| - 1
    ensures id !in ids ==> Remove(ids, id) == ids
  {
    if ids != [] {
      RemoveDistinct(ids[1..], id);
      var rest := Remove(ids[1..], id);
      if ids[0] != id {
        assert ids[0] !in rest by {
          assert ids[0] !in ids[1..];
        }
        assert Remove(ids, id) == [ids[0]] + rest;
      }
      if id !in ids {
        assert ids == [ids[0]] + ids[1..];
      }
    }
  }

  /** The shape of a generated hypothesis, in the form `ResolveDistinct` consumes. */
  lemma HypothesisIsInjective(h: Hypothesis, n: nat, ids: seq<int>)
    requires IsHypothesis(h, n, ids)
    ensures Injective(h)
  {
  }

  lemma {:induction false} ConfigurationsSound(n: nat, ids: seq<int>)
    requires Distinct(ids)
    ensures forall h :: h in Configurations(n, ids) ==> IsHypothesis(h, n, ids)
    decreases n, |ids| + 1
  {
    if n > 0 && ids != [] {
      BranchesSound(n, ids, 0);
    }
  }

  lemma {:induction false} BranchesSound(n: nat, ids: seq<int>, j: nat)
    requires 0 < n && j <= |ids| && Distinct(ids)
    ensures forall h :: h in Branches(n, ids, j) ==> IsHypothesis(h, n, ids)
    decreases n, |ids| - j
  {
    if j < |ids| {
      var x := ids[j];
      var rids := Remove(ids, x);
      var rest := Configurations(n - 1, rids);
      RemoveDistinct(ids, x);
      ConfigurationsSound(n - 1, rids);
      BranchesSound(n, ids, j + 1);
      forall h: Hypothesis | h in Prepend(Some(x), rest)
        ensures IsHypothesis(h, n, ids)
      {
        var k :| 0 <= k < |rest| && h == [Some(x)] + rest[k];
        assert rest[k] in rest;
        ConsIsHypothesis(x, rest[k], n, ids);
      }
    }
  }

  /** A known identity in front of a hypothesis over the remaining identities makes a hypothesis. */
  lemma ConsIsHypothesis(x: int, c: Hypothesis, n: nat, ids: seq<int>)
    requires 0 < n && x in ids && Distinct(ids) && IsHypothesis(c, n - 1, Remove(ids, x))
    ensures IsHypothesis([Some(x)] + c, n, ids)
  {
    RemoveDistinct(ids, x);
    ConsKnown(x, c, ids);
    ConsNew(x, c, |ids|);
    ConsInjective(x, c, |ids| - 1);
  }

  /** In the extended hypothesis the first |ids| entities carry known identities, and `x` is not used again. */
  lemma ConsKnown(x: int, c: Hypothesis, ids: seq<int>)
    requires x in ids && |Remove(ids, x)| == |ids| - 1 < |c|
    requires forall i :: 0 <= i < |ids| - 1 ==> c[i].Some? && c[i].value in Remove(ids, x)
    ensures forall i :: 0 <= i < |ids| ==> ([Some(x)] + c)[i].Some? && ([Some(x)] + c)[i].value in ids
    ensures forall i :: 0 <= i < |ids| - 1 ==> c[i] != Some(x)
  {
    var h := [Some(x)] + c;
    forall i | 0 <= i < |ids|
      ensures h[i].Some? && h[i].value in ids
    {
      if i > 0 {
        assert h[i] == c[i - 1];
      }
    }
  }

  /** The entities after the first `m` stay new. */
  lemma ConsNew(x: int, c: Hypothesis, m: nat)
    requires 0 < m
    requires forall i :: m - 1 <= i < |c| ==> c[i] == None
    ensures forall i :: m <= i < |c| + 1 ==> ([Some(x)] + c)[i] == None
  {
    var h := [Some(x)] + c;
    forall i | m <= i < |c| + 1
      ensures h[i] == None
    {
      assert h[i] == c[i - 1];
    }
  }

  /** The known identities of the extended hypothesis stay pairwise different. */
  lemma ConsInjective(x: int, c: Hypothesis, m: nat)
    requires m <= |c|
    requires forall i :: 0 <= i < m ==> c[i] != Some(x)
    requires forall i, j :: 0 <= i < j < m ==> c[i] != c[j]
    ensures forall i, j :: 0 <= i < j < m + 1 ==> ([Some(x)] + c)[i] != ([Some(x)] + c)[j]
  {
    var h := [Some(x)] + c;
    forall i, j | 0 <= i < j < m + 1
      ensures h[i] != h[j]
    {
      assert h[j] == c[j - 1];
      if i > 0 {
        assert h[i] == c[i - 1];
      }
    }
  }

  lemma {:induction false} BranchesContain(n: nat, ids: seq<int>, j: nat, k: nat, c: Hypothesis)
    requires 0 < n && j <= k < |ids|
    requires c in Configurations(n - 1, Remove(ids, ids[k]))
    ensures [Some(ids[k])] + c in Branches(n, ids, j)
    decreases k - j
  {
    if j == k {
      FirstBranchContains(n, ids, j, c);
    } else {
      BranchesContain(n, ids, j + 1, k, c);
      LaterBranchContains(n, ids, j, [Some(ids[k])] + c);
    }
  }

  /** The branch of `ids[j]` holds `ids[j]` in front of every hypothesis of the rest. */
  lemma FirstBranchContains(n: nat, ids: seq<int>, j: nat, c: Hypothesis)
    requires 0 < n && j < |ids|
    requires c in Configurations(n - 1, Remove(ids, ids[j]))
    ensures [Some(ids[j])] + c in Branches(n, ids, j)
  {
    var rest := Configurations(n - 1, Remove(ids, ids[j]));
    var m :| 0 <= m < |rest| && rest[m] == c;
    assert Prepend(Some(ids[j]), rest)[m] == [Some(ids[j])] + c;
  }

  /** Branches from `j` include those from `j + 1`. */
  lemma LaterBranchContains(n: nat, ids: seq<int>, j: nat, h: Hypothesis)
    requires 0 < n && j < |ids|
    requires h in Branches(n, ids, j + 1)
    ensures h in Branches(n, ids, j)
  {
  }

  /**
   * The first entity of a hypothesis has some identity `ids[k]`; the rest is a
   * hypothesis over the remaining identities.
   */
  lemma TailIsHypothesis(h: Hypothesis, n: nat, ids: seq<int>) returns (k: nat)
    requires Distinct(ids) && IsHypothesis(h, n, ids) && ids != []
    ensures k < |ids| && h[0] == Some(ids[k])
    ensures Distinct(Remove(ids, ids[k])) && IsHypothesis(h[1..], n - 1, Remove(ids, ids[k]))
  {
    k :| 0 <= k < |ids| && ids[k] == h[0].value;
    var x := ids[k];
    var rids := Remove(ids, x);
    RemoveDistinct(ids, x);
    var c := h[1..];
    forall i | 0 <= i < |rids|
      ensures c[i].Some? && c[i].value in rids
    {
      assert c[i] == h[i + 1] && h[0] != h[i + 1];
    }
    forall i | |rids| <= i < n - 1
      ensures c[i] == None
    {
      assert c[i] == h[i + 1];
    }
    forall i, i' | 0 <= i < i' < |rids|
      ensures c[i] != c[i']
    {
      assert c[i] == h[i + 1] && c[i'] == h[i' + 1];
    }
  }

  /** Every hypothesis of the shape IsHypothesis describes is generated. */
  lemma {:induction false} ConfigurationsComplete(n: nat, ids: seq<int>, h: Hypothesis)
    requires Distinct(ids) && IsHypothesis(h, n, ids)
    ensures h in Configurations(n, ids)
    decreases n, 1
  {
    if ids == [] {
      NonesComplete(n, h);
    } else {
      var k := TailIsHypothesis(h, n, ids);
      ConsComplete(n, ids, k, h);
    }
  }

  /** A hypothesis whose first entity is on `ids[k]` and whose rest is generated for the rest is generated. */
  lemma {:induction false} ConsComplete(n: nat, ids: seq<int>, k: nat, h: Hypothesis)
    requires 0 < n && k < |ids| && h != [] && h[0] == Some(ids[k])
    requires Distinct(Remove(ids, ids[k])) && IsHypothesis(h[1..], n - 1, Remove(ids, ids[k]))
    ensures h in Configurations(n, ids)
    decreases n, 0
  {
    ConfigurationsComplete(n - 1, Remove(ids, ids[k]), h[1..]);
    ConsInConfigurations(n, ids, k, h[1..]);
    Uncons(h);
  }

  /** With no identities, the one hypothesis is the all-new one. */
  lemma NonesComplete(n: nat, h: Hypothesis)
    requires IsHypothesis(h, n, [])
    ensures h in Configurations(n, [])
  {
    assert h == Nones(n);
  }

  /** Putting the first entity on `ids[k]` in front of a hypothesis of the rest gives a generated one. */
  lemma ConsInConfigurations(n: nat, ids: seq<int>, k: nat, c: Hypothesis)
    requires 0 < n && k < |ids|
    requires c in Configurations(n - 1, Remove(ids, ids[k]))
    ensures [Some(ids[k])] + c in Configurations(n, ids)
  {
    BranchesContain(n, ids, 0, k, c);
  }

  lemma Uncons(h: Hypothesis)
    requires h != []
    ensures h == [h[0]] + h[1..]
  {
  }

  /** Hypotheses exist exactly when there are more entities than identities. */
  lemma ConfigurationsExist(n: nat, ids: seq<int>)
    requires Distinct(ids)
    ensures Configurations(n, ids) != [] <==> |ids| < n
  {
    ConfigurationsSound(n, ids);
    if Configurations(n, ids) != [] {
      assert Configurations(n, ids)[0] in Configurations(n, ids);
    }
    if |ids| < n {
      var h := seq(n, i requires 0 <= i < n => if i < |ids| then Some(ids[i]) else None);
      assert IsHypothesis(h, n, ids);
      ConfigurationsComplete(n, ids, h);
    }
  }

  /** With no known identity, the single hypothesis makes every entity new. */
  lemma ConfigurationsWithoutIdentities(n: nat)
    requires 0 < n
    ensures Configurations(n, []) == [Nones(n)]
  {
  }

  /** With no entity there is no hypothesis at all. */
  lemma ConfigurationsWithoutEntities(ids: seq<int>)
    ensures Configurations(0, ids) == []
  {
  }

  // ---------------------------------------------------------------------------
  // Hypothesis cost (_test_configuration) and selection (min with a key)
  // ---------------------------------------------------------------------------

  /** `h` is aligned with the entities and names only identities of the snapshot. */
  ghost predicate Fits(h: Hypothesis, entities: seq<Entity>, snapshot: map<int, Entity>)
  {
    |h| == |entities| && forall i :: 0 <= i < |h| && h[i].Some? ==> h[i].value in snapshot
  }

  /** The summed cost of the matched pairs of `h`; new entities cost nothing. */
  function TestConfiguration(h: Hypothesis, entities: seq<Entity>, snapshot: map<int, Entity>, root: int -> real): real
    requires Fits(h, entities, snapshot)
  {
    if h == [] then 0.0
    else
      (if h[0].Some? then Cost(entities[0], snapshot[h[0].value], root) else 0.0)
      + TestConfiguration(h[1..], entities[1..], snapshot, root)
  }

  lemma {:induction false} AllNewCostsNothing(h: Hypothesis, entities: seq<Entity>, snapshot: map<int, Entity>, root: int -> real)
    requires Fits(h, entities, snapshot)
    requires forall i :: 0 <= i < |h| ==> h[i] == None
    ensures TestConfiguration(h, entities, snapshot, root) == 0.0
  {
    if h != [] {
      AllNewCostsNothing(h[1..], entities[1..], snapshot, root);
    }
  }

  lemma {:induction false} TestConfigurationNonNegative(h: Hypothesis, entities: seq<Entity>, snapshot: map<int, Entity>, root: int -> real)
    requires Fits(h, entities, snapshot) && IsRoot(root)
    ensures TestConfiguration(h, entities, snapshot, root) >= 0.0
  {
    if h != [] {
      TestConfigurationNonNegative(h[1..], entities[1..], snapshot, root);
      if h[0].Some? {
        CostNonNegative(entities[0], snapshot[h[0].value], root);
      }
    }
  }

  /**
   * The position `min` picks: it keeps the first element and replaces it only
   * by a strictly cheaper one, so the result is the first of the cheapest.
   */
  function ArgMin(costs: seq<real>): (k: nat)
    requires |costs| > 0
    ensures k < |costs|
    ensures forall j :: 0 <= j < |costs| ==> costs[k] <= costs[j]
    ensures forall j :: 0 <= j < k ==> costs[k] < costs[j]
  {
    if |costs| == 1 then 0
    else
      var k := ArgMin(costs[..|costs| - 1]);
      if costs[|costs| - 1] < costs[k] then |costs| - 1 else k
  }

  /**
   * `min(hypotheses, key=cost, default={})`: the empty assignment when there is
   * no hypothesis, otherwise a cheapest hypothesis, the earliest one on a tie.
   */
  function BestFit(hypotheses: seq<Hypothesis>, entities: seq<Entity>, snapshot: map<int, Entity>, root: int -> real): (best: Hypothesis)
    requires forall h :: h in hypotheses ==> Fits(h, entities, snapshot)
    ensures best == [] <==> hypotheses == [] || entities == []
    ensures hypotheses != [] ==> best in hypotheses
    ensures best != [] ==> Fits(best, entities, snapshot)
    ensures forall j :: 0 <= j < |hypotheses| && hypotheses != [] ==>
      TestConfiguration(best, entities, snapshot, root) <= TestConfiguration(hypotheses[j], entities, snapshot, root)
    ensures forall j :: 0 <= j < |hypotheses| ==>
      (TestConfiguration(hypotheses[j], entities, snapshot, root) == TestConfiguration(best, entities, snapshot, root)
       ==> best in hypotheses[..j + 1])
  {
    if hypotheses == [] then []
    else
      var costs := seq(|hypotheses|, i requires 0 <= i < |hypotheses| => TestConfiguration(hypotheses[i], entities, snapshot, root));
      var k := ArgMin(costs);
      assert forall j :: 0 <= j < |hypotheses| ==> costs[j] == TestConfiguration(hypotheses[j], entities, snapshot, root);
      assert hypotheses[k] in hypotheses;
      assert Fits(hypotheses[k], entities, snapshot);
      assert hypotheses[..k + 1][k] == hypotheses[k];
      hypotheses[k]
  }

  /** Every generated hypothesis can be costed against a snapshot that knows all the identities. */
  lemma ConfigurationsFit(entities: seq<Entity>, ids: seq<int>, snapshot: map<int, Entity>)
    requires Distinct(ids) && forall k :: k in ids ==> k in snapshot
    ensures forall h :: h in Configurations(|entities|, ids) ==> Fits(h, entities, snapshot)
  {
    ConfigurationsSound(|entities|, ids);
  }

  /**
   * The hypothesis `update` settles on: the cheapest of the generated ones,
   * the first in generation order on a tie, or none at all.
   */
  function Winner(entities: seq<Entity>, ids: seq<int>, snapshot: map<int, Entity>, root: int -> real): (best: Hypothesis)
    requires Distinct(ids) && forall k :: k in ids ==> k in snapshot
    ensures best == [] || best in Configurations(|entities|, ids)
  {
    ConfigurationsFit(entities, ids, snapshot);
    BestFit(Configurations(|entities|, ids), entities, snapshot, root)
  }

  // ---------------------------------------------------------------------------
  // Minting new identities (itertools.count(next_identity))
  // ---------------------------------------------------------------------------

  function CountNone(h: Hypothesis): nat
  {
    if h == [] then 0 else (if h[0] == None then 1 else 0) + CountNone(h[1..])
  }

  /** The identity each entity ends up with: its own, or the next fresh one in entity order. */
  function Resolve(h: Hypothesis, next: int): (ids: seq<int>)
    ensures |ids| == |h|
  {
    if h == [] then []
    else match h[0]
      case Some(k) => [k] + Resolve(h[1..], next)
      case None => [next] + Resolve(h[1..], next + 1)
  }

  lemma {:induction false} CountNoneSnoc(h: Hypothesis, x: Option<int>)
    ensures CountNone(h + [x]) == CountNone(h) + (if x == None then 1 else 0)
  {
    if h != [] {
      assert (h + [x])[1..] == h[1..] + [x];
      CountNoneSnoc(h[1..], x);
    }
  }

  lemma {:induction false} CountNoneGrows(h: Hypothesis, i: nat, j: nat)
    requires i < j <= |h| && h[i] == None
    ensures CountNone(h[..i]) < CountNone(h[..j])
    decreases j
  {
    assert h[..j] == h[..j - 1] + [h[j - 1]];
    CountNoneSnoc(h[..j - 1], h[j - 1]);
    if i < j - 1 {
      CountNoneGrows(h, i, j - 1);
    }
  }

  /**
   * A new entity at position `j` receives `next` plus the number of new
   * entities before it: the fresh identities are consecutive, in entity order.
   */
  lemma {:induction false} ResolveAt(h: Hypothesis, next: int, j: nat)
    requires j < |h|
    ensures Resolve(h, next)[j] == if h[j].Some? then h[j].value else next + CountNone(h[..j])
  {
    if j > 0 {
      var next' := if h[0] == None then next + 1 else next;
      ResolveAt(h[1..], next', j - 1);
      assert h[..j][1..] == h[1..][..j - 1];
    }
  }

  /** The identities of one frame are pairwise different, and the fresh ones lie at or above `next`. */
  lemma ResolveDistinct(h: Hypothesis, next: int)
    requires Injective(h)
    requires forall i :: 0 <= i < |h| && h[i].Some? ==> h[i].value < next
    ensures Distinct(Resolve(h, next))
    ensures forall j :: 0 <= j < |h| && h[j] == None ==> Resolve(h, next)[j] >= next
  {
    var ids := Resolve(h, next);
    forall j | 0 <= j < |h|
      ensures ids[j] == if h[j].Some? then h[j].value else next + CountNone(h[..j])
    {
      ResolveAt(h, next, j);
    }
    forall i, j | 0 <= i < j < |h|
      ensures ids[i] != ids[j]
    {
      if h[i] == None && h[j] == None {
        CountNoneGrows(h, i, j);
      }
    }
  }

  /** With every entity new, the frame's identities are next, next + 1, ..., next + n - 1. */
  lemma {:induction false} MintAll(n: nat, next: int)
    ensures Resolve(Nones(n), next) == seq(n, i => next + i)
  {
    if n > 0 {
      assert Nones(n)[1..] == Nones(n - 1);
      MintAll(n - 1, next + 1);
    }
  }

  function MaxKey(keys: seq<int>): (m: int)
    ensures forall k :: k in keys ==> k <= m
    ensures keys == [] ==> m == -1
    ensures keys != [] ==> m in keys
  {
    if keys == [] then -1
    else
      var m := MaxKey(keys[1..]);
      assert keys == [keys[0]] + keys[1..];
      if keys[1..] == [] || keys[0] > m then keys[0] else m
  }

  /** `dict.get(k, [])`. */
  function Prior(histories: map<int, seq<Entity>>, k: int): seq<Entity>
  {
    if k in histories then histories[k] else []
  }

  /**
   * The winner of a frame resolves into pairwise different identities: the
   * known ones come from `order`, the fresh ones lie at or above `next`.
   */
  lemma WinnerResolves(best: Hypothesis, n: nat, order: seq<int>, next: int)
    requires Distinct(order) && (forall k :: k in order ==> k < next)
    requires best == [] || best in Configurations(n, order)
    ensures best == [] || (|best| == n && |order| < n)
    ensures Distinct(Resolve(best, next))
    ensures forall j :: 0 <= j < |best| ==>
      if best[j] == None then Resolve(best, next)[j] >= next else Resolve(best, next)[j] in order
  {
    if best != [] {
      ConfigurationsSound(n, order);
      assert IsHypothesis(best, n, order);
      HypothesisIsInjective(best, n, order);
    }
    ResolveDistinct(best, next);
    forall j | 0 <= j < |best| && best[j] != None
      ensures Resolve(best, next)[j] in order
    {
      ResolveAt(best, next, j);
    }
  }

  /**
   * A new entity takes the next fresh identity, and only a new entity moves the
   * counter on. The first clause is `ResolveAt` at `i`, repeated so that one call
   * gives the loop of `Extend` both facts it needs for a step.
   */
  lemma ResolveStep(h: Hypothesis, next: int, i: nat)
    requires i < |h|
    ensures Resolve(h, next)[i] == if h[i].Some? then h[i].value else next + CountNone(h[..i])
    ensures CountNone(h[..i + 1]) == CountNone(h[..i]) + if h[i] == None then 1 else 0
  {
    ResolveAt(h, next, i);
    assert h[..i + 1] == h[..i] + [h[i]];
    CountNoneSnoc(h[..i], h[i]);
  }

  /**
   * The mapping `update` builds: identity `ids[j]` gets its prior history
   * extended with `es[j]` and trimmed to `d` entries, later writes winning.
   */
  function Build(prior: map<int, seq<Entity>>, ids: seq<int>, es: seq<Entity>, d: int): map<int, seq<Entity>>
    requires |ids| <= |es|
  {
    if ids == [] then map[]
    else
      var n := |ids| - 1;
      Build(prior, ids[..n], es, d)[ids[n] := Window.Push(Prior(prior, ids[n]), es[n], d)]
  }

  lemma BuildStep(prior: map<int, seq<Entity>>, ids: seq<int>, es: seq<Entity>, d: int, i: nat)
    requires i < |ids| <= |es|
    ensures Build(prior, ids[..i + 1], es, d) ==
      Build(prior, ids[..i], es, d)[ids[i] := Window.Push(Prior(prior, ids[i]), es[i], d)]
  {
    assert ids[..i + 1][..i] == ids[..i];
  }

  /** The keys of the built mapping are exactly the identities of the frame. */
  lemma {:induction false} BuildKeys(prior: map<int, seq<Entity>>, ids: seq<int>, es: seq<Entity>, d: int)
    requires |ids| <= |es|
    ensures forall k :: k in Build(prior, ids, es, d) <==> k in ids
  {
    if ids != [] {
      var n := |ids| - 1;
      BuildKeys(prior, ids[..n], es, d);
      assert ids == ids[..n] + [ids[n]];
    }
  }

  /** An identity not yet reached is not in the mapping built so far. */
  lemma BuildFresh(prior: map<int, seq<Entity>>, ids: seq<int>, es: seq<Entity>, d: int, i: nat)
    requires i < |ids| <= |es| && Distinct(ids)
    ensures ids[i] !in Build(prior, ids[..i], es, d)
  {
    BuildKeys(prior, ids[..i], es, d);
  }

  /** With pairwise different identities, each one holds its own extended history. */
  lemma {:induction false} BuildAt(prior: map<int, seq<Entity>>, ids: seq<int>, es: seq<Entity>, d: int)
    requires |ids| <= |es| && Distinct(ids)
    ensures forall j :: 0 <= j < |ids| ==>
      ids[j] in Build(prior, ids, es, d) &&
      Build(prior, ids, es, d)[ids[j]] == Window.Push(Prior(prior, ids[j]), es[j], d)
  {
    if ids != [] {
      var n := |ids| - 1;
      BuildAt(prior, ids[..n], es, d);
      BuildKeys(prior, ids[..n], es, d);
    }
  }

  /**
   * The store after `update`: the lists of known identities are the ones the
   * new mapping extended in place; identities it does not mention keep theirs.
   */
  function Merge(prior: map<int, seq<Entity>>, updated: map<int, seq<Entity>>): map<int, seq<Entity>>
  {
    map k | k in prior :: if k in updated then updated[k] else prior[k]
  }

  /** The store keeps its identities; an identity of the new mapping takes its new list. */
  lemma MergeAt(prior: map<int, seq<Entity>>, updated: map<int, seq<Entity>>)
    ensures Merge(prior, updated).Keys == prior.Keys
    ensures forall k :: k in prior && k !in updated ==> Merge(prior, updated)[k] == prior[k]
    ensures forall k :: k in prior && k in updated ==> Merge(prior, updated)[k] == updated[k]
  {
  }

  lemma MergeStep(prior: map<int, seq<Entity>>, updated: map<int, seq<Entity>>, k: int, h: seq<Entity>)
    ensures Merge(prior, updated[k := h]) ==
      if k in prior then Merge(prior, updated)[k := h] else Merge(prior, updated)
  {
  }

  /**
   * One step of the loop of `update`: the list the store holds for `ids[i]`
   * (or a new one) is extended and written back, both into the new mapping
   * and, for a known identity, into the store.
   */
  lemma StoreStep(prior: map<int, seq<Entity>>, ids: seq<int>, es: seq<Entity>, d: int, i: nat)
    requires i < |ids| <= |es| && Distinct(ids)
    ensures var updated := Build(prior, ids[..i], es, d);
      var stored := Merge(prior, updated);
      var history := Window.Push(if ids[i] in stored then stored[ids[i]] else [], es[i], d);
      && Build(prior, ids[..i + 1], es, d) == updated[ids[i] := history]
      && Merge(prior, updated[ids[i] := history]) == if ids[i] in stored then stored[ids[i] := history] else stored
  {
    var updated := Build(prior, ids[..i], es, d);
    BuildFresh(prior, ids, es, d, i);
    BuildStep(prior, ids, es, d, i);
    MergeStep(prior, updated, ids[i], Window.Push(Prior(prior, ids[i]), es[i], d));
  }

  /**
   * The loop of `update`: walks the winning hypothesis in entity order, takes
   * the next fresh identity for each new entity, and extends (and trims) the
   * identity's list, which is shared with the store `prior`.
   */
  method Extend(best: Hypothesis, next: int, prior: map<int, seq<Entity>>, entities: seq<Entity>, d: int)
      returns (updated: map<int, seq<Entity>>, stored: map<int, seq<Entity>>)
    requires |best| <= |entities| && Distinct(Resolve(best, next))
    ensures updated == Build(prior, Resolve(best, next), entities, d)
    ensures stored == Merge(prior, updated)
  {
    ghost var ids := Resolve(best, next);
    updated := map[];
    stored := prior;
    var available := next;
    var i := 0;
    while i < |best|
      invariant 0 <= i <= |best| == |ids|
      invariant available == next + CountNone(best[..i])
      invariant updated == Build(prior, ids[..i], entities, d)
      invariant stored == Merge(prior, updated)
    {
      ResolveStep(best, next, i);
      var identity: int;
      if best[i] == None {
        identity := available;
        available := available + 1;
      } else {
        identity := best[i].value;
      }
      StoreStep(prior, ids, entities, d, i);
      // extend the list, trimming its oldest entry past the duration
      var history := Window.Push(if identity in stored then stored[identity] else [], entities[i], d);
      updated := updated[identity := history];
      if identity in stored {
        stored := stored[identity := history];
      }
      i := i + 1;
    }
    assert ids[..|ids|] == ids;
  }

  /** The identities `update` hands out for one frame, entity by entity. */
  function FrameIdentities(entities: seq<Entity>, order: seq<int>, snapshot: map<int, Entity>, next: int, root: int -> real): seq<int>
    requires Distinct(order) && forall k :: k in order ==> k in snapshot
  {
    Resolve(Winner(entities, order, snapshot, root), next)
  }

  /**
   * The identities of one frame: with more entities than known identities
   * every entity gets one, pairwise different, a matched entity its known
   * identity and a new one a fresh identity at or above `next`; otherwise
   * nothing is assigned.
   */
  lemma FrameIdentitiesSound(order: seq<int>, entities: seq<Entity>, snapshot: map<int, Entity>, next: int, root: int -> real)
    requires Distinct(order) && forall k :: k in order ==> k in snapshot && k < next
    ensures var best := Winner(entities, order, snapshot, root);
      var ids := FrameIdentities(entities, order, snapshot, next, root);
      && |ids| == |best| <= |entities|
      && (|entities| <= |order| ==> ids == [])
      && (|order| < |entities| ==> |ids| == |entities|)
      && Distinct(ids)
      && (forall j :: 0 <= j < |ids| && best[j] == None ==> ids[j] >= next)
      && (forall j :: 0 <= j < |ids| && best[j] != None ==> ids[j] == best[j].value && ids[j] in order)
  {
    var best := Winner(entities, order, snapshot, root);
    var ids := FrameIdentities(entities, order, snapshot, next, root);
    ConfigurationsExist(|entities|, order);
    ConfigurationsFit(entities, order, snapshot);
    WinnerResolves(best, |entities|, order, next);
    forall j | 0 <= j < |ids| && best[j] != None
      ensures ids[j] == best[j].value
    {
      ResolveAt(best, next, j);
    }
  }

  /** With no known identity, the winner makes every entity new. */
  lemma WinnerWithoutIdentities(entities: seq<Entity>, root: int -> real)
    ensures Winner(entities, [], map[], root) == Nones(|entities|)
  {
    var n := |entities|;
    if n > 0 {
      ConfigurationsWithoutIdentities(n);
      var best := Winner(entities, [], map[], root);
      assert best in [Nones(n)];
    }
  }

  /** The frame's entries on the fresh identities `ids`, `Prior` being empty for each. */
  lemma BuildFromNothing(ids: seq<int>, entities: seq<Entity>, d: int)
    requires ids == seq(|entities|, i => i)
    ensures forall j :: j in Build(map[], ids, entities, d) <==> 0 <= j < |entities|
    ensures forall j :: 0 <= j < |entities| ==>
      Build(map[], ids, entities, d)[j] == if d >= 1 then [entities[j]] else []
  {
    assert forall j :: 0 <= j < |ids| ==> ids[j] == j;
    assert Distinct(ids);
    BuildKeys(map[], ids, entities, d);
    BuildAt(map[], ids, entities, d);
    forall j
      ensures j in ids <==> 0 <= j < |entities|
    {
      if 0 <= j < |entities| {
        assert ids[j] == j;
      }
    }
    forall j | 0 <= j < |entities|
      ensures Build(map[], ids, entities, d)[j] == if d >= 1 then [entities[j]] else []
    {
      assert ids[j] == j;
      assert Window.Push([], entities[j], d) == if d >= 1 then [entities[j]] else [];
    }
  }

  /**
   * As written, `update` never adds a key to the store, so a store that starts
   * empty stays empty: in every frame all entities are new, they take the
   * identities 0, 1, ..., n-1, and each starts a history of its own. No
   * detection is ever matched to one of an earlier frame.
   */
  lemma FreshStoreNeverMatches(entities: seq<Entity>, root: int -> real, d: int, ids: seq<int>)
    requires ids == FrameIdentities(entities, [], map[], 0, root)
    ensures ids == seq(|entities|, i => i)
    ensures forall j :: j in Build(map[], ids, entities, d) <==> 0 <= j < |entities|
    ensures forall j :: 0 <= j < |entities| ==>
      Build(map[], ids, entities, d)[j] == if d >= 1 then [entities[j]] else []
    ensures Merge(map[], Build(map[], ids, entities, d)) == map[]
  {
    WinnerWithoutIdentities(entities, root);
    MintAll(|entities|, 0);
    assert ids == seq(|entities|, i => i);
    BuildFromNothing(ids, entities, d);
  }

  /**
   * The store of identified histories: `order` lists its identities once each,
   * in insertion order, and every identity has a non-empty history.
   */
  ghost predicate Consistent(order: seq<int>, identified: map<int, seq<Entity>>)
  {
    && Distinct(order)
    && (forall i :: 0 <= i < |order| ==> order[i] in identified)
    && (forall k :: k in identified ==> k in order)
    && (forall k :: k in identified ==> |identified[k]| > 0)
  }

  /** Writing a frame's histories back into a consistent store keeps it consistent. */
  lemma MergeConsistent(order: seq<int>, prior: map<int, seq<Entity>>, ids: seq<int>, entities: seq<Entity>, d: int)
    requires Consistent(order, prior) && |ids| <= |entities| && Distinct(ids)
    ensures Consistent(order, Merge(prior, Build(prior, ids, entities, d)))
  {
    var built := Build(prior, ids, entities, d);
    var r := Merge(prior, built);
    MergeAt(prior, built);
    BuildKeys(prior, ids, entities, d);
    BuildAt(prior, ids, entities, d);
    forall k | k in r
      ensures |r[k]| > 0
    {
      if k in built {
        var j :| 0 <= j < |ids| && ids[j] == k;
        Window.PushShape(prior[k], entities[j], d);
      }
    }
  }

  /** A store whose keys are those of `order` is empty exactly when `order` is. */
  lemma KeysEmpty(order: seq<int>, identified: map<int, seq<Entity>>)
    requires forall i :: 0 <= i < |order| ==> order[i] in identified
    requires forall k :: k in identified ==> k in order
    ensures order == [] <==> identified == map[]
  {
    if order == [] {
      assert forall k :: k !in identified;
      assert identified == map[];
    } else {
      assert order[0] in identified;
    }
  }

  // ---------------------------------------------------------------------------
  // The identity store (class Histories)
  // ---------------------------------------------------------------------------

  class Histories {
    /** The keys of `identified_histories`, in insertion order (the order the hypotheses follow). */
    var order: seq<int>
    /** identified_histories: identity -> its history, oldest first. */
    var identified: map<int, seq<Entity>>
    /** The attribute `histories` that `update` assigns. */
    var histories: map<int, seq<Entity>>
    const historyDuration: int

    ghost predicate Valid()
      reads this
    {
      Consistent(order, identified)
    }

    constructor (historyDuration: int)
      ensures Valid()
      ensures order == [] && identified == map[] && histories == map[]
      ensures this.historyDuration == historyDuration
    {
      order := [];
      identified := map[];
      histories := map[];
      this.historyDuration := historyDuration;
    }

    /** `max(identified_histories, default=-1) + 1`. */
    function NextIdentity(): (r: int)
      reads this
      requires Valid()
      ensures forall k :: k in identified ==> k < r
      ensures identified == map[] ==> r == 0
      ensures identified != map[] ==> r - 1 in identified
    {
      KeysEmpty(order, identified);
      MaxKey(order) + 1
    }

    /** Each identity with the last entry of its history. */
    function GetSnapshot(): (s: map<int, Entity>)
      reads this
      requires Valid()
      ensures s.Keys == identified.Keys
      ensures forall k :: k in s ==> s[k] in identified[k] && s[k] == identified[k][|identified[k]| - 1]
    {
      map k | k in identified :: identified[k][|identified[k]| - 1]
    }

    /**
     * `update(anonymous_entities)`. The winning hypothesis is resolved into
     * identities (fresh ones counted up from NextIdentity); each of those
     * identities gets its previous history, or a new empty one, extended with
     * its entity. The lists of known identities are the ones stored in
     * `identified`, so those entries change too; the new mapping itself is
     * written to `histories`, and the key set of `identified` stays as it was.
     */
    method Update(entities: seq<Entity>, root: int -> real)
      requires Valid()
      modifies this
      ensures Valid()
      ensures order == old(order)
      ensures histories ==
        Build(old(identified), FrameIdentities(entities, old(order), old(GetSnapshot()), old(NextIdentity()), root),
              entities, historyDuration)
      ensures identified == Merge(old(identified), histories)
      ensures identified.Keys == old(identified).Keys
      ensures |entities| <= |old(order)| ==> histories == map[]
    {
      var next := NextIdentity();
      var best := Winner(entities, order, GetSnapshot(), root);
      FrameIdentitiesSound(order, entities, GetSnapshot(), next, root);
      var updated, stored := Extend(best, next, identified, entities, historyDuration);
      MergeConsistent(order, identified, Resolve(best, next), entities, historyDuration);
      MergeAt(identified, updated);
      identified := stored;
      histories := updated;
    }
  }
}
