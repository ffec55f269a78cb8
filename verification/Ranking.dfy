/** Descriptive Pareto ranking of the education groups of one budget
    (evals/education_memory_upgrade/report.py: dominates, rank_education).

    The two primary and the two secondary rates of a group are numbers; rounding plays no part. */
module Ranking {
  import opened Sequences

  datatype Vector = Vector(x: real, y: real)

  predicate Dominates(a: Vector, b: Vector) {
    a.x >= b.x && a.y >= b.y && (a.x > b.x || a.y > b.y)
  }

  // ---- What a layer means ------------------------------------------------------------------

  ghost predicate IsChain(pool: set<Vector>, chain: seq<Vector>) {
    && chain != []
    && (forall i :: 0 <= i < |chain| ==> chain[i] in pool)
    && (forall i :: 0 <= i < |chain| - 1 ==> Dominates(chain[i], chain[i + 1]))
  }

  ghost predicate ChainTo(pool: set<Vector>, chain: seq<Vector>, v: Vector) {
    IsChain(pool, chain) && chain[|chain| - 1] == v
  }

  ghost predicate HasChain(pool: set<Vector>, v: Vector, n: nat) {
    exists chain :: ChainTo(pool, chain, v) && |chain| == n
  }

  /** `n` is the length of the longest chain of dominance in `pool` that ends at `v`. */
  ghost predicate LayerIs(pool: set<Vector>, v: Vector, n: nat) {
    HasChain(pool, v, n) && forall chain :: ChainTo(pool, chain, v) ==> |chain| <= n
  }

  lemma LayerIsUnique(pool: set<Vector>, v: Vector, m: nat, n: nat)
    requires LayerIs(pool, v, m) && LayerIs(pool, v, n)
    ensures m == n
  {
    var c :| ChainTo(pool, c, v) && |c| == m;
    var d :| ChainTo(pool, d, v) && |d| == n;
  }

  lemma ExtendChain(pool: set<Vector>, chain: seq<Vector>, v: Vector, w: Vector)
    requires ChainTo(pool, chain, v) && Dominates(v, w) && w in pool
    ensures ChainTo(pool, chain + [w], w)
  {
    var longer := chain + [w];
    forall i | 0 <= i < |longer| - 1
      ensures Dominates(longer[i], longer[i + 1])
    {
      if i < |chain| - 1 {
        assert Dominates(chain[i], chain[i + 1]);
      }
    }
  }

  /** Dominance strictly separates layers, so no layer holds two groups that dominate each other. */
  lemma DominanceSeparatesLayers(pool: set<Vector>, v: Vector, m: nat, w: Vector, n: nat)
    requires LayerIs(pool, v, m) && LayerIs(pool, w, n) && Dominates(v, w)
    ensures m < n
  {
    var c :| ChainTo(pool, c, v) && |c| == m;
    assert w in pool by {
      var d :| ChainTo(pool, d, w) && |d| == n;
    }
    ExtendChain(pool, c, v, w);
  }

  /** Layers leave no gap: below layer `n` sits a dominating vector of layer `n - 1`. */
  lemma LayersHaveNoGap(pool: set<Vector>, v: Vector, n: nat)
    requires LayerIs(pool, v, n)
    ensures n >= 1
    ensures n > 1 ==> exists w :: w in pool && Dominates(w, v) && LayerIs(pool, w, n - 1)
  {
    var c :| ChainTo(pool, c, v) && |c| == n;
    if n > 1 {
      var w := c[n - 2];
      assert ChainTo(pool, c[..n - 1], w);
      forall d | ChainTo(pool, d, w)
        ensures |d| <= n - 1
      {
        ExtendChain(pool, d, w, v);
      }
      assert LayerIs(pool, w, n - 1);
    }
  }

  // ---- Peeling -----------------------------------------------------------------------------

  ghost predicate Undominated(pool: set<Vector>, v: Vector) {
    forall w :: w in pool ==> !Dominates(w, v)
  }

  ghost function FrontierOf(pool: set<Vector>): set<Vector> {
    set v | v in pool && Undominated(pool, v)
  }

  ghost function Above(pool: set<Vector>, v: Vector): set<Vector> {
    set w | w in pool && Dominates(w, v)
  }

  /** Every vector of a finite pool is undominated or lies below an undominated one. */
  lemma {:induction false} SomethingOnTop(pool: set<Vector>, v: Vector) returns (top: Vector)
    requires v in pool
    ensures top in FrontierOf(pool) && (top == v || Dominates(top, v))
    decreases Above(pool, v)
  {
    if Undominated(pool, v) {
      top := v;
    } else {
      var w :| w in pool && Dominates(w, v);
      assert w in Above(pool, v) && w !in Above(pool, w);
      assert Above(pool, w) < Above(pool, v);
      top := SomethingOnTop(pool, w);
    }
  }

  /** What peeling has established once the vectors outside `left` have their layers. */
  ghost predicate Peeled(pool: set<Vector>, left: set<Vector>, next: nat, layers: map<Vector, nat>) {
    && left <= pool && layers.Keys == pool - left && next >= 1
    && (forall v :: v in layers ==> 1 <= layers[v] < next)
    && (forall v, w :: v in layers && w in pool && Dominates(w, v) ==> w in layers && layers[w] < layers[v])
    && (forall v :: v in layers && layers[v] > 1 ==> Supported(layers, v, layers[v] - 1))
    && (forall v :: v in left && next > 1 ==> Supported(layers, v, next - 1))
  }

  ghost predicate Supported(layers: map<Vector, nat>, v: Vector, n: nat) {
    exists w :: w in layers && layers[w] == n && Dominates(w, v)
  }

  ghost function Peel(left: set<Vector>, next: nat, layers: map<Vector, nat>): map<Vector, nat> {
    map v | v in layers.Keys + FrontierOf(left) :: if v in layers then layers[v] else next
  }

  /** The frontier is never empty, and removing it keeps everything peeling relies on. */
  lemma PeelStep(pool: set<Vector>, left: set<Vector>, next: nat, layers: map<Vector, nat>)
    requires Peeled(pool, left, next, layers) && left != {}
    ensures FrontierOf(left) != {}
    ensures Peeled(pool, left - FrontierOf(left), next + 1, Peel(left, next, layers))
  {
    var front, layers' := FrontierOf(left), Peel(left, next, layers);
    var any :| any in left;
    var _ := SomethingOnTop(left, any);
    FrontierIsBelow(pool, left, next, layers);
    FrontierIsSupported(pool, left, next, layers);
    RestIsSupported(pool, left, next, layers);
    assert layers'.Keys == pool - (left - front);
  }

  lemma FrontierIsSupported(pool: set<Vector>, left: set<Vector>, next: nat, layers: map<Vector, nat>)
    requires Peeled(pool, left, next, layers)
    ensures
      var layers' := Peel(left, next, layers);
      forall v :: v in layers' && layers'[v] > 1 ==> Supported(layers', v, layers'[v] - 1)
  {
    var layers' := Peel(left, next, layers);
    forall v | v in layers' && layers'[v] > 1
      ensures Supported(layers', v, layers'[v] - 1)
    {
      assert Supported(layers, v, layers'[v] - 1);
      StillSupported(left, next, layers, v, layers'[v] - 1);
    }
  }

  lemma RestIsSupported(pool: set<Vector>, left: set<Vector>, next: nat, layers: map<Vector, nat>)
    requires Peeled(pool, left, next, layers)
    ensures forall v :: v in left - FrontierOf(left) ==> Supported(Peel(left, next, layers), v, next)
  {
    forall v | v in left - FrontierOf(left)
      ensures Supported(Peel(left, next, layers), v, next)
    {
      var top := SomethingOnTop(left, v);
      assert Peel(left, next, layers)[top] == next;
    }
  }

  lemma StillSupported(left: set<Vector>, next: nat, layers: map<Vector, nat>, v: Vector, n: nat)
    requires Supported(layers, v, n)
    ensures Supported(Peel(left, next, layers), v, n)
  {
    var w :| w in layers && layers[w] == n && Dominates(w, v);
    assert Peel(left, next, layers)[w] == n;
  }

  lemma FrontierIsBelow(pool: set<Vector>, left: set<Vector>, next: nat, layers: map<Vector, nat>)
    requires Peeled(pool, left, next, layers)
    ensures
      var layers' := Peel(left, next, layers);
      forall v, w :: v in layers' && w in pool && Dominates(w, v) ==> w in layers' && layers'[w] < layers'[v]
  {
    forall v, w | v in Peel(left, next, layers) && w in pool && Dominates(w, v)
      ensures w in layers && layers[w] < Peel(left, next, layers)[v]
    {
      if v in layers {
        assert w in layers;
      } else {
        assert v in FrontierOf(left) && w !in left;
        assert w in layers;
      }
    }
  }

  lemma {:induction false} ChainsAreShort(pool: set<Vector>, layers: map<Vector, nat>, next: nat, chain: seq<Vector>)
    requires Peeled(pool, {}, next, layers) && IsChain(pool, chain)
    ensures |chain| <= layers[chain[|chain| - 1]]
  {
    var n := |chain|;
    if n > 1 {
      var init := chain[..n - 1];
      assert forall i :: 0 <= i < |init| ==> init[i] == chain[i];
      ChainsAreShort(pool, layers, next, init);
      assert Dominates(chain[n - 2], chain[n - 1]);
    }
  }

  lemma {:induction false} ChainsAreLong(pool: set<Vector>, layers: map<Vector, nat>, next: nat, v: Vector)
    requires Peeled(pool, {}, next, layers) && v in pool
    ensures HasChain(pool, v, layers[v])
    decreases layers[v]
  {
    if layers[v] == 1 {
      assert ChainTo(pool, [v], v);
    } else {
      var w :| w in layers && layers[w] == layers[v] - 1 && Dominates(w, v);
      ChainsAreLong(pool, layers, next, w);
      var c :| ChainTo(pool, c, w) && |c| == layers[w];
      ExtendChain(pool, c, w, v);
    }
  }

  lemma PeelingIsComplete(pool: set<Vector>, next: nat, layers: map<Vector, nat>)
    requires Peeled(pool, {}, next, layers)
    ensures forall v :: v in pool ==> LayerIs(pool, v, layers[v])
  {
    forall v | v in pool
      ensures LayerIs(pool, v, layers[v])
    {
      ChainsAreLong(pool, layers, next, v);
      forall c | ChainTo(pool, c, v)
        ensures |c| <= layers[v]
      {
        ChainsAreShort(pool, layers, next, c);
      }
    }
  }

  // ---- The program -------------------------------------------------------------------------

  datatype Field = Primary | Secondary

  /** One (budget, variant) group.  Layers count from 1; 0 stands for the missing layer. */
  class Group {
    const variant: string
    const admitted: bool
    const primary: Vector
    const secondary: Vector
    var priorityLayer: nat
    var secondaryLayer: nat

    constructor (variant: string, admitted: bool, primary: Vector, secondary: Vector)
      ensures this.variant == variant && this.admitted == admitted
      ensures this.primary == primary && this.secondary == secondary
      ensures priorityLayer == 0 && secondaryLayer == 0
    {
      this.variant, this.admitted := variant, admitted;
      this.primary, this.secondary := primary, secondary;
      priorityLayer, secondaryLayer := 0, 0;
    }

    function Rates(field: Field): Vector {
      if field.Primary? then primary else secondary
    }

    function Layer(field: Field): nat
      reads this
    {
      if field.Primary? then priorityLayer else secondaryLayer
    }
  }

  function Other(field: Field): Field {
    if field.Primary? then Secondary else Primary
  }

  ghost function Pool(groups: seq<Group>, field: Field): set<Vector> {
    set g | g in groups :: g.Rates(field)
  }

  /** The groups of `left` that no group of `left` dominates, in order. */
  method Frontier(left: seq<Group>, field: Field) returns (front: seq<Group>)
    ensures forall g :: g in front <==> g in left && g.Rates(field) in FrontierOf(Pool(left, field))
    ensures Distinct(left) ==> Distinct(front)
  {
    front := [];
    for i := 0 to |left|
      invariant forall g :: g in front <==> g in left[..i] && g.Rates(field) in FrontierOf(Pool(left, field))
      invariant Distinct(left) ==> Distinct(front)
    {
      var dominated := false;
      for j := 0 to |left|
        invariant dominated <==> exists k :: 0 <= k < j && Dominates(left[k].Rates(field), left[i].Rates(field))
      {
        if Dominates(left[j].Rates(field), left[i].Rates(field)) {
          dominated := true;
        }
      }
      assert left[..i + 1] == left[..i] + [left[i]];
      if !dominated {
        front := front + [left[i]];
      }
    }
    assert left[..|left|] == left;
  }

  /** list.remove: the first occurrence goes. */
  method Remove(left: seq<Group>, g: Group) returns (rest: seq<Group>)
    requires g in left && Distinct(left)
    ensures Distinct(rest) && |rest| == |left| - 1
    ensures forall h :: h in rest <==> h in left && h != g
  {
    var i := 0;
    while left[i] != g
      invariant 0 <= i < |left|
      invariant g !in left[..i]
      decreases |left| - i
    {
      i := i + 1;
    }
    rest := left[..i] + left[i + 1..];
  }

  /** Writes `layer` into the frontier and takes it out of `left`. */
  method PeelOff(left: seq<Group>, front: seq<Group>, field: Field, layer: nat) returns (rest: seq<Group>)
    requires Distinct(left) && Distinct(front)
    requires forall g :: g in front ==> g in left
    modifies set g | g in front
    ensures Distinct(rest) && |rest| == |left| - |front|
    ensures forall g :: g in rest <==> g in left && g !in front
    ensures forall g :: g in front ==> g.Layer(field) == layer && g.Layer(Other(field)) == old(g.Layer(Other(field)))
  {
    rest := left;
    for i := 0 to |front|
      invariant Distinct(rest) && |rest| == |left| - i
      invariant forall g :: g in rest <==> g in left && g !in front[..i]
      invariant forall k :: 0 <= k < i ==> front[k].Layer(field) == layer
      invariant forall g :: g in front ==> g.Layer(Other(field)) == old(g.Layer(Other(field)))
    {
      if field.Primary? {
        front[i].priorityLayer := layer;
      } else {
        front[i].secondaryLayer := layer;
      }
      assert front[i] in front[i..];
      rest := Remove(rest, front[i]);
    }
    assert front[..|front|] == front;
  }

  /** Peeling as the program holds it: `left` still waits, all other groups carry their layer. */
  ghost predicate Progress(groups: seq<Group>, left: seq<Group>, field: Field, layer: nat, layers: map<Vector, nat>)
    reads groups
  {
    && Distinct(left)
    && (forall g :: g in left ==> g in groups)
    && (forall g :: g in groups && g !in left ==> g.Rates(field) !in Pool(left, field))
    && Peeled(Pool(groups, field), Pool(left, field), layer, layers)
    && (forall g :: g in groups && g !in left ==> g.Rates(field) in layers && g.Layer(field) == layers[g.Rates(field)])
  }

  lemma FrontierGroups(left: seq<Group>, front: seq<Group>, rest: seq<Group>, field: Field)
    requires left != []
    requires forall g :: g in front <==> g in left && g.Rates(field) in FrontierOf(Pool(left, field))
    requires forall g :: g in rest <==> g in left && g !in front
    ensures FrontierOf(Pool(left, field)) != {} ==> front != []
    ensures Pool(left, field) != {}
    ensures Pool(rest, field) == Pool(left, field) - FrontierOf(Pool(left, field))
  {
    assert left[0].Rates(field) in Pool(left, field);
    if v :| v in FrontierOf(Pool(left, field)) {
      var g :| g in left && g.Rates(field) == v;
      assert g in front;
    }
  }

  /** One round of the loop: the whole frontier gets this layer and leaves. */
  method PeelLayer(groups: seq<Group>, left: seq<Group>, field: Field, layer: nat, ghost layers: map<Vector, nat>)
    returns (rest: seq<Group>, ghost layers': map<Vector, nat>)
    requires Distinct(groups) && left != [] && Progress(groups, left, field, layer, layers)
    modifies set g | g in groups
    ensures Progress(groups, rest, field, layer + 1, layers')
    ensures |rest| < |left|
    ensures forall g :: g in groups ==> g.Layer(Other(field)) == old(g.Layer(Other(field)))
  {
    var front := Frontier(left, field);
    assert forall g :: g in front ==> g in groups;
    rest := PeelOff(left, front, field, layer);
    layers' := Peel(Pool(left, field), layer, layers);
    FrontierGroups(left, front, rest, field);
    PeelStep(Pool(groups, field), Pool(left, field), layer, layers);
    forall g | g in groups && g !in rest
      ensures g.Rates(field) in layers' && g.Layer(field) == layers'[g.Rates(field)]
    {
      if g in left {
        assert g in front && g.Rates(field) in FrontierOf(Pool(left, field));
      }
    }
  }

  /** Every group receives the length of the longest chain of dominance above it, itself included. */
  method AssignLayers(groups: seq<Group>, field: Field)
    requires Distinct(groups)
    modifies set g | g in groups
    ensures forall g :: g in groups ==> LayerIs(Pool(groups, field), g.Rates(field), g.Layer(field))
    ensures forall g :: g in groups ==> g.Layer(Other(field)) == old(g.Layer(Other(field)))
  {
    var left, layer := groups, 1;
    ghost var layers := map[];
    while left != []
      invariant Progress(groups, left, field, layer, layers)
      invariant forall g :: g in groups ==> g.Layer(Other(field)) == old(g.Layer(Other(field)))
      decreases |left|
    {
      left, layers := PeelLayer(groups, left, field, layer, layers);
      layer := layer + 1;
    }
    assert Pool(left, field) == {};
    PeelingIsComplete(Pool(groups, field), layer, layers);
  }

  ghost function AdmittedPool(groups: seq<Group>): set<Vector> {
    set g | g in groups && g.admitted :: g.primary
  }

  ghost function PeerPool(groups: seq<Group>, primary: Vector): set<Vector> {
    set g | g in groups && g.admitted && g.primary == primary :: g.secondary
  }

  /** The ranking of one budget is right: admitted groups stand on their layers, the rest on none. */
  ghost predicate Ranked(groups: seq<Group>)
    reads groups
  {
    forall g :: g in groups ==>
      if g.admitted then
        && LayerIs(AdmittedPool(groups), g.primary, g.priorityLayer)
        && LayerIs(PeerPool(groups, g.primary), g.secondary, g.secondaryLayer)
      else
        g.priorityLayer == 0 && g.secondaryLayer == 0
  }

  method AdmittedGroups(groups: seq<Group>) returns (admitted: seq<Group>)
    requires Distinct(groups)
    ensures Distinct(admitted)
    ensures forall g :: g in admitted <==> g in groups && g.admitted
  {
    admitted := [];
    for i := 0 to |groups|
      invariant Distinct(admitted)
      invariant forall g :: g in admitted <==> g in groups[..i] && g.admitted
    {
      assert groups[..i + 1] == groups[..i] + [groups[i]];
      if groups[i].admitted {
        admitted := admitted + [groups[i]];
      }
    }
    assert groups[..|groups|] == groups;
  }

  /** `peers` sorts `groups` by primary vector. */
  ghost predicate Partitions(peers: map<Vector, seq<Group>>, groups: seq<Group>) {
    && (forall g :: g in groups ==> g.primary in peers && g in peers[g.primary])
    && (forall v, g :: v in peers && g in peers[v] ==> g in groups && g.primary == v)
    && (forall v :: v in peers ==> Distinct(peers[v]))
  }

  method EqualPrimary(groups: seq<Group>) returns (order: seq<Vector>, peers: map<Vector, seq<Group>>)
    requires Distinct(groups)
    ensures Partitions(peers, groups)
    ensures forall v :: v in order <==> v in peers
    ensures forall i, j :: 0 <= i < j < |order| ==> order[i] != order[j]
  {
    order, peers := [], map[];
    for i := 0 to |groups|
      invariant Partitions(peers, groups[..i])
      invariant forall v :: v in order <==> v in peers
      invariant forall i, j :: 0 <= i < j < |order| ==> order[i] != order[j]
    {
      var g := groups[i];
      assert groups[..i + 1] == groups[..i] + [g];
      if g.primary !in peers {
        order, peers := order + [g.primary], peers[g.primary := []];
      }
      assert g !in peers[g.primary];
      peers := peers[g.primary := peers[g.primary] + [g]];
    }
    assert groups[..|groups|] == groups;
  }

  method RankBudget(groups: seq<Group>)
    requires Distinct(groups)
    requires forall g :: g in groups ==> g.priorityLayer == 0 && g.secondaryLayer == 0
    modifies set g | g in groups
    ensures Ranked(groups)
    ensures HigherRatesComeFirst(groups) && NoRankIsSkipped(groups)
    ensures forall g :: g in groups ==> (g.priorityLayer == 0 <==> !g.admitted) && (g.secondaryLayer == 0 <==> !g.admitted)
  {
    var admitted := AdmittedGroups(groups);
    AssignLayers(admitted, Primary);
    var order, peers := EqualPrimary(admitted);
    RankPeers(groups, admitted, order, peers);
    assert Pool(admitted, Primary) == AdmittedPool(groups);
    RankedIsByRates(groups);
  }

  // ---- The ranking in terms of the rates themselves ----------------------------------------

  /** Of two admitted groups the one whose rates are at least as high, and not the same, stands on the
      smaller layer: on the primary rates, and among equal primary rates on the secondary ones. */
  ghost predicate PairIsInOrder(g: Group, h: Group)
    reads g, h
  {
    && (g.primary.x >= h.primary.x && g.primary.y >= h.primary.y && g.primary != h.primary ==> g.priorityLayer < h.priorityLayer)
    && (g.primary == h.primary ==>
          && g.priorityLayer == h.priorityLayer
          && (g.secondary.x >= h.secondary.x && g.secondary.y >= h.secondary.y && g.secondary != h.secondary ==>
                g.secondaryLayer < h.secondaryLayer))
  }

  /** No admitted group has a higher rate in either place. */
  ghost predicate HasTopRates(groups: seq<Group>, g: Group) {
    forall h :: h in groups && h.admitted ==> g.primary.x >= h.primary.x && g.primary.y >= h.primary.y
  }

  ghost predicate HigherRatesComeFirst(groups: seq<Group>)
    reads groups
  {
    && (forall g, h :: g in groups && h in groups && g.admitted && h.admitted ==> PairIsInOrder(g, h))
    && (forall g :: g in groups && g.admitted && HasTopRates(groups, g) ==> g.priorityLayer == 1)
  }

  /** Behind every layer but the first there is a group one layer before with rates at least as high. */
  ghost predicate Follows(groups: seq<Group>, g: Group)
    reads groups, g
  {
    && (g.priorityLayer > 1 ==>
          exists h :: && h in groups && h.admitted && h.priorityLayer == g.priorityLayer - 1
                      && h.primary.x >= g.primary.x && h.primary.y >= g.primary.y && h.primary != g.primary)
    && (g.secondaryLayer > 1 ==>
          exists h :: && h in groups && h.admitted && h.secondaryLayer == g.secondaryLayer - 1 && h.primary == g.primary
                      && h.secondary.x >= g.secondary.x && h.secondary.y >= g.secondary.y && h.secondary != g.secondary)
  }

  ghost predicate NoRankIsSkipped(groups: seq<Group>)
    reads groups
  {
    forall g :: g in groups && g.admitted ==> g.priorityLayer >= 1 && g.secondaryLayer >= 1 && Follows(groups, g)
  }

  lemma RankedIsByRates(groups: seq<Group>)
    requires Ranked(groups)
    ensures HigherRatesComeFirst(groups) && NoRankIsSkipped(groups)
  {
    forall g, h | g in groups && h in groups && g.admitted && h.admitted
      ensures PairIsInOrder(g, h)
    {
      PairsAreInOrder(groups, g, h);
    }
    forall g | g in groups && g.admitted
      ensures g.priorityLayer >= 1 && g.secondaryLayer >= 1 && Follows(groups, g)
      ensures HasTopRates(groups, g) ==> g.priorityLayer == 1
    {
      LayersFollow(groups, g);
    }
  }

  lemma PairsAreInOrder(groups: seq<Group>, g: Group, h: Group)
    requires Ranked(groups) && g in groups && h in groups && g.admitted && h.admitted
    ensures PairIsInOrder(g, h)
  {
    if Dominates(g.primary, h.primary) {
      DominanceSeparatesLayers(AdmittedPool(groups), g.primary, g.priorityLayer, h.primary, h.priorityLayer);
    }
    if g.primary == h.primary {
      LayerIsUnique(AdmittedPool(groups), g.primary, g.priorityLayer, h.priorityLayer);
      if Dominates(g.secondary, h.secondary) {
        DominanceSeparatesLayers(PeerPool(groups, g.primary), g.secondary, g.secondaryLayer, h.secondary, h.secondaryLayer);
      }
    }
  }

  lemma LayersFollow(groups: seq<Group>, g: Group)
    requires Ranked(groups) && g in groups && g.admitted
    ensures g.priorityLayer >= 1 && g.secondaryLayer >= 1 && Follows(groups, g)
    ensures HasTopRates(groups, g) ==> g.priorityLayer == 1
  {
    LayersHaveNoGap(AdmittedPool(groups), g.primary, g.priorityLayer);
    LayersHaveNoGap(PeerPool(groups, g.primary), g.secondary, g.secondaryLayer);
    if g.priorityLayer > 1 {
      var h := AheadOf(groups, g);
    }
    if g.secondaryLayer > 1 {
      var h := AheadAmongPeers(groups, g);
    }
  }

  /** A group one priority layer before. */
  lemma AheadOf(groups: seq<Group>, g: Group) returns (h: Group)
    requires Ranked(groups) && g in groups && g.admitted && g.priorityLayer > 1
    ensures h in groups && h.admitted && h.priorityLayer == g.priorityLayer - 1
    ensures h.primary.x >= g.primary.x && h.primary.y >= g.primary.y && h.primary != g.primary
  {
    var pool := AdmittedPool(groups);
    LayersHaveNoGap(pool, g.primary, g.priorityLayer);
    var v :| v in pool && Dominates(v, g.primary) && LayerIs(pool, v, g.priorityLayer - 1);
    h :| h in groups && h.admitted && h.primary == v;
    LayerIsUnique(pool, v, h.priorityLayer, g.priorityLayer - 1);
  }

  lemma AheadAmongPeers(groups: seq<Group>, g: Group) returns (h: Group)
    requires Ranked(groups) && g in groups && g.admitted && g.secondaryLayer > 1
    ensures h in groups && h.admitted && h.secondaryLayer == g.secondaryLayer - 1 && h.primary == g.primary
    ensures h.secondary.x >= g.secondary.x && h.secondary.y >= g.secondary.y && h.secondary != g.secondary
  {
    var pool := PeerPool(groups, g.primary);
    LayersHaveNoGap(pool, g.secondary, g.secondaryLayer);
    var v :| v in pool && Dominates(v, g.secondary) && LayerIs(pool, v, g.secondaryLayer - 1);
    h :| h in groups && h.admitted && h.primary == g.primary && h.secondary == v;
    LayerIsUnique(pool, v, h.secondaryLayer, g.secondaryLayer - 1);
  }

  /** Ties on the primary vector are ranked among themselves. */
  method RankPeers(groups: seq<Group>, admitted: seq<Group>, order: seq<Vector>, peers: map<Vector, seq<Group>>)
    requires forall g :: g in admitted <==> g in groups && g.admitted
    requires Partitions(peers, admitted)
    requires forall v :: v in order <==> v in peers
    requires forall i, j :: 0 <= i < j < |order| ==> order[i] != order[j]
    modifies set g | g in admitted
    ensures forall g :: g in admitted ==>
      LayerIs(PeerPool(groups, g.primary), g.secondary, g.secondaryLayer) && g.priorityLayer == old(g.priorityLayer)
  {
    for k := 0 to |order|
      invariant forall g :: g in admitted ==> g.priorityLayer == old(g.priorityLayer)
      invariant forall g :: g in admitted && g.primary in order[..k] ==>
        LayerIs(PeerPool(groups, g.primary), g.secondary, g.secondaryLayer)
    {
      var v := order[k];
      assert order[..k + 1] == order[..k] + [v];
      RankEqual(groups, admitted, peers[v], v);
    }
    assert order[..|order|] == order;
  }

  method RankEqual(groups: seq<Group>, admitted: seq<Group>, equal: seq<Group>, primary: Vector)
    requires forall g :: g in admitted <==> g in groups && g.admitted
    requires Distinct(equal) && forall g :: g in equal <==> g in admitted && g.primary == primary
    modifies set g | g in equal
    ensures forall g :: g in equal ==>
      LayerIs(PeerPool(groups, primary), g.secondary, g.secondaryLayer) && g.priorityLayer == old(g.priorityLayer)
  {
    assert Pool(equal, Secondary) == PeerPool(groups, primary);
    AssignLayers(equal, Secondary);
  }

  // ---- The ranking as a whole --------------------------------------------------------------

  datatype Rates = Rates(primary: Vector, secondary: Vector)

  datatype Rank = Rank(priority: nat, secondary: nat)

  /** The rank that a set of admitted rates, in whatever order they came, gives to one of them. */
  ghost predicate RankIs(all: set<Rates>, r: Rates, rank: Rank) {
    && LayerIs(set x | x in all :: x.primary, r.primary, rank.priority)
    && LayerIs(set x | x in all && x.primary == r.primary :: x.secondary, r.secondary, rank.secondary)
  }

  predicate Precedes(a: Rank, b: Rank) {
    a.priority < b.priority || (a.priority == b.priority && a.secondary < b.secondary)
  }

  /** A group better on the primary rates, or equal there and better on the secondary ones, ranks
      strictly first; equal rates share their rank, and a rank depends on nothing else. */
  lemma RankingIsLexicographic(all: set<Rates>, a: Rates, m: Rank, b: Rates, n: Rank)
    requires a in all && b in all && RankIs(all, a, m) && RankIs(all, b, n)
    ensures Dominates(a.primary, b.primary) ==> Precedes(m, n)
    ensures a.primary == b.primary ==> m.priority == n.priority
    ensures a.primary == b.primary && Dominates(a.secondary, b.secondary) ==> Precedes(m, n)
    ensures a == b ==> m == n
  {
    var primaries := set x | x in all :: x.primary;
    var peers := set x | x in all && x.primary == a.primary :: x.secondary;
    if Dominates(a.primary, b.primary) {
      DominanceSeparatesLayers(primaries, a.primary, m.priority, b.primary, n.priority);
    }
    if a.primary == b.primary {
      LayerIsUnique(primaries, a.primary, m.priority, n.priority);
      if Dominates(a.secondary, b.secondary) {
        DominanceSeparatesLayers(peers, a.secondary, m.secondary, b.secondary, n.secondary);
      }
      if a == b {
        LayerIsUnique(peers, a.secondary, m.secondary, n.secondary);
      }
    }
  }

  ghost function AdmittedRates(groups: seq<Group>): set<Rates> {
    set g | g in groups && g.admitted :: Rates(g.primary, g.secondary)
  }

  lemma AdmittedPrimaries(groups: seq<Group>)
    ensures (set x | x in AdmittedRates(groups) :: x.primary) == AdmittedPool(groups)
  {
    forall g | g in groups && g.admitted
      ensures g.primary in set x | x in AdmittedRates(groups) :: x.primary
    {
      assert Rates(g.primary, g.secondary) in AdmittedRates(groups);
    }
  }

  lemma AdmittedSecondaries(groups: seq<Group>, primary: Vector)
    ensures (set x | x in AdmittedRates(groups) && x.primary == primary :: x.secondary) == PeerPool(groups, primary)
  {
    forall g | g in groups && g.admitted && g.primary == primary
      ensures g.secondary in set x | x in AdmittedRates(groups) && x.primary == primary :: x.secondary
    {
      assert Rates(g.primary, g.secondary) in AdmittedRates(groups);
    }
  }

  /** What `RankBudget` leaves in the groups is that rank. */
  lemma RankedGroupsHaveTheirRank(groups: seq<Group>, g: Group)
    requires Ranked(groups) && g in groups && g.admitted
    ensures RankIs(AdmittedRates(groups), Rates(g.primary, g.secondary), Rank(g.priorityLayer, g.secondaryLayer))
  {
    AdmittedPrimaries(groups);
    AdmittedSecondaries(groups, g.primary);
  }
}
