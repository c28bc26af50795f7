/** Target devices for generated scenarios: shuffled, then dealt out one pod at a time. */
module PodRoundRobin {
  import opened Numbers

  type Device = string

  /** How many of the devices are in the pod. */
  function CountPod(devices: seq<Device>, podOf: Device -> Option<int>, pod: int): nat {
    if devices == [] then 0
    else
      var last := devices[|devices| - 1];
      CountPod(devices[..|devices| - 1], podOf, pod) + if podOf(last) == Some(pod) then 1 else 0
  }

  lemma CountPush(devices: seq<Device>, d: Device, podOf: Device -> Option<int>, pod: int)
    ensures CountPod(devices + [d], podOf, pod) == CountPod(devices, podOf, pod) + if podOf(d) == Some(pod) then 1 else 0
  {
    assert (devices + [d])[..|devices|] == devices;
  }

  lemma {:induction false} CountAtMostLength(devices: seq<Device>, podOf: Device -> Option<int>, pod: int)
    ensures CountPod(devices, podOf, pod) <= |devices|
  {
    if devices != [] { CountAtMostLength(devices[..|devices| - 1], podOf, pod); }
  }

  /** No pod is more than one device ahead of another that still has devices left. */
  ghost predicate Balanced(dealt: seq<Device>, candidates: seq<Device>, podOf: Device -> Option<int>) {
    forall p, q ::
      || CountPod(dealt, podOf, p) <= CountPod(dealt, podOf, q) + 1
      || CountPod(dealt, podOf, q) == CountPod(candidates, podOf, q)
  }

  /** ... at every point of the dealing. */
  ghost predicate BalancedThroughout(dealt: seq<Device>, candidates: seq<Device>, podOf: Device -> Option<int>) {
    forall k :: 0 <= k <= |dealt| ==> Balanced(dealt[..k], candidates, podOf)
  }

  // ---------------------------------------------------------------- grouping

  function Copies(s: seq<Device>, d: Device): nat { multiset(s)[d] }

  lemma CopiesPush(s: seq<Device>, name: Device)
    ensures forall d :: Copies(s + [name], d) == Copies(s, d) + if d == name then 1 else 0
  {
  }

  /** Copies of a device still in the group of its pod. */
  function Left(groups: map<int, seq<Device>>, podOf: Device -> Option<int>, d: Device): nat {
    if podOf(d).Some? && podOf(d).value in groups then Copies(groups[podOf(d).value], d) else 0
  }

  ghost predicate OwnPods(groups: map<int, seq<Device>>, podOf: Device -> Option<int>) {
    forall p, d :: p in groups && d in groups[p] ==> podOf(d) == Some(p)
  }

  /** Each device of the list is in the group of its pod, or among those without one. */
  ghost predicate Grouped(devices: seq<Device>, podOf: Device -> Option<int>, groups: map<int, seq<Device>>, withoutPod: seq<Device>) {
    && OwnPods(groups, podOf)
    && (forall p :: p in groups ==> groups[p] != [])
    && (forall p :: CountPod(devices, podOf, p) == if p in groups then |groups[p]| else 0)
    && (forall d :: Copies(devices, d) == Left(groups, podOf, d) + Copies(withoutPod, d))
    && (forall d :: d in withoutPod ==> podOf(d) == None)
  }

  function Place(groups: map<int, seq<Device>>, pod: int, name: Device): map<int, seq<Device>> {
    groups[pod := (if pod in groups then groups[pod] else []) + [name]]
  }

  lemma GroupOneMore(devices: seq<Device>, podOf: Device -> Option<int>, groups: map<int, seq<Device>>,
                     withoutPod: seq<Device>, name: Device)
    requires Grouped(devices, podOf, groups, withoutPod)
    ensures podOf(name).None? ==> Grouped(devices + [name], podOf, groups, withoutPod + [name])
    ensures podOf(name).Some? ==> Grouped(devices + [name], podOf, Place(groups, podOf(name).value, name), withoutPod)
  {
    hide Copies;
    hide CountPod;
    hide Left;
    hide Place;
    forall p ensures CountPod(devices + [name], podOf, p)
                  == CountPod(devices, podOf, p) + if podOf(name) == Some(p) then 1 else 0 {
      CountPush(devices, name, podOf, p);
    }
    CopiesPush(devices, name);
    CopiesPush(withoutPod, name);
    if podOf(name).Some? {
      PlaceOne(groups, podOf, podOf(name).value, name);
    } else {
      forall d ensures podOf(d) == None ==> Left(groups, podOf, d) == 0 { LeftNone(groups, podOf, d); }
    }
  }

  lemma LeftNone(groups: map<int, seq<Device>>, podOf: Device -> Option<int>, d: Device)
    ensures podOf(d) == None ==> Left(groups, podOf, d) == 0
  {
  }

  lemma PlaceOne(groups: map<int, seq<Device>>, podOf: Device -> Option<int>, pod: int, name: Device)
    requires OwnPods(groups, podOf) && podOf(name) == Some(pod)
    ensures var now := Place(groups, pod, name);
      && OwnPods(now, podOf) && now.Keys == groups.Keys + {pod}
      && |now[pod]| == (if pod in groups then |groups[pod]| else 0) + 1
      && (forall p :: p in groups && p != pod ==> now[p] == groups[p])
      && (forall d :: Left(now, podOf, d) == Left(groups, podOf, d) + if d == name then 1 else 0)
  {
    CopiesPush(if pod in groups then groups[pod] else [], name);
    assert forall d :: Copies([], d) == 0;
    hide Copies;
  }

  /** The candidates of one pod, or those of no pod, in their order. */
  function Of(candidates: seq<Device>, podOf: Device -> Option<int>, pod: Option<int>): seq<Device> {
    if candidates == [] then []
    else
      var last := candidates[|candidates| - 1];
      Of(candidates[..|candidates| - 1], podOf, pod) + if podOf(last) == pod then [last] else []
  }

  /** The groups are the candidates of each pod, in their order. */
  ghost predicate AreGroups(candidates: seq<Device>, podOf: Device -> Option<int>, groups: map<int, seq<Device>>, withoutPod: seq<Device>) {
    && withoutPod == Of(candidates, podOf, None)
    && forall p :: Of(candidates, podOf, Some(p)) == if p in groups then groups[p] else []
  }

  lemma AreGroupsPush(candidates: seq<Device>, podOf: Device -> Option<int>, groups: map<int, seq<Device>>,
                      withoutPod: seq<Device>, name: Device)
    requires AreGroups(candidates, podOf, groups, withoutPod)
    ensures podOf(name).None? ==> AreGroups(candidates + [name], podOf, groups, withoutPod + [name])
    ensures podOf(name).Some? ==> AreGroups(candidates + [name], podOf, Place(groups, podOf(name).value, name), withoutPod)
  {
    OfPush(candidates, podOf, name);
    hide Of;
  }

  lemma NothingGrouped(podOf: Device -> Option<int>)
    ensures Grouped([], podOf, map[], []) && AreGroups([], podOf, map[], [])
  {
    assert forall d :: Copies([], d) == 0;
  }

  lemma OfPush(candidates: seq<Device>, podOf: Device -> Option<int>, name: Device)
    ensures forall pod :: Of(candidates + [name], podOf, pod) == Of(candidates, podOf, pod) + if podOf(name) == pod then [name] else []
  {
    assert (candidates + [name])[..|candidates|] == candidates;
  }

  method Group(candidates: seq<Device>, podOf: Device -> Option<int>)
    returns (groups: map<int, seq<Device>>, withoutPod: seq<Device>)
    ensures Grouped(candidates, podOf, groups, withoutPod)
    ensures AreGroups(candidates, podOf, groups, withoutPod)
  {
    hide *;
    groups, withoutPod := map[], [];
    NothingGrouped(podOf);
    assert candidates[..0] == [];
    for i := 0 to |candidates|
      invariant Grouped(candidates[..i], podOf, groups, withoutPod) && AreGroups(candidates[..i], podOf, groups, withoutPod)
    {
      AreGroupsPush(candidates[..i], podOf, groups, withoutPod, candidates[i]);
      var name := candidates[i];
      GroupOneMore(candidates[..i], podOf, groups, withoutPod, name);
      assert candidates[..i + 1] == candidates[..i] + [name];
      if podOf(name).None? {
        withoutPod := withoutPod + [name];
      } else {
        groups := Place(groups, podOf(name).value, name);
      }
    }
    assert candidates[..|candidates|] == candidates;
  }

  // ---------------------------------------------------------------- dealing

  /** What has been dealt and what is left in the groups make up the candidates that have a pod. */
  ghost predicate Conserved(dealt: seq<Device>, groups: map<int, seq<Device>>, all: map<int, seq<Device>>,
                            podOf: Device -> Option<int>) {
    && groups.Keys == all.Keys && OwnPods(groups, podOf)
    && (forall p :: p in all ==> CountPod(dealt, podOf, p) + |groups[p]| == |all[p]|)
    && (forall p :: p !in all ==> CountPod(dealt, podOf, p) == 0)
    && (forall d :: Copies(dealt, d) + Left(groups, podOf, d) == Left(all, podOf, d))
  }

  /** In round `round`, the first `turn` pods of the order have had their turn. */
  ghost predicate InRound(groups: map<int, seq<Device>>, all: map<int, seq<Device>>, order: seq<int>, round: nat, turn: nat)
  {
    forall i :: 0 <= i < |order| ==>
      && order[i] in all && order[i] in groups
      && |groups[order[i]]| == SaturatingSub(|all[order[i]]|, if i < turn then round + 1 else round)
  }

  ghost predicate IsOrder(order: seq<int>, all: map<int, seq<Device>>) {
    NoDuplicates(order) && (forall i :: 0 <= i < |order| ==> order[i] in all) && (forall p :: p in all ==> p in order)
  }

  /** A state of some round is balanced. */
  lemma RoundIsBalanced(dealt: seq<Device>, candidates: seq<Device>, groups: map<int, seq<Device>>,
                        all: map<int, seq<Device>>, podOf: Device -> Option<int>, order: seq<int>, round: nat, turn: nat)
    requires Conserved(dealt, groups, all, podOf) && IsOrder(order, all)
    requires forall p :: CountPod(candidates, podOf, p) == if p in all then |all[p]| else 0
    requires InRound(groups, all, order, round, turn)
    ensures Balanced(dealt, candidates, podOf)
  {
    hide CountPod;
    hide Copies;
    forall p, q ensures
      || CountPod(dealt, podOf, p) <= CountPod(dealt, podOf, q) + 1
      || CountPod(dealt, podOf, q) == CountPod(candidates, podOf, q)
    {
      if p in all && q in all {
        var i :| 0 <= i < |order| && order[i] == p;
        var j :| 0 <= j < |order| && order[j] == q;
        assert |groups[order[i]]| == SaturatingSub(|all[order[i]]|, if i < turn then round + 1 else round);
      }
    }
  }

  lemma DealOne(dealt: seq<Device>, groups: map<int, seq<Device>>, all: map<int, seq<Device>>,
                podOf: Device -> Option<int>, pod: int)
    requires Conserved(dealt, groups, all, podOf) && pod in groups && groups[pod] != []
    ensures var n := |groups[pod]| - 1;
      Conserved(dealt + [groups[pod][n]], groups[pod := groups[pod][..n]], all, podOf)
  {
    hide Copies;
    hide CountPod;
    hide Left;
    var n := |groups[pod]| - 1;
    var name, now := groups[pod][n], groups[pod := groups[pod][..n]];
    forall p ensures CountPod(dealt + [name], podOf, p) == CountPod(dealt, podOf, p) + if podOf(name) == Some(p) then 1 else 0 {
      CountPush(dealt, name, podOf, p);
    }
    CopiesPush(dealt, name);
    forall p, d | p in now && d in now[p] ensures podOf(d) == Some(p) { assert d in groups[p]; }
    assert groups[pod] == groups[pod][..n] + [name];
    assert Place(now, pod, name) == groups;
    PlaceOne(now, podOf, pod, name);
  }

  method AnyLeft(order: seq<int>, groups: map<int, seq<Device>>) returns (found: bool, ghost at: nat)
    requires forall i :: 0 <= i < |order| ==> order[i] in groups
    ensures found ==> at < |order| && order[at] in groups && groups[order[at]] != []
    ensures !found ==> forall i :: 0 <= i < |order| ==> order[i] in groups && groups[order[i]] == []
  {
    at := 0;
    for i := 0 to |order|
      invariant forall k :: 0 <= k < i ==> groups[order[k]] == []
    {
      if groups[order[i]] != [] { return true, i; }
    }
    found := false;
  }

  /** What round `r` deals: from each pod that still has one, the device `r` places from the end. */
  ghost function RoundOf(order: seq<int>, all: map<int, seq<Device>>, r: nat): seq<Device>
    requires forall p :: p in order ==> p in all
  {
    if order == [] then []
    else
      var last := order[|order| - 1];
      RoundOf(order[..|order| - 1], all, r) + if r < |all[last]| then [all[last][|all[last]| - 1 - r]] else []
  }

  ghost function Rounds(order: seq<int>, all: map<int, seq<Device>>, n: nat): seq<Device>
    requires forall p :: p in order ==> p in all
  {
    if n == 0 then [] else Rounds(order, all, n - 1) + RoundOf(order, all, n - 1)
  }

  lemma {:induction false} EmptyRound(order: seq<int>, all: map<int, seq<Device>>, r: nat)
    requires forall p :: p in order ==> p in all && |all[p]| <= r
    ensures RoundOf(order, all, r) == []
  {
    if order != [] {
      assert order[|order| - 1] in order;
      EmptyRound(order[..|order| - 1], all, r);
    }
  }

  /** Once every group has been dealt out, further rounds deal nothing. */
  lemma {:induction false} RoundsEnd(order: seq<int>, all: map<int, seq<Device>>, m: nat, n: nat)
    requires m <= n && forall p :: p in order ==> p in all && |all[p]| <= m
    ensures Rounds(order, all, n) == Rounds(order, all, m)
  {
    if m < n {
      RoundsEnd(order, all, m, n - 1);
      EmptyRound(order, all, n - 1);
    }
  }

  lemma RoundPush(order: seq<int>, all: map<int, seq<Device>>, r: nat, turn: nat)
    requires turn < |order| && forall p :: p in order ==> p in all
    ensures order[turn] in all && forall p :: p in order[..turn + 1] ==> p in all
    ensures var g := all[order[turn]];
      RoundOf(order[..turn + 1], all, r) == RoundOf(order[..turn], all, r) + if r < |g| then [g[|g| - 1 - r]] else []
  {
    var pod := order[turn];
    assert pod in order;
    assert pod in all;
    assert order[..turn + 1][..turn] == order[..turn];
  }

  /** Each group is what is left of the whole one after dealing from its end. */
  ghost predicate Trimmed(groups: map<int, seq<Device>>, all: map<int, seq<Device>>, order: seq<int>) {
    forall i :: 0 <= i < |order| ==> order[i] in all && order[i] in groups && groups[order[i]] <= all[order[i]]
  }

  /** Deals the groups out, one device per pod and round, from the end of each group. */
  method Deal(candidates: seq<Device>, all: map<int, seq<Device>>, order: seq<int>, podOf: Device -> Option<int>)
    returns (dealt: seq<Device>)
    requires OwnPods(all, podOf) && IsOrder(order, all)
    requires forall p :: CountPod(candidates, podOf, p) == if p in all then |all[p]| else 0
    ensures forall d :: Copies(dealt, d) == Left(all, podOf, d)
    ensures forall p :: CountPod(dealt, podOf, p) == CountPod(candidates, podOf, p)
    ensures BalancedThroughout(dealt, candidates, podOf)
    ensures dealt == Rounds(order, all, |candidates|)
  {
    hide Copies;
    hide CountPod;
    hide Balanced;
    hide OwnPods;
    hide RoundOf;
    var groups := all;
    dealt := [];
    StartDealing(all, podOf, order);
    RoundIsBalanced([], candidates, all, all, podOf, order, 0, 0);
    ghost var round := 0;
    ghost var at: nat;
    var more;
    more, at := AnyLeft(order, groups);
    while more
      invariant Conserved(dealt, groups, all, podOf) && InRound(groups, all, order, round, 0)
      invariant BalancedThroughout(dealt, candidates, podOf)
      invariant Trimmed(groups, all, order) && dealt == Rounds(order, all, round) && round <= |candidates|
      invariant more ==> at < |order| && order[at] in groups && groups[order[at]] != []
      invariant !more ==> forall i :: 0 <= i < |order| ==> order[i] in groups && groups[order[i]] == []
      decreases |candidates| - round, more
    {
      CountAtMostLength(candidates, podOf, order[at]);
      assert order[at] in all;
      dealt, groups := DealRound(candidates, all, order, podOf, dealt, groups, round);
      round := round + 1;
      more, at := AnyLeft(order, groups);
    }
    forall p | p in order ensures |all[p]| <= round {
      var i :| 0 <= i < |order| && order[i] == p;
      assert groups[order[i]] == [];
    }
    RoundsEnd(order, all, round, |candidates|);
    forall d ensures Left(groups, podOf, d) == 0 {
      if podOf(d).Some? && podOf(d).value in groups {
        var p: int := podOf(d).value;
        assert p in groups.Keys && p in all;
        assert p in order;
        NoCopies(d);
      }
    }
    forall p ensures CountPod(dealt, podOf, p) == CountPod(candidates, podOf, p) {
      if p in all { assert p in order; }
    }
  }

  lemma NoCopies(d: Device)
    ensures Copies([], d) == 0
  {
  }

  lemma StartDealing(all: map<int, seq<Device>>, podOf: Device -> Option<int>, order: seq<int>)
    requires OwnPods(all, podOf) && IsOrder(order, all)
    ensures Conserved([], all, all, podOf) && InRound(all, all, order, 0, 0)
  {
  }

  method DealRound(candidates: seq<Device>, all: map<int, seq<Device>>, order: seq<int>, podOf: Device -> Option<int>,
                   before: seq<Device>, left: map<int, seq<Device>>, ghost round: nat)
    returns (dealt: seq<Device>, groups: map<int, seq<Device>>)
    requires IsOrder(order, all)
    requires forall p :: CountPod(candidates, podOf, p) == if p in all then |all[p]| else 0
    requires Conserved(before, left, all, podOf) && InRound(left, all, order, round, 0)
    requires BalancedThroughout(before, candidates, podOf) && Trimmed(left, all, order)
    ensures Conserved(dealt, groups, all, podOf) && InRound(groups, all, order, round + 1, 0)
    ensures BalancedThroughout(dealt, candidates, podOf) && Trimmed(groups, all, order)
    ensures dealt == before + RoundOf(order, all, round)
  {
    hide Copies;
    hide CountPod;
    hide Balanced;
    hide OwnPods;
    hide Left;
    hide RoundOf;
    hide InRound;
    hide Trimmed;
    hide BalancedThroughout;
    hide IsOrder;
    dealt, groups := before, left;
    OrderFacts(order, all);
    StartRound(all, round);
    for turn := 0 to |order|
      invariant Conserved(dealt, groups, all, podOf) && InRound(groups, all, order, round, turn)
      invariant BalancedThroughout(dealt, candidates, podOf) && Trimmed(groups, all, order)
      invariant forall p :: p in order[..turn] ==> p in all
      invariant dealt == before + RoundOf(order[..turn], all, round)
    {
      var pod := order[turn];
      RoundPush(order, all, round, turn);
      DealtIsLast(groups, all, order, round, turn);
      if groups[pod] != [] {
        var last := |groups[pod]| - 1;
        DealOne(dealt, groups, all, podOf, pod);
        NextTurn(groups, all, order, round, turn);
        ghost var was := dealt;
        dealt, groups := dealt + [groups[pod][last]], groups[pod := groups[pod][..last]];
        RoundIsBalanced(dealt, candidates, groups, all, podOf, order, round, turn + 1);
        hide *;
        OneMorePrefix(was, dealt[|was|], candidates, podOf);
      } else {
        NextTurn(groups, all, order, round, turn);
        hide *;
      }
    }
    assert order[..|order|] == order;
    RoundOver(groups, all, order, round);
  }

  lemma RoundOver(groups: map<int, seq<Device>>, all: map<int, seq<Device>>, order: seq<int>, round: nat)
    requires InRound(groups, all, order, round, |order|)
    ensures InRound(groups, all, order, round + 1, 0)
  {
  }

  lemma OrderFacts(order: seq<int>, all: map<int, seq<Device>>)
    requires IsOrder(order, all)
    ensures NoDuplicates(order) && forall p :: p in order ==> p in all
  {
  }

  lemma StartRound(all: map<int, seq<Device>>, r: nat)
    ensures RoundOf([], all, r) == []
  {
  }

  /** The device a pod deals is the one the round calls for, and the pod's group stays a prefix. */
  lemma DealtIsLast(groups: map<int, seq<Device>>, all: map<int, seq<Device>>, order: seq<int>, round: nat, turn: nat)
    requires NoDuplicates(order) && InRound(groups, all, order, round, turn) && turn < |order| && Trimmed(groups, all, order)
    ensures var own, whole := groups[order[turn]], all[order[turn]];
      && (own == [] <==> round >= |whole|)
      && (own != [] ==>
            && own[|own| - 1] == whole[|whole| - 1 - round]
            && Trimmed(groups[order[turn] := own[..|own| - 1]], all, order))
  {
  }

  lemma NextTurn(groups: map<int, seq<Device>>, all: map<int, seq<Device>>, order: seq<int>, round: nat, turn: nat)
    requires NoDuplicates(order) && InRound(groups, all, order, round, turn) && turn < |order|
    ensures order[turn] in groups
    ensures var own := groups[order[turn]];
      InRound(if own == [] then groups else groups[order[turn] := own[..|own| - 1]], all, order, round, turn + 1)
  {
  }

  lemma OneMorePrefix(dealt: seq<Device>, name: Device, candidates: seq<Device>, podOf: Device -> Option<int>)
    requires BalancedThroughout(dealt, candidates, podOf) && Balanced(dealt + [name], candidates, podOf)
    ensures BalancedThroughout(dealt + [name], candidates, podOf)
  {
    hide Balanced;
    var now := dealt + [name];
    forall k | 0 <= k <= |now| ensures Balanced(now[..k], candidates, podOf) {
      if k <= |dealt| {
        assert now[..k] == dealt[..k];
      } else {
        assert now[..k] == now;
      }
    }
  }

  // ---------------------------------------------------------------- the whole ordering

  /** The generator's shuffles: the `n`-th one, on devices and on pods, is some permutation. */
  datatype Rng = Rng(devices: (nat, seq<Device>) -> seq<Device>, pods: seq<int> -> seq<int>) {
    ghost predicate Permutes() {
      && (forall n, s :: multiset(devices(n, s)) == multiset(s))
      && (forall s :: multiset(pods(s)) == multiset(s))
    }
  }

  ghost predicate PodsFirst(ordered: seq<Device>, podOf: Device -> Option<int>) {
    forall i, j :: 0 <= i < j < |ordered| && podOf(ordered[i]).None? ==> podOf(ordered[j]).None?
  }

  lemma {:induction false} CountDistinct<T>(s: seq<T>)
    ensures NoDuplicates(s) <==> forall x :: multiset(s)[x] <= 1
  {
    if s != [] {
      var front, last := s[..|s| - 1], s[|s| - 1];
      CountDistinct(front);
      assert s == front + [last];
      if NoDuplicates(s) {
        assert last !in front;
      }
      if forall x :: multiset(s)[x] <= 1 {
        assert forall x :: multiset(front)[x] <= multiset(s)[x];
        forall i | 0 <= i < |front| ensures front[i] != last { assert front[i] in multiset(front); }
      }
    }
  }

  lemma ShuffleKeepsDistinct<T>(before: seq<T>, after: seq<T>)
    requires multiset(before) == multiset(after) && NoDuplicates(before)
    ensures NoDuplicates(after) && (forall x :: x in after <==> x in before)
  {
    CountDistinct(before);
    CountDistinct(after);
    forall x ensures x in after <==> x in before {
      assert x in multiset(after) <==> x in multiset(before);
    }
  }

  lemma SomeElement<T>(s: set<T>) returns (x: T)
    requires s != {}
    ensures x in s
  {
    x :| x in s;
  }

  ghost predicate Ascending(order: seq<int>) { forall i, j :: 0 <= i < j < |order| ==> order[i] < order[j] }

  lemma {:induction false} LeastElement(s: set<int>) returns (least: int)
    requires s != {}
    ensures least in s && forall x :: x in s ==> least <= x
    decreases s
  {
    var some := SomeElement(s);
    least := some;
    if s - {some} != {} {
      var rest := LeastElement(s - {some});
      least := Min(some, rest);
      forall x | x in s ensures least <= x { assert x == some || x in s - {some}; }
    } else {
      forall x | x in s ensures x == some { assert x !in s - {some}; }
    }
  }

  /** The pods, in rising order. */
  method PodsOf(groups: map<int, seq<Device>>) returns (order: seq<int>)
    ensures IsOrder(order, groups) && Ascending(order)
  {
    order := [];
    var left := groups.Keys;
    while left != {}
      invariant left <= groups.Keys && NoDuplicates(order) && Ascending(order)
      invariant forall i :: 0 <= i < |order| ==> order[i] in groups && order[i] !in left
      invariant forall i, p :: 0 <= i < |order| && p in left ==> order[i] < p
      invariant forall p :: p in groups && p !in left ==> p in order
      decreases left
    {
      ghost var least := LeastElement(left);
      var p :| p in left && forall q :: q in left ==> p <= q;
      left, order := left - {p}, order + [p];
    }
  }

  /** Shuffling a group changes nothing that grouping promised. */
  lemma ShuffleOne(candidates: seq<Device>, podOf: Device -> Option<int>, groups: map<int, seq<Device>>,
                   withoutPod: seq<Device>, p: int, names: seq<Device>)
    requires Grouped(candidates, podOf, groups, withoutPod) && p in groups && multiset(names) == multiset(groups[p])
    ensures Grouped(candidates, podOf, groups[p := names], withoutPod)
  {
    hide CountPod;
    assert |multiset(names)| == |names| && |multiset(groups[p])| == |groups[p]|;
    forall d | d in names ensures podOf(d) == Some(p) { assert d in multiset(groups[p]); }
  }

  method ShuffleGroups(candidates: seq<Device>, podOf: Device -> Option<int>, groups: map<int, seq<Device>>,
                       withoutPod: seq<Device>, order: seq<int>, rng: Rng) returns (shuffled: map<int, seq<Device>>)
    requires Grouped(candidates, podOf, groups, withoutPod) && rng.Permutes() && IsOrder(order, groups)
    ensures Grouped(candidates, podOf, shuffled, withoutPod) && shuffled.Keys == groups.Keys
    ensures forall i :: 0 <= i < |order| ==> shuffled[order[i]] == rng.devices(i, groups[order[i]])
  {
    hide Grouped;
    shuffled := groups;
    for i := 0 to |order|
      invariant Grouped(candidates, podOf, shuffled, withoutPod) && shuffled.Keys == groups.Keys
      invariant forall k :: 0 <= k < |order| ==>
        shuffled[order[k]] == if k < i then rng.devices(k, groups[order[k]]) else groups[order[k]]
    {
      var p := order[i];
      assert p in shuffled.Keys;
      ShuffleOne(candidates, podOf, shuffled, withoutPod, p, rng.devices(i, shuffled[p]));
      shuffled := shuffled[p := rng.devices(i, shuffled[p])];
    }
  }

  method OrderedTemplateDevices(candidates: seq<Device>, podOf: Device -> Option<int>, rng: Rng)
    returns (ordered: seq<Device>, ghost order: seq<int>, ghost groups: map<int, seq<Device>>)
    requires rng.Permutes()
    ensures multiset(ordered) == multiset(candidates)
    ensures BalancedThroughout(ordered, candidates, podOf) && PodsFirst(ordered, podOf)
    ensures ShuffledPods(candidates, podOf, rng, order, groups) && IsOrder(rng.pods(order), groups)
    ensures ordered == Ordering(candidates, podOf, rng, order, groups)
  {
    hide Grouped;
    hide AreGroups;
    hide Balanced;
    hide BalancedThroughout;
    hide CountPod;
    hide Copies;
    hide Left;
    hide Rounds;
    hide Of;
    hide PodsFirst;
    var found, withoutPod := Group(candidates, podOf);
    ForDealing(candidates, podOf, found, withoutPod);
    if found.Keys == {} {
      assert found == map[];
      order, groups := [], map[];
      NoPodsToShuffle(candidates, podOf, found, withoutPod, rng);
      ordered := rng.devices(0, candidates);
      NoPods(candidates, ordered, podOf, withoutPod);
      ShuffleKeepsDistinct(order, rng.pods(order));
      return;
    }
    var pods := PodsOf(found);
    var shuffled := ShuffleGroups(candidates, podOf, found, withoutPod, pods, rng);
    order, groups := pods, shuffled;
    ForDealing(candidates, podOf, shuffled, withoutPod);
    PodsAreShuffled(candidates, podOf, found, withoutPod, order, shuffled, rng);
    var podOrder := rng.pods(pods);
    ShuffleKeepsDistinct(order, podOrder);
    forall i | 0 <= i < |podOrder| ensures podOrder[i] in groups { assert podOrder[i] in order; }
    var dealt := Deal(candidates, shuffled, podOrder, podOf);
    var rest := rng.devices(|pods|, withoutPod);
    AppendRest(candidates, dealt, rest, podOf, groups, withoutPod);
    ordered := dealt + rest;
  }

  lemma ForDealing(candidates: seq<Device>, podOf: Device -> Option<int>, groups: map<int, seq<Device>>, withoutPod: seq<Device>)
    requires Grouped(candidates, podOf, groups, withoutPod)
    ensures OwnPods(groups, podOf) && forall p :: CountPod(candidates, podOf, p) == if p in groups then |groups[p]| else 0
  {
  }

  lemma NoPodsToShuffle(candidates: seq<Device>, podOf: Device -> Option<int>, groups: map<int, seq<Device>>,
                        withoutPod: seq<Device>, rng: Rng)
    requires AreGroups(candidates, podOf, groups, withoutPod) && groups == map[] && rng.Permutes()
    ensures ShuffledPods(candidates, podOf, rng, [], map[]) && rng.pods([]) == []
  {
    assert multiset(rng.pods([])) == multiset([]);
    assert |multiset(rng.pods([]))| == |rng.pods([])|;
    hide Of;
  }

  lemma PodsAreShuffled(candidates: seq<Device>, podOf: Device -> Option<int>, groups: map<int, seq<Device>>,
                        withoutPod: seq<Device>, order: seq<int>, shuffled: map<int, seq<Device>>, rng: Rng)
    requires Grouped(candidates, podOf, groups, withoutPod) && AreGroups(candidates, podOf, groups, withoutPod)
    requires Ascending(order) && IsOrder(order, groups) && shuffled.Keys == groups.Keys && groups.Keys != {}
    requires forall i :: 0 <= i < |order| ==> shuffled[order[i]] == rng.devices(i, groups[order[i]])
    ensures ShuffledPods(candidates, podOf, rng, order, shuffled) && IsOrder(order, shuffled) && order != []
    ensures withoutPod == Of(candidates, podOf, None)
  {
    hide Of;
    hide Ascending;
    GroupsOfPods(candidates, podOf, groups, withoutPod);
    hide Grouped;
    hide AreGroups;
    assert forall p :: p in shuffled <==> p in groups by {
      assert forall p :: p in shuffled.Keys <==> p in groups.Keys;
    }
    SomePod(groups, order);
    forall i | 0 <= i < |order|
      ensures order[i] in shuffled && shuffled[order[i]] == rng.devices(i, Of(candidates, podOf, Some(order[i])))
    {
      GroupOfPod(candidates, podOf, groups, withoutPod, order[i]);
    }
    assert IsOrder(order, shuffled);
  }

  lemma GroupOfPod(candidates: seq<Device>, podOf: Device -> Option<int>, groups: map<int, seq<Device>>, withoutPod: seq<Device>, p: int)
    requires AreGroups(candidates, podOf, groups, withoutPod) && p in groups
    ensures groups[p] == Of(candidates, podOf, Some(p))
  {
  }

  lemma SomePod(groups: map<int, seq<Device>>, order: seq<int>)
    requires groups.Keys != {} && IsOrder(order, groups)
    ensures order != []
  {
    var p := SomeElement(groups.Keys);
    assert p in order;
  }

  lemma GroupsOfPods(candidates: seq<Device>, podOf: Device -> Option<int>, groups: map<int, seq<Device>>, withoutPod: seq<Device>)
    requires Grouped(candidates, podOf, groups, withoutPod) && AreGroups(candidates, podOf, groups, withoutPod)
    ensures withoutPod == Of(candidates, podOf, None)
    ensures forall p :: p in groups <==> Of(candidates, podOf, Some(p)) != []
  {
    hide Of;
    hide CountPod;
    hide Copies;
    hide Left;
  }

  /** The pods that have candidates, in rising order, each with a shuffle of its candidates. */
  ghost predicate ShuffledPods(candidates: seq<Device>, podOf: Device -> Option<int>, rng: Rng, order: seq<int>, groups: map<int, seq<Device>>) {
    && Ascending(order) && IsOrder(order, groups)
    && (forall p :: p in groups <==> Of(candidates, podOf, Some(p)) != [])
    && (forall i :: 0 <= i < |order| ==> groups[order[i]] == rng.devices(i, Of(candidates, podOf, Some(order[i]))))
  }

  /** The order is a function of the candidates, their pods and the shuffles: it can be reproduced. */
  ghost function Ordering(candidates: seq<Device>, podOf: Device -> Option<int>, rng: Rng, order: seq<int>, groups: map<int, seq<Device>>): seq<Device>
    requires IsOrder(rng.pods(order), groups)
  {
    if order == [] then rng.devices(0, candidates)
    else Rounds(rng.pods(order), groups, |candidates|) + rng.devices(|order|, Of(candidates, podOf, None))
  }

  /** ... since nothing but these decides the pods and their groups. */
  lemma OrderingIsReproducible(candidates: seq<Device>, podOf: Device -> Option<int>, rng: Rng,
                               order: seq<int>, groups: map<int, seq<Device>>, order': seq<int>, groups': map<int, seq<Device>>)
    requires ShuffledPods(candidates, podOf, rng, order, groups) && ShuffledPods(candidates, podOf, rng, order', groups')
    ensures order == order' && groups == groups'
  {
    hide Of;
    hide Ascending;
    forall p ensures p in groups <==> p in groups' {}
    assert groups.Keys == groups'.Keys;
    forall p ensures p in order <==> p in order' {
      assert p in order <==> p in groups;
      assert p in order' <==> p in groups';
    }
    SameAscending(order, order');
    forall p | p in groups ensures groups[p] == groups'[p] {
      var i :| 0 <= i < |order| && order[i] == p;
    }
  }

  lemma {:induction false} SameAscending(a: seq<int>, b: seq<int>)
    requires Ascending(a) && Ascending(b) && forall x :: x in a <==> x in b
    ensures a == b
  {
    assert a != [] ==> a[0] in a && a[0] in b;
    assert b != [] ==> b[0] in b && b[0] in a;
    if a != [] {
      var m, n := |a| - 1, |b| - 1;
      assert a[m] in b && b[n] in a;
      assert a[m] == b[n];
      forall x ensures x in a[..m] <==> x in b[..n] {
        if x in a[..m] { assert x in a && x < a[m]; }
        if x in b[..n] { assert x in b && x < b[n]; }
      }
      SameAscending(a[..m], b[..n]);
    }
  }

  lemma {:induction false} NoPodCounts(devices: seq<Device>, podOf: Device -> Option<int>, pod: int)
    requires forall d :: d in devices ==> podOf(d) == None
    ensures CountPod(devices, podOf, pod) == 0
  {
    if devices != [] { NoPodCounts(devices[..|devices| - 1], podOf, pod); }
  }

  lemma {:induction false} CountConcat(a: seq<Device>, b: seq<Device>, podOf: Device -> Option<int>, pod: int)
    ensures CountPod(a + b, podOf, pod) == CountPod(a, podOf, pod) + CountPod(b, podOf, pod)
  {
    if b == [] {
      assert a + b == a;
    } else {
      CountConcat(a, b[..|b| - 1], podOf, pod);
      assert (a + b)[..|a + b| - 1] == a + b[..|b| - 1];
    }
  }

  /** Devices without a pod, put at the end, disturb nothing. */
  lemma AppendRest(candidates: seq<Device>, dealt: seq<Device>, rest: seq<Device>, podOf: Device -> Option<int>,
                   groups: map<int, seq<Device>>, withoutPod: seq<Device>)
    requires Grouped(candidates, podOf, groups, withoutPod) && multiset(rest) == multiset(withoutPod)
    requires forall d :: Copies(dealt, d) == Left(groups, podOf, d)
    requires forall p :: CountPod(dealt, podOf, p) == CountPod(candidates, podOf, p)
    requires BalancedThroughout(dealt, candidates, podOf)
    ensures multiset(dealt + rest) == multiset(candidates)
    ensures BalancedThroughout(dealt + rest, candidates, podOf) && PodsFirst(dealt + rest, podOf)
  {
    var ordered := dealt + rest;
    forall d ensures multiset(ordered)[d] == multiset(candidates)[d] {
      assert Copies(candidates, d) == Left(groups, podOf, d) + Copies(withoutPod, d);
    }
    forall d | d in rest ensures podOf(d) == None { assert d in multiset(withoutPod); }
    forall d | d in dealt ensures podOf(d).Some? { assert Copies(dealt, d) > 0; }
    forall k | 0 <= k <= |ordered| ensures Balanced(ordered[..k], candidates, podOf) {
      if k <= |dealt| {
        assert ordered[..k] == dealt[..k];
      } else {
        var some := rest[..k - |dealt|];
        assert ordered[..k] == dealt + some;
        forall p ensures CountPod(ordered[..k], podOf, p) == CountPod(candidates, podOf, p) {
          CountConcat(dealt, some, podOf, p);
          NoPodCounts(some, podOf, p);
        }
      }
    }
    forall i | 0 <= i < |ordered| ensures podOf(ordered[i]).Some? <==> i < |dealt| {
      if i < |dealt| { assert ordered[i] in dealt; } else { assert ordered[i] in rest; }
    }
  }

  lemma NoPods(candidates: seq<Device>, ordered: seq<Device>, podOf: Device -> Option<int>, withoutPod: seq<Device>)
    requires Grouped(candidates, podOf, map[], withoutPod) && multiset(ordered) == multiset(candidates)
    ensures BalancedThroughout(ordered, candidates, podOf) && PodsFirst(ordered, podOf)
  {
    var nothing: seq<Device> := [];
    assert nothing + ordered == ordered;
    forall d ensures multiset(ordered)[d] == multiset(withoutPod)[d] {
      assert Copies(candidates, d) == Copies(withoutPod, d);
    }
    assert multiset(ordered) == multiset(withoutPod);
    forall p ensures CountPod(nothing, podOf, p) == CountPod(candidates, podOf, p) {}
    assert nothing[..0] == nothing;
    AppendRest(candidates, nothing, ordered, podOf, map[], withoutPod);
  }

  // ---------------------------------------------------------------- scenarios

  /** `candidates` are the devices of the template's role in the topology. */
  datatype Template = Template(fault: string, count: int, candidates: seq<Device>)

  datatype Scenario = Scenario(fault: string, index: nat, device: Option<Device>)

  predicate TooMany(t: Template) { t.count > 0 && t.fault != "none" && t.count > |t.candidates| }

  /** A template asks for too many devices when it has a fault and wants more than there are. */
  lemma EnoughDevices(t: Template)
    ensures t.fault == "none" ==> !TooMany(t)
    ensures t.count == |t.candidates| ==> !TooMany(t)
    ensures t.fault != "none" && t.count == |t.candidates| + 1 ==> TooMany(t)
  {
  }

  function Names(targets: seq<Option<Device>>): (names: seq<Device>)
    requires forall i :: 0 <= i < |targets| ==> targets[i].Some?
    ensures |names| == |targets| && forall i :: 0 <= i < |names| ==> names[i] == targets[i].value
  {
    seq(|targets|, i requires 0 <= i < |targets| => targets[i].value)
  }

  /** A template without a fault has no devices; any other gets its number of devices of the role, no
      device twice, spread over the pods as evenly as the pods allow. */
  ghost predicate GoodTargets(targets: seq<Option<Device>>, t: Template, podOf: Device -> Option<int>) {
    && |targets| == Max(0, t.count)
    && (t.fault == "none" ==> forall i :: 0 <= i < |targets| ==> targets[i] == None)
    && (t.fault != "none" ==>
          && (forall i :: 0 <= i < |targets| ==> targets[i].Some?)
          && (NoDuplicates(t.candidates) ==> NoDuplicates(Names(targets)))
          && (forall d :: d in Names(targets) ==> d in t.candidates)
          && Balanced(Names(targets), t.candidates, podOf))
  }

  /** The devices are the first of the order that the template's shuffles give. */
  ghost predicate FirstOrdered(targets: seq<Option<Device>>, t: Template, podOf: Device -> Option<int>, rng: Rng) {
    exists order, groups ::
      && ShuffledPods(t.candidates, podOf, rng, order, groups) && IsOrder(rng.pods(order), groups)
      && var ordered := Ordering(t.candidates, podOf, rng, order, groups);
      |targets| <= |ordered| && forall i :: 0 <= i < |targets| ==> targets[i] == Some(ordered[i])
  }

  method Targets(t: Template, podOf: Device -> Option<int>, rng: Rng) returns (targets: seq<Option<Device>>)
    requires rng.Permutes() && t.count > 0 && !TooMany(t)
    ensures GoodTargets(targets, t, podOf)
    ensures t.fault != "none" ==> FirstOrdered(targets, t, podOf, rng)
  {
    if t.fault == "none" {
      targets := seq(t.count, _ => None);
      return;
    }
    hide Ordering;
    hide ShuffledPods;
    hide IsOrder;
    hide BalancedThroughout;
    hide PodsFirst;
    var ordered;
    ghost var order, groups;
    ordered, order, groups := OrderedTemplateDevices(t.candidates, podOf, rng);
    assert |multiset(ordered)| == |multiset(t.candidates)|;
    var count := t.count;
    targets := seq(count, i requires 0 <= i < |ordered| => Some(ordered[i]));
    FirstAreGood(targets, t, podOf, ordered);
    hide GoodTargets;
    assert FirstOrdered(targets, t, podOf, rng);
  }

  lemma FirstAreGood(targets: seq<Option<Device>>, t: Template, podOf: Device -> Option<int>, ordered: seq<Device>)
    requires multiset(ordered) == multiset(t.candidates) && BalancedThroughout(ordered, t.candidates, podOf)
    requires t.fault != "none" && |targets| == Max(0, t.count) <= |ordered|
    requires forall i :: 0 <= i < |targets| ==> targets[i] == Some(ordered[i])
    ensures GoodTargets(targets, t, podOf)
  {
    hide CountPod;
    hide Balanced;
    assert Names(targets) == ordered[..|targets|];
    forall d | d in ordered[..|targets|] ensures d in t.candidates { assert d in multiset(ordered); }
    if NoDuplicates(t.candidates) { ShuffleKeepsDistinct(t.candidates, ordered); }
  }

  function CountFault(scenarios: seq<Scenario>, fault: string): nat {
    if scenarios == [] then 0
    else
      var last := scenarios[|scenarios| - 1];
      CountFault(scenarios[..|scenarios| - 1], fault) + if last.fault == fault then 1 else 0
  }

  /** Scenarios of one fault are numbered 1, 2, 3, ... across all templates. */
  ghost predicate Numbered(scenarios: seq<Scenario>) {
    forall i :: 0 <= i < |scenarios| ==> scenarios[i].index == 1 + CountFault(scenarios[..i], scenarios[i].fault)
  }

  /** ... so no two share both. */
  lemma {:induction false} NumbersDiffer(scenarios: seq<Scenario>, i: nat, j: nat)
    requires Numbered(scenarios) && i < j < |scenarios| && scenarios[i].fault == scenarios[j].fault
    ensures scenarios[i].index < scenarios[j].index
  {
    CountGrows(scenarios, scenarios[i].fault, i, j);
  }

  lemma {:induction false} CountGrows(scenarios: seq<Scenario>, fault: string, i: nat, j: nat)
    requires i < j <= |scenarios| && scenarios[i].fault == fault
    ensures CountFault(scenarios[..i], fault) < CountFault(scenarios[..j], fault)
    decreases j
  {
    assert scenarios[..j][..j - 1] == scenarios[..j - 1];
    if i < j - 1 { CountGrows(scenarios, fault, i, j - 1); }
  }

  function Flatten(chunks: seq<seq<Scenario>>): seq<Scenario> {
    if chunks == [] then [] else Flatten(chunks[..|chunks| - 1]) + chunks[|chunks| - 1]
  }

  function Devices(scenarios: seq<Scenario>): (targets: seq<Option<Device>>)
    ensures |targets| == |scenarios| && forall i :: 0 <= i < |targets| ==> targets[i] == scenarios[i].device
  {
    seq(|scenarios|, i requires 0 <= i < |scenarios| => scenarios[i].device)
  }

  /** The scenarios of one template, in the template's place among all of them. */
  ghost predicate GoodChunk(chunk: seq<Scenario>, t: Template, podOf: Device -> Option<int>) {
    (forall i :: 0 <= i < |chunk| ==> chunk[i].fault == t.fault) && GoodTargets(Devices(chunk), t, podOf)
  }

  /** The devices of a template with a fault are the first of its order. */
  ghost predicate AsOrdered(chunk: seq<Scenario>, t: Template, podOf: Device -> Option<int>, rng: Rng) {
    t.count > 0 && t.fault != "none" ==> FirstOrdered(Devices(chunk), t, podOf, rng)
  }

  /** Which indexes come next; a missing fault starts at 1. */
  function Next(counters: map<string, nat>, fault: string): nat {
    (if fault in counters then counters[fault] else 0) + 1
  }

  /** One scenario per target, template by template, up to the first template that asks for more
      devices than there are. */
  method Generate(templates: seq<Template>, podOf: Device -> Option<int>, rngs: nat -> Rng)
    returns (scenarios: seq<Scenario>, done: nat, ghost chunks: seq<seq<Scenario>>)
    requires forall k :: rngs(k).Permutes()
    ensures done == |chunks| <= |templates| && (done < |templates| ==> TooMany(templates[done]))
    ensures forall k :: 0 <= k < done ==> !TooMany(templates[k]) && GoodChunk(chunks[k], templates[k], podOf)
    ensures forall k :: 0 <= k < done ==> AsOrdered(chunks[k], templates[k], podOf, rngs(k))
    ensures scenarios == Flatten(chunks) && Numbered(scenarios)
  {
    hide GoodTargets;
    hide FirstOrdered;
    scenarios, chunks := [], [];
    var counters: map<string, nat> := map[];
    done := 0;
    while done < |templates|
      invariant done == |chunks| <= |templates|
      invariant forall k :: 0 <= k < done ==> !TooMany(templates[k]) && GoodChunk(chunks[k], templates[k], podOf)
      invariant forall k :: 0 <= k < done ==> AsOrdered(chunks[k], templates[k], podOf, rngs(k))
      invariant scenarios == Flatten(chunks)
      invariant Numbered(scenarios) && Counted(counters, scenarios)
    {
      var t := templates[done];
      assert (chunks + [[]])[..done] == chunks;
      if t.count > 0 {
        if TooMany(t) { return; }
        var targets := Targets(t, podOf, rngs(done));
        hide GoodChunk;
        ghost var chunk;
        chunk, scenarios, counters := Emit(t, targets, scenarios, counters, podOf);
        assert (chunks + [chunk])[..done] == chunks;
        chunks := chunks + [chunk];
      } else {
        NoTargets(t, podOf);
        hide GoodChunk;
        assert scenarios + [] == scenarios;
        chunks := chunks + [[]];
      }
      done := done + 1;
    }
  }

  lemma NoTargets(t: Template, podOf: Device -> Option<int>)
    requires t.count <= 0
    ensures GoodChunk([], t, podOf)
  {
    forall p ensures CountPod([], podOf, p) == 0 {}
  }

  /** The counters are one behind the next index of every fault. */
  ghost predicate Counted(counters: map<string, nat>, scenarios: seq<Scenario>) {
    forall f :: Next(counters, f) == 1 + CountFault(scenarios, f)
  }

  method Emit(t: Template, targets: seq<Option<Device>>, before: seq<Scenario>, counted: map<string, nat>,
              ghost podOf: Device -> Option<int>)
    returns (ghost chunk: seq<Scenario>, scenarios: seq<Scenario>, counters: map<string, nat>)
    requires Numbered(before) && Counted(counted, before) && GoodTargets(targets, t, podOf)
    ensures scenarios == before + chunk && GoodChunk(chunk, t, podOf) && Devices(chunk) == targets
    ensures Numbered(scenarios) && Counted(counters, scenarios)
  {
    hide GoodTargets;
    hide Numbered;
    hide Counted;
    scenarios, counters, chunk := before, counted, [];
    for i := 0 to |targets|
      invariant scenarios == before + chunk && |chunk| == i
      invariant forall k :: 0 <= k < i ==> chunk[k].fault == t.fault && chunk[k].device == targets[k]
      invariant Numbered(scenarios) && Counted(counters, scenarios)
    {
      var index := Next(counters, t.fault);
      var scenario := Scenario(t.fault, index, targets[i]);
      OneMoreScenario(counters, scenarios, scenario);
      counters := counters[t.fault := index];
      scenarios := scenarios + [scenario];
      chunk := chunk + [scenario];
    }
    assert Devices(chunk) == targets;
  }

  lemma OneMoreScenario(counters: map<string, nat>, scenarios: seq<Scenario>, s: Scenario)
    requires Numbered(scenarios) && Counted(counters, scenarios) && s.index == Next(counters, s.fault)
    ensures Numbered(scenarios + [s]) && Counted(counters[s.fault := s.index], scenarios + [s])
  {
    var now := scenarios + [s];
    assert now[..|scenarios|] == scenarios;
    forall i | 0 <= i < |now| ensures now[i].index == 1 + CountFault(now[..i], now[i].fault) {
      if i < |scenarios| { assert now[..i] == scenarios[..i]; }
    }
    assert Next(counters, s.fault) == 1 + CountFault(scenarios, s.fault);
    var after := counters[s.fault := s.index];
    forall f ensures Next(after, f) == 1 + CountFault(now, f) {
      assert Next(counters, f) == 1 + CountFault(scenarios, f);
    }
  }
}
