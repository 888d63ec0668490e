// The order of models in a backup (dbs/introspect.py): a topological order that breaks foreign-key
// cycles but never inheritance, and the plan that pulls in parent models.
module ModelOrder {
  import opened Wrappers
  import opened Sets

  // All ancestors of a model and the targets of its own relations.
  datatype Schema<!T(==, !new)> = Schema(ancestors: T -> set<T>, related: T -> seq<T>) {
    // Multiple-table inheritance: nobody inherits from itself, and ancestors of ancestors are
    // ancestors.
    ghost predicate Inherits() {
      && (forall m :: m !in ancestors(m))
      && (forall m, a :: a in ancestors(m) ==> ancestors(a) <= ancestors(m))
    }

    function AncestorsIn(m: T, models: set<T>): set<T> {
      ancestors(m) * models
    }

    // Ancestors and foreign-key targets inside the set, the model itself excepted.
    function DepsIn(m: T, models: set<T>): set<T> {
      AncestorsIn(m, models) + (set r | r in related(m) && r in models && r != m)
    }

    // One model is to come before another: as its ancestor, or as the target of a relation of its own.
    predicate Needs(m: T, r: T) {
      r != m && (r in ancestors(m) || r in related(m))
    }
  }

  function ToSet<T>(list: seq<T>): set<T> {
    set x | x in list
  }

  ghost predicate Distinct<T>(list: seq<T>) {
    forall i, j :: 0 <= i < j < |list| ==> list[i] != list[j]
  }

  // The same models, each once.
  ghost predicate Permutation<T>(list: seq<T>, other: seq<T>) {
    Distinct(list) && ToSet(list) == ToSet(other) && |list| == |other|
  }

  ghost predicate AncestorsFirst<T(!new)>(schema: Schema<T>, models: set<T>, ordered: seq<T>) {
    forall i :: 0 <= i < |ordered| ==> schema.AncestorsIn(ordered[i], models) <= ToSet(ordered[..i])
  }

  ghost predicate DepsFirst<T(!new)>(schema: Schema<T>, models: set<T>, ordered: seq<T>) {
    forall i :: 0 <= i < |ordered| ==> schema.DepsIn(ordered[i], models) <= ToSet(ordered[..i])
  }

  // No model outside a set has all its dependencies in it.
  ghost predicate Stuck<T(!new)>(schema: Schema<T>, models: set<T>, placed: set<T>) {
    forall m :: m in models && m !in placed ==> !(schema.DepsIn(m, models) <= placed)
  }

  // A model comes before one of its dependencies only where no model at all was ready.
  ghost predicate GivenUpLast<T(!new)>(schema: Schema<T>, models: set<T>, ordered: seq<T>) {
    forall i :: 0 <= i < |ordered| ==>
      schema.DepsIn(ordered[i], models) <= ToSet(ordered[..i]) || Stuck(schema, models, ToSet(ordered[..i]))
  }

  lemma DepsAreNeeds<T(!new)>(schema: Schema<T>, m: T, models: set<T>)
    requires schema.Inherits()
    ensures forall r :: r in schema.DepsIn(m, models) <==> r in models && schema.Needs(m, r)
  {}

  // Said of the models alone: wherever a needed model does not come first, every model still to come
  // needs another that is still to come.
  lemma GivenUpMeans<T(!new)>(schema: Schema<T>, models: set<T>, ordered: seq<T>, i: nat, r: T, m: T) returns (d: T)
    requires schema.Inherits() && GivenUpLast(schema, models, ordered) && i < |ordered|
    requires r in models && schema.Needs(ordered[i], r) && r !in ordered[..i]
    requires m in models && m !in ordered[..i]
    ensures d in models && schema.Needs(m, d) && d !in ordered[..i]
  {
    hide Schema.DepsIn, Schema.Needs, Schema.Inherits;
    var placed := ToSet(ordered[..i]);
    DepsAreNeeds(schema, ordered[i], models);
    DepsAreNeeds(schema, m, models);
    assert r in schema.DepsIn(ordered[i], models) && r !in placed;
    d :| d in schema.DepsIn(m, models) && d !in placed;
  }

  // No set of models in which each depends on another of the set.
  ghost predicate Acyclic<T(!new)>(schema: Schema<T>, models: set<T>) {
    forall knot :: knot <= models && knot != {} ==> exists m :: m in knot && schema.DepsIn(m, models) !! knot
  }

  // Some remaining model has no unresolved ancestor: one with the fewest ancestors.
  lemma {:induction false} SomeRootRemains<T(!new)>(schema: Schema<T>, models: set<T>, left: set<T>, m: T) returns (root: T)
    requires schema.Inherits() && m in left
    ensures root in left && schema.AncestorsIn(root, models) !! left
    decreases |schema.ancestors(m)|
  {
    if schema.AncestorsIn(m, models) !! left {
      root := m;
    } else {
      var a :| a in schema.AncestorsIn(m, models) && a in left;
      FewerAncestors(schema, m, a);
      root := SomeRootRemains(schema, models, left, a);
    }
  }

  lemma FewerAncestors<T(!new)>(schema: Schema<T>, m: T, a: T)
    requires schema.Inherits() && a in schema.ancestors(m)
    ensures |schema.ancestors(a)| < |schema.ancestors(m)|
  {
    var (above, all) := (schema.ancestors(a), schema.ancestors(m));
    assert above <= all - {a};
    SubsetSize(above, all - {a});
  }

  // The state of the sort: what is ordered, and what is left of the list.
  ghost predicate Sorting<T(!new)>(schema: Schema<T>, list: seq<T>, ordered: seq<T>, resolved: set<T>, remaining: seq<T>) {
    && resolved == ToSet(ordered) && resolved !! ToSet(remaining) && resolved + ToSet(remaining) == ToSet(list)
    && Distinct(ordered) && Distinct(remaining) && |ordered| + |remaining| == |list|
    && AncestorsFirst(schema, ToSet(list), ordered)
    && GivenUpLast(schema, ToSet(list), ordered)
  }

  function Without<T(==)>(list: seq<T>, x: T): (rest: seq<T>) {
    if |list| == 0 then [] else if list[0] == x then list[1..] else [list[0]] + Without(list[1..], x)
  }

  lemma {:induction false} WithoutOne<T>(list: seq<T>, x: T)
    requires Distinct(list) && x in list
    ensures var rest := Without(list, x);
            Distinct(rest) && |rest| == |list| - 1 && ToSet(rest) == ToSet(list) - {x}
  {
    if list[0] != x {
      WithoutOne(list[1..], x);
      assert list == [list[0]] + list[1..];
      assert ToSet(list) == {list[0]} + ToSet(list[1..]);
      assert ToSet(Without(list, x)) == {list[0]} + ToSet(Without(list[1..], x));
      assert list[0] !in ToSet(list[1..]);
    } else {
      assert list == [list[0]] + list[1..];
    }
  }

  // A model whose ancestors are resolved moves to the end of the order.
  lemma MoveOne<T(!new)>(schema: Schema<T>, list: seq<T>, ordered: seq<T>, resolved: set<T>, remaining: seq<T>, m: T)
    requires Sorting(schema, list, ordered, resolved, remaining) && m in remaining
    requires schema.AncestorsIn(m, ToSet(list)) <= resolved
    requires schema.DepsIn(m, ToSet(list)) <= resolved || Stuck(schema, ToSet(list), resolved)
    ensures Sorting(schema, list, ordered + [m], resolved + {m}, Without(remaining, m))
  {
    hide Without, Schema.AncestorsIn, Schema.DepsIn, AncestorsFirst, GivenUpLast, Stuck;
    WithoutOne(remaining, m);
    InSet(remaining, m);
    InSet(ordered, m);
    SetOfMore(ordered, m);
    AncestorsStayFirst(schema, ToSet(list), ordered, m);
    GivenUpStays(schema, ToSet(list), ordered, m);
  }

  lemma InSet<T>(list: seq<T>, x: T)
    ensures x in ToSet(list) <==> x in list
  {}

  lemma SetOfMore<T>(list: seq<T>, x: T)
    ensures ToSet(list + [x]) == ToSet(list) + {x}
    ensures Distinct(list) && x !in list ==> Distinct(list + [x])
    ensures forall i :: 0 <= i < |list| ==> (list + [x])[..i] == list[..i]
    ensures (list + [x])[..|list|] == list
  {}

  lemma AncestorsStayFirst<T(!new)>(schema: Schema<T>, models: set<T>, ordered: seq<T>, m: T)
    requires AncestorsFirst(schema, models, ordered) && schema.AncestorsIn(m, models) <= ToSet(ordered)
    ensures AncestorsFirst(schema, models, ordered + [m])
  {
    hide ToSet, Schema.AncestorsIn;
    SetOfMore(ordered, m);
  }

  lemma GivenUpStays<T(!new)>(schema: Schema<T>, models: set<T>, ordered: seq<T>, m: T)
    requires GivenUpLast(schema, models, ordered)
    requires schema.DepsIn(m, models) <= ToSet(ordered) || Stuck(schema, models, ToSet(ordered))
    ensures GivenUpLast(schema, models, ordered + [m])
  {
    hide ToSet, Schema.DepsIn, Stuck;
    SetOfMore(ordered, m);
  }

  // One pass over a copy of the remaining models.
  method Pass<T(==, !new)>(schema: Schema<T>, list: seq<T>, orderedBefore: seq<T>, resolvedBefore: set<T>, remainingBefore: seq<T>)
    returns (ordered: seq<T>, resolved: set<T>, remaining: seq<T>, progressed: bool)
    requires Sorting(schema, list, orderedBefore, resolvedBefore, remainingBefore)
    ensures Sorting(schema, list, ordered, resolved, remaining)
    ensures progressed ==> |remaining| < |remainingBefore|
    ensures !progressed ==> remaining == remainingBefore && resolved == resolvedBefore && ordered == orderedBefore
    ensures !progressed ==> forall m :: m in remaining ==> !(schema.DepsIn(m, ToSet(list)) <= resolved)
    ensures orderedBefore == [] && DepsFirst(schema, ToSet(list), remainingBefore) ==> ordered == remainingBefore && remaining == []
  {
    ordered, resolved, remaining, progressed := orderedBefore, resolvedBefore, remainingBefore, false;
    var models := ToSet(list);
    hide Without, Schema.AncestorsIn, Schema.DepsIn, Sorting, Stuck, DepsFirst;
    ghost var sorted := orderedBefore == [] && DepsFirst(schema, models, remainingBefore);
    for i := 0 to |remainingBefore|
      invariant sorted ==> ordered == remainingBefore[..i] && remaining == remainingBefore[i..]
      invariant Sorting(schema, list, ordered, resolved, remaining) && |remaining| <= |remainingBefore|
      invariant progressed ==> |remaining| < |remainingBefore|
      invariant !progressed ==> remaining == remainingBefore && resolved == resolvedBefore && ordered == orderedBefore
      invariant !progressed ==> forall k :: 0 <= k < i ==> !(schema.DepsIn(remainingBefore[k], models) <= resolved)
      invariant forall k :: i <= k < |remainingBefore| ==> remainingBefore[k] in remaining
    {
      var m := remainingBefore[i];
      if sorted {
        NextIsReady(schema, list, ordered, resolved, remaining, remainingBefore, i);
      }
      if schema.DepsIn(m, models) <= resolved {
        AncestorsAreDeps(schema, m, models);
        MoveOne(schema, list, ordered, resolved, remaining, m);
        SortingMeans(schema, list, orderedBefore, resolvedBefore, remainingBefore);
        SortingMeans(schema, list, ordered, resolved, remaining);
        LaterStay(remaining, remainingBefore, i);
        ordered, resolved, remaining, progressed := ordered + [m], resolved + {m}, Without(remaining, m), true;
      }
    }
  }

  lemma DepsAreInside<T(!new)>(schema: Schema<T>, m: T, models: set<T>)
    ensures schema.DepsIn(m, models) <= models
  {}

  lemma AncestorsAreDeps<T(!new)>(schema: Schema<T>, m: T, models: set<T>)
    ensures schema.AncestorsIn(m, models) <= schema.DepsIn(m, models)
  {}

  lemma LaterStay<T>(remaining: seq<T>, before: seq<T>, i: nat)
    requires Distinct(remaining) && Distinct(before)
    requires i < |before| && forall k :: i <= k < |before| ==> before[k] in remaining
    ensures |Without(remaining, before[i])| == |remaining| - 1
    ensures forall k :: i < k < |before| ==> before[k] in Without(remaining, before[i])
  {
    WithoutOne(remaining, before[i]);
    forall k | i < k < |before| ensures before[k] in Without(remaining, before[i]) {
      assert before[k] in ToSet(remaining) - {before[i]};
    }
    hide Without;
  }

  // In a list that is in order already, every model is ready when its turn comes.
  lemma NextIsReady<T(!new)>(schema: Schema<T>, list: seq<T>, ordered: seq<T>, resolved: set<T>, remaining: seq<T>, before: seq<T>, i: nat)
    requires Sorting(schema, list, ordered, resolved, remaining) && DepsFirst(schema, ToSet(list), before)
    requires i < |before| && ordered == before[..i] && remaining == before[i..]
    ensures schema.DepsIn(before[i], ToSet(list)) <= resolved
    ensures ordered + [before[i]] == before[..i + 1] && Without(remaining, before[i]) == before[i + 1..]
  {
    hide Schema.DepsIn, AncestorsFirst, GivenUpLast, Distinct, Permutation;
  }

  // topological_order: the list in an order that puts every ancestor first.  A dependency is given up
  // only when no remaining model is ready, so all of them come first when there is no cycle, and a list in
  // order stays as it is.
  method TopologicalOrder<T(==, !new)>(schema: Schema<T>, list: seq<T>) returns (ordered: seq<T>)
    requires schema.Inherits() && Distinct(list)
    ensures Permutation(ordered, list)
    ensures AncestorsFirst(schema, ToSet(list), ordered) && GivenUpLast(schema, ToSet(list), ordered)
    ensures Acyclic(schema, ToSet(list)) ==> DepsFirst(schema, ToSet(list), ordered)
    ensures DepsFirst(schema, ToSet(list), list) ==> ordered == list
  {
    var resolved: set<T>, remaining := {}, list;
    ordered := [];
    hide Without, Acyclic, Schema.AncestorsIn, Schema.DepsIn, Schema.Inherits, Stuck, DepsFirst;
    while |remaining| > 0
      invariant Sorting(schema, list, ordered, resolved, remaining)
      invariant DepsFirst(schema, ToSet(list), list) ==> (ordered == [] && remaining == list) || (ordered == list && remaining == [])
      decreases |remaining|
    {
      var progressed;
      ordered, resolved, remaining, progressed := Pass(schema, list, ordered, resolved, remaining);
      if !progressed {
        NothingReady(schema, list, ordered, resolved, remaining);
        var breaker := CycleBreaker(schema, list, ordered, resolved, remaining);
        MoveOne(schema, list, ordered, resolved, remaining, breaker);
        WithoutOne(remaining, breaker);
        ordered, resolved, remaining := ordered + [breaker], resolved + {breaker}, Without(remaining, breaker);
      }
    }
    if Acyclic(schema, ToSet(list)) {
      WithoutCycle(schema, ToSet(list), ordered);
    }
  }

  lemma NothingReady<T(!new)>(schema: Schema<T>, list: seq<T>, ordered: seq<T>, resolved: set<T>, remaining: seq<T>)
    requires Sorting(schema, list, ordered, resolved, remaining)
    requires forall m :: m in remaining ==> !(schema.DepsIn(m, ToSet(list)) <= resolved)
    ensures Stuck(schema, ToSet(list), resolved)
  {
    SortingMeans(schema, list, ordered, resolved, remaining);
    hide Sorting, Schema.DepsIn, ToSet;
    forall m | m in ToSet(list) && m !in resolved ensures m in remaining {
      InSet(remaining, m);
    }
  }

  // Where nothing is ready there is a cycle among what is left.
  lemma NoCycleHere<T(!new)>(schema: Schema<T>, models: set<T>, placed: set<T>, m: T)
    requires Stuck(schema, models, placed) && placed <= models && m in models && m !in placed
    ensures !Acyclic(schema, models)
  {
    hide Schema.DepsIn, Acyclic;
    KnotIsCyclic(schema, models, placed, models - placed);
  }

  lemma WithoutCycle<T(!new)>(schema: Schema<T>, models: set<T>, ordered: seq<T>)
    requires Acyclic(schema, models) && GivenUpLast(schema, models, ordered) && Distinct(ordered) && ToSet(ordered) == models
    ensures DepsFirst(schema, models, ordered)
  {
    hide Schema.DepsIn, Acyclic, Stuck;
    forall i | 0 <= i < |ordered| ensures schema.DepsIn(ordered[i], models) <= ToSet(ordered[..i]) {
      if Stuck(schema, models, ToSet(ordered[..i])) {
        assert ordered[i] in ToSet(ordered) && ordered[i] !in ToSet(ordered[..i]);
        NoCycleHere(schema, models, ToSet(ordered[..i]), ordered[i]);
      }
    }
  }

  lemma SortingMeans<T(!new)>(schema: Schema<T>, list: seq<T>, ordered: seq<T>, resolved: set<T>, remaining: seq<T>)
    requires Sorting(schema, list, ordered, resolved, remaining)
    ensures resolved !! ToSet(remaining) && resolved + ToSet(remaining) == ToSet(list) && Distinct(remaining)
  {
    hide Distinct, AncestorsFirst, GivenUpLast, ToSet;
  }

  lemma RootIsReady<T(!new)>(schema: Schema<T>, models: set<T>, resolved: set<T>, left: set<T>, root: T)
    requires resolved + left == models && schema.AncestorsIn(root, models) !! left
    ensures schema.AncestorsIn(root, models) <= resolved
  {}

  lemma KnotIsCyclic<T(!new)>(schema: Schema<T>, models: set<T>, resolved: set<T>, knot: set<T>)
    requires resolved + knot == models && knot != {}
    requires forall m :: m in knot ==> !(schema.DepsIn(m, models) <= resolved)
    ensures !Acyclic(schema, models)
  {
    hide Schema.DepsIn;
    forall m | m in knot ensures !(schema.DepsIn(m, models) !! knot) {
      DepsAreInside(schema, m, models);
      var d :| d in schema.DepsIn(m, models) && d !in resolved;
      assert d in knot;
    }
    assert knot <= models;
  }

  // The first remaining model whose ancestors are resolved.  There always is one, so the source's
  // default, the first remaining model, is never taken.
  method CycleBreaker<T(==, !new)>(schema: Schema<T>, list: seq<T>, ghost ordered: seq<T>, resolved: set<T>, remaining: seq<T>) returns (breaker: T)
    requires schema.Inherits() && Sorting(schema, list, ordered, resolved, remaining) && |remaining| > 0
    ensures breaker in remaining && schema.AncestorsIn(breaker, ToSet(list)) <= resolved
    ensures exists i :: 0 <= i < |remaining| && remaining[i] == breaker
                        && forall j :: 0 <= j < i ==> !(schema.AncestorsIn(remaining[j], ToSet(list)) <= resolved)
  {
    hide *;
    SortingMeans(schema, list, ordered, resolved, remaining);
    InSet(remaining, remaining[0]);
    ghost var root := SomeRootRemains(schema, ToSet(list), ToSet(remaining), remaining[0]);
    RootIsReady(schema, ToSet(list), resolved, ToSet(remaining), root);
    InSet(remaining, root);
    ghost var r :| 0 <= r < |remaining| && remaining[r] == root;
    var i := 0;
    while !(schema.AncestorsIn(remaining[i], ToSet(list)) <= resolved)
      invariant 0 <= i <= r
      invariant forall j :: 0 <= j < i ==> !(schema.AncestorsIn(remaining[j], ToSet(list)) <= resolved)
      decreases r - i
    {
      i := i + 1;
    }
    breaker := remaining[i];
  }

  // ----- backup_plan

  // The models of the plan in the order of the dictionary, the parents that nobody chose, and the
  // children that such a parent was told of.
  datatype Plan<T> = Plan(order: seq<T>, implied: set<T>, children: map<T, seq<T>>)

  ghost predicate Closed<T(!new)>(links: T -> seq<T>, models: set<T>) {
    forall m, p :: m in models && p in links(m) ==> p in models
  }

  // Nothing is planned that closing the chosen models under parents would not need.
  ghost predicate Least<T(!new)>(links: T -> seq<T>, chosen: set<T>, plan: Plan<T>) {
    forall closed: set<T> :: chosen <= closed && Closed(links, closed) ==> ToSet(plan.order) <= closed
  }

  // The keys of a dictionary built from a list: each once, where it comes first.
  function Keys<T(==)>(list: seq<T>): (keys: seq<T>)
    ensures ToSet(keys) == ToSet(list) && Distinct(keys)
  {
    if |list| == 0 then []
    else
      var (front, last) := (list[..|list| - 1], list[|list| - 1]);
      assert list == front + [last];
      SetOfMore(front, last);
      SetOfMore(Keys(front), last);
      InSet(Keys(front), last);
      hide Distinct, ToSet;
      if last in Keys(front) then Keys(front) else Keys(front) + [last]
  }

  // How often the worklist holds a model in all: a chosen one as often as it was named, an implied
  // parent once.
  function Turns<T(==)>(chosen: seq<T>, models: set<T>): multiset<T> {
    multiset(chosen) + multiset(models - ToSet(chosen))
  }

  // How often a parent has met a model: once for every turn of the model, `child` being at its turn
  // with the first of its links followed.
  function Met<T(==)>(links: T -> seq<T>, done: multiset<T>, child: Option<T>, followed: nat, m: T, p: T): nat
    requires child.Some? ==> followed <= |links(child.value)|
  {
    (if p in links(m) then done[m] else 0) + if child == Some(m) && p in links(m)[..followed] then 1 else 0
  }

  // The children of one parent are those met so far.
  ghost predicate JustMet<T(!new)>(links: T -> seq<T>, children: seq<T>, done: multiset<T>, child: Option<T>, followed: nat, p: T)
    requires child.Some? ==> followed <= |links(child.value)|
  {
    forall m :: multiset(children)[m] == Met(links, done, child, followed, m, p)
  }

  // Every parent met so far is planned.
  ghost predicate ParentsPlanned<T(!new)>(links: T -> seq<T>, order: seq<T>, done: multiset<T>, child: Option<T>, followed: nat)
    requires child.Some? ==> followed <= |links(child.value)|
  {
    forall m, p :: Met(links, done, child, followed, m, p) > 0 ==> p in ToSet(order)
  }

  ghost predicate ChildrenMet<T(!new)>(links: T -> seq<T>, plan: Plan<T>, done: multiset<T>, child: Option<T>, followed: nat)
    requires plan.children.Keys == plan.implied && (child.Some? ==> followed <= |links(child.value)|)
  {
    && ParentsPlanned(links, plan.order, done, child, followed)
    && forall p :: p in plan.implied ==> JustMet(links, plan.children[p], done, child, followed, p)
  }

  function AtTurn<T>(child: Option<T>): multiset<T> {
    if child.Some? then multiset{child.value} else multiset{}
  }

  // The state of the worklist: everything planned so far, and the children met of each implied
  // parent.  `done` was taken off the worklist; of `child` the first links were followed.
  ghost predicate Planning<T(!new)>(links: T -> seq<T>, chosen: seq<T>, plan: Plan<T>, done: multiset<T>, child: Option<T>, followed: nat,
                                    pending: seq<T>) {
    && (child.Some? ==> followed <= |links(child.value)|)
    && Distinct(plan.order) && done + AtTurn(child) + multiset(pending) == Turns(chosen, ToSet(plan.order))
    && ToSet(chosen) <= ToSet(plan.order) && plan.implied == ToSet(plan.order) - ToSet(chosen) && plan.children.Keys == plan.implied
    && ChildrenMet(links, plan, done, child, followed) && Least(links, ToSet(chosen), plan)
  }

  // The children of an implied parent are exactly the planned models linked to it, each as often as
  // it had a turn.
  ghost predicate ExactChildren<T(!new)>(links: T -> seq<T>, chosen: seq<T>, plan: Plan<T>, p: T)
    requires p in plan.children
  {
    forall m :: multiset(plan.children[p])[m] == if p in links(m) then Turns(chosen, ToSet(plan.order))[m] else 0
  }

  function StartOf<T(==)>(chosen: seq<T>): Plan<T> {
    Plan(Keys(chosen), {}, map[])
  }

  // What following one parent link does to the plan.
  function Follow<T(==)>(plan: Plan<T>, child: T, parent: T): Plan<T>
    requires plan.children.Keys == plan.implied
  {
    var planned := if parent in plan.order then plan
                   else Plan(plan.order + [parent], plan.implied + {parent}, plan.children[parent := []]);
    if parent in planned.implied then planned.(children := planned.children[parent := planned.children[parent] + [child]]) else planned
  }

  lemma FollowMeans<T(!new)>(plan: Plan<T>, child: T, parent: T)
    requires plan.children.Keys == plan.implied <= ToSet(plan.order)
    ensures var after := Follow(plan, child, parent);
            && after.children.Keys == after.implied && ToSet(after.order) == ToSet(plan.order) + {parent}
            && (forall p :: p in after.implied && p != parent ==> p in plan.implied && after.children[p] == plan.children[p])
            && (parent in after.implied ==>
                  after.children[parent] == (if parent in plan.implied then plan.children[parent] else []) + [child]
                  && (parent in plan.implied || parent !in ToSet(plan.order)))
  {
    SetOfMore(plan.order, parent);
    InSet(plan.order, parent);
  }

  lemma MetMore<T(!new)>(links: T -> seq<T>, done: multiset<T>, child: T, followed: nat)
    requires followed < |links(child)| && Distinct(links(child))
    ensures forall m, p :: Met(links, done, Some(child), followed + 1, m, p)
                        == Met(links, done, Some(child), followed, m, p) + if m == child && p == links(child)[followed] then 1 else 0
  {
    var (before, next) := (links(child)[..followed], links(child)[followed]);
    assert links(child)[..followed + 1] == before + [next];
    assert next !in before;
  }

  lemma FollowKeepsChildren<T(!new)>(links: T -> seq<T>, plan: Plan<T>, done: multiset<T>, child: T, followed: nat)
    requires plan.children.Keys == plan.implied <= ToSet(plan.order) && followed < |links(child)| && Distinct(links(child))
    requires ChildrenMet(links, plan, done, Some(child), followed)
    ensures var after := Follow(plan, child, links(child)[followed]);
            after.children.Keys == after.implied && ChildrenMet(links, after, done, Some(child), followed + 1)
  {
    var parent := links(child)[followed];
    var after := Follow(plan, child, parent);
    hide Distinct, Follow, Met, ToSet;
    FollowMeans(plan, child, parent);
    MetMore(links, done, child, followed);
    var next := followed + 1;
    assert ParentsPlanned(links, after.order, done, Some(child), next) by {
      forall m, p | Met(links, done, Some(child), next, m, p) > 0 ensures p in ToSet(after.order) {
        assert p == parent || Met(links, done, Some(child), followed, m, p) > 0;
      }
    }
    forall p | p in after.implied ensures JustMet(links, after.children[p], done, Some(child), followed + 1, p) {
      if p in plan.implied {
        assert JustMet(links, plan.children[p], done, Some(child), followed, p);
      } else {
        assert p == parent && p !in ToSet(plan.order);
        assert forall m :: Met(links, done, Some(child), followed, m, p) == 0;
        assert JustMet(links, [], done, Some(child), followed, p);
      }
      if p == parent {
        OneMoreMet(links, if p in plan.implied then plan.children[p] else [], done, child, followed);
      }
    }
  }

  lemma OneMoreMet<T(!new)>(links: T -> seq<T>, children: seq<T>, done: multiset<T>, child: T, followed: nat)
    requires followed < |links(child)| && Distinct(links(child)) && JustMet(links, children, done, Some(child), followed, links(child)[followed])
    ensures JustMet(links, children + [child], done, Some(child), followed + 1, links(child)[followed])
  {
    MetMore(links, done, child, followed);
    hide Met;
    assert multiset(children + [child]) == multiset(children) + multiset{child};
  }

  lemma FollowIsLeast<T(!new)>(links: T -> seq<T>, chosen: set<T>, plan: Plan<T>, child: T, parent: T)
    requires plan.children.Keys == plan.implied && Least(links, chosen, plan) && child in ToSet(plan.order) && parent in links(child)
    ensures Least(links, chosen, Follow(plan, child, parent))
  {
    SetOfMore(plan.order, parent);
    forall closed: set<T> | chosen <= closed && Closed(links, closed) ensures ToSet(Follow(plan, child, parent).order) <= closed {
      assert ToSet(plan.order) <= closed;
      assert child in closed;
    }
  }

  // A new model gets one turn.
  lemma OneMoreTurn<T>(chosen: seq<T>, models: set<T>, parent: T)
    requires ToSet(chosen) <= models
    ensures parent in models ==> Turns(chosen, models + {parent}) == Turns(chosen, models)
    ensures parent !in models ==> Turns(chosen, models + {parent}) == Turns(chosen, models) + multiset{parent}
  {
    hide ToSet;
    if parent in models {
      assert models + {parent} == models;
    } else {
      assert models + {parent} - ToSet(chosen) == (models - ToSet(chosen)) + {parent};
    }
  }

  // Whoever has a turn is planned, and the other way round.
  lemma TurnsAreModels<T>(chosen: seq<T>, models: set<T>, m: T)
    requires ToSet(chosen) <= models
    ensures m in Turns(chosen, models) <==> m in models
  {
    InSet(chosen, m);
    assert m in multiset(chosen) <==> m in chosen;
  }

  lemma AppendedTurn<T>(pending: seq<T>, parent: T)
    ensures multiset(pending + [parent]) == multiset(pending) + multiset{parent}
  {}

  lemma FollowKeepsKeys<T(!new)>(chosen: set<T>, plan: Plan<T>, child: T, parent: T)
    requires chosen <= ToSet(plan.order) && plan.implied == ToSet(plan.order) - chosen && plan.children.Keys == plan.implied && Distinct(plan.order)
    ensures var after := Follow(plan, child, parent);
            && chosen <= ToSet(after.order) && after.implied == ToSet(after.order) - chosen && after.children.Keys == after.implied
            && Distinct(after.order) && ToSet(after.order) == ToSet(plan.order) + {parent}
  {
    InSet(plan.order, parent);
    SetOfMore(plan.order, parent);
    hide ToSet, Distinct;
  }

  lemma PlanningMeans<T(!new)>(links: T -> seq<T>, chosen: seq<T>, plan: Plan<T>, done: multiset<T>, child: Option<T>, followed: nat, pending: seq<T>)
    requires Planning(links, chosen, plan, done, child, followed, pending)
    ensures Distinct(plan.order) && done + AtTurn(child) + multiset(pending) == Turns(chosen, ToSet(plan.order))
    ensures ToSet(chosen) <= ToSet(plan.order) && plan.implied == ToSet(plan.order) - ToSet(chosen) && plan.children.Keys == plan.implied
    ensures child.Some? ==> followed <= |links(child.value)| && child.value in Turns(chosen, ToSet(plan.order))
    ensures ChildrenMet(links, plan, done, child, followed) && Least(links, ToSet(chosen), plan)
  {
    hide Distinct, ToSet, Turns, ChildrenMet, Least;
  }

  lemma PlanningIntro<T(!new)>(links: T -> seq<T>, chosen: seq<T>, plan: Plan<T>, done: multiset<T>, child: Option<T>, followed: nat, pending: seq<T>)
    requires child.Some? ==> followed <= |links(child.value)|
    requires Distinct(plan.order) && done + AtTurn(child) + multiset(pending) == Turns(chosen, ToSet(plan.order))
    requires ToSet(chosen) <= ToSet(plan.order) && plan.implied == ToSet(plan.order) - ToSet(chosen) && plan.children.Keys == plan.implied
    requires ChildrenMet(links, plan, done, child, followed) && Least(links, ToSet(chosen), plan)
    ensures Planning(links, chosen, plan, done, child, followed, pending)
  {
    hide Distinct, ToSet, Turns, AtTurn, ChildrenMet, Least;
  }

  // Following one link keeps the state, with the parent on the worklist when it is new.
  lemma FollowKeepsPlanning<T(!new)>(links: T -> seq<T>, chosen: seq<T>, plan: Plan<T>, done: multiset<T>, child: T, followed: nat, pending: seq<T>)
    requires Planning(links, chosen, plan, done, Some(child), followed, pending) && followed < |links(child)| && Distinct(links(child))
    ensures var parent := links(child)[followed];
            Planning(links, chosen, Follow(plan, child, parent), done, Some(child), followed + 1,
                     if parent in plan.order then pending else pending + [parent])
  {
    hide *;
    PlanningMeans(links, chosen, plan, done, Some(child), followed, pending);
    var parent := links(child)[followed];
    var after := Follow(plan, child, parent);
    TurnsAreModels(chosen, ToSet(plan.order), child);
    FollowKeepsChildren(links, plan, done, child, followed);
    FollowIsLeast(links, ToSet(chosen), plan, child, parent);
    FollowKeepsKeys(ToSet(chosen), plan, child, parent);
    OneMoreTurn(chosen, ToSet(plan.order), parent);
    InSet(plan.order, parent);
    AppendedTurn(pending, parent);
    PlanningIntro(links, chosen, after, done, Some(child), followed + 1, if parent in plan.order then pending else pending + [parent]);
  }

  // A model whose links were all followed is done.
  lemma ChildIsDone<T(!new)>(links: T -> seq<T>, chosen: seq<T>, plan: Plan<T>, done: multiset<T>, child: T, pending: seq<T>)
    requires Planning(links, chosen, plan, done, Some(child), |links(child)|, pending)
    ensures Planning(links, chosen, plan, done + multiset{child}, None, 0, pending)
  {
    assert links(child)[..|links(child)|] == links(child);
    SameMet(links, plan, done, Some(child), |links(child)|, done + multiset{child}, None);
    hide Least, Distinct, Turns, ChildrenMet, ToSet;
  }

  lemma TakeChild<T(!new)>(links: T -> seq<T>, chosen: seq<T>, plan: Plan<T>, done: multiset<T>, pending: seq<T>)
    requires Planning(links, chosen, plan, done, None, 0, pending) && |pending| > 0
    ensures Planning(links, chosen, plan, done, Some(pending[0]), 0, pending[1..])
  {
    assert pending == [pending[0]] + pending[1..];
    SameMet(links, plan, done, None, 0, done, Some(pending[0]));
    hide Least, Distinct, Turns, ChildrenMet, ToSet;
  }

  // Between two turns nothing is met.
  lemma SameMet<T(!new)>(links: T -> seq<T>, plan: Plan<T>, done: multiset<T>, child: Option<T>, followed: nat, after: multiset<T>, next: Option<T>)
    requires plan.children.Keys == plan.implied && (child.Some? ==> followed <= |links(child.value)|)
    requires if child.Some? then followed == |links(child.value)| && after == done + multiset{child.value} && next.None? else after == done
    requires ChildrenMet(links, plan, done, child, followed)
    ensures ChildrenMet(links, plan, after, next, 0)
  {
    if child.Some? {
      assert links(child.value)[..followed] == links(child.value);
    }
    assert forall m, p :: Met(links, after, next, 0, m, p) == Met(links, done, child, followed, m, p);
    hide Met, ToSet;
    forall p | p in plan.implied ensures JustMet(links, plan.children[p], after, next, 0, p) {
      assert JustMet(links, plan.children[p], done, child, followed, p);
    }
  }

  lemma StartsPlanning<T(!new)>(links: T -> seq<T>, chosen: seq<T>)
    ensures Planning(links, chosen, StartOf(chosen), multiset{}, None, 0, chosen)
  {
    hide Keys, Distinct;
    assert ToSet(chosen) - ToSet(chosen) == {};
  }

  // Not more turns than the chosen models and all models have.
  lemma TurnsAreFinite<T(!new)>(links: T -> seq<T>, chosen: seq<T>, plan: Plan<T>, done: multiset<T>, child: Option<T>, followed: nat,
                                pending: seq<T>, all: set<T>)
    requires Planning(links, chosen, plan, done, child, followed, pending) && ToSet(chosen) <= all && Closed(links, all)
    ensures |done| + |pending| + (if child.Some? then 1 else 0) <= |chosen| + |all|
  {
    hide ChildrenMet, Distinct;
    assert ToSet(plan.order) <= all;
    SubsetSize(ToSet(plan.order) - ToSet(chosen), all);
    assert |done + AtTurn(child) + multiset(pending)| == |done| + |AtTurn(child)| + |pending|;
  }

  lemma PlanIsComplete<T(!new)>(links: T -> seq<T>, chosen: seq<T>, plan: Plan<T>, done: multiset<T>)
    requires Planning(links, chosen, plan, done, None, 0, [])
    ensures Closed(links, ToSet(plan.order)) && Least(links, ToSet(chosen), plan) && Distinct(plan.order)
    ensures ToSet(chosen) <= ToSet(plan.order) && plan.implied == ToSet(plan.order) - ToSet(chosen) && plan.children.Keys == plan.implied
    ensures forall p :: p in plan.implied ==> ExactChildren(links, chosen, plan, p)
  {
    hide Least, Distinct, ToSet, Turns;
    assert done == Turns(chosen, ToSet(plan.order));
    forall m, p | m in ToSet(plan.order) && p in links(m) ensures p in ToSet(plan.order) {
      TurnsAreModels(chosen, ToSet(plan.order), m);
      assert Met(links, done, None, 0, m, p) > 0;
    }
    forall p | p in plan.implied ensures ExactChildren(links, chosen, plan, p) {
      assert JustMet(links, plan.children[p], done, None, 0, p);
    }
  }

  // The links of one model, in turn.
  method FollowAll<T(==, !new)>(links: T -> seq<T>, ghost chosen: seq<T>, planBefore: Plan<T>, ghost done: multiset<T>, child: T,
                                pendingBefore: seq<T>)
    returns (plan: Plan<T>, pending: seq<T>)
    requires Planning(links, chosen, planBefore, done, Some(child), 0, pendingBefore) && Distinct(links(child))
    ensures Planning(links, chosen, plan, done + multiset{child}, None, 0, pending)
  {
    hide Planning, Distinct, Follow;
    plan, pending := planBefore, pendingBefore;
    for i := 0 to |links(child)|
      invariant Planning(links, chosen, plan, done, Some(child), i, pending)
    {
      PlanKeys(links, chosen, plan, done, Some(child), i, pending);
      FollowKeepsPlanning(links, chosen, plan, done, child, i, pending);
      var parent := links(child)[i];
      if parent !in plan.order {
        pending := pending + [parent];
      }
      plan := Follow(plan, child, parent);
    }
    ChildIsDone(links, chosen, plan, done, child, pending);
  }

  lemma PlanKeys<T(!new)>(links: T -> seq<T>, chosen: seq<T>, plan: Plan<T>, done: multiset<T>, child: Option<T>, followed: nat, pending: seq<T>)
    requires Planning(links, chosen, plan, done, child, followed, pending)
    ensures plan.children.Keys == plan.implied
  {}

  // backup_plan: the worklist ends, and its models are the least set that holds the chosen ones and
  // is closed under parents, in an order that puts parents first.  Every implied parent knows exactly
  // its children in the plan.
  method BackupPlan<T(==, !new)>(schema: Schema<T>, links: T -> seq<T>, chosen: seq<T>, ghost all: set<T>) returns (plan: Plan<T>, ordered: seq<T>)
    requires ToSet(chosen) <= all && Closed(links, all)
    requires schema.Inherits() && forall m :: Distinct(links(m)) && ToSet(links(m)) <= schema.ancestors(m)
    ensures ToSet(chosen) <= ToSet(plan.order) && Closed(links, ToSet(plan.order)) && Least(links, ToSet(chosen), plan)
    ensures plan.implied == ToSet(plan.order) - ToSet(chosen) && plan.children.Keys == plan.implied
    ensures forall p :: p in plan.implied ==> ExactChildren(links, chosen, plan, p)
    ensures Permutation(ordered, plan.order) && ParentsFirst(links, ordered)
    ensures GivenUpLast(schema, ToSet(plan.order), ordered)
    ensures Acyclic(schema, ToSet(plan.order)) ==> DepsFirst(schema, ToSet(plan.order), ordered)
  {
    hide *;
    plan := StartOf(chosen);
    var pending := chosen;
    ghost var done: multiset<T> := multiset{};
    StartsPlanning(links, chosen);
    while |pending| > 0
      invariant Planning(links, chosen, plan, done, None, 0, pending)
      decreases |chosen| + |all| - |done|
    {
      TakeChild(links, chosen, plan, done, pending);
      var child := pending[0];
      TurnsAreFinite(links, chosen, plan, done, Some(child), 0, pending[1..], all);
      plan, pending := FollowAll(links, chosen, plan, done, child, pending[1..]);
      done := done + multiset{child};
    }
    assert pending == [];
    PlanIsComplete(links, chosen, plan, done);
    ordered := TopologicalOrder(schema, plan.order);
    ParentsComeFirst(schema, links, plan.order, ordered);
  }

  ghost predicate ParentsFirst<T(!new)>(links: T -> seq<T>, ordered: seq<T>) {
    forall i :: 0 <= i < |ordered| ==> ToSet(links(ordered[i])) <= ToSet(ordered[..i])
  }

  lemma ParentsComeFirst<T(!new)>(schema: Schema<T>, links: T -> seq<T>, order: seq<T>, ordered: seq<T>)
    requires Closed(links, ToSet(order)) && Permutation(ordered, order) && AncestorsFirst(schema, ToSet(order), ordered)
    requires forall m :: ToSet(links(m)) <= schema.ancestors(m)
    ensures ParentsFirst(links, ordered)
  {
    hide Distinct;
    forall i | 0 <= i < |ordered| ensures ToSet(links(ordered[i])) <= ToSet(ordered[..i]) {
      assert ordered[i] in ToSet(order);
      forall p | p in ToSet(links(ordered[i])) ensures p in schema.AncestorsIn(ordered[i], ToSet(order)) {
        assert p in links(ordered[i]);
      }
    }
  }
}
