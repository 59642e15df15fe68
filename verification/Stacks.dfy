/**
 * Habit stacking: each habit may name one habit it follows. The service keeps
 * this functional graph free of cycles with a walk bounded at 100 habits.
 */
module Stacks {
  import opened Common

  type Id = string

  /** Child to parent: the habit a habit is stacked after. */
  type Graph = map<Id, Id>

  datatype StackEdge = StackEdge(habit: Id, after: Option<Id>)

  const MAX_STACK_DEPTH: nat := 100

  /** The empty id stands for "no habit", as an empty string is falsy in the source. */
  predicate Truthy(id: Id) { id != "" }

  function Parent(g: Graph, x: Id): Option<Id> { if x in g then Some(g[x]) else None }

  /** The habit `k` links up the chain from `x`, if the chain is that long. */
  function Up(g: Graph, x: Id, k: nat): Option<Id> {
    if k == 0 then Some(x)
    else
      match Up(g, x, k - 1)
      case None => None
      case Some(y) => Parent(g, y)
  }

  ghost predicate Ends(g: Graph, x: Id) { exists k: nat :: Up(g, x, k) == None }

  /** No habit is, however many links up, stacked after itself. */
  ghost predicate NoCycle(g: Graph) { forall x: Id, k: nat :: k > 0 ==> Up(g, x, k) != Some(x) }

  /** Every chain reaches a habit that follows nothing. */
  ghost predicate AllEnd(g: Graph) { forall x: Id :: Ends(g, x) }

  // ---- Walking --------------------------------------------------------------------

  lemma {:induction false} UpAdd(g: Graph, x: Id, j: nat, k: nat)
    ensures Up(g, x, j).Some? ==> Up(g, x, j + k) == Up(g, Up(g, x, j).value, k)
    ensures Up(g, x, j).None? ==> Up(g, x, j + k).None?
    decreases k
  {
    if k > 0 {
      UpAdd(g, x, j, k - 1);
    }
  }

  /** The chain of `x`, `k` links long. */
  function Chain(g: Graph, x: Id, k: nat): set<Id> {
    if k == 0 then {} else Chain(g, x, k - 1) + (match Up(g, x, k - 1) case None => {} case Some(y) => {y})
  }

  lemma {:induction false} ChainMember(g: Graph, x: Id, k: nat, y: Id) returns (j: nat)
    requires y in Chain(g, x, k)
    ensures j < k && Up(g, x, j) == Some(y)
    decreases k
  {
    if Up(g, x, k - 1) == Some(y) {
      j := k - 1;
    } else {
      j := ChainMember(g, x, k - 1, y);
    }
  }

  lemma {:induction false} ChainContains(g: Graph, x: Id, k: nat, j: nat)
    requires j < k && Up(g, x, j).Some?
    ensures Up(g, x, j).value in Chain(g, x, k)
    decreases k
  {
    if j < k - 1 {
      ChainContains(g, x, k - 1, j);
    }
  }

  /** Without cycles a chain never repeats a habit. */
  lemma {:induction false} ChainSize(g: Graph, x: Id, k: nat)
    requires NoCycle(g) && Up(g, x, k).Some?
    ensures |Chain(g, x, k)| == k
    ensures Chain(g, x, k) <= g.Keys
    decreases k
  {
    if k > 0 {
      ChainSize(g, x, k - 1);
      var y := Up(g, x, k - 1).value;
      if y in Chain(g, x, k - 1) {
        var j := ChainMember(g, x, k - 1, y);
        UpAdd(g, x, j, k - 1 - j);
      }
    }
  }

  lemma SubsetSize(a: set<Id>, b: set<Id>)
    requires a <= b
    ensures |a| <= |b|
  {
    assert b == a + (b - a);
  }

  lemma {:induction false} Repeats(g: Graph, x: Id, k: nat, n: nat)
    requires Up(g, x, k) == Some(x)
    ensures Up(g, x, n * k) == Some(x)
    decreases n
  {
    if n > 0 {
      Repeats(g, x, k, n - 1);
      UpAdd(g, x, (n - 1) * k, k);
      assert n * k == (n - 1) * k + k;
    }
  }

  /** "No cycle" and "every chain ends" are the same property of a stored graph. */
  lemma NoCycleIffAllEnd(g: Graph)
    ensures NoCycle(g) <==> AllEnd(g)
  {
    if NoCycle(g) {
      forall x: Id
        ensures Ends(g, x)
      {
        var k := |g| + 1;
        if Up(g, x, k).Some? {
          ChainSize(g, x, k);
          SubsetSize(Chain(g, x, k), g.Keys);
        }
        assert Up(g, x, k) == None;
      }
    }
    if AllEnd(g) {
      forall x: Id, k: nat | k > 0
        ensures Up(g, x, k) != Some(x)
      {
        assert Ends(g, x);
        var n: nat :| Up(g, x, n) == None;
        if Up(g, x, k) == Some(x) {
          Repeats(g, x, k, n);
          assert n * k >= n;
          UpAdd(g, x, n, n * k - n);
        }
      }
    }
  }

  // ---- The bounded check ---------------------------------------------------------------

  /** The edges read from the database as a map; a later row for the same habit wins. */
  function GraphOf(edges: seq<StackEdge>): Graph {
    if edges == [] then map[]
    else
      var g := GraphOf(edges[..|edges| - 1]);
      var e := edges[|edges| - 1];
      if e.after.Some? && Truthy(e.after.value) then g[e.habit := e.after.value] else g
  }

  /** The walk up from `parent` meets `habit` within the depth bound. */
  predicate Meets(g: Graph, habit: Id, parent: Id) {
    exists k: nat :: k < MAX_STACK_DEPTH && Up(g, parent, k) == Some(habit)
  }

  /** More than 100 habits stand in the chain of `parent`. */
  predicate TooDeep(g: Graph, parent: Id) { Up(g, parent, MAX_STACK_DEPTH).Some? }

  /** The walk runs into a habit stored as its own predecessor, which the check lets pass. */
  predicate SelfLooped(g: Graph, parent: Id) {
    exists k: nat ::
      k < MAX_STACK_DEPTH && Up(g, parent, k).Some? && Parent(g, Up(g, parent, k).value) == Up(g, parent, k)
  }

  /** What the check answers, for any stored edges, corrupted ones included. */
  predicate Refuses(g: Graph, habit: Id, parent: Id) {
    && Truthy(habit) && Truthy(parent)
    && (Meets(g - {habit}, habit, parent) || (TooDeep(g - {habit}, parent) && !SelfLooped(g - {habit}, parent)))
  }

  lemma NoneAfter(g: Graph, x: Id, n: nat)
    requires Up(g, x, n) == None
    ensures forall k: nat :: k >= n ==> Up(g, x, k) == None
  {
    forall k: nat | k >= n
      ensures Up(g, x, k) == None
    {
      UpAdd(g, x, n, k - n);
    }
  }

  lemma {:induction false} StuckForever(g: Graph, x: Id, k: nat, n: nat)
    requires Up(g, x, k).Some? && Parent(g, Up(g, x, k).value) == Up(g, x, k) && k <= n
    ensures Up(g, x, n) == Up(g, x, k)
    decreases n
  {
    if k < n {
      StuckForever(g, x, k, n - 1);
    }
  }

  method WouldCreateStackCycle(edges: seq<StackEdge>, habit: Id, parent: Id) returns (cyclic: bool)
    ensures cyclic <==> Refuses(GraphOf(edges), habit, parent)
  {
    if !Truthy(habit) || !Truthy(parent) {
      return false;
    }
    ghost var g := GraphOf(edges) - {habit};
    if habit == parent {
      assert Up(g, parent, 0) == Some(habit);
      return true;
    }
    var nextAfter: Graph := map[];
    for i := 0 to |edges|
      invariant nextAfter == GraphOf(edges[..i]) - {habit}
    {
      assert edges[..i + 1][..i] == edges[..i];
      var edge := edges[i];
      if edge.habit != habit && edge.after.Some? && Truthy(edge.after.value) {
        nextAfter := nextAfter[edge.habit := edge.after.value];
      }
    }
    assert edges[..|edges|] == edges;
    var current := parent;
    for depth := 0 to MAX_STACK_DEPTH
      invariant Up(g, parent, depth) == Some(current)
      invariant forall k: nat :: k < depth ==> Up(g, parent, k) != Some(habit)
      invariant forall k: nat :: k < depth ==>
        Up(g, parent, k).Some? && Parent(g, Up(g, parent, k).value) != Up(g, parent, k)
    {
      if current == habit {
        return true;
      }
      if current !in nextAfter {
        assert Up(g, parent, depth + 1) == None;
        NoneAfter(g, parent, depth + 1);
        return false;
      }
      var next := nextAfter[current];
      if next == current {
        forall k: nat | depth <= k
          ensures Up(g, parent, k) == Some(current)
        {
          StuckForever(g, parent, depth, k);
        }
        return false;
      }
      current := next;
    }
    return true;
  }

  // ---- What the answer means -------------------------------------------------------------

  /** Walks agree on two graphs as long as they do not leave from `habit`. */
  lemma {:induction false} UpAgrees(g: Graph, h: Graph, habit: Id, x: Id, k: nat)
    requires g - {habit} == h - {habit}
    requires forall j: nat :: j < k ==> Up(g, x, j) != Some(habit)
    ensures Up(g, x, k) == Up(h, x, k)
    decreases k
  {
    if k > 0 {
      UpAgrees(g, h, habit, x, k - 1);
      var u := Up(g, x, k - 1);
      if u.Some? {
        assert Parent(g, u.value) == Parent(g - {habit}, u.value);
        assert Parent(h, u.value) == Parent(h - {habit}, u.value);
      }
    }
  }

  /** The first time the walk from `x` stands on `habit`, if it ever does before step `k`. */
  lemma {:induction false} FirstMeeting(g: Graph, x: Id, habit: Id, k: nat) returns (j: nat)
    requires Up(g, x, k) == Some(habit)
    ensures j <= k && Up(g, x, j) == Some(habit)
    ensures forall i: nat :: i < j ==> Up(g, x, i) != Some(habit)
    decreases k
  {
    if i: nat :| i < k && Up(g, x, i) == Some(habit) {
      j := FirstMeeting(g, x, habit, i);
    } else {
      j := k;
    }
  }

  /** If the chain of the new parent ends without meeting the habit, the new edge keeps every chain ending. */
  lemma AddedEdgeEnds(g: Graph, habit: Id, parent: Id, n: nat)
    requires AllEnd(g) && Up(g - {habit}, parent, n) == None
    requires forall k: nat :: Up(g - {habit}, parent, k) != Some(habit)
    ensures AllEnd(g[habit := parent])
  {
    var cut, grown := g - {habit}, g[habit := parent];
    UpAgrees(cut, grown, habit, parent, n);
    UpAdd(grown, habit, 1, n);
    assert Up(grown, habit, 1) == Some(parent) by {
      assert Up(grown, habit, 0) == Some(habit);
    }
    forall x: Id
      ensures Ends(grown, x)
    {
      assert Ends(g, x);
      var m: nat :| Up(g, x, m) == None;
      if i: nat :| i < m && Up(g, x, i) == Some(habit) {
        var j := FirstMeeting(g, x, habit, i);
        UpAgrees(g, grown, habit, x, j);
        UpAdd(grown, x, j, 1 + n);
      } else {
        UpAgrees(g, grown, habit, x, m);
      }
    }
  }

  /** Reaching the habit from its new parent closes a cycle. */
  lemma ClosesCycle(g: Graph, habit: Id, parent: Id, k: nat)
    requires Up(g - {habit}, parent, k) == Some(habit)
    ensures !NoCycle(g[habit := parent])
  {
    var cut, grown := g - {habit}, g[habit := parent];
    var j := FirstMeeting(cut, parent, habit, k);
    UpAgrees(cut, grown, habit, parent, j);
    assert Up(grown, habit, 0) == Some(habit);
    assert Up(grown, habit, 1) == Some(parent);
    UpAdd(grown, habit, 1, j);
  }

  lemma CutKeepsAcyclic(g: Graph, habit: Id)
    requires AllEnd(g)
    ensures AllEnd(g - {habit})
  {
    var cut := g - {habit};
    forall x: Id
      ensures Ends(cut, x)
    {
      assert Ends(g, x);
      var m: nat :| Up(g, x, m) == None;
      if i: nat :| i < m && Up(g, x, i) == Some(habit) {
        var j := FirstMeeting(g, x, habit, i);
        UpAgrees(g, cut, habit, x, j);
        assert Up(cut, x, j + 1) == None;
      } else {
        UpAgrees(g, cut, habit, x, m);
      }
    }
  }

  /**
   * On an acyclic graph the check refuses exactly the edges that would close a
   * cycle or whose parent chain is over 100 habits long.
   */
  lemma RefusesExactly(g: Graph, habit: Id, parent: Id)
    requires NoCycle(g) && Truthy(habit) && Truthy(parent)
    ensures Refuses(g, habit, parent) <==> !NoCycle(g[habit := parent]) || TooDeep(g - {habit}, parent)
  {
    var cut := g - {habit};
    NoCycleIffAllEnd(g);
    CutKeepsAcyclic(g, habit);
    NoCycleIffAllEnd(cut);
    NoCycleIffAllEnd(g[habit := parent]);
    NoSelfLoop(cut, parent);
    assert Ends(cut, parent);
    var n: nat :| Up(cut, parent, n) == None;
    NoneAfter(cut, parent, n);
    if k: nat :| Up(cut, parent, k) == Some(habit) {
      ClosesCycle(g, habit, parent, k);
      if k >= MAX_STACK_DEPTH && Up(cut, parent, MAX_STACK_DEPTH).None? {
        NoneAfter(cut, parent, MAX_STACK_DEPTH);
      }
    } else {
      AddedEdgeEnds(g, habit, parent, n);
    }
  }

  lemma NoSelfLoop(g: Graph, parent: Id)
    requires NoCycle(g)
    ensures !SelfLooped(g, parent)
  {
    forall x: Id
      ensures Parent(g, x) != Some(x)
    {
      assert Up(g, x, 0) == Some(x);
      assert Up(g, x, 1) == Parent(g, x);
    }
  }

  // ---- Resolving a chain --------------------------------------------------------------------

  ghost predicate NoRepeats(s: seq<Id>) { forall i, j :: 0 <= i < j < |s| ==> s[i] != s[j] }

  function Backwards(s: seq<Id>): (r: seq<Id>)
    ensures |r| == |s| && forall i :: 0 <= i < |s| ==> r[i] == s[|s| - 1 - i]
  {
    if s == [] then [] else Backwards(s[1..]) + [s[0]]
  }

  /** The first loop of the resolver: the edges as a map. */
  method ParentMap(edges: seq<StackEdge>) returns (parentOf: Graph)
    ensures parentOf == GraphOf(edges)
    ensures forall x :: x in parentOf ==> Truthy(parentOf[x])
  {
    parentOf := map[];
    for i := 0 to |edges|
      invariant parentOf == GraphOf(edges[..i])
      invariant forall x :: x in parentOf ==> Truthy(parentOf[x])
    {
      assert edges[..i + 1][..i] == edges[..i];
      if edges[i].after.Some? && Truthy(edges[i].after.value) {
        parentOf := parentOf[edges[i].habit := edges[i].after.value];
      }
    }
    assert edges[..|edges|] == edges;
  }

  /** The habits met on the way up from `habit`, nearest first, and where the walk stands now. */
  ghost predicate Walked(g: Graph, habit: Id, walk: seq<Id>, current: Option<Id>) {
    && NoRepeats(walk)
    && Up(g, habit, |walk|) == current
    && forall i: nat :: i < |walk| ==> Up(g, habit, i) == Some(walk[i])
  }

  lemma WalkStep(g: Graph, habit: Id, walk: seq<Id>, x: Id)
    requires Walked(g, habit, walk, Some(x)) && x !in walk
    ensures Walked(g, habit, walk + [x], Parent(g, x))
  {
  }

  /** The chain of a habit, oldest cue first: it climbs link by link and stops at a root or where it would repeat. */
  ghost predicate Resolved(g: Graph, habit: Id, chain: seq<Id>) {
    && |chain| > 0
    && (forall i: nat :: i < |chain| ==> Up(g, habit, i) == Some(chain[|chain| - 1 - i]))
    && (NoCycle(g) ==> Parent(g, chain[0]) == None)
    && (Parent(g, chain[0]).Some? ==> Parent(g, chain[0]).value in chain)
  }

  /** A walk that has listed its first habits stops at a root, or on a habit already listed. */
  lemma WalkStops(g: Graph, habit: Id, walk: seq<Id>, current: Option<Id>)
    requires Walked(g, habit, walk, current) && walk != [] && (current.Some? ==> current.value in walk)
    ensures Parent(g, walk[|walk| - 1]) == current
    ensures NoCycle(g) ==> current == None
  {
    if NoCycle(g) && current.Some? {
      var i :| 0 <= i < |walk| && walk[i] == current.value;
      UpAdd(g, habit, i, |walk| - i);
    }
  }

  /** A finished walk, read backwards, is the resolved chain. */
  lemma WalkResolves(g: Graph, habit: Id, walk: seq<Id>, current: Option<Id>)
    requires Walked(g, habit, walk, current) && walk != [] && (current.Some? ==> current.value in walk)
    ensures NoRepeats(Backwards(walk)) && Resolved(g, habit, Backwards(walk))
  {
    var chain := Backwards(walk);
    WalkStops(g, habit, walk, current);
    assert chain[0] == walk[|walk| - 1];
    if current.Some? {
      var i :| 0 <= i < |walk| && walk[i] == current.value;
      assert chain[|walk| - 1 - i] == current.value;
    }
  }

  /** The cue chain, oldest cue first; it terminates on any edges, cyclic ones included. */
  method ResolveStackChain(edges: seq<StackEdge>, habit: Id) returns (chain: seq<Id>)
    ensures !Truthy(habit) ==> chain == []
    ensures Truthy(habit) ==> Resolved(GraphOf(edges), habit, chain)
    ensures NoRepeats(chain)
  {
    var parentOf := ParentMap(edges);
    ghost var g := parentOf;
    ghost var all := g.Values + {habit};
    chain := [];
    var seen: set<Id> := {};
    var current: Option<Id> := Some(habit);
    while current.Some? && Truthy(current.value) && current.value !in seen
      invariant seen <= all && (current.Some? ==> current.value in all)
      invariant forall x :: x in seen <==> x in chain
      invariant Walked(g, habit, chain, current)
      invariant if chain == [] then current == Some(habit) else Truthy(habit)
      invariant chain != [] && current.Some? ==> Truthy(current.value)
      decreases all - seen
    {
      WalkStep(g, habit, chain, current.value);
      seen := seen + {current.value};
      chain := chain + [current.value];
      current := if current.value in parentOf then Some(parentOf[current.value]) else None;
    }
    if chain != [] {
      WalkResolves(g, habit, chain, current);
    }
    chain := Backwards(chain);
  }

  // ---- The service -------------------------------------------------------------------------------

  /** One user's habits, each archived or not, and their stacking edges. */
  datatype Stack = Stack(archived: map<Id, bool>, after: Graph)

  datatype Edit = Unchanged | Clear | Set(target: Id)

  datatype Error = NotFound | BadRequest | Conflict

  datatype Outcome = Accepted(stack: Stack) | Rejected(error: Error)

  function CheckTarget(s: Stack, target: Id, habit: Option<Id>): Option<Error> {
    if habit == Some(target) && Truthy(target) then Some(BadRequest)
    else if target !in s.archived then Some(NotFound)
    else if s.archived[target] then Some(Conflict)
    else if Refuses(s.after, habit.GetOr(target), target) then Some(Conflict)
    else None
  }

  function UpdateStack(s: Stack, habit: Id, edit: Edit): Outcome {
    if habit !in s.archived then Rejected(NotFound)
    else
      match edit
      case Unchanged => Accepted(s)
      case Clear => Accepted(s.(after := s.after - {habit}))
      case Set(target) =>
        match CheckTarget(s, target, Some(habit))
        case Some(e) => Rejected(e)
        case None => Accepted(s.(after := s.after[habit := target]))
  }

  /** A create passes its target as both arguments of the check, since the new habit has no id yet. */
  function AddHabit(s: Stack, newId: Id, target: Option<Id>): Outcome {
    if target.Some? && Truthy(target.value) then
      match CheckTarget(s, target.value, None)
      case Some(e) => Rejected(e)
      case None => Accepted(Stack(s.archived[newId := false], s.after[newId := target.value]))
    else Accepted(s.(archived := s.archived[newId := false]))
  }

  /** A habit with history is archived; an unused one goes, and edges to it are cleared. */
  function DropHabit(s: Stack, habit: Id, hasHistory: bool): Outcome {
    if habit !in s.archived then Rejected(NotFound)
    else if hasHistory then Accepted(s.(archived := s.archived[habit := true]))
    else Accepted(Stack(s.archived - {habit}, map x | x in s.after && x != habit && s.after[x] != habit :: s.after[x]))
  }

  datatype Op =
    | DoUpdate(habit: Id, edit: Edit)
    | DoCreate(newId: Id, target: Option<Id>)
    | DoDelete(habit: Id, hasHistory: bool)

  function Step(s: Stack, op: Op): Stack {
    var outcome := match op
      case DoUpdate(habit, edit) => UpdateStack(s, habit, edit)
      case DoCreate(newId, target) =>
        if newId in s.archived || !Truthy(newId) then Rejected(Conflict) else AddHabit(s, newId, target)
      case DoDelete(habit, hasHistory) => DropHabit(s, habit, hasHistory);
    match outcome
    case Accepted(t) => t
    case Rejected(_) => s
  }

  function RunOps(s: Stack, ops: seq<Op>): Stack
    decreases |ops|
  {
    if ops == [] then s else RunOps(Step(s, ops[0]), ops[1..])
  }

  /** Edges join existing habits and never close a cycle. */
  ghost predicate Valid(s: Stack) {
    && "" !in s.archived
    && (forall x :: x in s.after ==> x in s.archived && s.after[x] in s.archived)
    && NoCycle(s.after)
  }

  /** Every create that names a target is turned down, whatever the target. */
  lemma CreateWithTargetRejected(s: Stack, newId: Id, target: Id)
    requires Truthy(target)
    ensures AddHabit(s, newId, Some(target)).Rejected?
  {
    assert Up(s.after - {target}, target, 0) == Some(target);
  }

  // ---- What one edit answers --------------------------------------------------------------------

  /** An accepted edit stores its edge, or removes it, or leaves it; every other edge and every flag stays. */
  lemma UpdateStores(s: Stack, habit: Id, edit: Edit)
    requires UpdateStack(s, habit, edit).Accepted?
    ensures var t := UpdateStack(s, habit, edit).stack;
      && t.archived == s.archived
      && t.after - {habit} == s.after - {habit}
      && (edit.Set? ==> habit in t.after && t.after[habit] == edit.target)
      && (edit.Clear? ==> habit !in t.after)
      && (edit.Unchanged? ==> t == s)
  {
  }

  /**
   * In a valid stack an edge is accepted exactly when the habit exists, the
   * target is another habit, not archived, and the edge closes no cycle and
   * hangs below a chain of at most 100 habits; each refusal has its error.
   */
  lemma UpdateAnswers(s: Stack, habit: Id, target: Id)
    requires Valid(s)
    ensures var r := UpdateStack(s, habit, Set(target));
      && (r == Rejected(NotFound) <==> habit !in s.archived || (target != habit && target !in s.archived))
      && (r == Rejected(BadRequest) <==> habit in s.archived && target == habit)
      && (habit in s.archived && target in s.archived && target != habit ==>
          (r.Accepted? <==>
            && !s.archived[target]
            && NoCycle(s.after[habit := target])
            && Up(s.after - {habit}, target, 100).None?)
          && (!r.Accepted? ==> r == Rejected(Conflict)))
    ensures UpdateStack(s, habit, Clear).Accepted? <==> habit in s.archived
    ensures UpdateStack(s, habit, Unchanged).Accepted? <==> habit in s.archived
  {
    if habit in s.archived && target in s.archived {
      RefusesExactly(s.after, habit, target);
    }
  }

  /** A new habit starts open and unstacked; one with history is archived, another goes with the edges at it. */
  lemma CreateAndDeleteStore(s: Stack, habit: Id, hasHistory: bool)
    ensures AddHabit(s, habit, None) == Accepted(Stack(s.archived[habit := false], s.after))
    ensures DropHabit(s, habit, hasHistory) == Rejected(NotFound) <==> habit !in s.archived
    ensures habit in s.archived && hasHistory ==>
      DropHabit(s, habit, hasHistory) == Accepted(Stack(s.archived[habit := true], s.after))
    ensures habit in s.archived && !hasHistory ==>
      var r := DropHabit(s, habit, hasHistory);
      && r.Accepted? && r.stack.archived == s.archived - {habit}
      && forall x :: (x in r.stack.after <==> x in s.after && x != habit && s.after[x] != habit)
                     && (x in r.stack.after ==> r.stack.after[x] == s.after[x])
  {
  }

  /** Removing edges cannot create a cycle. */
  lemma {:induction false} FewerEdgesUp(g: Graph, h: Graph, x: Id, k: nat)
    requires forall y :: y in h ==> y in g && h[y] == g[y]
    ensures Up(h, x, k).Some? ==> Up(h, x, k) == Up(g, x, k)
    decreases k
  {
    if k > 0 {
      FewerEdgesUp(g, h, x, k - 1);
    }
  }

  lemma FewerEdges(g: Graph, h: Graph)
    requires NoCycle(g) && forall y :: y in h ==> y in g && h[y] == g[y]
    ensures NoCycle(h)
  {
    forall x: Id, k: nat | k > 0
      ensures Up(h, x, k) != Some(x)
    {
      FewerEdgesUp(g, h, x, k);
    }
  }

  lemma StepKeepsValid(s: Stack, op: Op)
    requires Valid(s)
    ensures Valid(Step(s, op))
  {
    match op
    case DoUpdate(habit, edit) =>
      if edit.Set? && UpdateStack(s, habit, edit).Accepted? {
        RefusesExactly(s.after, habit, edit.target);
      } else if edit.Clear? {
        FewerEdges(s.after, s.after - {habit});
      }
    case DoCreate(newId, target) =>
      if target.Some? && Truthy(target.value) {
        CreateWithTargetRejected(s, newId, target.value);
      }
    case DoDelete(habit, hasHistory) =>
      if habit in s.archived && !hasHistory {
        FewerEdges(s.after, Step(s, op).after);
      }
  }

  /** The stack graph stays acyclic over every run of creates, edits and deletes. */
  lemma {:induction false} RunKeepsAcyclic(s: Stack, ops: seq<Op>)
    requires Valid(s)
    ensures Valid(RunOps(s, ops))
    decreases |ops|
  {
    if ops != [] {
      StepKeepsValid(s, ops[0]);
      RunKeepsAcyclic(Step(s, ops[0]), ops[1..]);
    }
  }

  /** A run from no habits at all. */
  lemma ReachableAcyclic(ops: seq<Op>)
    ensures NoCycle(RunOps(Stack(map[], map[]), ops).after)
  {
    var s := Stack(map[], map[]);
    forall x: Id, k: nat | k > 0
      ensures Up(s.after, x, k) != Some(x)
    {
      assert Up(s.after, x, 0) == Some(x);
      assert Up(s.after, x, 1) == None;
      NoneAfter(s.after, x, 1);
    }
    RunKeepsAcyclic(s, ops);
  }

  lemma GraphOfOneMore(edges: seq<StackEdge>, x: Id, parent: Id)
    requires Truthy(parent)
    ensures GraphOf(edges + [StackEdge(x, Some(parent))]) == GraphOf(edges)[x := parent]
  {
    assert (edges + [StackEdge(x, Some(parent))])[..|edges|] == edges;
  }

  class HabitStacks {
    var archived: map<Id, bool>
    var after: Graph

    constructor ()
      ensures Snapshot() == Stack(map[], map[])
    {
      archived, after := map[], map[];
    }

    function Snapshot(): Stack
      reads this
    {
      Stack(archived, after)
    }

    /** Whether a call left the state an outcome says. */
    predicate Did(before: Stack, outcome: Outcome, error: Option<Error>)
      reads this
    {
      match outcome
      case Accepted(t) => error == None && Snapshot() == t
      case Rejected(e) => error == Some(e) && Snapshot() == before
    }

    /** The user's edges as rows, in no particular order. */
    method Edges() returns (edges: seq<StackEdge>)
      requires forall x :: x in after ==> Truthy(after[x])
      ensures GraphOf(edges) == after
    {
      edges := [];
      var left := after.Keys;
      ghost var read: Graph := map[];
      while left != {}
        invariant left <= after.Keys
        invariant GraphOf(edges) == read && read == after - left
        decreases left
      {
        SomeId(left);
        var x :| x in left;
        GraphOfOneMore(edges, x, after[x]);
        edges := edges + [StackEdge(x, Some(after[x]))];
        left := left - {x};
        read := read[x := after[x]];
      }
      assert after - {} == after;
    }

    method AssertStackTarget(target: Id, habit: Option<Id>) returns (error: Option<Error>)
      requires forall x :: x in after ==> Truthy(after[x])
      ensures error == CheckTarget(Snapshot(), target, habit)
    {
      if habit.Some? && Truthy(habit.value) && target == habit.value {
        return Some(BadRequest);
      }
      if target !in archived {
        return Some(NotFound);
      }
      if archived[target] {
        return Some(Conflict);
      }
      var edges := Edges();
      var cyclic := WouldCreateStackCycle(edges, habit.GetOr(target), target);
      return if cyclic then Some(Conflict) else None;
    }

    method UpdateHabit(habit: Id, edit: Edit) returns (error: Option<Error>)
      requires Valid(Snapshot())
      modifies this
      ensures Did(old(Snapshot()), UpdateStack(old(Snapshot()), habit, edit), error)
      ensures Valid(Snapshot())
    {
      StepKeepsValid(Snapshot(), DoUpdate(habit, edit));
      if habit !in archived {
        return Some(NotFound);
      }
      match edit {
        case Unchanged =>
        case Clear =>
          after := after - {habit};
        case Set(target) =>
          error := AssertStackTarget(target, Some(habit));
          if error.Some? {
            return;
          }
          after := after[habit := target];
      }
      return None;
    }

    method CreateHabit(newId: Id, target: Option<Id>) returns (error: Option<Error>)
      requires Valid(Snapshot()) && newId !in archived && Truthy(newId)
      modifies this
      ensures Did(old(Snapshot()), AddHabit(old(Snapshot()), newId, target), error)
      ensures Valid(Snapshot())
    {
      StepKeepsValid(Snapshot(), DoCreate(newId, target));
      if target.Some? && Truthy(target.value) {
        error := AssertStackTarget(target.value, None);
        if error.Some? {
          return;
        }
        after := after[newId := target.value];
      }
      archived := archived[newId := false];
      return None;
    }

    method DeleteHabit(habit: Id, hasHistory: bool) returns (error: Option<Error>)
      requires Valid(Snapshot())
      modifies this
      ensures Did(old(Snapshot()), DropHabit(old(Snapshot()), habit, hasHistory), error)
      ensures Valid(Snapshot())
    {
      StepKeepsValid(Snapshot(), DoDelete(habit, hasHistory));
      if habit !in archived {
        return Some(NotFound);
      }
      if hasHistory {
        archived := archived[habit := true];
        return None;
      }
      archived := archived - {habit};
      after := map x | x in after && x != habit && after[x] != habit :: after[x];
      return None;
    }
  }

  lemma SomeId(ids: set<Id>)
    requires ids != {}
    ensures exists x :: x in ids
  {
  }
}
