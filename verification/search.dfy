/**
 * The three capped searches of EightPuzzle.java: depth-first (a stack),
 * breadth-first (a FIFO queue) and uniform-cost (a priority queue on cost).
 * They share one loop: pop, count the pop, test for the goal, and only then
 * consult the visited set, which is keyed by board contents; the loop stops
 * when the frontier is empty or 10,000 states have been popped.
 */
module Search {
  import opened Options
  import opened Board
  import opened Puzzle

  /** The record a search returns; `cost == -1` and `path == None` mean "not found". */
  datatype Result = Result(methodName: string, nodesExpanded: int, cost: int, path: Option<seq<string>>)

  /** The expansion cap shared by all strategies. */
  const MaxNodes: int := 10000

  datatype Strategy = Dfs | Bfs | Ucs

  function Name(k: Strategy): string {
    match k
    case Dfs => "DFS"
    case Bfs => "BFS"
    case Ucs => "UCS"
  }

  /**
   * The frontier entry a strategy removes next: the top of the stack (the
   * last one pushed), the head of the queue (the first one added), or any
   * entry of least cost, since the priority queue orders by cost alone.
   */
  predicate PopsAt(k: Strategy, q: seq<State>, i: int) {
    && 0 <= i < |q|
    && match k
       case Dfs => i == |q| - 1
       case Bfs => i == 0
       case Ucs => forall j :: 0 <= j < |q| ==> q[i].cost <= q[j].cost
  }

  /** An entry of least cost; it shows that the priority queue always has one to hand out. */
  function MinCostIndex(q: seq<State>): (i: nat)
    requires q != []
    ensures PopsAt(Ucs, q, i)
  {
    if |q| == 1 then 0
    else
      var j := MinCostIndex(q[1..]);
      if q[0].cost <= q[1 + j].cost then 0 else 1 + j
  }

  /** `pop` / `poll`: the index of the entry the strategy removes next. */
  method PopIndex(k: Strategy, q: seq<State>) returns (i: nat)
    requires q != []
    ensures PopsAt(k, q, i)
  {
    match k
    case Dfs =>
      i := |q| - 1;
    case Bfs =>
      i := 0;
    case Ucs =>
      ghost var w := MinCostIndex(q);
      i :| PopsAt(Ucs, q, i);
  }

  /** The boards of a sequence of states: what the visited set holds. */
  function Boards(xs: seq<State>): set<Grid> {
    set x | x in xs :: x.board
  }

  ghost predicate AllDescend(xs: seq<State>, init: State) {
    forall x :: x in xs ==> DescendsFrom(x, init)
  }

  /** Every entry can be expanded unless it is a goal (a goal is returned, never expanded). */
  predicate AllExpandable(xs: seq<State>) {
    forall x :: x in xs ==> CanExpand(x) || IsGoal(x)
  }

  predicate NoGoal(xs: seq<State>) {
    forall i :: 0 <= i < |xs| ==> !IsGoal(xs[i])
  }

  predicate CostSorted(xs: seq<State>) {
    forall i, j :: 0 <= i < j < |xs| ==> xs[i].cost <= xs[j].cost
  }

  predicate DistinctBoards(xs: seq<State>) {
    forall i, j :: 0 <= i < j < |xs| ==> xs[i].board != xs[j].board
  }

  /** Every expanded state can be expanded and each of its children has its board in `boards`. */
  ghost predicate SuccessorsCovered(expanded: seq<State>, boards: set<Grid>) {
    forall e :: e in expanded ==> CanExpand(e) && forall c :: c in Successors(e) ==> c.board in boards
  }

  /**
   * What a capped search reports, given the states it popped in order and
   * the states it expanded in order:
   * - between 1 and 10,000 pops, each counted, the first being the initial
   *   state, and every popped state descending from it;
   * - every pop but the last fails the goal test; the path is present
   *   exactly when the last pop passes it, and then the cost and path are
   *   that state's; otherwise the cost is -1;
   * - expanded states were popped, are not goals, and no two share a board,
   *   and the board of every popped state that is not a goal was expanded;
   * - breadth-first and uniform-cost pop in non-decreasing cost;
   * - when the frontier ran dry before the cap, every popped board was
   *   expanded and every child of an expanded state has an expanded board.
   */
  ghost predicate Outcome(k: Strategy, init: State, r: Result, popped: seq<State>, expanded: seq<State>) {
    && r.methodName == Name(k)
    && 1 <= r.nodesExpanded <= MaxNodes
    && |popped| == r.nodesExpanded
    && popped[0] == init
    && AllDescend(popped, init)
    && NoGoal(popped[..|popped| - 1])
    && (r.path.Some? <==> IsGoal(popped[|popped| - 1]))
    && (r.path.Some? ==> r.cost == popped[|popped| - 1].cost && r.path.value == GetPath(popped[|popped| - 1]))
    && (r.path.None? ==> r.cost == -1)
    && (forall e :: e in expanded ==> e in popped && !IsGoal(e))
    && DistinctBoards(expanded)
    && (forall x :: x in popped && !IsGoal(x) ==> x.board in Boards(expanded))
    && |expanded| <= |popped|
    && (k != Dfs ==> CostSorted(popped))
    && (r.path.None? && r.nodesExpanded < MaxNodes ==>
          Boards(popped) <= Boards(expanded) && SuccessorsCovered(expanded, Boards(expanded)))
  }

  /** The frontier without its entry `i`. */
  function RemoveAt(q: seq<State>, i: int): (q': seq<State>)
    requires 0 <= i < |q|
    ensures |q'| == |q| - 1
    ensures forall x :: x in q' ==> x in q
  {
    q[..i] + q[i + 1..]
  }

  /**
   * The frontier left by popping entry `i` of `q`, when `seen` holds the
   * boards popped before it: the entry is gone and, unless its board was
   * seen, its children are pushed behind the rest.
   */
  function Next(q: seq<State>, i: int, seen: set<Grid>): seq<State>
    requires 0 <= i < |q| && CanExpand(q[i])
  {
    RemoveAt(q, i) + (if q[i].board in seen then [] else Successors(q[i]))
  }

  /** Entry `i` of `q` is the one the strategy removes next, and it is `x`. */
  predicate Took(k: Strategy, q: seq<State>, i: int, x: State) {
    PopsAt(k, q, i) && q[i] == x
  }

  /**
   * Pop `j` of a trace: the strategy took `popped[j]` from `fronts[j]` at
   * `picks[j]`; the first frontier is `[init]`, and every later one is the
   * frontier the pop before it left, the boards of all earlier pops counting
   * as seen.
   */
  ghost predicate StepAt(k: Strategy, init: State, popped: seq<State>, fronts: seq<seq<State>>, picks: seq<int>, j: int)
    requires |fronts| == |popped| == |picks| && 0 <= j < |popped|
  {
    && Took(k, fronts[j], picks[j], popped[j])
    && (j == 0 ==> fronts[0] == [init])
    && (j > 0 ==>
          && Took(k, fronts[j - 1], picks[j - 1], popped[j - 1])
          && CanExpand(popped[j - 1])
          && fronts[j] == Next(fronts[j - 1], picks[j - 1], Boards(popped[..j - 1])))
  }

  /** The pops follow the strategy's frontier discipline, pop by pop. */
  ghost predicate Follows(k: Strategy, init: State, popped: seq<State>, fronts: seq<seq<State>>, picks: seq<int>) {
    && |fronts| == |popped| == |picks|
    && forall j :: 0 <= j < |popped| ==> StepAt(k, init, popped, fronts, picks, j)
  }

  /**
   * A whole run of the loop: the pops follow the discipline, and a run that
   * found nothing before the cap stopped because the last pop left the
   * frontier empty.
   */
  ghost predicate Disciplined(k: Strategy, init: State, r: Result, popped: seq<State>,
                              fronts: seq<seq<State>>, picks: seq<int>) {
    && Follows(k, init, popped, fronts, picks)
    && popped != []
    && (r.path.None? && |popped| < MaxNodes ==>
          var j := |popped| - 1;
          Took(k, fronts[j], picks[j], popped[j]) && CanExpand(popped[j])
          && Next(fronts[j], picks[j], Boards(popped[..j])) == [])
  }

  /**
   * The discipline at work: the second pop of a run is a child of the start,
   * its first child for breadth-first search and its last for depth-first
   * search, since the start's children were all the frontier held.
   */
  lemma SecondPop(k: Strategy, init: State, popped: seq<State>, fronts: seq<seq<State>>, picks: seq<int>)
    requires Follows(k, init, popped, fronts, picks) && |popped| > 1
    ensures CanExpand(init) && Successors(init) != []
    ensures k == Bfs ==> popped[1] == Successors(init)[0]
    ensures k == Dfs ==> popped[1] == Successors(init)[|Successors(init)| - 1]
  {
    FirstChildren(k, init, popped, fronts, picks);
  }

  /** The second frontier of a run holds exactly the start's children. */
  lemma FirstChildren(k: Strategy, init: State, popped: seq<State>, fronts: seq<seq<State>>, picks: seq<int>)
    requires Follows(k, init, popped, fronts, picks) && |popped| > 1
    ensures CanExpand(init) && fronts[1] == Successors(init) && Took(k, fronts[1], picks[1], popped[1])
  {
    assert StepAt(k, init, popped, fronts, picks, 0);
    assert StepAt(k, init, popped, fronts, picks, 1);
    assert popped[..0] == [];
    NextFromStart(init, Boards(popped[..0]));
  }

  /** Popping the only entry of `[s]`, with nothing seen, leaves exactly its children. */
  lemma NextFromStart(s: State, seen: set<Grid>)
    requires CanExpand(s) && seen == {}
    ensures Next([s], 0, seen) == Successors(s)
  {
    assert RemoveAt([s], 0) == [];
  }

  /** What the frontier holds: states that descend from the initial state and can be expanded unless they are goals. */
  ghost predicate FrontierInv(init: State, q: seq<State>) {
    AllExpandable(q) && AllDescend(q, init)
  }

  /** The children of an expandable descendant are expandable descendants. */
  lemma SuccessorsInv(init: State, s: State)
    requires CanExpand(s) && DescendsFrom(s, init)
    ensures FrontierInv(init, Successors(s))
  {
    forall c | c in Successors(s)
      ensures CanExpand(c) && DescendsFrom(c, init)
    {
      SuccessorIsChild(s, c);
      DescendsStep(init, s, c);
    }
  }

  /** Popping entry `i` and pushing its children (when it is expanded) keeps the frontier invariant. */
  lemma FrontierStep(init: State, q: seq<State>, i: int, expand: bool)
    requires FrontierInv(init, q) && 0 <= i < |q| && !IsGoal(q[i])
    ensures CanExpand(q[i])
    ensures FrontierInv(init, RemoveAt(q, i) + (if expand then Successors(q[i]) else []))
  {
    assert q[i] in q;
    var rest := RemoveAt(q, i);
    if expand {
      SuccessorsInv(init, q[i]);
    }
  }

  /**
   * The cost order the frontier keeps, given the cost `lo` of the last pop:
   * breadth-first and uniform-cost pops never went above `lo`, nothing in
   * the frontier is below it, and the FIFO queue is sorted by cost and spans
   * at most `lo` to `lo + 1`.
   */
  predicate CostInv(k: Strategy, q: seq<State>, popped: seq<State>, lo: int) {
    && (k != Dfs ==> CostSorted(popped) && (forall x :: x in popped ==> x.cost <= lo))
    && (k != Dfs ==> forall x :: x in q ==> lo <= x.cost)
    && (k == Bfs ==> CostSorted(q) && forall x :: x in q ==> x.cost <= lo + 1)
  }

  /** Children cost exactly one more than their parent. */
  lemma PushedCosts(cur: State, expand: bool)
    requires expand ==> CanExpand(cur)
    ensures forall x :: x in (if expand then Successors(cur) else []) ==> x.cost == cur.cost + 1
  {
    if expand {
      SuccessorsLinks(cur);
    }
  }

  /** A pop of cost at least every earlier pop keeps the pops sorted. */
  lemma PoppedSorted(popped: seq<State>, lo: int, cur: State)
    requires CostSorted(popped) && (forall x :: x in popped ==> x.cost <= lo) && lo <= cur.cost
    ensures CostSorted(popped + [cur]) && forall x :: x in popped + [cur] ==> x.cost <= cur.cost
  {
    var p' := popped + [cur];
    forall i, j | 0 <= i < j < |p'|
      ensures p'[i].cost <= p'[j].cost
    {
      if j == |popped| {
        assert p'[i] in popped;
      }
    }
  }

  /** Behind the head of a sorted queue spanning `lo` to `lo + 1`, entries cost the head's or one more. */
  lemma QueueTail(q: seq<State>, lo: int)
    requires q != [] && CostSorted(q) && forall x :: x in q ==> lo <= x.cost <= lo + 1
    ensures CostSorted(q[1..])
    ensures forall x :: x in q[1..] ==> q[0].cost <= x.cost <= q[0].cost + 1
  {
    forall x | x in q[1..]
      ensures q[0].cost <= x.cost <= q[0].cost + 1
    {
      var j :| 0 <= j < |q[1..]| && q[1..][j] == x;
      assert q[j + 1] == x;
    }
  }

  /** Appending entries of cost `top` behind a sorted queue whose entries cost at most `top` keeps it sorted. */
  lemma SortedAppendTop(rest: seq<State>, kids: seq<State>, top: int)
    requires CostSorted(rest) && (forall x :: x in rest ==> x.cost <= top)
    requires forall x :: x in kids ==> x.cost == top
    ensures CostSorted(rest + kids)
  {
    var q' := rest + kids;
    forall i, j | 0 <= i < j < |q'|
      ensures q'[i].cost <= q'[j].cost
    {
      if j >= |rest| {
        assert q'[j] in kids;
        if i < |rest| {
          assert q'[i] in rest;
        } else {
          assert q'[i] in kids;
        }
      } else {
        assert q'[i] == rest[i] && q'[j] == rest[j];
      }
    }
  }

  /** The FIFO queue: the head is the cheapest entry and children go behind entries of at most their cost. */
  lemma CostStepBfs(q: seq<State>, popped: seq<State>, lo: int, expand: bool)
    requires CostInv(Bfs, q, popped, lo) && q != []
    requires expand ==> CanExpand(q[0])
    ensures CostInv(Bfs, RemoveAt(q, 0) + (if expand then Successors(q[0]) else []), popped + [q[0]], q[0].cost)
  {
    var cur := q[0];
    assert RemoveAt(q, 0) == q[1..];
    var kids := if expand then Successors(cur) else [];
    PushedCosts(cur, expand);
    assert cur in q;
    PoppedSorted(popped, lo, cur);
    QueueTail(q, lo);
    SortedAppendTop(q[1..], kids, cur.cost + 1);
  }

  /** The priority queue: the entry taken has least cost, and children cost one more than it. */
  lemma CostStepUcs(q: seq<State>, popped: seq<State>, lo: int, i: int, expand: bool)
    requires CostInv(Ucs, q, popped, lo) && PopsAt(Ucs, q, i)
    requires expand ==> CanExpand(q[i])
    ensures CostInv(Ucs, RemoveAt(q, i) + (if expand then Successors(q[i]) else []), popped + [q[i]], q[i].cost)
  {
    var cur := q[i];
    var rest := RemoveAt(q, i);
    PushedCosts(cur, expand);
    assert cur in q;
    PoppedSorted(popped, lo, cur);
    forall x | x in rest
      ensures cur.cost <= x.cost
    {
      var j :| 0 <= j < |q| && q[j] == x;
    }
  }

  /** Popping the strategy's entry and pushing its children keeps the cost order. */
  lemma CostStep(k: Strategy, q: seq<State>, popped: seq<State>, lo: int, i: int, expand: bool)
    requires CostInv(k, q, popped, lo) && PopsAt(k, q, i)
    requires expand ==> CanExpand(q[i])
    ensures CostInv(k, RemoveAt(q, i) + (if expand then Successors(q[i]) else []), popped + [q[i]], q[i].cost)
  {
    match k
    case Dfs =>
    case Bfs => CostStepBfs(q, popped, lo, expand);
    case Ucs => CostStepUcs(q, popped, lo, i, expand);
  }

  /** The visited set is the set of boards of the expanded states, all of them popped and no two alike; every popped board is in it. */
  predicate VisitInv(visited: set<Grid>, popped: seq<State>, expanded: seq<State>) {
    && visited == Boards(expanded)
    && DistinctBoards(expanded)
    && |expanded| <= |popped|
    && (forall e :: e in expanded ==> e in popped)
    && (forall x :: x in popped ==> x.board in visited)
  }

  /** Counting a pop, and expanding it only if its board is new, keeps the visited set honest. */
  lemma VisitStep(visited: set<Grid>, popped: seq<State>, expanded: seq<State>, cur: State)
    requires VisitInv(visited, popped, expanded)
    ensures cur.board in visited ==> VisitInv(visited, popped + [cur], expanded)
    ensures cur.board !in visited ==> VisitInv(visited + {cur.board}, popped + [cur], expanded + [cur])
  {
    if cur.board !in visited {
      var e' := expanded + [cur];
      assert Boards(e') == Boards(expanded) + {cur.board};
      forall i, j | 0 <= i < j < |e'|
        ensures e'[i].board != e'[j].board
      {
        if j == |expanded| {
          assert e'[i] in expanded;
        }
      }
    }
  }

  lemma BoardsAppend(a: seq<State>, b: seq<State>)
    ensures Boards(a + b) == Boards(a) + Boards(b)
  {
    forall x | x in a + b
      ensures x in a || x in b
    {
    }
  }

  /** Taking entry `i` out of the frontier and recording it as popped loses no board. */
  lemma RemoveKeepsBoards(q: seq<State>, i: int, popped: seq<State>)
    requires 0 <= i < |q|
    ensures Boards(popped) + Boards(q) <= Boards(popped + [q[i]]) + Boards(RemoveAt(q, i))
  {
    BoardsAppend(popped, [q[i]]);
    forall b | b in Boards(q)
      ensures b in Boards([q[i]]) || b in Boards(RemoveAt(q, i))
    {
      var x :| x in q && x.board == b;
      var j :| 0 <= j < |q| && q[j] == x;
      if j < i {
        assert RemoveAt(q, i)[j] == x;
      } else if j > i {
        assert RemoveAt(q, i)[j - 1] == x;
      }
    }
  }

  lemma CoveredMono(expanded: seq<State>, a: set<Grid>, b: set<Grid>)
    requires SuccessorsCovered(expanded, a) && a <= b
    ensures SuccessorsCovered(expanded, b)
  {
  }

  /** Expanding `cur` covers its children, which go to the frontier. */
  lemma CoverStep(q: seq<State>, i: int, popped: seq<State>, expanded: seq<State>, expand: bool)
    requires 0 <= i < |q| && (expand ==> CanExpand(q[i]))
    requires SuccessorsCovered(expanded, Boards(popped) + Boards(q))
    ensures SuccessorsCovered(if expand then expanded + [q[i]] else expanded,
      Boards(popped + [q[i]]) + Boards(RemoveAt(q, i) + (if expand then Successors(q[i]) else [])))
  {
    var kids := if expand then Successors(q[i]) else [];
    var after := Boards(popped + [q[i]]) + Boards(RemoveAt(q, i) + kids);
    RemoveKeepsBoards(q, i, popped);
    BoardsAppend(RemoveAt(q, i), kids);
    CoveredMono(expanded, Boards(popped) + Boards(q), after);
    if expand {
      forall c | c in Successors(q[i])
        ensures c.board in after
      {
        assert c in kids;
      }
    }
  }

  /** What holds before every pop of the shared loop. */
  ghost predicate LoopInv(k: Strategy, init: State, q: seq<State>, visited: set<Grid>, n: int,
                          popped: seq<State>, expanded: seq<State>, lo: int) {
    && 0 <= n <= MaxNodes && |popped| == n
    && (n == 0 ==> q == [init])
    && (n > 0 ==> popped[0] == init)
    && FrontierInv(init, q)
    && AllDescend(popped, init) && NoGoal(popped)
    && VisitInv(visited, popped, expanded)
    && CostInv(k, q, popped, lo)
    && SuccessorsCovered(expanded, Boards(popped) + Boards(q))
  }

  lemma LoopStart(k: Strategy, init: State)
    requires CanExpand(init) || IsGoal(init)
    ensures LoopInv(k, init, [init], {}, 0, [], [], init.cost)
  {
    assert Reaches(init, init, 0);
    assert DescendsFrom(init, init);
  }

  /** A pop that fails the goal test, followed by the visited check and the pushes, keeps the loop invariant. */
  lemma LoopStep(k: Strategy, init: State, q: seq<State>, visited: set<Grid>, n: int,
                 popped: seq<State>, expanded: seq<State>, lo: int, i: int)
    requires LoopInv(k, init, q, visited, n, popped, expanded, lo)
    requires PopsAt(k, q, i) && !IsGoal(q[i]) && n < MaxNodes
    ensures CanExpand(q[i])
    ensures var cur := q[i];
      var expand := cur.board !in visited;
      LoopInv(k, init, RemoveAt(q, i) + (if expand then Successors(cur) else []),
        if expand then visited + {cur.board} else visited, n + 1, popped + [cur],
        if expand then expanded + [cur] else expanded, cur.cost)
  {
    var cur := q[i];
    var expand := cur.board !in visited;
    FrontierStep(init, q, i, expand);
    CostStep(k, q, popped, lo, i, expand);
    VisitStep(visited, popped, expanded, cur);
    CoverStep(q, i, popped, expanded, expand);
    PopStep(init, q, i, popped);
  }

  /** Recording a non-goal pop keeps the pops descending from the start, goal-free, and starting with it. */
  lemma PopStep(init: State, q: seq<State>, i: int, popped: seq<State>)
    requires FrontierInv(init, q) && 0 <= i < |q| && !IsGoal(q[i])
    requires AllDescend(popped, init) && NoGoal(popped)
    requires popped == [] ==> q == [init]
    requires popped != [] ==> popped[0] == init
    ensures AllDescend(popped + [q[i]], init) && NoGoal(popped + [q[i]])
    ensures (popped + [q[i]])[0] == init
  {
    assert q[i] in q;
  }

  /** A pop that passes the goal test ends the search with the outcome promised. */
  lemma GoalOutcome(k: Strategy, init: State, q: seq<State>, visited: set<Grid>, n: int,
                    popped: seq<State>, expanded: seq<State>, lo: int, i: int)
    requires LoopInv(k, init, q, visited, n, popped, expanded, lo)
    requires PopsAt(k, q, i) && IsGoal(q[i]) && n < MaxNodes
    ensures Outcome(k, init, Result(Name(k), n + 1, q[i].cost, Some(GetPath(q[i]))), popped + [q[i]], expanded)
  {
    var cur := q[i];
    assert cur in q;
    assert (popped + [cur])[..n] == popped;
    if k != Dfs {
      PoppedSorted(popped, lo, cur);
    }
  }

  /** Leaving the loop, with the frontier empty or the cap reached, gives the outcome promised. */
  lemma ExitOutcome(k: Strategy, init: State, q: seq<State>, visited: set<Grid>, n: int,
                    popped: seq<State>, expanded: seq<State>, lo: int)
    requires LoopInv(k, init, q, visited, n, popped, expanded, lo)
    requires q == [] || n >= MaxNodes
    ensures Outcome(k, init, Result(Name(k), n, -1, None), popped, expanded)
  {
    if n < MaxNodes {
      assert Boards(q) == {};
      assert Boards(popped) + Boards(q) == Boards(popped);
    }
  }

  /** Before every pop: the pops so far follow the discipline and `q` is the frontier the last of them left. */
  ghost predicate TraceInv(k: Strategy, init: State, q: seq<State>, popped: seq<State>,
                           fronts: seq<seq<State>>, picks: seq<int>) {
    && Follows(k, init, popped, fronts, picks)
    && (popped == [] ==> q == [init])
    && (popped != [] ==>
          var j := |popped| - 1;
          Took(k, fronts[j], picks[j], popped[j]) && CanExpand(popped[j])
          && q == Next(fronts[j], picks[j], Boards(popped[..j])))
  }

  /** Taking the strategy's entry from the current frontier extends the trace by one pop. */
  lemma TraceStep(k: Strategy, init: State, q: seq<State>, popped: seq<State>,
                  fronts: seq<seq<State>>, picks: seq<int>, i: int)
    requires TraceInv(k, init, q, popped, fronts, picks) && PopsAt(k, q, i)
    ensures Follows(k, init, popped + [q[i]], fronts + [q], picks + [i])
  {
    StepNew(k, init, q, popped, fronts, picks, i);
    forall j | 0 <= j < |popped|
      ensures StepAt(k, init, popped + [q[i]], fronts + [q], picks + [i], j)
    {
      StepKept(k, init, popped, fronts, picks, q[i], q, i, j);
    }
  }

  /** Appending a pop leaves the earlier steps of a trace as they were. */
  lemma StepKept(k: Strategy, init: State, popped: seq<State>, fronts: seq<seq<State>>, picks: seq<int>,
                 x: State, q: seq<State>, i: int, j: int)
    requires |fronts| == |popped| == |picks| && 0 <= j < |popped|
    requires StepAt(k, init, popped, fronts, picks, j)
    ensures StepAt(k, init, popped + [x], fronts + [q], picks + [i], j)
  {
    var p', f', c' := popped + [x], fronts + [q], picks + [i];
    assert f'[j] == fronts[j] && c'[j] == picks[j] && p'[j] == popped[j];
    if j > 0 {
      assert f'[j - 1] == fronts[j - 1] && c'[j - 1] == picks[j - 1] && p'[j - 1] == popped[j - 1];
      assert p'[..j - 1] == popped[..j - 1];
    }
  }

  /** The new last step: the strategy's entry taken from the frontier the previous pop left. */
  lemma StepNew(k: Strategy, init: State, q: seq<State>, popped: seq<State>,
                fronts: seq<seq<State>>, picks: seq<int>, i: int)
    requires TraceInv(k, init, q, popped, fronts, picks) && PopsAt(k, q, i)
    ensures StepAt(k, init, popped + [q[i]], fronts + [q], picks + [i], |popped|)
  {
    var p', f', c' := popped + [q[i]], fronts + [q], picks + [i];
    var n := |popped|;
    assert f'[n] == q && c'[n] == i && p'[n] == q[i];
    if n > 0 {
      assert f'[n - 1] == fronts[n - 1] && c'[n - 1] == picks[n - 1] && p'[n - 1] == popped[n - 1];
      assert p'[..n - 1] == popped[..n - 1];
    }
  }

  /** The visited set holds exactly the boards popped so far. */
  lemma VisitedIsPopped(visited: set<Grid>, popped: seq<State>, expanded: seq<State>)
    requires VisitInv(visited, popped, expanded)
    ensures visited == Boards(popped)
  {
  }

  /** The frontier the loop leaves after a non-goal pop is the one the discipline prescribes. */
  lemma TraceNext(k: Strategy, init: State, q: seq<State>, visited: set<Grid>, popped: seq<State>,
                  expanded: seq<State>, fronts: seq<seq<State>>, picks: seq<int>, i: int)
    requires 0 <= i < |q| && CanExpand(q[i])
    requires Follows(k, init, popped + [q[i]], fronts + [q], picks + [i])
    requires VisitInv(visited, popped, expanded)
    ensures TraceInv(k, init, RemoveAt(q, i) + (if q[i].board !in visited then Successors(q[i]) else []),
      popped + [q[i]], fronts + [q], picks + [i])
  {
    VisitedIsPopped(visited, popped, expanded);
    assert StepAt(k, init, popped + [q[i]], fronts + [q], picks + [i], |popped|);
    assert (popped + [q[i]])[..|popped|] == popped;
  }

  /** A run that stops at a goal ends its trace there. */
  lemma GoalTrace(k: Strategy, init: State, r: Result, popped: seq<State>,
                  fronts: seq<seq<State>>, picks: seq<int>)
    requires Follows(k, init, popped, fronts, picks) && popped != [] && r.path.Some?
    ensures Disciplined(k, init, r, popped, fronts, picks)
  {
  }

  /** A run that leaves the loop stopped at the cap or with nothing left in the frontier. */
  lemma ExitTrace(k: Strategy, init: State, q: seq<State>, r: Result, popped: seq<State>,
                  fronts: seq<seq<State>>, picks: seq<int>)
    requires TraceInv(k, init, q, popped, fronts, picks)
    requires q == [] || |popped| >= MaxNodes
    ensures Disciplined(k, init, r, popped, fronts, picks)
  {
  }

  /**
   * What a search reports, read off its trace: the strategy's name, a count
   * between 1 and the cap, cost -1 exactly when nothing was found, and a start
   * that is already a goal found on the first pop with its own path.
   */
  lemma OutcomeReport(k: Strategy, init: State, r: Result, popped: seq<State>, expanded: seq<State>)
    requires Outcome(k, init, r, popped, expanded)
    ensures r.methodName == Name(k) && 1 <= r.nodesExpanded <= MaxNodes
    ensures r.path.None? ==> r.cost == -1
    ensures IsGoal(init) ==> r == Result(Name(k), 1, init.cost, Some(GetPath(init)))
  {
    if |popped| > 1 {
      assert popped[..|popped| - 1][0] == init;
    }
  }

  /** The loop the three strategies share; `k` picks the frontier discipline. */
  method CappedSearch(k: Strategy, init: State)
    returns (r: Result, ghost popped: seq<State>, ghost expanded: seq<State>,
             ghost fronts: seq<seq<State>>, ghost picks: seq<int>)
    requires CanExpand(init) || IsGoal(init)
    ensures Outcome(k, init, r, popped, expanded)
    ensures Disciplined(k, init, r, popped, fronts, picks)
    ensures r.methodName == Name(k) && 1 <= r.nodesExpanded <= MaxNodes
    ensures r.path.None? ==> r.cost == -1
    ensures IsGoal(init) ==> r == Result(Name(k), 1, init.cost, Some(GetPath(init)))
  {
    var frontier := [init];
    var visited: set<Grid> := {};
    var nodesExpanded := 0;
    popped, expanded, fronts, picks := [], [], [], [];
    ghost var lo := init.cost;
    LoopStart(k, init);
    while frontier != [] && nodesExpanded < MaxNodes
      invariant LoopInv(k, init, frontier, visited, nodesExpanded, popped, expanded, lo)
      invariant TraceInv(k, init, frontier, popped, fronts, picks)
      decreases MaxNodes - nodesExpanded
    {
      var i := PopIndex(k, frontier);
      var current := frontier[i];
      ghost var q, n, fs, ps := frontier, nodesExpanded, fronts, picks;
      TraceStep(k, init, q, popped, fronts, picks, i);
      fronts, picks := fronts + [q], picks + [i];
      frontier := RemoveAt(frontier, i);
      nodesExpanded := nodesExpanded + 1;
      if IsGoal(current) {
        GoalOutcome(k, init, q, visited, n, popped, expanded, lo, i);
        popped := popped + [current];
        r := Result(Name(k), nodesExpanded, current.cost, Some(GetPath(current)));
        OutcomeReport(k, init, r, popped, expanded);
        GoalTrace(k, init, r, popped, fronts, picks);
        return;
      }
      LoopStep(k, init, q, visited, n, popped, expanded, lo, i);
      TraceNext(k, init, q, visited, popped, expanded, fs, ps, i);
      var expand := current.board !in visited;
      frontier := frontier + (if expand then Successors(current) else []);
      visited := if expand then visited + {current.board} else visited;
      popped := popped + [current];
      expanded := if expand then expanded + [current] else expanded;
      lo := current.cost;
    }
    ExitOutcome(k, init, frontier, visited, nodesExpanded, popped, expanded, lo);
    r := Result(Name(k), nodesExpanded, -1, None);
    OutcomeReport(k, init, r, popped, expanded);
    ExitTrace(k, init, frontier, r, popped, fronts, picks);
  }

  /**
   * A set of expanded boards that holds the start's board and the boards of
   * all children of its states holds the board of every state reachable
   * from a start with one blank.
   */
  lemma {:induction false} ClosedReach(init: State, expanded: seq<State>, x: State, d: nat)
    requires OneBlank(init) && init.board in Boards(expanded)
    requires AllDescend(expanded, init)
    requires SuccessorsCovered(expanded, Boards(expanded))
    requires Reaches(init, x, d)
    ensures x.board in Boards(expanded)
    decreases d
  {
    if d > 0 {
      var p, j := ParentReach(init, x, d);
      ClosedReach(init, expanded, p, j);
      ClosedStep(init, expanded, p, j, x);
    }
  }

  /** One step of `ClosedReach`: a child of a reachable state with an expanded board has an expanded board. */
  lemma ClosedStep(init: State, expanded: seq<State>, p: State, j: nat, x: State)
    requires OneBlank(init) && AllDescend(expanded, init)
    requires SuccessorsCovered(expanded, Boards(expanded))
    requires Reaches(init, p, j) && IsChildOf(x, p) && p.board in Boards(expanded)
    ensures x.board in Boards(expanded)
  {
    var e :| e in expanded && e.board == p.board;
    var m: nat :| Reaches(init, e, m);
    ReachOneBlank(init, e, m);
    ReachOneBlank(init, p, j);
    var c := SameBoardChild(e, p, x);
  }

  /**
   * Completeness: a search that gave up because its frontier ran dry, before
   * the cap, proves that no goal is reachable from a start with one blank.
   * Other tiles may repeat: a start holding every tile once reaches far more
   * than 10,000 boards, so its frontier never runs dry before the cap.
   */
  lemma ExhaustedMeansNoGoal(k: Strategy, init: State, r: Result, popped: seq<State>, expanded: seq<State>)
    requires Outcome(k, init, r, popped, expanded)
    requires OneBlank(init) && r.path.None? && r.nodesExpanded < MaxNodes
    ensures forall x, d: nat :: Reaches(init, x, d) ==> !IsGoal(x)
  {
    assert init in popped;
    assert AllDescend(expanded, init);
    ClosedNoGoal(init, expanded);
  }

  /** A closed set of expanded boards, none of them a goal, leaves no goal reachable. */
  lemma ClosedNoGoal(init: State, expanded: seq<State>)
    requires OneBlank(init) && init.board in Boards(expanded)
    requires AllDescend(expanded, init)
    requires SuccessorsCovered(expanded, Boards(expanded))
    requires forall e :: e in expanded ==> !IsGoal(e)
    ensures forall x, d: nat :: Reaches(init, x, d) ==> !IsGoal(x)
  {
    forall x, d: nat | Reaches(init, x, d)
      ensures !IsGoal(x)
    {
      ClosedReach(init, expanded, x, d);
      var e :| e in expanded && e.board == x.board;
    }
  }

  /**
   * A start the completeness clause applies to without being a permutation:
   * one blank, every other cell 1. Its board is fixed by where the blank
   * is, so at most nine boards are reachable and its frontier runs dry long
   * before the cap, while a start holding every tile once never does.
   */
  const OnesBoard: Grid := [[0, 1, 1], [1, 1, 1], [1, 1, 1]]
  const Ones: State := State(OnesBoard, 0, 0, 0, "", None)

  lemma OnesHasOneBlank()
    ensures OneBlank(Ones) && CanExpand(Ones) && !Valid(Ones)
  {
    var f := Flat(OnesBoard);
    forall i | 0 <= i < 9
      ensures f[i] == (if i == 0 then 0 else 1)
    {
      assert InRange(i / 3, i % 3) && i == 3 * (i / 3) + i % 3;
    }
    assert f == [0] + f[1..];
    assert 0 !in f[1..];
    assert multiset(f) == multiset{0} + multiset(f[1..]);
    assert 2 !in f;
  }

  /** `depthFirstSearch`: the frontier is a stack, so the newest entry is popped first. */
  method DepthFirstSearch(init: State) returns (r: Result, ghost popped: seq<State>, ghost expanded: seq<State>,
                                       ghost fronts: seq<seq<State>>, ghost picks: seq<int>)
    requires CanExpand(init) || IsGoal(init)
    ensures Outcome(Dfs, init, r, popped, expanded)
    ensures Disciplined(Dfs, init, r, popped, fronts, picks)
    ensures r.methodName == Name(Dfs) && 1 <= r.nodesExpanded <= MaxNodes
    ensures r.path.None? ==> r.cost == -1
    ensures IsGoal(init) ==> r == Result(Name(Dfs), 1, init.cost, Some(GetPath(init)))
    ensures OneBlank(init) && r.path.None? && r.nodesExpanded < MaxNodes ==>
      forall x, d: nat :: Reaches(init, x, d) ==> !IsGoal(x)
  {
    r, popped, expanded, fronts, picks := CappedSearch(Dfs, init);
    if OneBlank(init) && r.path.None? && r.nodesExpanded < MaxNodes {
      ExhaustedMeansNoGoal(Dfs, init, r, popped, expanded);
    }
  }

  /** `breadthFirstSearch`: the frontier is a FIFO queue; pops come in non-decreasing cost. */
  method BreadthFirstSearch(init: State) returns (r: Result, ghost popped: seq<State>, ghost expanded: seq<State>,
                                       ghost fronts: seq<seq<State>>, ghost picks: seq<int>)
    requires CanExpand(init) || IsGoal(init)
    ensures Outcome(Bfs, init, r, popped, expanded)
    ensures Disciplined(Bfs, init, r, popped, fronts, picks)
    ensures r.methodName == Name(Bfs) && 1 <= r.nodesExpanded <= MaxNodes
    ensures r.path.None? ==> r.cost == -1
    ensures IsGoal(init) ==> r == Result(Name(Bfs), 1, init.cost, Some(GetPath(init)))
    ensures OneBlank(init) && r.path.None? && r.nodesExpanded < MaxNodes ==>
      forall x, d: nat :: Reaches(init, x, d) ==> !IsGoal(x)
  {
    r, popped, expanded, fronts, picks := CappedSearch(Bfs, init);
    if OneBlank(init) && r.path.None? && r.nodesExpanded < MaxNodes {
      ExhaustedMeansNoGoal(Bfs, init, r, popped, expanded);
    }
  }

  /** `uniformCostSearch`: the frontier is a priority queue on cost; pops come in non-decreasing cost. */
  method UniformCostSearch(init: State) returns (r: Result, ghost popped: seq<State>, ghost expanded: seq<State>,
                                       ghost fronts: seq<seq<State>>, ghost picks: seq<int>)
    requires CanExpand(init) || IsGoal(init)
    ensures Outcome(Ucs, init, r, popped, expanded)
    ensures Disciplined(Ucs, init, r, popped, fronts, picks)
    ensures r.methodName == Name(Ucs) && 1 <= r.nodesExpanded <= MaxNodes
    ensures r.path.None? ==> r.cost == -1
    ensures IsGoal(init) ==> r == Result(Name(Ucs), 1, init.cost, Some(GetPath(init)))
    ensures OneBlank(init) && r.path.None? && r.nodesExpanded < MaxNodes ==>
      forall x, d: nat :: Reaches(init, x, d) ==> !IsGoal(x)
  {
    r, popped, expanded, fronts, picks := CappedSearch(Ucs, init);
    if OneBlank(init) && r.path.None? && r.nodesExpanded < MaxNodes {
      ExhaustedMeansNoGoal(Ucs, init, r, popped, expanded);
    }
  }
}
