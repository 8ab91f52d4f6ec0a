/**
 * Iterative deepening in EightPuzzle.java: `depthLimitedDFS`, a recursion
 * without a visited set that tests for the goal only when the remaining
 * depth is 0, and `iterativeDeepeningDFS`, which retries it with limits
 * 0, 1, 2, ... . The expansion counter is passed by value and never
 * written back, so inside one run it only counts recursion depth, and the
 * outer loop always passes 0.
 */
module Deepening {
  import opened Options
  import opened Board
  import opened Puzzle
  import opened Search

  /** The method name iterative deepening reports. */
  const IdfsName: string := "IDFS"

  /** The record of a depth-limited run that found nothing. */
  function NotFound(n: int): Result {
    Result(IdfsName, n, -1, None)
  }

  /** Children of an expandable state are expandable, so the recursion never leaves the board. */
  lemma SuccessorsExpandable(s: State)
    requires CanExpand(s)
    ensures forall c :: c in Successors(s) ==> CanExpand(c)
  {
    forall c | c in Successors(s)
      ensures CanExpand(c)
    {
      SuccessorIsChild(s, c);
    }
  }

  /**
   * `depthLimitedDFS(state, depth, nodesExpanded, maxNodes)`: at depth 0 a
   * goal is reported with the counter as given; above 0 the children are
   * tried in successor order with depth - 1 and counter + 1, and the first
   * run that finds a path wins. A counter at the cap stops the loop.
   */
  function Dls(s: State, depth: int, n: int, maxNodes: int): (r: Result)
    requires depth > 0 ==> CanExpand(s)
    ensures r.methodName == IdfsName
    ensures r.path.Some? ==> depth >= 0 && r.nodesExpanded == n + depth
    ensures r.path.None? ==> r == NotFound(n)
    decreases if depth > 0 then depth else 0, 1
  {
    if depth == 0 && IsGoal(s) then Result(IdfsName, n, s.cost, Some(GetPath(s)))
    else if depth > 0 then
      SuccessorsExpandable(s);
      DlsLoop(Successors(s), depth, n, maxNodes)
    else NotFound(n)
  }

  /** The loop of `depthLimitedDFS` over the children still to try. */
  function DlsLoop(cs: seq<State>, depth: int, n: int, maxNodes: int): (r: Result)
    requires depth > 0 && forall c :: c in cs ==> CanExpand(c)
    ensures r.methodName == IdfsName
    ensures r.path.Some? ==> r.nodesExpanded == n + depth
    ensures r.path.None? ==> r == NotFound(n)
    decreases depth, 0, |cs|
  {
    if cs == [] then NotFound(n)
    else if n >= maxNodes then NotFound(n)
    else
      var r := Dls(cs[0], depth - 1, n + 1, maxNodes);
      if r.path.Some? then r else DlsLoop(cs[1..], depth, n, maxNodes)
  }

  /** Reference: the states exactly `d` successor steps below `s`, left to right in successor order. */
  function Layer(s: State, d: int): seq<State>
    requires d > 0 ==> CanExpand(s)
    decreases if d > 0 then d else 0, 1
  {
    if d < 0 then []
    else if d == 0 then [s]
    else
      SuccessorsExpandable(s);
      LayerOf(Successors(s), d - 1)
  }

  /** The layers at depth `d` below each state of `cs`, concatenated in order. */
  function LayerOf(cs: seq<State>, d: int): seq<State>
    requires d > 0 ==> forall c :: c in cs ==> CanExpand(c)
    decreases if d > 0 then d else 0, 2, |cs|
  {
    if cs == [] then []
    else Layer(cs[0], d) + LayerOf(cs[1..], d)
  }

  /** The first goal state of a sequence, if any. */
  function FirstGoal(xs: seq<State>): (g: Option<State>)
    ensures g.Some? ==> g.value in xs && IsGoal(g.value)
    ensures g.None? <==> forall x :: x in xs ==> !IsGoal(x)
  {
    if xs == [] then None
    else if IsGoal(xs[0]) then Some(xs[0])
    else FirstGoal(xs[1..])
  }

  lemma {:induction false} FirstGoalAppend(a: seq<State>, b: seq<State>)
    ensures FirstGoal(a + b) == if FirstGoal(a).Some? then FirstGoal(a) else FirstGoal(b)
    decreases |a|
  {
    if a == [] {
      assert a + b == b;
    } else {
      assert (a + b)[0] == a[0] && (a + b)[1..] == a[1..] + b;
      FirstGoalAppend(a[1..], b);
    }
  }

  /** What a depth-limited run from `s` with `d` levels to go and counter `n` returns, by the reference. */
  function DlsExpected(s: State, d: int, n: int, maxNodes: int): Result
    requires d > 0 ==> CanExpand(s)
  {
    var g := FirstGoal(Layer(s, d));
    if (d == 0 || n + d <= maxNodes) && g.Some?
    then Result(IdfsName, n + d, g.value.cost, Some(GetPath(g.value)))
    else NotFound(n)
  }

  /**
   * `depthLimitedDFS` returns a path exactly when some goal lies `d` steps
   * below `s` and the counter stays under the cap on every level above it;
   * it then reports the first such goal in successor order, with counter
   * `n + d`. Otherwise it returns cost -1, no path and the counter as given.
   */
  lemma {:induction false} DlsCorrect(s: State, d: int, n: int, maxNodes: int)
    requires d > 0 ==> CanExpand(s)
    ensures Dls(s, d, n, maxNodes) == DlsExpected(s, d, n, maxNodes)
    decreases if d > 0 then d else 0, 1
  {
    if d > 0 {
      SuccessorsExpandable(s);
      DlsLoopCorrect(Successors(s), d, n, maxNodes);
    }
  }

  lemma {:induction false} DlsLoopCorrect(cs: seq<State>, d: int, n: int, maxNodes: int)
    requires d > 0 && forall c :: c in cs ==> CanExpand(c)
    ensures var g := FirstGoal(LayerOf(cs, d - 1));
      DlsLoop(cs, d, n, maxNodes)
        == if n + d <= maxNodes && g.Some?
           then Result(IdfsName, n + d, g.value.cost, Some(GetPath(g.value)))
           else NotFound(n)
    decreases d, 0, |cs|
  {
    if cs != [] {
      FirstGoalAppend(Layer(cs[0], d - 1), LayerOf(cs[1..], d - 1));
      if n < maxNodes {
        DlsCorrect(cs[0], d - 1, n + 1, maxNodes);
        DlsLoopCorrect(cs[1..], d, n, maxNodes);
      }
    }
  }

  /** A child of `s` that reaches `x` in `j` steps puts `x` `j + 1` steps below `s`. */
  lemma {:induction false} ReachesPrepend(s: State, c: State, x: State, j: nat)
    requires IsChildOf(c, s) && Reaches(c, x, j)
    ensures Reaches(s, x, j + 1)
    decreases j
  {
    if j > 0 {
      var p, i := ParentReach(c, x, j);
      ReachesPrepend(s, c, p, i);
    }
  }

  /** Every state of `Layer(s, d)` lies exactly `d` steps below `s`. */
  lemma {:induction false} LayerSound(s: State, d: nat, x: State)
    requires d > 0 ==> CanExpand(s)
    requires x in Layer(s, d)
    ensures Reaches(s, x, d)
    decreases d, 1
  {
    if d > 0 {
      SuccessorsExpandable(s);
      var j: nat := d - 1;
      var c := LayerOfSound(Successors(s), j, x);
      assert IsChildOf(c, s) by {
        SuccessorIsChild(s, c);
      }
      ReachesPrepend(s, c, x, j);
    }
  }

  lemma {:induction false} LayerOfSound(cs: seq<State>, d: nat, x: State) returns (c: State)
    requires d > 0 ==> forall c :: c in cs ==> CanExpand(c)
    requires x in LayerOf(cs, d)
    ensures c in cs && Reaches(c, x, d)
    decreases d, 2, |cs|
  {
    if x in Layer(cs[0], d) {
      c := cs[0];
      LayerSound(c, d, x);
    } else {
      c := LayerOfSound(cs[1..], d, x);
    }
  }

  /** `LayerOf(cs, d)` holds the layer of each member of `cs`. */
  lemma {:induction false} LayerOfHas(cs: seq<State>, d: nat, c: State, x: State)
    requires d > 0 ==> forall c :: c in cs ==> CanExpand(c)
    requires c in cs && x in Layer(c, d)
    ensures x in LayerOf(cs, d)
    decreases |cs|
  {
    if cs[0] != c {
      LayerOfHas(cs[1..], d, c, x);
    }
  }

  /** A successor of a state in layer `d` is in layer `d + 1`. */
  lemma {:induction false} LayerGrow(s: State, d: nat, p: State, c: State)
    requires CanExpand(s) && CanExpand(p)
    requires p in Layer(s, d) && c in Successors(p)
    ensures c in Layer(s, d + 1)
    decreases d
  {
    SuccessorsExpandable(s);
    if d == 0 {
      assert c in Layer(c, 0);
      LayerOfHas(Successors(s), 0, c, c);
    } else {
      var c' := LayerOfMember(Successors(s), d - 1, p);
      LayerGrow(c', d - 1, p, c);
      LayerOfHas(Successors(s), d, c', c);
    }
  }

  lemma {:induction false} LayerOfMember(cs: seq<State>, d: nat, x: State) returns (c: State)
    requires d > 0 ==> forall c :: c in cs ==> CanExpand(c)
    requires x in LayerOf(cs, d)
    ensures c in cs && x in Layer(c, d)
    decreases |cs|
  {
    if x in Layer(cs[0], d) {
      c := cs[0];
    } else {
      c := LayerOfMember(cs[1..], d, x);
    }
  }

  /** A child in the sense of `IsChildOf` is one of the successors. */
  lemma ChildOfIsSuccessor(c: State, p: State)
    requires IsChildOf(c, p)
    ensures CanExpand(p) && c in Successors(p)
  {
    var dir :| InBounds(p, dir) && c == Child(p, dir);
    ChildIsSuccessor(p, dir);
  }

  /** Every state exactly `d` steps below `s` is in `Layer(s, d)`. */
  lemma {:induction false} LayerComplete(s: State, d: nat, x: State)
    requires d > 0 ==> CanExpand(s)
    requires Reaches(s, x, d)
    ensures x in Layer(s, d)
    decreases d
  {
    if d > 0 {
      var p, j := ParentReach(s, x, d);
      ChildOfIsSuccessor(x, p);
      LayerComplete(s, j, p);
      LayerGrow(s, j, p, x);
    }
  }

  /**
   * Layer membership is exactly reachability in `d` steps; its states cost
   * `d` more than `s`, and below a root their path has `d` moves and
   * replays from the root's board to their own.
   */
  lemma LayerIsReach(s: State, d: nat, x: State)
    requires d > 0 ==> CanExpand(s)
    ensures x in Layer(s, d) <==> Reaches(s, x, d)
    ensures x in Layer(s, d) && s.parent.None? && s.move == "" ==>
      && x.cost == s.cost + d
      && |GetPath(x)| == d
      && Replay(ConfigOf(s), GetPath(x)) == Some(ConfigOf(x))
  {
    if x in Layer(s, d) {
      LayerSound(s, d, x);
      if s.parent.None? && s.move == "" {
        PathLength(s, x, d);
        PathReplays(s, x, d);
      }
    }
    if Reaches(s, x, d) {
      LayerComplete(s, d, x);
    }
  }

  /**
   * The outcome of `depthLimitedDFS` in terms of reachability: a path is
   * returned exactly when a goal lies `d` steps below `s` and the cap allows
   * `d` levels; the reported goal is such a state.
   */
  lemma DlsFinds(s: State, d: nat, n: int, maxNodes: int)
    requires d > 0 ==> CanExpand(s)
    ensures Dls(s, d, n, maxNodes).path.Some? <==>
      (d == 0 || n + d <= maxNodes) && exists x :: IsGoal(x) && Reaches(s, x, d)
    ensures Dls(s, d, n, maxNodes).path.None? ==> Dls(s, d, n, maxNodes) == NotFound(n)
  {
    DlsCorrect(s, d, n, maxNodes);
    var g := FirstGoal(Layer(s, d));
    if g.Some? {
      LayerSound(s, d, g.value);
    }
    if exists x :: IsGoal(x) && Reaches(s, x, d) {
      var x :| IsGoal(x) && Reaches(s, x, d);
      LayerComplete(s, d, x);
    }
  }

  /**
   * `iterativeDeepeningDFS` from limit `depth` on, with `fuel` further
   * limits to try: the first limit whose run returns a path decides. The
   * source loops without bound; `None` says the fuel ran out first. The
   * counter passed in stays 0, so the outer loop's cap test on its own
   * counter never fires.
   */
  function IdfsFrom(init: State, depth: nat, fuel: nat): (r: Option<Result>)
    requires CanExpand(init) || (depth == 0 && IsGoal(init))
    ensures r.Some? ==> r.value.methodName == IdfsName && r.value.path.Some?
    ensures r.Some? ==> depth <= r.value.nodesExpanded <= depth + fuel
    decreases fuel
  {
    var nodesExpanded := 0;
    var r := Dls(init, depth, nodesExpanded, MaxNodes);
    if r.path.Some? then Some(r)
    else if nodesExpanded >= MaxNodes then Some(NotFound(nodesExpanded))
    else if fuel == 0 then None
    else IdfsFrom(init, depth + 1, fuel - 1)
  }

  /** Iterative deepening from limit 0, trying the limits 0 to `fuel`. */
  function Idfs(init: State, fuel: nat): (r: Option<Result>)
    requires CanExpand(init) || IsGoal(init)
    ensures r.Some? ==> r.value.methodName == IdfsName && r.value.path.Some?
    ensures r.Some? ==> r.value.nodesExpanded <= fuel
  {
    IdfsFrom(init, 0, fuel)
  }

  /** The result of `depthLimitedDFS` from the initial state, at limit `d`. */
  function RunAt(init: State, d: nat): Result
    requires CanExpand(init) || (d == 0 && IsGoal(init))
  {
    Dls(init, d, 0, MaxNodes)
  }

  /** `r` is the run at limit `d`, it found a path, and no limit from `from` up to `d` did. */
  ghost predicate IdfsFirst(init: State, from: nat, d: nat, r: Result) {
    && (CanExpand(init) || (d == 0 && IsGoal(init)))
    && r == RunAt(init, d)
    && r.path.Some?
    && forall d' :: from <= d' < d ==> CanExpand(init) && RunAt(init, d').path.None?
  }

  lemma {:induction false} IdfsFromSpec(init: State, depth: nat, fuel: nat)
    requires CanExpand(init) || (depth == 0 && IsGoal(init))
    ensures var r := IdfsFrom(init, depth, fuel);
      && (r.Some? ==> exists d :: depth <= d <= depth + fuel && IdfsFirst(init, depth, d, r.value))
      && (r.None? ==> forall d :: depth <= d <= depth + fuel ==> CanExpand(init) && RunAt(init, d).path.None?)
    decreases fuel
  {
    var r := Dls(init, depth, 0, MaxNodes);
    if r.path.Some? {
      assert IdfsFirst(init, depth, depth, r);
    } else if fuel > 0 {
      var fuel': nat := fuel - 1;
      IdfsFromSpec(init, depth + 1, fuel');
      var r' := IdfsFrom(init, depth + 1, fuel');
      if r'.Some? {
        var d :| depth + 1 <= d <= depth + 1 + fuel' && IdfsFirst(init, depth + 1, d, r'.value);
        IdfsFirstShift(init, depth, d, r'.value);
      }
    }
  }

  /** A failed round at limit `depth` extends "first success from `depth + 1`" to "first success from `depth`". */
  lemma IdfsFirstShift(init: State, depth: nat, d: nat, r: Result)
    requires CanExpand(init) && RunAt(init, depth).path.None?
    requires IdfsFirst(init, depth + 1, d, r)
    ensures IdfsFirst(init, depth, d, r)
  {
  }

  /** Some goal state lies exactly `d` successor steps below `init`. */
  ghost predicate GoalAt(init: State, d: nat) {
    exists x :: IsGoal(x) && Reaches(init, x, d)
  }

  /**
   * `r` reports a goal `d` steps below `init`: counter `d`, the goal's cost
   * and path; from a root that path has `d` moves and replays to the goal.
   */
  ghost predicate ReportsGoalAt(init: State, d: nat, r: Result) {
    exists g ::
      && IsGoal(g) && Reaches(init, g, d)
      && r == Result(IdfsName, d, g.cost, Some(GetPath(g)))
      && (init.parent.None? && init.move == "" ==>
            && g.cost == init.cost + d
            && |GetPath(g)| == d
            && Replay(ConfigOf(init), GetPath(g)) == Some(ConfigOf(g)))
  }

  /** A successful run at limit `d` from the initial state reports a goal `d` steps below it. */
  lemma RunAtReports(init: State, d: nat)
    requires CanExpand(init) || (d == 0 && IsGoal(init))
    requires RunAt(init, d).path.Some?
    ensures d <= MaxNodes && GoalAt(init, d) && ReportsGoalAt(init, d, RunAt(init, d))
  {
    DlsCorrect(init, d, 0, MaxNodes);
    var g := FirstGoal(Layer(init, d)).value;
    LayerIsReach(init, d, g);
  }

  /** A failed run at limit `d <= MaxNodes` means no goal lies `d` steps below. */
  lemma RunAtFails(init: State, d: nat)
    requires CanExpand(init) || (d == 0 && IsGoal(init))
    requires d <= MaxNodes && RunAt(init, d).path.None?
    ensures !GoalAt(init, d)
  {
    DlsFinds(init, d, 0, MaxNodes);
  }

  /**
   * `iterativeDeepeningDFS`: when it returns within the limits 0 to `fuel`,
   * it reports the shallowest goal, found at limit `d`, with counter `d`;
   * when it does not, no goal lies within `fuel` steps (up to the cap).
   */
  lemma IdfsCorrect(init: State, fuel: nat)
    requires CanExpand(init) || IsGoal(init)
    ensures var r := Idfs(init, fuel);
      && (r.Some? ==> exists d: nat ::
            && d <= fuel && d <= MaxNodes
            && GoalAt(init, d)
            && (forall d': nat :: d' < d ==> !GoalAt(init, d'))
            && ReportsGoalAt(init, d, r.value))
      && (r.None? ==> forall d: nat :: d <= fuel && d <= MaxNodes ==> !GoalAt(init, d))
  {
    IdfsFromSpec(init, 0, fuel);
    var r := Idfs(init, fuel);
    if r.Some? {
      var d :| 0 <= d <= fuel && IdfsFirst(init, 0, d, r.value);
      RunAtReports(init, d);
      forall d': nat | d' < d
        ensures !GoalAt(init, d')
      {
        RunAtFails(init, d');
      }
    } else {
      forall d: nat | d <= fuel && d <= MaxNodes
        ensures !GoalAt(init, d)
      {
        RunAtFails(init, d);
      }
    }
  }

  /**
   * As written, the outer loop of `iterativeDeepeningDFS` never gives up:
   * when no goal lies within MaxNodes steps, no number of rounds returns.
   */
  lemma IdfsNeverStops(init: State, fuel: nat)
    requires CanExpand(init) || IsGoal(init)
    requires forall d: nat :: d <= MaxNodes ==> !GoalAt(init, d)
    ensures Idfs(init, fuel) == None
  {
    IdfsFromSpec(init, 0, fuel);
    if Idfs(init, fuel).Some? {
      var d :| 0 <= d <= fuel && IdfsFirst(init, 0, d, Idfs(init, fuel).value);
      RunAtReports(init, d);
      assert false;
    }
  }

  /** A start whose board holds a 7 twice and no 8: the goal can never be reached from it. */
  const StuckBoard: Grid := [[0, 1, 2], [3, 4, 5], [6, 7, 7]]
  const Stuck: State := State(StuckBoard, 0, 0, 0, "", None)

  lemma GoalHasEight()
    ensures 8 in multiset(Flat(GoalGrid))
  {
    assert Flat(GoalGrid)[8] == 8;
  }

  lemma StuckLacksEight()
    ensures 8 !in multiset(Flat(StuckBoard))
  {
    var f := Flat(StuckBoard);
    forall i | 0 <= i < 9
      ensures f[i] != 8
    {
      assert InRange(i / 3, i % 3) && i == 3 * (i / 3) + i % 3;
    }
    assert 8 !in f;
  }

  lemma StuckConsistent()
    ensures BlankConsistent(Stuck) && CanExpand(Stuck)
  {
  }

  /** From a consistent start whose tiles differ from the goal's, no goal is ever reached. */
  lemma OtherTilesNoGoal(root: State, x: State, k: nat)
    requires BlankConsistent(root) && multiset(Flat(root.board)) != multiset(Flat(GoalGrid))
    requires Reaches(root, x, k)
    ensures !IsGoal(x)
  {
    ReachKeepsTiles(root, x, k);
  }

  lemma StuckHasNoGoal(d: nat)
    ensures CanExpand(Stuck) && !GoalAt(Stuck, d)
  {
    StuckConsistent();
    GoalHasEight();
    StuckLacksEight();
    forall x | Reaches(Stuck, x, d)
      ensures !IsGoal(x)
    {
      OtherTilesNoGoal(Stuck, x, d);
    }
  }

  /** On the start `Stuck` the source's iterative deepening runs for ever: every bound on the rounds is exceeded. */
  lemma IdfsStuckForever(fuel: nat)
    ensures Idfs(Stuck, fuel) == None
  {
    forall d: nat | d <= MaxNodes
      ensures !GoalAt(Stuck, d)
    {
      StuckHasNoGoal(d);
    }
    StuckHasNoGoal(0);
    IdfsNeverStops(Stuck, fuel);
  }

  /**
   * Iterative deepening with the stop its outer cap test evidently intends: a run
   * below more than MaxNodes levels cannot succeed, so after limit MaxNodes
   * it gives up with the cap as its count, cost -1 and no path.
   */
  function IdfsBounded(init: State): Result
    requires CanExpand(init) || IsGoal(init)
  {
    var r := Idfs(init, MaxNodes);
    if r.Some? then r.value else Result(IdfsName, MaxNodes, -1, None)
  }

  /**
   * The bounded search always returns; it finds a path exactly when some goal
   * lies within MaxNodes steps, reports the shallowest one, and agrees with
   * the source whenever the source returns.
   */
  lemma IdfsBoundedCorrect(init: State, fuel: nat)
    requires CanExpand(init) || IsGoal(init)
    ensures var r := IdfsBounded(init);
      && (r.path.Some? <==> exists d: nat :: d <= MaxNodes && GoalAt(init, d))
      && (r.path.Some? ==> exists d: nat ::
            && d <= MaxNodes && GoalAt(init, d)
            && (forall d': nat :: d' < d ==> !GoalAt(init, d'))
            && ReportsGoalAt(init, d, r))
      && (r.path.None? ==> r == Result(IdfsName, MaxNodes, -1, None))
      && (Idfs(init, fuel).Some? ==> Idfs(init, fuel).value == r)
  {
    IdfsCorrect(init, MaxNodes);
    IdfsCorrect(init, fuel);
    IdfsAgree(init, fuel);
  }

  /** Two rounds of iterative deepening that both return agree: each is the run at the shallowest goal. */
  lemma IdfsAgree(init: State, fuel: nat)
    requires CanExpand(init) || IsGoal(init)
    ensures Idfs(init, fuel).Some? && Idfs(init, MaxNodes).Some? ==> Idfs(init, fuel) == Idfs(init, MaxNodes)
  {
    IdfsFromSpec(init, 0, MaxNodes);
    IdfsFromSpec(init, 0, fuel);
    var r, s := Idfs(init, MaxNodes), Idfs(init, fuel);
    if r.Some? && s.Some? {
      var e :| 0 <= e <= fuel && IdfsFirst(init, 0, e, s.value);
      var d :| 0 <= d <= MaxNodes && IdfsFirst(init, 0, d, r.value);
      FirstUnique(init, d, e, r.value, s.value);
    }
  }

  /** Only one limit can be the first whose run succeeds. */
  lemma FirstUnique(init: State, d: nat, e: nat, r: Result, s: Result)
    requires IdfsFirst(init, 0, d, r) && IdfsFirst(init, 0, e, s)
    ensures d == e && r == s
  {
    if d < e {
      assert false;
    } else if e < d {
      assert false;
    }
  }

  /** The source's search returns within `fuel` rounds exactly when the bounded one finds a path within that many levels. */
  lemma IdfsReturnsWhenFound(init: State, fuel: nat)
    requires CanExpand(init) || IsGoal(init)
    requires fuel >= MaxNodes
    ensures Idfs(init, fuel).Some? <==> IdfsBounded(init).path.Some?
    ensures Idfs(init, fuel).Some? ==> Idfs(init, fuel).value == IdfsBounded(init)
  {
    IdfsCorrect(init, fuel);
    IdfsCorrect(init, MaxNodes);
    IdfsAgree(init, fuel);
  }
}
