/**
 * The search state of the 8-puzzle (`PuzzleState` in EightPuzzle.java): a
 * board, the blank's coordinates, the accumulated cost, the move label that
 * produced it and a link to its parent; the successor generator, the goal
 * test, board-content equality and path reconstruction.
 */
module Puzzle {
  import opened Options
  import opened Board

  /** One node of the search tree. The root has `move == ""` and no parent. */
  datatype State = State(board: Grid, zeroRow: int, zeroCol: int, cost: int, move: string, parent: Option<State>)

  /** `Arrays.copyOf(row, 3)`: the first three cells, padded with zeros when the row is shorter. */
  function CopyRow(row: seq<int>): (r: seq<int>)
    ensures |r| == 3
    ensures forall c :: 0 <= c < 3 ==> r[c] == (if c < |row| then row[c] else 0)
  {
    if |row| >= 3 then row[..3] else row + seq(3 - |row|, _ => 0)
  }

  /**
   * The state constructor. It copies the first three rows and stores the other
   * fields as given; it checks neither the tiles nor the blank's position.
   */
  function NewState(board: Grid, zeroRow: int, zeroCol: int, cost: int, move: string, parent: Option<State>): (s: State)
    requires |board| >= 3
    ensures IsGrid(s.board)
    ensures forall r, c :: InRange(r, c) ==> s.board[r][c] == (if c < |board[r]| then board[r][c] else 0)
    ensures IsGrid(board) ==> s.board == board
    ensures s.zeroRow == zeroRow && s.zeroCol == zeroCol
    ensures s.cost == cost && s.move == move && s.parent == parent
  {
    var rows := [CopyRow(board[0]), CopyRow(board[1]), CopyRow(board[2])];
    assert IsGrid(board) ==> rows == board by {
      if IsGrid(board) {
        assert forall r :: 0 <= r < 3 ==> board[r][..3] == board[r];
      }
    }
    State(rows, zeroRow, zeroCol, cost, move, parent)
  }

  predicate BlankInside(s: State) {
    InRange(s.zeroRow, s.zeroCol)
  }

  /** Sliding the blank in direction `d` stays on the board. */
  predicate InBounds(s: State, d: Dir) {
    InRange(s.zeroRow + DeltaRow(d), s.zeroCol + DeltaCol(d))
  }

  /**
   * What the successor generator needs in order not to index outside the
   * board: a 3x3 board, and a blank that is inside the grid unless no
   * direction leads into it (a blank far outside simply has no successors).
   */
  predicate CanExpand(s: State) {
    IsGrid(s.board) && (BlankInside(s) || forall d :: !InBounds(s, d))
  }

  /** A well-formed puzzle state: tiles 0..8 once each, the blank where the coordinates say. */
  predicate Valid(s: State) {
    IsPermutation(s.board) && BlankInside(s) && s.board[s.zeroRow][s.zeroCol] == 0
  }

  /** The child reached by sliding the blank of `s` in direction `d`. */
  function Child(s: State, d: Dir): (c: State)
    requires IsGrid(s.board) && BlankInside(s) && InBounds(s, d)
    ensures c.board == Slide(s.board, s.zeroRow, s.zeroCol, s.zeroRow + DeltaRow(d), s.zeroCol + DeltaCol(d))
    ensures c.zeroRow == s.zeroRow + DeltaRow(d) && c.zeroCol == s.zeroCol + DeltaCol(d)
    ensures c.cost == s.cost + 1 && c.move == Label(d) && c.parent == Some(s)
  {
    var nr, nc := s.zeroRow + DeltaRow(d), s.zeroCol + DeltaCol(d);
    State(Slide(s.board, s.zeroRow, s.zeroCol, nr, nc), nr, nc, s.cost + 1, Label(d), Some(s))
  }

  /** The child is what the constructor builds from the slid board: the constructor's copy changes nothing. */
  lemma ChildIsConstructed(s: State, d: Dir)
    requires IsGrid(s.board) && BlankInside(s) && InBounds(s, d)
    ensures var nr, nc := s.zeroRow + DeltaRow(d), s.zeroCol + DeltaCol(d);
      Child(s, d) == NewState(Slide(s.board, s.zeroRow, s.zeroCol, nr, nc), nr, nc, s.cost + 1, Label(d), Some(s))
  {
  }

  /** `[d]` when sliding in direction `d` stays on the board, else `[]`. */
  function IfLegal(s: State, d: Dir): seq<Dir> {
    if InBounds(s, d) then [d] else []
  }

  /** The slide directions available to `s`, as the direction loop meets them. */
  function LegalMoves(s: State): (ms: seq<Dir>)
    ensures |ms| <= 4
  {
    IfLegal(s, Up) + IfLegal(s, Down) + IfLegal(s, Left) + IfLegal(s, Right)
  }

  /**
   * The legal moves are exactly the directions that stay on the board, in
   * the order UP, DOWN, LEFT, RIGHT: 2 of them for a blank in a corner, 3 on
   * an edge, 4 in the centre.
   */
  lemma LegalMovesSpec(s: State)
    ensures forall d :: d in LegalMoves(s) <==> InBounds(s, d)
    ensures forall i, j :: 0 <= i < j < |LegalMoves(s)| ==> Ord(LegalMoves(s)[i]) < Ord(LegalMoves(s)[j])
    ensures BlankInside(s) ==>
      |LegalMoves(s)| == 2 + (if s.zeroRow == 1 then 1 else 0) + (if s.zeroCol == 1 then 1 else 0)
  {
  }

  /** One iteration of the direction loop of `getSuccessors`: the fresh child, if the slide stays on the board. */
  function ChildIf(s: State, d: Dir): (cs: seq<State>)
    requires CanExpand(s)
  {
    if InBounds(s, d) then [Child(s, d)] else []
  }

  /** The children of `s` for the given legal directions, in the same order. */
  function Children(s: State, ms: seq<Dir>): (cs: seq<State>)
    requires IsGrid(s.board) && BlankInside(s)
    requires forall d :: d in ms ==> InBounds(s, d)
    ensures |cs| == |ms| && forall i :: 0 <= i < |ms| ==> cs[i] == Child(s, ms[i])
  {
    seq(|ms|, i requires 0 <= i < |ms| => Child(s, ms[i]))
  }

  lemma ChildrenAppend(s: State, a: seq<Dir>, b: seq<Dir>)
    requires IsGrid(s.board) && BlankInside(s)
    requires forall d :: d in a + b ==> InBounds(s, d)
    ensures Children(s, a + b) == Children(s, a) + Children(s, b)
  {
  }

  /** The successors in direction order, as the loop of `getSuccessors` builds them. */
  lemma SuccessorsInOrder(s: State)
    requires IsGrid(s.board) && BlankInside(s)
    ensures ChildIf(s, Up) + ChildIf(s, Down) + ChildIf(s, Left) + ChildIf(s, Right) == Children(s, LegalMoves(s))
  {
    LegalMovesSpec(s);
    var u, w, l, r := IfLegal(s, Up), IfLegal(s, Down), IfLegal(s, Left), IfLegal(s, Right);
    assert ChildIf(s, Up) == Children(s, u);
    assert ChildIf(s, Down) == Children(s, w);
    assert ChildIf(s, Left) == Children(s, l);
    assert ChildIf(s, Right) == Children(s, r);
    ChildrenAppend(s, u, w);
    ChildrenAppend(s, u + w, l);
    ChildrenAppend(s, u + w + l, r);
  }

  /**
   * `getSuccessors`: one fresh child per legal direction, in the order UP,
   * DOWN, LEFT, RIGHT. A blank in a corner gives 2 children, on an edge 3,
   * in the centre 4; a blank outside the grid gives none.
   */
  function Successors(s: State): (cs: seq<State>)
    requires CanExpand(s)
    ensures |cs| == |LegalMoves(s)|
    ensures forall i :: 0 <= i < |cs| ==> cs[i] == Child(s, LegalMoves(s)[i])
    ensures BlankInside(s) ==> 2 <= |cs| <= 4
    ensures !BlankInside(s) ==> cs == []
  {
    var cs := ChildIf(s, Up) + ChildIf(s, Down) + ChildIf(s, Left) + ChildIf(s, Right);
    LegalMovesSpec(s);
    assert BlankInside(s) ==> cs == Children(s, LegalMoves(s)) by {
      if BlankInside(s) {
        SuccessorsInOrder(s);
      }
    }
    cs
  }

  /** Every successor is the child by some legal slide. */
  lemma SuccessorIsChild(s: State, c: State)
    requires CanExpand(s) && c in Successors(s)
    ensures exists d :: InBounds(s, d) && c == Child(s, d)
  {
    var cs, ms := Successors(s), LegalMoves(s);
    LegalMovesSpec(s);
    var i :| 0 <= i < |cs| && cs[i] == c;
    assert ms[i] in ms;
  }

  /** Every legal slide gives a successor. */
  lemma ChildIsSuccessor(s: State, d: Dir)
    requires CanExpand(s) && InBounds(s, d)
    ensures Child(s, d) in Successors(s)
  {
    var cs, ms := Successors(s), LegalMoves(s);
    LegalMovesSpec(s);
    var i :| 0 <= i < |ms| && ms[i] == d;
    assert cs[i] == Child(s, d);
  }

  /** Every successor costs one more than `s`, carries a move label and has `s` as parent. */
  lemma SuccessorsLinks(s: State)
    requires CanExpand(s)
    ensures forall c :: c in Successors(s) ==> c.parent == Some(s) && c.cost == s.cost + 1 && c.move != ""
  {
    var cs, ms := Successors(s), LegalMoves(s);
    forall c | c in cs
      ensures c.parent == Some(s) && c.cost == s.cost + 1 && c.move != ""
    {
      var i :| 0 <= i < |cs| && cs[i] == c;
      assert c.move == Label(ms[i]);
    }
  }

  /** The blank's coordinates point at a 0 on a 3x3 board. */
  predicate BlankConsistent(s: State) {
    IsGrid(s.board) && BlankInside(s) && s.board[s.zeroRow][s.zeroCol] == 0
  }

  /**
   * The blank's coordinates are right and the board holds the blank once;
   * the other tiles may repeat or be missing. Every well-formed state is
   * such a state.
   */
  predicate OneBlank(s: State) {
    BlankConsistent(s) && SingleBlank(s.board)
  }

  /** A slide from a consistent state gives a consistent state with the same tiles. */
  lemma ChildTiles(s: State, d: Dir)
    requires BlankConsistent(s) && InBounds(s, d)
    ensures BlankConsistent(Child(s, d))
    ensures multiset(Flat(Child(s, d).board)) == multiset(Flat(s.board))
  {
    SlidePermutes(s.board, s.zeroRow, s.zeroCol, s.zeroRow + DeltaRow(d), s.zeroCol + DeltaCol(d));
  }

  /** A legal slide keeps a well-formed state well-formed: the child's board is a permutation of its parent's. */
  lemma ChildValid(s: State, d: Dir)
    requires Valid(s) && InBounds(s, d)
    ensures Valid(Child(s, d))
    ensures multiset(Flat(Child(s, d).board)) == multiset(Flat(s.board))
  {
    ChildTiles(s, d);
  }

  /** `isGoal`: the board is the solved arrangement, compared cell by cell. */
  predicate IsGoal(s: State) {
    s.board == GoalGrid
  }

  /** The goal test holds exactly when every cell (r, c) of a 3x3 board holds tile 3r + c. */
  lemma IsGoalCells(s: State)
    ensures IsGoal(s) <==> IsGrid(s.board) && forall r, c :: InRange(r, c) ==> s.board[r][c] == 3 * r + c
  {
    if IsGrid(s.board) && forall r, c :: InRange(r, c) ==> s.board[r][c] == 3 * r + c {
      GridExt(s.board, GoalGrid);
    }
  }

  /** In a well-formed goal state the blank is in the top-left corner. */
  lemma GoalBlankCorner(s: State)
    requires Valid(s) && IsGoal(s)
    ensures s.zeroRow == 0 && s.zeroCol == 0
  {
    BlankUnique(s.board, s.zeroRow, s.zeroCol, 0, 0);
  }

  /** `equals`: two states are the same state when their boards agree, whatever their cost, move or parent. */
  predicate SameState(a: State, b: State) {
    a.board == b.board
  }

  /** Equality is decided cell by cell on 3x3 boards, and the goal test cannot tell equal states apart. */
  lemma SameStateCells(a: State, b: State)
    requires IsGrid(a.board) && IsGrid(b.board)
    ensures SameState(a, b) <==> forall r, c :: InRange(r, c) ==> a.board[r][c] == b.board[r][c]
    ensures SameState(a, b) ==> (IsGoal(a) <==> IsGoal(b))
  {
    if forall r, c :: InRange(r, c) ==> a.board[r][c] == b.board[r][c] {
      GridExt(a.board, b.board);
    }
  }

  /** `c` is the child of `p` by some legal slide. */
  ghost predicate IsChildOf(c: State, p: State) {
    IsGrid(p.board) && BlankInside(p) && exists d :: InBounds(p, d) && c == Child(p, d)
  }

  /** `s` is reached from `root` by exactly `k` successor steps along its parent chain. */
  ghost predicate Reaches(root: State, s: State, k: nat) {
    if k == 0 then s == root
    else
      && s.parent.Some?
      && IsChildOf(s, s.parent.value)
      && Reaches(root, s.parent.value, k - 1)
  }

  /** Along any chain of slides the tiles stay the same multiset and the blank's coordinates stay right. */
  lemma {:induction false} ReachKeepsTiles(root: State, s: State, k: nat)
    requires BlankConsistent(root) && Reaches(root, s, k)
    ensures BlankConsistent(s) && multiset(Flat(s.board)) == multiset(Flat(root.board))
    decreases k
  {
    if k > 0 {
      var p, j := ParentReach(root, s, k);
      ReachKeepsTiles(root, p, j);
      var d :| InBounds(p, d) && s == Child(p, d);
      ChildTiles(p, d);
    }
  }

  /** Every state reached from a well-formed state is well-formed. */
  lemma ReachValid(root: State, s: State, k: nat)
    requires Valid(root) && Reaches(root, s, k)
    ensures Valid(s)
  {
    ReachKeepsTiles(root, s, k);
  }

  /** Every state reached from a state with one blank has one blank. */
  lemma ReachOneBlank(root: State, s: State, k: nat)
    requires OneBlank(root) && Reaches(root, s, k)
    ensures OneBlank(s)
  {
    ReachKeepsTiles(root, s, k);
  }

  /** On a board with one blank the blank's coordinates are fixed by the board. */
  lemma SameBoardSameBlank(e: State, p: State)
    requires OneBlank(e) && OneBlank(p) && e.board == p.board
    ensures e.zeroRow == p.zeroRow && e.zeroCol == p.zeroCol
  {
    BlankUnique(e.board, e.zeroRow, e.zeroCol, p.zeroRow, p.zeroCol);
  }

  /**
   * On states with one blank, a successor depends on the board alone: a
   * state with the same board as `p` has a successor with the same board as
   * any child of `p`.
   */
  lemma SameBoardChild(e: State, p: State, x: State) returns (c: State)
    requires OneBlank(e) && OneBlank(p) && e.board == p.board && IsChildOf(x, p)
    ensures c in Successors(e) && c.board == x.board
  {
    SameBoardSameBlank(e, p);
    c := SameConfigChild(e, p, x);
  }

  /** A state with the board and blank of `p` has a successor with the board of any child of `p`. */
  lemma SameConfigChild(e: State, p: State, x: State) returns (c: State)
    requires IsGrid(e.board) && BlankInside(e) && ConfigOf(e) == ConfigOf(p) && IsChildOf(x, p)
    ensures c in Successors(e) && c.board == x.board
  {
    var d :| InBounds(p, d) && x == Child(p, d);
    c := Child(e, d);
    ChildIsSuccessor(e, d);
  }

  /** A state `k > 0` steps below `root` is a child of its parent, which is `k - 1` steps below. */
  lemma ParentReach(root: State, s: State, k: nat) returns (p: State, j: nat)
    requires k > 0 && Reaches(root, s, k)
    ensures s.parent == Some(p) && j == k - 1
    ensures Reaches(root, p, j) && IsChildOf(s, p)
  {
    p, j := s.parent.value, k - 1;
  }

  /** `s` descends from `root` by successor steps (possibly none). */
  ghost predicate DescendsFrom(s: State, root: State) {
    exists k: nat :: Reaches(root, s, k)
  }

  /** A child of a descendant is a descendant. */
  lemma DescendsStep(root: State, p: State, c: State)
    requires DescendsFrom(p, root) && CanExpand(p) && c in Successors(p)
    ensures DescendsFrom(c, root)
  {
    var k: nat :| Reaches(root, p, k);
    SuccessorIsChild(p, c);
    assert IsChildOf(c, p);
    assert Reaches(root, c, k + 1);
  }

  /** The non-empty move labels from `s` up to the root, in walking order (child first). */
  function CollectMoves(s: State): seq<string>
    decreases s
  {
    (if s.move != "" then [s.move] else [])
      + (match s.parent case None => [] case Some(p) => CollectMoves(p))
  }

  /** The walk keeps only non-empty labels, so the start's "" never enters a path. */
  lemma {:induction false} CollectMovesNonEmpty(s: State)
    ensures forall m :: m in CollectMoves(s) ==> m != ""
    decreases s
  {
    match s.parent
    case None =>
    case Some(p) => CollectMovesNonEmpty(p);
  }

  function Reverse<T>(xs: seq<T>): (ys: seq<T>)
    ensures |ys| == |xs|
  {
    if xs == [] then [] else Reverse(xs[1..]) + [xs[0]]
  }

  lemma {:induction false} ReverseAppend<T>(a: seq<T>, b: seq<T>)
    ensures Reverse(a + b) == Reverse(b) + Reverse(a)
    decreases |a|
  {
    if a == [] {
      assert a + b == b;
    } else {
      assert (a + b)[1..] == a[1..] + b;
      ReverseAppend(a[1..], b);
    }
  }

  /** `getPath`: walk the parent chain collecting non-empty moves, then reverse. */
  function GetPath(s: State): seq<string> {
    Reverse(CollectMoves(s))
  }

  /** The path of a state is its parent's path followed by its own move, if it has one. */
  lemma GetPathStep(s: State)
    ensures GetPath(s) == (match s.parent case None => [] case Some(p) => GetPath(p))
      + (if s.move != "" then [s.move] else [])
  {
    var own := if s.move != "" then [s.move] else [];
    var up := match s.parent case None => [] case Some(p) => CollectMoves(p);
    assert CollectMoves(s) == own + up;
    ReverseAppend(own, up);
    assert Reverse(own) == own;
  }

  /** One successor step extends the path by the child's move and the cost by one. */
  lemma PathStep(p: State, s: State)
    requires CanExpand(p) && s in Successors(p)
    ensures s.parent == Some(p) && s.cost == p.cost + 1
    ensures GetPath(s) == GetPath(p) + [s.move]
  {
    SuccessorsLinks(p);
    GetPathStep(s);
  }

  /** A child by a legal slide has `p` as parent, costs one more, and extends the path by one move. */
  lemma ChildStep(p: State, s: State)
    requires IsChildOf(s, p)
    ensures s.parent == Some(p) && s.cost == p.cost + 1
    ensures |GetPath(s)| == |GetPath(p)| + 1
  {
    var d :| InBounds(p, d) && s == Child(p, d);
    ChildPath(p, d);
  }

  /**
   * For a state `k` successor steps below a root with no move and no parent,
   * the path has exactly `k` moves and the cost grew by exactly `k`.
   */
  lemma {:induction false} PathLength(root: State, s: State, k: nat)
    requires root.parent == None && root.move == ""
    requires Reaches(root, s, k)
    ensures |GetPath(s)| == k && s.cost == root.cost + k
    decreases k
  {
    if k == 0 {
      GetPathStep(s);
    } else {
      var p, j := ParentReach(root, s, k);
      PathLength(root, p, j);
      ChildStep(p, s);
    }
  }

  /** The part of a state a move acts on: the board and the blank's coordinates. */
  datatype Config = Config(board: Grid, zeroRow: int, zeroCol: int)

  function ConfigOf(s: State): Config {
    Config(s.board, s.zeroRow, s.zeroCol)
  }

  /**
   * Replays one move label with the row/column deltas of the successor
   * generator; an unknown label or a slide off the board is `None`.
   */
  function ApplyMove(g: Config, m: string): Option<Config> {
    match ParseLabel(m)
    case None => None
    case Some(d) =>
      var nr, nc := g.zeroRow + DeltaRow(d), g.zeroCol + DeltaCol(d);
      if IsGrid(g.board) && InRange(g.zeroRow, g.zeroCol) && InRange(nr, nc)
      then Some(Config(Slide(g.board, g.zeroRow, g.zeroCol, nr, nc), nr, nc))
      else None
  }

  /** Replays a move sequence from the first move to the last. */
  function Replay(g: Config, path: seq<string>): Option<Config>
    decreases |path|
  {
    if path == [] then Some(g)
    else match ApplyMove(g, path[0])
      case None => None
      case Some(g') => Replay(g', path[1..])
  }

  /** Replaying one more move continues from where the shorter replay ended. */
  lemma {:induction false} ReplaySnoc(g: Config, path: seq<string>, m: string)
    ensures Replay(g, path + [m]) == match Replay(g, path) case None => None case Some(h) => ApplyMove(h, m)
    decreases |path|
  {
    if path != [] {
      assert (path + [m])[1..] == path[1..] + [m];
      match ApplyMove(g, path[0])
      case None =>
      case Some(g') => ReplaySnoc(g', path[1..], m);
    } else {
      assert [m][1..] == [];
    }
  }

  /** The path of a child is its parent's path followed by the slide's label. */
  lemma ChildPath(p: State, d: Dir)
    requires IsGrid(p.board) && BlankInside(p) && InBounds(p, d)
    ensures GetPath(Child(p, d)) == GetPath(p) + [Label(d)]
  {
    GetPathStep(Child(p, d));
  }

  /** Replaying a slide's label performs the slide. */
  lemma ReplayChild(p: State, d: Dir)
    requires IsGrid(p.board) && BlankInside(p) && InBounds(p, d)
    ensures ApplyMove(ConfigOf(p), Label(d)) == Some(ConfigOf(Child(p, d)))
  {
  }

  /** A replay that has reached `p` reaches the child of `p` after one more label. */
  lemma ReplayExtend(g: Config, path: seq<string>, p: State, d: Dir)
    requires IsGrid(p.board) && BlankInside(p) && InBounds(p, d)
    requires Replay(g, path) == Some(ConfigOf(p))
    requires path == GetPath(p)
    ensures Replay(g, GetPath(Child(p, d))) == Some(ConfigOf(Child(p, d)))
  {
    ChildPath(p, d);
    ReplaySnoc(g, path, Label(d));
    ReplayChild(p, d);
  }

  /** A replay that has reached `p` reaches any child of `p` along the child's path. */
  lemma ReplayUp(g: Config, p: State, s: State)
    requires IsChildOf(s, p)
    requires Replay(g, GetPath(p)) == Some(ConfigOf(p))
    ensures Replay(g, GetPath(s)) == Some(ConfigOf(s))
  {
    var d :| InBounds(p, d) && s == Child(p, d);
    ReplayExtend(g, GetPath(p), p, d);
  }

  /**
   * Path reconstruction round trip: replaying the path of a state `k` steps
   * below a move-less, parent-less root, from the root's board, reproduces
   * the state's board and blank position.
   */
  lemma {:induction false} PathReplays(root: State, s: State, k: nat)
    requires root.parent == None && root.move == ""
    requires Reaches(root, s, k)
    ensures Replay(ConfigOf(root), GetPath(s)) == Some(ConfigOf(s))
    decreases k
  {
    if k == 0 {
      assert GetPath(s) == [] by {
        GetPathStep(s);
      }
    } else {
      var p, j := ParentReach(root, s, k);
      PathReplays(root, p, j);
      ReplayUp(ConfigOf(root), p, s);
    }
  }
}
