# 8-puzzle search and tree lookup, modelled in Dafny

This project models two small Java programs and proves properties of the model.

**`EightPuzzle.java`** solves the 8-puzzle on a 3x3 board.
- A `PuzzleState` holds a board, the blank's row and column, an accumulated cost, the move label that produced it ("UP", "DOWN", "LEFT", "RIGHT", or "" for the start), and a parent link.
- `getSuccessors` slides the blank once per in-bounds direction, always in the order up, down, left, right.
- `isGoal` and `equals` look only at the board contents.
- `getPath` walks the parent chain.
- Four searches share a 10,000-pop cap:
  - depth-first (a stack);
  - breadth-first (a FIFO queue);
  - uniform-cost (a priority queue on cost);
  - iterative deepening over a depth-limited recursion.
- The first three share one loop: pop, count the pop, test for the goal, and only then consult a visited set of boards.

**`Arbol.java`** is a binary tree of named nodes. `vacio` tests whether the tree is empty. `buscarNodo` searches it in pre-order.

Modules, one per file:
- `Options` (`options.dfy`): the `Option` type that stands for Java's `null`.
- `Board` (`board.dfy`): 3x3 grids, the four directions with their deltas and labels, the slide of the blank, the goal board, and tile multisets.
- `Puzzle` (`puzzle.dfy`): the state, the constructor, successors, goal test, equality, reachability, `getPath`, and a replay of paths.
- `Search` (`search.dfy`): the result record and the capped loop shared by DFS, BFS and UCS, with its invariants.
- `Deepening` (`deepening.dfy`): `depthLimitedDFS` and `iterativeDeepeningDFS`, checked against a reference definition of the states `d` steps down.
- `Arbol` (`arbol.dfy`): the tree, `vacio`, and `buscarNodo`/`buscarRecursivo`, checked against a pre-order reference.

How the Java is represented:
- Java's fixed-width `int` becomes Dafny's unbounded `int`. Boards are `seq<seq<int>>`.
- The visited set becomes a `set` of boards. That is the equality `equals`/`hashCode` define.
- The stack, queue and priority queue become a `seq` frontier with a pop index.
- The UCS pop may return any entry of least cost, because the Java comparator looks only at cost and does not fix which tied entry comes out first.
- The code checks nothing about its input, and only two inputs make it throw. The model rules these out by preconditions:
  - a board with fewer than three rows, for the constructor: `NewState` requires at least three rows;
  - blank coordinates just outside the grid, next to an in-bounds cell, for the successors: `CanExpand` asks for a 3x3 board whose blank is inside the grid or not next to it. Every board the constructor builds is 3x3, so the board part excludes nothing the code can build.
- Every other malformed start runs without an error, in the code and in the model. That covers repeated or missing tiles, blank coordinates that point at a non-zero tile, a blank far outside the grid, and rows of the wrong length, which the constructor cuts or pads. Some properties hold only on narrower starts. They take one of these as a hypothesis, which is not a condition for running:
  - `OneBlank` is a 3x3 board holding 0 exactly once, with the blank coordinates pointing at it. Slides keep it, so the claims about reachable boards need only this. Other tiles may repeat.
  - `Valid` is a permutation of 0..8 whose blank coordinates point at the 0.

Two behaviours of the code shape the model.
- **IDFS counter.** `iterativeDeepeningDFS` passes its counter to `depthLimitedDFS` by value and never writes a result back (`EightPuzzle.java:149-153`, `175`). So a successful run reports the depth at which the goal was found, as its count, and the cap test on line 158 compares 0 with 10000 and never fires. The model follows this; the consequence is under "## Findings".
- **Input checks.** No method checks its board. Only the two inputs above throw, and the model excludes just those. Other malformed boards run as the code runs them: `Search.OnesHasOneBlank` and `Deepening.StuckHasNoGoal` are about such starts.

The searches are stated twice over. `Outcome` says what a finished run reports and what it expanded. `Disciplined` records the run as a trace: the frontier each pop was taken from, and the index taken.
- The first frontier is the start alone.
- Each pop is the entry its strategy removes: the newest (stack), the oldest (FIFO queue), or one of least cost (priority queue).
- The next frontier is the last one without that entry, followed by its children in successor order, unless its board was popped before.
- A run that fails before the cap ends with an empty frontier.

## Model

| member | source | states |
|---|---|---|
| Board.Slide | EightPuzzle.java:40-45 | the new board equals the old except that the target cell holds 0 and the old blank cell holds the target's tile; it is again 3x3 |
| Board.ParseLabel | EightPuzzle.java:33 | reading a label back is the inverse of labelling: it yields the one direction with that label, and nothing for any other string |
| Board.SlidePermutes | EightPuzzle.java:44-45 | when the blank cell holds 0, the slid board holds the same multiset of tiles |
| Board.DeltaRow | EightPuzzle.java:31 | the row offset of a direction is -1, 0 or 1 |
| Board.DeltaCol | EightPuzzle.java:32 | the column offset is -1, 0 or 1, and it is 0 exactly when the row offset is not, so every direction moves the blank by one cell |
| Board.DeltasDistinct | EightPuzzle.java:31-32 | no two directions have the same pair of offsets |
| Board.Label | EightPuzzle.java:33 | every move label is non-empty, so `getPath` keeps every move |
| Board.BlankUnique | EightPuzzle.java:44-45 | on a board holding 0 exactly once, only one cell holds 0, so a slide leaves exactly one blank |
| Puzzle.CopyRow | EightPuzzle.java:15 | `Arrays.copyOf(row, 3)`: three cells, the row's own where it has them and zeros after |
| Puzzle.NewState | EightPuzzle.java:12-22 | the stored board is the cell-by-cell 3x3 copy of the first three rows; a 3x3 board is kept unchanged; the other fields are stored unchecked |
| Puzzle.Child | EightPuzzle.java:36-46 | the child of a legal slide has the slid board, the target as blank coordinates, cost plus one, the direction's label and the input state as parent |
| Puzzle.ChildIsConstructed | EightPuzzle.java:40-46 | the child equals what the constructor builds from the copied and slid board, so the copy changes nothing and the parent's board is untouched |
| Puzzle.LegalMovesSpec | EightPuzzle.java:31-39 | a direction is tried exactly when its target cell is inside the grid; directions come in the order up, down, left, right; with the blank inside there are 2, 3 or 4 of them, set by whether its row and column are the middle ones |
| Puzzle.Successors | EightPuzzle.java:29-50 | one child per legal direction, the i-th being the child of the i-th legal direction; 2 to 4 children when the blank is inside, none when it is far outside |
| Puzzle.SuccessorIsChild | EightPuzzle.java:35-47 | every successor is the child of some in-bounds direction |
| Puzzle.ChildIsSuccessor | EightPuzzle.java:35-47 | every in-bounds direction's child is among the successors |
| Puzzle.SuccessorsLinks | EightPuzzle.java:46 | every successor has the input state as parent, costs one more and carries a non-empty move |
| Puzzle.ChildValid | EightPuzzle.java:40-46 | a slide keeps a well-formed state well-formed, and the child's board is a permutation of its parent's |
| Puzzle.ChildTiles | EightPuzzle.java:44-46 | a slide from a state whose blank coordinates point at a 0 gives such a state again, with the same tiles |
| Puzzle.ReachKeepsTiles | EightPuzzle.java:29-50 | any chain of slides keeps the multiset of tiles and keeps the blank coordinates pointing at the 0 |
| Puzzle.ReachValid | EightPuzzle.java:29-50 | every state reached from a well-formed state is well-formed |
| Puzzle.ReachOneBlank | EightPuzzle.java:29-50 | every state reached from a state with one blank, pointed at by its coordinates, is again such a state |
| Puzzle.SameBoardSameBlank | EightPuzzle.java:52-58 | two states with one blank each that are equal, having the same board, also have the same blank coordinates |
| Puzzle.SameBoardChild | EightPuzzle.java:35-47 | a state with one blank and the same board as p (also with one blank) has a successor with the same board as any child of p, so the successors of equal states have equal boards |
| Puzzle.SameConfigChild | EightPuzzle.java:35-47 | a state with the board and blank of p has a successor with the board of any child of p |
| Puzzle.ParentReach | EightPuzzle.java:46 | a state k > 0 steps below the root is a child of its parent, which is k - 1 steps below |
| Puzzle.IsGoalCells | EightPuzzle.java:24-27 | the goal test `Puzzle.IsGoal` holds exactly when the board is 3x3 and cell (r, c) holds 3r + c |
| Puzzle.GoalBlankCorner | EightPuzzle.java:24-27 | a well-formed goal state has its blank at row 0, column 0 |
| Puzzle.SameStateCells | EightPuzzle.java:52-58 | `Puzzle.SameState` holds exactly when the boards agree cell by cell, whatever the cost, move or parent; equal states agree on the goal test |
| Puzzle.DescendsStep | EightPuzzle.java:29-50 | a successor of a descendant of the start is again a descendant |
| Puzzle.ReverseAppend | EightPuzzle.java:219 | reversing a concatenation concatenates the reversed parts in swapped order |
| Puzzle.CollectMovesNonEmpty | EightPuzzle.java:213-218 | the walk up the parent chain (`Puzzle.CollectMoves`) keeps only non-empty labels |
| Puzzle.GetPathStep | EightPuzzle.java:211-221 | `Puzzle.GetPath` of a state is its parent's path followed by its own move if that is non-empty; a parent-less state with no move has the empty path |
| Puzzle.PathStep | EightPuzzle.java:211-221 | one successor step appends the child's move to the path and adds one to the cost |
| Puzzle.ChildStep | EightPuzzle.java:46 | a child by a legal slide has the parent as parent, costs one more, and has a path one move longer |
| Puzzle.PathLength | EightPuzzle.java:211-221 | a state k steps below a root with no move has a path of exactly k moves, and its cost is the root's plus k |
| Puzzle.ChildPath | EightPuzzle.java:211-221 | a child's path is its parent's path followed by the slide's label |
| Puzzle.ReplayChild | EightPuzzle.java:31-46 | replaying a slide's label with the source's row and column deltas performs that slide |
| Puzzle.ReplaySnoc | EightPuzzle.java:211-221 | replaying one more move continues from where the shorter replay ended |
| Puzzle.ReplayExtend | EightPuzzle.java:36-46 | a replay that reaches a state reaches its child after the child's label |
| Puzzle.ReplayUp | EightPuzzle.java:36-46 | a replay that reaches a state reaches any of its children along the child's path |
| Puzzle.PathReplays | EightPuzzle.java:211-221 | round trip: replaying the path of a state from its root's board, move by move, reproduces the state's board and blank position |
| Search.MinCostIndex | EightPuzzle.java:185 | a non-empty priority queue always has an entry of least cost to hand out |
| Search.PopIndex | EightPuzzle.java:185-192 | the entry removed is the newest one for the stack, the oldest for the FIFO queue, and one of least cost for the priority queue |
| Search.RemoveAt | EightPuzzle.java:192 | removing an entry shortens the frontier by one and adds nothing |
| Search.SuccessorsInv | EightPuzzle.java:109-113 | the children of an expandable descendant of the start are expandable descendants |
| Search.FrontierStep | EightPuzzle.java:100-114 | popping an entry that is not a goal and pushing its children keeps every frontier entry an expandable descendant of the start |
| Search.PushedCosts | EightPuzzle.java:46 | every pushed child costs exactly one more than the popped parent |
| Search.PoppedSorted | EightPuzzle.java:128 | a pop costing at least every earlier pop keeps the pops in non-decreasing cost |
| Search.CostStepBfs | EightPuzzle.java:127-141 | for the FIFO queue, the head is the cheapest entry and the queue stays sorted, spanning costs c to c + 1 |
| Search.QueueTail | EightPuzzle.java:128 | behind the head of a sorted FIFO queue spanning costs c to c + 1, entries cost the head's or one more |
| Search.SortedAppendTop | EightPuzzle.java:139 | appending children of one cost behind queue entries of at most that cost keeps the queue sorted |
| Search.CostStepUcs | EightPuzzle.java:191-205 | for the priority queue, the entry taken costs no more than any other, so nothing left in the queue is cheaper |
| Search.CostStep | EightPuzzle.java:191-205 | each step of breadth-first or uniform-cost search keeps the pops in non-decreasing cost order |
| Search.VisitStep | EightPuzzle.java:109-114 | a board is added to the visited set only when it is expanded, so the visited set is exactly the boards of the expanded states, no board is expanded twice, and every popped board is in it |
| Search.RemoveKeepsBoards | EightPuzzle.java:101 | taking an entry out of the frontier and recording it as popped loses no board |
| Search.CoverStep | EightPuzzle.java:109-113 | after each step every child of an expanded state has its board among the popped and frontier boards |
| Search.LoopStart | EightPuzzle.java:94-99 | the frontier holding only the start, with nothing visited or counted, satisfies the loop invariant |
| Search.PopStep | EightPuzzle.java:101-104 | recording a pop that fails the goal test keeps the pops descending from the start, goal-free, and starting with it |
| Search.LoopStep | EightPuzzle.java:100-114 | a pop that fails the goal test, counted, then expanded only if its board is not visited, keeps the loop invariant; the popped state can be expanded |
| Search.GoalOutcome | EightPuzzle.java:104-107 | a pop that passes the goal test returns the name, the count including it, its cost and its path |
| Search.ExitOutcome | EightPuzzle.java:100-117 | leaving the loop, with the frontier empty or 10,000 pops counted, returns cost -1 and no path, and an empty frontier leaves the expanded boards closed under successors |
| Search.OutcomeReport | EightPuzzle.java:100-117 | the record a search returns carries the strategy's name and a count between 1 and 10,000, has cost -1 when it has no path, and for a start that is already a goal is the first pop with count 1, the start's cost and its path |
| Search.NextFromStart | EightPuzzle.java:96-113 | popping the start from the first frontier, with nothing seen, leaves exactly the start's children |
| Search.FirstChildren | EightPuzzle.java:96-113 | in a trace of two or more pops, the start was expandable and the second frontier is its children |
| Search.SecondPop | EightPuzzle.java:101-113 | a second pop exists only when the start has children; for BFS it is the start's first child (up first) and for DFS its last child |
| Search.StepKept | EightPuzzle.java:100-114 | extending a trace by one pop keeps every earlier step of it |
| Search.StepNew | EightPuzzle.java:100-114 | the new step of an extended trace is taken from the frontier the previous pop left |
| Search.TraceStep | EightPuzzle.java:100-114 | popping the strategy's entry from the current frontier extends the trace by one step |
| Search.VisitedIsPopped | EightPuzzle.java:109-110 | the visited set holds exactly the boards of the pops so far |
| Search.TraceNext | EightPuzzle.java:109-113 | after a non-goal pop, the frontier the loop builds is the trace's next frontier: the rest, then the children unless the board was visited |
| Search.GoalTrace | EightPuzzle.java:104-107 | a run that stops at a goal has followed its strategy at every pop |
| Search.ExitTrace | EightPuzzle.java:100-117 | a run that leaves the loop has followed its strategy, and if it stopped before the cap its last frontier was empty |
| Search.CappedSearch | EightPuzzle.java:100-117 | the shared loop: between 1 and 10,000 counted pops, the first being the start; every pop before the last fails the goal test; a path exactly when the last pop is a goal, with that state's cost and path; otherwise cost -1 and no path; expanded states are popped non-goals with distinct boards, and every non-goal pop's board was expanded; BFS and UCS pop in non-decreasing cost; every pop is its strategy's entry of the frontier built so far (`Disciplined`); a start that is already a goal is reported after one pop |
| Search.ClosedReach | EightPuzzle.java:109-113 | when the expanded boards hold the start's board and every child's board, they hold the board of every state reachable from a start with one blank |
| Search.ClosedStep | EightPuzzle.java:109-113 | a child of a reachable state whose board was expanded has an expanded board |
| Search.ClosedNoGoal | EightPuzzle.java:104-113 | a closed set of expanded boards, none of them the goal, leaves no goal reachable |
| Search.ExhaustedMeansNoGoal | EightPuzzle.java:100-117 | a search whose frontier ran dry before the cap proves that no goal is reachable from a start with one blank |
| Search.OnesHasOneBlank | EightPuzzle.java:12-22 | the start [[0,1,1],[1,1,1],[1,1,1]] has one blank and can be expanded but is not a permutation, so the completeness claim covers starts outside the permutations |
| Search.DepthFirstSearch | EightPuzzle.java:93-118 | the outcome above with a stack frontier and the name "DFS", every pop taken as that frontier hands it out; a failure with the frontier empty before the cap means no goal is reachable from a start with one blank |
| Search.BreadthFirstSearch | EightPuzzle.java:120-145 | the outcome above with a FIFO frontier, the name "BFS" and pops in non-decreasing cost, every pop taken as that frontier hands it out; a failure with the frontier empty before the cap means no goal is reachable from a start with one blank |
| Search.UniformCostSearch | EightPuzzle.java:184-209 | the outcome above with a min-cost frontier, the name "UCS" and pops in non-decreasing cost, every pop taken as that frontier hands it out; a failure with the frontier empty before the cap means no goal is reachable from a start with one blank |
| Deepening.SuccessorsExpandable | EightPuzzle.java:170-171 | the recursion never meets a state it cannot expand: children of expandable states are expandable |
| Deepening.FirstGoal | EightPuzzle.java:171-178 | the first goal of a sequence is a goal in it; there is none exactly when no state in it is a goal |
| Deepening.FirstGoalAppend | EightPuzzle.java:171-178 | the first goal of a concatenation is the first part's, if it has one, else the second part's |
| Deepening.Dls | EightPuzzle.java:166-182 | every result is named "IDFS"; a found path comes with counter n + d; a failure is cost -1, no path and the counter passed in |
| Deepening.DlsLoop | EightPuzzle.java:171-181 | every result is named "IDFS"; a found path comes with counter n + d; a failure is cost -1, no path and counter n |
| Deepening.DlsCorrect | EightPuzzle.java:166-182 | `depthLimitedDFS(s, d, n, m)` returns the first goal exactly d steps below s, in successor order, with counter n + d and that goal's cost and path, when d is 0 or n + d <= m; otherwise cost -1, no path and counter n |
| Deepening.DlsLoopCorrect | EightPuzzle.java:171-181 | the loop over the children stops at the cap, returns the first child run that finds a path, and otherwise returns cost -1 and no path |
| Deepening.ReachesPrepend | EightPuzzle.java:175 | a state j steps below a child of s is j + 1 steps below s |
| Deepening.LayerSound | EightPuzzle.java:170-179 | every state the recursion tests at depth 0 lies exactly d steps below the start |
| Deepening.LayerOfSound | EightPuzzle.java:171-179 | every state tested below a list of children lies d steps below one of them |
| Deepening.LayerOfHas | EightPuzzle.java:171-179 | the states tested below a list of children include those tested below each of them |
| Deepening.LayerOfMember | EightPuzzle.java:171-179 | each state tested below a list of children is tested below one of them |
| Deepening.LayerGrow | EightPuzzle.java:170-179 | a successor of a state tested at limit d is tested at limit d + 1 |
| Deepening.ChildOfIsSuccessor | EightPuzzle.java:35-47 | a child by a legal slide is one of the successors |
| Deepening.LayerComplete | EightPuzzle.java:170-179 | every state exactly d steps below the start is tested at limit d |
| Deepening.LayerIsReach | EightPuzzle.java:166-182 | the states tested at limit d are exactly those d steps below the start; below a root they cost d more, have d-move paths, and their paths replay to them |
| Deepening.DlsFinds | EightPuzzle.java:166-182 | a path is returned exactly when a goal lies d steps below and the cap allows d levels; a failed run returns cost -1, no path and the counter passed in |
| Deepening.IdfsFromSpec | EightPuzzle.java:152-163 | the outer loop returns the run at the first limit, counting up, whose run finds a path, and otherwise keeps going |
| Deepening.IdfsFrom | EightPuzzle.java:152-163 | a returned result is named "IDFS", has a path, and was found at one of the limits tried, so its counter lies between the first limit and the last |
| Deepening.Idfs | EightPuzzle.java:147-164 | a returned result is named "IDFS", has a path, and its counter is at most the number of limits tried |
| Deepening.IdfsFirstShift | EightPuzzle.java:153-162 | a failed round at limit d followed by a first success from limit d + 1 is a first success from limit d |
| Deepening.RunAtReports | EightPuzzle.java:153-156 | a successful round at limit d reports a goal d steps below the start with counter d, the goal's cost and path, and d <= 10000 |
| Deepening.RunAtFails | EightPuzzle.java:153-154 | a failed round at a limit of at most 10000 means no goal lies that many steps below |
| Deepening.IdfsCorrect | EightPuzzle.java:147-164 | a returned result reports the shallowest goal, at limit d, with counter d and the goal's cost and path; if no result comes within the rounds tried, no goal lies within that many steps |
| Deepening.IdfsNeverStops | EightPuzzle.java:152-163 | as written, when no goal lies within 10000 steps, no number of rounds returns a result |
| Deepening.OtherTilesNoGoal | EightPuzzle.java:29-50 | from a consistent start whose tiles differ from the goal's, no goal is ever reached |
| Deepening.StuckHasNoGoal | EightPuzzle.java:12-22 | from a start holding a 7 twice and no 8, no goal is reachable at any depth |
| Deepening.IdfsStuckForever | EightPuzzle.java:152-163 | on that start, the outer loop as written returns after no number of rounds |
| Deepening.IdfsBoundedCorrect | EightPuzzle.java:147-164 | with the intended stop, the search always returns; it finds a path exactly when a goal lies within 10000 steps, then reports the shallowest; it agrees with the source whenever the source returns |
| Deepening.IdfsAgree | EightPuzzle.java:152-163 | two runs of the outer loop that both return give the same result |
| Deepening.FirstUnique | EightPuzzle.java:152-156 | the first successful limit is unique, and so is its result |
| Deepening.IdfsReturnsWhenFound | EightPuzzle.java:152-163 | given at least 10000 rounds, the source returns exactly when the bounded search finds a path, and then with the same result |
| Arbol.NewArbol | Arbol.java:17-19 | a new tree is empty and has no names |
| Arbol.VacioMeansNoNodes | Arbol.java:21-23 | `vacio` (`Arbol.Vacio`) holds exactly when the tree has no nodes, and so no names |
| Arbol.BuscarRecursivo | Arbol.java:29-38 | a found node is a node of the tree with the queried name; nothing is found exactly when no node has that name (an empty tree included) |
| Arbol.BuscarNodo | Arbol.java:25-27 | the lookup from the root finds a node of the tree with that name exactly when the name occurs |
| Arbol.FirstNamed | Arbol.java:29-38 | the first node of a list with a name is in the list and has it; there is none exactly when no node of the list has it |
| Arbol.FirstNamedAppend | Arbol.java:36-37 | the first match in a concatenation is the first part's, if any, else the second part's |
| Arbol.BuscarIsFirstInPreorder | Arbol.java:29-38 | the search returns the first node with the name in pre-order: root, then the whole left subtree, then the right |
| Arbol.BuscarPriority | Arbol.java:33-37 | a matching root wins; otherwise a match in the left subtree is returned in preference to any in the right one |
| Arbol.EjemploLookups | Arbol.java:41-52 | a new tree is empty; the tree M(B, Q) is not; looking up B in it finds the leaf B, and an absent name finds nothing |

## Left out

- Console output is not modelled: `main` of `EightPuzzle`, `printResults`, `printResult`, `toString`, the messages printed by the searches, and the printing in `Arbol.main`. It is output only.
- `hashCode` is not modelled. It matters only through the board equality it agrees with, which is how the visited set is modelled.
- Java collections are abstract. The `Stack`, `LinkedList` and `HashSet` become `seq` and `set`. The heap order of `PriorityQueue` becomes a choice of any least-cost entry, so ties are unordered.
- Search.CappedSearch: Java's 32-bit `int` overflow of costs is not modelled. Costs are unbounded here, so a child always costs one more than its parent. In Java, a start whose cost lies within 10,000 of 2^31 - 1 makes `cost + 1` wrap to a negative number, and the pops of BFS and UCS would then not come in non-decreasing cost. The start built by `main` has cost 0. Counters stay within 10,000, and tiles are only copied. Two other sums can wrap, with no effect. The first is the blank's target `zeroRow + dr[i]` and `zeroCol + dc[i]` (`EightPuzzle.java:36-37`): a wrapped coordinate is never in 0..2, so the bounds test rejects it, as it rejects the unwrapped value. The second is `depth++` (`EightPuzzle.java:162`), which needs 2^31 rounds to wrap.
- The two inputs on which the source throws (an index out of bounds) become preconditions rather than error results:
  - a board with fewer than three rows, for the constructor;
  - a blank next to the grid from outside, for the successors. The 3x3 part of `CanExpand` holds for every constructed state.
- Null move labels, null names and null queries in the tree are not modelled. Strings are never null here.
- Deepening.IdfsFrom: the outer loop of `iterativeDeepeningDFS` takes a fuel argument, the number of further limits to try, because the source loop has no bound. `None` means the fuel ran out. The lemmas state what happens within any given fuel.
- Search.ExhaustedMeansNoGoal: it covers a frontier that runs dry before the cap only. A failure at the cap says nothing about reachability, as in the source. From a permutation of 0..8, 181,440 boards are reachable, so the frontier never runs dry within 10,000 pops and the clause never applies there. It applies to starts whose other tiles repeat, such as the one in Search.OnesHasOneBlank. Whole runs on concrete boards are beyond what the model states.
- Solvability and parity of boards are not modelled, because nothing in the source computes them. The start used for the IDFS finding is unsolvable for a simpler reason: its tiles are not 0..8.

## Findings

| source | as written | input that shows it | evidently intended | confidence | as-written member | corrected member |
|---|---|---|---|---|---|---|
| EightPuzzle.java:147-164 | the outer loop passes a counter that is never written back, so the cap test on line 158 compares 0 with 10000 and never fires. Every round deeper than 10000 fails at the cap, so when no goal lies within 10000 steps the loop runs for ever. | the start board [[0,1,2],[3,4,5],[6,7,7]] with the blank at row 0, column 0. No goal is reachable from it, so no number of rounds returns. An unsolvable permutation does the same. | stop once the cap is reached, returning cost -1 and no path, like the other searches (the comment on line 150 and the unreachable return on line 160) | medium, not executed | Deepening.IdfsStuckForever | Deepening.IdfsBoundedCorrect |
