# Icarus maze solver — a Dafny model

This project models the traversal engine of the Icarus maze solver and the
breadcrumb stack it uses. Icarus wakes up in a dark labyrinth run by a maze
server (Daedalus). In each cell the server tells it only which of the four
edges are walled. Icarus searches depth first. It tries the directions down,
right, up and left, in that order, and never steps into a cell it has already
visited. When no direction is open, it pops its last move off the breadcrumb
stack and asks the server to move it the opposite way. The episode ends when
the server signals victory, when a request fails, or when Icarus is back at
the start with no breadcrumbs left (no solution).

Files and modules:

- `wrappers.dfy` (`Wrappers`): `Option` and `Result`.
- `stack.dfy` (`Stacks`): the LIFO stack, `NewStack`, `Len`, `Push`, `Pop`,
  `ErrEmptyStack`, and a call-history model used to count its length.
- `geometry.dfy` (`Geometry`): directions, their wire names, `Reverse`,
  coordinates and `Transform`, surveys and which survey flag each direction
  crosses.
- `transport.dfy` (`Transport`): `Move`, meaning the direction check and the
  mapping of a server reply to a survey and an error. The server is an
  `Authority`: a function from the log of moves requested so far to a
  delivered reply or a failure.
- `icarus.dfy` (`Icarus`): `ReverseMove`, `GetValidMove`, `ExecuteMove`, one
  pass of the solver loop (`Step`), the loop itself bounded by fuel (`Run`,
  `Iterate`, `SolveMaze`), and the path invariant.
- `scenarios.dfy` (`Scenarios`): three whole episodes against small mazes.

Modelling choices:

- The maze library defines the coordinate type, its move transform and the
  survey in a file that is not part of this model. `geometry.dfy` defines its
  own versions of all three. The delta convention is chosen here: down is +y, up is −y, right is +x, left is
  −x, and the start cell is (0, 0). `TransformReverse` is proved for this
  convention. It is an assumption about the maze library, not a fact taken
  from it.
- Survey flags map to directions as the move selection reads them: down
  crosses `bottom`, right crosses `right`, up crosses `top`, and left crosses
  `left`.
- The stack in the source holds `interface{}`. The only values ever pushed
  are the results of `getValidMove`, so the model uses a stack of
  `Direction`. The `undoObj.(string)` type assertion therefore always
  succeeds. The string-level `ReverseMove` is modelled on its own and proved
  to agree with `Reverse` on the four names (`ReverseMoveOfName`).
- The engine state is the solver loop's local variables: survey, coordinate,
  visited set, breadcrumbs and `err`. The model adds the log of requests the
  server has received, so that "no further request" can be stated.
- `executeMove` pushes the move, steps the coordinate and marks the cell
  visited even when the request fails. The model does the same. The loop
  stops on the next pass.
- The reported step count is the number of breadcrumbs at victory. This is
  the length of the path found, not the number of moves requested.
  Backtracking moves are not counted. `DeadEndThenBranch` shows a solution of
  2 steps that took 8 requests.

## Model

| member | source | states |
|---|---|---|
| Stacks.NewStack | mazelib/stack.go:12-15 | a new stack is empty whatever capacity is requested |
| Stacks.Len | mazelib/stack.go:17-20 | the length is zero exactly when the stack holds no element; `LenCountsOperations` ties it to the pushes and successful pops |
| Stacks.Push | mazelib/stack.go:22-25 | the length grows by one, the pushed value is on top, every earlier element is unchanged; capacity does not bound pushes |
| Stacks.Pop | mazelib/stack.go:27-35 | on a non-empty stack: the most recently pushed element, no error, length down by one, the rest unchanged; on an empty stack: `ErrEmptyStack` and the stack unchanged |
| Stacks.PushPopRoundTrip | mazelib/stack.go:23-35 | a push followed by a pop returns the pushed value and restores the original stack |
| Stacks.PopPushRoundTrip | mazelib/stack.go:23-35 | a successful pop followed by pushing the value back restores the stack |
| Stacks.LenCountsOperations | mazelib/stack.go:17-35 | after any sequence of pushes and pops, the length is the initial length plus the pushes minus the pops that returned an element |
| Stacks.NewStackLenCountsOperations | mazelib/stack.go:13-35 | from a new stack, the length is exactly the pushes minus the successful pops |
| Geometry.Parse | commands/icarus.go:77 | exactly "left", "right", "up" and "down" are accepted as directions, each read back to its own name |
| Geometry.Reverse | commands/icarus.go:192-204 | no direction is its own reverse |
| Geometry.ReverseInvolution | commands/icarus.go:192-204 | reversing a direction twice gives it back |
| Geometry.TransformReverse | commands/icarus.go:150-154 | stepping in a direction and then in its reverse returns to the start cell (the convention that backtracking relies on) |
| Geometry.TransformDistinct | commands/icarus.go:176-185 | a fact of the chosen delta convention: the four neighbours that move selection tests are four distinct cells, none of them the cell itself |
| Transport.Move | commands/icarus.go:76-96 | a string outside the four names is refused with an invalid-direction error and the empty survey, with no request made; otherwise exactly one request is made, a victory reply gives its survey and `ErrVictory`, any other reply gives its survey and no error, and a failed request gives a transport error |
| Transport.MoveNamedDirection | commands/icarus.go:77-79 | a request for any direction name always reaches the server and is never refused as invalid |
| Icarus.ReverseMove | commands/icarus.go:190-204 | down and up, and right and left, are swapped; any other string gives "" |
| Icarus.ReverseMoveInvolution | commands/icarus.go:192-204 | on the four names, reversing twice gives the name back, reversing once always changes it, and the result is again a name |
| Icarus.ReverseMoveOfName | commands/icarus.go:150-153 | reversing a breadcrumb's name names the reverse direction, which is the move that backtracking requests |
| Icarus.GetValidMove | commands/icarus.go:174-189 | a returned direction has no wall in the survey and leads to an unvisited cell, and every direction earlier in the order down, right, up, left fails one of the two tests; "no move is allowed" is returned exactly when no direction passes both |
| Icarus.GetValidMoveIsFirstOpen | commands/icarus.go:175-189 | move selection agrees with a linear search of the priority list for the first open direction |
| Icarus.ExecuteMove | commands/icarus.go:162-173 | exactly the given move is pushed (length +1, it is on top, the rest unchanged), the coordinate steps by it, that cell is added to the visited set and nothing is removed, and one request is made whose reply sets the survey and the error (`Answered`: a delivered reply's survey, `ErrVictory` exactly on victory and otherwise no error; a failed request gives the empty survey and a transport error) |
| Icarus.Step | commands/icarus.go:145-154 | each pass that continues the loop makes exactly one request |
| Icarus.StepSpec | commands/icarus.go:134-160 | a pass halts as solved with the breadcrumb count exactly on a victory error; it halts as failed exactly on any other error; it halts with no solution exactly when no direction is open and the stack is empty, making no request; otherwise it steps forward to the first open direction, whose cell was unvisited, or, with none open, pops the last breadcrumb, requests its reverse, steps the coordinate back and leaves the visited set unchanged; after either move the survey and the error are the ones the reply to that request gives, so a backtrack never keeps the old survey and a failed backtrack request leaves a transport error |
| Icarus.StepOutline | commands/icarus.go:134-158 | the halting conditions of a pass, and that a pass which moves starts without an error, keeps every visited cell and is answered by its request's reply |
| Icarus.Run | commands/icarus.go:126-161 | the visited set never shrinks and the request log only grows; a solution reports the breadcrumb count; no solution leaves an empty stack with no open direction; a loop started without an error fails only on a transport error; the path invariant is kept, and so is the occupied-cells invariant while the path invariant holds; a run that made a request ends answered by its latest reply, and every earlier request of the run was answered without victory |
| Icarus.RunHalts | commands/icarus.go:134-158 | a run that stops before its fuel is used up stops with the verdict of the next pass |
| Icarus.RunTransportFailure | commands/icarus.go:141-167 | a request the server fails, forward or backward, ends the run as a transport failure unless the fuel is used up; a run started without an error fails on a transport error only when its latest request failed |
| Icarus.Iterate | commands/icarus.go:126-161 | the start cell is visited; at most `fuel` requests are made; a solution's step count is the breadcrumb count; the only failure is a transport error; no solution happens only with an empty stack and no open direction; started on an empty stack, the path invariant and the occupied-cells invariant hold wherever the loop stops; every request but the latest was answered without victory; a failure means the latest request failed, and a failed request ends the loop as a failure unless the fuel is used up |
| Icarus.SolveMaze | commands/icarus.go:119-124 | with a fresh stack the path invariant holds wherever the loop stops; at a solution the coordinate is the start cell replayed through the breadcrumbs; in a run cut short by fuel, the passes made plus the breadcrumbs equal twice the number of visited cells other than the start; the coordinate is where the requests lead and a cell is visited exactly when the requests have led through it |
| Icarus.Awake | commands/icarus.go:64-71 | the starting survey is the wake-up reply's survey, or the empty survey when the wake-up request fails |
| Icarus.StartInv | commands/icarus.go:128-133 | the loop starts at (0,0), already marked visited, with a fresh stack, satisfying the path invariant; whatever the stack, it satisfies the occupied-cells invariant |
| Icarus.ForwardInv | commands/icarus.go:164-172 | a forward step into an unvisited cell keeps the path invariant |
| Icarus.BackwardInv | commands/icarus.go:150-154 | popping a breadcrumb and stepping in its reverse, with the visited set unchanged and one more request, keeps the path invariant: the coordinate is again the start cell replayed through the shorter stack |
| Icarus.ForwardOccupied | commands/icarus.go:164-172 | a forward step marks visited exactly the cell its request leads to |
| Icarus.BackwardOccupied | commands/icarus.go:150-154 | a backward step returns to a cell on the breadcrumb path, already visited, so the visited set is still the set of cells the requests have led through |
| Icarus.StepOccupied | commands/icarus.go:145-158 | every pass of the loop that moves keeps the occupied-cells invariant while the path invariant holds |
| Icarus.StepInv | commands/icarus.go:145-158 | every pass of the loop that moves keeps the path invariant |
| Icarus.NoImmediateReversal | commands/icarus.go:145-154 | the breadcrumbs never hold a move directly followed by its reverse |
| Scenarios.SingleMoveVictory | commands/icarus.go:134-149 | with one open edge at the start and the exit behind it, exactly one request is made and a one-step solution is reported |
| Scenarios.WalledInStart | commands/icarus.go:145-157 | with every edge of the start cell walled, no request is made and no solution is reported |
| Scenarios.DeadEndThenBranch | commands/icarus.go:126-161 | after a three-cell dead end and a two-cell branch to the exit, the solution has two steps, reached by three forward moves, three moves back and two forward moves |

The path invariant (`Icarus.Inv`) covers a loop started at (0,0) with an
empty stack. It has four parts:

- The current coordinate is (0,0) replayed through the breadcrumbs, bottom to
  top.
- Every cell on that path is visited, and the path never repeats a cell.
- The stack is shorter than the visited set.
- Requests made plus breadcrumbs equal twice the number of visited cells
  other than the start. Each cell is entered once forward and left once
  backward.

A second invariant (`Icarus.Occupied`) holds when the loop starts, whatever
the stack. Each pass keeps it while the path invariant holds, so it holds
throughout a loop started with an empty stack. The coordinate is (0,0) replayed through the whole request log, and a
cell is visited exactly when that replay passes through it. No visited cell
was never entered, and no entered cell is missing from the visited set.

## Left out

- HTTP: `makeRequest`, `awake`'s request, the HTTP part of `Move`, and the
  `/done` call in `RunIcarus`. The server is an abstract function from the
  request log to a reply, and the wake-up reply is a parameter of `SolveMaze`.
- `ToReply` and JSON decoding. Undecodable bytes reach the solver as the zero
  reply, which is just another reply the abstract server may deliver. The
  reply's human-readable message is dropped.
- The `icarus` command, `init`, the configuration lookups for `times` and
  `port`, and `RunIcarus`'s loop over episodes. These are CLI and
  configuration plumbing. Every episode starts from a fresh state, as
  `SolveMaze` does.
- Logging with `fmt.Print*`.
- The maze library's own file defining the coordinate, survey, reply and
  `ErrVictory` is not part of this model. `geometry.dfy` and `transport.dfy`
  define their own versions with the same shape, using the delta convention
  stated above.
- Icarus.Run: the source loop is `for true`. The model runs it for at most
  `fuel` passes that move. It reports `OutOfFuel` as soon as `fuel` requests
  have been made, even when the next pass would halt. It proves no
  unconditional termination. `SolveMaze` proves that a run cut short has
  `fuel + breadcrumbs == 2 * (visited − 1)`. If the server answers as one
  fixed maze whose reachable part has N cells, this means at most 2(N − 1)
  requests, so fuel 2N − 1 suffices. The server here is an arbitrary
  function of the request log, so this bound is not a lemma of the model.
- Icarus.Iterate: the path invariant is stated only for an empty starting stack, such as the one
  `solveMaze` passes in. Started on a non-empty stack, the source backtracks
  through moves it never made, and the model states only the weaker facts
  listed in its row.
- The stack's capacity has no effect. It is an allocation hint and never
  bounds the number of pushes.
