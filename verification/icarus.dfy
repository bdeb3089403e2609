/** The solver's traversal engine: a depth-first search over an unknown maze
    in which every step, forward or back, is a move request to the server.

    The engine's state is the set of local variables of the solver loop
    (current survey, coordinate, visited set, breadcrumb stack and error),
    together with the log of move requests the server has received. */
module Icarus {
  import opened Wrappers
  import opened Stacks
  import opened Geometry
  import opened Transport

  /** The name of the move that undoes `move`; anything that is not one of
      the four direction names has no reverse and gives the empty string. */
  function ReverseMove(move: string): (r: string)
    ensures Parse(move).Some? ==> r == Name(Reverse(Parse(move).value))
    ensures Parse(move).None? ==> r == ""
  {
    if move == "down" then "up"
    else if move == "up" then "down"
    else if move == "right" then "left"
    else if move == "left" then "right"
    else ""
  }

  /** On the four direction names, reversing twice is the identity and
      reversing once always changes the name. */
  lemma ReverseMoveInvolution(move: string)
    requires Parse(move).Some?
    ensures ReverseMove(ReverseMove(move)) == move
    ensures ReverseMove(move) != move
    ensures Parse(ReverseMove(move)).Some?
  {
    var d := Parse(move).value;
    ParseName(Reverse(d));
    ReverseInvolution(d);
  }

  /** Reversing a direction's name names the reverse direction. */
  lemma ReverseMoveOfName(d: Direction)
    ensures ReverseMove(Name(d)) == Name(Reverse(d))
  {
    ParseName(d);
  }

  // ---------------------------------------------------------------------
  // Move selection

  /** The order in which directions are tried. */
  const Priority: seq<Direction> := [Down, Right, Up, Left]

  /** The position of `d` in `Priority`. */
  function Rank(d: Direction): (i: nat)
    ensures i < |Priority| && Priority[i] == d
  {
    match d
    case Down => 0
    case Right => 1
    case Up => 2
    case Left => 3
  }

  /** A direction is open when the survey shows no wall that way and the cell
      beyond has not been visited. */
  predicate Open(survey: Survey, visited: set<Coordinate>, co: Coordinate, d: Direction)
  {
    !Walled(survey, d) && Transform(co, d) !in visited
  }

  /** The first open direction in priority order (down, right, up, left), or
      `ErrNoMoveAllowed` when none is open. */
  function GetValidMove(survey: Survey, visited: set<Coordinate>, co: Coordinate): (r: Result<Direction, MoveError>)
    ensures r.Ok? ==> Open(survey, visited, co, r.value)
    ensures r.Ok? ==> forall d :: Rank(d) < Rank(r.value) ==> !Open(survey, visited, co, d)
    ensures r.Err? <==> forall d :: !Open(survey, visited, co, d)
    ensures r.Err? ==> r.error == ErrNoMoveAllowed
  {
    if Open(survey, visited, co, Down) then Ok(Down)
    else if Open(survey, visited, co, Right) then Ok(Right)
    else if Open(survey, visited, co, Up) then Ok(Up)
    else if Open(survey, visited, co, Left) then Ok(Left)
    else Err(ErrNoMoveAllowed)
  }

  /** A reference search: the first direction of `order` that is open. */
  function FirstOpen(order: seq<Direction>, survey: Survey, visited: set<Coordinate>, co: Coordinate): (r: Option<Direction>)
  {
    if |order| == 0 then None
    else if Open(survey, visited, co, order[0]) then Some(order[0])
    else FirstOpen(order[1..], survey, visited, co)
  }

  /** Move selection agrees with a linear search of `Priority`. */
  lemma GetValidMoveIsFirstOpen(survey: Survey, visited: set<Coordinate>, co: Coordinate)
    ensures GetValidMove(survey, visited, co).Ok? <==> FirstOpen(Priority, survey, visited, co).Some?
    ensures GetValidMove(survey, visited, co).Ok? ==>
              GetValidMove(survey, visited, co).value == FirstOpen(Priority, survey, visited, co).value
  {
    var p1, p2, p3 := [Right, Up, Left], [Up, Left], [Left];
    assert Priority[1..] == p1 && p1[1..] == p2 && p2[1..] == p3 && p3[1..] == [];
    assert FirstOpen([], survey, visited, co) == None;
    var f3 := FirstOpen(p3, survey, visited, co);
    assert f3 == if Open(survey, visited, co, Left) then Some(Left) else None;
    var f2 := FirstOpen(p2, survey, visited, co);
    assert f2 == if Open(survey, visited, co, Up) then Some(Up) else f3;
    var f1 := FirstOpen(p1, survey, visited, co);
    assert f1 == if Open(survey, visited, co, Right) then Some(Right) else f2;
    assert FirstOpen(Priority, survey, visited, co) == if Open(survey, visited, co, Down) then Some(Down) else f1;
  }

  // ---------------------------------------------------------------------
  // Engine state and one iteration of the solver loop

  datatype Engine = Engine(
    survey: Survey,
    co: Coordinate,
    visited: set<Coordinate>,
    crumbs: Stack<Direction>,
    err: Option<MoveError>,
    log: seq<Direction>)

  /** The engine's survey and error are the ones the reply to its latest
      request gives: a delivered reply sets the survey, with `ErrVictory`
      exactly on a victory and no error otherwise; a failed request leaves
      the empty survey and a transport error. */
  predicate Answered(e: Engine, auth: Authority)
  {
    && (auth(e.log).Delivered? ==>
          && e.survey == auth(e.log).reply.survey
          && (e.err == Some(ErrVictory) <==> auth(e.log).reply.victory)
          && (e.err.None? <==> !auth(e.log).reply.victory))
    && (auth(e.log).Unreachable? ==> e.survey == EmptySurvey && e.err == Some(ErrTransport))
  }

  /** Every request of `log` after the first `from` ones, except the
      latest, was answered by a delivered reply without victory. */
  predicate AnsweredOnward(auth: Authority, log: seq<Direction>, from: nat)
  {
    forall k :: from < k < |log| ==> auth(log[..k]).Delivered? && !auth(log[..k]).reply.victory
  }

  /** Takes the forward step `d`: records it on the breadcrumbs, requests
      the move, steps the coordinate and marks the new cell visited. The
      coordinate and the visited set are updated whatever the reply. */
  function ExecuteMove(e: Engine, d: Direction, auth: Authority): (e': Engine)
    ensures Len(e'.crumbs) == Len(e.crumbs) + 1
    ensures e'.crumbs.data[Len(e.crumbs)] == d && e'.crumbs.data[..Len(e.crumbs)] == e.crumbs.data
    ensures e'.co == Transform(e.co, d)
    ensures e'.visited == e.visited + {Transform(e.co, d)}
    ensures e'.log == e.log + [d]
    ensures e'.err != Some(ErrInvalidDirection) && e'.err != Some(ErrNoMoveAllowed)
    ensures Answered(e', auth)
  {
    MoveNamedDirection(d, auth, e.log);
    var crumbs := Push(e.crumbs, d);
    var reply := Move(Name(d), auth, e.log);
    var co := Transform(e.co, d);
    e.(survey := reply.survey, co := co, visited := e.visited + {co}, crumbs := crumbs,
       err := reply.err, log := reply.log)
  }

  /** How the solver loop ends: a solution with its number of steps, no
      solution, a failed request, or (in this model only) fuel exhausted. */
  datatype Verdict = Solved(steps: nat) | NoSolution | Failed(err: MoveError) | OutOfFuel

  datatype Tick = Halt(verdict: Verdict) | Next(engine: Engine)

  predicate Stuck(e: Engine)
  {
    forall d :: !Open(e.survey, e.visited, e.co, d)
  }

  /** One pass of the solver loop. A victory halts with the breadcrumb count
      as the step count and any other error halts as a failure. Otherwise
      the engine moves forward when a direction is open, backs up one step
      by requesting the reverse of the last breadcrumb when none is, and
      halts with no solution when none is open and no breadcrumb is left. */
  function Step(e: Engine, auth: Authority): (t: Tick)
    ensures t.Next? ==> |t.engine.log| == |e.log| + 1 && t.engine.log[..|e.log|] == e.log
  {
    if e.err == Some(ErrVictory) then Halt(Solved(Len(e.crumbs)))
    else if e.err.Some? then Halt(Failed(e.err.value))
    else match GetValidMove(e.survey, e.visited, e.co)
      case Ok(d) => Next(ExecuteMove(e, d, auth))
      case Err(_) =>
        var popped := Pop(e.crumbs);
        match popped.value
        case Err(_) => Halt(NoSolution)
        case Ok(top) =>
          var undo := Reverse(top);
          MoveNamedDirection(undo, auth, e.log);
          var reply := Move(Name(undo), auth, e.log);
          Next(e.(survey := reply.survey, err := reply.err, co := Transform(e.co, undo),
                  crumbs := popped.rest, log := reply.log))
  }

  /** What one pass does: the three ways it halts, each exactly when its
      condition holds; a forward step to the first open direction, whose
      cell was not visited; or, with no open direction, a step back that
      undoes the last breadcrumb and leaves the visited set alone. */
  lemma StepSpec(e: Engine, auth: Authority)
    ensures Step(e, auth) == Halt(Solved(Len(e.crumbs))) <==> e.err == Some(ErrVictory)
    ensures (Step(e, auth).Halt? && Step(e, auth).verdict.Failed?) <==> e.err.Some? && e.err != Some(ErrVictory)
    ensures Step(e, auth).Halt? && Step(e, auth).verdict.Failed? ==> Step(e, auth).verdict.err == e.err.value
    ensures Step(e, auth) == Halt(NoSolution) <==> e.err.None? && Stuck(e) && Len(e.crumbs) == 0
    ensures Step(e, auth).Next? ==> e.err.None?
    ensures Step(e, auth).Next? ==>
              Step(e, auth).engine.err != Some(ErrInvalidDirection) && Step(e, auth).engine.err != Some(ErrNoMoveAllowed)
    ensures Step(e, auth).Next? ==> Answered(Step(e, auth).engine, auth)
    ensures Step(e, auth).Next? && !Stuck(e) ==>
              var d := Step(e, auth).engine.log[|e.log|];
              && Open(e.survey, e.visited, e.co, d)
              && (forall d' :: Rank(d') < Rank(d) ==> !Open(e.survey, e.visited, e.co, d'))
              && Transform(e.co, d) !in e.visited
              && Step(e, auth).engine == ExecuteMove(e, d, auth)
    ensures Step(e, auth).Next? && Stuck(e) ==>
              var top := e.crumbs.data[Len(e.crumbs) - 1];
              && Len(e.crumbs) > 0
              && Step(e, auth).engine.crumbs.data == e.crumbs.data[..Len(e.crumbs) - 1]
              && Step(e, auth).engine.co == Transform(e.co, Reverse(top))
              && Step(e, auth).engine.visited == e.visited
              && Step(e, auth).engine.log == e.log + [Reverse(top)]
  {
    if e.err.None? {
      var m := GetValidMove(e.survey, e.visited, e.co);
      if m.Ok? {
        assert Step(e, auth).engine.log[|e.log|] == m.value;
      } else if Len(e.crumbs) > 0 {
        ParseName(Reverse(e.crumbs.data[Len(e.crumbs) - 1]));
      }
    }
  }

  /** The part of `StepSpec` the loop needs: when a pass halts and with
      which verdict, and that a pass which moves started without an error,
      keeps every visited cell and is answered by its request's reply. */
  lemma StepOutline(e: Engine, auth: Authority)
    ensures Step(e, auth) == Halt(Solved(Len(e.crumbs))) <==> e.err == Some(ErrVictory)
    ensures (Step(e, auth).Halt? && Step(e, auth).verdict.Failed?) <==> e.err.Some? && e.err != Some(ErrVictory)
    ensures Step(e, auth).Halt? && Step(e, auth).verdict.Failed? ==> Step(e, auth).verdict.err == e.err.value
    ensures Step(e, auth) == Halt(NoSolution) <==> e.err.None? && Stuck(e) && Len(e.crumbs) == 0
    ensures Step(e, auth).Next? ==>
              e.err.None? && e.visited <= Step(e, auth).engine.visited && Answered(Step(e, auth).engine, auth)
  {
    StepSpec(e, auth);
  }

  // ---------------------------------------------------------------------
  // The solver loop, bounded by fuel

  datatype Outcome = Outcome(verdict: Verdict, final: Engine)

  /** Runs the solver loop from `e` for at most `fuel` passes that move. */
  function Run(e: Engine, auth: Authority, fuel: nat): (r: Outcome)
    ensures e.visited <= r.final.visited
    ensures |e.log| <= |r.final.log| <= |e.log| + fuel && r.final.log[..|e.log|] == e.log
    ensures r.verdict == OutOfFuel <==> |r.final.log| == |e.log| + fuel
    ensures r.verdict.Solved? ==> r.final.err == Some(ErrVictory) && r.verdict.steps == Len(r.final.crumbs)
    ensures r.verdict == NoSolution ==> r.final.err.None? && Stuck(r.final) && Len(r.final.crumbs) == 0
    ensures r.verdict.Failed? ==> r.final.err == Some(r.verdict.err) && r.verdict.err != ErrVictory
    ensures e.err.None? && r.verdict.Failed? ==> r.verdict.err == ErrTransport
    ensures Inv(e) ==> Inv(r.final)
    ensures Inv(e) && Occupied(e) ==> Occupied(r.final)
    ensures |r.final.log| > |e.log| ==> e.err.None? && Answered(r.final, auth)
    ensures AnsweredOnward(auth, r.final.log, |e.log|)
    decreases fuel
  {
    StepOutline(e, auth);
    if fuel == 0 then Outcome(OutOfFuel, e)
    else match Step(e, auth)
      case Halt(v) => Outcome(v, e)
      case Next(e') =>
        StepInv(e, auth);
        StepOccupied(e, auth);
        var r := Run(e', auth, fuel - 1);
        AnsweredOnwardExtend(auth, e', r.final.log);
        r
  }

  /** A run that halts before its fuel is used up stops with the verdict
      of the next pass. */
  lemma {:induction false} RunHalts(e: Engine, auth: Authority, fuel: nat)
    ensures var r := Run(e, auth, fuel);
            r.verdict != OutOfFuel ==> Step(r.final, auth) == Halt(r.verdict)
    decreases fuel
  {
    RunUnfold(e, auth, fuel);
    if fuel > 0 && Step(e, auth).Next? {
      RunHalts(Step(e, auth).engine, auth, fuel - 1);
    }
  }

  /** The answered stretch of a run's log extends back to the request of
      the engine the run continued from, when the run went on to make
      another request: that engine is then free of errors, so its reply
      was delivered without victory. */
  lemma AnsweredOnwardExtend(auth: Authority, e': Engine, log: seq<Direction>)
    requires 0 < |e'.log| <= |log| && log[..|e'.log|] == e'.log
    requires AnsweredOnward(auth, log, |e'.log|)
    requires |log| > |e'.log| ==> e'.err.None?
    requires Answered(e', auth)
    ensures AnsweredOnward(auth, log, |e'.log| - 1)
  {
  }

  /** A request the server fails ends the run as a transport failure unless
      the fuel is used up, and a run started without an error fails on a
      transport error only when its latest request failed. */
  lemma RunTransportFailure(e: Engine, auth: Authority, fuel: nat)
    ensures var r := Run(e, auth, fuel);
            |r.final.log| > |e.log| && auth(r.final.log).Unreachable? ==>
              r.verdict == Failed(ErrTransport) || r.verdict == OutOfFuel
    ensures var r := Run(e, auth, fuel);
            e.err.None? && r.verdict == Failed(ErrTransport) ==> auth(r.final.log).Unreachable?
  {
    RunHalts(e, auth, fuel);
  }

  /** The engine as the solver loop starts it: at the origin, which is
      already marked visited, with no error. */
  function Start(survey: Survey, crumbs: Stack<Direction>): (e: Engine)
  {
    Engine(survey, Origin, {Origin}, crumbs, None, [])
  }

  /** The solver loop entered with the survey of the start cell and the
      caller's breadcrumb stack. */
  function Iterate(survey: Survey, crumbs: Stack<Direction>, auth: Authority, fuel: nat): (r: Outcome)
    ensures Origin in r.final.visited
    ensures |r.final.log| <= fuel
    ensures r.verdict.Solved? ==> r.verdict.steps == Len(r.final.crumbs)
    ensures r.verdict.Failed? ==> r.verdict.err == ErrTransport
    ensures r.verdict == NoSolution ==> Len(r.final.crumbs) == 0 && Stuck(r.final)
    ensures Len(crumbs) == 0 ==> Inv(r.final) && Occupied(r.final)
    ensures |r.final.log| > 0 ==> Answered(r.final, auth)
    ensures AnsweredOnward(auth, r.final.log, 0)
    ensures r.verdict.Failed? ==> auth(r.final.log).Unreachable?
    ensures |r.final.log| > 0 && auth(r.final.log).Unreachable? ==>
              r.verdict == Failed(ErrTransport) || r.verdict == OutOfFuel
  {
    StartInv(survey, crumbs);
    RunTransportFailure(Start(survey, crumbs), auth, fuel);
    Run(Start(survey, crumbs), auth, fuel)
  }

  /** The survey the solver starts from: the one the wake-up request returns,
      or the empty survey when that request fails. */
  function Awake(wake: Delivery): (s: Survey)
    ensures wake.Delivered? ==> s == wake.reply.survey
    ensures wake.Unreachable? ==> s == EmptySurvey
  {
    match wake
    case Delivered(rep) => rep.survey
    case Unreachable => EmptySurvey
  }

  /** One maze episode: wake up, then run the loop with a fresh stack. */
  function SolveMaze(wake: Delivery, auth: Authority, fuel: nat): (r: Outcome)
    ensures Inv(r.final)
    ensures r.verdict.Solved? ==> r.verdict.steps == Len(r.final.crumbs) && r.final.co == Replay(Origin, r.final.crumbs.data)
    ensures r.verdict == OutOfFuel ==> fuel + Len(r.final.crumbs) == 2 * (|r.final.visited| - 1)
    ensures r.final.co == Replay(Origin, r.final.log) && r.final.visited == Cells(Trail(Origin, r.final.log))
  {
    Iterate(Awake(wake), NewStack(100), auth, fuel)
  }

  // ---------------------------------------------------------------------
  // The path invariant

  /** The cells visited when starting at `c` and taking the moves of `ms` in
      order, the start cell first. */
  function Trail(c: Coordinate, ms: seq<Direction>): (tr: seq<Coordinate>)
    ensures |tr| == |ms| + 1 && tr[0] == c
    ensures forall i {:trigger ms[i]} :: 0 <= i < |ms| ==> tr[i + 1] == Transform(tr[i], ms[i])
    decreases |ms|
  {
    if |ms| == 0 then [c]
    else
      var prefix := Trail(c, ms[..|ms| - 1]);
      prefix + [Transform(prefix[|ms| - 1], ms[|ms| - 1])]
  }

  /** The cell reached from `c` by taking the moves of `ms` in order. */
  function Replay(c: Coordinate, ms: seq<Direction>): (c': Coordinate)
  {
    Trail(c, ms)[|ms|]
  }

  /** Extending the moves by one extends the trail by the cell that move
      leads to. */
  lemma TrailSnoc(c: Coordinate, ms: seq<Direction>, d: Direction)
    ensures Trail(c, ms + [d]) == Trail(c, ms) + [Transform(Replay(c, ms), d)]
  {
    assert (ms + [d])[..|ms|] == ms;
  }

  /** Replaying one more move steps once more from where the shorter replay
      ends. */
  lemma ReplaySnoc(c: Coordinate, ms: seq<Direction>, d: Direction)
    ensures Replay(c, ms + [d]) == Transform(Replay(c, ms), d)
  {
    TrailSnoc(c, ms, d);
  }

  /** The invariant of the solver loop started at the origin with an empty
      stack: the current cell is the origin replayed through the breadcrumbs;
      every cell on that path is visited and the path never repeats a cell;
      and every request so far was either a forward step to a newly visited
      cell or a step back, so that requests plus breadcrumbs count each
      visited cell other than the origin twice. */
  ghost predicate Inv(e: Engine)
  {
    var tr := Trail(Origin, e.crumbs.data);
    && Origin in e.visited
    && e.co == Replay(Origin, e.crumbs.data)
    && (forall i :: 0 <= i < |tr| ==> tr[i] in e.visited)
    && (forall i, j :: 0 <= i < j < |tr| ==> tr[i] != tr[j])
    && Len(e.crumbs) < |e.visited|
    && |e.log| + Len(e.crumbs) == 2 * (|e.visited| - 1)
    && e.err != Some(ErrInvalidDirection) && e.err != Some(ErrNoMoveAllowed)
  }

  /** The loop entered with an empty stack starts in the invariant. */
  lemma StartInv(survey: Survey, crumbs: Stack<Direction>)
    ensures Len(crumbs) == 0 ==> Inv(Start(survey, crumbs))
    ensures Occupied(Start(survey, crumbs))
  {
    var none: seq<Coordinate> := [];
    CellsMembers(none);
    assert Cells(none) == {};
    CellsSnoc(none, Origin);
    assert none + [Origin] == [Origin];
  }

  /** A forward step keeps the invariant: the new cell extends the path and
      is not yet on it because it was not visited. */
  lemma ForwardInv(e: Engine, d: Direction, auth: Authority)
    requires Inv(e)
    requires Transform(e.co, d) !in e.visited
    ensures Inv(ExecuteMove(e, d, auth))
  {
    var e' := ExecuteMove(e, d, auth);
    var ms := e.crumbs.data;
    assert e'.crumbs.data == ms + [d] by {
      assert e'.crumbs.data[..|ms|] == ms;
    }
    TrailSnoc(Origin, ms, d);
  }

  /** A backward step keeps the invariant: popping the last breadcrumb and
      stepping in its reverse returns to the cell the shortened path leads
      to, and the visited set is unchanged. */
  lemma BackwardInv(e: Engine, e': Engine)
    requires Inv(e) && Len(e.crumbs) > 0
    requires e'.crumbs.data == e.crumbs.data[..Len(e.crumbs) - 1]
    requires e'.co == Transform(e.co, Reverse(e.crumbs.data[Len(e.crumbs) - 1]))
    requires e'.visited == e.visited && |e'.log| == |e.log| + 1
    requires e'.err != Some(ErrInvalidDirection) && e'.err != Some(ErrNoMoveAllowed)
    ensures Inv(e')
  {
    var ms := e.crumbs.data;
    var rest := ms[..|ms| - 1];
    var top := ms[|ms| - 1];
    assert ms == rest + [top];
    TrailSnoc(Origin, rest, top);
    TransformReverse(Replay(Origin, rest), top);
    var trRest, tr := Trail(Origin, rest), Trail(Origin, ms);
    assert trRest == tr[..|ms|];
  }

  /** Every pass of the loop that moves keeps the invariant. */
  lemma StepInv(e: Engine, auth: Authority)
    ensures Inv(e) && Step(e, auth).Next? ==> Inv(Step(e, auth).engine)
  {
    if Inv(e) && Step(e, auth).Next? {
      StepSpec(e, auth);
      if Stuck(e) {
        BackwardInv(e, Step(e, auth).engine);
      } else {
        ForwardInv(e, Step(e, auth).engine.log[|e.log|], auth);
      }
    }
  }

  /** The cells a trail passes through. */
  function Cells(tr: seq<Coordinate>): (s: set<Coordinate>)
  {
    set i | 0 <= i < |tr| :: tr[i]
  }

  /** A cell is among a trail's cells exactly when some position of the
      trail holds it. */
  lemma CellsMembers(tr: seq<Coordinate>)
    ensures forall i :: 0 <= i < |tr| ==> tr[i] in Cells(tr)
    ensures forall c :: c in Cells(tr) ==> exists i :: 0 <= i < |tr| && tr[i] == c
  {
  }

  lemma CellsSnoc(tr: seq<Coordinate>, c: Coordinate)
    ensures Cells(tr + [c]) == Cells(tr) + {c}
  {
    var tr' := tr + [c];
    CellsMembers(tr);
    CellsMembers(tr');
    assert forall i :: 0 <= i < |tr| ==> tr'[i] == tr[i];
    assert tr'[|tr|] == c;
  }

  /** The second invariant of the solver loop: the coordinate is where the
      requests so far lead from the origin, and a cell is visited exactly
      when those requests have led through it. */
  ghost predicate Occupied(e: Engine)
  {
    e.co == Replay(Origin, e.log) && e.visited == Cells(Trail(Origin, e.log))
  }

  /** A forward step enters the cell its request leads to and marks exactly
      that cell visited. */
  lemma ForwardOccupied(e: Engine, d: Direction, auth: Authority)
    requires Occupied(e)
    ensures Occupied(ExecuteMove(e, d, auth))
  {
    TrailSnoc(Origin, e.log, d);
    CellsSnoc(Trail(Origin, e.log), Transform(e.co, d));
  }

  /** A backward step returns to a cell on the breadcrumb path, which was
      visited already, so the visited set is still the set of cells the
      requests have led through. */
  lemma BackwardOccupied(e: Engine, e': Engine)
    requires Inv(e) && Occupied(e) && Len(e.crumbs) > 0
    requires e'.log == e.log + [Reverse(e.crumbs.data[Len(e.crumbs) - 1])]
    requires e'.co == Transform(e.co, Reverse(e.crumbs.data[Len(e.crumbs) - 1]))
    requires e'.visited == e.visited
    ensures Occupied(e')
  {
    var ms := e.crumbs.data;
    var rest := ms[..|ms| - 1];
    var top := ms[|ms| - 1];
    assert ms == rest + [top];
    TrailSnoc(Origin, rest, top);
    TransformReverse(Replay(Origin, rest), top);
    assert e'.co == Trail(Origin, ms)[|rest|];
    TrailSnoc(Origin, e.log, Reverse(top));
    CellsSnoc(Trail(Origin, e.log), e'.co);
  }

  /** Every pass of the loop that moves keeps both invariants. */
  lemma StepOccupied(e: Engine, auth: Authority)
    ensures Inv(e) && Occupied(e) && Step(e, auth).Next? ==> Occupied(Step(e, auth).engine)
  {
    if Inv(e) && Occupied(e) && Step(e, auth).Next? {
      StepSpec(e, auth);
      if Stuck(e) {
        BackwardOccupied(e, Step(e, auth).engine);
      } else {
        ForwardOccupied(e, Step(e, auth).engine.log[|e.log|], auth);
      }
    }
  }

  /** A run halts where it starts when fuel is gone or the first pass halts,
      and otherwise continues as the run from the next state. */
  lemma RunUnfold(e: Engine, auth: Authority, fuel: nat)
    ensures fuel == 0 ==> Run(e, auth, fuel) == Outcome(OutOfFuel, e)
    ensures fuel > 0 && Step(e, auth).Halt? ==> Run(e, auth, fuel) == Outcome(Step(e, auth).verdict, e)
    ensures fuel > 0 && Step(e, auth).Next? ==>
              Run(e, auth, fuel) == Run(Step(e, auth).engine, auth, fuel - 1)
  {
  }

  /** While the invariant holds, the breadcrumbs never contain a move
      immediately followed by its reverse: forward steps never re-enter a
      visited cell, and a step back removes its breadcrumb. */
  lemma NoImmediateReversal(e: Engine, i: nat)
    requires Inv(e)
    requires i + 1 < Len(e.crumbs)
    ensures e.crumbs.data[i + 1] != Reverse(e.crumbs.data[i])
  {
    var tr := Trail(Origin, e.crumbs.data);
    TransformReverse(tr[i], e.crumbs.data[i]);
    assert tr[i] != tr[i + 2];
  }
}
