/** Whole episodes of the solver against small mazes. */
module Scenarios {
  import opened Wrappers
  import opened Stacks
  import opened Geometry
  import opened Transport
  import opened Icarus

  const AllWalls := Survey(true, true, true, true)

  /** A start cell whose only open edge is the bottom one. */
  const OnlyBottomOpen := Survey(true, true, false, true)

  /** A server that declares victory on the first move, whatever it is. */
  function VictoryOnFirstMove(log: seq<Direction>): (d: Delivery)
  {
    Delivered(Reply(AllWalls, |log| == 1))
  }

  /** With one open edge at the start and the exit behind it, the solver
      makes exactly one request and reports a solution of one step. */
  lemma SingleMoveVictory(fuel: nat)
    requires fuel >= 2
    ensures Iterate(OnlyBottomOpen, NewStack(100), VictoryOnFirstMove, fuel).verdict == Solved(1)
    ensures Iterate(OnlyBottomOpen, NewStack(100), VictoryOnFirstMove, fuel).final.log == [Down]
  {
    var e0 := Start(OnlyBottomOpen, NewStack(100));
    RunUnfold(e0, VictoryOnFirstMove, fuel);
    var e1 := Step(e0, VictoryOnFirstMove).engine;
    assert e1.log == [Down];
    RunUnfold(e1, VictoryOnFirstMove, fuel - 1);
  }

  /** When every edge of the start cell is walled, the solver reports no
      solution without making any move request, whatever the server. */
  lemma WalledInStart(auth: Authority, fuel: nat)
    requires fuel >= 1
    ensures Iterate(AllWalls, NewStack(100), auth, fuel).verdict == NoSolution
    ensures Iterate(AllWalls, NewStack(100), auth, fuel).final.log == []
  {
    RunUnfold(Start(AllWalls, NewStack(100)), auth, fuel);
  }

  /** A maze with a dead-end corridor of three cells below the start and the
      exit two cells to its right:

        (0,0) -> (1,0) -> (2,0) exit
          |
        (0,1)
          |
        (0,2)
          |
        (0,3) dead end
  */
  function DeadEndWalls(c: Coordinate): (s: Survey)
  {
    if c == Origin then Survey(true, false, false, true)
    else if c == Coordinate(0, 1) || c == Coordinate(0, 2) then Survey(false, true, false, true)
    else if c == Coordinate(0, 3) then Survey(false, true, true, true)
    else if c == Coordinate(1, 0) then Survey(true, false, true, false)
    else AllWalls
  }

  const DeadEndExit := Coordinate(2, 0)

  /** The server of that maze: it reports the walls of the cell the moves so
      far lead to, and victory when that cell is the exit. */
  function DeadEndServer(log: seq<Direction>): (d: Delivery)
  {
    var c := Replay(Origin, log);
    Delivered(Reply(DeadEndWalls(c), c == DeadEndExit))
  }

  /** The engine states after each pass of the loop in that maze. */
  const V3 := {Origin, Coordinate(0, 1), Coordinate(0, 2), Coordinate(0, 3)}
  const S0 := Engine(DeadEndWalls(Origin), Origin, {Origin}, Stack([]), None, [])
  const S1 := Engine(DeadEndWalls(Coordinate(0, 1)), Coordinate(0, 1), {Origin, Coordinate(0, 1)},
                     Stack([Down]), None, [Down])
  const S2 := Engine(DeadEndWalls(Coordinate(0, 2)), Coordinate(0, 2), {Origin, Coordinate(0, 1), Coordinate(0, 2)},
                     Stack([Down, Down]), None, [Down, Down])
  const S3 := Engine(DeadEndWalls(Coordinate(0, 3)), Coordinate(0, 3), V3,
                     Stack([Down, Down, Down]), None, [Down, Down, Down])
  const S4 := Engine(DeadEndWalls(Coordinate(0, 2)), Coordinate(0, 2), V3,
                     Stack([Down, Down]), None, [Down, Down, Down, Up])
  const S5 := Engine(DeadEndWalls(Coordinate(0, 1)), Coordinate(0, 1), V3,
                     Stack([Down]), None, [Down, Down, Down, Up, Up])
  const S6 := Engine(DeadEndWalls(Origin), Origin, V3,
                     Stack([]), None, [Down, Down, Down, Up, Up, Up])
  const S7 := Engine(DeadEndWalls(Coordinate(1, 0)), Coordinate(1, 0), V3 + {Coordinate(1, 0)},
                     Stack([Right]), None, [Down, Down, Down, Up, Up, Up, Right])
  const S8 := Engine(AllWalls, DeadEndExit, V3 + {Coordinate(1, 0), DeadEndExit},
                     Stack([Right, Right]), Some(ErrVictory), [Down, Down, Down, Up, Up, Up, Right, Right])

  /** Where each prefix of the episode's request log leads. */
  lemma DeadEndPositions()
    ensures Replay(Origin, [Down]) == Coordinate(0, 1)
    ensures Replay(Origin, [Down, Down]) == Coordinate(0, 2)
    ensures Replay(Origin, [Down, Down, Down]) == Coordinate(0, 3)
    ensures Replay(Origin, [Down, Down, Down, Up]) == Coordinate(0, 2)
    ensures Replay(Origin, [Down, Down, Down, Up, Up]) == Coordinate(0, 1)
    ensures Replay(Origin, [Down, Down, Down, Up, Up, Up]) == Origin
    ensures Replay(Origin, [Down, Down, Down, Up, Up, Up, Right]) == Coordinate(1, 0)
    ensures Replay(Origin, [Down, Down, Down, Up, Up, Up, Right, Right]) == DeadEndExit
  {
    var log := [Down, Down, Down, Up, Up, Up, Right, Right];
    ReplaySnoc(Origin, [], Down);
    assert [] + [Down] == [Down];
    forall k | 1 <= k < 8
      ensures Replay(Origin, log[..k + 1]) == Transform(Replay(Origin, log[..k]), log[k])
    {
      assert log[..k + 1] == log[..k] + [log[k]];
      ReplaySnoc(Origin, log[..k], log[k]);
    }
    assert log[..1] == [Down];
    assert log[..2] == [Down, Down];
    assert log[..3] == [Down, Down, Down];
    assert log[..4] == [Down, Down, Down, Up];
    assert log[..5] == [Down, Down, Down, Up, Up];
    assert log[..6] == [Down, Down, Down, Up, Up, Up];
    assert log[..7] == [Down, Down, Down, Up, Up, Up, Right];
    assert log[..8] == log;
  }

  // One lemma per pass of the loop, each followed from the state before.

  /** A pass that moves on to `e'` leaves the rest of the run to `e'`. */
  lemma RunNext(e: Engine, e': Engine, auth: Authority, fuel: nat)
    requires fuel > 0 && Step(e, auth) == Next(e')
    ensures Run(e, auth, fuel) == Run(e', auth, fuel - 1)
  {
    RunUnfold(e, auth, fuel);
  }

  lemma DeadEndPass0()
    ensures Step(S0, DeadEndServer) == Next(S1)
  {
    DeadEndPositions();
  }

  lemma DeadEndPass1()
    ensures Step(S1, DeadEndServer) == Next(S2)
  {
    DeadEndPositions();
  }

  lemma DeadEndPass2()
    ensures Step(S2, DeadEndServer) == Next(S3)
  {
    DeadEndPositions();
  }

  lemma DeadEndPass3()
    ensures Step(S3, DeadEndServer) == Next(S4)
  {
    DeadEndPositions();
  }

  lemma DeadEndPass4()
    ensures Step(S4, DeadEndServer) == Next(S5)
  {
    DeadEndPositions();
  }

  lemma DeadEndPass5()
    ensures Step(S5, DeadEndServer) == Next(S6)
  {
    DeadEndPositions();
  }

  lemma DeadEndPass6()
    ensures Step(S6, DeadEndServer) == Next(S7)
  {
    DeadEndPositions();
  }

  lemma DeadEndPass7()
    ensures Step(S7, DeadEndServer) == Next(S8)
  {
    DeadEndPositions();
  }

  lemma DeadEndPass8()
    ensures Step(S8, DeadEndServer) == Halt(Solved(2))
  {
  }

  /** The solver walks down the dead end, backs up its three steps, then
      takes the right-hand branch: the solution has two steps and the server
      sees three forward moves, three moves back and two forward moves. */
  lemma DeadEndThenBranch(fuel: nat)
    requires fuel >= 9
    ensures Iterate(DeadEndWalls(Origin), NewStack(100), DeadEndServer, fuel).verdict == Solved(2)
    ensures Iterate(DeadEndWalls(Origin), NewStack(100), DeadEndServer, fuel).final.log
              == [Down, Down, Down, Up, Up, Up, Right, Right]
  {
    assert Start(DeadEndWalls(Origin), NewStack(100)) == S0;
    DeadEndPass0();
    RunNext(S0, S1, DeadEndServer, fuel);
    DeadEndPass1();
    RunNext(S1, S2, DeadEndServer, fuel - 1);
    DeadEndPass2();
    RunNext(S2, S3, DeadEndServer, fuel - 2);
    DeadEndPass3();
    RunNext(S3, S4, DeadEndServer, fuel - 3);
    DeadEndPass4();
    RunNext(S4, S5, DeadEndServer, fuel - 4);
    DeadEndPass5();
    RunNext(S5, S6, DeadEndServer, fuel - 5);
    DeadEndPass6();
    RunNext(S6, S7, DeadEndServer, fuel - 6);
    DeadEndPass7();
    RunNext(S7, S8, DeadEndServer, fuel - 7);
    DeadEndPass8();
    RunUnfold(S8, DeadEndServer, fuel - 8);
  }
}
