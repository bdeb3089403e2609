/** The move request of the solver: validation of the direction and the
    translation of the maze server's reply into a survey and an error value.

    The HTTP round trip and the JSON decoding are not modelled. The server is
    an `Authority`: given every move requested so far in the episode, the
    current one last, it either delivers a decoded reply or fails. A reply
    that does not decode reaches the solver as the all-zero reply, so it is
    just another delivered reply here. */
module Transport {
  import opened Wrappers
  import opened Geometry

  /** The errors the solver's `err` variable can hold. `ErrVictory` is the
      server's signal that the exit was reached, not a failure. */
  datatype MoveError =
    | ErrVictory
    | ErrInvalidDirection
    | ErrNoMoveAllowed
    | ErrTransport

  /** A decoded server reply (its human-readable message is left out). */
  datatype Reply = Reply(survey: Survey, victory: bool)

  datatype Delivery = Delivered(reply: Reply) | Unreachable

  type Authority = seq<Direction> -> Delivery

  /** The outcome of a move request, and the log of requests the server has
      received once it is done. */
  datatype MoveResult = MoveResult(survey: Survey, err: Option<MoveError>, log: seq<Direction>)

  /** Requests a move in `direction`. A string that is not one of the four
      direction names is refused before the server is contacted; otherwise
      exactly one request is made and its reply is mapped to a survey and
      an error: a victory reply gives `ErrVictory`, any other reply no error,
      and a failed request `ErrTransport` with the empty survey. */
  function Move(direction: string, auth: Authority, log: seq<Direction>): (r: MoveResult)
    ensures Parse(direction).None? ==> r == MoveResult(EmptySurvey, Some(ErrInvalidDirection), log)
    ensures Parse(direction).Some? ==> r.log == log + [Parse(direction).value]
    ensures Parse(direction).Some? && auth(r.log).Delivered? ==>
              r.survey == auth(r.log).reply.survey
              && (r.err == Some(ErrVictory) <==> auth(r.log).reply.victory)
              && (r.err.None? <==> !auth(r.log).reply.victory)
    ensures Parse(direction).Some? && auth(r.log).Unreachable? ==>
              r == MoveResult(EmptySurvey, Some(ErrTransport), r.log)
    ensures r.err != Some(ErrNoMoveAllowed)
  {
    match Parse(direction)
    case None => MoveResult(EmptySurvey, Some(ErrInvalidDirection), log)
    case Some(d) =>
      var log' := log + [d];
      match auth(log')
      case Unreachable => MoveResult(EmptySurvey, Some(ErrTransport), log')
      case Delivered(rep) =>
        if rep.victory then MoveResult(rep.survey, Some(ErrVictory), log')
        else MoveResult(rep.survey, None, log')
  }

  /** A request for any of the four named directions is never refused as
      invalid and always reaches the server. */
  lemma MoveNamedDirection(d: Direction, auth: Authority, log: seq<Direction>)
    ensures Move(Name(d), auth, log).log == log + [d]
    ensures Move(Name(d), auth, log).err != Some(ErrInvalidDirection)
  {
    ParseName(d);
  }
}
