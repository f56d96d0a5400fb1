/**
 * The three error-handling middlewares and the chain the application installs
 * them in: invalid input, then custom errors, then internal errors.
 */
module ErrorHandlers {
  import opened Wrappers
  import opened Errors

  /** What a handler does with an error: answer with a status and message, or call `next(err)`. */
  datatype Step = Reply(status: int, msg: string) | Next(err: ErrorValue)

  /** The database codes the first handler recognises, and their messages. */
  const ErrorCodes: map<string, string> := map[
    InvalidTextRepresentation := "invalid input",
    ForeignKeyViolation := "invalid input"
  ]

  function HandleInvalidInput(err: ErrorValue): (s: Step)
    ensures err.code == "" ==> s == Next(err)
    ensures err.code != "" && err.code in {InvalidTextRepresentation, ForeignKeyViolation} ==>
      s == Reply(400, "invalid input")
    ensures err.code !in {InvalidTextRepresentation, ForeignKeyViolation} ==> s == Next(err)
  {
    if err.code == "" then Next(err)
    else if err.code in ErrorCodes && ErrorCodes[err.code] != "" then Reply(400, ErrorCodes[err.code])
    else Next(err)
  }

  function HandleCustomErrors(err: ErrorValue): (s: Step)
    ensures s.Reply? <==> err.status != 0 && err.msg != ""
    ensures s.Reply? ==> s == Reply(err.status, err.msg)
    ensures s.Next? ==> s.err == err
  {
    if err.status != 0 && err.msg != "" then Reply(err.status, err.msg) else Next(err)
  }

  function HandleInternalErrors(err: ErrorValue): (s: Step)
    ensures s == Reply(500, "internal server error")
  {
    Reply(500, "internal server error")
  }

  datatype Handler = InvalidInput | CustomErrors | InternalErrors

  function Apply(h: Handler, err: ErrorValue): Step
  {
    match h
    case InvalidInput => HandleInvalidInput(err)
    case CustomErrors => HandleCustomErrors(err)
    case InternalErrors => HandleInternalErrors(err)
  }

  /** Pass the error down a chain of handlers; `None` when every handler calls `next`. */
  function Dispatch(chain: seq<Handler>, err: ErrorValue): Option<(int, string)>
  {
    if chain == [] then None
    else match Apply(chain[0], err)
      case Reply(status, msg) => Some((status, msg))
      case Next(e) => Dispatch(chain[1..], e)
  }

  /** The order in which the application registers the handlers. */
  const AppChain: seq<Handler> := [InvalidInput, CustomErrors, InternalErrors]

  /** A chain that ends with the internal-errors handler answers every error. */
  lemma {:induction false} EndingWithInternalIsTotal(chain: seq<Handler>, err: ErrorValue)
    ensures Dispatch(chain + [InternalErrors], err).Some?
  {
    if chain == [] {
      assert [] + [InternalErrors] == [InternalErrors];
    } else {
      assert (chain + [InternalErrors])[1..] == chain[1..] + [InternalErrors];
      match Apply(chain[0], err)
      case Reply(_, _) =>
      case Next(e) => EndingWithInternalIsTotal(chain[1..], e);
    }
  }

  /** The response the application's chain gives an error. */
  function Respond(err: ErrorValue): (int, string)
  {
    EndingWithInternalIsTotal([InvalidInput, CustomErrors], err);
    assert [InvalidInput, CustomErrors] + [InternalErrors] == AppChain;
    Dispatch(AppChain, err).value
  }

  /**
   * The chain as one table: a recognised database code gives 400 "invalid input"
   * whatever else the error carries; otherwise an error with a status and a
   * message is answered with them; anything else is a 500.
   */
  lemma RespondClassifies(err: ErrorValue)
    ensures err.code in {InvalidTextRepresentation, ForeignKeyViolation} ==>
      Respond(err) == (400, "invalid input")
    ensures err.code !in {InvalidTextRepresentation, ForeignKeyViolation} && err.status != 0 && err.msg != "" ==>
      Respond(err) == (err.status, err.msg)
    ensures err.code !in {InvalidTextRepresentation, ForeignKeyViolation} && !(err.status != 0 && err.msg != "") ==>
      Respond(err) == (500, "internal server error")
  {
    assert AppChain[1..] == [CustomErrors, InternalErrors];
    assert [CustomErrors, InternalErrors][1..] == [InternalErrors];
    if HandleInvalidInput(err).Next? {
      assert Dispatch(AppChain, err) == Dispatch([CustomErrors, InternalErrors], err);
      if HandleCustomErrors(err).Next? {
        assert Dispatch([CustomErrors, InternalErrors], err) == Dispatch([InternalErrors], err);
      }
    }
  }

  /** A rejection the core builds itself is answered with its own status and message. */
  lemma RespondToRejection(status: int, msg: string)
    requires status != 0 && msg != ""
    ensures Respond(Rejection(status, msg)) == (status, msg)
  {
    RespondClassifies(Rejection(status, msg));
  }

  /**
   * The order matters: were the custom handler first, a foreign-key error that
   * also carried a status and a message would be answered with those instead.
   */
  lemma ChainOrderMatters()
    ensures Respond(ErrorValue(ForeignKeyViolation, 404, "x")) == (400, "invalid input")
    ensures Dispatch([CustomErrors, InvalidInput, InternalErrors], ErrorValue(ForeignKeyViolation, 404, "x")) == Some((404, "x"))
  {
  }
}
