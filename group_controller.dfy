/**
 * `GroupController.addUserToGroup`: the HTTP response for each outcome of
 * the service call, by the order of its `catch` clauses.
 */
module GroupController {
  import opened Wrappers
  import opened Text
  import opened Domain
  import opened GroupService

  datatype Response = Response(status: int, body: string)

  const OK := 200
  const BAD_REQUEST := 400
  const FORBIDDEN := 403
  const NOT_FOUND := 404
  const INTERNAL_SERVER_ERROR := 500

  /** The first `catch` clause whose class the exception belongs to answers. */
  function AddUserResponse(outcome: Result<Done, Exception>): (resp: Response)
    ensures resp.status in {OK, BAD_REQUEST, FORBIDDEN, NOT_FOUND, INTERNAL_SERVER_ERROR}
    ensures resp.status == OK <==> outcome.Ok?
    ensures outcome.Ok? ==> resp.body == "User added to group successfully"
    ensures outcome.Err? ==> var m := outcome.error.message;
                             |m| <= |resp.body| && resp.body[|resp.body| - |m|..] == m
    ensures resp.status == FORBIDDEN <==> outcome.Err? && outcome.error.Security?
    ensures resp.status == INTERNAL_SERVER_ERROR <==> outcome.Err? && outcome.error.Checked?
    ensures resp.status == NOT_FOUND <==>
              outcome.Err? && (outcome.error.Runtime? || outcome.error.Arithmetic?) &&
              Contains(outcome.error.message, "not found")
    ensures outcome.Err? && outcome.error.IllegalArgument? ==>
              resp == Response(BAD_REQUEST, "Invalid request: " + outcome.error.message)
    ensures outcome.Err? && outcome.error.Security? ==>
              resp == Response(FORBIDDEN, "Access denied: " + outcome.error.message)
    ensures outcome.Err? && (outcome.error.Runtime? || outcome.error.Arithmetic?) ==>
              resp == RuntimeResponse(outcome.error.message)
    ensures outcome.Err? && outcome.error.Checked? ==>
              resp == Response(INTERNAL_SERVER_ERROR, "Internal server error: " + outcome.error.message)
  {
    match outcome
    case Ok(_) => Response(OK, "User added to group successfully")
    case Err(e) =>
      match e
      case IllegalArgument(m) => Response(BAD_REQUEST, "Invalid request: " + m)
      case Security(m) => Response(FORBIDDEN, "Access denied: " + m)
      case Runtime(m) => RuntimeResponse(m)
      case Arithmetic(m) => RuntimeResponse(m)
      case Checked(m) => Response(INTERNAL_SERVER_ERROR, "Internal server error: " + m)
  }

  /** The `catch (RuntimeException e)` clause. */
  function RuntimeResponse(m: string): (resp: Response)
    ensures resp.status == NOT_FOUND <==> Contains(m, "not found")
    ensures resp.status == NOT_FOUND ==> resp.body == "Resource not found: " + m
    ensures resp.status != NOT_FOUND ==> resp == Response(BAD_REQUEST, "Error: " + m)
  {
    if Contains(m, "not found") then Response(NOT_FOUND, "Resource not found: " + m)
    else Response(BAD_REQUEST, "Error: " + m)
  }

  /**
   * What the endpoint answers for the errors the service's checks raise: a
   * requester without permission gets 403, an existing membership 400, and
   * none of them gives 500.
   */
  lemma {:induction false} AddUserStatuses(outcome: Result<Done, Exception>)
    requires outcome.Err? ==> outcome.error in AdmissionErrors
    ensures AddUserResponse(outcome).status != INTERNAL_SERVER_ERROR
    ensures outcome.Err? && outcome.error.Security? ==>
              AddUserResponse(outcome) ==
              Response(FORBIDDEN, "Access denied: " + "You don't have permission to add members to this group")
    ensures outcome.Err? && outcome.error.IllegalArgument? ==>
              AddUserResponse(outcome) == Response(BAD_REQUEST, "Invalid request: " + "User is already a member of this group")
  {
  }

  /** A missing requester, user or group answers 404 with the service's message. */
  lemma NotFoundStatuses()
    ensures AddUserResponse(Err(Runtime("Current user not found"))) ==
            Response(NOT_FOUND, "Resource not found: " + "Current user not found")
    ensures AddUserResponse(Err(Runtime("User not found"))) ==
            Response(NOT_FOUND, "Resource not found: " + "User not found")
    ensures AddUserResponse(Err(Runtime("Group not found"))) ==
            Response(NOT_FOUND, "Resource not found: " + "Group not found")
  {
    assert OccursAt("Current user not found", "not found", 13);
    assert OccursAt("User not found", "not found", 5);
    assert OccursAt("Group not found", "not found", 6);
  }
}
