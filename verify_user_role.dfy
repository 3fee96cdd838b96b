/** verifyUserRole: the admin gate, run after verifyToken. Its only input is the role verifyToken
    attached to the request, and it changes nothing on the request. */
module VerifyUserRole {
  import opened VerifyToken

  const NoUserMessage := "Unauthorized: No user found"
  const AdminsOnlyMessage := "Forbidden: Admins only"

  function VerifyUserRole(userRole: string): (r: GateOutcome)
    ensures r.Next? <==> userRole == "admin"
    ensures userRole == "" ==> r == Respond(401, NoUserMessage)
    ensures userRole != "" && userRole != "admin" ==> r == Respond(403, AdminsOnlyMessage)
  {
    if userRole == "" then Respond(401, NoUserMessage)
    else if userRole != "admin" then Respond(403, AdminsOnlyMessage)
    else Next
  }
}
