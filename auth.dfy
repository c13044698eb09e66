/** The request session and the two authorization guards of the jokes site.
    A session carries the signed-in user's id, role and username; each field
    is absent for an anonymous visitor. */
module Auth {
  import opened Wrappers

  type UserId = int

  datatype Session = Session(userId: Option<UserId>, userRole: Option<string>, username: Option<string>)

  /** The anonymous session: nothing was stored at login. */
  const Anonymous := Session(None, None, None)

  /** JavaScript truthiness of `req.session.userId`: an absent id and the
      numeric id 0 are both falsy. */
  predicate SignedIn(s: Session) {
    s.userId.Some? && s.userId.value != 0
  }

  /** What a guard middleware does with a request: hand it on to the next
      handler, answer it with a status and a body, or redirect it. */
  datatype GuardResult = Proceed | Reject(status: nat, body: string) | RedirectTo(location: string)

  const AdminsOnly := "Forbidden: Admins only"

  /** The `isAdmin` middleware: strict comparison of the session role with
      "admin"; anything else is answered with 403, never redirected. */
  function IsAdmin(s: Session): (r: GuardResult)
    ensures r.Proceed? <==> s.userRole == Some("admin")
    ensures !r.Proceed? ==> r == Reject(403, AdminsOnly)
    ensures !r.RedirectTo?
  {
    if s.userRole == Some("admin") then Proceed else Reject(403, AdminsOnly)
  }

  /** The `requireAuth` middleware: a session without a (truthy) user id is
      redirected to the login page; it never answers with an error status. */
  function RequireAuth(s: Session): (r: GuardResult)
    ensures r.RedirectTo? <==> !SignedIn(s)
    ensures r.RedirectTo? ==> r.location == "/login"
    ensures !r.Reject?
  {
    if !SignedIn(s) then RedirectTo("/login") else Proceed
  }

  /** The two guards are asymmetric: on any request that is neither signed
      in nor from an admin, one redirects to the login page and the other
      answers 403. */
  lemma AnonymousIsRedirectedOrForbidden(s: Session)
    requires !SignedIn(s) && s.userRole != Some("admin")
    ensures RequireAuth(s) == RedirectTo("/login")
    ensures IsAdmin(s) == Reject(403, AdminsOnly)
  {
  }

  /** `isAdmin` looks at the role only: an admin role admits the request
      even when no user id is stored, and a signed-in user whose role is not
      exactly "admin" (say "Admin") is refused. */
  lemma AdminGuardIgnoresUserId(s: Session)
    ensures IsAdmin(s.(userId := None)) == IsAdmin(s)
    ensures IsAdmin(s.(userRole := Some("Admin"))) == Reject(403, AdminsOnly)
  {
  }
}
