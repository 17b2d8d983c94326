/** The request gate of the site (account/middleware.py): before any view runs, the middleware
    lets the request through or redirects it, by who is asking and which view module is asked. */
module Access {
  import opened Models

  /** The request as the middleware sees it: the account's state, the `voter_id` kept in the
      session, the module of the view the URL resolved to, and the path. */
  datatype Request = Request(authenticated: bool, userType: string, voterId: Option<int>, viewModule: string, path: string)

  /** The paths `reverse` gives for the named URLs. */
  datatype Urls = Urls(fetchBallot: string, index: string, accountLogin: string, voterLogin: string,
                       adminDashboard: string, voterDashboard: string)

  datatype Target = AdminDashboard | VoterDashboard | VoterLogin

  /** `flashed`: the redirect carries the message that access was denied. */
  datatype Decision = Pass | RedirectTo(target: Target, flashed: bool)

  /** A `voter_id` in the session counts when it is present and not zero. */
  predicate HasVoterSession(r: Request) {
    r.voterId.Some? && r.voterId.value != 0
  }

  function ProcessView(r: Request, urls: Urls): Decision {
    if r.authenticated then
      if r.userType == "1" && r.viewModule == "voting.views" && r.path != urls.fetchBallot && r.path != urls.index then
        RedirectTo(AdminDashboard, true)
      else Pass
    else if HasVoterSession(r) then
      if r.viewModule == "administrator.views" then RedirectTo(VoterDashboard, true) else Pass
    else if r.path == urls.accountLogin || r.path == urls.voterLogin
            || r.viewModule == "django.contrib.auth.views" || r.viewModule == "voting.views" then Pass
    else RedirectTo(VoterLogin, false)
  }

  function TargetPath(t: Target, urls: Urls): string {
    match t
    case AdminDashboard => urls.adminDashboard
    case VoterDashboard => urls.voterDashboard
    case VoterLogin => urls.voterLogin
  }

  /** An administrator is kept out of the voting views except the ballot fetch and the index. */
  lemma AdminRule(r: Request, urls: Urls)
    requires r.authenticated && r.userType == "1"
    ensures ProcessView(r, urls) != Pass <==> r.viewModule == "voting.views" && r.path != urls.fetchBallot && r.path != urls.index
    ensures ProcessView(r, urls) != Pass ==> ProcessView(r, urls) == RedirectTo(AdminDashboard, true)
  {
  }

  /** Any other signed-in account goes anywhere. */
  lemma OtherAccountsPass(r: Request, urls: Urls)
    requires r.authenticated && r.userType != "1"
    ensures ProcessView(r, urls) == Pass
  {
  }

  /** A voter session without an account is kept out of the administrator's views only. */
  lemma VoterRule(r: Request, urls: Urls)
    requires !r.authenticated && HasVoterSession(r)
    ensures ProcessView(r, urls) != Pass <==> r.viewModule == "administrator.views"
    ensures ProcessView(r, urls) != Pass ==> ProcessView(r, urls) == RedirectTo(VoterDashboard, true)
  {
  }

  /** A guest reaches the two login pages, the authentication views and the voting views, and is
      sent to the voter login otherwise, without a message. */
  lemma GuestRule(r: Request, urls: Urls)
    requires !r.authenticated && !HasVoterSession(r)
    ensures ProcessView(r, urls) == Pass <==>
              r.path == urls.accountLogin || r.path == urls.voterLogin
              || r.viewModule == "django.contrib.auth.views" || r.viewModule == "voting.views"
    ensures ProcessView(r, urls) != Pass ==> ProcessView(r, urls) == RedirectTo(VoterLogin, false)
  {
  }

  /** The account is asked about before the session: a signed-in administrator with a `voter_id`
      in the session is judged as an administrator. */
  lemma AccountBeforeSession(r: Request, urls: Urls)
    requires r.authenticated
    ensures ProcessView(r, urls) == ProcessView(r.(voterId := None), urls)
  {
  }

  /** Following a redirect does not redirect again, as long as the page it leads to is served
      by a module the requester may use: the administrator's dashboard outside the voting views,
      the voter's outside the administrator's. The guest's login page always passes. */
  lemma NoRedirectLoop(r: Request, urls: Urls, servedBy: string)
    requires ProcessView(r, urls).RedirectTo?
    requires ProcessView(r, urls).target == AdminDashboard ==> servedBy != "voting.views"
    requires ProcessView(r, urls).target == VoterDashboard ==> servedBy != "administrator.views"
    ensures ProcessView(r.(viewModule := servedBy, path := TargetPath(ProcessView(r, urls).target, urls)), urls) == Pass
  {
  }
}
