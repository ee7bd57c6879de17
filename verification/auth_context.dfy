/** The credential check and the `isAuthenticated` flag of
    `context/AuthContext.tsx`. The user list arrives from the API; the
    match is made on the client. */
module AuthContext {
  import opened Wrappers
  import opened PlantService

  /** One record of the fetched user list; only the two compared fields
      matter, and either may be missing. */
  datatype WireUser = WireUser(id: Field<int>, username: Field<string>, password: Field<string>)

  /** The credentials endpoint, the same on every platform. */
  const LoginUrl: string := "http://192.168.1.139:8080/adminlogins"

  /** The GET request `login` issues; it does not depend on the platform. */
  function LoginRequest(os: string): (req: Request)
    ensures req.verb == Get && req.body.None? && req.url == LoginUrl
  {
    Request(Get, LoginUrl, None)
  }

  /** The credentials endpoint lies under the plant API's base URL on android
      and ios only; on web the plant API is on localhost but login is not. */
  lemma LoginUrlMatchesBase(os: string)
    ensures LoginUrl == ApiBaseUrl(os) + "/adminlogins" <==> os == "android" || os == "ios"
  {
    if os != "android" && os != "ios" {
      assert (ApiBaseUrl(os) + "/adminlogins")[7] != LoginUrl[7];
    }
  }

  /** Whether a fetched user has exactly these credentials; the comparison
      is strict, so a missing or null field never matches. */
  predicate Matches(user: WireUser, username: string, password: string)
    ensures Matches(user, username, password) ==> user.username.Present? && user.password.Present?
    ensures Matches(user, username, password)
        ==> user.username.value == username && user.password.value == password
  {
    user.username == Present(username) && user.password == Present(password)
  }

  /** The first user in the list with these credentials, if any. */
  function FindUser(users: seq<WireUser>, username: string, password: string): (r: Option<WireUser>)
    ensures r.None? <==> forall i :: 0 <= i < |users| ==> !Matches(users[i], username, password)
    ensures r.Some? ==>
      exists i :: (0 <= i < |users| && users[i] == r.value
                   && Matches(users[i], username, password)
                   && forall j :: 0 <= j < i ==> !Matches(users[j], username, password))
  {
    if |users| == 0 then None
    else if Matches(users[0], username, password) then Some(users[0])
    else
      var r := FindUser(users[1..], username, password);
      assert forall i :: 0 < i < |users| ==> users[i] == users[1..][i - 1];
      r
  }

  /** Some user has exactly these credentials. */
  ghost predicate HasMatch(users: seq<WireUser>, username: string, password: string) {
    exists u :: u in users && Matches(u, username, password)
  }

  /** What `login` resolves to, and the flag afterwards. */
  datatype LoginOutcome = LoginOutcome(result: bool, isAuthenticated: bool)

  /** `login(username, password)` from a state with the given flag: true only
      for an ok response holding a matching user; a failed attempt leaves the
      flag as it was. */
  function Login(isAuthenticated: bool, username: string, password: string,
                 ex: Exchange<seq<WireUser>>): (o: LoginOutcome)
    ensures o.result <==> ex.Answered? && ex.response.ok && HasMatch(ex.response.body, username, password)
    ensures o.result ==> o.isAuthenticated
    ensures !o.result ==> o.isAuthenticated == isAuthenticated
  {
    match ex
    case TransportFailed(_) => LoginOutcome(false, isAuthenticated)
    case Answered(resp) =>
      if !resp.ok then LoginOutcome(false, isAuthenticated)
      else
        var found := FindUser(resp.body, username, password);
        assert found.Some? ==> found.value in resp.body;
        assert found.None? ==> !HasMatch(resp.body, username, password);
        if found.Some? then LoginOutcome(true, true) else LoginOutcome(false, isAuthenticated)
  }

  /** `logout()`: the flag is false afterwards, whatever it was. */
  function Logout(isAuthenticated: bool): (after: bool)
    ensures !after
  {
    false
  }

  /** Whether a login succeeds depends on which users were fetched, not on
      their order. */
  lemma LoginIgnoresOrder(isAuthenticated: bool, username: string, password: string,
                          ok: bool, status: int, a: seq<WireUser>, b: seq<WireUser>)
    requires multiset(a) == multiset(b)
    ensures Login(isAuthenticated, username, password, Answered(Response(ok, status, a)))
         == Login(isAuthenticated, username, password, Answered(Response(ok, status, b)))
  {
    forall u ensures u in a <==> u in b {
      assert u in a <==> u in multiset(a);
      assert u in b <==> u in multiset(b);
    }
  }

  /** A login never clears the flag; only a logout does. */
  lemma LoginNeverClears(username: string, password: string, ex: Exchange<seq<WireUser>>)
    ensures Login(true, username, password, ex).isAuthenticated
    ensures !Logout(Login(true, username, password, ex).isAuthenticated)
  {
  }
}
