/** The Willys client and the provider in front of it, one call at a time. */
module Willys {
  import opened Wrappers

  datatype Creds = Creds(username: string, password: string)

  type Cookies = map<string, string>

  datatype Session = Session(cookies: Cookies, csrfToken: string)

  datatype Customer = Customer(name: string, uid: string, firstName: string)

  /** One HTTP exchange: no answer, or a status, the cookies set, a Location header and what the
      body decodes to. */
  datatype Reply =
    | NoReply
    | Reply(status: nat, setCookies: Cookies, location: string, token: Option<string>, customer: Option<Customer>)

  /** The answers one login gets, request by request, and whether encrypting the credentials works. */
  datatype Script = Script(config: Reply, firstToken: Reply, encrypts: bool, login: Reply, redirect: Reply,
                           secondToken: Reply, customer: Reply)

  datatype LoginResult = Success | Rejected | Broken

  predicate RealCustomer(c: Customer) {
    c.name != "anonymous" && c.uid != "" && c.firstName != ""
  }

  predicate GivesToken(r: Reply) {
    r.Reply? && r.status == 200 && r.token.Some?
  }

  predicate GivesCustomer(r: Reply) {
    r.Reply? && r.status == 200 && r.customer.Some?
  }

  /** The credentials reached /login and an answer came back. */
  predicate Answered(hasSession: bool, s: Script) {
    (hasSession || s.config.Reply?) && GivesToken(s.firstToken) && s.encrypts && s.login.Reply?
  }

  /** The answer was not an error and everything after it could be read, down to the customer. */
  predicate Settled(hasSession: bool, s: Script) {
    && Answered(hasSession, s) && s.login.status < 400
    && (s.login.location != "" ==> s.redirect.Reply?)
    && GivesToken(s.secondToken) && GivesCustomer(s.customer)
  }

  /** A login succeeds when it settles on a real customer, is rejected on an error status or an
      anonymous customer, and is otherwise broken off. */
  function LoginOutcome(hasSession: bool, s: Script): LoginResult {
    if Settled(hasSession, s) then if RealCustomer(s.customer.customer.value) then Success else Rejected
    else if Answered(hasSession, s) && s.login.status >= 400 then Rejected
    else Broken
  }

  /** A login succeeds exactly when every step gets its answer, the POST is not refused, and the customer is
      a named user; it is rejected exactly when the POST is refused, or all is read and the customer is a
      guest. */
  lemma LoginOutcomeIff(hasSession: bool, s: Script)
    ensures var token := (r: Reply) => r.Reply? && r.status == 200 && r.token.Some?;
            var posted := (hasSession || s.config.Reply?) && token(s.firstToken) && s.encrypts && s.login.Reply?;
            var read := posted && s.login.status < 400 && (s.login.location != "" ==> s.redirect.Reply?)
                        && token(s.secondToken) && s.customer.Reply? && s.customer.status == 200
                        && s.customer.customer.Some?;
            var user := read && s.customer.customer.value.name != "anonymous"
                        && s.customer.customer.value.uid != "" && s.customer.customer.value.firstName != "";
            && (LoginOutcome(hasSession, s) == Success <==> user)
            && (LoginOutcome(hasSession, s) == Rejected <==> (posted && s.login.status >= 400) || (read && !user))
  {
  }

  /** The cookies after a login that succeeded. */
  function LoginCookies(cookies: Cookies, s: Script): Cookies
    requires LoginOutcome("JSESSIONID" in cookies, s) == Success
  {
    var base := if "JSESSIONID" in cookies then cookies else cookies + s.config.setCookies;
    var posted := base + s.firstToken.setCookies + s.login.setCookies;
    var landed := if s.login.location != "" then posted + s.redirect.setCookies else posted;
    landed + s.secondToken.setCookies + s.customer.setCookies
  }

  class Client {
    var cookies: Cookies
    var csrfToken: string
    var authenticated: bool
    var saved: Option<Session>

    /** A restored session brings cookies and token but does not count as logged in. */
    constructor (saved: Option<Session>)
      ensures !authenticated && this.saved == saved
      ensures cookies == if saved.Some? then saved.value.cookies else map[]
      ensures csrfToken == if saved.Some? then saved.value.csrfToken else ""
    {
      authenticated := false;
      this.saved := saved;
      cookies := if saved.Some? then saved.value.cookies else map[];
      csrfToken := if saved.Some? then saved.value.csrfToken else "";
    }

    method ClearState()
      modifies this
      ensures cookies == map[] && csrfToken == "" && !authenticated && saved == None
    {
      cookies, csrfToken, authenticated, saved := map[], "", false, None;
    }

    method RequireAuth() returns (ok: bool)
      ensures ok == authenticated
    {
      ok := authenticated;
    }

    method Do(reply: Reply) returns (ok: bool)
      modifies this`cookies
      ensures ok == reply.Reply?
      ensures cookies == if ok then old(cookies) + reply.setCookies else old(cookies)
    {
      ok := reply.Reply?;
      if ok {
        cookies := cookies + reply.setCookies;
      }
    }

    method EnsureSession(config: Reply) returns (ok: bool)
      modifies this`cookies
      ensures ok <==> "JSESSIONID" in old(cookies) || config.Reply?
      ensures cookies == if "JSESSIONID" !in old(cookies) && config.Reply? then old(cookies) + config.setCookies
                else old(cookies)
    {
      if "JSESSIONID" in cookies {
        return true;
      }
      ok := Do(config);
    }

    method FetchCSRFToken(reply: Reply) returns (ok: bool)
      modifies this`cookies, this`csrfToken
      ensures ok <==> GivesToken(reply)
      ensures cookies == if reply.Reply? then old(cookies) + reply.setCookies else old(cookies)
      ensures csrfToken == if ok then reply.token.value else old(csrfToken)
    {
      var sent := Do(reply);
      if !sent || reply.status != 200 || reply.token.None? {
        return false;
      }
      csrfToken := reply.token.value;
      return true;
    }

    method GetCustomer(reply: Reply) returns (r: Option<Customer>)
      modifies this`cookies
      ensures r.Some? <==> GivesCustomer(reply)
      ensures r.Some? ==> r == reply.customer
      ensures cookies == if reply.Reply? then old(cookies) + reply.setCookies else old(cookies)
    {
      var ok := Do(reply);
      if !ok || reply.status != 200 {
        return None;
      }
      return reply.customer;
    }

    /** What follows an accepted POST: the redirect, a fresh token, and who is logged in. */
    method FollowUp(s: Script) returns (r: Option<Customer>)
      requires s.login.Reply?
      modifies this`cookies, this`csrfToken
      ensures r.Some? <==>
                (s.login.location != "" ==> s.redirect.Reply?) && GivesToken(s.secondToken) && GivesCustomer(s.customer)
      ensures r.Some? ==> r == s.customer.customer && csrfToken == s.secondToken.token.value
      ensures r.Some? ==>
                var landed := if s.login.location != "" then old(cookies) + s.redirect.setCookies else old(cookies);
                cookies == landed + s.secondToken.setCookies + s.customer.setCookies
    {
      if s.login.location != "" {
        var followed := Do(s.redirect);
        if !followed { return None; }
      }
      var ok := FetchCSRFToken(s.secondToken);
      if !ok { return None; }
      r := GetCustomer(s.customer);
    }

    method Login(s: Script) returns (r: LoginResult)
      modifies this
      ensures r == LoginOutcome("JSESSIONID" in old(cookies), s)
      ensures r.Success? ==>
                authenticated && csrfToken == s.secondToken.token.value && saved == Some(Session(cookies, csrfToken))
      ensures r.Success? ==> cookies == LoginCookies(old(cookies), s)
      ensures r.Rejected? ==> cookies == map[] && csrfToken == "" && !authenticated && saved == None
      ensures r.Broken? ==> authenticated == old(authenticated) && saved == old(saved)
    {
      var ok := EnsureSession(s.config);
      if !ok { return Broken; }
      ok := FetchCSRFToken(s.firstToken);
      if !ok || !s.encrypts { return Broken; }
      ok := Do(s.login);
      if !ok { return Broken; }
      if s.login.status == 401 || s.login.status == 403 {
        ClearState();
        return Rejected;
      }
      if s.login.status >= 400 {
        ClearState();
        return Rejected;
      }
      var customer := FollowUp(s);
      if customer.None? { return Broken; }
      if !RealCustomer(customer.value) {
        ClearState();
        return Rejected;
      }
      authenticated := true;
      saved := Some(Session(cookies, csrfToken));
      return Success;
    }
  }

  // ---- the provider --------------------------------------------------------------

  /** What matters of a provider and its client: the flag, the remembered credentials and those of
      the last login that succeeded. */
  datatype Auth = Auth(authenticated: bool, remembered: Creds, lastLogin: Option<Creds>)

  /** An authenticated flag means the last successful login used the remembered credentials. */
  predicate Consistent(a: Auth) {
    a.authenticated ==> a.lastLogin == Some(a.remembered)
  }

  predicate NeedsLogin(a: Auth, creds: Creds, force: bool) {
    force || creds != a.remembered || !a.authenticated
  }

  /** The state a login attempt with `creds` ends in. */
  function AfterLogin(a: Auth, creds: Creds, r: LoginResult): Auth {
    match r
    case Success => Auth(true, creds, Some(creds))
    case Rejected => a.(authenticated := false)
    case Broken => if creds != a.remembered then a.(authenticated := false) else a
  }

  datatype FnResult = Done | Failed(typed: bool, lowered: string)

  predicate Contains(s: string, part: string) {
    exists i | 0 <= i <= |s| :: part <= s[i..]
  }

  predicate LooksLikeAuthError(r: FnResult) {
    r.Failed? && (r.typed || Contains(r.lowered, "401") || Contains(r.lowered, "unauthorized")
                  || Contains(r.lowered, "403") || Contains(r.lowered, "forbidden"))
  }

  /** An error counts as an authentication failure when it is one by type, or when its lower-cased text has
      one of four words in it, */
  lemma AuthErrorByWord(a: string, b: string, text: string)
    ensures LooksLikeAuthError(Failed(true, text)) && !LooksLikeAuthError(Done)
    ensures forall word | word in ["401", "403", "unauthorized", "forbidden"] ::
              LooksLikeAuthError(Failed(false, a + word + b))
  {
    forall word: string ensures Contains(a + word + b, word) { assert word <= (a + word + b)[|a|..]; }
  }

  /** and otherwise not. */
  lemma WordOfAuthError(text: string) returns (a: string, word: string, b: string)
    requires LooksLikeAuthError(Failed(false, text))
    ensures text == a + word + b && word in ["401", "403", "unauthorized", "forbidden"]
  {
    word := if Contains(text, "401") then "401" else if Contains(text, "403") then "403"
            else if Contains(text, "unauthorized") then "unauthorized" else "forbidden";
    assert Contains(text, word);
    hide Contains;
    a, b := Around(text, word);
  }

  lemma Around(s: string, part: string) returns (a: string, b: string)
    requires Contains(s, part)
    ensures s == a + part + b
  {
    var i :| 0 <= i <= |s| && part <= s[i..];
    a, b := s[..i], s[i..][|part|..];
    assert s[i..] == part + b;
    assert s == a + s[i..];
  }

  /** What a call made through withAuth came to: no login, or what the last run of it gave. */
  datatype CallResult = NotConfigured | LoginFailed | Ran(result: FnResult)

  /** ensureLoggedIn succeeds: credentials are configured, and a login, if one is needed, succeeds. */
  predicate LetIn(a: Auth, hasSession: bool, configured: Option<Creds>, force: bool, s: Script) {
    && configured.Some?
    && (NeedsLogin(a, configured.value, force) ==>
          LoginOutcome(configured.value == a.remembered && hasSession, s) == Success)
  }

  /** The cookies fn starts with then. */
  function StartCookies(a: Auth, cookies: Cookies, creds: Creds, force: bool, s: Script): Cookies
    requires LetIn(a, "JSESSIONID" in cookies, Some(creds), force, s)
  {
    if !NeedsLogin(a, creds, force) then cookies
    else LoginCookies(if creds == a.remembered then cookies else map[], s)
  }

  /** fn runs a second time: the first run came about and failed like an authentication, and a login
      with the credentials configured by then, on the cookies left by that run, succeeds. */
  predicate RunsTwice(a: Auth, cookies: Cookies, first: Option<Creds>, s: Script, result: FnResult, setCookies: Cookies,
                      again: Option<Creds>, t: Script)
  {
    && LetIn(a, "JSESSIONID" in cookies, first, false, s) && LooksLikeAuthError(result) && again.Some?
    && var hasSession := "JSESSIONID" in StartCookies(a, cookies, first.value, false, s) + setCookies;
       LoginOutcome(again == first && hasSession, t) == Success
  }

  class WillysProvider {
    const client: Client
    var creds: Creds
    ghost var lastLogin: Option<Creds>

    constructor (client: Client)
      requires !client.authenticated
      ensures this.client == client && creds == Creds("", "") && lastLogin == None
      ensures Consistent(State())
    {
      this.client := client;
      creds := Creds("", "");
      lastLogin := None;
    }

    ghost function State(): Auth
      reads this, client
    {
      Auth(client.authenticated, creds, lastLogin)
    }

    /** With the mutex held. A success leaves the client logged in with the configured credentials;
        a failure never leaves it logged in with any others than the remembered ones. */
    method EnsureLoggedIn(configured: Option<Creds>, force: bool, s: Script) returns (ok: bool, r: Option<LoginResult>)
      requires Consistent(State())
      modifies this, client
      ensures Consistent(State())
      ensures r.Some? <==> configured.Some? && NeedsLogin(old(State()), configured.value, force)
      ensures r.Some? <==>
                configured.Some? && (force || configured.value != old(creds) || !old(client.authenticated))
      ensures ok <==> configured.Some? && (r.None? || r.value.Success?)
      ensures r == Some(Rejected) || (r == Some(Broken) && configured.value != old(creds)) ==> !client.authenticated
      ensures State() == if r.Some? then AfterLogin(old(State()), configured.value, r.value) else old(State())
      ensures r.Some? ==>
                r.value ==
                LoginOutcome(configured.value == old(creds) && "JSESSIONID" in old(client.cookies), s)
      ensures ok ==> client.authenticated && creds == configured.value
      ensures ok ==>
                var kept := if configured.value == old(creds) then old(client.cookies) else map[];
                client.cookies == if r.None? then old(client.cookies) else LoginCookies(kept, s)
    {
      if configured.None? {
        return false, None;
      }
      var want := configured.value;
      var credsChanged := want != creds;
      if !force && !credsChanged && client.authenticated {
        return true, None;
      }
      if credsChanged {
        client.ClearState();
      }
      var result := client.Login(s);
      if result != Success {
        return false, Some(result);
      }
      lastLogin := Some(want);
      creds := want;
      return true, Some(Success);
    }

    /** ensureLoggedIn, and then one run of fn; a gated one is refused while the flag is down. */
    method Attempt(configured: Option<Creds>, force: bool, s: Script, gated: bool, answer: FnResult,
                   setCookies: Cookies, refusal: FnResult)
      returns (ok: bool, open: bool, result: FnResult)
      requires Consistent(State())
      modifies this, client
      ensures Consistent(State())
      ensures ok <==> LetIn(old(State()), "JSESSIONID" in old(client.cookies), configured, force, s)
      ensures ok ==> open && result == answer && client.authenticated && creds == configured.value
      ensures ok && force ==> lastLogin == configured
      ensures ok ==>
                client.cookies ==
                StartCookies(old(State()), old(client.cookies), configured.value, force, s) + setCookies
    {
      hide LoginOutcome, LoginCookies;
      ok, open, result := false, false, refusal;
      var r;
      ok, r := EnsureLoggedIn(configured, force, s);
      if !ok {
        return;
      }
      open := client.RequireAuth();
      if gated && !open {
        return;
      }
      result := answer;
      client.cookies := client.cookies + setCookies;
    }

    /** fn runs at most twice: a second time exactly when the first run failed like an authentication
        and a forced login then succeeds. `gated` calls are refused while the flag is down; the two
        results are what the shop answers when asked, and `setCookies` what it sets. */
    method WithAuth(first: Option<Creds>, s: Script, again: Option<Creds>, t: Script,
                    gated: bool, results: (FnResult, FnResult), setCookies: (Cookies, Cookies), refusal: FnResult)
      returns (c: CallResult, runs: nat, sent: seq<bool>)
      requires Consistent(State()) && refusal.Failed? && refusal.typed
      modifies this, client
      ensures Consistent(State())
      ensures runs <= 2 && |sent| == runs
      ensures runs == 2 <==>
                RunsTwice(old(State()), old(client.cookies), first, s, results.0, setCookies.0, again, t)
      ensures runs == 0 <==> !LetIn(old(State()), "JSESSIONID" in old(client.cookies), first, false, s)
      ensures runs == 0 ==> c == if first.None? then NotConfigured else LoginFailed
      ensures runs > 0 && !LooksLikeAuthError(results.0) ==> runs == 1 && c == Ran(results.0)
      ensures runs == 1 && LooksLikeAuthError(results.0) ==> c == if again.None? then NotConfigured else LoginFailed
      ensures runs == 2 ==> LooksLikeAuthError(results.0) && c == Ran(results.1)
      ensures runs == 2 ==> again.Some? && lastLogin == again && client.authenticated && creds == again.value
      ensures forall i | 0 <= i < runs :: sent[i]
    {
      assert !LooksLikeAuthError(Done);
      hide LooksLikeAuthError, LoginOutcome, LoginCookies, StartCookies, Consistent;
      runs, sent := 0, [];
      var ok, open, result := Attempt(first, false, s, gated, results.0, setCookies.0, refusal);
      if !ok {
        return if first.None? then NotConfigured else LoginFailed, runs, sent;
      }
      runs, sent := 1, [open];
      if result == Done || !LooksLikeAuthError(result) {
        return Ran(result), runs, sent;
      }
      ok, open, result := Attempt(again, true, t, gated, results.1, setCookies.1, refusal);
      if !ok {
        return if again.None? then NotConfigured else LoginFailed, runs, sent;
      }
      runs, sent := 2, sent + [open];
      return Ran(result), runs, sent;
    }
  }
}
