/**
  Properties of request sequences: the client's cookie jar carries the
  session from one handler to the next, so these lemmas chain handlers
  through `Load`, `Deliver` and `NextJar`.
 */
module Requests {
  import opened Wrappers
  import opened Forms
  import opened Sessions
  import opened Handlers

  // ---- The login-consistency invariant -------------------------------------

  /** Every handler keeps a consistent session consistent, in what it saves and what it ends with. */
  lemma LoginKeepsConsistent(s: Session, form: Form, lookup: string -> Option<User>, matches: (string, string) -> bool)
    requires Consistent(s)
    ensures Consistent(Login(s, form, lookup, matches).session)
    ensures SavesConsistent(Login(s, form, lookup, matches).steps)
  {
    var email, password := FormValue(form, "inputEmail"), FormValue(form, "inputPassword");
    if lookup(email).None? {
      RedirectWithMessageConsistent(s, "Email Incorrect!", false, "/form-login");
    } else if !matches(lookup(email).value.password, password) {
      RedirectWithMessageConsistent(s, "Password Incorrect!", false, "/form-login");
    }
  }

  lemma LogoutKeepsConsistent(s: Session)
    requires Consistent(s)
    ensures Consistent(Logout(s).session) && SavesConsistent(Logout(s).steps)
  {
    assert Get(Logout(s).session, IsLoginKey) == Get(s, IsLoginKey);
  }

  lemma RegisterKeepsConsistent(s: Session, insertOk: bool)
    requires Consistent(s)
    ensures Consistent(Register(s, insertOk).session) && SavesConsistent(Register(s, insertOk).steps)
  {
    if insertOk {
      RedirectWithMessageConsistent(s, RegisterSucceeded, true, "/form-login");
    } else {
      var failed := RedirectWithMessage(s, RegisterFailed, false, "/form-register");
      RedirectWithMessageConsistent(s, RegisterFailed, false, "/form-register");
      RedirectWithMessageConsistent(failed.session, RegisterSucceeded, true, "/form-login");
      var succeeded := RedirectWithMessage(failed.session, RegisterSucceeded, true, "/form-login");
      assert Register(s, insertOk).steps == failed.steps + succeeded.steps;
    }
  }

  lemma FlashReadersKeepConsistent(s: Session, data: SessionData, rows: seq<ProjectRow>, templateError: Option<string>)
    requires Consistent(s) && RowDatesRepresentable(rows)
    ensures Consistent(FormLogin(s, templateError).session) && SavesConsistent(FormLogin(s, templateError).steps)
    ensures Consistent(Home(s, data, Ok(rows), templateError).outcome.session)
    ensures SavesConsistent(Home(s, data, Ok(rows), templateError).outcome.steps)
  {
    ConsumeFlashConsistent(s);
  }

  /** In a consistent session the home page's type assertions succeed. */
  lemma HomeDoesNotPanic(jar: Jar, data: SessionData, rows: seq<ProjectRow>, templateError: Option<string>)
    requires ConsistentJar(jar) && RowDatesRepresentable(rows)
    ensures Deliver(Home(Load(jar), data, Ok(rows), templateError).outcome.steps).reply != Some(Panic)
  {
  }

  /** A logged-in consistent session carries the integer id `addProject` asserts. */
  lemma AddProjectWhenLoggedIn(s: Session, form: Form, image: string, execError: Option<string>)
    requires Consistent(s) && LoggedIn(s)
    ensures AddProject(s, form, image, execError).reply != Panic
    ensures AddProject(s, form, image, execError).command == Some(InsertRow(DecodeProject(form, image), s.values[IdKey].i))
  {
  }

  /**
    After a successful login the client's next add-project request inserts
    the decoded fields under the id of the user row the login found.
   */
  lemma AddProjectAfterLogin(jar: Jar, loginForm: Form, lookup: string -> Option<User>, matches: (string, string) -> bool,
                             form: Form, image: string, execError: Option<string>)
    requires lookup(FormValue(loginForm, "inputEmail")).Some?
    requires matches(lookup(FormValue(loginForm, "inputEmail")).value.password, FormValue(loginForm, "inputPassword"))
    ensures
      var u := lookup(FormValue(loginForm, "inputEmail")).value;
      var o := Login(Load(jar), loginForm, lookup, matches);
      var p := AddProject(Load(NextJar(jar, o.steps)), form, image, execError);
      && p.command == Some(InsertRow(DecodeProject(form, image), u.id))
      && p.reply == (if execError.None? then Redirect(MovedPermanently, "/") else InternalError(execError.value))
  {
    var o := Login(Load(jar), loginForm, lookup, matches);
    assert Load(NextJar(jar, o.steps)).values == o.session.values;
  }

  /** A client with no session cookie cannot add a project: the author assertion panics. */
  lemma AddProjectWithoutSession(form: Form, image: string, execError: Option<string>)
    ensures AddProject(Load(None), form, image, execError) == ProjectOutcome(None, Panic)
  {
  }

  /** Add and update read the form with the same rule, so the same form stores the same fields. */
  lemma AddAndUpdateAgree(s: Session, id: int, form: Form, image: string, execError: Option<string>)
    requires IdKey in s.values && s.values[IdKey].Int?
    ensures AddProject(s, form, image, execError).command.value.fields
         == UpdateProject(id, form, image, execError).command.value.fields
  {
  }

  // ---- Flash messages across requests ---------------------------------------

  /**
    A flash set by a redirect is shown by the next home page and then gone:
    the page after that shows neither key.
   */
  lemma FlashShownOnce(jar: Jar, message: string, status: bool, path: string, data: SessionData, rows: seq<ProjectRow>)
    requires ConsistentJar(jar) && RowDatesRepresentable(rows)
    ensures
      var o := RedirectWithMessage(Load(jar), message, status, path);
      var jar1 := NextJar(jar, o.steps);
      var h1 := Home(Load(jar1), data, Ok(rows), None);
      var jar2 := NextJar(jar1, h1.outcome.steps);
      var h2 := Home(Load(jar2), h1.data, Ok(rows), None);
      && Deliver(h1.outcome.steps).reply == Some(HomePage(HomeView(ViewsOf(rows), Flash(Some(Bool(status)), Some(Str(message))), h1.data)))
      && Deliver(h2.outcome.steps).reply == Some(HomePage(HomeView(ViewsOf(rows), Flash(None, None), h2.data)))
  {
    var o := RedirectWithMessage(Load(jar), message, status, path);
    RedirectWithMessageConsistent(Load(jar), message, status, path);
    var jar1 := NextJar(jar, o.steps);
    assert Load(jar1).values == o.session.values;
    var h1 := Home(Load(jar1), data, Ok(rows), None);
    ConsumeFlashConsistent(Load(jar1));
    var jar2 := NextJar(jar1, h1.outcome.steps);
    assert Load(jar2).values == ConsumeFlash(Load(jar1)).1.values;
  }

  /**
    A rejected login is reported once on the login form: the next form shows
    the "Email Incorrect!" flash and the one after shows none.
   */
  lemma UnknownEmailShownOnce(jar: Jar, form: Form, lookup: string -> Option<User>, matches: (string, string) -> bool)
    requires lookup(FormValue(form, "inputEmail")).None?
    ensures
      var o := Login(Load(jar), form, lookup, matches);
      var jar1 := NextJar(jar, o.steps);
      var f1 := FormLogin(Load(jar1), None);
      var f2 := FormLogin(Load(NextJar(jar1, f1.steps)), None);
      && Deliver(o.steps).reply == Some(Redirect(MovedPermanently, "/form-login"))
      && Deliver(f1.steps).reply == Some(LoginPage(Flash(Some(Bool(false)), Some(Str("Email Incorrect!")))))
      && Deliver(f2.steps).reply == Some(LoginPage(Flash(None, None)))
  {
    var o := Login(Load(jar), form, lookup, matches);
    var jar1 := NextJar(jar, o.steps);
    assert Load(jar1).values == o.session.values;
    var f1 := FormLogin(Load(jar1), None);
    assert Load(NextJar(jar1, f1.steps)).values == f1.session.values;
  }

  // ---- Login and logout across requests --------------------------------------

  /**
    After a successful login the next home page shows the user as logged
    in, with the name from the user row and the "Login success!" flash.
   */
  lemma LoginThenHome(jar: Jar, form: Form, lookup: string -> Option<User>, matches: (string, string) -> bool,
                      data: SessionData, rows: seq<ProjectRow>)
    requires RowDatesRepresentable(rows)
    requires lookup(FormValue(form, "inputEmail")).Some?
    requires matches(lookup(FormValue(form, "inputEmail")).value.password, FormValue(form, "inputPassword"))
    ensures
      var u := lookup(FormValue(form, "inputEmail")).value;
      var o := Login(Load(jar), form, lookup, matches);
      var h := Home(Load(NextJar(jar, o.steps)), data, Ok(rows), None);
      && h.data == SessionData(true, u.name)
      && Deliver(h.outcome.steps).reply
         == Some(HomePage(HomeView(ViewsOf(rows), Flash(Some(Bool(true)), Some(Str("Login success!"))), SessionData(true, u.name))))
  {
    var o := Login(Load(jar), form, lookup, matches);
    var jar1 := NextJar(jar, o.steps);
    assert Load(jar1).values == o.session.values;
    assert Consistent(Load(jar1));
  }

  /**
    Logging out always ends the login: the client drops the cookie, so the
    next request starts from an empty session and the home page shows the
    user as logged out, whatever the session held before.
   */
  lemma LogoutEndsLogin(jar: Jar, data: SessionData, rows: seq<ProjectRow>)
    requires RowDatesRepresentable(rows)
    ensures NextJar(jar, Logout(Load(jar)).steps) == None
    ensures
      var h := Home(Load(NextJar(jar, Logout(Load(jar)).steps)), data, Ok(rows), None);
      && !h.data.isLogin
      && h.data.name == data.name
      && Deliver(h.outcome.steps).reply == Some(HomePage(HomeView(ViewsOf(rows), Flash(None, None), h.data)))
  {
  }

  // ---- register ---------------------------------------------------------------

  /** With a successful insert, the handler as written and as intended coincide. */
  lemma RegisterSuccessAsIntended(s: Session)
    ensures Register(s, true) == RegisterIntended(s, true)
  {
  }

  /**
    With a failed insert, the handler as written issues two redirects. The
    first one commits the response, so the client is sent to /form-register
    with the failure flash, exactly as intended, while the session the handler
    ends with claims success and its second save and redirect are dropped.
   */
  lemma RegisterFailureTwoRedirects(s: Session)
    ensures Sends(Register(s, false).steps) == 2
    ensures Deliver(Register(s, false).steps) == Deliver(RegisterIntended(s, false).steps)
    ensures Get(Deliver(Register(s, false).steps).cookie.value, MessageKey) == Some(Str(RegisterFailed))
    ensures Get(Register(s, false).session, MessageKey) == Some(Str(RegisterSucceeded))
  {
    var failed := RedirectWithMessage(s, RegisterFailed, false, "/form-register");
    var succeeded := RedirectWithMessage(failed.session, RegisterSucceeded, true, "/form-login");
    var steps := failed.steps + succeeded.steps;
    assert steps == [Save(failed.session), Send(Redirect(MovedPermanently, "/form-register")),
                     Save(succeeded.session), Send(Redirect(MovedPermanently, "/form-login"))];
    assert Sends(steps) == 1 + Sends(steps[2..]) by { assert steps[1..][1..] == steps[2..]; }
    assert steps[2..][1..] == steps[3..];
    assert Sends(steps[2..]) == 1;
    assert DeliverFrom(steps, None) == DeliverFrom(steps[1..], Some(failed.session));
  }
}
