/**
  The request handlers of main.go that touch the session, as pure
  transitions. A handler returns the session as it holds it at the end and
  the trace of what it wrote: `Save` for each `sess.Save`, `Send` for each
  reply (`c.Redirect`, `c.JSON`, a rendered page). The database, bcrypt and
  the upload interceptor appear as oracle parameters.
 */
module Handlers {
  import opened Wrappers
  import opened Dates
  import opened Duration
  import opened Forms
  import opened Sessions

  const MovedPermanently := 301

  /** The global `userData`: the login flag and name the home page shows. */
  datatype SessionData = SessionData(isLogin: bool, name: string)

  /** A row of the project list query: the project with its author's name. */
  datatype ProjectRow = ProjectRow(id: int, fields: ProjectFields, author: string)

  /** A project as the home page shows it, with the derived date texts and duration. */
  datatype ProjectView = ProjectView(row: ProjectRow, formatStart: string, formatEnd: string, duration: string)

  datatype HomeView = HomeView(projects: seq<ProjectView>, flash: Flash, data: SessionData)

  datatype Reply =
    | Redirect(status: int, location: string)
    | HomePage(view: HomeView)
    | LoginPage(flash: Flash)
    | InternalError(message: string)
      /** A failed type assertion: the handler panics and nothing is written. */
    | Panic

  datatype Step = Save(session: Session) | Send(reply: Reply)

  /** The session at the end of a handler and the trace of its writes. */
  datatype Outcome = Outcome(session: Session, steps: seq<Step>)

  /** What the client receives: the cookie last saved before the first reply, and that reply. */
  datatype Delivery = Delivery(cookie: Option<Session>, reply: Option<Reply>)

  /**
    The first reply commits the response: its status and headers, with every
    cookie saved so far, go out; later saves and replies are dropped. A panic
    sends nothing at all.
   */
  function DeliverFrom(steps: seq<Step>, cookie: Option<Session>): (d: Delivery)
    ensures (forall i :: 0 <= i < |steps| ==> steps[i].Save?) ==> d.reply.None?
    ensures 0 < |steps| && steps[0].Send? && !steps[0].reply.Panic? ==> d == Delivery(cookie, Some(steps[0].reply))
  {
    if |steps| == 0 then Delivery(cookie, None)
    else match steps[0]
      case Save(s) => DeliverFrom(steps[1..], Some(s))
      case Send(r) => if r.Panic? then Delivery(None, Some(Panic)) else Delivery(cookie, Some(r))
  }

  function Deliver(steps: seq<Step>): Delivery {
    DeliverFrom(steps, None)
  }

  /**
    When the first reply is at position k and is not a panic, the client gets
    that reply with the session of the last save before it; every step after
    position k is dropped.
   */
  lemma {:induction false} FirstReplyCommits(steps: seq<Step>, cookie: Option<Session>, k: nat, rest: seq<Step>)
    requires k < |steps| && steps[k].Send? && !steps[k].reply.Panic?
    requires forall i :: 0 <= i < k ==> steps[i].Save?
    ensures DeliverFrom(steps, cookie) == Delivery(if k == 0 then cookie else Some(steps[k - 1].session), Some(steps[k].reply))
    ensures DeliverFrom(steps[..k + 1] + rest, cookie) == DeliverFrom(steps, cookie)
    decreases k
  {
    var t := steps[..k + 1] + rest;
    assert t[0] == steps[0];
    if 0 < k {
      assert t[1..] == steps[1..][..k] + rest;
      FirstReplyCommits(steps[1..], Some(steps[0].session), k - 1, rest);
    }
  }

  /** The client's jar after receiving the response of `steps`. */
  function NextJar(jar: Jar, steps: seq<Step>): Jar {
    Store(jar, Deliver(steps).cookie)
  }

  function Sends(steps: seq<Step>): nat {
    if |steps| == 0 then 0 else (if steps[0].Send? then 1 else 0) + Sends(steps[1..])
  }

  /** Every session a trace saves satisfies `Consistent`. */
  predicate SavesConsistent(steps: seq<Step>) {
    forall i :: 0 <= i < |steps| && steps[i].Save? ==> Consistent(steps[i].session)
  }

  // ---- redirectWithMessage -----------------------------------------------

  /**
    `redirectWithMessage`: sets exactly the flash pair, saves, and redirects
    with 301. Every other key and the max-age are unchanged.
   */
  function RedirectWithMessage(s: Session, message: string, status: bool, path: string): (o: Outcome)
    ensures Get(o.session, MessageKey) == Some(Str(message))
    ensures Get(o.session, StatusKey) == Some(Bool(status))
    ensures forall k :: k != MessageKey && k != StatusKey ==> Get(o.session, k) == Get(s, k)
    ensures o.session.values.Keys == s.values.Keys + {MessageKey, StatusKey}
    ensures o.session.maxAge == s.maxAge
    ensures Deliver(o.steps) == Delivery(Some(o.session), Some(Redirect(MovedPermanently, path)))
    ensures Sends(o.steps) == 1
  {
    var s' := Put(Put(s, MessageKey, Str(message)), StatusKey, Bool(status));
    var steps := [Save(s'), Send(Redirect(MovedPermanently, path))];
    assert Sends(steps) == Sends(steps[1..]);
    Outcome(s', steps)
  }

  /** Setting the flash never touches the login keys. */
  lemma RedirectWithMessageConsistent(s: Session, message: string, status: bool, path: string)
    requires Consistent(s)
    ensures Consistent(RedirectWithMessage(s, message, status, path).session)
    ensures SavesConsistent(RedirectWithMessage(s, message, status, path).steps)
  {
    var o := RedirectWithMessage(s, message, status, path);
    assert Get(o.session, IsLoginKey) == Get(s, IsLoginKey);
    assert Get(o.session, NameKey) == Get(s, NameKey);
    assert Get(o.session, IdKey) == Get(s, IdKey);
  }

  // ---- home ---------------------------------------------------------------

  predicate RowDatesRepresentable(rows: seq<ProjectRow>) {
    forall i :: 0 <= i < |rows| ==> Representable(rows[i].fields.start) && Representable(rows[i].fields.end)
  }

  /**
    The derived fields of a listed project: both dates written in the
    "2006-01-02" layout and the duration label between those two texts, which
    for a span a `time.Duration` can hold is the label of 24 hours per day.
   */
  function ViewOf(row: ProjectRow): (v: ProjectView)
    requires Representable(row.fields.start) && Representable(row.fields.end)
    ensures v.row == row
    ensures Parse(v.formatStart) == Some(row.fields.start) && Parse(v.formatEnd) == Some(row.fields.end)
    ensures v.duration == CalculateDuration(v.formatStart, v.formatEnd)
    ensures var span := DayNumber(row.fields.end) - DayNumber(row.fields.start);
      -MaxDaySpan <= span <= MaxDaySpan ==> v.duration == Render(Select(24 * span))
  {
    var a, b := row.fields.start, row.fields.end;
    ParseFormat(a);
    ParseFormat(b);
    ViewDuration(a, b);
    ProjectView(row, Format(a), Format(b), CalculateDuration(Format(a), Format(b)))
  }

  lemma ViewDuration(a: Date, b: Date)
    requires Representable(a) && Representable(b)
    ensures -MaxDaySpan <= DayNumber(b) - DayNumber(a) <= MaxDaySpan ==>
      CalculateDuration(Format(a), Format(b)) == Render(Select(24 * (DayNumber(b) - DayNumber(a))))
  {
    if -MaxDaySpan <= DayNumber(b) - DayNumber(a) <= MaxDaySpan {
      DurationOfDates(a, b);
    }
  }

  /** Past the `time.Duration` range a view shows the clamped labels. */
  lemma ViewOfLongSpan(row: ProjectRow)
    requires Representable(row.fields.start) && Representable(row.fields.end)
    ensures var span := DayNumber(row.fields.end) - DayNumber(row.fields.start);
      && (MaxDaySpan < span ==> ViewOf(row).duration == "317 years")
      && (span < -MaxDaySpan ==> ViewOf(row).duration == "-106751 day")
  {
    var a, b := row.fields.start, row.fields.end;
    if MaxDaySpan < DayNumber(b) - DayNumber(a) {
      LongSpanSaturates(a, b);
    } else if DayNumber(b) - DayNumber(a) < -MaxDaySpan {
      LongNegativeSpanSaturates(a, b);
    }
  }

  function ViewsOf(rows: seq<ProjectRow>): (vs: seq<ProjectView>)
    requires RowDatesRepresentable(rows)
    ensures |vs| == |rows|
    ensures forall i :: 0 <= i < |rows| ==> vs[i] == ViewOf(rows[i])
  {
    seq(|rows|, i requires 0 <= i < |rows| => ViewOf(rows[i]))
  }

  /** The login part of the global `userData` after the home page's check. */
  function RefreshUserData(s: Session, data: SessionData): (d: SessionData)
    requires LoggedIn(s) ==> NameKey in s.values && s.values[NameKey].Str?
    ensures d.isLogin <==> LoggedIn(s)
    ensures LoggedIn(s) ==> d.name == s.values[NameKey].s
    ensures !LoggedIn(s) ==> d.name == data.name
  {
    if !LoggedIn(s) then SessionData(false, data.name)
    else SessionData(true, s.values[NameKey].s)
  }

  datatype HomeOutcome = HomeOutcome(outcome: Outcome, data: SessionData)

  /**
    `home`: a failing row scan answers 500 before the session is touched. A
    true login flag without a string name panics in the type assertion,
    after the flag has already been copied into `userData`. Otherwise the
    view gets the flash as stored, the session is saved without it, and the
    page is rendered, or a 500 is sent when the template does not parse
    (the flash is consumed either way). The name in `userData` is only
    refreshed while logged in.
   */
  function Home(s: Session, data: SessionData, rows: Result<seq<ProjectRow>>, templateError: Option<string>): (h: HomeOutcome)
    requires rows.Ok? ==> RowDatesRepresentable(rows.value)
    ensures rows.Err? ==> h == HomeOutcome(Outcome(s, [Send(InternalError(rows.message))]), data)
    ensures rows.Ok? && (!LoggedIn(s) || (NameKey in s.values && s.values[NameKey].Str?)) ==>
      && h.data.isLogin == LoggedIn(s)
      && h.data.name == (if LoggedIn(s) then s.values[NameKey].s else data.name)
      && h.outcome.session == ConsumeFlash(s).1
      && Deliver(h.outcome.steps).cookie == Some(ConsumeFlash(s).1)
      && Deliver(h.outcome.steps).reply == Some(
           if templateError.None? then HomePage(HomeView(ViewsOf(rows.value), ConsumeFlash(s).0, h.data))
           else InternalError(templateError.value))
    ensures rows.Ok? && LoggedIn(s) && !(NameKey in s.values && s.values[NameKey].Str?) ==>
      h == HomeOutcome(Outcome(s, [Send(Panic)]), SessionData(true, data.name))
  {
    match rows
    case Err(m) => HomeOutcome(Outcome(s, [Send(InternalError(m))]), data)
    case Ok(list) =>
      if LoggedIn(s) && !(NameKey in s.values && s.values[NameKey].Str?) then
        HomeOutcome(Outcome(s, [Send(Panic)]), SessionData(true, data.name))
      else
        var data' := RefreshUserData(s, data);
        var (flash, s') := ConsumeFlash(s);
        var reply := if templateError.None? then HomePage(HomeView(ViewsOf(list), flash, data'))
                     else InternalError(templateError.value);
        HomeOutcome(Outcome(s', [Save(s'), Send(reply)]), data')
  }

  // ---- formLogin -----------------------------------------------------------

  /** `formLogin`: shows the flash once, saves the session without it, renders the form. */
  function FormLogin(s: Session, templateError: Option<string>): (o: Outcome)
    ensures o.session == ConsumeFlash(s).1
    ensures Get(o.session, StatusKey).None? && Get(o.session, MessageKey).None?
    ensures Deliver(o.steps) == Delivery(Some(o.session),
      Some(if templateError.None? then LoginPage(Flash(Get(s, StatusKey), Get(s, MessageKey)))
           else InternalError(templateError.value)))
  {
    var (flash, s') := ConsumeFlash(s);
    Outcome(s', [Save(s'), Send(if templateError.None? then LoginPage(flash) else InternalError(templateError.value))])
  }

  // ---- login / logout / register -------------------------------------------

  /** A row of `tb_user`; `password` is the stored bcrypt hash. */
  datatype User = User(id: int, name: string, email: string, password: string)

  /**
    `login`. `lookup` answers the query by email (None for no row or any
    query error); `matches(hash, password)` stands for bcrypt's comparison.
   */
  function Login(s: Session, form: Form, lookup: string -> Option<User>, matches: (string, string) -> bool): (o: Outcome)
    ensures var email, password := FormValue(form, "inputEmail"), FormValue(form, "inputPassword");
      && (lookup(email).None? ==> o == RedirectWithMessage(s, "Email Incorrect!", false, "/form-login"))
      && (lookup(email).Some? && !matches(lookup(email).value.password, password) ==>
            o == RedirectWithMessage(s, "Password Incorrect!", false, "/form-login"))
      && (lookup(email).Some? && matches(lookup(email).value.password, password) ==>
            var u := lookup(email).value;
            && LoggedIn(o.session)
            && Get(o.session, IdKey) == Some(Int(u.id))
            && Get(o.session, NameKey) == Some(Str(u.name))
            && Get(o.session, EmailKey) == Some(Str(u.email))
            && Get(o.session, StatusKey) == Some(Bool(true))
            && Get(o.session, MessageKey) == Some(Str("Login success!"))
            && (forall k :: k !in {IsLoginKey, IdKey, NameKey, EmailKey, StatusKey, MessageKey} ==> Get(o.session, k) == Get(s, k))
            && o.session.maxAge == LoginMaxAge
            && Deliver(o.steps) == Delivery(Some(o.session), Some(Redirect(MovedPermanently, "/"))))
  {
    var email, password := FormValue(form, "inputEmail"), FormValue(form, "inputPassword");
    match lookup(email)
    case None => RedirectWithMessage(s, "Email Incorrect!", false, "/form-login")
    case Some(u) =>
      if !matches(u.password, password) then RedirectWithMessage(s, "Password Incorrect!", false, "/form-login")
      else
        var v := s.values[MessageKey := Str("Login success!")][StatusKey := Bool(true)]
                  [NameKey := Str(u.name)][EmailKey := Str(u.email)][IdKey := Int(u.id)][IsLoginKey := Bool(true)];
        var s' := Session(v, LoginMaxAge);
        Outcome(s', [Save(s'), Send(Redirect(MovedPermanently, "/"))])
  }

  /** `logout`: keeps the values, saves with max-age -1 so the client drops the cookie, redirects to "/". */
  function Logout(s: Session): (o: Outcome)
    ensures o.session.values == s.values
    ensures o.session.maxAge < 0
    ensures Deliver(o.steps) == Delivery(Some(o.session), Some(Redirect(MovedPermanently, "/")))
  {
    var s' := Session(s.values, ExpireMaxAge);
    Outcome(s', [Save(s'), Send(Redirect(MovedPermanently, "/"))])
  }

  const RegisterFailed := "Register failed, please try again."
  const RegisterSucceeded := "Register success!"

  /**
    `register` as written: when the insert fails, the failure redirect is
    issued and its result discarded, and the success redirect follows it.
   */
  function Register(s: Session, insertOk: bool): (o: Outcome)
    ensures Get(o.session, StatusKey) == Some(Bool(true))
    ensures Get(o.session, MessageKey) == Some(Str(RegisterSucceeded))
    ensures forall k :: k != MessageKey && k != StatusKey ==> Get(o.session, k) == Get(s, k)
    ensures o.session.maxAge == s.maxAge
    ensures 0 < |o.steps| && o.steps[|o.steps| - 1] == Send(Redirect(MovedPermanently, "/form-login"))
  {
    if insertOk then RedirectWithMessage(s, RegisterSucceeded, true, "/form-login")
    else
      var failed := RedirectWithMessage(s, RegisterFailed, false, "/form-register");
      var succeeded := RedirectWithMessage(failed.session, RegisterSucceeded, true, "/form-login");
      Outcome(succeeded.session, failed.steps + succeeded.steps)
  }

  /** `register` with the failure redirect returned, as its branch evidently means. */
  function RegisterIntended(s: Session, insertOk: bool): (o: Outcome)
    ensures Sends(o.steps) == 1
    ensures insertOk ==>
      && Deliver(o.steps) == Delivery(Some(o.session), Some(Redirect(MovedPermanently, "/form-login")))
      && Get(o.session, MessageKey) == Some(Str(RegisterSucceeded))
      && Get(o.session, StatusKey) == Some(Bool(true))
    ensures !insertOk ==>
      && Deliver(o.steps) == Delivery(Some(o.session), Some(Redirect(MovedPermanently, "/form-register")))
      && Get(o.session, MessageKey) == Some(Str(RegisterFailed))
      && Get(o.session, StatusKey) == Some(Bool(false))
  {
    if insertOk then RedirectWithMessage(s, RegisterSucceeded, true, "/form-login")
    else RedirectWithMessage(s, RegisterFailed, false, "/form-register")
  }

  // ---- addProject / updateProject -------------------------------------------

  datatype Command =
    | InsertRow(fields: ProjectFields, author: int)
    | UpdateRow(id: int, fields: ProjectFields)

  /** The statement a handler runs, if it gets that far, and its reply. */
  datatype ProjectOutcome = ProjectOutcome(command: Option<Command>, reply: Reply)

  /**
    `addProject`: the author is the session's integer id; without one the
    type assertion panics before anything is inserted. `execError` is the
    database's answer to the insert.
   */
  function AddProject(s: Session, form: Form, image: string, execError: Option<string>): (p: ProjectOutcome)
    ensures !(IdKey in s.values && s.values[IdKey].Int?) ==> p == ProjectOutcome(None, Panic)
    ensures IdKey in s.values && s.values[IdKey].Int? ==>
      && p.command == Some(InsertRow(DecodeProject(form, image), s.values[IdKey].i))
      && p.reply == (if execError.None? then Redirect(MovedPermanently, "/") else InternalError(execError.value))
  {
    if IdKey in s.values && s.values[IdKey].Int? then
      var command := InsertRow(DecodeProject(form, image), s.values[IdKey].i);
      ProjectOutcome(Some(command), if execError.None? then Redirect(MovedPermanently, "/") else InternalError(execError.value))
    else ProjectOutcome(None, Panic)
  }

  /** `updateProject` for the id the route parsed; it does not read the session. */
  function UpdateProject(id: int, form: Form, image: string, execError: Option<string>): (p: ProjectOutcome)
    ensures p.command == Some(UpdateRow(id, DecodeProject(form, image)))
    ensures execError.None? ==> p.reply == Redirect(MovedPermanently, "/#my-project")
    ensures execError.Some? ==> p.reply == InternalError(execError.value)
  {
    ProjectOutcome(Some(UpdateRow(id, DecodeProject(form, image))),
      if execError.None? then Redirect(MovedPermanently, "/#my-project") else InternalError(execError.value))
  }
}
