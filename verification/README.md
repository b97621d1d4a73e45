# Personal portfolio web app: duration labels and session flow

This is a Dafny model of the two pieces of logic in the portfolio web application's `main.go`
that can be stated without I/O.

1. **The duration label** (`calculateDuration`). It turns two `YYYY-MM-DD` dates into a text
   such as `"2 years"`. The dates are parsed with Go's layout `"2006-01-02"` and subtracted as
   `time.Time` values. The hour count then goes through a chain of truncating integer divisions:
   days, weeks of 7 days, "months" of 4 weeks, "years" of 12 months. The most significant positive
   unit is written out, with the plural word exactly when the count exceeds one.
2. **The session and flash state machine.** The session is a cookie-backed map of values under
   the keys `isLogin`, `id`, `name`, `email`, `status` and `message`, plus the max-age its cookie
   is saved with. The handlers `redirectWithMessage`, `home`, `formLogin`, `login`, `logout` and
   `register` are pure transitions here. Each returns the session it ends with and the trace of
   what it wrote: a `Save` for each `sess.Save` and a `Send` for each reply. The model also covers
   the form decoding of `addProject` and `updateProject`: the four technology checkboxes, the
   project fields and the author id read from the session.

Modules:

- `Wrappers`: `Option` and `Result`.
- `Decimal`: `strconv.Itoa` and its inverse.
- `Dates`: the proleptic Gregorian calendar, day numbers, and the `"2006-01-02"` layout's `Format`
  and `Parse`.
- `Duration`: `calculateDuration`.
- `Forms`: `c.FormValue`, the checkboxes and the project fields.
- `Sessions`: session values, flash consumption, the client's cookie jar.
- `Handlers`: the handlers.
- `Requests`: properties of sequences of requests.

How a trace becomes what the client sees (`Handlers.Deliver`): the first reply commits the
response. The client receives that reply together with the cookie last saved before it. Saves
and replies after it are dropped, and a panic sends nothing. A cookie saved with a negative
max-age is deleted by the client. The max-age is a store option and is not part of the cookie,
so every request starts with the cookie store's default of 30 days (`Sessions.Load`).

Things the code does that a quick reading of it might miss, all modelled as the code does them:

- A text that does not parse is read as the zero time, 0001-01-01. It does not make the duration
  zero: with a start date more than 106751 days after that, an unparseable end date reads
  `"-106751 day"`, an unparseable start date before such an end date reads `"317 years"`, and two
  unparseable texts read `"0 day"`.
- `time.Time.Sub` saturates at the `int64` nanosecond range. Spans longer than 106751 days read
  `"317 years"`, and equally long negative spans read `"-106751 day"`.
- `register` does not always report success to the client. When the insert fails, the first
  redirect (to `/form-register`, failure flash) commits the response. The success flash and
  redirect that follow only change the handler's in-memory session. See "## Findings".

## Model

| member | source | states |
|---|---|---|
| Decimal.Itoa | main.go:165-182 | the count's text is non-empty, starts with '-' exactly for a negative count, and is otherwise digits with no leading zero and no "-0", as `strconv.Itoa` writes it |
| Decimal.ItoaRoundTrip | main.go:165-182 | the count is written as decimal text that reads back as the same integer, with a leading '-' exactly for negative counts |
| Decimal.ItoaInjective | main.go:165-182 | different counts never produce the same text |
| Decimal.ParseIntItoa | main.go:165-182 | every text the inverse parser accepts is exactly the text `strconv.Itoa` writes for its value, so the decimal form of a count is unique |
| Dates.Format | main.go:95-96 | `Format("2006-01-02")` writes four digits, '-', two digits, '-', two digits, whose values are the year, month and day |
| Dates.Parse | main.go:153-154 | `time.Parse` with the layout accepts only texts naming a calendar date with a year in 0..9999 |
| Dates.ParseFormat | main.go:95-97 | parsing the text that `Format("2006-01-02")` writes for a date gives back that date |
| Dates.FormatParse | main.go:153-154 | every text `time.Parse` accepts with the layout is exactly the formatted text of the date it yields |
| Dates.ParseOrZero | main.go:153-154 | with the parse error ignored, a text that parses gives the date whose formatted text it is, and any other text gives the zero time 0001-01-01 |
| Dates.DayNumber | main.go:156 | the day count behind `Sub`: every day of a year lies between the count of that year's first day and the next year's |
| Dates.NextDayNumber | main.go:156 | the day numbers behind `Sub` count calendar days one at a time, including month, year and leap-day boundaries |
| Duration.TruncDiv | main.go:157-160 | Go's integer division: the quotient has the sign of the dividend and lies within one divisor of it, so it rounds toward zero |
| Duration.Sub | main.go:156 | the span between two midnights in nanoseconds is 86400e9 per day while it fits an int64, and is clamped to the int64 bounds otherwise |
| Duration.WholeHours | main.go:156 | a duration in the int64 range gives an hour count within ±2562047, exact for whole hours |
| Duration.CountsOf | main.go:157-160 | the chain of divisions gives days, weeks, months and years equal to the hours divided directly by 24, 168, 672 and 8064, truncated toward zero |
| Duration.ChainedCounts | main.go:157-160 | the chained divisions equal direct divisions of the hours by 24, 168, 672 and 8064 |
| Duration.Select | main.go:164-186 | years when the year count is positive, else months when that count is positive, else weeks when positive, else days (zero or negative included) |
| Duration.Render | main.go:164-183 | the label is the decimal count, a space and the unit word, plural exactly when the count exceeds one, and it parses back to the same count and unit; with RenderParse, no other text parses to that label |
| Duration.ParseRender | main.go:164-183 | a well-formed label's text parses back to that label |
| Duration.RenderParse | main.go:164-183 | every text the label parser accepts is exactly what is written for its label, so the text of a label is unique |
| Duration.CalculateDuration | main.go:152-189 | for any two texts the result is a well-formed label: years 1..317, months 1..11, weeks 1..3, or days from -106751 to 6 |
| Duration.SelectRange | main.go:157-186 | for hour counts a duration can hold, each selected unit's count lies in the range above |
| Duration.DurationOfDates | main.go:152-160 | for formatted dates within the duration range, the hour count is 24 per calendar day between them |
| Duration.FormattedDatesParse | main.go:153-156 | formatted dates parse back to themselves, so the label depends only on their difference |
| Duration.HoursOfSpan | main.go:156-157 | within the duration range, a span of whole days is exactly 24 hours per day |
| Duration.SameDateIsZeroDay | main.go:179-183 | the same text twice gives "0 day", for any text |
| Duration.EndBeforeStart | main.go:179-183 | an end date before the start gives the negative day count with the singular "day" |
| Duration.LongSpanSaturates | main.go:156-165 | spans longer than 106751 days read "317 years" |
| Duration.LongNegativeSpanSaturates | main.go:156-183 | end dates more than 106751 days before the start read "-106751 day" |
| Duration.UnparseableIsZeroTime | main.go:153-154 | a text that does not parse, as start or end, gives the same label as the formatted zero time 0001-01-01 |
| Duration.UnparseableEndSaturates | main.go:153-183 | an unparseable end date after a start more than 106751 days past 0001-01-01 reads "-106751 day" |
| Duration.UnparseableStartSaturates | main.go:153-165 | an unparseable start date before an end more than 106751 days past 0001-01-01 reads "317 years" |
| Duration.UnparseableTextsZeroDay | main.go:153-183 | two texts that do not parse read "0 day" |
| Duration.ExampleTwoYears | main.go:152-189 | 2020-01-01 to 2022-06-01 (882 days, 126 weeks, 31 months, 2 years) reads "2 years" |
| Duration.ExampleOneMonth | main.go:152-189 | 2024-01-01 to 2024-02-15 (45 days, 6 weeks, 1 month) reads "1 month" |
| Duration.ExampleOneDay | main.go:152-189 | 2024-01-01 to 2024-01-02 reads "1 day" |
| Forms.FormValue | main.go:192-195 | a field's first value, or "" when the field is absent or has no value |
| Forms.Checked | main.go:200-203 | a checkbox is on exactly when its field's first value is "checked"; absent, empty or any other value is off |
| Forms.DecodeTechnologies | main.go:200-218 | each of html, css, react and js is true exactly when its own field is checked |
| Forms.DecodeEncode | main.go:200-218 | decoding what a browser submits for a set of ticked boxes gives back exactly those boxes |
| Forms.DecodeIgnoresOtherFields | main.go:200-218 | fields other than the four checkboxes never change the flags |
| Forms.DecodeProject | main.go:192-220 | name, description and image come from the form and the interceptor; a date that parses is stored as that date, any other as the zero time; the flags follow the checkbox rule |
| Sessions.Put | main.go:453-454 | setting a key changes that key only and keeps the max-age |
| Sessions.ConsumeFlash | main.go:111-119 | the page gets status and message as stored; the session keeps every other key and the max-age and loses exactly those two |
| Sessions.ConsumeFlashTwice | main.go:118-119 | consuming twice shows no flash the second time and changes nothing more |
| Sessions.ConsumeFlashConsistent | main.go:118-119 | removing the flash keeps the login keys |
| Sessions.Load | main.go:102 | a request's session holds the cookie's values, or none, with the store's default max-age |
| Sessions.Store | main.go:445-446 | a cookie saved with a negative max-age is deleted, any other saved cookie replaces the old one, no save leaves the jar alone |
| Sessions.StoreConsistent | main.go:438 | saving consistent sessions keeps the client's cookie consistent |
| Handlers.DeliverFrom | main.go:451-457 | a trace of only saves sends no reply; a trace starting with a reply that is not a panic delivers that reply with the cookie saved so far |
| Handlers.FirstReplyCommits | main.go:382-386 | the client gets the first reply with the session of the last save before it, and nothing after that reply changes what it gets |
| Handlers.RedirectWithMessage | main.go:451-457 | sets exactly message and status, keeps every other key and the max-age, and delivers a 301 to the path with that session |
| Handlers.RedirectWithMessageConsistent | main.go:451-457 | setting the flash keeps a consistent login state consistent |
| Handlers.ViewOf | main.go:95-97 | a listed project's date texts parse back to its dates, its duration is `calculateDuration` of those texts, and within ±106751 days that is the label of 24 hours per day between them |
| Handlers.ViewOfLongSpan | main.go:95-97 | past ±106751 days a listed project shows the clamped labels "317 years" and "-106751 day" |
| Handlers.ViewsOf | main.go:87-100 | one view per row, in row order |
| Handlers.RefreshUserData | main.go:104-109 | the shown login flag is true exactly when the stored flag is the boolean true; the name is refreshed only then and kept otherwise |
| Handlers.Home | main.go:84-129 | a scan error answers 500 with nothing changed; a session whose true login flag comes with a string name gets its flash shown and removed, the login state shown, and the page or a template 500; a true flag without a string name panics after setting the global flag |
| Handlers.FormLogin | main.go:390-409 | shows the stored flash, saves the session without it, renders the form or a 500 |
| Handlers.Login | main.go:411-441 | unknown email: flash "Email Incorrect!" to /form-login; wrong password: "Password Incorrect!" to /form-login; success: the login keys from the user row, flash "Login success!", max-age 10800, other keys kept, 301 to / |
| Handlers.Logout | main.go:443-449 | keeps the values, saves with a negative max-age, 301 to / |
| Handlers.Register | main.go:369-387 | the handler always ends with the "Register success!" flash and its last reply is the 301 to /form-login, other keys kept |
| Handlers.RegisterIntended | main.go:382-386 | with the failure redirect returned there is exactly one reply: /form-register with the failure flash, or /form-login with the success flash |
| Handlers.AddProject | main.go:191-234 | without an integer id in the session the handler panics before inserting; otherwise it inserts the decoded fields under that author and answers a 301 to / or a 500 |
| Handlers.UpdateProject | main.go:316-357 | updates the given id with the decoded fields and answers a 301 to /#my-project or a 500 |
| Requests.LoginKeepsConsistent | main.go:430-438 | a login never leaves the login flag set without a string name and an integer id |
| Requests.LogoutKeepsConsistent | main.go:443-446 | logout keeps the session consistent |
| Requests.RegisterKeepsConsistent | main.go:382-386 | register keeps the session consistent |
| Requests.FlashReadersKeepConsistent | main.go:111-120 | the home page and the login form keep the session consistent |
| Requests.HomeDoesNotPanic | main.go:104-109 | with a consistent cookie, the home page's type assertions cannot fail |
| Requests.AddProjectWhenLoggedIn | main.go:222-227 | in a consistent logged-in session the add handler finds an integer author id and inserts under it |
| Requests.AddProjectAfterLogin | main.go:222-227 | after a successful login, the client's next add request inserts the decoded fields under the logged-in user's id and answers a 301 to / or a 500 |
| Requests.AddProjectWithoutSession | main.go:222-223 | a client without a session cookie makes the add handler panic with nothing inserted |
| Requests.AddAndUpdateAgree | main.go:200-218 | add and update store the same fields for the same form |
| Requests.FlashShownOnce | main.go:111-120 | a flash set by a redirect is shown by the next home page, and the page after it shows none |
| Requests.UnknownEmailShownOnce | main.go:420-423 | a rejected email is reported once on the next login form, and the form after it shows no flash |
| Requests.LoginThenHome | main.go:430-440 | after a successful login the next home page shows the user logged in, with the row's name and the "Login success!" flash |
| Requests.LogoutEndsLogin | main.go:443-448 | after logout the client has no cookie, and the next home page shows the user logged out, whatever the session held |
| Requests.RegisterSuccessAsIntended | main.go:386 | with a successful insert, the handler as written and as intended coincide |
| Requests.RegisterFailureTwoRedirects | main.go:382-386 | with a failed insert the handler issues two replies; the client gets the first, /form-register with the failure flash, while the handler's own session ends claiming success |

## Left out

- The database. Every SQL query and statement is left out, along with the shared connection.
  Each enters the model as an oracle parameter: the row list (or a scan error) for `home`; the
  user lookup by email for `login`; insert success for `register`; the execution error for add
  and update.
- bcrypt. The comparison is a parameter `matches(hash, password)`. Hashing at registration is
  not modelled; only the insert's success matters to the session.
- Template parsing and rendering. A parse error is a parameter. The page content is the view
  record the template receives.
- Routing, static files, the cookie store's signing and encoding, and the upload interceptor.
  The uploaded image path is a parameter.
- The handlers `contact`, `testimonial`, `formAddProject`, `formRegister`, `projectDetail`,
  `updateProjectEdit` and `deleteProject`. Each only runs a query or renders a template and does
  not touch the session. The path id that `strconv.Atoi` parses for update is a parameter.
- The `log.Fatal` call when form parsing fails, and the `fmt.Println` debug output.
- Concurrency. `userData` is one global shared by all requests. Here it is threaded through
  `Home` as a parameter and result, one request at a time.
- Cookie expiry over time. The model keeps the max-age value a cookie is saved with, but not
  the clock that makes a 3-hour login cookie expire.
- Handlers.ViewOf: requires both dates of a row to have years 0..9999. The database can hold
  other years, and `Format` would then write a text that does not parse.
- Duration.WholeHours: `Duration.Hours()` returns a float64 and `int()` truncates it. The model
  uses the integer quotient. The two differ for some durations: a fraction just below one hour
  added to 2562046 hours rounds up to 2562047.0. They agree on every value `Sub` yields here: a
  whole number of days, whose fraction is zero, or one of the two clamps, whose fraction is
  about 0.788 in size and does not round up.
- Duration.CalculateDuration: `time.Parse` is modelled for the one layout `"2006-01-02"`, in UTC.
- Handlers.Home: a failing row scan is modelled as an error for the whole list. The source may
  stop partway through the rows, but either way the answer is the same 500. Home and ViewsOf
  also require every row's dates to have years 0..9999, as ViewOf does.

## Findings

| source | as written | input that shows it | evidently intended | confidence | as-written member | corrected member |
|---|---|---|---|---|---|---|
| main.go:382-386 | when the insert fails, `redirectWithMessage` is called without `return`, so the success flash and the redirect to /form-login run as well | any registration whose insert into `tb_user` fails | `return redirectWithMessage(c, "Register failed, please try again.", false, "/form-register")` | high for the double reply; medium for what the client sees, which depends on the response committing at the first redirect; not executed | Requests.RegisterFailureTwoRedirects | Handlers.RegisterIntended |

With the insert failing, `Requests.RegisterFailureTwoRedirects` proves that `Handlers.Register`
sends two replies and ends with a session claiming success. It also proves that what the client
receives equals what `Handlers.RegisterIntended` delivers. So the defect does not change what the
client sees: the second redirect is discarded. `Handlers.RegisterIntended` is proved to send
exactly one reply with the flash matching the insert's outcome.
