# Donation tracker client, modelled in Dafny

This project models the browser-side logic of a donation-tracker web client:
- the shared HTTP client's request interceptor, which reads the `jwt` cookie and attaches a bearer credential;
- the session test every gated page repeats on the cookie;
- the form validators of the login, signup, create-activity, update-activity and admin edit pages;
- the request handlers of the activity, "my activities", "my donations" and admin pages;
- the header panel's login/logout switch and the admin shell's tabs;
- the Gemini chat widget and its API wrapper.

Each page component becomes a `class` whose fields are the component's
`useState` variables. Each handler becomes a method whose `modifies` clause
names the page, and where the handler navigates, alerts or writes the
cookie, it also names the `Http.Browser`. `Http.Browser` holds
`document.cookie` as one string, the router's navigations in order and the
`alert` messages in order.

A handler that awaits a server call is cut in two. The first method runs up
to the request: it validates, sets the pending flag and returns the request
as an `Option`. The second method (`...Reply`) takes the settled answer as a
`Reply<T>` (`Ok(value)` or `Fail(error)`) and applies the outcome.

Things the client reads from its surroundings are parameters:
- `Number(text)` is a `JsNumber`; `new Date(text)` is a `JsDate`; `Date.now()` is `now`.
- The answer to `window.confirm` is a `bool`.
- Server answers are `Reply<T>` values.

Validation follows one pattern throughout:
- Each form's checks are listed in order as `Check(passes, message)` values.
- `Validation.FirstFailure` gives the message of the first failing check.
- Each `ValidateForm` method keeps the source's cascade of early returns and is proved to agree with that function.
- The page's lemmas then say, in the page's own terms, when the form is accepted.

Modules follow the source files:
- `axios.dfy` ↔ `src/api/axios.ts`; `gemini_api.dfy` ↔ `src/api/gemini.api.ts`.
- One file per page or component.
- Shared helpers: `Wrappers`, `JsText` (JavaScript `trim`, `split`, `includes`, `substring`, decimal formatting), `Http`, `Entities`, `Validation`, `Session`.

## Model

| member | source | states |
|---|---|---|
| JsText.Trim | src/api/axios.ts:23 | `String.prototype.trim`: white space stripped from both ends; its meaning is pinned by TrimShape, TrimUnpadded and TrimEmptyIffBlank |
| JsText.TrimShape | src/api/axios.ts:23 | `trim()` returns a contiguous piece of its input that neither starts nor ends with white space |
| JsText.TrimStartShape | src/api/axios.ts:23 | stripping the front leaves a suffix of the input that is empty or starts with a non-space |
| JsText.TrimEndShape | src/api/axios.ts:23 | stripping the back leaves a prefix of the input that is empty or ends with a non-space |
| JsText.TrimEmptyIffBlank | src/pages/Activities/CreateActivity/index.tsx:40-48 | `!x.trim()` holds exactly when every character of `x` is white space |
| JsText.TrimUnpadded | src/api/axios.ts:23 | a string with no white space at either end is left as it is by `trim()` |
| JsText.Split | src/api/axios.ts:19 | `split` always yields at least one piece |
| JsText.SplitPieces | src/api/axios.ts:19 | no piece of `split(sep)` contains `sep`, and joining the pieces with `sep` gives back the input |
| JsText.SplitJoin | src/api/axios.ts:19 | splitting the join of separator-free pieces gives back those pieces, so split and join are inverses |
| JsText.SplitConcat | src/api/axios.ts:19 | splitting `a + sep + b` gives the pieces of `a` followed by the pieces of `b` |
| JsText.SplitAtFirst | src/api/axios.ts:23 | the first piece is the text before the first separator |
| JsText.SplitNoSeparator | src/api/axios.ts:19 | text without the separator is one piece |
| JsText.Contains | src/pages/Activities/Activity/index.tsx:34 | `String.prototype.includes`; ContainsIffOccurs proves it means an occurrence at some index |
| JsText.ContainsIffOccurs | src/pages/Activities/Activity/index.tsx:34 | `includes(w)` holds exactly when `w` occurs at some index of the string |
| JsText.ContainsSkipsPrefix | src/pages/Activities/Activity/index.tsx:34 | a prefix without the first letter of `w` does not change whether `w` occurs |
| JsText.Prefix | src/pages/Donations/MyDonations/index.tsx:132 | `substring(0, n)` is a prefix of the string, of length `n` or the whole string when shorter |
| JsText.DigitChar | src/pages/Activities/UpdateActivity/index.tsx:52-54 | a digit below ten is written as the matching decimal character |
| JsText.DigitValue | src/pages/Activities/UpdateActivity/index.tsx:52-54 | a decimal character reads back as the digit it writes |
| JsText.DecimalString | src/pages/Activities/UpdateActivity/index.tsx:52-54 | a number is written with at least one digit and only digits; one digit below 10, two below 100 |
| JsText.DecimalRoundTrip | src/pages/Activities/UpdateActivity/index.tsx:52-54 | reading a written number gives the number back |
| JsText.LeadingZero | src/pages/Activities/UpdateActivity/index.tsx:53-54 | a leading `0` does not change the value read |
| JsText.PadTwo | src/pages/Activities/UpdateActivity/index.tsx:53-54 | `padStart(2, '0')` makes a string at least two long and leaves a longer one as it is |
| JsText.TwoDigits | src/pages/Activities/UpdateActivity/index.tsx:53-54 | a number below 100, padded, is exactly two digits that read back as the number |
| Http.MessageOr | src/pages/Activities/CreateActivity/index.tsx:103 | `err.response?.data?.message \|\| fallback`: the server's non-empty message when there is one, otherwise the fallback; never empty when the fallback is not |
| Http.CaughtMessage | src/pages/Login/index.tsx:33-40 | an `AxiosError` shows the server's message or the fallback; any other error shows the generic message |
| Http.LoginRedirect | src/pages/Activities/CreateActivity/index.tsx:34 | a gated page sends the visitor to `/login` with the page it came from as `from` |
| Session.LoggedIn | src/pages/Activities/Activity/index.tsx:34-38 | the gate every page repeats, `cookie && !cookie.includes('loggedout')`; LoginCookieSession and LogoutEndsSession say which cookies pass it |
| Session.AdminAdmits | src/pages/Admin/index.tsx:20 | the admin shell's weaker gate, `!cookie.includes('loggedout')`; AdminAdmitsIff compares it with LoggedIn |
| Session.LoginCookie | src/pages/Login/index.tsx:31 | the login cookie is `jwt=` followed by exactly the token |
| Session.AdminAdmitsIff | src/pages/Admin/index.tsx:20-22 | the admin shell admits every logged-in cookie and also the empty cookie, which the other gates refuse |
| Session.LogoutEndsSession | src/components/HeaderPanel/index.tsx:27 | after `jwt=loggedout` no gate admits the visitor, yet the interceptor still sends the token `loggedout` |
| Session.LoginCookieSession | src/pages/Login/index.tsx:31 | the cookie written at login counts as logged in exactly when the token does not contain `loggedout` |
| AxiosClient.ParseEntry | src/api/axios.ts:23 | `cookie.trim().split('=')` destructured into name and value; EntryPair, EntryParts and EmptyJwtPieces give its result on the pieces that matter |
| AxiosClient.ParseAll | src/api/axios.ts:22-23 | one entry is parsed for each cookie piece |
| AxiosClient.ParseAllAt | src/api/axios.ts:23 | the k-th entry is the parse of the k-th piece |
| AxiosClient.ParseAllAppend | src/api/axios.ts:22-23 | parsing works piece by piece over a concatenation |
| AxiosClient.FirstJwt | src/api/axios.ts:22-28 | with no entry named `jwt`, no token is found |
| AxiosClient.TokenOf | src/api/axios.ts:19-28 | the token the interceptor reads from a whole cookie string; FindToken computes it, CookieJoin and LoginCookieToken characterise it |
| AxiosClient.FirstJwtDecides | src/api/axios.ts:24-27 | the value of the first `jwt` entry is the token; later `jwt` entries are ignored |
| AxiosClient.FirstJwtAppend | src/api/axios.ts:22-28 | over two runs of entries, the first run decides when it holds a `jwt` entry, otherwise the second |
| AxiosClient.CookieJoin | src/api/axios.ts:19-28 | cookies joined by `;`: the token comes from the first part when that part names `jwt`, otherwise from the second part |
| AxiosClient.UnpaddedEntry | src/api/axios.ts:23 | a piece without surrounding white space is split on `=` as it stands |
| AxiosClient.EntryParts | src/api/axios.ts:23 | the piece `name=value=rest` has that name and the value `value` |
| AxiosClient.EntryPair | src/api/axios.ts:23 | the piece `name=value` parses to that name and value |
| AxiosClient.SingleEntry | src/api/axios.ts:19 | a cookie without `;` is one entry |
| AxiosClient.LoginCookieToken | src/api/axios.ts:19-34 | the cookie written at login gives back its token |
| AxiosClient.SecondEqualsCutsValue | src/api/axios.ts:23 | in `jwt=a=b` the token is `a`: the value stops at the second `=` |
| AxiosClient.EmptyFirstJwtStops | src/api/axios.ts:24-27 | a first `jwt` entry with an empty or missing value ends the search with no token, even when a later entry holds one |
| AxiosClient.EmptyJwtPieces | src/api/axios.ts:23 | both `jwt=` and a bare `jwt` are named `jwt` and have no value |
| AxiosClient.FindToken | src/api/axios.ts:19-28 | the interceptor's loop, with its `break`, finds the value of the first `jwt` entry, or nothing |
| AxiosClient.RequestConfig.constructor | src/api/axios.ts:3-8 | the base URL is the API URL followed by `/api`, with a JSON content type |
| AxiosClient.RequestConfig.AttachCredentials | src/api/axios.ts:30-34 | with a token, `Authorization: Bearer <token>` is added; without one, the headers are left alone; the base URL never changes |
| Entities.PositiveNumber | src/pages/Activities/Activity/index.tsx:73-77 | the amount guard passes (no empty text, no NaN, nothing at or below zero; the same guard is at src/pages/Activities/CreateActivity/index.tsx:50): the text is non-empty and parses as a number above zero |
| Entities.DateBefore | src/pages/Activities/CreateActivity/index.tsx:60-63 | `a < b` on two dates: true only when both are valid and the first is earlier, so an invalid date is never before anything |
| Entities.WithoutId | src/pages/Activities/MyActivities/index.tsx:58 | `filter(x => x._id !== id)` keeps exactly the entries whose id differs, and nothing else |
| Entities.WithoutIdAppend | src/pages/Admin/AdminActivities/index.tsx:42 | filtering keeps order: it works piece by piece over a concatenation |
| Entities.WithoutIdAbsent | src/pages/Admin/AdminUsers/index.tsx:41 | a list without the id is left unchanged |
| Entities.WithoutIdIdempotent | src/pages/Admin/AdminUsers/index.tsx:41 | removing an id twice is the same as removing it once |
| Entities.RemoveSingle | src/pages/Admin/AdminActivities/index.tsx:42 | removing an id that occurs once removes exactly that entry and keeps the rest in order |
| Entities.TotalAmount | src/pages/Admin/AdminDashboard/index.tsx:35 | `reduce((sum, d) => sum + d.amount, 0)`, also at src/pages/Donations/MyDonations/index.tsx:165; TotalAmountAppend and TotalAmountPositive state its properties |
| Entities.TotalAmountAppend | src/pages/Admin/AdminDashboard/index.tsx:35 | the donation sum splits over a concatenation |
| Entities.TotalAmountPositive | src/pages/Donations/MyDonations/index.tsx:165 | with positive amounts, the total is zero for no donations and positive otherwise |
| Entities.CountStatus | src/pages/Admin/AdminDashboard/index.tsx:36-37 | a status count never exceeds the list's length |
| Entities.OpenPlusClosed | src/pages/Admin/AdminDashboard/index.tsx:36-37 | the active and closed counts add up to the number of activities |
| Entities.ProgressPercent | src/pages/Activities/Activity/index.tsx:143-144 | `(totalDonations / goalAmount) * 100`; BarFullIffGoalReached and DonationGrowsBar relate it to the goal and to donations |
| Entities.BarWidth | src/pages/Activities/Activity/index.tsx:236 | `Math.min(progress, 100)`: at most 100, at most the progress, and equal to one of them |
| Entities.BarFullIffGoalReached | src/pages/Activities/MyActivities/index.tsx:192 | the bar is full exactly when total donations reach the goal; below the goal the bar shows the percentage itself |
| Validation.FirstFailure | src/pages/Activities/CreateActivity/index.tsx:39-75 | there is no failure message exactly when every check passes |
| Validation.FirstFailingDecides | src/pages/Activities/CreateActivity/index.tsx:39-75 | the message shown belongs to the first failing check |
| Validation.FailureHasFirstFailing | src/pages/Activities/CreateActivity/index.tsx:39-75 | every failure message comes from some first failing check |
| Validation.FirstFailureExtend | src/pages/Admin/AdminActivities/update.tsx:99-103 | a check added at the end matters only when all earlier checks pass |
| Validation.EmailValid | src/pages/Signup/index.tsx:34-39 | the email test in plain words; EmailValidIffRegex proves it accepts exactly what `/^[^\s@]+@[^\s@]+\.[^\s@]+$/` matches |
| Validation.EmailValidToRegex | src/pages/Signup/index.tsx:34-39 | an email accepted by the model's test matches the email pattern |
| Validation.EmailRegexToValid | src/pages/Signup/index.tsx:34-39 | an email matching the pattern is accepted by the model's test |
| Validation.EmailValidIffRegex | src/pages/Admin/AdminUsers/update.tsx:69 | the email test accepts exactly the strings the pattern matches |
| Validation.ValidEmailNotBlank | src/pages/Signup/index.tsx:27-39 | a valid email is never blank, so the required-email check cannot fire after it passes |
| Validation.ImageUrl | src/pages/Activities/CreateActivity/index.tsx:69 | `/^(http\|https):\/\/[^ "]+$/` written as a predicate; HttpsUrl and ImageUrlShape state which strings it accepts |
| Validation.HttpsUrl | src/pages/Activities/CreateActivity/index.tsx:69-72 | `https://` followed by text without spaces or quotes is an accepted image URL |
| Validation.DefaultImageIsUrl | src/pages/Activities/CreateActivity/index.tsx:94 | the default image address is itself an accepted image URL |
| Validation.ImageUrlShape | src/pages/Activities/CreateActivity/index.tsx:69-72 | an accepted image URL starts with `http`, has at least eight characters, and holds no space or quote |
| Validation.ActivityChecks | src/pages/Activities/CreateActivity/index.tsx:40-66 | the activity form has five checks |
| Validation.ActivityChecksVerdict | src/pages/Activities/CreateActivity/index.tsx:39-66 | the verdict is the cascade of early returns, and the form is accepted exactly when name and description are present, the goal is a positive number, and the end date is given and not before now (an unparseable date also passes) |
| Validation.ImageCheck | src/pages/Activities/CreateActivity/index.tsx:68-72 | an empty image passes; any other image must be an `http://` or `https://` address without spaces or quotes, or the form is refused with the image message |
| Validation.ActivityImageChecks | src/pages/Activities/CreateActivity/index.tsx:39-75 | the image check comes sixth, after the five activity checks |
| Validation.ActivityImageVerdict | src/pages/Admin/AdminActivities/update.tsx:70-106 | the image message shows only when the activity checks pass and the image is neither empty nor a URL |
| Validation.AcceptedImageIsUrl | src/pages/Activities/CreateActivity/index.tsx:69-72 | once the image check passes, the image actually sent (the default when left empty) is a URL |
| ActivityPage.CreatorLabel | src/pages/Activities/Activity/index.tsx:199-201 | the creator's first and last names, or `Unknown` when there is no creator |
| ActivityPage.Donated | src/pages/Activities/Activity/index.tsx:90-94 | a donation raises the total by its value and changes nothing else of the activity |
| ActivityPage.DonationGrowsBar | src/pages/Activities/Activity/index.tsx:143-144 | a positive donation strictly raises the progress and never shrinks the bar |
| ActivityPage.Page.constructor | src/pages/Activities/Activity/index.tsx:21-30 | the page starts loading, with no activity, no error, the dialog closed and an empty amount |
| ActivityPage.Page.CheckLogin | src/pages/Activities/Activity/index.tsx:32-39 | the page is logged in exactly when the cookie passes the session test; nothing else changes |
| ActivityPage.Page.StartLoad | src/pages/Activities/Activity/index.tsx:41-46 | a request is made exactly when there is an id, and then loading is on |
| ActivityPage.Page.LoadReply | src/pages/Activities/Activity/index.tsx:47-54 | success stores the activity; failure shows the load error; loading ends either way |
| ActivityPage.Page.DonateButton | src/pages/Activities/Activity/index.tsx:60-68 | a visitor who is not logged in is sent to `/login` with this activity as `from`; otherwise the dialog opens |
| ActivityPage.Page.SetDonationAmount | src/pages/Activities/Activity/index.tsx:28 | the input sets the amount and nothing else |
| ActivityPage.Page.CloseModal | src/pages/Activities/Activity/index.tsx:305 | Cancel closes the dialog and nothing else |
| ActivityPage.Page.SubmitDonation | src/pages/Activities/Activity/index.tsx:70-88 | an empty, non-numeric or non-positive amount sets the error and sends nothing; otherwise the amount is sent and the pending flag is set |
| ActivityPage.Page.DonationReply | src/pages/Activities/Activity/index.tsx:88-107 | success adds the value to the total, clears the input, closes the dialog and thanks the donor; failure, or having no activity, keeps everything and shows the failure message; the pending flag always drops |
| ActivityPage.DonationScenario | src/pages/Activities/Activity/index.tsx:60-108 | an example run, not an all-inputs property: after a login, `-5` is refused without a request, then 50 is sent, and a total of 250 of a 1000 goal becomes 300, a 30% bar |
| CreateActivity.Payload | src/pages/Activities/CreateActivity/index.tsx:87-95 | a new activity starts open with nothing donated, and takes the default image when none is given |
| CreateActivity.AcceptedPayload | src/pages/Activities/CreateActivity/index.tsx:78-95 | an accepted form sends a positive goal, an end not before now and a URL image |
| CreateActivity.Form.constructor | src/pages/Activities/CreateActivity/index.tsx:16-25 | all fields start empty, not logged in, not loading, with no error |
| CreateActivity.Form.CheckLogin | src/pages/Activities/CreateActivity/index.tsx:28-36 | a visitor who fails the session test is sent to `/login` from `/create-activity`; anyone else stays |
| CreateActivity.Form.Edit | src/pages/Activities/CreateActivity/index.tsx:21-25 | the inputs set the five fields and nothing else |
| CreateActivity.Form.Renders | src/pages/Activities/CreateActivity/index.tsx:109-111 | the form is drawn only for a logged-in visitor, who CheckLogin decides |
| CreateActivity.Form.ValidateForm | src/pages/Activities/CreateActivity/index.tsx:39-75 | accepted exactly when no check fails; otherwise the message of the first failing check is shown |
| CreateActivity.Form.Submit | src/pages/Activities/CreateActivity/index.tsx:78-95 | a refused form sends nothing; an accepted form sends the payload with the end date's time and turns on loading |
| CreateActivity.Form.CreateReply | src/pages/Activities/CreateActivity/index.tsx:97-106 | success opens `/activity/<new id>`; failure shows the server's message or the fallback; loading ends either way |
| UpdateActivity.FormatYmd | src/pages/Activities/UpdateActivity/index.tsx:51-55 | the date is written as year, `-`, two-digit month and `-`, two-digit day |
| UpdateActivity.FormatYmdRoundTrip | src/pages/Activities/UpdateActivity/index.tsx:51-55 | the written date splits into three fields that read back as the year, month and day |
| UpdateActivity.Form.constructor | src/pages/Activities/UpdateActivity/index.tsx:16-26 | the form starts loading, with empty fields, status open, no error and no submission |
| UpdateActivity.Form.CheckLogin | src/pages/Activities/UpdateActivity/index.tsx:28-36 | a visitor who fails the session test is sent to `/login` from `/edit-activity/<id>` |
| UpdateActivity.Form.StartLoad | src/pages/Activities/UpdateActivity/index.tsx:38-46 | a request is made exactly when there is an id and the visitor is logged in |
| UpdateActivity.Form.LoadReply | src/pages/Activities/UpdateActivity/index.tsx:47-66 | success fills the form from the activity, with the goal as the given `toString()` text and the end date as `YYYY-MM-DD`; failure shows the load error |
| UpdateActivity.Form.Edit | src/pages/Activities/UpdateActivity/index.tsx:22-26 | the inputs set the five fields and nothing else |
| UpdateActivity.Form.Renders | src/pages/Activities/UpdateActivity/index.tsx:127-129 | the form is drawn only for a logged-in visitor |
| UpdateActivity.Form.ValidateForm | src/pages/Activities/UpdateActivity/index.tsx:69-99 | accepted exactly when no activity check fails; otherwise the first failing check's message is shown |
| UpdateActivity.Form.Submit | src/pages/Activities/UpdateActivity/index.tsx:101-116 | an accepted form sends exactly the five edited fields and marks the form as submitting |
| UpdateActivity.Form.UpdateReply | src/pages/Activities/UpdateActivity/index.tsx:117-125 | success opens the activity's page; any failure shows the fixed update error |
| AdminActivityEdit.DatePart | src/pages/Admin/AdminActivities/update.tsx:53 | `split('T')[0]` is the text before the first `T`, or all of it when there is none |
| AdminActivityEdit.DatePartOfTimestamp | src/pages/Admin/AdminActivities/update.tsx:53 | the date part of `date` + `T` + time is the date |
| AdminActivityEdit.Payload | src/pages/Admin/AdminActivities/update.tsx:118-125 | the update sends the edited fields and status, with the default image in place of an empty one |
| AdminActivityEdit.Form.constructor | src/pages/Admin/AdminActivities/update.tsx:19-30 | the form starts loading, not saving, with empty fields |
| AdminActivityEdit.Form.StartLoad | src/pages/Admin/AdminActivities/update.tsx:33-39 | a request is made exactly when there is an id, and it clears the error |
| AdminActivityEdit.Form.LoadReply | src/pages/Admin/AdminActivities/update.tsx:40-66 | success fills the form, with the goal as the given `toString()` text, the date part of the end and an empty image for a missing one; failure shows the load error |
| AdminActivityEdit.Form.Edit | src/pages/Admin/AdminActivities/update.tsx:25-30 | the inputs set the six fields and nothing else |
| AdminActivityEdit.Form.ValidateForm | src/pages/Admin/AdminActivities/update.tsx:70-106 | accepted exactly when no check fails, the image check included; otherwise the first failing message is shown |
| AdminActivityEdit.Form.Submit | src/pages/Admin/AdminActivities/update.tsx:109-125 | an accepted form sends the payload and turns on saving; a refused one sends nothing |
| AdminActivityEdit.Form.SaveReply | src/pages/Admin/AdminActivities/update.tsx:126-136 | success returns to `/admin`; failure shows the server's message or the fallback; saving ends |
| AdminUserEdit.UserChecks | src/pages/Admin/AdminUsers/update.tsx:58-76 | the user form has three checks |
| AdminUserEdit.UserChecksVerdict | src/pages/Admin/AdminUsers/update.tsx:58-76 | the verdict is the cascade of early returns; accepted exactly when the first name is not blank and the email is valid |
| AdminUserEdit.Form.constructor | src/pages/Admin/AdminUsers/update.tsx:17-26 | the form starts loading, with empty fields and the role `user` |
| AdminUserEdit.Form.StartLoad | src/pages/Admin/AdminUsers/update.tsx:29-35 | a request is made exactly when there is an id |
| AdminUserEdit.Form.LoadReply | src/pages/Admin/AdminUsers/update.tsx:37-52 | success fills the form from the user; failure shows the load error |
| AdminUserEdit.Form.Edit | src/pages/Admin/AdminUsers/update.tsx:23-26 | the inputs set the four fields and nothing else |
| AdminUserEdit.Form.ValidateForm | src/pages/Admin/AdminUsers/update.tsx:58-76 | accepted exactly when no check fails; otherwise the first failing message is shown |
| AdminUserEdit.Form.Submit | src/pages/Admin/AdminUsers/update.tsx:79-93 | an accepted form sends the four fields, with a non-blank first name and a valid email |
| AdminUserEdit.Form.SaveReply | src/pages/Admin/AdminUsers/update.tsx:94-103 | success returns to `/admin`; failure shows the server's message or the fallback |
| Login.Form.constructor | src/pages/Login/index.tsx:8-11 | empty fields, no error, not loading |
| Login.Form.Edit | src/pages/Login/index.tsx:8-9 | the inputs set email and password and nothing else |
| Login.Form.ValidateForm | src/pages/Login/index.tsx:13-22 | accepted exactly when neither field is blank; otherwise the single missing-credentials message |
| Login.Form.Submit | src/pages/Login/index.tsx:24-29 | credentials are sent exactly when neither field is blank |
| Login.Form.LoginReply | src/pages/Login/index.tsx:29-42 | success stores `jwt=<token>` and goes to `/`; failure shows the caught message and ends loading |
| Login.LoginStartsSession | src/pages/Login/index.tsx:31 | the cookie written at login starts a session whose requests carry that token |
| Signup.SignupChecks | src/pages/Signup/index.tsx:18-60 | the signup form has six checks |
| Signup.SignupChecksVerdict | src/pages/Signup/index.tsx:18-60 | the verdict is the cascade of early returns; accepted exactly when both names are present, the email is valid, and the password has three or more characters and matches its confirmation |
| Signup.Form.constructor | src/pages/Signup/index.tsx:10-16 | empty fields, no error, not loading |
| Signup.Form.Edit | src/pages/Signup/index.tsx:10-14 | the inputs set the five fields and nothing else |
| Signup.Form.ValidateForm | src/pages/Signup/index.tsx:18-60 | accepted exactly when no check fails; otherwise the first failing message is shown |
| Signup.Form.Submit | src/pages/Signup/index.tsx:62-69 | an accepted form sends the registration and turns on loading; a refused one sends nothing |
| Signup.Form.SignupReply | src/pages/Signup/index.tsx:69-80 | success goes to `/login` with the account-created notice; failure shows the caught message and ends loading |
| HeaderPanel.Panel.constructor | src/components/HeaderPanel/index.tsx:10-11 | the panel starts closed and logged out |
| HeaderPanel.Panel.OnLocation | src/components/HeaderPanel/index.tsx:13-22 | the panel is logged in exactly when the cookie passes the session test |
| HeaderPanel.Panel.Toggle | src/components/HeaderPanel/index.tsx:33 | a click flips the open state and nothing else |
| HeaderPanel.Panel.Logout | src/components/HeaderPanel/index.tsx:24-29 | once the server's logout succeeds, the panel logs out, writes `jwt=loggedout` and goes to `/`; a failed logout changes nothing |
| HeaderPanel.Panel.ShowsLogin | src/components/HeaderPanel/index.tsx:51-54 | the Login link shows exactly when the panel is logged out; LogoutThenNavigate uses it |
| HeaderPanel.Panel.ShowsLogout | src/components/HeaderPanel/index.tsx:55-64 | the Logout button shows exactly when the panel is logged in |
| HeaderPanel.LogoutThenNavigate | src/components/HeaderPanel/index.tsx:13-29 | after a successful logout, the next location change still shows Login and not Logout |
| AdminShell.PanelFor | src/pages/Admin/index.tsx:30-35 | the `content` map: each tab has its own panel |
| AdminShell.Shell.constructor | src/pages/Admin/index.tsx:15-16 | the shell starts loading, on the dashboard tab |
| AdminShell.Shell.AfterDelay | src/pages/Admin/index.tsx:18-24 | a cookie with the logout marker sends the visitor to `/login`; any other cookie ends loading |
| AdminShell.Shell.SelectTab | src/pages/Admin/index.tsx:54 | a tab click makes that tab active and nothing else |
| AdminShell.Shell.Shown | src/pages/Admin/index.tsx:26-64 | the spinner while loading, then `content[activeTab]`; ShownIsActiveTab states which panel shows |
| AdminShell.ShownIsActiveTab | src/pages/Admin/index.tsx:26-35 | once loaded, a tab's panel is shown exactly when that tab is active |
| MyActivities.Page.constructor | src/pages/Activities/MyActivities/index.tsx:15-18 | an empty list, loading, no error, not logged in |
| MyActivities.Page.CheckLogin | src/pages/Activities/MyActivities/index.tsx:20-28 | a visitor who fails the session test is sent to `/login` from `/my-activities` |
| MyActivities.Page.StartLoad | src/pages/Activities/MyActivities/index.tsx:30-38 | the list is fetched exactly when the visitor is logged in |
| MyActivities.Page.Renders | src/pages/Activities/MyActivities/index.tsx:65-67 | the list is drawn only for a logged-in visitor |
| MyActivities.Page.LoadReply | src/pages/Activities/MyActivities/index.tsx:38-46 | success replaces the list; failure shows the load error; loading ends |
| MyActivities.Page.DeleteActivity | src/pages/Activities/MyActivities/index.tsx:49-63 | the request is sent exactly when the visitor confirms; on success the activity is dropped from the list; on failure an alert shows and the list stays |
| AdminActivities.Page.constructor | src/pages/Admin/AdminActivities/index.tsx:8-11 | loading, an empty list, no error, no delete running |
| AdminActivities.Page.StartLoad | src/pages/Admin/AdminActivities/index.tsx:13-17 | loading starts and the error clears |
| AdminActivities.Page.LoadReply | src/pages/Admin/AdminActivities/index.tsx:18-30 | success replaces the list; failure shows the fixed load error |
| AdminActivities.Page.DeleteEnabled | src/pages/Admin/AdminActivities/index.tsx:123 | a delete button is enabled only while no delete runs; RequestDelete requires it and DeleteReply restores it |
| AdminActivities.Page.RequestDelete | src/pages/Admin/AdminActivities/index.tsx:32-38 | a delete is sent exactly when confirmed, and the buttons stay disabled until it settles |
| AdminActivities.Page.DeleteReply | src/pages/Admin/AdminActivities/index.tsx:39-50 | success drops the activity's entries and announces the deletion; failure alerts and keeps the list; the buttons are enabled again |
| AdminUsers.RoleLabel | src/pages/Admin/AdminUsers/index.tsx:99 | the badge reads `Admin` exactly for administrators and `User` exactly for users |
| AdminUsers.Page.constructor | src/pages/Admin/AdminUsers/index.tsx:7-10 | loading, an empty list, no error, no delete running |
| AdminUsers.Page.StartLoad | src/pages/Admin/AdminUsers/index.tsx:12-16 | loading starts and the error clears |
| AdminUsers.Page.LoadReply | src/pages/Admin/AdminUsers/index.tsx:17-29 | success replaces the list; failure shows the fixed load error |
| AdminUsers.Page.DeleteEnabled | src/pages/Admin/AdminUsers/index.tsx:112 | a delete button is enabled only while no delete runs; RequestDelete requires it and DeleteReply restores it |
| AdminUsers.Page.RequestDelete | src/pages/Admin/AdminUsers/index.tsx:31-37 | a delete is sent exactly when confirmed, and the buttons stay disabled until it settles |
| AdminUsers.Page.DeleteReply | src/pages/Admin/AdminUsers/index.tsx:38-49 | success drops the user's entries and announces the deletion; failure alerts and keeps the list; the buttons are enabled again |
| AdminDashboard.ComputeStats | src/pages/Admin/AdminDashboard/index.tsx:31-38 | counts of users, activities and donations, the donated total, and active and closed counts that add up to the activities |
| AdminDashboard.AmountShowsDonations | src/pages/Admin/AdminDashboard/index.tsx:32-37 | with positive amounts, the total is positive exactly when some donation exists |
| AdminDashboard.Dashboard.constructor | src/pages/Admin/AdminDashboard/index.tsx:9-17 | loading, with all figures zero |
| AdminDashboard.Dashboard.StartLoad | src/pages/Admin/AdminDashboard/index.tsx:19-21 | loading starts and the figures are kept |
| AdminDashboard.Dashboard.LoadReply | src/pages/Admin/AdminDashboard/index.tsx:21-44 | when all three fetches succeed, the figures are computed from the lists; any failure keeps the old figures; loading ends |
| MyDonations.ShortId | src/pages/Donations/MyDonations/index.tsx:132 | the shown id is the first eight characters of the id, or all of it when shorter |
| MyDonations.DonationNoun | src/pages/Donations/MyDonations/index.tsx:168 | `donation` for exactly one donation, `donations` otherwise |
| MyDonations.Page.constructor | src/pages/Donations/MyDonations/index.tsx:16-19 | an empty list, loading, no error, not logged in |
| MyDonations.Page.CheckLogin | src/pages/Donations/MyDonations/index.tsx:22-30 | a visitor who fails the session test is sent to `/login` from `/my-donations` |
| MyDonations.Page.StartLoad | src/pages/Donations/MyDonations/index.tsx:33-41 | the history is fetched exactly when the visitor is logged in |
| MyDonations.Page.LoadReply | src/pages/Donations/MyDonations/index.tsx:41-49 | success replaces the list; failure shows the load error; loading ends |
| MyDonations.Page.View | src/pages/Donations/MyDonations/index.tsx:52-85 | exactly one of: nothing for a visitor who is not logged in, the spinner while loading, the error text (the stored message) after a failure, the empty state for an empty loaded list, and a history that lists the donations with their total and count |
| MyDonations.HistoryTotalPositive | src/pages/Donations/MyDonations/index.tsx:165 | a shown history of positive donations has a positive total |
| GeminiApi.BuildRequest | src/api/gemini.api.ts:59-69 | the request holds one content entry with one part, which is the prompt |
| GeminiApi.FirstText | src/api/gemini.api.ts:81-86 | the first candidate's first part's text, present exactly when every step of the path is there |
| GeminiApi.GetMessage | src/api/gemini.api.ts:81-92 | the first text when there is one, `No response` thrown when there is none, and a transport error passed on unchanged |
| GeminiApi.TotalTokens | src/api/gemini.api.ts:134 | the reported token count, or 0 when usage is missing |
| GeminiApi.DetailedOf | src/api/gemini.api.ts:124-139 | the returned value: the first text or "", with the token count; a transport error is thrown unchanged |
| GeminiApi.GetDetailedResponse | src/api/gemini.api.ts:124-139 | an empty text where the answer has none, the token count, and a transport error rethrown |
| GeminiApi.DetailedAgreesWithMessage | src/api/gemini.api.ts:81-139 | the two calls agree on the text when there is one; where one throws `No response` the other gives ""; they throw the same transport errors |
| GeminiApi.AnswerOfFirstPart | src/api/gemini.api.ts:81-86 | an answer whose first candidate's first part is `t` yields `t`, whatever else it holds |
| GeminiChat.ReplyText | src/components/GeminiChat/index.tsx:69-87 | the assistant's reply is the answer's text, or the apology when the call throws |
| GeminiChat.AppendKeepsAlternation | src/components/GeminiChat/index.tsx:64-87 | appending a message of the expected kind keeps the greeting–user–assistant alternation |
| GeminiChat.Chat.constructor | src/components/GeminiChat/index.tsx:20-29 | the chat starts closed and idle, with only the greeting |
| GeminiChat.Chat.Toggle | src/components/GeminiChat/index.tsx:45-47 | toggling flips the open state and nothing else |
| GeminiChat.Chat.SetInput | src/components/GeminiChat/index.tsx:49-51 | typing sets the input and nothing else |
| GeminiChat.Chat.SendEnabled | src/components/GeminiChat/index.tsx:186 | the send button's enabled state, the negation of `isLoading \|\| !inputValue.trim()`; SendEnabledIffAccepted ties it to Submit |
| GeminiChat.Chat.Submit | src/components/GeminiChat/index.tsx:53-69 | blank input sends nothing; otherwise the user's message is appended, the input cleared, and that text sent as the prompt |
| GeminiChat.Chat.Receive | src/components/GeminiChat/index.tsx:69-90 | exactly one assistant message (answer or apology) is appended, the alternation is kept, and loading ends |
| GeminiChat.SendEnabledIffAccepted | src/components/GeminiChat/index.tsx:181-186 | the send button is enabled exactly when nothing is pending and the input is not blank |

## Left out

- Transport: HTTP calls, axios itself, the API and Gemini URLs, and the API key. Server answers are `Reply<T>` parameters.
- Cookie storage: the browser's cookie jar is one string, so writing a cookie replaces it.
- `Number` is a real or NaN, without double rounding or `Infinity`.
- Entities.ProgressPercent, Entities.BarWidth, Entities.BarFullIffGoalReached, ActivityPage.DonationGrowsBar: require a positive goal. The source divides by the goal unguarded, so a goal of 0 gives an `Infinity` progress (a full bar) or NaN for 0/0; neither is modelled.
- `Date`: dates are millisecond integers or invalid, and `Date.now()` is a parameter.
- Not modelled: `toFixed`, `toLocaleDateString`, time zones, and the date read from a donation's id.
- Strings are sequences of `char`, not UTF-16 code units. Regular expressions are replaced by predicates, proved equal to the pattern they stand for.
- `Promise.all` is one `Reply<Lists>` that fails when any fetch fails.
- Not modelled: the admin shell's one-second timer delay, unmounting during a request, concurrent handlers, scrolling and focus, and `console` logging.
- Not part of this model: `checkAdmin`, the gateway files under `src/api` other than `axios.ts` and `gemini.api.ts`, the router, the homepage, the activity list, `AdminDonations`, and all markup and styling (including the signup form's red outlines).
- Login always navigates to `/`, not back to the `from` page it was sent from. The design text says it returns to `from`; the model follows the code.
- The login button is not disabled while a request is pending, so `Login.Form.Submit` has no precondition and a second submission is possible.
- Each `Edit` method sets all of a form's inputs in one step rather than through one setter per field.
- UpdateActivity.Form.LoadReply: takes the loaded end date as a valid local calendar date, so an invalid stored end date is not modelled. The goal field receives `goalAmount.toString()` as the parameter `goalText`; number-to-text formatting is not modelled, so the contract does not tie `goalText` to the loaded `goalAmount`.
- AdminActivityEdit.Form.LoadReply: the goal field receives `goalAmount.toString()` as the parameter `goalText`; number-to-text formatting is not modelled, so the contract does not tie `goalText` to the loaded `goalAmount`. A `toISOString` that throws on an invalid end date is the input `endIso: None`. The model then does what the source does: name, description and goal are already set; end date, status and image keep their previous values; the load error is shown.
- AxiosClient.ParseEntry: a cookie piece without `=` has the value `undefined` in the source and "" here; both are falsy, and only the `if (token)` test reads it.
- AxiosClient.SecondEqualsCutsValue: states the general `jwt=a=b` case rather than one literal cookie.
- GeminiApi.TotalTokens: a token count of 0 or NaN falls back to 0 as in the source, but NaN itself is not modelled.
