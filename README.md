# Christ Congregation Nkawkaw church server, modelled in Dafny

This project models the in-memory business rules of the church's backend:

- the member directory, which assigns ids, fills in defaults, appends, and stamps `lastBirthdaySent`;
- the payment ledger, with the same id scheme and a per-member filter;
- the administrator list, password login and the `Authorization: Bearer` header check;
- the SMS utility, with `sendSMS` and the `sendBulkSMS` fan-out;
- the route handlers built on top of these:
  - the required-field checks;
  - member search and the public listing;
  - the choice the bulk-SMS route makes between `payloads` and `to`/`message`;
  - the stored birthday template;
  - the birthday greeting loop.

Modules:

- `JsValue`: the JSON values that reach the SMS code, and JavaScript truthiness.
- `JsString`: `split`, `includes`, ASCII `toLowerCase`, `trim`, and two-digit `padStart`.
- `Seqs`: `filter`, `find`, and the "largest id + 1" id scheme.
- `Render`: `{name}` substitution. It holds both the literal substitution the code intends and `String.prototype.replace` as it really runs, including `$` patterns.
- `Sms`: the gateway. It is a class whose log `sent` records every request handed to the simulator or to the live service. What the service answers to its k-th request, and what `Math.random` yields for the k-th simulated send, is a given oracle, so every property holds for every possible answer sequence.
- `Members`, `Payments`, `Admins`: one class per module-level array, each holding a `seq`. Each method is proved against a pure function of the old contents.
- `Birthday`: the target selection, the template choice, and the results array.
- `Server`: the class `App` holding the stores, the gateway and `birthdayTemplate`. It has one method per modelled route.

The birthday route has no timer-driven scheduler, no once-per-day guard and no mutex. It neither reads nor writes `lastBirthdaySent`: `setLastBirthdaySent` is imported by the server but never called. So the route greets the same members every time it is called on the same day. `Server.App.SendBirthdays` proves this, because its frame allows only the gateway to change.

The greeting is rendered with `String.prototype.replace` exactly as the code calls it, so `$` patterns in a member's name are expanded (see "## Findings").

## Model

| member | source | states |
|---|---|---|
| JsString.Split | server/admins.js:32 | `split` on one character always yields at least one piece, and no piece contains the separator |
| JsString.JoinSplit | server/admins.js:32 | joining the pieces of a split with the separator gives back the original string |
| JsString.SplitJoin | server/index.js:175 | splitting separator-free pieces joined by the separator gives back exactly those pieces |
| JsString.Trim | server/index.js:80 | `trim` returns a slice of the input with only white space before and after it; the slice is empty exactly when the input is all white space, and otherwise neither starts nor ends with white space |
| JsString.TrimStart | server/index.js:80 | the result is the suffix of the input that starts at its first non-space character |
| JsString.TrimEnd | server/index.js:80 | the result is the prefix of the input that ends at its last non-space character |
| JsString.Lower | server/index.js:80 | ASCII lower-casing keeps the length, leaves no upper-case letter, and keeps every other character |
| JsString.IncludesExactly | server/index.js:84-85 | `includes` holds exactly when the query occurs at some position of the text |
| JsString.LowerIdempotent | server/index.js:80 | lower-casing twice is the same as lower-casing once |
| JsString.TwoDigits | server/index.js:170-172 | `padStart(2, '0')` of a month or day gives two decimal digits, no `-`, whose decimal value is the number |
| Seqs.FilterExactly | server/index.js:82-86 | `filter` keeps only elements of the input that pass, and keeps every element that passes |
| Seqs.FilterAppend | server/payments.js:37-39 | filtering distributes over concatenation, so kept elements stay in their original order |
| Seqs.FindIndex | server/members.js:61 | `find` returns the first position that satisfies the predicate, or none when no position does |
| Seqs.Max | server/members.js:35 | `Math.max(...ids)` of a non-empty list is one of its elements and bounds all of them |
| Seqs.Ids | server/members.js:35 | one id per record, in order, each the id of the record at that position |
| Seqs.NextId | server/members.js:35 | the new id is above every id in use; it is 1 for an empty store, otherwise one more than an id in use |
| Render.ReplaceAbsent | server/index.js:184-190 | a template without `{name}` is left unchanged |
| Render.ReplaceFirst | server/index.js:184-190 | when no occurrence starts before a given one, the text before it is kept and it becomes the replacement |
| Render.NameAppearsVerbatim | server/index.js:184-190 | for a template with exactly one `{name}`, the intended rendering puts the member's name, character for character, in its place, whatever other braces the template holds |
| Render.UnknownPlaceholderKept | server/index.js:184-190 | an unknown placeholder such as `{title}` is left as it is, and `{name}` after it is still filled |
| Render.ExpandPlain | server/index.js:184-190 | a replacement string with no `$` is inserted as is |
| Render.JsReplaceAgrees | server/index.js:184-190 | for a name with no `$`, the runtime `replace` and the literal substitution agree on every template |
| Render.JsReplaceAbsent | server/index.js:184-190 | the runtime `replace` leaves text with no further match unchanged |
| Render.JsReplaceFirst | server/index.js:184-190 | the runtime `replace` copies the text up to the first match and puts the expanded replacement there |
| Render.JsReplaceAll | server/index.js:184-190 | the runtime `replace` with a replacement that has no `$` is the literal substitution (by JsReplaceAgrees) |
| Render.ExpandMatched | server/index.js:188-190 | in a replacement string, `$&` stands for the matched text |
| Render.DollarAmpersandIsExpanded | server/index.js:184-190 | for a member named `$&`, the runtime `replace` writes `{name}` back instead of the name, unlike the literal substitution |
| Sms.ModeOf | server/sms.js:6-10 | simulation is chosen exactly when the flag is "true" in any case; otherwise there is a live client exactly when both credentials are present, and no client exactly when either is missing |
| Sms.SendOutcome | server/sms.js:17-25 | simulated sends resolve with a `SIM-` sid; when sending is unconfigured (no simulation and no client) the send throws "Twilio not configured"; with a live client it resolves with the sid the service returns, or throws the service's error message |
| Sms.Resolve | server/sms.js:35-44 | a string entry goes to itself with the shared message; an object or array entry goes to `entry.to` with its own truthy message, else the shared one; any other entry is not a recipient |
| Sms.EntryResult | server/sms.js:34-65 | one entry's result carries its recorded recipient; a non-recipient gets the invalid-format error; when sending is unconfigured (no simulation and no client), "Twilio not configured"; with a live client, the service's sid or error message (FanoutAt places it in the results) |
| Sms.RequestOf | server/sms.js:34-65 | an entry hands over at most one request, exactly when it is a recipient and sending is not unconfigured (the simulator or a live client takes it), and that request is its resolved recipient and body |
| Sms.Fanout | server/sms.js:30-68 | the results array has exactly one result per list entry |
| Sms.FanoutAt | server/sms.js:33-66 | the i-th result depends only on the i-th entry and on the answer to that entry's own request, so an earlier failure neither stops nor alters it |
| Sms.FanoutInOrder | server/sms.js:30-68 | the i-th result names the i-th entry's recipient |
| Sms.InvalidEntriesReported | server/sms.js:41-44 | an entry that is neither a string nor an object yields `{to: entry, error: 'Invalid recipient format'}` |
| Sms.UnconfiguredSendsNothing | server/sms.js:56-59 | with no client and no simulation, nothing is handed over |
| Sms.UnconfiguredFailsEach | server/sms.js:56-59 | with no client and no simulation, every well-formed entry gets "Twilio not configured" and the batch goes on |
| Sms.SimulatedOutcomes | server/sms.js:45-55 | in simulate mode each well-formed entry gets either the simulated error or a `SIM-` sid |
| Sms.AcceptingServiceSendsAll | server/sms.js:60-65 | against a service that accepts everything, every well-formed entry gets a sid |
| Sms.LiveOutcomes | server/sms.js:60-65 | against a live service each recipient gets the sid returned for its own request, or `{to, error}` with the message that request was rejected with |
| Sms.Gateway.constructor | server/sms.js:7-10 | the gateway starts with its configuration and an empty request log |
| Sms.Gateway.SendSMS | server/sms.js:17-25 | the outcome is the one for the gateway's next request, and one request is logged unless sending is unconfigured (no simulation and no client) |
| Sms.Gateway.SendEntry | server/sms.js:34-65 | one loop turn records the entry's result and logs the entry's request, if it has one |
| Sms.Gateway.SendBulkSMS | server/sms.js:30-68 | a non-array is a one-element list; the results are the fan-out of that list, and the log grows by exactly its requests, in list order |
| Members.NewMember | server/members.js:33-40 | a body without `id` gets 1 in an empty directory and otherwise one more than the largest existing id, while an `id` in the body wins; fields are copied; a falsy type becomes `new` and any other type is kept; a falsy `lastBirthdaySent` becomes null and any other is kept |
| Members.FirstWithId | server/members.js:61 | the position of the first member with the id, or none when no member has it |
| Members.WithLastSent | server/members.js:60-67 | only the first member with the id changes, and only its `lastBirthdaySent`, which becomes the date |
| Members.UnknownIdChangesNothing | server/members.js:60-67 | stamping an id no member has changes nothing |
| Members.MemberStore.constructor | server/members.js:1-30 | the directory starts with the loaded members |
| Members.MemberStore.RegisterMember | server/members.js:33-53 | appends exactly the new member at the end and returns it; earlier members are untouched |
| Members.MemberStore.GetAllMembers | server/members.js:56-58 | returns the directory itself, in insertion order |
| Members.MemberStore.SetLastBirthdaySent | server/members.js:60-67 | the directory becomes the stamped one; the method returns the stamped member exactly when the id is known |
| Payments.NewPayment | server/payments.js:25-26 | a body without `id` gets 1 on an empty ledger and otherwise one more than the largest existing id, while an `id` in the body wins; the other fields are copied; the date is always the recording time |
| Payments.PaymentsFor | server/payments.js:37-39 | the history holds only the member's payments (all of them by PaymentsForExactly) |
| Payments.PaymentsForExactly | server/payments.js:37-39 | a member's history holds only that member's payments, and all of them |
| Payments.RecordExtendsHistory | server/payments.js:24-39 | recording a payment adds it at the end of its member's history and leaves every other history unchanged |
| Payments.PaymentStore.constructor | server/payments.js:1-21 | the ledger starts with the loaded payments |
| Payments.PaymentStore.RecordPayment | server/payments.js:24-30 | appends exactly the new payment at the end and returns it |
| Payments.PaymentStore.GetAllPayments | server/payments.js:33-35 | returns the ledger itself, in insertion order |
| Payments.PaymentStore.GetPaymentsForMember | server/payments.js:37-39 | returns the member's payments in ledger order |
| Admins.AppendKeepsUnique | server/admins.js:11-17 | adding an account whose username is free keeps usernames unique |
| Admins.Authenticate | server/admins.js:20-27 | an unknown user and a wrong password give the same "Invalid credentials"; a token is signed for the username; with unique usernames a token is issued exactly when the password matches |
| Admins.VerifyToken | server/admins.js:29-40 | a payload is returned only for a "Bearer <token>" header, and it is that token's payload (the converse is VerifyTokenShape) |
| Admins.VerifyTokenShape | server/admins.js:29-40 | the header passes exactly when it is "Bearer", one space and a space-free token, and the result is then that token's verified payload |
| Admins.AdminStore.constructor | server/admins.js:7-9 | the store starts with the single account `admin` |
| Admins.AdminStore.AddAdmin | server/admins.js:11-18 | a taken username gives "Username already exists" and changes nothing; otherwise one account is appended; usernames stay unique |
| Admins.AdminStore.AuthenticateAdmin | server/admins.js:20-27 | login against the current accounts |
| Birthday.MonthDay | server/index.js:170-172 | today's `MM-DD` is five characters: two digits whose value is the month, `-`, then two digits whose value is the day |
| Birthday.OnDayExactly | server/index.js:173-178 | a dob is kept exactly when it is a `-`-free prefix followed by `-MM-DD` |
| Birthday.Targets | server/index.js:173-178 | no more targets than members (which members is TargetsExactly) |
| Birthday.TargetsAppend | server/index.js:173-178 | a member added to the directory is appended to the targets exactly when it has a dob on that day, so each member is a target at most once and targets keep directory order |
| Birthday.TargetsExactly | server/index.js:173-178 | a member is a target exactly when their dob has that shape; missing and malformed dobs are passed over |
| Birthday.YearIgnored | server/index.js:174-178 | any year followed by today's `-MM-DD` is greeted |
| Birthday.SlashDateNeverGreeted | server/index.js:174-178 | `2020/01/01` is never greeted |
| Birthday.ActiveTemplate | server/index.js:184-187 | the request's template, else the stored one, else the default; an empty string falls through; the result is never empty |
| Birthday.Stored | server/index.js:163 | saving stores the template, or null when it is empty |
| Birthday.SavedTemplateUsed | server/index.js:155-187 | after a save, a request without its own template uses the saved one, and saving "" restores the default |
| Birthday.OutcomeResult | server/index.js:191-196 | a resolved send gives `{to, sid}` and a thrown one gives `{to, error}`, with `to` the target's phone |
| Birthday.Greeting | server/index.js:184-190 | the greeting is the runtime `replace` of `{name}` by the name, which for a name without `$` is the literal substitution |
| Birthday.GreetingResults | server/index.js:182-197 | one result per target (content and order by GreetingResultsInOrder) |
| Birthday.GreetingResultsInOrder | server/index.js:182-198 | one result per target, in target order, and each succeeds exactly when its own send resolves |
| Birthday.SimulatedGreetingsAllSent | server/index.js:191-193 | in simulate mode every greeting gets a `SIM-` sid |
| Birthday.UnconfiguredGreetingsFail | server/index.js:191-196 | when sending is unconfigured (no simulation and no client) every greeting fails with "Twilio not configured" and nothing is handed over |
| Birthday.DefaultGreetingNamesMember | server/index.js:184-190 | for a name without `$`, the default greeting is its fixed text with the member's name in place of `{name}` |
| Birthday.DefaultGreetingDollarName | server/index.js:184-190 | a member named `$&` is sent the default template with `{name}` left in it, not their name |
| Server.Query | server/index.js:80 | the query is blank exactly when the raw query is all white space, and has no upper-case letter |
| Server.Matches | server/index.js:82-86 | a member matches when the query occurs at some position of their lower-cased name, or of their phone |
| Server.Search | server/index.js:79-88 | a blank query gives no results; otherwise the results are exactly the members whose lower-cased name or whose phone contains the lower-cased, trimmed query |
| Server.SearchAppend | server/index.js:79-88 | a new member appears last in every search it matches; earlier results are unchanged |
| Server.SearchIgnoresCase | server/index.js:80 | the case of the query does not matter |
| Server.SearchIgnoresLeadingSpace | server/index.js:80 | a leading white-space character of any kind in the query does not matter |
| Server.PublicList | server/index.js:68-77 | one public entry per member |
| Server.PublicIgnoresLastSent | server/index.js:68-77 | stamping `lastBirthdaySent` does not change the public listing |
| Server.PublicAppend | server/index.js:68-77 | registering a member adds one public entry at the end |
| Server.BulkArgs | server/index.js:134-146 | a non-empty `payloads` array wins; otherwise truthy `to` and `message` are used; with neither the route answers 400 |
| Server.PayloadsWin | server/index.js:138-139 | with a non-empty `payloads` array, `to` and `message` are ignored |
| Server.ReceiptRequests | server/index.js:107-118 | at most one receipt is sent, and none when no member has the payment's `memberId` or when sending is unconfigured (no simulation and no client); otherwise exactly one, to the phone of the first member with that id, with the receipt text for that member's name and the payment's type and amount |
| Server.App.constructor | server/index.js:155 | the stored template starts as null |
| Server.App.Signup | server/index.js:26-34 | a missing username or password gives 400; a taken username gives 400 and changes nothing; otherwise 201 and one new account |
| Server.App.Login | server/index.js:36-44 | a missing username or password gives 400; bad credentials give 401 "Invalid credentials"; otherwise the token |
| Server.App.PostMember | server/index.js:47-62 | a missing name or phone gives 400 and changes nothing; otherwise the member is registered, one welcome request is logged unless sending is unconfigured (no simulation and no client), and the answer does not depend on the send |
| Server.App.PostPayment | server/index.js:100-120 | a falsy `memberId`, `amount` or `type` gives 400 and changes nothing; otherwise the payment is recorded, at most one receipt goes to that member, and the answer does not depend on the send |
| Server.App.MemberPayments | server/index.js:126-131 | id 0 gives "Invalid id"; otherwise the member's payments |
| Server.App.BulkSms | server/index.js:134-152 | the 400 answer sends nothing; otherwise the answer is the fan-out of the chosen arguments |
| Server.App.GetBirthdayTemplate | server/index.js:157-159 | returns the stored template |
| Server.App.SetBirthdayTemplate | server/index.js:161-165 | stores the template, or null when it is empty, and answers with what it stored |
| Server.App.GreetAll | server/index.js:182-197 | one `sendSMS` per target, in order, with the template rendered by the runtime's `replace`; the results are those of the outcomes, and the log grows by one greeting per target unless sending is unconfigured (no simulation and no client) |
| Server.App.SendBirthdays | server/index.js:167-199 | with no targets it answers "No birthdays today" and sends nothing; otherwise it greets every target with the active template, rendered by the runtime's `replace`, and answers with the results and their count; nothing but the gateway changes |

## Left out

- Express wiring, CORS, `listen`, `requireAuth` and the health routes. They are HTTP plumbing, and the handlers are modelled as methods of their request fields.
- Member deletion. The route calls `deleteMember`, which the members module does not export.
- File persistence (`persist`, the JSON data files). It is I/O; the stores take the loaded contents as constructor arguments.
- Date normalisation of `dob` in `registerMember` through `new Date(...).toISOString()`. It depends on JavaScript date parsing and time zones, so `Members.NewMember` keeps the given dob.
- The current date and time. The birthday route takes today's month and day, and `recordPayment` takes the recording time, as parameters.
- bcrypt and jsonwebtoken. They are the given functions of `Admins.Crypto`; a verification that throws is `None`.
- Twilio, `setTimeout` delays and `Math.random`. They are replaced by the gateway oracle (the service's answer and the simulator's draw for each request number); the sender number is not modelled.
- Members.NewMember: extra fields in a registration body beyond `id`, `name`, `phone`, `dob`, `type` and `lastBirthdaySent` are not carried, because only these are read anywhere.
- Payments.NewPayment: `memberId` is modelled as an integer, so the `Number(...)` conversion in `getPaymentsForMember` and a string `memberId` (which the receipt lookup's `===` would not match) are not modelled.
- Members.MemberStore.SetLastBirthdaySent: members are values, so the aliasing between the returned object and the stored one is not modelled.
- JsString.Lower: only ASCII letters are lower-cased; full Unicode case mapping is not modelled.
- Server.Search / Members.NewMember: a member's `name` and `phone` are strings. The code accepts any truthy value, so a number sent as `phone` or `name` is stored as it is; `m.phone.includes(q)` or `m.name.toLowerCase()` then throws and the search answers 500. This is not modelled.
- Server.Search: the query is a string, with "" for absent; a non-string query value is not modelled.
- Birthday.ActiveTemplate: the request's template and the stored one are strings, with "" for absent; a non-string template value is not modelled, and neither is it for Server.App.SetBirthdayTemplate.
- Server.App.SendBirthdays: each handler runs as one atomic step. The code re-evaluates `template || birthdayTemplate || default` for every target after each `await sendSMS`, so a template saved while the loop is waiting changes the later greetings; the model reads the active template once, because interleaved requests are not modelled.
- Birthday.Targets: `dob` is a string, with "" for absent. In the code a truthy non-string `dob` that `Date` cannot parse (such as `{}` or `[]` in the body) is stored as it is, and `m.dob.split` then throws, which aborts the whole birthday route instead of passing that member over; this is not modelled.
- Birthday.DefaultGreetingNamesMember: it is stated only for names without `$`; for other names the runtime `replace` expands `$` patterns, as Birthday.DefaultGreetingDollarName and the "## Findings" row show.
- Server.App.MemberPayments: the id is taken as an already-converted integer, so `NaN` from `Number(...)` is not modelled.
- Server.App.BulkSms: the 500 answer is not modelled, because the modelled `sendBulkSMS` never throws.
- Numbers are integers; floating point is not modelled.

## Findings

| source | as written | input that shows it | evidently intended | confidence | as-written member | corrected member |
|---|---|---|---|---|---|---|
| server/index.js:184-190 | `template.replace(/\{name\}/g, t.name)` passes the member's name as a replacement string, so `$&`, `$$`, `` $` `` and `$'` in a name are expanded | a member named `$&` with template `Happy Birthday, {name}!` is greeted `Happy Birthday, {name}!` | the name is inserted literally, giving `Happy Birthday, $&!` | high (not executed) | Birthday.DefaultGreetingDollarName | Render.NameAppearsVerbatim |
