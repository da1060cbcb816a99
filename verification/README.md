# Hackathon registration: a Dafny model of the user record and its operations

This project models the core of a hackathon registration system. It covers:

- **The user record** (`User.js`): the schema defaults, the `validateProfile` completeness check, the `status.name` precedence chain and the JSON Web Tokens the model issues and verifies.
- **The user controller** (`UserController.js`):
  - registration with the e-mail whitelist;
  - e-mail verification;
  - profile submission, admission, confirmation and declining;
  - check-in and check-out, meals and Discord linking;
  - teams;
  - the sponsor workflow;
  - the admin and sponsor listings.
- **Two client controllers**:
  - the applicant dashboard (`dashboardCtrl.js`), meaning its state panels, waitlist banner and deadline placeholders;
  - the sponsors' resume browser (`resumesCtrl.js`), meaning its paging, selection set, key encoding, filter lists and row colours.

The collection is a `map<Id, User>`. Almost every controller operation is one `findOneAndUpdate` with a match predicate and a `$set`. The model writes each as a pure function from the collection to a `Result<Done, Error>`, built on `RecordStore.Patch`. A match that selects nothing is `Err(NoMatch)`: the source then calls back with neither an error nor a user. Code that dereferences an undefined value becomes `Err(Crash)`.

The following become parameters:

- the clock;
- the Settings record;
- the signing secrets;
- `validator.isEmail`;
- the user-supplied search `RegExp`;
- the team size limit.

JSON Web Tokens are values `Signed(secret, payload)`. Because of that, whether a token verifies depends only on which secret signed it.

The modules follow the source:

| module | models |
|---|---|
| `UserModel` | the user schema (`User.js`): fields, defaults, `validateProfile`, `status.name` |
| `Tokens` | the token methods of the schema |
| `RecordStore` | the collection, `findOneAndUpdate`, team counts |
| `Registration` | account creation and verification |
| `Admission` | the admission lifecycle |
| `EventDay` | check-in, meals, Discord |
| `Teams` | teams |
| `Sponsors` | the sponsor workflow |
| `Listing` | `getPage`, `getSponsorPage` |
| `Dashboard` | the applicant dashboard |
| `Resumes` | the resume browser |
| `Invariants` | properties over every operation |
| `Text` | the JavaScript string primitives the code relies on |
| `Wrappers` | `Option` and `Result` |

`Invariants` proves four properties over every operation in the model, including over any sequence of operations:

- a confirmed record is admitted and not declined;
- a decline is never undone;
- "incomplete" is never written as a sponsor status;
- no team exceeds the size limit.

## Model

| member | source | states |
|---|---|---|
| UserModel.NewUserAsWritten | app/server/models/User.js:336-345 | the schema's creation-time defaults are `Date.now()` evaluated once when the schema is built, so every record gets the boot time; new records are not admin, sponsor or verified and have no team |
| UserModel.CreationTimeFrozen | app/server/models/User.js:336-345 | two records created at different times after boot receive the same creation time, which is neither creation moment |
| UserModel.NewUser | app/server/models/User.js:222-363 | a new record has the given id, e-mail and hash, creation and update time `now`, no admin, sponsor or verified flag, no team, default profile, no confirmation, no sponsor status (the misplaced `default` inside the `enum` leaves it unset), no meals, no Discord link and no admission flag |
| UserModel.ListIndexOf | app/server/models/User.js:496-577 | `list.indexOf(x)` is -1 exactly when `x` is absent, and otherwise the position of its first occurrence |
| UserModel.ValidateProfile | app/server/models/User.js:496-577 | a profile validates iff name, first name, last name and school are non-empty, resume and adult hold, the graduation time is one of the 9 listed terms and the gender one of M, F, O, N, and (for a US student asking for swag) street and city are non-empty, the zip has 5 characters and the state is one of the 51 codes |
| UserModel.AddressIgnoredWithoutSwag | app/server/models/User.js:518-575 | unless the user is a US student asking for swag, the address fields do not affect validation |
| UserModel.DefaultProfileInvalid | app/server/models/User.js:11-151 | the default profile never validates |
| UserModel.FirstTrue | app/server/models/User.js:617-653 | the index of the first true test: every earlier test is false |
| UserModel.StatusNameIsFirstMatch | app/server/models/User.js:617-653 | `status.name` is total and equals the name of the first matching test in the order checked in, declined, confirmed, admitted, submitted, unverified, pending, approved, or "incomplete" when none matches |
| UserModel.CheckedInWins | app/server/models/User.js:619-621 | a checked-in record is "checked in" whatever its other flags |
| UserModel.DeclinedBeatsConfirmed | app/server/models/User.js:623-629 | a declined record that is not checked in is "declined" even when confirmed |
| UserModel.UnverifiedExactly | app/server/models/User.js:619-641 | "unverified" iff the e-mail is unverified and no applicant flag is set |
| UserModel.SponsorNames | app/server/models/User.js:643-651 | "pending" and "approved" only for sponsors with the matching sponsor status; a verified record with no applicant flag and neither sponsor status is "incomplete" |
| UserModel.FreshUserUnverified | app/server/models/User.js:617-653 | a freshly created record reads as "unverified" |
| Tokens.JwtVerify | app/server/models/User.js:448-452 | a token verifies under a secret iff it was signed with that secret, and yields its payload |
| Tokens.SignVerifyRoundTrip | app/server/models/User.js:410-416 | verifying a signed payload under the signing secret returns the payload |
| Tokens.VerifyEmailVerificationToken | app/server/models/User.js:448-452 | the e-mail token verifies iff it was signed with the shared JWT secret |
| Tokens.VerifyTempAuthToken | app/server/models/User.js:459-474 | a reset token is accepted iff the signature verifies, `exp` is present and non-zero, and `now < exp * 1000`; the result is the payload's id; "expired" exactly for a truthy verified payload without a usable `exp` or past it |
| Tokens.TempTokenWindow | app/server/models/User.js:427-433 | a reset token issued at `t` is accepted until `(t div 1000 + 3600) * 1000` and refused from then on |
| Tokens.TempTokenLifetime | app/server/models/User.js:427-474 | a reset token is accepted during its first 3599 seconds and refused from 60 minutes on |
| Tokens.SharedSecretInterchangeable | app/server/models/User.js:410-416 | auth tokens and e-mail tokens share one secret, so each passes the other's signature check |
| Tokens.AuthTokenNotAResetToken | app/server/models/User.js:459-474 | an auth token has no `exp` and is always refused as a reset token |
| Tokens.VerifyDiscordToken | app/server/models/User.js:593-602 | a Discord token verifies iff it was signed with the Discord secret and its payload is truthy |
| Tokens.DiscordSecretSeparate | app/server/models/User.js:582-602 | when the two secrets differ, Discord tokens and the other tokens never pass each other's checks |
| Tokens.DiscordRoundTrip | app/server/models/User.js:582-602 | the Discord token issued to a user verifies to that user's id |
| RecordStore.Patch | app/server/controllers/UserController.js:439-485 | `findOneAndUpdate`: succeeds iff the id is present and the match predicate holds, and then replaces exactly that record with its update |
| RecordStore.UpdateKeepsWellFormed | app/server/models/User.js:306-318 | replacing a record with one having the same id and e-mail keeps ids and unique e-mails consistent |
| RecordStore.CountAfterUpdate | app/server/controllers/UserController.js:642-665 | changing one record's team code moves the member count of each code by exactly that record's departure and arrival |
| RecordStore.SameTeamSameCounts | app/server/controllers/UserController.js:642-665 | an update that keeps the team code keeps every team count |
| RecordStore.NewRecordSameCounts | app/server/controllers/UserController.js:155-158 | adding a record with no team keeps every team count |
| Registration.EndsWithIsSuffix | app/server/controllers/UserController.js:18-20 | `endsWith(s, t)` holds iff `s` is a suffix of `t` |
| Registration.Whitelisted | app/server/controllers/UserController.js:55-66 | the address passes iff it is a valid e-mail and some whitelist entry is a suffix of it |
| Registration.CanRegister | app/server/controllers/UserController.js:28-70 | a missing or short password is refused first; then a time before opening or after closing; registration succeeds iff the password has 6 or more characters, `timeOpen <= now <= timeClose` and the address is whitelisted |
| Registration.EmptyWhitelistRejects | app/server/controllers/UserController.js:55-66 | with an empty whitelist nobody registers |
| Registration.WhitelistHasNoDomainBoundary | app/server/controllers/UserController.js:18-20 | a whitelisted "utexas.edu" also admits "mallory@notutexas.edu" |
| Registration.CreateUser | app/server/controllers/UserController.js:138-186 | a non-string address is refused; otherwise creation succeeds iff the lower-cased address may register and is unused, adding exactly one new unverified record; an address in use is "already exists", and a fresh id that is already a key has its own error |
| Registration.CreatedEmailIsLowerCase | app/server/controllers/UserController.js:146 | every address stored by `createUser` is already lower case |
| Registration.CreateSponsor | app/server/controllers/UserController.js:193-242 | a non-string address is refused; otherwise creation succeeds iff the lower-cased address is valid and unused, adding one verified sponsor record; a valid address in use is "already exists" |
| Registration.InsertKeepsWellFormed | app/server/models/User.js:306-318 | adding a record under a new id with an unused e-mail keeps the collection well formed |
| Registration.VerifyByToken | app/server/controllers/UserController.js:577-590 | a token that fails verification, or whose payload is not a string, crashes; a valid token succeeds iff some record holds the lower-cased payload as its address, and otherwise matches nothing; success means that record became verified and nothing else changed |
| Registration.VerificationRoundTrip | app/server/controllers/UserController.js:577-590 | the verification token issued to a stored lower-case address verifies exactly that record |
| Admission.UpdateProfileById | app/server/controllers/UserController.js:439-485 | an invalid profile is refused; otherwise a verified record stores the profile, becomes submitted and is stamped `now`, and nothing else in it changes |
| Admission.AdmitUser | app/server/controllers/UserController.js:910-934 | a verified record becomes admitted by the given admin with the configured deadline, and nothing else changes |
| Admission.UpdateConfirmationById | app/server/controllers/UserController.js:505-543 | the missed-deadline error arises iff a deadline is set, `now` is at or past it and the record is not yet confirmed; otherwise a verified, admitted, undeclined record stores the confirmation and becomes confirmed |
| Admission.NoDeadlineNoDeadlineError | app/server/controllers/UserController.js:514 | with no deadline recorded (`now >= undefined` is false) the deadline error never arises |
| Admission.ConfirmedMayResubmitLate | app/server/controllers/UserController.js:514-531 | a confirmed user may resubmit logistics after the deadline |
| Admission.DeclineById | app/server/controllers/UserController.js:551-570 | a verified, admitted, undeclined record becomes declined and unconfirmed, is stamped `now` in `lastUpdated`, and nothing else changes |
| Admission.DeclineTwice | app/server/controllers/UserController.js:554-565 | a second decline matches nothing |
| Admission.NoConfirmAfterDecline | app/server/controllers/UserController.js:505-570 | after declining, confirming fails |
| Admission.SendConfirmationReminder | app/server/controllers/UserController.js:1283-1306 | a verified, admitted, confirmed record gets the configured deadline again and is otherwise unchanged |
| EventDay.CheckInById | app/server/controllers/UserController.js:1064-1077 | a verified record becomes checked in at `now` and is otherwise unchanged |
| EventDay.CheckOutById | app/server/controllers/UserController.js:1087-1099 | a verified record is no longer checked in and keeps its check-in time |
| EventDay.CheckInThenOut | app/server/controllers/UserController.js:1064-1099 | checking in and out restores the record except for the recorded check-in time |
| EventDay.MarkMeal | app/server/controllers/UserController.js:998-1053 | a verified record whose meal flag is false gets it set and nothing else; a set flag is refused with the meal's error |
| EventDay.MarkReceivedLunch | app/server/controllers/UserController.js:998-1025 | lunch is recorded iff the record is verified and has not had lunch |
| EventDay.MarkReceivedDinner | app/server/controllers/UserController.js:1027-1053 | dinner is recorded iff the record is verified and has not had dinner |
| EventDay.MealAtMostOnce | app/server/controllers/UserController.js:998-1053 | the flag goes from false to true once; the same request again is refused |
| EventDay.VerifyDiscordTokenAsWritten | app/server/controllers/UserController.js:1329-1370 | as written: a missing or empty token or Discord id is refused as missing parameters; linking succeeds iff the token names a verified, not yet linked account; a linked one is refused; a valid token for an unverified or unknown account crashes, and the "not verified" reply never occurs |
| EventDay.UnverifiedDiscordLink | app/server/controllers/UserController.js:1337-1348 | a Discord token of an unverified account crashes as written and is answered "not verified" when corrected |
| EventDay.VerifyDiscordTokenById | app/server/controllers/UserController.js:1329-1370 | a missing or empty token or Discord id is refused as missing parameters; linking succeeds iff the token names a verified, not yet linked account, which then gets the Discord id, the linked flag and a check-in at `now`; an unverified account is told so and a linked one is refused |
| EventDay.DiscordVersionsAgreeOnVerified | app/server/controllers/UserController.js:1329-1370 | the written and corrected versions agree whenever the token names a verified account |
| EventDay.DiscordLinkOnce | app/server/controllers/UserController.js:1349-1366 | a linked account cannot be linked again |
| EventDay.SetDiscordDefault | app/server/controllers/UserController.js:1374-1385 | any record loses its Discord link flag and keeps the stored Discord id |
| EventDay.RelinkAfterReset | app/server/controllers/UserController.js:1329-1385 | after a reset a verified account can be linked again |
| Teams.CreateOrJoinTeam | app/server/controllers/UserController.js:628-668 | an empty or non-string code is refused, a team already at the limit is full; otherwise only the verified caller's team code changes |
| Teams.JoinKeepsTeamsWithin | app/server/controllers/UserController.js:642-665 | taken one request at a time, joining never takes a team past the limit |
| Teams.FullTeamUnchanged | app/server/controllers/UserController.js:648-652 | a full team turns the joiner away and the collection is unchanged |
| Teams.RejoinSameCounts | app/server/controllers/UserController.js:642-665 | a member joining its own team again leaves all counts unchanged |
| Teams.LeaveTeam | app/server/controllers/UserController.js:675-686 | any record loses its team code and no team grows |
| Teams.GetTeammates | app/server/controllers/UserController.js:597-620 | an unknown caller is no match and a caller without a team is refused; a caller with a non-empty team code always gets a result, which holds exactly the records sharing the caller's code, caller included, each with name, e-mail and status |
| Teams.TeammatesBounded | app/server/controllers/UserController.js:597-668 | under the size bound nobody sees more teammates than the limit |
| Sponsors.UpdateSponsorById | app/server/controllers/UserController.js:1210-1233 | when either statement time is NaN the cast fails and nothing is written, whatever the id; otherwise any record stores the submitted company details, the two statement times included, with status "completedProfile" and is otherwise unchanged |
| Sponsors.GrantResumeAccessById | app/server/controllers/UserController.js:1235-1247 | a verified record gets "grantedResumeAccess" whatever its status, keeping its details |
| Sponsors.RemoveResumeAccessById | app/server/controllers/UserController.js:1249-1261 | a verified record goes back to "completedProfile" whatever its status, keeping its details |
| Sponsors.GrantThenRemove | app/server/controllers/UserController.js:1235-1261 | granting then removing access restores a "completedProfile" sponsor exactly |
| Sponsors.GrantResumeAccessAsWritten | app/server/controllers/UserController.js:985-996 | the second `grantResumeAccess`, which wins, writes "completedProfile" to any record and changes nothing else, neither in the record nor in the collection |
| Sponsors.GrantAsWrittenDoesNotGrant | app/server/controllers/UserController.js:965-996 | a sponsor awaiting access is not granted it: the collection comes back unchanged |
| Sponsors.GrantResumeAccess | app/server/controllers/UserController.js:965-976 | the grant the first definition states: any record gets "grantedResumeAccess" and is otherwise unchanged |
| Sponsors.RemoveResumeAccess | app/server/controllers/UserController.js:985-996 | the second definition under its own name: any record goes back to "completedProfile" |
| Sponsors.GrantRemoveRoundTrip | app/server/controllers/UserController.js:965-996 | the corrected grant and remove round-trip a "completedProfile" sponsor |
| Listing.SortByName | app/server/controllers/UserController.js:329-331 | the listing is a permutation of the matches in ascending name order |
| Listing.CeilDiv | app/server/controllers/UserController.js:355 | `Math.ceil(count / size)` is the least number of pages of `size` that holds `count` entries |
| Listing.Window | app/server/controllers/UserController.js:333-334 | `skip(n).limit(m)` takes the entries from position `n`, at most `m` of them, all of them when `m` is 0 |
| Listing.ListPage | app/server/controllers/UserController.js:327-349 | a page holds the listed records from position `skip` on, at most `limit` of them, as keys in id-only mode, and is empty past the end |
| Listing.GetPage | app/server/controllers/UserController.js:264-360 | a page of positive size holds at most `size` entries and reports `ceil(count/size)` pages; the page is the window of the name-sorted matches that skips `page*size` and holds `size`, cut short at the end and empty past it; size 0 reports Infinity or NaN pages; outside id-only mode every entry is a stored record matching every clause of the filter |
| Listing.SomePageIffMatch | app/server/controllers/UserController.js:355 | with a positive size there is at least one page iff something matches |
| Listing.PageOfIndex | app/server/controllers/UserController.js:327-334 | the i-th listed record appears on page `i / size` at position `i % size` |
| Listing.PageWindow | app/server/controllers/UserController.js:327-334 | a page of positive size is the `skip`/`limit` window of the name-sorted listing |
| Listing.PagesPastEndEmpty | app/server/controllers/UserController.js:327-334 | pages from `ceil(count/size)` on are empty |
| Listing.KeysOnlyListsAllMatches | app/server/controllers/UserController.js:346-349 | with size 0 and page 0 the result is the `id_lastName_firstName` key of every match, in name order |
| Listing.GetSponsorPage | app/server/controllers/UserController.js:366-417 | a page of positive size holds at most `size` records, is the window of the name-sorted selection that skips `page*size` and holds `size`, and reports `ceil(count/size)` pages; every entry is a stored record that is a sponsor or matches the text |
| Listing.SponsorPageSelection | app/server/controllers/UserController.js:373-386 | empty text selects exactly the sponsors; other text selects the sponsors plus every record the text matches |
| Dashboard.DashState | app/client/views/dashboard/dashboardCtrl.js:43-82 | an unrecognised panel name never shows |
| Dashboard.ShowWaitlist | app/client/views/dashboard/dashboardCtrl.js:84 | the banner needs a submitted, unadmitted application and closed registration |
| Dashboard.UnverifiedPanel | app/client/views/dashboard/dashboardCtrl.js:46-47 | the unverified panel shows iff the account is unverified |
| Dashboard.OpenClosedSplit | app/client/views/dashboard/dashboardCtrl.js:48-55 | open panels need open registration, closed panels closed registration, so never both |
| Dashboard.ApplicationPanels | app/client/views/dashboard/dashboardCtrl.js:48-55 | for a non-sponsor not yet admitted, open/closed follows `regIsOpen` and submitted/incomplete follows `completedProfile` |
| Dashboard.ConfirmPanelsSplit | app/client/views/dashboard/dashboardCtrl.js:56-67 | the two confirmation panels never both show; one of them shows iff the user is an admitted, unconfirmed, undeclined non-sponsor, chosen by the deadline |
| Dashboard.SponsorPanelsPartition | app/client/views/dashboard/dashboardCtrl.js:68-75 | a verified sponsor sees exactly one sponsor panel; nobody else sees any |
| Dashboard.ConfirmedOrDeclined | app/client/views/dashboard/dashboardCtrl.js:76-79 | the confirmed and declined panels never both show; for a consistent record the confirmed panel is the `confirmed` flag |
| Dashboard.SomePanelShows | app/client/views/dashboard/dashboardCtrl.js:43-82 | every user sees at least one panel |
| Dashboard.PanelsMatchStatusName | app/client/views/dashboard/dashboardCtrl.js:43-82 | for a user not checked in: the confirmed panel means "confirmed", the declined panel exactly "declined", and a confirmation panel "admitted"; for an undeclined record whose `confirmed` implies `admitted`, a submitted panel means "submitted", the closed incomplete panel "incomplete" or "unverified" by `verified`, and the open incomplete panel "incomplete" when not admitted; with no hacker flag set, the unverified panel is exactly "unverified" and the sponsor panels mean "incomplete", "pending" and "approved" |
| Dashboard.WaitlistIsClosedAndSubmitted | app/client/views/dashboard/dashboardCtrl.js:54-84 | for a non-sponsor the waitlist banner is the closed-and-submitted panel |
| Dashboard.SubstituteDeadlines | app/client/views/dashboard/dashboardCtrl.js:27-35 | a message without placeholders is unchanged |
| Dashboard.TwoApplicationDeadlines | app/client/views/dashboard/dashboardCtrl.js:28-31 | the first `[APP_DEADLINE]` becomes the application deadline and the second the sponsor deadline |
| Dashboard.OneApplicationDeadline | app/client/views/dashboard/dashboardCtrl.js:28-31 | a single `[APP_DEADLINE]` becomes the application deadline |
| Dashboard.FirstConfirmDeadlineOnly | app/client/views/dashboard/dashboardCtrl.js:32-34 | only the first `[CONFIRM_DEADLINE]` is filled in with the user's deadline |
| Dashboard.ConfirmMessageHasNoAppDeadline | app/client/views/dashboard/dashboardCtrl.js:28-31 | a message whose only `[` opens one `[CONFIRM_DEADLINE]` holds no `[APP_DEADLINE]` |
| Dashboard.SecondLoadKeepsFirstDeadline | app/client/views/dashboard/dashboardCtrl.js:25-35 | after the rewrite is written back into the shared messages, a second load with another user's deadline leaves the message with the first user's deadline |
| Text.IndexOfChar | app/client/views/resumes/resumesCtrl.js:189-191 | `indexOf('_')` is -1 iff there is no underscore, otherwise the first underscore |
| Text.ReplaceFirstAt | app/client/views/dashboard/dashboardCtrl.js:29-33 | a string `replace` changes only the first occurrence |
| Text.SplitJoin | app/server/controllers/UserController.js:291-309 | splitting the comma-joined list of comma-free values gives the list back |
| Resumes.SplitKey | app/client/views/resumes/resumesCtrl.js:189-191 | the part before the first underscore and the rest, which rebuild the key around that underscore |
| Resumes.KeySplitRoundTrip | app/client/views/resumes/resumesCtrl.js:189-191 | splitting a user's key gives back the id and `lastName_firstName` whenever the id has no underscore |
| Resumes.UpdatePage | app/client/views/resumes/resumesCtrl.js:69-88 | Infinity pages never return, a key-only entry throws; otherwise the rows are the records in order, ticked iff their key is selected, the page list is `[0 .. totalPages-1]`, and `totalSize` is the row count on one page and `size * (totalPages - 1)` otherwise |
| Resumes.TotalSizePositive | app/client/views/resumes/resumesCtrl.js:73 | on a first page `totalSize` is positive iff something matches |
| Resumes.MatchingResumesIffMatches | app/client/views/resumes/resumesCtrl.js:282-284 | on the first page the browser reports matching resumes iff some record matches the filter |
| Resumes.UpdateCheckedCount | app/client/views/resumes/resumesCtrl.js:165-174 | a ticked row with an id adds its key, an unticked row removes it, and no other key changes |
| Resumes.TickUntick | app/client/views/resumes/resumesCtrl.js:165-174 | ticking then unticking removes just that row's key |
| Resumes.SelectAllResumesOnCurrPage | app/client/views/resumes/resumesCtrl.js:206-212 | every row is ticked and the selection grows by exactly the rows' keys |
| Resumes.DeselectAllResumes | app/client/views/resumes/resumesCtrl.js:225-230 | every row unticked, nothing selected, nothing else changed |
| Resumes.Without | app/client/views/resumes/resumesCtrl.js:94 | removing a value deletes every occurrence and keeps every other value's count |
| Resumes.WithoutAppend | app/client/views/resumes/resumesCtrl.js:94 | the filter distributes over concatenation, so the remaining values keep their order |
| Resumes.ToggleChoice | app/client/views/resumes/resumesCtrl.js:90-111 | a ticked choice is appended, an unticked one removed everywhere |
| Resumes.TickUntickChoice | app/client/views/resumes/resumesCtrl.js:90-111 | ticking then unticking a new choice restores the list |
| Resumes.GradFilterIsSelection | app/server/controllers/UserController.js:291-299 | the graduation clause accepts exactly the terms the browser selected |
| Resumes.RowClassOf | app/client/views/resumes/resumesCtrl.js:286-296 | a row is "admin" iff the user is an admin |
| Resumes.RowClassMatchesStatus | app/client/views/resumes/resumesCtrl.js:286-296 | for a non-admin neither checked in nor declined, green is "confirmed" and yellow is "admitted" |
| Invariants.ReplaceKeepsInv | app/server/models/User.js:306-318 | replacing a record by a consistent one with the same id, e-mail and team keeps the invariant |
| Invariants.InsertKeepsInv | app/server/models/User.js:306-318 | adding a consistent, teamless record with a new id and unused e-mail keeps the invariant |
| Invariants.AccountOpsKeepInv | app/server/controllers/UserController.js:138-242 | account creation and verification keep the invariant |
| Invariants.AdmissionOpsKeepInv | app/server/controllers/UserController.js:505-570 | profile, admission, confirmation, decline and reminder keep confirmed ⇒ admitted ∧ ¬declined |
| Invariants.EventOpsKeepInv | app/server/controllers/UserController.js:998-1385 | event-day operations keep the invariant, the Discord link both as written and corrected |
| Invariants.TeamOpsKeepInv | app/server/controllers/UserController.js:628-686 | joining and leaving keep every team within the limit |
| Invariants.SponsorOpsKeepInv | app/server/controllers/UserController.js:1210-1261 | sponsor writes, including the as-written `grantResumeAccess`, never store "incomplete" |
| Invariants.ApplyKeepsInv | app/server/controllers/UserController.js:138-1385 | every operation, the as-written and the corrected Discord link and resume grant alike, keeps well-formedness, confirmed ⇒ admitted ∧ ¬declined, no "incomplete" sponsor status and team sizes within the limit |
| Invariants.WrittenRecord | app/server/controllers/UserController.js:138-1385 | a successful operation writes exactly one record: an existing one keeps its id and e-mail and any decline, a new one is undeclined with no sponsor status and an unused e-mail |
| Invariants.OnlyTargetChanges | app/server/controllers/UserController.js:138-1385 | no record is removed, at most one is added, and every record but the returned one is unchanged |
| Invariants.DeclinedNeverCleared | app/server/controllers/UserController.js:551-570 | no operation clears `declined` |
| Invariants.NeverWritesIncomplete | app/server/controllers/UserController.js:1210-1261 | no operation writes "incomplete" as a sponsor status |
| Invariants.RunKeepsInv | app/server/controllers/UserController.js:138-1385 | the invariant holds after any sequence of operations that starts where it holds |
| Invariants.DeclineSurvivesRun | app/server/controllers/UserController.js:551-570 | a decline survives any sequence of operations |
| Invariants.ApplyKeepsWellFormed | app/server/models/User.js:306-318 | every operation keeps ids consistent and e-mails unique |

## Left out

- I/O is not modelled: the mailer, S3 resume storage, QR codes, PDF rendering, the zip download and the CSV skill list. The e-mails the operations send are not modelled, only their effect on the collection.
- Concurrency is not modelled. Operations run one at a time, so the non-atomic count-then-set of `createOrJoinTeam` and the find-then-update of the meal flags are modelled as atomic.
- `jsonwebtoken` and `bcrypt` are abstract. A token is the pair of its secret and payload, and a hash is the password it hashes.
- `validator.isEmail` and the search `RegExp` are parameters. The model does not interpret regular-expression syntax or case-insensitivity.
- `Text.ToLower` lower-cases ASCII letters only. JavaScript's `toLowerCase` also maps non-ASCII letters.
- `Text.ReplaceFirst` inserts the replacement literally. JavaScript would interpret `$` patterns in it.
- The client utilities become parameters: `Utils.isRegOpen` as `regIsOpen`, `Utils.isAfter` as `pastConfirmation`, and `Utils.formatTime` as the deadline strings.
- `TEAM_MAX_SIZE` is modelled as a natural number. The source compares against the raw environment string, and `Teams.DefaultMaxTeamSize` is the fallback of 4.
- The following operations are outside this model: login, password change and reset, walk-in users, `deferUser`, the admin and sponsor role switches, workshop and table visits, statistics, and the Settings reads. None of them writes `confirmed`, `admitted`, `declined`, `sponsorStatus` or `teamCode`, so the invariants below would survive them too; this is not proved.
- Registration.CanRegister: a failed Settings read is left out. When the whitelist is missing, the source calls back with neither an error nor a result; the model reports `NoWhitelist` in that case.
- Registration.CreateUser: the new record takes `timestamp` and `lastUpdated` from the request's clock, as in the corrected `UserModel.NewUser`. The source stamps it with the server's start time (see Findings), which `UserModel.NewUserAsWritten` models.
- Registration.CreateSponsor: the random 15-character password is a parameter. The new record is stamped with the request's clock, as in `Registration.CreateUser`, not with the server's start time.
- Tokens.VerifyTempAuthToken: `exp` is set with the library's `expiresInMinutes`, whose handling depends on the library version. The model takes the claim as `iat + 3600` in whole seconds. A token without `exp` counts as expired, as the contract states.
- The `salt` default is left out, because the model has no salt field. It is also `Date.now()` at `app/server/models/User.js:362`.
- Sponsors.UpdateSponsorById: the statement times are passed in as the results of `Number`, either a whole number or `None` for NaN. A fractional time is not modelled. In a stored record, `None` means the field is unset.
- Listing.GetPage: the page and size arrive parsed. `parseInt` of a non-numeric size (NaN) is not modelled.
- Listing.GetPage: records with equal names are listed in one fixed order that is the same for every page. The source runs a separate sorted query per page and MongoDB does not promise a stable order among ties, so a tied record may appear on two pages or on none. Listing.PageOfIndex, Listing.PagesPastEndEmpty, Listing.PageWindow and the window clauses of Listing.GetPage and Listing.GetSponsorPage hold for that fixed order only.
- Dashboard.SubstituteDeadlines: models one rewrite of one message. The source writes the result back into the `DASHBOARD` constant, which is shared by the whole page session. After the first load no placeholder is left, so a later user sees the first user's confirmation deadline. Dashboard.SecondLoadKeepsFirstDeadline states this for a message with one confirmation placeholder.
- UserModel.ValidateProfile: a missing profile string is modelled as the empty string and fails validation. In the source, `.length` of an undefined field throws instead.
- Resumes.SplitKey: the key is built from the stored names, with an empty string for a missing name. The source renders a missing name as "undefined" (`app/server/controllers/UserController.js:348`, `app/client/views/resumes/resumesCtrl.js:275`).
- Resumes.UpdatePage: the source assigns the scope fields before its loops. The model returns only the outcome: `Loops` when the page loop never ends, `Throws` when a key-only entry is read. A row not in the selection is modelled as unticked, because rows from the server carry no `checked` field.
- Resumes.GradChoices lists the seven terms of the source. It omits "Spring 2024" and "Other", which the profile accepts, so those terms cannot be selected in the browser.
- The admin sponsor page controller is not modelled, because its page list repeats the resume browser's.

## Findings

| source | as written | input that shows it | evidently intended | confidence | as-written member | corrected member |
|---|---|---|---|---|---|---|
| app/server/models/User.js:339-344 | `default: Date.now()` for `timestamp` and `lastUpdated` is evaluated once, when the schema is built | two accounts created a day apart after the server started | `default: Date.now`, evaluated per record | high, not executed | UserModel.NewUserAsWritten, UserModel.CreationTimeFrozen | UserModel.NewUser |
| app/server/controllers/UserController.js:965-996 | `grantResumeAccess` is defined twice, and the second definition, which wins, writes "completedProfile" | a sponsor in "completedProfile" asks to be granted access and stays in "completedProfile" | a grant that writes "grantedResumeAccess", and a separate remove | high, not executed | Sponsors.GrantResumeAccessAsWritten, Sponsors.GrantAsWrittenDoesNotGrant | Sponsors.GrantResumeAccess, Sponsors.RemoveResumeAccess, Sponsors.GrantRemoveRoundTrip |
| app/server/controllers/UserController.js:1337-1348 | the lookup already demands `verified: true`, so for an unverified account `user` is null and `user.verified` throws; the "not verified" reply is unreachable | a valid Discord token of an account whose e-mail is not verified | look the account up by id only and answer "not verified" | medium, not executed | EventDay.VerifyDiscordTokenAsWritten, EventDay.UnverifiedDiscordLink | EventDay.VerifyDiscordTokenById, EventDay.DiscordVersionsAgreeOnVerified |
