# vybe-web server rules, modelled in Dafny

vybe-web is the Next.js back end of a group-event planning app: people sign
in with a one-time code or an e-mail and password, create events, vote on
venues and times, invite friends by SMS, receive notifications and file
support reports. This project models the rules its API routes and helper
services apply. It covers:

- the one-time-password sign-in cycle: send, verify, complete sign-up;
- e-mail sign-up and login, and the users route;
- the notification store;
- support reports;
- event creation and listing;
- the uniqueness rules of votes;
- SMS invitations;
- venue search over Google Places;
- Expo push notifications;
- the CORS middleware;
- the local decisions of the OpenAI helpers.

Each MongoDB collection is a `Collections.Collection` object. It holds its
documents in insertion order and is updated in place by the route methods.
Each route keeps the invariant of its collection and states its whole reply
and its whole new table:

- OTP codes: six digits, attempts within their limit, at most one unverified
  code per contact.
- Users: e-mail and username unique.
- Votes: no two standard-mode votes collide in a partial unique index.
- Notifications: `read` and `readAt` go together.
- Reports: the priority is the one the category calls for.

Reads (`find / sort / limit`, `findOne`) are functions in `Query`. They are
proved to return only matching documents, newest first, and never to leave
out a newer match.

Inputs the server gets from outside are parameters:

- the clock (`now`);
- the random draw behind an OTP;
- whether an SMS, e-mail or push delivery throws;
- bcrypt (`PasswordHashing.Hasher`);
- the Places, Whisper and chat-completion replies;
- `JSON.parse` of a model answer;
- environment variables.

A JSON field that is absent, or not a string, is `None`. JavaScript
truthiness of a string field is `Wrappers.Truthy`.

The OTP routes import `@/lib/services/models/OTP`, which is not part of this
model. The only OTP schema at hand is lib/models/OTP.ts, and the model takes
it as the schema. Its `type` enumeration (lib/models/OTP.ts:6) has only
`phone` and `email`. So a send-otp request with any other `type` passes the
route's checks, has its earlier unverified codes deleted, and is then
refused by `OTP.create` with a 500. It is never delivered through the e-mail
branch of app/api/auth/send-otp/route.ts:75-79.

## Model

| member | source | states |
|---|---|---|
| Wrappers.EnvKey | lib/services/googlePlaces.ts:2-5 | A key is the first of its two variables that is set and non-empty, and is empty exactly when neither is; the Places key (here) and the OpenAI key (lib/services/openai.ts:2-5) follow this rule |
| JsStrings.Includes | lib/services/openai.ts:189-197 | `includes` holds exactly when the part occurs at some position of the string |
| JsStrings.TrimStart | app/api/auth/complete-signup/route.ts:57-62 | The result is a suffix; everything dropped is white space; it does not start with white space |
| JsStrings.TrimEnd | app/api/auth/complete-signup/route.ts:57-62 | The result is a prefix; everything dropped is white space; it does not end with white space |
| JsStrings.TrimSpec | lib/services/googlePlaces.ts:203 | `trim` returns the inner slice of the input, with only white space cut on either side and none left at its ends |
| JsStrings.TrimIdempotent | lib/services/googlePlaces.ts:203 | Trimming twice gives what trimming once gives |
| JsStrings.ToLower | app/api/auth/email-signup/route.ts:39 | Same length; each character is lowered on its own |
| JsStrings.ToLowerIdempotent | app/api/auth/email-login/route.ts:21 | Lowering an already lowered address changes nothing |
| JsStrings.Split | lib/services/googlePlaces.ts:201 | `split` gives at least one part, and no part contains the separator |
| JsStrings.JoinSplit | lib/services/googlePlaces.ts:201-202 | Joining the parts gives the input back, and there is one part more than there are separators |
| JsStrings.SplitJoin | lib/services/googlePlaces.ts:201-203 | Splitting a join of separator-free parts gives those parts back |
| JsStrings.SplitFree | lib/services/googlePlaces.ts:205 | A string without the separator splits into itself alone |
| JsStrings.SplitPrefix | lib/services/googlePlaces.ts:201 | A separator-free head followed by the separator splits off as the first part |
| JsStrings.Decimal | app/api/auth/send-otp/route.ts:8-10 | `toString` of a number: one or more digits, no leading zero |
| JsStrings.ParseDecimalOfDecimal | app/api/auth/send-otp/route.ts:8-10 | Reading back the printed digits gives the number |
| JsStrings.DecimalInjective | app/api/auth/complete-signup/route.ts:47-54 | Different numbers print differently |
| JsStrings.DecimalLength | app/api/auth/send-otp/route.ts:8-10 | A number printed with k digits lies in [10^(k-1), 10^k) |
| JsStrings.SixDigits | app/api/auth/send-otp/route.ts:8-10 | Every number in [100000, 999999] prints as exactly six digits |
| JsStrings.DigitIn | app/api/notifications/route.ts:11 | A decimal digit is recognised exactly when it is one of 0-9, with its value; any digit is below the radix |
| JsStrings.LeadingDigits | app/api/notifications/route.ts:11 | `parseInt` reads the longest run of leading digits, and the character after it is no digit |
| JsStrings.DigitsValueDecimal | app/api/notifications/route.ts:11 | The base-10 value of a digit run is its decimal value |
| JsStrings.LeadingDigitsPrefix | app/api/notifications/route.ts:11 | A digit run followed by a non-digit is read up to the non-digit |
| JsStrings.ParseUnsignedDecimal | app/api/venues/search/route.ts:9 | Unsigned reading of a printed number, followed by no digit and no `x`, gives the number |
| JsStrings.ParseIntDecimal | app/api/venues/search/route.ts:9 | `parseInt` of a printed number, followed by no digit and no `x`, gives the number back |
| Query.Filter | app/api/notifications/route.ts:18-26 | A filtered read is never longer than the collection |
| Query.FilterMembers | app/api/notifications/route.ts:18-26 | A filtered read returns exactly the stored documents that pass the filter |
| Query.FilterAppend | app/api/notifications/route.ts:18-26 | Filtering a concatenation filters each part in place: the kept documents stay in their stored order |
| Query.FilterSubMultiset | app/api/notifications/route.ts:18-26 | A filtered read never holds a document more often than the collection does |
| Query.InsertDesc | app/api/notifications/route.ts:24 | Inserting into a newest-first list keeps it newest first and adds exactly the one document |
| Query.SortDesc | app/api/notifications/route.ts:24 | `sort({ key: -1 })` orders by decreasing key and is a permutation of its input |
| Query.Limit | app/api/notifications/route.ts:25 | `limit(0)` keeps everything; `limit(n)` keeps the first min(count, abs n) documents |
| Query.NewestSpec | app/api/notifications/route.ts:23-26 | `find / sort / limit` returns only matching stored documents, none more often than it is stored, newest first, as many as the limit allows; no match it leaves out is newer than one it returns |
| Query.NewestAreNewest | app/api/users/route.ts:31-35 | A matching document left out of a `find / sort / limit` read is no newer than any returned one |
| Query.FirstMatch | app/api/events/route.ts:20 | `find` gives the first position that matches, and none exactly when nothing matches |
| Query.FindNewest | app/api/auth/verify-otp/route.ts:20-30 | `findOne().sort({ key: -1 })` gives a matching document with the largest key, and none exactly when nothing matches |
| Collections.ParseId | app/api/users/route.ts:14-20 | Id text is accepted exactly when it is the printed form of an id, which it then prints back to |
| Collections.ParseIds | app/api/notifications/route.ts:79-85 | A list of id texts is cast whole: every id prints back to its text, or some text is no id |
| Collections.ParseIdText | app/api/auth/email-signup/route.ts:80 | The token text of an id parses back to that id |
| Collections.Reject | app/api/notifications/route.ts:104-107 | `deleteMany` never adds documents |
| Collections.RejectMembers | app/api/notifications/route.ts:104-107 | After `deleteMany` exactly the stored documents the filter does not select remain |
| Collections.RejectKeepsIds | app/api/auth/send-otp/route.ts:55-58 | Deleting keeps `_id`s distinct and below the next fresh id |
| Collections.UpdateWhere | app/api/notifications/route.ts:72-85 | `updateMany` keeps every position and every unselected document, and changes the fields of each selected one |
| Collections.SetData | app/api/auth/verify-otp/route.ts:51-67 | `save` changes the fields of the documents with that `_id` and of no other |
| Collections.SetDataKeepsIds | app/api/auth/verify-otp/route.ts:51-67 | Saving keeps every `_id` in place, distinct and bounded |
| Collections.SetDataChangesOne | app/api/auth/verify-otp/route.ts:66-67 | With distinct ids, saving a found document changes that one position only |
| Collections.RejectIdRemovesOne | app/api/notifications/route.ts:108-111 | With distinct ids, `findByIdAndDelete` removes exactly that one document and keeps the order of the rest |
| Collections.RejectNone | app/api/notifications/route.ts:108-111 | Deleting with a filter that selects nothing, such as an unknown id, changes nothing |
| Collections.RejectFresh | app/api/auth/send-otp/route.ts:74-88 | Deleting the document just created under a fresh id restores the collection exactly |
| Collections.Collection.constructor | lib/services/models/User.ts:72 | A new collection is empty and satisfies the id invariant |
| Collections.Collection.Create | app/api/auth/send-otp/route.ts:65-71 | `create` appends one document with the given fields, time and a fresh `_id`, and keeps ids distinct |
| Collections.Collection.DeleteWhere | app/api/auth/send-otp/route.ts:55-58 | `deleteMany` leaves the stored documents the filter does not select |
| Collections.Collection.DeleteById | app/api/notifications/route.ts:108-111 | `findByIdAndDelete` leaves every document with another `_id` |
| Collections.Collection.UpdateMany | app/api/notifications/route.ts:72-85 | `updateMany` applies the change to the selected documents only, keeping the id invariant |
| Collections.Collection.Save | app/api/auth/verify-otp/route.ts:51-67 | `save` rewrites the document with that `_id`, keeping the id invariant |
| OtpModel.RejectKeepsOtps | app/api/auth/send-otp/route.ts:55-58 | Deleting OTPs keeps every code well formed and at most one unverified code per contact |
| OtpModel.AppendKeepsOtps | app/api/auth/send-otp/route.ts:65-71 | A well-formed code for a contact with no unverified code keeps the OTP invariant |
| OtpModel.SaveKeepsOtps | app/api/auth/verify-otp/route.ts:51-67 | Saving a well-formed change to one OTP that does not un-verify it keeps the invariant |
| SendOtp.GenerateOtp | app/api/auth/send-otp/route.ts:8-10 | The code is six decimal digits whose value is the draw |
| SendOtp.GenerateOtpInjective | app/api/auth/send-otp/route.ts:8-10 | Different draws give different codes |
| SendOtp.CleanPhone | app/api/auth/send-otp/route.ts:34-43 | The cleaned number holds no white space and no dash and is no longer than the input |
| SendOtp.CleanPhonePlus | app/api/auth/send-otp/route.ts:34-43 | The cleaned number starts with `+` exactly when the first character of the raw number that is neither space nor dash is `+` |
| SendOtp.RequestError | app/api/auth/send-otp/route.ts:18-43 | A request passes exactly when both fields are present, an e-mail matches the pattern, and a phone starts with `+` after cleaning |
| SendOtp.Post | app/api/auth/send-otp/route.ts:18-98 | A refused request stores nothing. Otherwise the contact's unverified codes are replaced by one new code valid for ten minutes, with purpose login exactly when a user has the contact. A failed delivery removes the new code again. A success leaves exactly one unverified code for the contact, and the OTP invariant holds throughout |
| VerifyOtp.PendingUnique | app/api/auth/verify-otp/route.ts:20-30 | Under the invariant, the newest unverified code of a contact is its only one |
| VerifyOtp.Judge | app/api/auth/verify-otp/route.ts:33-62 | Each outcome holds exactly when its check is the first to decide: expired when past its expiry; exhausted when live but out of attempts; wrong when live, under the limit and unequal; accepted when live, under the limit and equal |
| VerifyOtp.Confirm | app/api/auth/verify-otp/route.ts:70-93 | A right code sets the verified flag of its own channel and the visit time; every other field of the user, contact fields, name, hash, stats and status included, is kept |
| VerifyOtp.Login | app/api/auth/verify-otp/route.ts:70-104 | A known contact's user is confirmed and returned without hash; an unknown contact creates nothing and is reported as new |
| VerifyOtp.Post | app/api/auth/verify-otp/route.ts:12-104 | 400 without both fields, 404 without a pending code. An expired or exhausted code is deleted. A wrong code costs exactly one attempt and reports the attempts left, never negative. A right code marks only that OTP verified, then logs in or reports a new user |
| CompleteSignup.BaseUsername | app/api/auth/complete-signup/route.ts:46 | The base username holds only a-z and 0-9, is no longer than the name, and keeps every character of the name that lowers to a letter or digit. A one-character name gives that character lowered, or nothing |
| CompleteSignup.BaseUsernameAppend | app/api/auth/complete-signup/route.ts:46 | The base of a concatenation is the concatenation of the bases; with the one-character case this fixes the base as the lowered letters and digits of the name, in order |
| CompleteSignup.BaseUsernameIdempotent | app/api/auth/complete-signup/route.ts:46 | Deriving a base from a base changes nothing |
| CompleteSignup.CandidateInjective | app/api/auth/complete-signup/route.ts:47-54 | Different rounds of the loop try different usernames |
| CompleteSignup.FirstFreeUnique | app/api/auth/complete-signup/route.ts:47-54 | There is one first free candidate |
| CompleteSignup.ChooseUsername | app/api/auth/complete-signup/route.ts:47-54 | The loop ends with the first candidate no user holds (the base, else the base with the smallest free suffix), within one round per stored user |
| CompleteSignup.SignupData | app/api/auth/complete-signup/route.ts:57-72 | Trimmed name, active status. An e-mail sign-up stores the verified e-mail. A phone sign-up stores the verified phone and the placeholder `<username>@vybe.temp` |
| CompleteSignup.Post | app/api/auth/complete-signup/route.ts:12-88 | 400 without the fields, without a verified code from the last fifteen minutes, or for an existing contact. Otherwise it creates the user under the first free username, deletes the consumed code and answers without the hash; a rejected create changes nothing |
| EmailFormat.IsEmailMatchesPattern | app/api/auth/email-signup/route.ts:22-28 | The computed e-mail test accepts exactly the strings `^[^\s@]+@[^\s@]+\.[^\s@]+$` matches |
| EmailFormat.IsEmailMatches | app/api/auth/send-otp/route.ts:26-33 | Every address the test accepts matches the regular expression |
| EmailFormat.MatchesIsEmail | app/api/auth/send-otp/route.ts:26-33 | Every string the regular expression matches passes the test |
| EmailFormat.IsEmailRefuses | app/api/auth/email-signup/route.ts:22-28 | White space anywhere, no `@` or two `@` make an address invalid |
| EmailFormat.NoDotNoMatch | app/api/auth/email-signup/route.ts:22 | Without a dot there is no match |
| EmailFormat.IsEmailExamples | app/api/auth/email-signup/route.ts:22 | `a@b.co` is accepted; `a@bco` and `a@b.` are refused |
| EmailSignup.RequestError | app/api/auth/email-signup/route.ts:14-36 | A request passes exactly when all three fields are present, the e-mail matches the pattern and the password has at least six characters |
| EmailSignup.SignupData | app/api/auth/email-signup/route.ts:48-61 | The stored user has the lower-cased e-mail, marked verified, the password only as its hash, and zero stats |
| EmailSignup.Post | app/api/auth/email-signup/route.ts:14-81 | 400 for a refused request and 409 for a taken lower-cased e-mail, storing nothing. Otherwise one user is appended and the reply's token is its id text; the welcome mail goes to the stored address |
| EmailLogin.Authenticate | app/api/auth/email-login/route.ts:13-44 | Login succeeds exactly when both fields are present, a user has the lower-cased e-mail, has a hash, and the password matches it. A refusal is 400 exactly when a field is missing. An unknown address and a wrong password get the same 401 message, so the reply does not tell them apart; a user without a hash gets its own 401 message |
| EmailLogin.Post | app/api/auth/email-login/route.ts:13-64 | A failure changes nothing. A success updates only that user's lastActive and answers with its session, phone included |
| EmailLogin.SignupThenLogin | app/api/auth/email-login/route.ts:21-44 | An account created by e-mail sign-up opens with its password, whatever the letter case of the address, and with no other password |
| UserModel.KeysKept | lib/services/models/User.ts:5-6 | Changes that keep every e-mail and username keep the unique indexes |
| UserModel.Create | lib/services/models/User.ts:4-6 | `User.create` appends exactly when name and e-mail are present and neither e-mail nor username is taken; otherwise nothing changes |
| UserModel.Save | app/api/auth/email-login/route.ts:47-48 | Saving a user with its keys unchanged rewrites only that user and keeps the indexes |
| UserModel.FindOne | app/api/users/route.ts:22-28 | `findOne` returns a stored matching user, and nothing exactly when no user matches |
| UserModel.SessionOf | app/api/auth/email-login/route.ts:52-64 | The session shows the user's id, name, e-mail, username and avatar, the phone only on login, and a token that parses back to the id |
| UserModel.Public | app/api/users/route.ts:68-71 | The public user has no hash and equals the stored user in every other field |
| UserModel.PublicKeepsOtherFields | app/api/users/route.ts:68-71 | Stripping keeps identity, time, e-mail and name, and stripping twice is stripping once |
| UsersRoute.PublicAll | app/api/users/route.ts:31-37 | Every listed user is the stored one without its hash |
| UsersRoute.Get | app/api/users/route.ts:14-37 | `id` wins over `email`. A lookup answers 200 with that user exactly when a stored user has that id or e-mail, and otherwise 404 `User not found`; id text that is no id gives the uncaught 500. Without either, the active listing. No reply holds a hash |
| UsersRoute.ActiveUsersSpec | app/api/users/route.ts:31-35 | The listing is the stored active users read newest first, none more often than it is stored, at most 100, each without its hash; no active user left out is newer than a listed one |
| UsersRoute.BodyData | app/api/users/route.ts:52-65 | The name, e-mail, username, phone, avatar and bio come from the body (an absent name or e-mail is empty, which the schema refuses); the hash is stored exactly when a password is given; the new user is active and unverified |
| UsersRoute.Post | app/api/users/route.ts:46-71 | A matching user gives 400 and stores nothing. Otherwise one user is appended with 201, or a rejected create, which the handler does not catch, gives the default 500 and changes nothing; the reply holds no hash |
| UsersRoute.PostWithoutEmail | app/api/users/route.ts:46-49 | A body without an e-mail is refused as a duplicate as soon as any user exists |
| NotificationsRoute.DefaultLimitIsFifty | app/api/notifications/route.ts:11 | Without a `limit` parameter the limit is 50 |
| NotificationsRoute.Get | app/api/notifications/route.ts:9-28 | 400 without a user id. Otherwise only that user's notifications (unread ones for `unreadOnly=true`), none more often than it is stored, newest first, as many as the limit allows, and no such notification left out is newer than a listed one |
| NotificationsRoute.Post | app/api/notifications/route.ts:42-58 | 400 without the four fields and 500 for an unknown type, storing nothing. Otherwise one unread notification with the given fields is appended |
| NotificationsRoute.MarkReadKeepsStamped | app/api/notifications/route.ts:72-85 | Marking read keeps `read` and `readAt` together and every id in place |
| NotificationsRoute.Update | app/api/notifications/route.ts:72-88 | "Mark all" with a user id wins over an id list. An id list marks exactly those notifications, or a bad id gives 500 and changes nothing. Neither form gives 400 and changes nothing |
| NotificationsRoute.MarkAllReadSpec | app/api/notifications/route.ts:72-78 | After "mark all" the user has nothing unread, earlier read times are kept, and other users' notifications are untouched |
| NotificationsRoute.MarkIdsSpec | app/api/notifications/route.ts:79-85 | Marking by id reads exactly the listed notifications, whoever owns them, and leaves the rest untouched |
| NotificationsRoute.Delete | app/api/notifications/route.ts:104-114 | `deleteAll=true` with a user id removes all and only that user's notifications. Otherwise an id removes that notification, and neither gives 400 |
| SupportReport.Priority | app/api/support/report/route.ts:76-81 | Priority is high exactly for bug and abuse, low exactly for feature and other, medium otherwise |
| SupportReport.MissingFields | app/api/support/report/route.ts:48-53 | The missing fields are listed in the fixed order email, name, category, subject, description; the list is empty exactly when all are present |
| SupportReport.MissingInOrder | app/api/support/report/route.ts:48-53 | Filtering the required fields tests them one by one in their order |
| SupportReport.FieldsTested | app/api/support/report/route.ts:49-53 | Each field counts as missing exactly when its value is not truthy |
| SupportReport.Store | app/api/support/report/route.ts:83-92 | A report that passes the schema is appended and the priority invariant is kept |
| SupportReport.Post | app/api/support/report/route.ts:48-103 | Missing fields give 400 with the ordered list and store nothing, as does an unknown category. A userId that is given but is no id gives 500 and stores nothing. Otherwise one report is appended, with the parsed userId or none, status open, the category's priority and empty metadata by default |
| SupportReport.Get | app/api/support/report/route.ts:120-133 | 400 without a user id, 500 for one that is no id. Otherwise at most 50 of that user's reports, none more often than it is stored, newest first, and none left out is newer than a listed one |
| EventsRoute.TopVenueImage | app/api/events/route.ts:15-24 | The cover is a photo of one of the event's options, and none exactly when none of them has a photo |
| EventsRoute.TopVenueImageMostVoted | app/api/events/route.ts:15-24 | No option of the event with a photo has more votes than the one whose photo is chosen |
| EventsRoute.FirstPhotoMostVoted | app/api/events/route.ts:16-20 | In options ranked by votes, the first with a photo has at least the votes of any other with a photo |
| EventsRoute.Get | app/api/events/route.ts:8-29 | At most 50 stored events, none more often than it is stored, newest first, none left out newer than a listed one, each with the cover of its own options |
| EventsRoute.DefaultCategories | app/api/events/route.ts:39-42 | A house party defaults to location, date and cuisine, anything else to place and date; all are valid categories |
| EventsRoute.CountEventSpec | app/api/events/route.ts:69-72 | The creator's created-event count rises by exactly one and lastActive is set; nothing else changes |
| EventsRoute.BuildEvent | app/api/events/route.ts:39-66 | A given category list (even empty) wins over the default. Mode defaults to standard and quick poll to false; anonymous voting is on unless exactly false. With a user id the creator is set and is the single host participant |
| EventsRoute.HostIsOnlyParticipant | app/api/events/route.ts:62-66 | A signed-in creator is the only participant, as host |
| EventsRoute.Post | app/api/events/route.ts:32-82 | With a user id, only that user's created-event count changes, and a malformed id gives 500. The event gets the default or given categories and the host participant. It is stored exactly when the schema accepts it; a refused one ends in the default 500, as the handler catches nothing |
| VoteModel.WithDefaults | lib/services/models/Vote.ts:4-15 | Category defaults to general, quick poll to false, cast time to now; the event, option, voter, guest token and any given category, quick-poll flag and cast time are kept |
| VoteModel.Create | lib/services/models/Vote.ts:20-41 | An invalid vote and a colliding standard-mode vote are refused without change. Any other is appended, and the vote invariant holds throughout |
| VoteModel.QuickPollAlwaysAdmissible | lib/services/models/Vote.ts:26-27 | A valid quick-poll vote never collides |
| VoteModel.UnindexedAlwaysAdmissible | lib/services/models/Vote.ts:24-28 | A valid vote without a string voter id or guest token is never refused by the indexes |
| VoteModel.SecondStandardVoteRefused | lib/services/models/Vote.ts:20-41 | A second standard-mode vote of one voter or guest in the same event and category is refused |
| VoteModel.OneStandardVotePerCategory | lib/services/models/Vote.ts:20-41 | Two stored standard-mode votes of one voter or guest differ in event or category |
| SendSms.Invitation | app/api/invites/send-sms/route.ts:23 | The text is the fixed invitation with the title and the link in their places, each readable back |
| SendSms.EveryReachableReported | app/api/invites/send-sms/route.ts:17-48 | Each contact with a phone is texted once and lands in exactly one of results and errors |
| SendSms.OnlyReachableReported | app/api/invites/send-sms/route.ts:17-40 | Every result and every error is a contact with a phone, succeeded or failed as reported |
| SendSms.LaterContactsStillSent | app/api/invites/send-sms/route.ts:22-39 | A failure does not stop later contacts: every contact with a phone whose send succeeds is in the results |
| SendSms.Post | app/api/invites/send-sms/route.ts:9-48 | Missing fields give 400 and no text. Otherwise the loop's results, errors and counts, or a 500 at the first null contact after texting those before it |
| GooglePlaces.PhotoUrl | lib/services/googlePlaces.ts:162-164 | The URL is the photo endpoint with the width, the reference and the key in their places, each readable back |
| GooglePlaces.PhotoUrlInjective | lib/services/googlePlaces.ts:162-164 | Different references give different URLs |
| GooglePlaces.ExtractCity | lib/services/googlePlaces.ts:199-206 | No city for an empty or absent address; otherwise a city exactly when the address has a comma |
| GooglePlaces.ExtractCityOfParts | lib/services/googlePlaces.ts:201-204 | For comma-separated parts the city is the trimmed second-to-last part |
| GooglePlaces.PlacePhotos | lib/services/googlePlaces.ts:170-172 | At most the first five references, each as a URL of width 800; none without photos |
| GooglePlaces.FormatPlace | lib/services/googlePlaces.ts:169-194 | Photos as above, and the photo URL is the first photo. The address falls back from formatted address to vicinity to the empty string. The city comes from the formatted address only. Types default to empty. Coordinates are the given location. Rating, price level, opening state, phone and website are copied unchanged |
| GooglePlaces.PhotoUrlIsFirstPhoto | lib/services/googlePlaces.ts:181 | A place with a photo reference gets the URL of its first reference |
| GooglePlaces.SearchResults | lib/services/googlePlaces.ts:67-78 | A failed fetch or a status other than OK and ZERO_RESULTS gives no places; otherwise every result, formatted, in order |
| GooglePlaces.DetailsResult | lib/services/googlePlaces.ts:141-156 | Details give a place exactly when the status is OK |
| GooglePlaces.ZeroResultsOnlyForSearches | lib/services/googlePlaces.ts:147-150 | ZERO_RESULTS is a success for a search and a failure for details |
| VenueSearch.Radius | app/api/venues/search/route.ts:9 | A given radius is read with `parseInt` |
| VenueSearch.DefaultRadiusIs5000 | app/api/venues/search/route.ts:9 | Without a radius the searches cover 5000 metres |
| VenueSearch.OrUndefined | app/api/venues/search/route.ts:10 | A parameter is passed on exactly when it is non-empty |
| VenueSearch.Located | app/api/venues/search/route.ts:23 | Coordinates exist exactly when both lat and lng are non-empty |
| VenueSearch.Merge | app/api/venues/search/route.ts:34-36 | The merge holds the text results plus at most the nearby ones |
| VenueSearch.MergeSpec | app/api/venues/search/route.ts:34-36 | The text results come first, unchanged; only nearby places with a new id are added, and none of them is left out |
| VenueSearch.MergeInOrder | app/api/venues/search/route.ts:34-36 | The added nearby places keep their order: those before a nearby place are added before it, those after it after it |
| VenueSearch.MergeIdempotent | app/api/venues/search/route.ts:34-36 | Merging the same nearby results again adds nothing |
| VenueSearch.Get | app/api/venues/search/route.ts:12-51 | 400 with no search without a query or both coordinates. A query runs the text search, topped up by a nearby search with the query as keyword only when it found fewer than five and a location and a type are given. Coordinates alone run one nearby search with the keyword |
| PushNotifications.ValidTokenIsPrefixed | lib/services/pushNotifications.ts:23-32 | A token is sent to exactly when it carries the Expo prefix, which already rules out the empty token |
| PushNotifications.Prepare | lib/services/pushNotifications.ts:23-42 | A payload exactly for a valid token, with sound default, badge 1 and data defaulting to empty |
| PushNotifications.Send | lib/services/pushNotifications.ts:17-61 | An invalid token gives null without posting; a valid one gives the post's answer for that payload |
| PushNotifications.ValidTokens | lib/services/pushNotifications.ts:72-74 | The bulk filter never adds tokens |
| PushNotifications.ValidTokensSpec | lib/services/pushNotifications.ts:72-74 | The bulk filter keeps exactly the valid tokens, and all of them when all are valid |
| PushNotifications.ValidTokensInOrder | lib/services/pushNotifications.ts:72-74 | The bulk filter keeps the tokens in their order: the valid tokens before a token come before it, those after it after it |
| PushNotifications.ValidTokensIdempotent | lib/services/pushNotifications.ts:72-74 | Filtering twice keeps what filtering once kept |
| PushNotifications.SendBulk | lib/services/pushNotifications.ts:66-93 | No valid token gives an empty list; otherwise one result per valid token, in order |
| PushNotifications.ActivityTitle | lib/services/pushNotifications.ts:105-114 | Each of the four activities gets its fixed title, anything else the fallback |
| PushNotifications.ActivityTitleIdentifies | lib/services/pushNotifications.ts:105-110 | Different known activities get different titles, none of them the fallback |
| PushNotifications.SendEvent | lib/services/pushNotifications.ts:98-122 | The push carries the activity's title, the details as body, and the activity and event in its data |
| Middleware.AllowOrigin | middleware.ts:13-19 | An allow-listed origin is echoed; any other, a missing one included, gets `*` |
| Middleware.MissingOriginGetsWildcard | middleware.ts:13 | A request without an origin gets `*` |
| Middleware.AllowOriginNeverEmpty | middleware.ts:15-19 | The allowed origin is never empty: the request's own origin or `*` |
| Middleware.PrefixMatchAdmitsLookalikes | middleware.ts:4-16 | Any `exp://` origin, and a host that merely begins like a listed one, is echoed |
| Middleware.Headers.constructor | middleware.ts:14 | The response starts with no CORS header |
| Middleware.Headers.Set | middleware.ts:16-21 | Setting a header replaces its value and keeps the others |
| Middleware.Run | middleware.ts:11-23 | A path outside `/api` is left alone; any other gets exactly the three CORS headers with the fixed methods and headers |
| OpenAi.FilenameFor | lib/services/openai.ts:186-197 | mp4 or m4a gives audio.m4a; otherwise mp3 gives audio.mp3; with none of the five, audio.webm |
| OpenAi.AudioFilename | lib/services/openai.ts:186-197 | The reassigned filename ends as the filename rule prescribes |
| OpenAi.Mp4IsM4a | lib/services/openai.ts:189-190 | `audio/mp4` is uploaded as audio.m4a |
| OpenAi.Transcribe | lib/services/openai.ts:179-231 | No key throws before any upload. Otherwise the file is uploaded under its filename, and the result is the text (empty when absent) or a rethrown failure message |
| OpenAi.Fallback | lib/services/openai.ts:164-171 | The fallback title is the first 50 characters of the prompt; the type is restaurant |
| OpenAi.ShortPromptIsTitle | lib/services/openai.ts:168 | A prompt of at most 50 characters is its own fallback title |
| OpenAi.GenerateEvent | lib/services/openai.ts:28-172 | The parsed answer when there is non-empty content that parses; the fallback otherwise |
| OpenAi.GenerateOptions | lib/services/openai.ts:266-283 | A non-empty result is the parsed array of a non-empty answer; a parsed array is returned as it is; every other case gives an empty list |

## Left out

- Ranked-preference (Borda) tallying: lib/services/models/UserVotingPreference.ts declares a schema and no code, so there is nothing to model.
- Delivery of SMS, e-mail and push: the senders are parameters that either return or throw. Templates, Twilio, SendGrid and the Expo request are not modelled. The e-mail sender returns false instead of throwing, so only a throw triggers the send-otp rollback, which is what the `deliveryFails` flag means.
- The fire-and-forget welcome e-mail is recorded as the address and name handed to it; its outcome is not modelled.
- Network calls (Places, Whisper, chat completions), their URLs, query parameters and prompt texts are parameters or left out. Only the decisions made on their replies are modelled.
- `JSON.parse` is a parameter; its failure is `None`.
- Concurrency: `Promise.all` in the events listing and `Promise.allSettled` in the bulk push are modelled as sequential maps.
- Time is an integer argument. `new Date(body.dateTimeStart)` is modelled as the time it denotes, or `None` for an invalid date.
- The TTL index on `expiresAt` is not modelled: expired codes stay until a route deletes them, which is what the routes' own expiry checks assume anyway.
- The async index-dropping block of lib/services/models/Vote.ts:46-54 is not modelled.
- Mongoose's exact error texts: where a handler catches a validation or cast failure and echoes it, the message is a fixed label per route (`CreateRejected`, `CastError`) rather than the text Mongoose builds. The users and events routes catch nothing, so their failures are the server's default 500 (`Uncaught`, `Internal`).
- ObjectIds are natural numbers handed out once, and their text form is the decimal digits, so a cast is "is the printed form of some id".
- Documents with equal sort keys keep their stored order; MongoDB leaves that order open.
- A `NaN` limit (from `parseInt` of text without digits) is taken as no limit.
- `toLowerCase`, `trim` and `\s` are modelled for ASCII letters and the common white-space characters; non-ASCII case mapping and UTF-16 code units are not modelled (strings are sequences of characters).
- JSON fields of a non-string type are modelled as absent.
- bcrypt is uninterpreted. `PasswordHashing.Sound` assumes distinct passwords never share a hash, which ignores bcrypt's 72-byte truncation.
- Logging, development-only output other than the echoed code, and the unused `success` / `sid` fields of the SMS results are left out.
- `parseFloat` of the coordinates is left out: coordinates are passed on as the text given. `radius.toString()` formatting inside the search requests is left out.
- The venue route's 500 branch is not modelled: the two search services catch their own errors and return an empty list, so it cannot be reached through them.
- Header names are kept as written; Headers' case-insensitive name lookup and the Next.js `matcher` config are not modelled.
- `titles[type]` for keys inherited from `Object.prototype` is not modelled: any kind outside the four gets the fallback.
- The events GET returns each event as stored; the participant and user fields the front end reads from it are not modelled.
- OpenAi.FilenameFor: states the m4a, mp3 and webm cases outright, and the wav and mpeg cases only as the remaining known filenames. The body checks them in source order, and `AudioFilename` is proved equal to it; `Mp4IsM4a` is the only example lemma.
- EventsRoute.Post: states the stored event through its categories, participants, host and type; `BuildEvent` states every field.
- VenueSearch.Radius: states only the case of a given radius; the default is stated by `DefaultRadiusIs5000`.
- Query.Filter, Collections.Reject, VenueSearch.Merge, PushNotifications.ValidTokens: their own contracts only bound the length. Membership is stated by `FilterMembers`, `RejectMembers`, `MergeSpec` and `ValidTokensSpec`. Order is stated by `FilterAppend`, `RejectIdRemovesOne`, `MergeInOrder` and `ValidTokensInOrder`.
