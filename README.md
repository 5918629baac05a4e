# Ward attendance tracker: a verified model of its request handlers

The application is a small Next.js and Mongoose web app. A bishop oversees
groups, a leader runs one group, and the leader records which members
attended on a date. This project models its core in Dafny:

- the four document collections (users, groups, events, attendance records),
  each held as a map from `_id` to document. They live in one `Database.Store`
  object, and every write goes through it;
- the schema rules the documents must meet before Mongoose stores them:
  required paths, `trim` setters, `maxlength` in UTF-16 code units, the role
  enum, the unique email index, and the pre-save hooks that check references;
- the attendance, members and events `POST` handlers. Each is a pure
  guard sequence (`Validate`), where the first failing guard decides the
  reply, followed by a method that performs the writes;
- the read-only handlers: the leader dashboard `GET` and the login `POST`;
- the bishop seeding step, the route-guard middleware with its matcher, and
  the attendance form's selection state.

Library behaviour is passed in as parameters:

- JavaScript `Date` parsing is `parse: string -> Option<Instant>`.
- `toISOString` is `iso`.
- `bcrypt.compare` is `compare`; `bcrypt.hash` is `hash`.
- The `_id` a new document receives is `newId`.
- The clock reading is `now`.

The session is reduced to the caller's user id. Anything JavaScript treats as
falsy, including an empty string, counts as missing (`Common.Present`).

The model reproduces the code as written, including where the code's own
messages, comments and schema point to a different intent:

- The attendance handler refuses a second record only for the exact same
  parsed instant, not for the same calendar day.
- The attendance handler never computes `absentMembers`; the path stays an
  empty array.
- The attendance handler does not set `event`, which the attendance schema
  requires. Every request that passes the guards therefore fails at save with
  500, and nothing is written (`AttendanceRoute.Post`, `AttendanceRoute.RecordNeverSaved`).
- The handler builds `presentCount` and `absentCount`, but they are not schema
  paths. Strict mode drops them, so the reply cannot echo them.
- The members handler builds a user without a password. The user schema
  requires one, so the handler always answers 500 and writes nothing
  (`MembersRoute.Post`).
- The events handler makes no leader check (`EventsRoute.LeaderIrrelevant`).
- The user schema's role enum is `bishop` or `leader`; `member` is refused.
- Under the middleware's matcher, only paths below `/dashboard` are guarded.
  The `/login` exemption and both role branches are therefore never reached
  (`Middleware.UnderMatcher`).

## Model

| member | source | states |
|---|---|---|
| `Common.TrimIdempotent` | src/lib/models/Event.ts:25 | re-trimming a value the `trim` setter stored changes nothing |
| `Common.BlankTrimsToEmpty` | src/lib/models/Event.ts:22-27 | a string of white space only trims to the empty string, so a blank title counts as missing |
| `Common.TrimKeepsTrimmed` | src/lib/models/Event.ts:25 | a string with no white space at either end is stored unchanged |
| `Common.JsLength` | src/lib/models/Event.ts:26 | `maxlength` counts UTF-16 code units: between one and two per character |
| `Common.BeforeFirst` | src/app/api/attendance/route.ts:100 | `split('T')[0]` is a prefix of the ISO string with no 'T' in it, and it ends exactly at the first 'T' |
| `Common.MessagesDistinct` | src/lib/models/Attendance.ts:76-108 | the hook's thrown texts tell every failure apart, and a member failure names the member right after "Member " |
| `Common.JoinAppend` | src/app/api/attendance/route.ts:62 | joining one more id adds the separator and that id at the end |
| `Ordering.SortBy` | src/lib/models/Attendance.ts:121 | the sort is a permutation of its input, ordered by date in the requested direction, with missing dates first when ascending |
| `Ordering.SortedListing` | src/lib/models/Event.ts:94 | a query result lists every matching document exactly once, in date order |
| `UserModel.InsertOutcome` | src/lib/models/User.ts:16-20 | a user is stored exactly when it passes the schema (name, email, password, allowed role), its id is fresh and its email is free; an invalid user gets the validation error and a taken id or email the duplicate-key error; a store keeps unique emails |
| `UserModel.SchemaRules` | src/lib/models/User.ts:16-20 | a missing password or the role 'member' makes any user invalid; the group path never matters |
| `GroupModel.UpdateOutcome` | src/lib/models/Group.ts:4-8 | a group save succeeds exactly when the group has a name and exists |
| `EventModel.PreSaveError` | src/lib/models/Event.ts:72-86 | the hook passes exactly when the group and the creator both resolve; it reports the missing group exactly when the group does not resolve, and the missing creator when only the creator does not |
| `EventModel.InsertOutcome` | src/lib/models/Event.ts:20-86 | an event is stored exactly when it passes the schema (title, date, group, creator, lengths), its group and creator resolve and its id is fresh; an invalid event gets the validation error before the hook, and the hook reports the group before the creator |
| `EventModel.TitleRule` | src/lib/models/Event.ts:22-27 | a stored title is trimmed, non-empty and at most 100 code units; a blank title is refused |
| `EventModel.FindByGroup` | src/lib/models/Event.ts:93-95 | exactly the group's events, each once, oldest first |
| `EventModel.UpcomingEvents` | src/lib/models/Event.ts:98-103 | exactly the group's events dated at or after now, each once, oldest first |
| `AttendanceModel.FirstStranger` | src/lib/models/Attendance.ts:95-100 | the position of the first listed member who does not exist or is not on the roster |
| `AttendanceModel.PreSaveError` | src/lib/models/Attendance.ts:75-111 | the hook accepts a record exactly when its event, group and recorder exist and every present and absent member exists and is on the roster; a missing event is reported first, then a missing group, then a missing recorder |
| `AttendanceModel.AbsentCheckedAfterPresent` | src/lib/models/Attendance.ts:102-108 | once every present member passes, the first failing absent member is the one reported |
| `AttendanceModel.PresentCheckedBeforeAbsent` | src/lib/models/Attendance.ts:95-108 | the first failing present member is reported, before any absent member is examined |
| `AttendanceModel.RunPreSaveHook` | src/lib/models/Attendance.ts:75-111 | the hook's sequential lookups and two loops throw exactly the error the specification function names |
| `AttendanceModel.InsertOutcome` | src/lib/models/Attendance.ts:23-111 | a record is stored exactly when it is schema-valid, referentially sound and new; an invalid record is refused before the hook, and a hook failure is reported with the hook's own error, naming the first offending member |
| `AttendanceModel.RequiredPaths` | src/lib/models/Attendance.ts:23-52 | a record missing its event, group or recorder is refused; a record built without a date takes the current time |
| `AttendanceModel.NoUniqueGroupDate` | src/lib/models/Attendance.ts:67-72 | a second record for the same group and instant is saved like the first: no index prevents it |
| `AttendanceModel.FindByEvent` | src/lib/models/Attendance.ts:120-122 | exactly the event's records, each once, newest first |
| `AttendanceModel.FindByGroup` | src/lib/models/Attendance.ts:124-126 | exactly the group's records, each once, newest first |
| `AttendanceModel.FindByMember` | src/lib/models/Attendance.ts:128-135 | exactly the records listing the member as present or absent, each once, newest first |
| `AttendanceModel.AttendancePercentage` | src/lib/models/Attendance.ts:138-143 | 0 for an empty record, otherwise the present share in percent rounded to the nearest integer, always within 0..100 |
| `Database.Store.InsertUser` | src/lib/models/User.ts:14-23 | a user save changes the users collection exactly as the schema outcome says, and nothing else |
| `Database.Store.UpdateGroup` | src/lib/models/Group.ts:4-8 | a group save replaces that one group when it succeeds, and nothing else |
| `Database.Store.InsertEvent` | src/lib/models/Event.ts:72-86 | an event save adds that one event when it succeeds, and nothing else |
| `Database.Store.InsertAttendance` | src/lib/models/Attendance.ts:75-111 | an attendance save runs validation and the hook and adds that one record when it succeeds, and nothing else |
| `AttendanceRoute.InvalidMembers` | src/app/api/attendance/route.ts:58-65 | the invalid ids are exactly the present ids not on the roster, each as often as it was sent; none are invalid exactly when all are on the roster |
| `AttendanceRoute.InvalidMembersAppend` | src/app/api/attendance/route.ts:59 | the filter keeps request order: it distributes over concatenation |
| `AttendanceRoute.Validate` | src/app/api/attendance/route.ts:18-87 | each guard in turn decides the reply once the earlier ones pass: 401 without a session, 400 for missing fields, 400 for an invalid date, 404 for an unknown group, 500 for a group without a leader, 403 for another leader, 400 naming every off-roster id, and 400 exactly when a record of the group exists at that instant; a save happens exactly when all pass, and carries presentIds, both counts and the caller |
| `AttendanceRoute.EarlyRejectionsIgnoreStore` | src/app/api/attendance/route.ts:18-42 | authentication, required fields and the date are decided before the store is read, with 401 or 400 |
| `AttendanceRoute.InvalidMembersReported` | src/app/api/attendance/route.ts:58-65 | for the group's leader, the 400 lists all unknown present ids, joined by ", " |
| `AttendanceRoute.SameDayDifferentInstantAccepted` | src/app/api/attendance/route.ts:68-77 | for every store whose records of the group all sit at one instant: a request for that instant is refused as a duplicate, and one for any other instant, the same calendar day included, reaches the save |
| `AttendanceRoute.RepeatedIdGivesNegativeAbsentCount` | src/app/api/attendance/route.ts:83-84 | the absent count is the roster size minus the number of ids sent, so a repeated id can make it negative |
| `AttendanceRoute.ToDocument` | src/app/api/attendance/route.ts:80-87 | the document keeps date, group, present ids and recorder; it has no event and no absent members |
| `AttendanceRoute.RecordNeverSaved` | src/app/api/attendance/route.ts:80-89 | the document the handler builds never passes the attendance schema |
| `AttendanceRoute.AfterSave` | src/app/api/attendance/route.ts:89-114 | 201 exactly when the save succeeded, with the success message, the new id, the date cut at the first 'T' of its ISO form and the group name; otherwise the 500 reply |
| `AttendanceRoute.Post` | src/app/api/attendance/route.ts:15-115 | a refused request writes nothing; a save inserts at most the one record; as written no request gets 201 and the store never changes |
| `MembersRoute.Validate` | src/app/api/members/route.ts:10-48 | each refusal in order: 401 without a session, 400 when name, email, group or role is missing, 404 for an unknown group, 500 for a group without a leader, 403 for another leader; creation exactly when all pass, with a user that has no password and no phone |
| `MembersRoute.Pushed` | src/app/api/members/route.ts:53 | the roster grows by exactly the new id at the end, with all earlier entries unchanged |
| `MembersRoute.AddToGroup` | src/app/api/members/route.ts:42-69 | the user is saved before the group; a failed user save writes nothing, and a failed group save leaves the user stored and answers 500 |
| `MembersRoute.Post` | src/app/api/members/route.ts:9-70 | as written the handler never adds a member: every request past the guards gets 500 and the store is unchanged |
| `MembersRoute.CreatedUserRejected` | src/app/api/members/route.ts:42-50 | every user the handler builds fails the user schema |
| `MembersRoute.PhoneOptional` | src/app/api/members/route.ts:17-22 | the phone is not required and does not change the outcome of the guards |
| `EventsRoute.Validate` | src/app/api/events/route.ts:10-40 | 401 without a session, then 400 when title, date or group is missing, then 404 for an unknown group; creation exactly when all pass, for any caller; the event carries that group, the caller as creator and the trimmed fields |
| `EventsRoute.AfterSave` | src/app/api/events/route.ts:42-59 | the saved event is echoed with its ISO date exactly when the save succeeded; otherwise 500 |
| `EventsRoute.Post` | src/app/api/events/route.ts:9-60 | a refused request writes nothing; a save inserts exactly the one event |
| `EventsRoute.LeaderIrrelevant` | src/app/api/events/route.ts:27-42 | who leads the group changes neither the guards' decision nor the save's outcome: any authenticated caller can create an event for any existing group |
| `EventsRoute.InvalidDateFailsAtSave` | src/app/api/events/route.ts:36 | an unparseable date passes the guards and fails at save with 500 |
| `LeaderRoute.CallerGroup` | src/app/api/leader/route.ts:19-22 | the caller's group when the caller exists and the group reference resolves |
| `LeaderRoute.GroupMembers` | src/app/api/leader/route.ts:29-30 | exactly the users of the group whose role is 'member', each once |
| `LeaderRoute.EventList` | src/app/api/leader/route.ts:25-42 | exactly the group's events, each once, oldest first, each with its ISO date and its stored title and description; no list when one of them has no date |
| `LeaderRoute.MemberList` | src/app/api/leader/route.ts:29-48 | exactly the group's members, each once, with their name and email |
| `LeaderRoute.Get` | src/app/api/leader/route.ts:9-58 | 401 without a session; an empty dashboard for a caller without a resolvable group; 500 exactly when an event of the group has no date; otherwise exactly the group, its events oldest first and its members |
| `LoginRoute.FindByEmail` | src/app/api/login/route.ts:17 | a user with that email when one exists |
| `LoginRoute.FindByEmailUnique` | src/app/api/login/route.ts:17 | under the unique email index, the user found is the one holding the email |
| `LoginRoute.Post` | src/app/api/login/route.ts:7-43 | 400 for missing credentials before any lookup; an unknown email gets the single 401 reply; success names a user whose password matched, with no password in the reply |
| `LoginRoute.OutcomeForKnownEmail` | src/app/api/login/route.ts:23-38 | for a known email: a stored user without a password gives the 500 reply, a matching password logs in, and a wrong one gets the same 401 as an unknown email |
| `LoginRoute.HashesOnlyThroughCompare` | src/app/api/login/route.ts:23-38 | the stored hashes influence the reply only through the password comparison |
| `InitBishop.Seed` | src/lib/initBishop.ts:8-20 | MissingEnv exactly when an environment value is missing; AlreadyPresent exactly when the email is taken; otherwise the bishop is created exactly when the insert succeeds, adding that one user, and the failure is reported when it does not |
| `InitBishop.Run` | src/lib/initBishop.ts:6-23 | the seeding step changes only the users collection, as the specification function says |
| `InitBishop.Idempotent` | src/lib/initBishop.ts:12-20 | after a run that did not fail, a second run with the same environment changes nothing |
| `InitBishop.CreatedBishopValid` | src/lib/initBishop.ts:15-20 | the created account is a valid bishop user and emails stay unique |
| `Middleware.Guard` | src/middleware.ts:13-57 | a thrown lookup redirects with the failure flag; without a token only `/login` paths pass and others redirect with callbackUrl; with a token, `/bishop` paths redirect every non-bishop role (a missing one included) to the leaders page, other `/leaders` paths redirect every non-leader to the bishop page, and all else passes |
| `Middleware.MatchedPathPrefixes` | src/middleware.ts:59-64 | a path the matcher accepts starts with none of `/login`, `/bishop`, `/leaders` |
| `Middleware.UnderMatcher` | src/middleware.ts:59-64 | under the matcher, every request without a token is redirected to login and every request with one passes |
| `MarkAttendanceForm.Toggled` | src/components/MarkAttendanceForm.tsx:38-43 | toggling flips only that member (a missing key reads as unticked), adds it as a key if new, and keeps keys unique |
| `MarkAttendanceForm.PresentIds` | src/components/MarkAttendanceForm.tsx:51-53 | every submitted id is a key of the selection |
| `MarkAttendanceForm.PresentIdsExact` | src/components/MarkAttendanceForm.tsx:51-53 | the submitted ids are exactly the ticked members, each once |
| `MarkAttendanceForm.ToggleTwice` | src/components/MarkAttendanceForm.tsx:38-53 | ticking and unticking a member leaves the submitted ids unchanged |
| `MarkAttendanceForm.EmptySelectionRefused` | src/components/MarkAttendanceForm.tsx:51-53 | a submission with nothing ticked is refused by the attendance handler with the 400 for missing fields |
| `MarkAttendanceForm.Form.constructor` | src/components/MarkAttendanceForm.tsx:34-36 | the form starts with today's date, nothing ticked, not submitting |
| `MarkAttendanceForm.Form.SelectDate` | src/components/MarkAttendanceForm.tsx:117 | picking or clearing a date changes only the date |
| `MarkAttendanceForm.Form.HandleCheckboxChange` | src/components/MarkAttendanceForm.tsx:38-43 | the selection becomes its toggled form; nothing else changes |
| `MarkAttendanceForm.Form.SubmitDisabled` | src/components/MarkAttendanceForm.tsx:149 | submit is enabled exactly when a date is set, the member list is non-empty and nothing is being submitted |
| `MarkAttendanceForm.Form.BeginSubmit` | src/components/MarkAttendanceForm.tsx:45-70 | without a date nothing is sent; otherwise the form is marked as submitting, which disables the button, and sends the ISO date, the group and the ticked ids, each id once |
| `MarkAttendanceForm.Form.FinishSubmit` | src/components/MarkAttendanceForm.tsx:72-91 | a successful response clears the selection; either way submitting ends, and the button is enabled again exactly when a date is set and the member list is non-empty |

## Left out

- Connection set-up (`dbConnect`, `connectToDatabase`), logging, toasts, the
  `onAttendanceMarked` callback, `fetch`, and all rendering and animation. These
  are I/O or presentation. `@/lib/dbConnect` is not part of this model.
- The routes, `Attendance.ts` and `Event.ts` import a named `Group` export, but
  src/lib/models/Group.ts has only a default export. The model takes these
  imports to resolve to the group model.
- Malformed JSON bodies and JSON values of other types (numbers, objects,
  query-operator objects passed to `findOne`). Each field is modelled as an
  optional string, or as an optional array of ids.
- Mongoose ObjectId casting: ids are plain strings. The `CastError` that a
  malformed id raises inside `findById` is not modelled.
- The race between the duplicate lookup and the insert in the attendance
  handler. Each request is modelled as one atomic step.
- Timestamps (`createdAt`, `updatedAt`), virtuals and the non-unique indexes.
  None of them changes an outcome.
- The calendar's disabling of future dates, and the checkboxes being disabled
  while submitting. Both are rendering; the handlers themselves do not check.
- The session's role and group claims. No modelled handler reads them.
- How the caller's id reaches the session. As written, src/lib/auth.ts copies
  only role and group into the session, so `session.user.id` stays unset, and
  it default-imports `./models/User`, which has only a named export. The model
  takes the caller's id as given, so the session-guarded handlers are modelled
  past their 401 check.
- The URL origin of the middleware's redirects. Only the path and the query
  parameters are kept.
- `AttendanceModel.AttendancePercentage`: uses exact integer arithmetic
  (round half up of the exact ratio) instead of floating-point division
  followed by `Math.round`. The two can differ only where the float product
  lands next to a half.
- `Ordering.SortedListing`: documents with equal dates come in an
  unspecified order, and so do the unsorted `User.find` results of the leader
  dashboard. The database's natural order is not modelled.
- `LoginRoute.FindByEmail`: without the unique index it names some user with
  that email, not the first in natural order.
