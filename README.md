# Worklyst core, modelled in Dafny

Worklyst is a project and task board. This project models two halves of it.

The **backend** is an Express API over SQLite or PostgreSQL. Its modelled parts are:

- Session handling: `registrar`, `iniciarSesion`, `renovarToken` and `cerrarSesion`, with their access and refresh JWTs.
- The credential store: the `users` and `refresh_tokens` tables.
- The project store and its handlers: `projects` and `project_members`, with the owner-only rules.
- The bearer-token middleware in front of the protected routes.

The **frontend** is a React client. Its modelled parts are:

- The task board context: optimistic update with rollback, create, move, delete, assign and fetch.
- Both users contexts: the id-keyed cache and the older context that special-cases the system bot account.
- The two member filters: the add-member dialog and the task assignee picker.

Tables are maps from primary key to row, held by two classes (`UserModel.UserStore`, `ProjectModel.ProjectStore`) whose methods change them in place. The schema's UNIQUE and FOREIGN KEY constraints are class invariants. An insert that would break one fails and writes nothing, as the driver's rejected statement does.

Every request handler is a method. Each is proved equal to a reference definition of its reply and of the tables it leaves, or given a contract that states each branch directly. Lemmas relate the handlers to each other:

- register then log in;
- log in then refresh;
- log out then refresh;
- idempotence of logout and of adding a member;
- the delete cascade;
- the owner invariant of projects.

The client's state (`tasks`, `usersMap`) is a field of a class whose methods reassign it.

Some things are parameters rather than computed:

- Server replies, whether a request succeeded, the current time (milliseconds), fresh uuids and bcrypt salts.
- The JWT and bcrypt libraries are concrete stand-ins:
  - Tokens are an injective encoding of the claims, the expiry and the secret, proved to round-trip.
  - A password hash is a datatype that only its own password matches.

JavaScript behaviour is written out where it decides a branch:

- truthiness of `""`, `null` and `undefined`;
- `??` versus object spread;
- `split(' ')`, `trim()` over the ECMAScript white-space set, and ASCII `toLowerCase()`.

## Model

| member | source | states |
|---|---|---|
| Duration.UnitMillis | backend/src/controllers/authController.ts:22-26 | each of s, m, h, d is at least one second, in milliseconds |
| Duration.UnitOf | backend/src/controllers/authController.ts:15 | only the four letters of the `[smhd]` class name a unit, and each names its own letter |
| Duration.Parse | backend/src/controllers/authController.ts:15-16 | parsing succeeds exactly for strings matching `^(\d+)([smhd])$` |
| Duration.FormatParse | backend/src/controllers/authController.ts:15-19 | every duration written as digits and a unit letter parses back to itself |
| Duration.ExpiryAt | backend/src/controllers/authController.ts:14-29 | an expiry exists exactly for well-formed settings and never lies before now |
| Duration.ExpiryOfFormat | backend/src/controllers/authController.ts:22-26 | the expiry is now plus amount times the unit's milliseconds |
| Duration.ExpiryOfZero | backend/src/controllers/authController.ts:22-26 | a zero duration expires at once |
| Duration.ExpiryMonotone | backend/src/controllers/authController.ts:22-26 | for one unit, a longer duration never expires earlier |
| Duration.RejectsMalformed | backend/src/controllers/authController.ts:15-16 | bare numbers, bare units, signs, fractions, spaces, doubled and upper-case units are refused |
| Duration.ConfiguredExamples | backend/src/controllers/authController.ts:24-26 | "7d" is 604800000 ms and "15m" is 900000 ms after now |
| Jwt.Escape | backend/src/controllers/authController.ts:72-83 | an encoded claim field contains no segment separator and no space |
| Jwt.UnescapeEscape | backend/src/controllers/authController.ts:72-83 | decoding an encoded field gives the field back |
| Jwt.Sign | backend/src/controllers/authController.ts:72-83 | a signed token is non-empty and has no space, so it fits a bearer header |
| Jwt.SignedSegments | backend/src/controllers/authController.ts:72-83 | a signed token splits into its four segments: id, email, expiry, signature |
| Jwt.VerifySigned | backend/src/controllers/authController.ts:107 | a token verifies under its own secret to its claims exactly while now is before its expiry |
| Jwt.VerifyOtherSecret | backend/src/controllers/authController.ts:107 | a token never verifies under a different secret |
| Jwt.VerifyMalformed | backend/src/middleware/authMiddleware.ts:24-26 | a string without four segments never verifies |
| Bcrypt.Hash | backend/src/controllers/authController.ts:45 | a stored hash is a real digest with cost 10 |
| Bcrypt.CompareHash | backend/src/controllers/authController.ts:65 | comparison accepts exactly the hashed password |
| UserModel.UserByEmail | backend/src/models/userModel.ts:77-89 | finds nothing iff no row has the email; otherwise returns that row with `name` read as `usuario` |
| UserModel.LiveToken | backend/src/models/userModel.ts:49-55 | finds nothing iff no row has the token with `expires_at > now`; otherwise returns that row |
| UserModel.WithoutToken | backend/src/models/userModel.ts:57-60 | keeps exactly the rows with another token, unchanged |
| UserModel.WithoutUserTokens | backend/src/models/userModel.ts:62-65 | keeps exactly the rows of other users, unchanged |
| UserModel.DeletedTokenNotLive | backend/src/models/userModel.ts:49-60 | after deleting a token, the lookup for it finds nothing at any time |
| UserModel.DeleteTokenIdempotent | backend/src/models/userModel.ts:57-60 | deleting a token twice equals deleting it once |
| UserModel.DeleteAbsentToken | backend/src/models/userModel.ts:57-60 | deleting a token no row has changes nothing |
| UserModel.DeleteOtherTokenKeepsLookup | backend/src/models/userModel.ts:49-60 | deleting one token leaves the lookup of any other unchanged |
| UserModel.ExpiredRowSkipped | backend/src/models/userModel.ts:49-55 | an expired row is not found but stays in the table |
| UserModel.UserStore.constructor | backend/src/models/userModel.ts:12-37 | fresh tables are empty and satisfy the constraints |
| UserModel.UserStore.SaveRefreshToken | backend/src/models/userModel.ts:39-47 | inserts and returns (id, user, token, expiry) iff the expiry is an instant a `Date` holds, the id and token are new and the user exists; otherwise writes nothing |
| UserModel.UserStore.FindRefreshToken | backend/src/models/userModel.ts:49-55 | returns the live row for the token, as `LiveToken` |
| UserModel.UserStore.DeleteRefreshToken | backend/src/models/userModel.ts:57-60 | the token table becomes `WithoutToken`, users untouched, constraints kept |
| UserModel.UserStore.DeleteUserRefreshTokens | backend/src/models/userModel.ts:62-65 | the token table becomes `WithoutUserTokens`, users untouched |
| UserModel.UserStore.CreateUser | backend/src/models/userModel.ts:67-75 | inserts iff the id and email are new and returns `{id, nombre, email}`; otherwise writes nothing |
| UserModel.UserStore.FindUserByEmail | backend/src/models/userModel.ts:77-89 | returns `UserByEmail` |
| UserModel.UserStore.FindUserById | backend/src/controllers/projectController.ts:41 | returns the user's public fields iff the id is a `users` key |
| UserModel.UserStore.DeleteUser | backend/src/models/userModel.ts:33 | removing a user cascades to exactly its refresh tokens |
| AuthController.Register | backend/src/controllers/authController.ts:31-49 | reply and tables equal the reference definition of registration |
| AuthController.Login | backend/src/controllers/authController.ts:51-95 | reply and tables equal the reference definition of login |
| AuthController.Refresh | backend/src/controllers/authController.ts:97-130 | the reply equals the reference definition of refresh; nothing is written |
| AuthController.Logout | backend/src/controllers/authController.ts:132-144 | reply and token table equal the reference definition of logout; users untouched |
| AuthController.RegisterMissingField | backend/src/controllers/authController.ts:34-37 | any falsy field gives 400 "Todos los campos son obligatorios" and writes nothing |
| AuthController.RegisterAddsOneUser | backend/src/controllers/authController.ts:31-49 | registration succeeds iff fields are given, the email is free and the id new; success adds exactly one user holding the password's hash; failure writes nothing |
| AuthController.RegisterTwiceRefused | backend/src/controllers/authController.ts:39-43 | after a registration every later one with that email is refused with 400 |
| AuthController.RegisterThenCredentialsMatch | backend/src/controllers/authController.ts:45-46 | a just-registered user's password matches under its email, and the lookup finds the new id |
| AuthController.LoginFailuresIndistinguishable | backend/src/controllers/authController.ts:59-69 | unknown email, blank stored hash and wrong password all give the same 401 and store no token |
| AuthController.LoginAddsOneToken | backend/src/controllers/authController.ts:71-94 | a successful login stores exactly one refresh row for the user, with the configured expiry, which lies within the `Date` range; it returns the public fields |
| AuthController.LoginBeyondDateRange | backend/src/controllers/authController.ts:86-87 | correct credentials with a refresh expiry past the last `Date` instant end in an exception and store nothing |
| AuthController.LoginThenRefresh | backend/src/controllers/authController.ts:79-125 | the refresh token from login renews until its expiry, with the same id and email claims |
| AuthController.AccessTokenCannotRefresh | backend/src/controllers/authController.ts:105-129 | with distinct secrets an access token is refused by refresh with 401 |
| AuthController.RefreshNeedsStoredRow | backend/src/controllers/authController.ts:110-114 | a validly signed token with no live stored row (none stored, revoked, or expired in the table) is refused with 401 |
| AuthController.LogoutThenRefreshRefused | backend/src/controllers/authController.ts:132-144 | after logout, refresh with that token gives 401 at any time |
| AuthController.LogoutIdempotent | backend/src/controllers/authController.ts:132-144 | logging out twice gives the same reply and table as once |
| AuthMiddleware.BearerToken | backend/src/middleware/authMiddleware.ts:15-16 | a token exists iff the header is non-empty with a second space-separated field, and it is that field |
| AuthMiddleware.Exchange.constructor | backend/src/middleware/authMiddleware.ts:14 | a request starts with no user, no status and `next` not called |
| AuthMiddleware.VerifyToken | backend/src/middleware/authMiddleware.ts:14-30 | ends in exactly one of 401, 403 or one call of `next` with the user attached, as the reference decision says |
| AuthMiddleware.BearerOfAnyScheme | backend/src/middleware/authMiddleware.ts:15-16 | the scheme word is not checked: any word, a space and a token yields the token |
| AuthMiddleware.DoubleSpaceIsMissing | backend/src/middleware/authMiddleware.ts:16-21 | two spaces after the scheme yield an empty token and 401 |
| AuthMiddleware.MissingTokenRefused | backend/src/middleware/authMiddleware.ts:18-21 | an absent, empty or one-word header gives 401 |
| AuthMiddleware.SignedTokenPasses | backend/src/middleware/authMiddleware.ts:24-29 | a bearer token signed with the secret passes with its claims before expiry and gets 403 after |
| AuthMiddleware.OtherSecretRefused | backend/src/middleware/authMiddleware.ts:24-28 | a token signed with another secret gets 403 |
| AuthMiddleware.PassIsVerified | backend/src/middleware/authMiddleware.ts:24-29 | the request passes iff its token verifies, and then carries exactly the verified claims |
| ProjectModel.WithoutProject | backend/src/config/database/init.ts:52 | the cascade keeps exactly the membership rows of other projects, unchanged |
| ProjectModel.AddMemberIdempotent | backend/src/models/projectModel.ts:88-99 | a second add of the same pair, with any role at any time, changes nothing |
| ProjectModel.AddMemberPresent | backend/src/models/projectModel.ts:88-99 | after an add the row exists, with the new role unless it existed, and other rows are unchanged |
| ProjectModel.RemoveMemberLeavesListings | backend/src/models/projectModel.ts:102-105 | removing a member takes exactly that project out of that user's listing, leaves other users' listings alone, and keeps the foreign key |
| ProjectModel.DeleteCascades | backend/src/models/projectModel.ts:82-85 | after a delete no membership names the project and the foreign key still holds |
| ProjectModel.DeleteLeavesListings | backend/src/models/projectModel.ts:43-52 | deleting a project removes exactly it from every user's listing |
| ProjectModel.Patched | backend/src/models/projectModel.ts:55-79 | a truthy name, a defined description and a given status are written; the rest is kept; `updated_at` becomes now |
| ProjectModel.PatchIdempotent | backend/src/models/projectModel.ts:55-79 | applying the same patch twice at one instant equals applying it once |
| ProjectModel.NewestFirstOrders | backend/src/models/projectModel.ts:49 | in a newest-first listing every row was updated no earlier than any later row |
| ProjectModel.InsertNewest | backend/src/models/projectModel.ts:49 | insertion keeps the newest-first order and adds exactly the new row |
| ProjectModel.InsertNewestIds | backend/src/models/projectModel.ts:43-52 | insertion adds exactly the new id, so a new id keeps every project listed once |
| ProjectModel.ApplyAssignments | backend/src/models/projectModel.ts:59-77 | the SET clauses built in order give the patched row |
| ProjectModel.ProjectStore.constructor | backend/src/config/database/init.ts:31-55 | fresh tables are empty and consistent |
| ProjectModel.ProjectStore.AddMember | backend/src/models/projectModel.ts:88-99 | succeeds iff the project exists; the membership table becomes `WithMember` |
| ProjectModel.ProjectStore.RemoveMember | backend/src/models/projectModel.ts:102-105 | deletes exactly the (project, user) row |
| ProjectModel.ProjectStore.CreateProject | backend/src/models/projectModel.ts:22-34 | for a new id, inserts the active project, makes the owner a member with role owner, and returns `{id, ..., status: 'active'}`; otherwise writes nothing |
| ProjectModel.ProjectStore.ProjectById | backend/src/models/projectModel.ts:37-40 | returns the row iff the id exists |
| ProjectModel.ProjectStore.UpdateProject | backend/src/models/projectModel.ts:55-79 | writes the patched row only for an existing project with a real change |
| ProjectModel.ProjectStore.DeleteProject | backend/src/models/projectModel.ts:82-85 | removes the project and cascades its memberships |
| ProjectModel.ProjectStore.ProjectsOfUser | backend/src/models/projectModel.ts:43-52 | lists each of the user's projects once, with the user's role, newest first, and nothing else |
| ProjectModel.ProjectStore.MembersOf | backend/src/models/projectModel.ts:108-116 | lists each member of the project that has a users row once, with name, email, role and join time |
| ProjectController.OwnerCanView | backend/src/controllers/projectController.ts:81-88 | under the owner invariant the owner can always view the project |
| ProjectController.InitialMembers | backend/src/controllers/projectController.ts:38-46 | the initial members are the owner plus the listed ids that exist; only the owner has role owner |
| ProjectController.AddInitialMembers | backend/src/controllers/projectController.ts:38-46 | the loop leaves exactly the owner and the existing listed ids as members; projects untouched |
| ProjectController.NewProjectGoverned | backend/src/controllers/projectController.ts:30-46 | a new project with its initial members keeps "every owner is a member with role owner, and only owners are" |
| ProjectController.Create | backend/src/controllers/projectController.ts:15-53 | 401 without a user, 400 without a name, 500 on an id clash; otherwise 201 with the new project and exactly the initial members; the owner invariant holds |
| ProjectController.CreateAsWritten | backend/src/controllers/projectController.ts:15-53 | as written: the same guards, and with a non-empty member list the project and its owner row are written but the reply is 500 |
| ProjectController.List | backend/src/controllers/projectController.ts:55-68 | 401 iff no user; otherwise the user's listing |
| ProjectController.GetOne | backend/src/controllers/projectController.ts:70-95 | 404 iff no such project, 403 for non-members, else the row with its member list |
| ProjectController.Update | backend/src/controllers/projectController.ts:97-119 | 404, then 403 for non-owners; the owner's update writes the patched row and keeps the invariant |
| ProjectController.Finish | backend/src/controllers/projectController.ts:121-142 | 404, then 403 for non-owners; the owner sets the status to finished |
| ProjectController.Delete | backend/src/controllers/projectController.ts:144-165 | 404, then 403 for non-owners; the owner deletes the project and its memberships |
| ProjectController.AddMember | backend/src/controllers/projectController.ts:167-200 | 400 without a target, 404 for a missing project, 403 for non-owners, 404 for an unknown user; else the member is added with role member |
| ProjectController.AddMemberAsWritten | backend/src/controllers/projectController.ts:167-200 | as written: the same first three guards, and then always 500 with nothing written; never a success |
| ProjectController.RemoveMember | backend/src/controllers/projectController.ts:202-228 | 404, 403 for non-owners, 400 for removing the owner; else only that membership is removed |
| TasksContext.Coalesce | frontend/src/contexts/TasksContext.tsx:121-127 | `??` takes the patch's value exactly when it is a string, and the task's value when the patch's is absent, null or undefined |
| TasksContext.FirstWithId | frontend/src/contexts/TasksContext.tsx:107 | the index is the first task with the id, and none exists iff no task has it |
| TasksContext.Optimistic | frontend/src/contexts/TasksContext.tsx:115-117 | every task with the id gets the patch laid over it; the others stay |
| TasksContext.RolledBack | frontend/src/contexts/TasksContext.tsx:143-145 | every task with the id becomes the snapshot; the others stay |
| TasksContext.CreateBody | frontend/src/contexts/TasksContext.tsx:79-82 | the body is the data with a truthy `estado`, defaulting to "pendiente" |
| TasksContext.WithoutTask | frontend/src/contexts/TasksContext.tsx:166 | keeps every copy of each task with another id and no task with the id, in order |
| TasksContext.RollbackRestores | frontend/src/contexts/TasksContext.tsx:104-151 | with unique ids and a patch that keeps the id, a failed update restores the list exactly |
| TasksContext.RollbackMissesChangedId | frontend/src/contexts/TasksContext.tsx:115-145 | a patch that changes the id escapes the rollback |
| TasksContext.RollbackMergesDuplicates | frontend/src/contexts/TasksContext.tsx:107-145 | two tasks with one id both become the first's snapshot |
| TasksContext.PayloadMatchesOptimistic | frontend/src/contexts/TasksContext.tsx:115-127 | with string-valued patches the request body matches the optimistic task |
| TasksContext.NullShownButNotSent | frontend/src/contexts/TasksContext.tsx:116-122 | a null field shows as null on screen but is sent as the old value |
| TasksContext.FirstIsUnique | frontend/src/contexts/TasksContext.tsx:107 | the first task with the id is at the only index before which no task has it |
| TasksContext.TaskBoard.constructor | frontend/src/contexts/TasksContext.tsx:52-69 | the board starts with no tasks |
| TasksContext.TaskBoard.FindTask | frontend/src/contexts/TasksContext.tsx:107 | the scan returns `FirstWithId` |
| TasksContext.TaskBoard.UpdateTask | frontend/src/contexts/TasksContext.tsx:104-151 | an unknown id does nothing; otherwise the list is made optimistic, the merged payload is sent, and failure rolls back to the snapshot |
| TasksContext.TaskBoard.MoveTask | frontend/src/contexts/TasksContext.tsx:154-159 | moving is updating with only `estado`; the snapshot with the new status is sent |
| TasksContext.TaskBoard.CreateTask | frontend/src/contexts/TasksContext.tsx:72-100 | no project, no request; otherwise the default body is sent and the server's task appended on success |
| TasksContext.TaskBoard.DeleteTask | frontend/src/contexts/TasksContext.tsx:162-175 | success removes every task with the id; failure changes nothing |
| TasksContext.TaskBoard.AssignTask | frontend/src/contexts/TasksContext.tsx:178-199 | sends `asignado_a`, reports the outcome and never touches the list |
| TasksContext.TaskBoard.FetchTasks | frontend/src/contexts/TasksContext.tsx:52-69 | requests only when mounted, signed in and given a project; a reply replaces the list |
| UsersCache.NewEntries | frontend/src/contexts/UsersContext.tsx:38-43 | the batch's entries are keyed by each truthy id, and only by those |
| UsersCache.NewEntriesLastWins | frontend/src/contexts/UsersContext.tsx:39-42 | within a batch the last user with an id is the one kept |
| UsersCache.MergeLastWins | frontend/src/contexts/UsersContext.tsx:44 | after a merge a batch id maps to its last batch user |
| UsersCache.MergeKeepsOthers | frontend/src/contexts/UsersContext.tsx:44 | a merge drops no key, and ids outside the batch keep their value |
| UsersCache.MergeWithoutIds | frontend/src/contexts/UsersContext.tsx:40 | a batch without truthy ids leaves the cache as it was |
| UsersCache.Cache.constructor | frontend/src/contexts/UsersContext.tsx:36 | the cache starts empty |
| UsersCache.Cache.SaveToCache | frontend/src/contexts/UsersContext.tsx:36-46 | the cache becomes the old map overridden by the batch's entries |
| UsersCache.Cache.SearchUsers | frontend/src/contexts/UsersContext.tsx:49-66 | requests iff the query is non-empty and mounted; a reply is merged, a failure changes nothing |
| UsersCache.Cache.FetchAllUsers | frontend/src/contexts/UsersContext.tsx:69-80 | requests iff mounted; a reply is merged, a failure changes nothing |
| UsersCache.Cache.GetUserById | frontend/src/contexts/UsersContext.tsx:83 | returns the cache entry iff the id is a key |
| UsersCache.LookupAfterSave | frontend/src/contexts/UsersContext.tsx:36-83 | after a batch is saved, a lookup finds each batch id's last batch user and answers every other id as before |
| LegacyUsers.WithoutBots | frontend/src/context/UsersContext.jsx:40-45 | keeps every copy of each non-bot user and no bot, in order |
| LegacyUsers.SearchUsers | frontend/src/context/UsersContext.jsx:20-53 | an empty query gives [] and the bot's name gives the local bot record, both without a request; otherwise the server's users with every copy of each non-bot kept in order, and [] on a failure |
| LegacyUsers.GetUserById | frontend/src/context/UsersContext.jsx:55-85 | a falsy id gives null and a bot alias the local bot record, both without a request; otherwise the server's user, or null on any failure |
| LegacyUsers.SearchShowsBotOnlyByName | frontend/src/context/UsersContext.jsx:24-45 | a bot appears in results only when its name was searched, and then as the local record |
| LegacyUsers.PaddedBotNameAnsweredLocally | frontend/src/context/UsersContext.jsx:24-34 | the bot's name padded with white space is answered without a request |
| LegacyUsers.BlankQuerySent | frontend/src/context/UsersContext.jsx:21-38 | a white-space-only query is truthy and is sent |
| LegacyUsers.LookupFailuresIndistinguishable | frontend/src/context/UsersContext.jsx:76-84 | a 404 and any other failure both give null |
| LegacyUsers.BotRecordsAgree | frontend/src/context/UsersContext.jsx:25-69 | the two local bot records differ only in `usuario` |
| MemberPicker.Filter | frontend/src/components/projects/AddMemberModal.tsx:43-54 | keeps every copy of each present user with an id that matches and is not a member, and nothing else, in order |
| MemberPicker.FilteredResults | frontend/src/components/projects/AddMemberModal.tsx:40-55 | nothing below three characters; otherwise every copy of each offered entry and nothing else, in order |
| MemberPicker.NoMemberOffered | frontend/src/components/projects/AddMemberModal.tsx:45-51 | nobody offered is a current member, and everybody offered has an id |
| MemberPicker.CaseOfTermIrrelevant | frontend/src/components/projects/AddMemberModal.tsx:47-49 | the search term's letter case does not change the result |
| MemberPicker.MoreMembersFewerOffers | frontend/src/components/projects/AddMemberModal.tsx:51-53 | adding current members only removes offers |
| AssigneePicker.Filter | frontend/src/components/tasks/UserSearchSelect.tsx:29-33 | keeps every copy of each member whose name or email contains the query, and nothing else, in order |
| AssigneePicker.FilteredMembers | frontend/src/components/tasks/UserSearchSelect.tsx:25-34 | an empty query shows all members; otherwise every copy of each matching member and nothing else, in order |
| AssigneePicker.BlankTermShowsAll | frontend/src/components/tasks/UserSearchSelect.tsx:26-27 | a white-space-only term shows all members |
| AssigneePicker.PaddingAndCaseIrrelevant | frontend/src/components/tasks/UserSearchSelect.tsx:26 | padding and letter case of the term do not change the result |
| AssigneePicker.AnonymousOnlyUnfiltered | frontend/src/components/tasks/UserSearchSelect.tsx:29-33 | a member with no name and no email shows only for an empty query |
| AssigneePicker.Selected | frontend/src/components/tasks/UserSearchSelect.tsx:96-100 | the selection always has an email and a `usuario`, taken from email and name or "" |
| Text.JoinSplit | backend/src/middleware/authMiddleware.ts:16 | `split` loses nothing: joining the fields gives the string back |
| Text.SplitAfterField | backend/src/middleware/authMiddleware.ts:16 | a space-free first field and a space split off as the first element |
| Text.Trim | frontend/src/context/UsersContext.jsx:24 | `trim` returns the middle slice between white-space ends |
| Text.TrimPadded | frontend/src/components/tasks/UserSearchSelect.tsx:26 | trimming white space around a word gives the word |
| Text.DecimalRoundTrip | backend/src/controllers/authController.ts:18 | reading the decimal digits of a number gives the number |

## Left out

- Real cryptography: JWT signatures and bcrypt stand in as injective encodings. Unforgeability and one-wayness are not modelled, and a token is "signed" by a secret only by construction.
- JWT `exp` is in whole seconds, rounded down; the model keeps milliseconds.
- Duration.ExpiryAt: amounts and instants are unbounded integers, where `parseInt` gives a double that is inexact past 2^53. Any such amount already puts the refresh expiry past the last `Date` instant, which `SaveRefreshToken` models; the rounding of a huge access-token `exp` claim is not modelled.
- Bcrypt.CompareHash: `bcryptjs` hashes only the first 72 bytes of a password, so `compare` also accepts any attempt sharing those bytes with the registered one. The model compares whole passwords; LoginFailuresIndistinguishable's wrong-password case holds for passwords that differ within their first 72 bytes.
- `jsonwebtoken` reads `expiresIn` with the `ms` package, which also accepts forms like "15 m" or "1.5h". The model uses the stricter grammar of `obtenerFechaExpiracion` for both the token and the stored row.
- AuthController.Login: a malformed expiry setting is an exception that escapes the handler (`Unhandled`), not a response.
- UserModel.LiveToken: `expires_at` is stored from `toISOString()` and compared as text with `datetime('now')`. The model compares instants. The text comparison's formatting quirks, and PostgreSQL's lack of `datetime()`, are not modelled.
- SQLite enforces foreign keys only when switched on. The model assumes they are enforced.
- The owner and member foreign keys from projects to `users` are not modelled. The cascade from users to projects is not modelled either; only the users to refresh tokens cascade is (`DeleteUser`).
- `buscarUsuarioPorId` is imported by backend/src/controllers/projectController.ts but is not defined in backend/src/models/userModel.ts. The handlers `Create` and `AddMember` model it as a primary-key lookup (`UserStore.FindUserById`); the code as written is under "## Findings".
- ProjectController.GetOne: a request without an authenticated id is treated as a caller with no memberships (403), not as a driver error.
- `created_at`/`updated_at` are instants given as parameters. `CURRENT_TIMESTAMP` has one-second resolution, and ties in the newest-first order may come back in any order.
- Exceptions thrown by the database in the project handlers other than an id clash (connection loss, etc.) are not modelled. Their 500 replies exist only for the id clash in `Create` and for the missing lookup in the as-written handlers.
- Task objects carry only `id` and the five fields the update payload reads. The payload sends the snake_case names `asignado_a`/`fecha_limite`, while the client type names them in camelCase. The model follows the code's object shape and does not model the mismatch.
- Server-side JSON values other than strings, `null` and `undefined` in task fields are not modelled.
- React state batching, concurrent requests and stale closures are not modelled. Neither are loading flags, toasts and console output.
- `toLowerCase` is modelled on ASCII letters only. Lengths count characters, not UTF-16 code units.
- MemberPicker.FilteredResults: the order of `Object.values(usersMap)` is taken as given, a sequence of cache values.
- AssigneePicker.FilteredMembers: the project's `miembros` are taken to be user objects, as the component reads them, although the client type declares them as strings.
- The `password` property that a spread user object may carry is not modelled in the client user type.
- Network, HTTP headers, the API key, the rate limiter, routing and configuration loading are not modelled.

## Findings

| source | as written | input that shows it | evidently intended | confidence | as-written member | corrected member |
|---|---|---|---|---|---|---|
| backend/src/controllers/projectController.ts:189 | calls `buscarUsuarioPorId`, which backend/src/models/userModel.ts does not export, so the call throws inside the `try` | the owner of an existing project adds an existing user id | look the user up by primary key and add the membership | not executed; high that the add never succeeds (a type-checking build refuses the file instead) | ProjectController.AddMemberAsWritten | ProjectController.AddMember |
| backend/src/controllers/projectController.ts:41 | the member loop calls the same missing lookup after the project and its owner row are inserted | a signed-in user creates a project with a name and `members: ["x"]` | add each existing listed user and answer 201 | not executed; high that the reply is 500 over a written project | ProjectController.CreateAsWritten | ProjectController.Create |
