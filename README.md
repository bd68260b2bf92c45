# Zerai gaming-backlog tracker — Dafny model

This project models the logic of a gaming-backlog tracker. The backend has
four parts:

- a per-user library of game entries, with create, list, partial update and
  delete, gated by ownership;
- a credential store with register and login;
- an access gate that checks the `Authorization` header on every protected
  route;
- a proxy that reshapes results from an external game catalog.

Three pieces of client logic are modelled too:

- the library screen's statistics and status filter;
- the password-strength meter and the registration validator;
- the search filter modal's toggles.

Modules follow the source files: `Common` (ids, `Option`, replies),
`UserGameSchema` (`backend/models/UserGame.js`), `UserGames`
(`backend/routes/UserGames.js`), `Auth` (`backend/routes/auth.js`),
`AuthMiddleware` (`backend/middleware/authMiddleware.js`, plus the client's
header from `frontend/src/services/api.js`), `ExternalGames`
(`backend/routes/externalGames.js`), `HomeScreen`, `RegisterScreen` and
`SearchFilterModal` (the client files of the same names).

Stateful parts are classes whose methods state the whole new state:

- `UserGames.LibraryStore` holds the entry table and an id counter;
- `Auth.CredentialStore` holds the users keyed by email;
- `AuthMiddleware.Request` holds `req.user` and a count of `next()` calls;
- `HomeScreen.HomeView` and `SearchFilterModal.FilterModal` hold the screens'
  state hooks.

Pure parts are functions with lemmas.

Modelling conventions:

- Ids are naturals. The library's id counter is also its creation clock, so
  `createdAt` equals the id and "newest first" means descending id.
- A falsy request field (left out, `""`, `0`) is written as `""` or `0`; the
  handlers treat them alike.
- bcrypt `hash`/`compare`, `jwt.sign` and `jwt.verify` are function-typed
  parameters. The laws a result depends on are preconditions of the lemma:
  `compare(p, hash(p, salt))` for register-then-login, and
  `verify(sign(p, 3600)) == Some(p)` for the end-to-end access lemma.
- Points where the code may surprise a reader; the model follows the code:
  - statuses are `Backlog`, `Jogando`, `Zerado`, `Abandonado`;
  - the gate never checks the word `Bearer`; it takes the second
    space-separated word;
  - update runs no schema validators, so it can store any truthy status and
    any non-zero rating;
  - a create whose title, platform or status fails the schema's validators on
    save gets the handler's 500 reply and stores nothing;
  - the cover image default `''` applies only when the field is left out; a
    `null` cover, which search results carry for a game without one, is
    stored as `null`.

## Model

| member | source | states |
|---|---|---|
| `UserGameSchema.ParseStatus` | backend/models/UserGame.js:31-35 | a status string is accepted exactly when it names one of the four enum values, and then names that value |
| `UserGameSchema.DefaultStatusIsBacklog` | backend/models/UserGame.js:34 | the default status is the enum value `Backlog` |
| `UserGameSchema.Trim` | backend/models/UserGame.js:22 | the trim setter's result has no leading or trailing ECMAScript whitespace and is no longer than its input |
| `UserGameSchema.TrimIsSlice` | backend/models/UserGame.js:29 | the trimmed value is the contiguous slice of the input that starts where the leading whitespace ends |
| `UserGameSchema.TrimDropsSpaces` | backend/models/UserGame.js:29 | everything trimming drops before and after that slice is whitespace |
| `UserGameSchema.TrimmedFixed` | backend/models/UserGame.js:22 | a value with no whitespace at either end is its own trim |
| `UserGameSchema.TrimIdempotent` | backend/models/UserGame.js:22 | trimming a trimmed value changes nothing |
| `UserGameSchema.WellFormed` | backend/models/UserGame.js:4-40 | defines what the validators accept on save: title and platform non-empty and trimmed, status in the enum, a set rating within 1..5; `NewEntryWellFormedIff` and `ApplyFieldsKeepsWellFormed` state when a write meets it |
| `UserGameSchema.UniquePerUser` | backend/models/UserGame.js:48 | defines the compound unique index: no two entries share owner and rawgId; `InsertKeepsUnique` and `ApplyKeepsUnique` show the writes keep it |
| `UserGameSchema.TrimEmptyIff` | backend/models/UserGame.js:19-30 | a value trims to empty (failing `required`) exactly when it is all whitespace |
| `UserGames.MissingFields` | backend/routes/UserGames.js:19 | defines the required-field test (rawgId, title or platforms falsy); `LibraryStore.Create` answers the 400 "incomplete" reply whenever it holds, before any lookup |
| `UserGames.HasEntry` | backend/routes/UserGames.js:26 | defines the `findOne({ user, rawgId })` lookup; `LibraryStore.Create` refuses a duplicate exactly when it finds one, and `InsertKeepsUnique` relies on its absence |
| `UserGames.StoredCover` | backend/models/UserGame.js:14-17 | a cover left out is stored as the default `""`, a `null` cover as `null`, and a string as that string |
| `UserGames.CoverFromSearch` | frontend/src/screens/SearchScreens.js:63-66 | defines the cover field the client posts when it adds a search result: the result's `backgroundImage`, `null` included; `SearchedCoverStored` states its effect |
| `UserGames.SearchedCoverStored` | frontend/src/screens/SearchScreens.js:63-66 | a search result's cover, posted by the client, is stored exactly as the search returned it, `null` included |
| `UserGames.NewEntry` | backend/routes/UserGames.js:33-41 | defines the document `new UserGame({...})` builds: trimmed title and platform, status defaulted to Backlog, cover by `StoredCover`, rating unset, stamped with its id; `NewEntryWellFormedIff` states when it saves |
| `UserGames.TableInvariant` | backend/models/UserGame.js:41-48 | defines the collection invariant: each entry under its own id and stamp, ids below the counter, the index unique; every `LibraryStore` method keeps it |
| `UserGames.NewEntryWellFormedIff` | backend/routes/UserGames.js:33-44 | the new document passes the schema's validators exactly when the trimmed title and platform are non-empty and the status is falsy or in the enum |
| `UserGames.ApplyFields` | backend/routes/UserGames.js:73-79 | a partial update never changes the id, owner, rawgId, cover image or creation stamp |
| `UserGames.ApplyNothing` | backend/routes/UserGames.js:75-79 | an update with no truthy field leaves the entry unchanged |
| `UserGames.ApplyFieldsIdempotent` | backend/routes/UserGames.js:91-95 | applying the same update twice equals applying it once |
| `UserGames.ApplyFieldsKeepsWellFormed` | backend/routes/UserGames.js:91-95 | an update whose supplied fields the schema would accept keeps a well-formed entry well formed |
| `UserGames.UpdateSkipsValidation` | backend/routes/UserGames.js:91-95 | with no validators on the update path, a well-formed entry can get an out-of-enum status or a rating of 9 |
| `UserGames.InsertKeepsUnique` | backend/models/UserGame.js:48 | inserting an entry whose (user, rawgId) pair is new keeps the compound index unique |
| `UserGames.InsertKeepsInvariant` | backend/routes/UserGames.js:33-45 | storing a new entry stamped with the next id, for a (user, rawgId) pair not yet present, keeps every entry filed under its own id and stamp and keeps the index unique |
| `UserGames.ApplyKeepsUnique` | backend/models/UserGame.js:48 | updating an entry in place keeps the (user, rawgId) index unique |
| `UserGames.LibraryStore.constructor` | backend/models/UserGame.js:3-45 | the collection starts empty and satisfies the store invariant |
| `UserGames.LibraryStore.Create` | backend/routes/UserGames.js:16-45 | missing fields give 400 and a duplicate (user, rawgId) gives 400, both with no change; a document failing validation gives 500 with no change; otherwise exactly one entry is added and returned with 201, with owner the caller, title and platform trimmed, status defaulted to Backlog, cover image as `StoredCover` gives (left out becomes "", `null` stays `null`), rating unset; per-user uniqueness is preserved |
| `UserGames.LibraryStore.List` | backend/routes/UserGames.js:62 | the result holds exactly the caller's entries, as stored, in strictly decreasing creation order |
| `UserGames.LibraryStore.Update` | backend/routes/UserGames.js:82-96 | an unknown id gives 404 and then another user's entry gives 401, both with no change; the owner's update replaces only that entry with the truthy fields applied and returns it |
| `UserGames.LibraryStore.Delete` | backend/routes/UserGames.js:107-117 | 404 then 401 as for update with no change; the owner's delete removes exactly that entry, so a repeat gets 404 |
| `Auth.RegisteredUser` | backend/routes/auth.js:19-26 | defines the user `register` saves: the request's fields with the password replaced by its hash; `Register` stores it and `RegisterThenLogin` logs in against it |
| `Auth.LoginDecision` | backend/routes/auth.js:44-67 | defines the login reply over the user collection; `LoginSucceedsIff` and `LoginFailuresIndistinguishable` state its cases |
| `Auth.UsersInvariant` | backend/routes/auth.js:14-29 | defines the user collection's invariant: each user under its own email, ids below the counter and pairwise distinct |
| `Auth.RegisterKeepsInvariant` | backend/routes/auth.js:14-29 | adding a user under a fresh email with the next id keeps the invariant |
| `Auth.LoginTokenNamesOneUser` | backend/routes/auth.js:54-67 | under the invariant, a successful login's token signs the id of exactly one stored user, the one whose email was given |
| `Auth.LoginSucceedsIff` | backend/routes/auth.js:44-67 | login succeeds exactly for a known email whose hash matches, and the token signs `{user: {id}}` for that user with lifetime 3600 |
| `Auth.LoginFailuresIndistinguishable` | backend/routes/auth.js:44-52 | an unknown email and a wrong password give the identical 400 reply "Credenciais inválidas" |
| `Auth.RegisterThenLogin` | backend/routes/auth.js:19-67 | after registering a new email, login with the same password issues the new user's token, given bcrypt accepts a password against its own hash |
| `Auth.CredentialStore.constructor` | backend/routes/auth.js:14 | the user table starts empty |
| `Auth.CredentialStore.Register` | backend/routes/auth.js:14-29 | a taken email gives 400 with nothing stored; otherwise exactly one user is added under that email, holding `hash(password, salt)`, with 201 |
| `Auth.CredentialStore.Login` | backend/routes/auth.js:44-67 | login reads the table without changing it, and every failure is the one 400 reply |
| `AuthMiddleware.Split` | backend/middleware/authMiddleware.js:15 | `split(' ')` yields at least one piece and no piece contains the separator |
| `AuthMiddleware.JoinSplit` | backend/middleware/authMiddleware.js:15 | joining the pieces of a split restores the string |
| `AuthMiddleware.SplitJoin` | backend/middleware/authMiddleware.js:15 | splitting the join of separator-free pieces restores the pieces |
| `AuthMiddleware.SecondWord` | backend/middleware/authMiddleware.js:15 | defines `split(' ')[1]`, absent when the header has no space; `SchemeIgnored` and `ClientHeaderRoundTrip` state what it yields |
| `AuthMiddleware.ClientHeader` | frontend/src/services/api.js:20 | defines the header the client attaches; `ClientHeaderRoundTrip` shows the server reads the token back from it |
| `AuthMiddleware.Gate` | backend/middleware/authMiddleware.js:7-32 | defines the middleware's decision; `GateAdmitsIff`, `MissingHeaderRejected`, `MalformedHeadersRejected` and `SchemeIgnored` state its cases |
| `AuthMiddleware.GateAdmitsIff` | backend/middleware/authMiddleware.js:7-32 | a request passes exactly when the header is present, its second word is non-empty and that word verifies; it then carries the decoded user; every rejection is 401 |
| `AuthMiddleware.MissingHeaderRejected` | backend/middleware/authMiddleware.js:7-10 | a missing or empty header gives 401 "Acesso negado. Token não fornecido." |
| `AuthMiddleware.MalformedHeadersRejected` | backend/middleware/authMiddleware.js:15-19 | `"Bearer"`, `"Bearer "` and a double space before the token give the format 401 |
| `AuthMiddleware.SchemeIgnored` | backend/middleware/authMiddleware.js:15-32 | any first word, one space and a space-free token reach verify with exactly that token; failure gives 401 "Token inválido." |
| `AuthMiddleware.ClientHeaderRoundTrip` | frontend/src/services/api.js:20 | the client's `"Bearer " + token` header yields back a space-free token as the second word |
| `AuthMiddleware.RegisterLoginAccess` | backend/middleware/authMiddleware.js:22-27 | register, login, then the client header with the issued token admits the request as the new user, given verify accepts what sign issued and tokens have no spaces |
| `AuthMiddleware.Request.constructor` | backend/middleware/authMiddleware.js:5 | a fresh request has its header, no user and no `next()` call |
| `AuthMiddleware.Authenticate` | backend/middleware/authMiddleware.js:3-33 | the middleware's reply is the gate's decision; a rejection leaves `req.user` alone and does not call `next()`; admission sets `req.user` to the decoded user and calls `next()` exactly once |
| `ExternalGames.JoinWith` | backend/routes/externalGames.js:30 | defines `join(', ')`; `JoinWithLength` and `PlatformsTextCases` state what it produces |
| `ExternalGames.PlatformsText` | backend/routes/externalGames.js:29-31 | defines the platforms text; `PlatformsTextCases` states its cases |
| `ExternalGames.JoinWithLength` | backend/routes/externalGames.js:30 | the joined platform text is the names' total length plus one separator between each neighbouring pair |
| `ExternalGames.PlatformNames` | backend/routes/externalGames.js:30 | the name list has one name per platform, in order, and exists exactly when every element has its platform object |
| `ExternalGames.PlatformsTextCases` | backend/routes/externalGames.js:29-31 | an absent platforms field gives "Plataforma desconhecida", an empty array gives "", a single platform gives its name |
| `ExternalGames.ReleaseYear` | backend/routes/externalGames.js:32 | a falsy release date gives "N/A"; otherwise the result is the prefix of length min(4, length) |
| `ExternalGames.FormatGame` | backend/routes/externalGames.js:25-32 | id, name and cover image are copied to rawgId, gameTitle and backgroundImage; platforms and releaseDate follow the rules above |
| `ExternalGames.FormatGames` | backend/routes/externalGames.js:24 | one item per upstream result, same length and order, unless some result throws |
| `ExternalGames.Search` | backend/routes/externalGames.js:24-42 | any upstream or shaping failure is a 500 with the one fixed message; success is 200 with as many items as results |
| `HomeScreen.CountStatus` | frontend/src/screens/HomeScreen.js:50-52 | a status count never exceeds the number of games |
| `HomeScreen.OfStatus` | frontend/src/screens/HomeScreen.js:85 | the filtered list holds exactly the games with that status, and its length is their count |
| `HomeScreen.OfStatusAppend` | frontend/src/screens/HomeScreen.js:85 | filtering distributes over concatenation, so the original order is kept |
| `HomeScreen.CalculateStats` | frontend/src/screens/HomeScreen.js:47-57 | defines `calculateStats`; `StatsMatchFilters` ties every field to the status filters |
| `HomeScreen.LevelFor` | frontend/src/screens/HomeScreen.js:55 | defines the level for a completed count; `LevelMonotone` and `LevelStep` state how it grows |
| `HomeScreen.FilterGames` | frontend/src/screens/HomeScreen.js:80-87 | defines the list `applyFilter` shows; `FilterGamesSpec` and `FilterGamesAppend` state its contents and order |
| `HomeScreen.StatusChange` | frontend/src/screens/HomeScreen.js:102-107 | defines the request `handleChangeStatus` sends, if any; `StatusChangeEffect` states its effect |
| `HomeScreen.StatusCountsBounded` | frontend/src/screens/HomeScreen.js:50-52 | the Jogando, Zerado, Backlog and Abandonado counts add up to at most the total |
| `HomeScreen.StatusCountsPartition` | frontend/src/screens/HomeScreen.js:49-52 | when every status is in the enum, those four counts add up to the total exactly |
| `HomeScreen.StatsMatchFilters` | frontend/src/screens/HomeScreen.js:47-57 | total is the game count; playing, completed and backlog are the lengths of the matching filtered lists; xp is 10 per completed game; level is xp/50+1 and at least 1; the three counts sum to at most total |
| `HomeScreen.LevelMonotone` | frontend/src/screens/HomeScreen.js:55 | the level is at least 1 and never drops as the completed count grows |
| `HomeScreen.LevelStep` | frontend/src/screens/HomeScreen.js:53-55 | one more completed game raises the level by at most one |
| `HomeScreen.XpFill` | frontend/src/screens/HomeScreen.js:343 | the XP bar fill is an even percentage in 0..98 |
| `HomeScreen.XpToNextLevel` | frontend/src/screens/HomeScreen.js:347 | the XP still needed is in 1..50; earning it reaches the next level and one point less does not |
| `HomeScreen.FilterGamesSpec` | frontend/src/screens/HomeScreen.js:80-87 | "Todos" shows every game; another filter shows exactly the games with that status |
| `HomeScreen.FilterGamesAppend` | frontend/src/screens/HomeScreen.js:80-87 | every chip's view distributes over concatenation, so the original order is kept |
| `HomeScreen.StatusChangeEffect` | frontend/src/screens/HomeScreen.js:102-107 | choosing the current status sends no request; another status sends one that, applied by the backend, changes only the status |
| `HomeScreen.StaleFilterWitness` | frontend/src/screens/HomeScreen.js:63-64 | for one backlog game the "Zerado" view is empty, so the unfiltered list a reload leaves is not that view |
| `HomeScreen.HomeView.constructor` | frontend/src/screens/HomeScreen.js:29-45 | the initial state is no games, the "Todos" filter and zero stats at level 1, and it is consistent |
| `HomeScreen.HomeView.ApplyFilter` | frontend/src/screens/HomeScreen.js:80-87 | sets the filter and the list to that filter's view of the games; games and stats stay |
| `HomeScreen.HomeView.LoadGamesAsWritten` | frontend/src/screens/HomeScreen.js:63-65 | as written, a reload sets games and stats, resets the list to all games and keeps the filter; the screen is consistent exactly when the filter's view of the new games is all of them |
| `HomeScreen.HomeView.LoadGames` | frontend/src/screens/HomeScreen.js:63-65 | the corrected reload re-applies the selected filter and leaves the screen consistent |
| `RegisterScreen.CountMet` | frontend/src/screens/RegisterScreen.js:35-40 | the number of criteria met is at most the number checked |
| `RegisterScreen.CountMetAppend` | frontend/src/screens/RegisterScreen.js:35-40 | counts over a concatenation of criteria lists add up |
| `RegisterScreen.StrengthFor` | frontend/src/screens/RegisterScreen.js:42-46 | defines the score-to-bar mapping; `GetPasswordStrength` and `ScoreBounds` state the results |
| `RegisterScreen.ScoreBounds` | frontend/src/screens/RegisterScreen.js:35-46 | the score is in 0..5; a password of 12 or more characters scores at least 2 and is never "Fraca" |
| `RegisterScreen.GetPasswordStrength` | frontend/src/screens/RegisterScreen.js:32-47 | an empty password gives (0, ""); otherwise the score is the number of the five criteria met, mapped ≤1 to (20, "Fraca"), 2..3 to (50, "Média"), 4..5 to (100, "Forte") |
| `RegisterScreen.ValidateInputs` | frontend/src/screens/RegisterScreen.js:51-68 | the form is accepted exactly when all four fields are non-empty, the password has at least 6 characters and matches its confirmation; any empty field raises the fill-in alert |
| `RegisterScreen.ValidationOrder` | frontend/src/screens/RegisterScreen.js:57-65 | on a filled form the length alert comes before the mismatch alert |
| `SearchFilterModal.Without` | frontend/src/components/SearchFilterModal.js:49 | removing an id drops every occurrence and keeps every other value's membership |
| `SearchFilterModal.WithoutAbsent` | frontend/src/components/SearchFilterModal.js:49 | removing an absent id changes nothing |
| `SearchFilterModal.WithoutAppend` | frontend/src/components/SearchFilterModal.js:49 | removal distributes over concatenation, so the kept ids stay in order |
| `SearchFilterModal.WithoutKeepsNoDuplicates` | frontend/src/components/SearchFilterModal.js:49 | removal keeps a duplicate-free list duplicate-free |
| `SearchFilterModal.Toggle` | frontend/src/components/SearchFilterModal.js:47-51 | defines the setters' updater; `ToggleMembership`, `ToggleKeepsNoDuplicates` and `ToggleTwice` state its effect |
| `SearchFilterModal.ToggleMembership` | frontend/src/components/SearchFilterModal.js:47-51 | toggling flips the id's membership and no other; a present id loses every copy; an absent id is appended at the end |
| `SearchFilterModal.ToggleKeepsNoDuplicates` | frontend/src/components/SearchFilterModal.js:48-50 | toggling keeps a duplicate-free list duplicate-free |
| `SearchFilterModal.ToggleTwice` | frontend/src/components/SearchFilterModal.js:47-51 | toggling an absent id twice restores the list exactly; a present id toggled twice moves to the end |
| `SearchFilterModal.FilterModal.constructor` | frontend/src/components/SearchFilterModal.js:16-18 | the modal starts with no platforms, no genres and sort "relevance" |
| `SearchFilterModal.FilterModal.TogglePlatform` | frontend/src/components/SearchFilterModal.js:46-52 | the platform list becomes its toggle, stays duplicate-free, and the rest stays |
| `SearchFilterModal.FilterModal.ToggleGenre` | frontend/src/components/SearchFilterModal.js:54-58 | the genre list becomes its toggle, stays duplicate-free, and the rest stays |
| `SearchFilterModal.FilterModal.SetSortBy` | frontend/src/components/SearchFilterModal.js:18 | only the sort order changes |
| `SearchFilterModal.FilterModal.Clear` | frontend/src/components/SearchFilterModal.js:69-73 | resets to no platforms, no genres and "relevance" |
| `SearchFilterModal.FilterModal.Apply` | frontend/src/components/SearchFilterModal.js:60-66 | hands over the current platforms, genres and sort order unchanged |

## Left out

- Storage mechanics: MongoDB ObjectIds are naturals from a counter. A malformed id (a cast error, which gives 500) is not modelled.
- The concurrent-duplicate race and its error code 11000 (`backend/routes/UserGames.js:50`) are not modelled. Uniqueness is a class invariant of `LibraryStore` instead.
- `updatedAt`, which `timestamps: true` also maintains, is not modelled; no modelled operation reads it.
- `LibraryStore.List`'s tie-breaking between equal timestamps is moot: every stamp is distinct in the model.
- The 500 replies that come only from foreign failures are not modelled: database errors, bcrypt errors, and the `jwt.sign` callback error.
- bcrypt and jsonwebtoken internals (salting, HMAC, clock-based expiry) are abstract functions. Which tokens fail to verify (expired, tampered) is decided by the `verify` parameter.
- The random salt is a parameter of `Register`.
- `backend/models/User.js` is not part of this model. Any validators it declares on username, email or password are not modelled; `Register` stores any strings.
- `AuthMiddleware.Gate`: a verified payload always carries `user` in this model. A token signed without `user` would set `req.user` to `undefined`, which is not represented.
- Numbers are integers. Fractional, `NaN` or string-typed `rawgId` and `rating` values, and Mongoose's casting of them, are not modelled.
- `ExternalGames.FormatGame`: upstream fields are kept in the shapes the proxy reads. A non-string `released` or a missing `name` is not modelled.
- Lengths are counted in Unicode code points. JavaScript counts UTF-16 code units, so a password with characters outside the Basic Multilingual Plane is longer there.
- The axios call to the catalog, its URL and `page_size` are I/O. Their outcome is the `upstream` parameter of `Search`.
- Express routing, server start-up, `process.env` and the HTTP client's interceptor plumbing are not modelled. The client's header format is used only for the round-trip lemmas.
- The storage wrappers (`frontend/src/utils/storage.js`) are not modelled.
- All rendering is left out: colours, Alerts, modals, navigation and loading flags. This covers `handleApply`'s `onClose()` and `handleChangeStatus`'s refresh. The alert texts of `validateInputs` are kept as data.
- Logging is left out: the `console.error` calls in the handlers' catch blocks and the middleware's log of a failed verification (`backend/middleware/authMiddleware.js:31`).
- Async sequencing and the error paths of `fetchGames`, `handleRegister` and `confirmAddGame` are not modelled.

## Findings

| source | as written | input that shows it | evidently intended | confidence | as-written member | corrected member |
|---|---|---|---|---|---|---|
| frontend/src/screens/HomeScreen.js:63-64 | a successful `fetchGames` sets `filteredGames` to every game but leaves `selectedFilter` as it was | with the "Zerado" chip selected, changing a game's status or deleting one triggers a reload; if the reload returns one game in `Backlog`, the list shows it under the highlighted "Zerado" chip (`StaleFilterWitness`) | the list after a reload is the selected chip's view of the new games | medium (not executed) | `HomeScreen.HomeView.LoadGamesAsWritten` | `HomeScreen.HomeView.LoadGames` |
