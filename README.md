# WatchPlay playlists: a Dafny model

WatchPlay is a video playlist application. It has a NestJS back end, made of a
playlist service and an authentication service, and a Next.js/Redux web client.
This project models the parts of it that decide behaviour:

- **Back end.**
  - The playlist repository and its view and owner gates, in `playlists_service.dfy`.
  - The tag filter, whose `LIKE '%tag%'` runs over the comma-joined tag column, in `sql_like.dfy`.
  - Sharing, which appends emails to a playlist.
  - Adding and removing videos, in `videos_service.dfy`.
  - The JWT claim check, in `jwt_strategy.dfy`.
  - Login, registration and token generation, in `auth_service.dfy`.
- **Web client.**
  - The playlist and authentication reducers, in `playlist_slice.dfy` and `auth_slice.dfy`.
  - The share form's email list builder, in `share_playlist_form.dfy`.
  - The playlist form and the filter bar, with their comma-separated tag parser (`tags.dfy`).
  - The login and registration field rules.

The JavaScript built-ins these rely on live in `text.dfy`: `trim`, `split`,
`join`, `length` in UTF-16 code units, and the unanchored email test
`\S+@\S+\.\S+`.

How the model is built:

- **Tables and stores.** The database tables are maps inside a `Repository`
  class, and the services change them through methods.
- **Reducers and the share form.** These are classes whose methods update
  their fields.
- **Validators and parsers.** These are functions.
- **Values from outside.** Generated uuids (`newId`), bcrypt (`hash`,
  `compare`), JWT signing (`sign`), `JSON.parse` (`parse`) and browser storage
  all arrive as parameters.

**Where the code does not do what it is evidently meant to do.** The model
follows the code in both of these cases.

- **Sharing.** Sharing is by email address. The share form asks for "email
  addresses to share with" (`SharePlaylistForm.tsx:82`), and the share body
  accepts only emails (`share-playlist.dto.ts:6`). `sharePlaylist` stores
  those addresses in `sharedWith`. The view gate in `findOne`, however,
  searches that list for the caller's user id (`playlists.service.ts:51`). A
  user whose id is a uuid therefore never gains access through sharing.
  `PlaylistsService.EmailShareGrantsNoView` states the consequence.
- **Tag filter.** The filter loop adds one `LIKE :tag` clause per requested
  tag (`playlists.service.ts:93-94`). Every clause names the same parameter
  `:tag`, and a query builder keeps one value per parameter name. So every
  clause reads the last tag's pattern, and only the last tag is tested.
  `PlaylistsService.MatchesFilter` models the clause as written, and
  `PlaylistsService.FilterTestsLastTag` and
  `PlaylistsService.FilterIgnoresEarlierTags` state the consequence.
  `PlaylistsService.MatchesEveryTag` is the evidently intended filter, with
  every tag tested. `PlaylistsService.FilterMoreTagsNarrows` holds of that
  intended filter only. `PlaylistsService.EveryTagMatchesFilter` shows that
  the intended result is contained in the actual one.

## Model

| member | source | states |
|---|---|---|
| Text.Trim | frontend/watchplay-ui/src/components/playlist/SharePlaylistForm.tsx:41 | `trim` leaves no white space at either end and never lengthens the string |
| Text.TrimSlice | frontend/watchplay-ui/src/components/playlist/SharePlaylistForm.tsx:41 | the trimmed string is one slice of the input; everything cut away is white space and every other character is kept |
| Text.TrimTrimmed | frontend/watchplay-ui/src/components/playlist/PlaylistForm.tsx:102 | trimming an already trimmed string changes nothing |
| Text.TrimIdempotent | frontend/watchplay-ui/src/components/playlist/PlaylistForm.tsx:102 | trimming twice is trimming once |
| Text.TrimKeepsOut | frontend/watchplay-ui/src/components/playlist/PlaylistForm.tsx:102 | trimming never introduces a character, so a comma-free piece stays comma-free |
| Text.TrimSpacePrefix | frontend/watchplay-ui/src/components/playlist/PlaylistForm.tsx:102 | a leading white-space character does not change the trimmed result |
| Text.BlankIffAllSpace | frontend/watchplay-ui/src/components/playlist/PlaylistForm.tsx:87 | `!s.trim()` holds exactly when every character of s is white space |
| Text.TrimStartSpec | frontend/watchplay-ui/src/components/playlist/SharePlaylistForm.tsx:41 | the front cut keeps a suffix, removes only white space and stops at a non-space |
| Text.TrimEndSpec | frontend/watchplay-ui/src/components/playlist/SharePlaylistForm.tsx:41 | the back cut keeps a prefix, removes only white space and stops at a non-space |
| Text.Split | frontend/watchplay-ui/src/components/playlist/PlaylistForm.tsx:101 | `split(',')` gives at least one piece (the empty string gives one empty piece) |
| Text.SplitPiecesNoSep | frontend/watchplay-ui/src/components/playlist/PlaylistForm.tsx:101 | no piece holds the separator |
| Text.SplitChars | frontend/watchplay-ui/src/components/playlist/PlaylistForm.tsx:101 | every character of every piece comes from the split string |
| Text.SplitNoSep | frontend/watchplay-ui/src/components/playlist/PlaylistForm.tsx:101 | a string without the separator is a single piece |
| Text.SplitAround | frontend/watchplay-ui/src/components/playlist/PlaylistForm.tsx:101 | splitting `a + ',' + b` is splitting a, then b |
| Text.JoinSplit | frontend/watchplay-ui/src/components/playlist/PlaylistForm.tsx:80-101 | joining the pieces with the separator restores the string |
| Text.SplitJoin | frontend/watchplay-ui/src/components/playlist/PlaylistForm.tsx:80-101 | splitting a join of separator-free pieces restores the pieces |
| Text.Utf16Length | frontend/watchplay-ui/src/components/auth/LoginForm.tsx:47 | `length` counts UTF-16 code units: at least one and at most two per character |
| Text.EmailPattern | frontend/watchplay-ui/src/components/playlist/SharePlaylistForm.tsx:49 | the unanchored `\S+@\S+\.\S+`: somewhere a non-space, `@`, at least one non-space, `.`, and a non-space |
| Text.EmailPatternToTrim | frontend/watchplay-ui/src/components/playlist/SharePlaylistForm.tsx:41-49 | a match of `\S+@\S+\.\S+` in a string survives trimming it |
| Text.EmailPatternFromTrim | frontend/watchplay-ui/src/components/auth/LoginForm.tsx:39-43 | a match in the trimmed string is a match in the string as typed |
| Text.EmailPatternTrim | frontend/watchplay-ui/src/components/auth/LoginForm.tsx:39-43 | the unanchored test gives the same answer before and after trimming |
| Text.EmailPatternNotBlank | frontend/watchplay-ui/src/components/auth/LoginForm.tsx:39-43 | a string that matches the pattern is not blank, so "Email is invalid" never hides "Email is required" |
| SqlLike.Like | backend/playlist-service/src/playlists/playlists.service.ts:94 | PostgreSQL `LIKE`: `%` matches any run of characters, `_` any one character, and a backslash makes the next pattern character literal |
| SqlLike.ContainsPattern | backend/playlist-service/src/playlists/playlists.service.ts:94 | the filter's pattern is `%`, then the tag unchanged, then `%` |
| SqlLike.LikeAnything | backend/playlist-service/src/playlists/playlists.service.ts:94 | `%` alone matches every string |
| SqlLike.LikePrefix | backend/playlist-service/src/playlists/playlists.service.ts:94 | a wildcard-free `t%` matches exactly the strings that start with t |
| SqlLike.LikeLeadingPercent | backend/playlist-service/src/playlists/playlists.service.ts:94 | a leading `%` lets the rest of the pattern match at any position |
| SqlLike.LikeContains | backend/playlist-service/src/playlists/playlists.service.ts:94 | for a tag without `%`, `_` or backslash, `LIKE '%tag%'` holds exactly when the tag is a substring |
| SqlLike.UnderscoreIsWildcard | backend/playlist-service/src/playlists/playlists.service.ts:94 | a tag holding `_` is read as a pattern: `a_c` selects the stored text `abc`, which does not contain it |
| SqlLike.TrailingBackslashEscapesPercent | backend/playlist-service/src/playlists/playlists.service.ts:94 | a tag ending in a backslash escapes the closing `%`: the tag `a\` selects text ending in `a%`, and neither `a\` nor `a%b` |
| Tags.CleanTags | frontend/watchplay-ui/src/components/playlist/PlaylistForm.tsx:102-103 | trimming the pieces and dropping empty ones never lengthens the list, and leaves only non-empty trimmed tags |
| Tags.CleanTagsNoComma | frontend/watchplay-ui/src/components/playlist/PlaylistForm.tsx:100-103 | pieces free of commas give tags free of commas |
| Tags.ParseTags | frontend/watchplay-ui/src/components/playlist/PlaylistForm.tsx:100-103 | every parsed tag is non-empty, trimmed and comma-free |
| Tags.CleanTagsConcat | frontend/watchplay-ui/src/components/playlist/PlaylistForm.tsx:102-103 | cleaning works piece by piece, in order |
| Tags.ParseTagsAround | frontend/watchplay-ui/src/components/playlist/PlaylistForm.tsx:100-103 | the tags of `a,b` are the tags of a followed by the tags of b: input order is kept |
| Tags.CleanTagsBlank | frontend/watchplay-ui/src/components/playlist/PlaylistForm.tsx:102-103 | blank pieces produce no tags |
| Tags.ParseTagsBlank | frontend/watchplay-ui/src/components/playlist/PlaylistFilter.tsx:66-69 | input made only of commas and white space gives no tags |
| Tags.ParseTagsSpacePrefix | frontend/watchplay-ui/src/components/playlist/PlaylistForm.tsx:100-103 | a leading space does not change the parsed tags |
| Tags.ParseTagsSingle | frontend/watchplay-ui/src/components/playlist/PlaylistForm.tsx:100-103 | a single well-formed tag parses to itself |
| Tags.ParseTagsJoin | frontend/watchplay-ui/src/components/playlist/PlaylistForm.tsx:80-103 | parsing `tags.join(', ')` gives back the tags when each is non-empty, trimmed and comma-free |
| Tags.ParseTagsKeepsDuplicates | frontend/watchplay-ui/src/components/playlist/PlaylistForm.tsx:100-103 | duplicates survive: `rock, rock` gives two tags |
| PlaylistsService.CanView | backend/playlist-service/src/playlists/playlists.service.ts:48-54 | the view gate: the caller owns the playlist, or it is public, or `sharedWith` holds the caller's id |
| PlaylistsService.IsOwner | backend/playlist-service/src/playlists/playlists.service.ts:63 | the owner gate of update, remove and share: the playlist's `userId` is the caller's |
| PlaylistsService.OwnerCanView | backend/playlist-service/src/playlists/playlists.service.ts:48-54 | the owner always passes the view gate, so `findOne` never stops an owner before the owner gate |
| PlaylistsService.EmailShareGrantsNoView | backend/playlist-service/src/playlists/playlists.service.ts:48-54 | when `sharedWith` holds emails and the caller's id has no `@`, the view gate is owner-or-public only |
| PlaylistsService.ApplyPatch | backend/playlist-service/src/playlists/playlists.service.ts:67 | an update never changes the id, the owner or `sharedWith`; for each of title, description, tags, category and `isPublic`, a given value replaces the stored one and an absent one keeps it |
| PlaylistsService.ApplyPatchIdempotent | backend/playlist-service/src/playlists/playlists.service.ts:67 | applying the same update twice equals applying it once |
| PlaylistsService.ReadBack | backend/playlist-service/src/playlists/entities/playlist.entity.ts:21-22 | a `simple-array` list comes back with the same comma-joined text, as pieces free of commas |
| PlaylistsService.ReadBackIdempotent | backend/playlist-service/src/playlists/entities/playlist.entity.ts:21-22 | a list read back comes back unchanged when saved again |
| PlaylistsService.ReadBackCommaFree | backend/playlist-service/src/playlists/entities/playlist.entity.ts:21-22 | non-empty comma-free pieces come back as written |
| PlaylistsService.ReadBackResplits | backend/playlist-service/src/playlists/entities/playlist.entity.ts:21-22 | a tag `a,b` (a and b comma-free) comes back as the two tags a and b, and a lone empty tag as none |
| PlaylistsService.Stored | backend/playlist-service/src/playlists/entities/playlist.entity.ts:21-31 | saving keeps every scalar column; the two list columns keep their NULL-ness and their comma-joined text |
| PlaylistsService.StoredIdempotent | backend/playlist-service/src/playlists/entities/playlist.entity.ts:21-31 | saving a row read back stores the same row |
| PlaylistsService.TagClausesAsBound | backend/playlist-service/src/playlists/playlists.service.ts:92-96 | the tag clauses as bound: no clause for an empty list, else the last tag's `LIKE '%tag%'` |
| PlaylistsService.MatchesFilter | backend/playlist-service/src/playlists/playlists.service.ts:84-96 | the WHERE clause as written: owner or public, the category when one is given, and the tag clauses as bound |
| PlaylistsService.MatchesEveryTag | backend/playlist-service/src/playlists/playlists.service.ts:92-96 | the evidently intended WHERE clause: as written, but with every requested tag tested |
| PlaylistsService.FilterTestsLastTag | backend/playlist-service/src/playlists/playlists.service.ts:92-96 | a filter on `tags + [last]` selects exactly what a filter on `[last]` selects |
| PlaylistsService.FilterIgnoresEarlierTags | backend/playlist-service/src/playlists/playlists.service.ts:92-96 | a public playlist tagged only `jazz` is selected by the tags `rock, jazz`, which the intended filter rejects |
| PlaylistsService.EveryTagMatchesFilter | backend/playlist-service/src/playlists/playlists.service.ts:92-96 | whatever the intended filter selects, the filter as written selects too |
| PlaylistsService.FilterMatchesAreViewable | backend/playlist-service/src/playlists/playlists.service.ts:86 | every playlist the filter selects passes the view gate |
| PlaylistsService.FilterSkipsShared | backend/playlist-service/src/playlists/playlists.service.ts:86 | the filter never selects another user's private playlist, even one shared with the caller |
| PlaylistsService.FilterMoreTagsNarrows | backend/playlist-service/src/playlists/playlists.service.ts:92-96 | under the intended filter, tags combine with AND: one more tag can only narrow the result |
| PlaylistsService.TagClauseIsSubstring | backend/playlist-service/src/playlists/playlists.service.ts:94 | for wildcard-free tags the clause is a substring test on the comma-joined tag column |
| PlaylistsService.TagClausePartialWord | backend/playlist-service/src/playlists/playlists.service.ts:94 | the tag `music` selects a playlist tagged only `live-music-2024` |
| PlaylistsService.TagClauseCrossesComma | backend/playlist-service/src/playlists/playlists.service.ts:94 | the tag `k,p` selects a playlist tagged `rock` and `pop`: a match may span two tags |
| PlaylistsService.AppendAbsent | backend/playlist-service/src/playlists/playlists.service.ts:115-119 | each email not yet in the list is pushed at its end, in request order; the list grows by at most the number of emails |
| PlaylistsService.AppendAbsentExtends | backend/playlist-service/src/playlists/playlists.service.ts:115-119 | sharing keeps the old list as a prefix and the result holds exactly the old and the requested emails |
| PlaylistsService.AppendAbsentNoDuplicates | backend/playlist-service/src/playlists/playlists.service.ts:115-119 | sharing never creates a duplicate |
| PlaylistsService.AppendAbsentPresent | backend/playlist-service/src/playlists/playlists.service.ts:116 | emails already listed are skipped |
| PlaylistsService.AppendAbsentIdempotent | backend/playlist-service/src/playlists/playlists.service.ts:115-119 | repeating a share request changes nothing |
| PlaylistsService.AppendAbsentConcat | backend/playlist-service/src/playlists/playlists.service.ts:115-119 | emails are taken in request order: one request for `e1 + e2` is two requests, e1 then e2 |
| PlaylistsService.Repository.FindOne | backend/playlist-service/src/playlists/playlists.service.ts:37-57 | a missing id is NotFound before any access check; a stored playlist is returned exactly when the view gate passes, else Forbidden |
| PlaylistsService.ListedFor | backend/playlist-service/src/playlists/playlists.service.ts:28-32 | the WHERE clause of `findAll`: owned, or `sharedWith` equal to the caller's id alone, or public |
| PlaylistsService.Repository.FindAll | backend/playlist-service/src/playlists/playlists.service.ts:26-35 | the result is exactly the stored rows the WHERE clause lists, each returned as stored and passing the view gate |
| PlaylistsService.Repository.FilterPlaylists | backend/playlist-service/src/playlists/playlists.service.ts:82-99 | the result is exactly the stored playlists the WHERE clause as written selects, each viewable by the caller |
| PlaylistsService.Repository.Create | backend/playlist-service/src/playlists/playlists.service.ts:17-24 | one new row owned by the caller, not public unless asked, unshared, stored as read back; the entity as sent is returned, and the owner can then read the stored row |
| PlaylistsService.Repository.Update | backend/playlist-service/src/playlists/playlists.service.ts:59-69 | the view gate, then the owner gate; only the owner's row changes, by the patch, and is returned as read back |
| PlaylistsService.Repository.Remove | backend/playlist-service/src/playlists/playlists.service.ts:71-80 | the same gates; the owner's row goes and every video pointing at it goes with it; all other videos stay |
| PlaylistsService.Repository.SharePlaylist | backend/playlist-service/src/playlists/playlists.service.ts:101-122 | the same gates; a NULL list counts as empty and each email not in the list as read back is appended once, in request order; the pushed entity is returned and stored as read back |
| VideosService.FindInPlaylist | backend/playlist-service/src/videos/videos.service.ts:42-44 | the lookup finds a video only when it belongs to the given playlist |
| VideosService.FindInOtherPlaylist | backend/playlist-service/src/videos/videos.service.ts:42-48 | a video id looked up under another playlist's id is not found |
| VideosService.AddVideoToPlaylist | backend/playlist-service/src/videos/videos.service.ts:16-31 | the view gate, then the owner gate; the owner's playlist gains one video row pointing at it, and nothing else changes |
| VideosService.RemoveVideoFromPlaylist | backend/playlist-service/src/videos/videos.service.ts:33-51 | the same gates; a video of another playlist is NotFound; otherwise exactly that video goes |
| JwtStrategy.Validate | backend/playlist-service/src/auth/strategies/jwt.strategy.ts:17-26 | succeeds exactly when `sub` and `email` are both truthy, with id = sub and email = email; otherwise Unauthorized "Invalid token" |
| JwtStrategy.RejectsWithoutSub | backend/playlist-service/src/auth/strategies/jwt.strategy.ts:18-20 | a missing or empty `sub` is rejected whatever the email |
| JwtStrategy.RejectsWithoutEmail | backend/playlist-service/src/auth/strategies/jwt.strategy.ts:18-20 | a missing or empty `email` is rejected whatever the subject |
| JwtStrategy.IssuedTokenValidates | backend/playlist-service/src/auth/strategies/jwt.strategy.ts:17-26 | the claims the authentication service signs for a user with non-empty id and email validate to exactly that id and email |
| AuthService.PayloadOf | backend/auth-service/src/auth/auth.service.ts:48-51 | the signed claims are the user's email and, as `sub`, its id |
| AuthService.GenerateToken | backend/auth-service/src/auth/auth.service.ts:47-61 | the token signs exactly those claims, and the response user carries id, username and email |
| AuthService.GenerateTokenHidesPassword | backend/auth-service/src/auth/auth.service.ts:53-60 | the response does not depend on the password hash |
| AuthService.Login | backend/auth-service/src/auth/auth.service.ts:31-45 | succeeds exactly for a stored email whose hash the comparison accepts, with that user's token; an unknown email and a wrong password give the same Unauthorized message |
| AuthService.RegisterOutcome | backend/auth-service/src/auth/auth.service.ts:19-28 | a created user gets its token; code 23505 becomes Conflict and nothing else does; any other error is passed on unchanged |
| AuthService.LoginAfterRegister | backend/auth-service/src/auth/auth.service.ts:19-45 | after a registration, logging in with the same email and password returns the token registration returned |
| AuthService.UserStore.Create | backend/auth-service/src/auth/auth.service.ts:21 | a taken email or username fails with code 23505 and stores nothing; otherwise the user is stored with the password hash |
| AuthService.Register | backend/auth-service/src/auth/auth.service.ts:19-28 | a taken email or username gives Conflict and stores nothing; otherwise the user is stored and its token returned |
| PlaylistSlice.FindIndex | frontend/watchplay-ui/src/redux/slices/playlistSlice.ts:151 | the first index with the id, or -1 exactly when no entry has it |
| PlaylistSlice.ReplaceFirst | frontend/watchplay-ui/src/redux/slices/playlistSlice.ts:151-154 | the `findIndex`, then the overwrite of that entry when one is found; the length is kept |
| PlaylistSlice.ReplaceFirstSpec | frontend/watchplay-ui/src/redux/slices/playlistSlice.ts:151-154 | the overwrite keeps the length, never inserts, and touches only the first entry with the id |
| PlaylistSlice.RemoveId | frontend/watchplay-ui/src/redux/slices/playlistSlice.ts:198 | the kept entries are exactly those with another id |
| PlaylistSlice.RemoveIdConcat | frontend/watchplay-ui/src/redux/slices/playlistSlice.ts:198 | removal keeps the order of the kept entries |
| PlaylistSlice.RemoveIdAbsent | frontend/watchplay-ui/src/redux/slices/playlistSlice.ts:198 | a list without the id is left as it is |
| PlaylistSlice.RemoveVideoId | frontend/watchplay-ui/src/redux/slices/playlistSlice.ts:270 | the kept videos are exactly those with another id |
| PlaylistSlice.RemoveVideoIdConcat | frontend/watchplay-ui/src/redux/slices/playlistSlice.ts:270 | video removal keeps the order of the kept videos |
| PlaylistSlice.AddVideoTo | frontend/watchplay-ui/src/redux/slices/playlistSlice.ts:245-249 | the list keeps its length and every entry its id |
| PlaylistSlice.AddVideoToSpec | frontend/watchplay-ui/src/redux/slices/playlistSlice.ts:245-249 | only the first playlist with the id changes, by the video appended at the end |
| PlaylistSlice.RemoveVideoFrom | frontend/watchplay-ui/src/redux/slices/playlistSlice.ts:267-271 | the list keeps its length and every entry its id |
| PlaylistSlice.RemoveVideoFromSpec | frontend/watchplay-ui/src/redux/slices/playlistSlice.ts:267-271 | only the first playlist with the id changes, losing exactly the videos with that id |
| PlaylistSlice.PlaylistSlice.constructor | frontend/watchplay-ui/src/redux/slices/playlistSlice.ts:109-114 | the initial state is empty, with nothing current, loading or failed |
| PlaylistSlice.PlaylistSlice.ClearError | frontend/watchplay-ui/src/redux/slices/playlistSlice.ts:120-122 | only the error is cleared |
| PlaylistSlice.PlaylistSlice.ClearCurrentPlaylist | frontend/watchplay-ui/src/redux/slices/playlistSlice.ts:123-125 | only the current playlist is cleared |
| PlaylistSlice.PlaylistSlice.Pending | frontend/watchplay-ui/src/redux/slices/playlistSlice.ts:130-133 | loading starts, the error is cleared, and the list and current playlist stay |
| PlaylistSlice.PlaylistSlice.Rejected | frontend/watchplay-ui/src/redux/slices/playlistSlice.ts:138-141 | loading stops, the error is the payload, and the list and current playlist stay |
| PlaylistSlice.PlaylistSlice.ListFulfilled | frontend/watchplay-ui/src/redux/slices/playlistSlice.ts:134-137 | the list is replaced wholesale by the payload |
| PlaylistSlice.PlaylistSlice.OneFulfilled | frontend/watchplay-ui/src/redux/slices/playlistSlice.ts:147-155 | the payload becomes current and overwrites the first entry with its id, without inserting |
| PlaylistSlice.PlaylistSlice.CreateFulfilled | frontend/watchplay-ui/src/redux/slices/playlistSlice.ts:165-169 | the payload is appended at the end and becomes current |
| PlaylistSlice.PlaylistSlice.DeleteFulfilled | frontend/watchplay-ui/src/redux/slices/playlistSlice.ts:196-202 | every entry with the id goes, the rest keep their order, and current is cleared only when it has that id |
| PlaylistSlice.PlaylistSlice.AddVideoFulfilled | frontend/watchplay-ui/src/redux/slices/playlistSlice.ts:242-254 | the video is appended to the first entry with the playlist id, and to current when it has that id |
| PlaylistSlice.PlaylistSlice.RemoveVideoFulfilled | frontend/watchplay-ui/src/redux/slices/playlistSlice.ts:264-276 | videos with the id leave the first entry with the playlist id, and current when it has that id |
| AuthSlice.LoadAuthState | frontend/watchplay-ui/src/redux/slices/authSlice.ts:7-39 | signed in exactly when in a browser with a truthy stored token and user; then with that token and the parsed user, otherwise the all-empty signed-out state |
| AuthSlice.EmptyStorageSignedOut | frontend/watchplay-ui/src/redux/slices/__tests__/authSlice.test.ts:47-55 | with empty storage the initial state is signed out |
| AuthSlice.EmptyTokenSignedOut | frontend/watchplay-ui/src/redux/slices/authSlice.ts:21 | an empty stored token counts as no token |
| AuthSlice.AuthSlice.constructor | frontend/watchplay-ui/src/redux/slices/authSlice.ts:77 | the slice starts from the loaded state |
| AuthSlice.AuthSlice.Logout | frontend/watchplay-ui/src/redux/slices/authSlice.ts:79-86 | user, token and the signed-in flag are cleared; loading and error stay |
| AuthSlice.AuthSlice.ClearError | frontend/watchplay-ui/src/redux/slices/authSlice.ts:87-89 | only the error is cleared |
| AuthSlice.AuthSlice.Pending | frontend/watchplay-ui/src/redux/slices/authSlice.ts:94-97 | loading starts and the error is cleared; nothing else changes |
| AuthSlice.AuthSlice.Fulfilled | frontend/watchplay-ui/src/redux/slices/authSlice.ts:98-103 | signed in with the response's user and token; the error stays |
| AuthSlice.AuthSlice.Rejected | frontend/watchplay-ui/src/redux/slices/authSlice.ts:104-107 | loading stops and the error is the payload; the session stays |
| SharePlaylistForm.Without | frontend/watchplay-ui/src/components/playlist/SharePlaylistForm.tsx:65 | the kept emails are exactly those different from the removed one |
| SharePlaylistForm.WithoutNoDuplicates | frontend/watchplay-ui/src/components/playlist/SharePlaylistForm.tsx:64-66 | removal keeps the list free of duplicates |
| SharePlaylistForm.SharePlaylistForm.constructor | frontend/watchplay-ui/src/components/playlist/SharePlaylistForm.tsx:36-38 | the form starts empty, without error |
| SharePlaylistForm.SharePlaylistForm.AddEmail | frontend/watchplay-ui/src/components/playlist/SharePlaylistForm.tsx:40-62 | blank, non-matching and already-listed input each set their message and change nothing else; otherwise the trimmed email is appended and input and error are cleared; the list stays duplicate-free and valid |
| SharePlaylistForm.SharePlaylistForm.RemoveEmail | frontend/watchplay-ui/src/components/playlist/SharePlaylistForm.tsx:64-66 | the address leaves the list, the others stay in order |
| SharePlaylistForm.SharePlaylistForm.HandleSubmit | frontend/watchplay-ui/src/components/playlist/SharePlaylistForm.tsx:68-77 | an empty list is refused with its message; otherwise `onShare` gets the list, duplicate-free and valid |
| PlaylistForm.InitialState | frontend/watchplay-ui/src/components/playlist/PlaylistForm.tsx:77-81 | each text field from the playlist or empty, tags joined with `, `, public when `isPublic` is undefined |
| PlaylistForm.ValidateForm | frontend/watchplay-ui/src/components/playlist/PlaylistForm.tsx:84-93 | the form is valid exactly when the title is not blank; otherwise "Title is required" |
| PlaylistForm.HandleSubmit | frontend/watchplay-ui/src/components/playlist/PlaylistForm.tsx:95-112 | submits only when valid, with the fields as typed and the parsed, well-formed tags |
| PlaylistForm.EditRoundTrip | frontend/watchplay-ui/src/components/playlist/PlaylistForm.tsx:77-112 | opening a playlist with well-formed tags and saving it unchanged submits the same title and tags |
| PlaylistForm.NewFormStartsPublicAndInvalid | frontend/watchplay-ui/src/components/playlist/PlaylistForm.tsx:77-93 | a new playlist starts public and cannot be submitted without a title |
| PlaylistFilter.HandleSubmit | frontend/watchplay-ui/src/components/playlist/PlaylistFilter.tsx:64-72 | `onFilter` gets the category unchanged and the parsed, well-formed tags |
| PlaylistFilter.BlankTagsFilterNothing | frontend/watchplay-ui/src/components/playlist/PlaylistFilter.tsx:66-69 | comma-and-space input gives no tags |
| PlaylistFilter.SubmitKeepsOrder | frontend/watchplay-ui/src/components/playlist/PlaylistFilter.tsx:66-69 | tags are read in input order |
| PlaylistFilter.HandleClear | frontend/watchplay-ui/src/components/playlist/PlaylistFilter.tsx:74-78 | both fields become empty, so a following submit has no category and no tags |
| LoginForm.EmailError | frontend/watchplay-ui/src/components/auth/LoginForm.tsx:39-43 | no message exactly when the pattern matches; "Email is required" exactly when blank; "Email is invalid" otherwise |
| LoginForm.PasswordError | frontend/watchplay-ui/src/components/auth/LoginForm.tsx:45-49 | no message exactly when the password has at least six UTF-16 code units; "Password is required" exactly when empty |
| LoginForm.SpacesPassword | frontend/watchplay-ui/src/components/auth/LoginForm.tsx:45-49 | the password is not trimmed: six spaces pass |
| LoginForm.AstralPassword | frontend/watchplay-ui/src/components/auth/LoginForm.tsx:47 | three emoji count as six code units and pass |
| LoginForm.ValidateForm | frontend/watchplay-ui/src/components/auth/LoginForm.tsx:36-53 | at most one message per field; each field is free of messages exactly when its rule holds |
| LoginForm.HandleSubmit | frontend/watchplay-ui/src/components/auth/LoginForm.tsx:55-65 | `login` is dispatched exactly when both rules hold, with the fields as typed |
| LoginForm.UntrimmedEmailDispatched | frontend/watchplay-ui/src/components/auth/LoginForm.tsx:39-59 | an email valid once trimmed is dispatched untrimmed |
| RegisterForm.ValidateForm | frontend/watchplay-ui/src/components/auth/RegisterForm.tsx:43-73 | username required after trim; the login form's email and password rules; a confirmation message exactly when the passwords differ |
| RegisterForm.HandleSubmit | frontend/watchplay-ui/src/components/auth/RegisterForm.tsx:75-85 | `register` is dispatched exactly when all four rules hold, with username, email and password as typed |
| RegisterForm.ConfirmIndependentOfPassword | frontend/watchplay-ui/src/components/auth/RegisterForm.tsx:61-69 | the confirmation message appears alongside a password message |
| RegisterForm.RegisteredCredentialsPassLogin | frontend/watchplay-ui/src/components/auth/RegisterForm.tsx:55-65 | what the register form accepts, the login form accepts too |

## Left out

- The NestJS wiring is not modelled: controllers, modules, guards and the validation pipe. The class-validator decorators on the request bodies appear only as preconditions: a non-empty playlist title, and a non-empty video title and URL. `@IsEmail` and `@IsUrl` are foreign validators and are not modelled.
- PlaylistsService.Repository.FindOne, PlaylistsService.Repository.Update, PlaylistsService.Repository.Remove, PlaylistsService.Repository.SharePlaylist, VideosService.AddVideoToPlaylist and VideosService.RemoveVideoFromPlaylist: the `id` columns are `uuid`, so a path id that is not a well-formed uuid makes PostgreSQL reject the query, and the request fails with a server error. The model treats every id as a key and answers NotFound instead.
- TypeORM and PostgreSQL are replaced by maps. Timestamps (`createdAt`, `updatedAt`) are set by the database and are not modelled on the back end.
- Generated uuids are a parameter of the create methods. The only assumption made about them is that they are unused.
- PlaylistsService.Repository.FindAll: the `{ sharedWith: userId }` clause depends on TypeORM's unseen equality for a `simple-array` column. It is modelled as the stored list being exactly `[userId]`.
- PlaylistsService.Repository.Update: an update body with no fields makes TypeORM refuse the query. An explicit `null` in the body clears a column. Neither is modelled; absent fields keep their values.
- The `videos` relation is not stored in the back-end playlist record. It is the set of video rows whose `playlistId` points at the playlist.
- Concurrent requests are not modelled, including the read-modify-write race of two simultaneous share requests.
- bcrypt and JWT are not modelled. Hashing, comparison and signing are function parameters. Token expiry and signature checks happen in passport-jwt before `validate` and are not modelled.
- AuthService.UserStore.Create: `users.service.ts` is not part of this model. Its create is modelled as an insert that fails with code 23505 when the email or username is taken. No other store error arises there; `AuthService.RegisterOutcome` covers the rethrow of other errors.
- `update-playlist.dto.ts` is not part of this model. The update body is taken to be the create body with every field optional.
- The async thunks, the HTTP services and the `localStorage` writes in the thunks and in `logout` are browser I/O and are not modelled. The reducers are modelled with the action payloads as parameters.
- AuthSlice.LoadAuthState: a `JSON.parse` that throws on a malformed stored user is not modelled; `parse` is total.
- Text.Utf16Length and LoginForm.PasswordError: a Dafny string holds Unicode scalar values, so a JavaScript string with a lone surrogate cannot be represented. JavaScript counts such a surrogate as one unit of `length`.
- PlaylistSlice.PlaylistSlice.AddVideoFulfilled and PlaylistSlice.PlaylistSlice.RemoveVideoFulfilled: a client playlist always has a `videos` list here. The entity `create` returns has no `videos` key, and the client keeps it as is. Until a fetch replaces that entry, `videos.push` (playlistSlice.ts:247) and `videos.filter` (playlistSlice.ts:270) would throw on it. The model does not capture that failure.
- AuthSlice.AuthSlice.Rejected and PlaylistSlice.PlaylistSlice.Rejected: the payload is taken to be a string. A server message that is an array of validation errors is not distinguished.
- The reducers' draft updates are modelled as value updates. Entries of `playlists` and `currentPlaylist` never share state.
- `VideoForm.tsx` is not modelled: its checks rely on the WHATWG `URL` parser. The pages and layout components are rendering and routing only.
- PlaylistFilter.HandleClear: the call to `onClear` after the reset is not modelled.
