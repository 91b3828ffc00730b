# MediaDock handlers in Dafny

MediaDock is a video-sharing backend: users register, publish videos, comment,
tweet, like, build playlists and subscribe to channels, through Express route
handlers over Mongoose models. This project models the decision logic of those
handlers and the error middleware.

The persistence layer is one `Store.Database` object. It holds a map from id to
document for users, videos, comments, tweets and playlists, and a sequence of
records for likes and subscriptions. Each handler is a method over that object.
It returns `Ok(code, value)` or `Error(status, message)`, with the source's
status codes and messages, and it makes its checks in the source's order. Every
mutating handler keeps `Database.Valid()`. That predicate says:

- documents are stored under their own id;
- usernames and emails are unique;
- playlists and watch histories have no repeats;
- there is at most one like per (type, target, user);
- no subscription pair repeats or subscribes a user to themselves;
- stored comment and tweet text is non-empty.

The model covers these modules:

- `Playlists`: create, read, add and remove a video, delete.
- `Subscriptions`: subscribe, unsubscribe and the three reads.
- `Likes`: toggle and count.
- `Videos`: the listing filter and sort built by `getAllVideos`, and read (views
  and watch history), publish, update, delete and toggle-publish.
- `Comments`: create, list newest first, edit, delete.
- `Tweets`: create, list by user and all, newest first, delete.
- `Users`: `registerUser`, meaning field validation, the conflict lookup, the
  uploads, normalisation, and the schema's required paths and unique indexes.
- `Errors`: `errorHandler`, which maps an exception to a status code and reply
  fields.
- `Seqs`: the list operations these rely on, namely add-if-absent, filter,
  find-and-delete, count, and a sort by creation time.

Outside inputs become parameters:

- the requester's id (`me`);
- fresh document ids (`newId`, absent from the collection);
- timestamps (`now`);
- the result of each upload to the media host (`Media.Upload`: a response, the
  `null` the helper returns on failure, or an exception).

Ids are strings in the canonical form `ObjectId.toString()` gives: 24
lower-case hexadecimal digits (`ValidId`). Where a handler compares a request
string as sent with a stored id, the request string is kept raw: it is
validated as `isValidObjectId` does (24 hexadecimal digits in either case,
`IsObjectIdString`) and `Cast` gives the id Mongoose turns it into.
`Matches` stands for the case-insensitive regex search, as a case-insensitive
substring test on ASCII letters.

Some behaviours the model states that are easy to miss:

- `getVideoById` returns unpublished videos to anyone.
- `getVideoById` returns the video as it was read, before the view increment.
- `addComment` does not check that the video exists.
- `editComment` and `createTweet` store the text untrimmed.
- The registration conflict lookup compares the trimmed, lower-cased username
  and email, because Mongoose runs the schema's `trim` and `lowercase` setters
  on query values. A padded spelling of a stored username gets 409
  (`Users.PaddedUsernameConflicts`), and the lookup refuses exactly what the
  unique indexes would (`Users.ConflictsIsTaken`).

## Model

| member | source | states |
|---|---|---|
| Common.Trim | src/controllers/user.controllers.js:13 | `s.trim()`: the result is the slice of s after the leading white space; what follows it is all white space, and a non-empty result neither starts nor ends with white space |
| Common.TrimEmptyIffBlank | src/controllers/user.controllers.js:13 | `s.trim() === ''` holds exactly when every character is white space |
| Common.BlankMeansWhiteSpace | src/controllers/comment.controllers.js:79-81 | the blank-content test refuses exactly missing content and all-white-space content; accepted content is truthy |
| Common.TrimIdempotent | src/controllers/user.controllers.js:62-64 | trimming an already trimmed value changes nothing |
| Common.ToLower | src/controllers/user.controllers.js:20 | `toLowerCase()` keeps the length, maps each character by itself, and leaves no capital A-Z |
| Common.Cast | src/controllers/playlist.controllers.js:80-81 | a string `isValidObjectId` accepts casts to its lower-case form, character by character, which is a canonical id; a canonical id casts to itself |
| Common.CanonicalIdAccepted | src/controllers/subscription.controllers.js:12 | every canonical id passes `isValidObjectId` and casts to itself |
| Common.ToLowerIdempotent | src/models/user.models.js:20-31 | lower-casing an already lower-cased value, as the schema's `lowercase` setter does to the handler's output, changes nothing |
| Seqs.AppendIfAbsent | src/controllers/playlist.controllers.js:80-83 | a list that holds the id comes back unchanged; otherwise the id is appended at the end; the id is present afterwards and no repeats are introduced |
| Seqs.AppendIfAbsentIdempotent | src/controllers/playlist.controllers.js:80-83 | adding the same id twice is the same as adding it once |
| Seqs.Filter | src/controllers/playlist.controllers.js:112 | `filter` keeps exactly the elements that pass and never grows the list |
| Seqs.FilterCounts | src/controllers/playlist.controllers.js:112 | every kept element keeps its number of occurrences; every dropped element has none left |
| Seqs.FilterConcat | src/controllers/playlist.controllers.js:112 | filtering distributes over concatenation, so the kept elements stay in their original order |
| Seqs.FilterDistinct | src/controllers/subscription.controllers.js:82-84 | filtering a list without repeats gives a list without repeats |
| Seqs.RemoveAll | src/controllers/playlist.controllers.js:112 | every copy of the id is gone, every other id keeps its count, and a list without the id is returned unchanged |
| Seqs.RemoveAllUndoesAppend | src/controllers/playlist.controllers.js:80-83 | removing an id just added to a list that lacked it restores the list |
| Seqs.IndexOf | src/controllers/like.controllers.js:21-24 | `findOne`: absent exactly when no record matches; otherwise the position of the first match |
| Seqs.RemoveAt | src/controllers/like.controllers.js:27 | `deleteOne` on the found record: one fewer element, exactly that record's occurrence removed, no repeats introduced |
| Seqs.RemoveAtIsRemoveAll | src/controllers/subscription.controllers.js:51-54 | in a list without repeats, deleting the first match is the same as deleting every match |
| Seqs.RemoveAtUndoesAppend | src/controllers/like.controllers.js:27-38 | deleting a record just appended restores the list |
| Seqs.FilterAppendLength | src/controllers/like.controllers.js:55 | appending a record raises a count by one exactly when the record matches the counted target |
| Seqs.FilterRemoveAtLength | src/controllers/like.controllers.js:55 | deleting a record lowers a count by one exactly when the record matches the counted target |
| Seqs.InsertByStamp | src/controllers/comment.controllers.js:38 | inserting into a newest-first list keeps it newest first and adds exactly one element |
| Seqs.SortNewestFirst | src/controllers/comment.controllers.js:37-38 | `sort({createdAt: -1})`: the result holds each document of the pool exactly once, in non-increasing creation time |
| Errors.StatusAsWritten | src/middlewares/error.middlewares.js:7-9 | an ApiError keeps its status; any other error gets 500 exactly when it has a truthy `statusCode` or is a Mongoose error, and 400 otherwise |
| Errors.Status | src/middlewares/error.middlewares.js:7-9 | the intended status: a foreign error's own truthy `statusCode` is kept; the other cases are as written |
| Errors.StatusAsWrittenDiffers | src/middlewares/error.middlewares.js:9 | the two readings differ exactly on foreign errors whose status code is present and not 500 |
| Errors.MalformedJsonAnsweredWith500 | src/middlewares/error.middlewares.js:9 | a foreign error carrying status 400 is answered with 500 as written, and with 400 as intended |
| Errors.HandleError | src/middlewares/error.middlewares.js:4-23 | the reply keeps the error's message and `errors` (default `[]`); its stack is present exactly when `NODE_ENV` is 'development' |
| Errors.Thrown | src/middlewares/error.middlewares.js:23 | a handler whose call threw answers with the middleware's status and the error's message |
| Playlists.CreatePlaylist | src/controllers/playlist.controllers.js:9-25 | 400 when name or description is missing, nothing stored; otherwise a new empty playlist owned by the requester is stored and returned with 201 |
| Playlists.GetUserPlaylists | src/controllers/playlist.controllers.js:29-37 | exactly the requester's playlists |
| Playlists.GetPlaylistById | src/controllers/playlist.controllers.js:40-54 | 400 for a malformed id, 404 for a missing playlist, otherwise the playlist, with no ownership check |
| Playlists.AddVideoAsWritten | src/controllers/playlist.controllers.js:80-81 | as written: a list holding the request string as sent is unchanged; otherwise the cast id is appended; on a canonical id it equals the intended step |
| Playlists.CapitalisedAddDuplicates | src/controllers/playlist.controllers.js:80-81 | as written, adding 24×'a' and then 24×'A' to an empty playlist lists the same video twice |
| Playlists.AddVideo | src/controllers/playlist.controllers.js:80-83 | intended: the cast id is appended when the list lacks it and the playlist is unchanged otherwise; only the list changes and it stays without repeats |
| Playlists.RemoveVideoAsWritten | src/controllers/playlist.controllers.js:112 | as written: the request string as sent is gone from the list, every other entry keeps its count, and a list without that exact string is unchanged |
| Playlists.RemoveVideo | src/controllers/playlist.controllers.js:112 | intended: the cast id is gone, every other entry keeps its count, no repeats appear, and on a canonical id it equals the step as written |
| Playlists.CapitalisedRemoveKeepsVideo | src/controllers/playlist.controllers.js:80-113 | as written, a video added by a capitalised id is still listed after removing it by the same id |
| Playlists.AddVideoToPlaylist | src/controllers/playlist.controllers.js:57-89 | 400, 400, 404, 403 in that order, with nothing changed; otherwise the playlist becomes its `AddVideo` result and no other playlist changes |
| Playlists.RemoveVideoFromPlaylist | src/controllers/playlist.controllers.js:92-118 | the same guards; otherwise the playlist becomes its `RemoveVideo` result (every copy of the cast id removed) and no other playlist changes |
| Playlists.DeletePlaylist | src/controllers/playlist.controllers.js:121-141 | 400, 404, 403 with nothing changed; otherwise exactly that playlist is removed |
| Playlists.AddVideoIdempotent | src/controllers/playlist.controllers.js:80-83 | with the intended add, a second add of the same video, in any spelling that casts to the same id, leaves the playlist as the first add left it |
| Playlists.RemoveUndoesAdd | src/controllers/playlist.controllers.js:80-113 | with the intended removal, removing a video just added to a playlist that lacked it restores the playlist, whatever the case of the id as sent |
| Subscriptions.SubscribersOf | src/controllers/subscription.controllers.js:82-84 | exactly the records naming the channel |
| Subscriptions.SubscriptionsBy | src/controllers/subscription.controllers.js:66-68 | exactly the records naming the subscriber |
| Subscriptions.SelfRequestAsWritten | src/controllers/subscription.controllers.js:16 | as written: the request is a self-subscription exactly when the request string equals the requester's id string |
| Subscriptions.SelfRequest | src/controllers/subscription.controllers.js:16 | intended: the request is a self-subscription exactly when the channel id casts to the requester's id |
| Subscriptions.SelfPairAsWritten | src/controllers/subscription.controllers.js:16 | as written, the requester's id in capitals passes the self test and the pair then stored names the requester twice |
| Subscriptions.SelfRequestCorrects | src/controllers/subscription.controllers.js:16 | the intended self test refuses everything the written one refuses, agrees with it on canonical ids, and never lets a self-pair through |
| Subscriptions.SubscribeToChannel | src/controllers/subscription.controllers.js:9-42 | 400 invalid id, 400 self (in any spelling), 404 unknown channel, 400 already subscribed, in that order, with nothing changed; otherwise exactly the pair (requester, cast channel id) is appended and no self-pair is ever stored |
| Subscriptions.UnsubscribeFromChannel | src/controllers/subscription.controllers.js:45-62 | 400 invalid id, 400 when not subscribed; otherwise exactly that pair is removed |
| Subscriptions.GetSubscribedChannels | src/controllers/subscription.controllers.js:65-73 | exactly the records whose subscriber is the requester |
| Subscriptions.GetChannelSubscribers | src/controllers/subscription.controllers.js:76-89 | 400 for a malformed id, else exactly the records whose channel is the given one |
| Subscriptions.IsSubscribed | src/controllers/subscription.controllers.js:92-106 | 400 for a malformed id, else 200 with the record when the pair exists and null when it does not |
| Subscriptions.SubscribeKeepsInvariant | src/controllers/subscription.controllers.js:16-37 | appending a new non-self pair keeps the collection free of repeats and self-pairs |
| Subscriptions.UnsubscribeKeepsInvariant | src/controllers/subscription.controllers.js:51-54 | deleting a record keeps the collection free of repeats and self-pairs |
| Subscriptions.UnsubscribeUndoesSubscribe | src/controllers/subscription.controllers.js:34-57 | subscribe followed by unsubscribe restores the collection |
| Subscriptions.SubscribeCounts | src/controllers/subscription.controllers.js:34-37 | a subscription raises its channel's subscriber count by one and no other channel's |
| Subscriptions.SubscribersAreDistinctOthers | src/controllers/subscription.controllers.js:82-84 | a channel's subscribers are listed once each and never include the channel itself |
| Likes.ParseKind | src/controllers/like.controllers.js:15-16 | the type is accepted exactly when it is 'video', 'comment' or 'tweet', and names the kind it selects |
| Likes.ParseKindName | src/controllers/like.controllers.js:15-16 | each kind's name parses back to that kind |
| Likes.Toggled | src/controllers/like.controllers.js:21-38 | an existing like is deleted and a missing one appended; no other record's count changes; at most one like per (type, target, user) is preserved |
| Likes.LikesOn | src/controllers/like.controllers.js:55 | exactly the likes of the given kind and target |
| Likes.ToggleLike | src/controllers/like.controllers.js:8-43 | 400 'Invalid ID' before 400 'Invalid type', with nothing changed; otherwise the collection is toggled and the outcome is Unliked exactly when the like existed |
| Likes.GetLikeCount | src/controllers/like.controllers.js:45-59 | the same two checks, then the number of likes on the target |
| Likes.ToggleTwiceFromAbsent | src/controllers/like.controllers.js:27-38 | two toggles of a like that did not exist restore the collection exactly |
| Likes.ToggleTwiceRestores | src/controllers/like.controllers.js:21-38 | from a state with at most one like per key, two toggles restore the same likes |
| Likes.ToggleCounts | src/controllers/like.controllers.js:21-55 | a toggle moves its own target's count by one in the direction of its outcome and leaves every other count alone |
| Videos.BuildMatch | src/controllers/video.controllers.js:17-28 | a video passes the filter exactly when it is published, matches a truthy query in title or description, and belongs to the id userID casts to when userID is truthy and accepted by `isValidObjectId`; any other userID is ignored |
| Videos.BuildSort | src/controllers/video.controllers.js:58-63 | with both sortBy and sortType, sort on sortBy, descending exactly when sortType is 'desc'; otherwise createdAt descending |
| Videos.BuildPageOptions | src/controllers/video.controllers.js:12 | page defaults to 1 and limit to 10 |
| Videos.Selected | src/controllers/video.controllers.js:29-31 | the documents the match stage passes |
| Videos.UnpublishedNeverListed | src/controllers/video.controllers.js:17 | no listing shows an unpublished video |
| Videos.PlainListingShowsAllPublished | src/controllers/video.controllers.js:17-28 | without a query and a userID, the listing shows every published video |
| Videos.UrlCheckAsWritten | src/controllers/video.controllers.js:155-157 | as written: a null upload result is a TypeError answered with 400; an empty url gives 500 |
| Videos.UrlCheck | src/controllers/video.controllers.js:155-157 | intended: any upload without a url gives 500 with the handler's message |
| Videos.UrlCheckDiffersOnlyOnNull | src/controllers/video.controllers.js:155-157 | the two checks differ exactly on a null upload result: 400 as written, 500 as intended |
| Videos.Flipped | src/controllers/video.controllers.js:269 | `isPublished` is negated and every other field kept |
| Videos.GetVideoById | src/controllers/video.controllers.js:83-133 | 400, 404 with nothing changed; otherwise the video as read, views raised by exactly one, and a logged-in viewer's history extended by add-if-absent; an anonymous request touches no history |
| Videos.WatchKeepsUsersOk | src/controllers/video.controllers.js:126-128 | the history update keeps usernames and emails unique and histories without repeats |
| Videos.PublishAVideo | src/controllers/video.controllers.js:137-178 | 400 fields, 400 files, a thrown upload, 500 missing url, in that order, with nothing stored; otherwise a new unpublished video with zero views owned by the requester |
| Videos.UpdateVideo | src/controllers/video.controllers.js:181-222 | 400 id, 400 fields, 404, 403, then a thrown thumbnail upload goes to the error middleware and an upload without a url gets 500 'Failed to upload thumbnail', each with nothing changed; otherwise title and description replaced, and the thumbnail replaced only when a new one was uploaded |
| Videos.DeleteVideo | src/controllers/video.controllers.js:225-246 | 400, 404, 403 with nothing changed; otherwise exactly that video is removed |
| Videos.TogglePublishVideo | src/controllers/video.controllers.js:250-277 | 400, 404, 403 with nothing changed; otherwise the video is replaced by its flipped copy |
| Videos.ToggleTwiceRestores | src/controllers/video.controllers.js:266-272 | toggling twice restores the video collection |
| Comments.CommentsOn | src/controllers/comment.controllers.js:37 | exactly the comments on the video |
| Comments.AddComment | src/controllers/comment.controllers.js:8-27 | 400 missing content or video id, 400 malformed video id; otherwise a new comment by the requester, stored with 201 |
| Comments.GetCommentsByVideo | src/controllers/comment.controllers.js:30-44 | 400 for a malformed id; otherwise each comment on the video once, newest first |
| Comments.DeleteComment | src/controllers/comment.controllers.js:47-68 | 400, 404, 403 with nothing changed; otherwise exactly that comment is removed |
| Comments.EditComment | src/controllers/comment.controllers.js:71-98 | 400 id, 400 blank content (before any lookup), 404, 403; otherwise only the content changes, to the text as sent |
| Comments.AddThenDeleteRestores | src/controllers/comment.controllers.js:18-63 | deleting a comment just added restores the collection |
| Tweets.TweetsBy | src/controllers/tweet.controllers.js:28-30 | exactly the tweets of the user |
| Tweets.CreateTweet | src/controllers/tweet.controllers.js:8-22 | 400 for missing or blank content with nothing stored; otherwise a new tweet by the requester, stored with 201 |
| Tweets.GetTweetsByUser | src/controllers/tweet.controllers.js:26-36 | 400 for a malformed id; otherwise each of the user's tweets once, newest first |
| Tweets.GetAllTweets | src/controllers/tweet.controllers.js:39-45 | every tweet once, newest first |
| Tweets.DeleteTweet | src/controllers/tweet.controllers.js:48-67 | 400, 404, 403 with nothing changed; otherwise exactly that tweet is removed |
| Tweets.NewTweetListedForItsAuthorOnly | src/controllers/tweet.controllers.js:14-30 | a new tweet joins its author's listing and no other user's |
| Users.FirstInvalidField | src/controllers/user.controllers.js:11-16 | the first field that is not a non-blank string, or none when all pass |
| Users.CheckRequiredFields | src/controllers/user.controllers.js:11-16 | the 400 message names the first blank of fullname, email, username, password, in that order; there is none exactly when all four are non-blank |
| Users.UrlOrEmpty | src/controllers/user.controllers.js:66-67 | the upload's url, or '' when there is no result |
| Users.NewUserDocAsWritten | src/controllers/user.controllers.js:61-68 | as written, the full name goes under the undeclared path `fullname`, so the cast document has no `fullName` |
| Users.RegistrationAlwaysRejectedAsWritten | src/models/user.models.js:33-38 | as written (the handler sends `fullname` at src/controllers/user.controllers.js line 62), schema validation refuses every registration |
| Users.NewUserDoc | src/controllers/user.controllers.js:61-68 | intended document: full name trimmed, email and username trimmed and lower-cased, password and urls as given |
| Users.SchemaAccepts | src/models/user.models.js:17-54 | the document has a non-empty username, email, fullName, avatar and password, the paths the schema requires |
| Users.DocAcceptedIffAvatar | src/models/user.models.js:17-54 | with all required fields non-blank, the intended document passes validation exactly when the avatar url is non-empty |
| Users.PublicView | src/controllers/user.controllers.js:72 | the response keeps the user's id, names and urls, and carries no password |
| Users.NewUser | src/controllers/user.controllers.js:61-68 | the stored user: trimmed and lower-cased names, an empty history, and the urls given |
| Users.RegisterUser | src/controllers/user.controllers.js:7-96 | 400 for the first blank of fullname, email, username, password; then 409 on a conflict, 400 without an avatar, 500 for each throwing upload; coverImage is '' without a cover file |
| Users.CreateUser | src/controllers/user.controllers.js:59-93 | an empty avatar url or a taken username or email ends in 500 with nothing stored; otherwise the user is stored and returned with 201 |
| Users.NewUserKeepsUsersOk | src/models/user.models.js:18-32 | storing a user whose username and email are free keeps both unique |
| Users.Conflicts | src/controllers/user.controllers.js:19-21 | some stored user has the trimmed, lower-cased username or email of the request |
| Users.Taken | src/models/user.models.js:20-28 | some stored user already holds the username or the email about to be stored: what the unique indexes on both paths refuse |
| Users.ConflictsIsTaken | src/controllers/user.controllers.js:19-25 | the conflict lookup refuses exactly the requests whose normalised username or email a unique index would refuse |
| Users.SecondRegistrationConflicts | src/controllers/user.controllers.js:19-25 | once a registration is stored, any username that normalises to the stored one hits the conflict lookup |
| Users.ToLowerNoCapitals | src/controllers/user.controllers.js:20 | lower-casing a string without capitals changes nothing |
| Users.PaddedUsernameConflicts | src/controllers/user.controllers.js:19-25 | ' bob' meets the conflict lookup against a stored 'bob' (409) |
| Scenarios.PublishThenToggle | src/controllers/video.controllers.js:159-167 | a just-published video is not listed; after its owner toggles it (lines 266-272), the plain listing shows it |
| Scenarios.SubscribeTwice | src/controllers/subscription.controllers.js:26-37 | a second subscription to the same channel is refused and the pair is stored once |
| Scenarios.RegisterTwice | src/controllers/user.controllers.js:19-25 | the first registration succeeds with 201 and the second gets 409 |

## Left out

- The database engine is left out. MongoDB queries are replaced by operations on in-memory maps and sequences. `populate`, `$lookup`, `$first` and the projections are not modelled.
- `aggregatePaginate` is not modelled. The listing model gives the set of videos the match stage passes, but not the sorted and paginated page.
- Videos.Matches: the `$regex` search with option 'i' is modelled as a substring test that ignores the case of ASCII letters. Regex metacharacters in the query are not interpreted.
- Common.ValidId: apart from the channel id of subscribeToChannel, the video id of the playlist add and remove, and the `userID` of the video listing, an id in a request must be in canonical lower-case form. A spelling with capitals A-F, which `isValidObjectId` accepts and Mongoose casts to the same ObjectId, is answered 400 here. In the source such a request reaches the lookups: `findById` finds the document, and a like toggled under both spellings is deleted by the second toggle.
- Common.IsObjectIdString: `isValidObjectId` is modelled as exactly 24 hexadecimal digits. Mongoose also accepts 12-character strings and ObjectId instances.
- Common.ToLower: only the letters A to Z are lower-cased. JavaScript's full Unicode case mapping is not modelled.
- Videos.BuildPageOptions: `parseInt` of page and limit is not modelled. The values arrive as integers or are absent.
- Uploads to the media host are parameters. `fs.unlinkSync` and the host's own behaviour are not modelled.
- The cleanup in registerUser after a failed creation is assumed to complete. This is the `deleteFromCloudinary` calls at src/controllers/user.controllers.js:84-91, a helper that src/utils/cloudinary.js does not export.
- The failure to link the modules is not modelled. `deleteFromCloudinary` (src/controllers/user.controllers.js:5, src/controllers/video.controllers.js:6) and `getWatchHistory` (src/controllers/video.controllers.js:8) are imported but not exported by their modules.
- A re-read that comes back empty right after a create is not modelled. This is `findById` after `create`, which would give 500 'something went wrong'. The store is assumed to return what was just written.
- Concurrency is not modelled. The races between `findOne` and `create` in subscribe and toggleLike are outside the model, which is sequential.
- The order of documents with equal creation times in newest-first listings is left open.
- Users.RegisterUser: passwords are stored as given. src/models/user.models.js has no hashing hook, and `refreshToken` is not modelled.
- The schema's `lowercase` and `trim` setters on username and email are not re-applied to the stored document. They are idempotent on the handler's output (`Common.TrimIdempotent`, `Common.ToLowerIdempotent`). On query values they are applied, in `Users.Conflicts`.
- `watchHistory` is modelled as a list of video ids, as the handler uses it. The schema declares it as a single reference.
- The schema files for Video, Comment, Tweet, Playlist and Like are not part of this model. The stored-text invariants in `Store.Valid` come from what the handlers check.
- The requester is the authenticated user id `me`. Requests that reach a handler reading `req.user._id` without a user are not modelled. The exception is getVideoById, where the viewer is optional.
- Videos.UpdateVideo: whether a new thumbnail was sent is a boolean parameter. It stands for the file path the handler reads from `req.files?.path`.
- Response envelopes (`ApiResponse`), success messages, cookies and `console.log` are not modelled.
- Token issuance, refresh, logout and the other user routes are not modelled, because user.controllers.js does not implement them.
- `ApiError` and `asyncHandler` are not part of this model. The model assumes that an `ApiError` carries `statusCode`, `message`, `errors` and `stack`, and that a rejected handler reaches the error middleware.
- src/app.js mounts only the healthcheck, user and video routers (lines 22-30). As written, the playlist, subscription, like, comment and tweet handlers are not reachable over HTTP. The model states what each handler does once it is called.
- Errors.HandleError: src/app.js imports and re-exports `errorHandler` but has no `app.use` for it. The model assumes it is installed after the routes. Without it, Express's default handler answers, with its own body: an error whose `status` or `statusCode` is in the 4xx-5xx range, such as every `ApiError`, keeps that status. Any other error gets 500, so the null-url TypeError of the findings would get 500 rather than 400.

## Findings

| source | as written | input that shows it | evidently intended | confidence | as-written member | corrected member |
|---|---|---|---|---|---|---|
| src/middlewares/error.middlewares.js:9 | the conditional binds looser than the or: a truthy `statusCode` or a Mongoose error gives 500, anything else 400 | a non-ApiError with `statusCode: 400`, such as a malformed JSON body, is answered with 500 | keep a foreign error's own status code; otherwise 500 for Mongoose errors and 400 for the rest | not executed | Errors.StatusAsWritten | Errors.Status |
| src/controllers/video.controllers.js:155 | the url check reads `.url` of the upload result, which is `null` when the upload failed | `uploadOnCloudinary` returns `null`; the TypeError is answered with 400 instead of 500 'Failed to upload video file or thumbnail' (the same happens at line 206) | an upload without a url is answered with 500 and the handler's message | not executed | Videos.UrlCheckAsWritten | Videos.UrlCheck |
| src/controllers/user.controllers.js:62 | the full name is written under `fullname`, while src/models/user.models.js:33-38 requires `fullName` | any valid registration: schema validation fails and the handler answers 500 | store the full name under the schema's `fullName` | not executed | Users.NewUserDocAsWritten | Users.NewUserDoc |
| src/controllers/subscription.controllers.js:16 | the self test compares the request string with the requester's id string before any cast | the requester's own id with its letters in capitals: the test passes, `findById` finds the requester, and the stored pair subscribes the requester to itself | refuse every spelling of the requester's own id | not executed | Subscriptions.SelfRequestAsWritten | Subscriptions.SelfRequest |
| src/controllers/playlist.controllers.js:112 | the filter compares the stored ids, in canonical lower-case form, with the request string as sent | a video added by a capitalised id (stored cast to lower case at line 81) and removed by the same id: 200 'Video removed' and the video stays | remove the id the request string casts to | not executed | Playlists.RemoveVideoAsWritten | Playlists.RemoveVideo |
| src/controllers/playlist.controllers.js:80 | `includes` compares the stored ids, in canonical lower-case form, with the request string as sent, while `push` at line 81 stores the cast id | a playlist listing 24×'a', and an add of 24×'A': the test misses and the video is listed twice | skip the add when the list holds the id the request string casts to | not executed | Playlists.AddVideoAsWritten | Playlists.AddVideo |

The discrepancies are exhibited by `Errors.MalformedJsonAnsweredWith500` and
`Errors.StatusAsWrittenDiffers`, by `Videos.UrlCheckDiffersOnlyOnNull`, by
`Users.RegistrationAlwaysRejectedAsWritten`, by `Subscriptions.SelfPairAsWritten`
by `Playlists.CapitalisedRemoveKeepsVideo` and by
`Playlists.CapitalisedAddDuplicates`. The handlers use the corrected members.
`Users.DocAcceptedIffAvatar`, `Subscriptions.SelfRequestCorrects`,
`Playlists.AddVideoIdempotent` and `Playlists.RemoveUndoesAdd` state the
corrected members' properties.
