# youtube-clone backend, modelled in Dafny

This project models the request handlers of the youtube-clone Express backend
in Dafny, together with the schemas, the `verifyJwt` middleware,
`asyncHandler` and `ApiError` those handlers rely on. The handlers cover
playlists, videos, likes, comments, subscriptions, tweets, the channel
dashboard and user registration.

The MongoDB database becomes an in-memory store: the class `Store.Db`, with
one sequence of documents per collection and an id counter. Each document
carries its `_id`, `createdAt` and `updatedAt`, as Mongoose's timestamps
would. The natural order of a collection is its insertion order.

Handlers come in two kinds.
- A handler that writes is a method on the store. It has one `ensures` per
  guard of the JavaScript handler, and it states the whole new store state.
- A handler that only reads is a function returning a `Completion`: either
  `Wrote(status, data)` or `Threw(error)`.

`AsyncHandler.Wrap` turns a completion into what goes out on the wire.

Request fields are `Option<string>`: `None` is `undefined`, and a field is
truthy when it is present and non-empty. Calls into code outside the model are
parameters of the handlers:
- `isValidObjectId`;
- `jwt.verify` (a function from a token to its claims);
- `bcrypt.hash` and `bcrypt.compare`;
- `uploadOnCloudinary` (a function from a path to an optional URL);
- the clock.

The handlers are modelled as written, including their defects. Each defect
appears as a contract or a lemma.
- **Every `ApiError` reaches the client as a 500 whose message is the code's
  digits.** The constructor is `(message, statusCode)` (src/utils/ApiError.js:2).
  Every handler calls it as `(code, text)`. `asyncHandler` answers with
  `error.code || 500` (src/utils/asyncHandler.js:5), and no `ApiError` has a
  `code`. See `ApiErrors.CallerConvention`, `AsyncHandler.ApiErrorAlways500`
  and `AsyncHandler.WireMatchesIntentOnlyFor500`.
- **The duplicate-key error gets no reply and, under Express 4, ends the
  process.** The database's duplicate-key error carries `code` 11000, which is
  no HTTP status, so the wrapper's own reply throws inside its `catch`. See
  `AsyncHandler.DuplicateKeyNoReply` and the Express paragraph below.
- **`Video` is not imported** by src/controllers/playlist.controller.js or
  src/controllers/comment.controller.js. So `addVideoToPlaylist` and
  `addComment` throw a `ReferenceError` once they reach the video lookup. The
  binding is the parameter `video: Binding`; `VideoInScope` is `Unbound`.
- **Likes never validate.** The handlers store `user`, but the Like schema
  requires `likedBy` and `video`. So creating a like always fails validation,
  and a toggle can only remove likes. See `LikeModel.HandlerLikesInvalid`,
  `LikeController.LikeToggleNeverAdds` and
  `LikeController.LikeToggleTwiceDoesNotRestore`.
- **`createVideo` never supplies the required `duration`.** It therefore
  always fails validation. See `VideoController.CreateVideo` and
  `VideoModel.NewVideoValidIff`.
- **Access tokens never authenticate.** They carry the user's id under `id`
  (src/models/user.models.js:68), while `verifyJwt` looks the user up by `_id`
  (src/middlewares/auth.middleware.js:20). Every such token leaves the request
  stalled: it is neither answered nor passed on. See
  `AuthMiddleware.AccessTokenStalls`.
- **`getAllVideos` has no authentication.** No `verifyJwt` guards its route
  (src/routes/video.routes.js:16-17), so reading `req.user._id` throws a
  `TypeError`. See `VideoController.GetAllVideos`.
- **The default sort is a no-op.** The default sort field is `createdAt`,
  which the preceding `$project` stage removed. See
  `VideoController.DefaultSortKeepsNaturalOrder`.
- **Tweets have no owner check.** `updateTweet` and `deleteTweet` act on any
  tweet. `getUserTweets` ignores the user the route names and lists the
  requester's tweets. See `TweetController.UserTweetsIgnoreRouteUser`.
- **No validation on playlist updates.** `updatePlaylist` writes with
  `findByIdAndUpdate` (src/controllers/playlist.controller.js:176-180), which
  runs no validators by default, so nothing stops an update from being
  stored. (`updateComment` saves with `comment.save()`, which does run the
  Comment schema's validators; that schema is not part of this model.)
- **A `sortBy` the database refuses gets no reply and, under Express 4, ends
  the process.** `getAllVideos` puts the raw `sortBy` into the `$sort` stage
  (src/controllers/video.controller.js:38). A field path with an empty piece
  or a piece starting with `$` is refused with a code that is no HTTP status.
  The same holds for a refused skip or limit. See `FieldPaths.RefusedPaths`,
  `VideoController.RefusedSortFieldNoReply` and the Express paragraph below.

Other defects are outside what the model can express, and are recorded here
as notes only.
- `Subscription` is only a default export (src/models/subscription.models.js:19),
  yet src/controllers/subscription.controller.js:3 and
  src/controllers/dashboard.controller.js:3 import it by name.
- `uploadOnCloudinary` is only a default export (src/utils/cloudinary.js:31),
  yet src/controllers/user.controller.js:4 and
  src/controllers/video.controller.js:7 import it by name.
  The modules that import by name would fail to link.
- src/routes/user.routes.js:2 imports `loginUser`, `logoutUser` and
  `refreshAccessToken`, which the user controller does not export.

- src/app.js mounts no router at all, so as shipped no handler is reachable
  over HTTP.

The model treats the handlers as if every module loaded and their routers
were mounted.

The Express version is not pinned either. `AsyncHandler.NoReply` is what
Express 4 does: when `res.status(error.code || 500)` is given a code that is
no HTTP status, the reply throws inside `asyncHandler`'s `catch`
(src/utils/asyncHandler.js:4-9), and the wrapper's promise rejects. Express 4
ignores that promise, and neither src/index.js nor src/app.js installs an
`unhandledRejection` handler. So the client gets nothing, and on Node 15 and
later the whole server process exits, dropping every request in flight.
Under Express 5 the router would instead pass the rejection on, and the
client would get a 500; that is not modelled.

The Mongoose version is not pinned by the repository, and two behaviours the
handlers rely on differ between versions:
- `document.remove()` (in `deleteVideo` and `deleteTweet`) exists up to
  Mongoose 6 and is gone from Mongoose 7. The model assumes Mongoose 6, where
  it deletes the document.
- Query filters with a field the schema does not declare, such as the like
  handlers' `user`: Mongoose 6 drops that field from the filter by default
  (`strictQuery` follows `strict`), Mongoose 7 keeps it. This is the
  parameter `strictQuery` of the like handlers. Mongoose 6's default is
  `true`, under which a like toggle deletes the first like on the target
  whoever gave it, and every requester is shown every like of the kind. See
  `LikeController.StrictQueryIgnoresRequester`.

## Model

| member | source | states |
|---|---|---|
| ApiErrors.Defaults | src/utils/ApiError.js:2-7 | With only a message, `statusCode` is "Some error occurred", `errors` is empty, `stack` is "" and `message` is the message's string form |
| ApiErrors.CallerConvention | src/utils/ApiError.js:2-4 | `new ApiError(code, text)` stores the code's decimal digits as `message` and the text as `statusCode`, and sets no `code`; the intended status is recoverable by `parseInt` of the message |
| ApiErrors.TextIsNotMessage | src/utils/ApiError.js:2-3 | The text a caller meant as the message never becomes `message` unless it equals the code's digits |
| AsyncHandler.WireStatus | src/utils/asyncHandler.js:5 | A non-zero numeric `code` is the status; an error with no `code` or code 0 is answered with 500 |
| AsyncHandler.Wrap | src/utils/asyncHandler.js:1-9 | A handler that wrote passes its reply through unchanged; a thrown error is answered exactly when its wire status is an HTTP status, and then with `success: false` and the error's message |
| AsyncHandler.WrapAnswered | src/utils/asyncHandler.js:5-8 | An error whose wire status is an HTTP status is answered with that status and `{success: false, message}` |
| AsyncHandler.ApiErrorAlways500 | src/utils/asyncHandler.js:5-8 | Every ApiError a handler throws is answered 500 with the code's digits as the message |
| AsyncHandler.WireMatchesIntentOnlyFor500 | src/utils/asyncHandler.js:5 | The wire status equals the intended one exactly when the intended one is 500 |
| AsyncHandler.DuplicateKeyNoReply | src/utils/asyncHandler.js:5 | A duplicate-key error (code 11000) gets no reply |
| AsyncHandler.CodelessErrorIs500 | src/utils/asyncHandler.js:4-8 | A reference or type error or a failed validation is answered 500 with its message |
| AuthMiddleware.ExtractToken | src/middlewares/auth.middleware.js:12 | A truthy cookie is the token; otherwise there is a token exactly when an Authorization header with a space is present (which word: `HeaderTokenIsSecondWord`) |
| AuthMiddleware.HeaderTokenIsSecondWord | src/middlewares/auth.middleware.js:12 | Without a usable cookie the token is the header's text after its first space, up to the next space or the end |
| AuthMiddleware.BearerHeaderToken | src/middlewares/auth.middleware.js:12 | Without a usable cookie, `Bearer <token>` yields exactly the token |
| AuthMiddleware.CookieWins | src/middlewares/auth.middleware.js:12 | A non-empty cookie is used whatever the header says |
| AuthMiddleware.ClaimedUser | src/middlewares/auth.middleware.js:20 | The user found has the id of the `_id` claim; nobody is found exactly when no stored user has that id |
| AuthMiddleware.Authenticate | src/middlewares/auth.middleware.js:12-29 | The request is rejected with the 401 exactly when there is no truthy token; it proceeds exactly when the token verifies and its `_id` names a stored user, whose public view is attached; otherwise it stalls |
| AuthMiddleware.NoTokenReply | src/middlewares/auth.middleware.js:14-16 | Without a token the 401 reaches the client as a 500 with message "401" |
| AuthMiddleware.AccessTokenStalls | src/middlewares/auth.middleware.js:19-20 | A token carrying only the claims `generateAccessToken` signs (plus `iat` and `exp`) never lets a request through |
| AuthMiddleware.KnownIdProceeds | src/middlewares/auth.middleware.js:19-26 | A verified token whose `_id` is a stored user's id lets the request through with that user, password and refresh token left out |
| AuthMiddleware.VerifyJwt | src/middlewares/auth.middleware.js:10-30 | On success `req.user` is set and `next` is called exactly once; a caught failure leaves the request untouched and unanswered; a missing token is answered through the wrapper |
| JsStrings.TrimStart | src/controllers/comment.controller.js:44 | The result is a suffix that starts with no white space, and what was dropped is all white space |
| JsStrings.TrimEnd | src/controllers/comment.controller.js:44 | The result is a prefix that ends with no white space, and what was dropped is all white space |
| JsStrings.TrimEmptyIffBlank | src/controllers/comment.controller.js:44 | `s.trim() === ""` holds exactly when `s` is white space only |
| JsStrings.TrimIdempotent | src/models/user.models.js:11 | Trimming twice is trimming once |
| JsStrings.Lower | src/models/user.models.js:10 | Lower-casing keeps the length and maps each character |
| JsStrings.LowerIdempotent | src/models/user.models.js:10 | Lower-casing twice is lower-casing once |
| JsStrings.TrimLowerCommute | src/models/user.models.js:10-11 | The `lowercase` and `trim` setters commute |
| JsStrings.SplitOn | src/middlewares/auth.middleware.js:12 | `split` gives at least one piece and no piece holds the separator |
| JsStrings.SplitJoin | src/middlewares/auth.middleware.js:12 | Joining the pieces of a split gives the string back |
| JsStrings.SecondWord | src/middlewares/auth.middleware.js:12 | `split(" ")[1]` exists exactly when the header holds a space, and holds no space (which piece it is: `SecondWordBetweenSpaces`, `SecondWordShape`) |
| JsStrings.SecondWordBetweenSpaces | src/middlewares/auth.middleware.js:12 | For `a + " " + w + b` with no space in `a` or `w` and `b` empty or starting with a space, the second word is `w` |
| JsStrings.SecondWordShape | src/middlewares/auth.middleware.js:12 | Every string with a space is `a + " " + w + b` of that shape, with `w` its second word |
| JsStrings.BearerSecondWord | src/middlewares/auth.middleware.js:12 | The second word of `scheme + " " + token` is the token |
| JsStrings.DecimalString | src/utils/ApiError.js:3 | `String(n)` is a non-empty string of decimal digits with no leading zero |
| JsStrings.ParseIntDecimalString | src/controllers/comment.controller.js:15-16 | `parseInt(String(n))` is `n` |
| JsStrings.ToNumberDecimalString | src/controllers/video.controller.js:39 | `Number(String(n))` is `n` |
| JsStrings.Utf16Length | src/models/tweet.models.js:7 | The JavaScript length of a string lies between its code point count and twice that |
| Ordering.SortBy | src/controllers/video.controller.js:38 | `sort` returns a permutation of its input, sorted in the requested direction |
| Ordering.InsertSorted | src/controllers/video.controller.js:38 | Inserting into a sorted sequence keeps it sorted |
| Ordering.SortAllTied | src/controllers/video.controller.js:38 | When every key ties, the stable sort keeps the input order |
| Ordering.AllTiedAnyOrderSorted | src/controllers/video.controller.js:38 | When every key ties, every order is sorted |
| Ordering.NewestFirst | src/controllers/dashboard.controller.js:40 | `sort({ createdAt: -1 })` is a permutation with the newest document first |
| Ordering.FindNewestFirst | src/controllers/tweet.controller.js:23-25 | `find(filter).sort({ createdAt: -1 })` returns exactly the documents the filter accepts, newest first |
| Paging.QueryInt | src/controllers/comment.controller.js:12-16 | An absent query parameter takes its default; a present one is `parseInt` of its text |
| Paging.QueryNumber | src/controllers/video.controller.js:11 | An absent query parameter takes its default; a present one is `Number` of its text |
| Paging.Skip | src/controllers/comment.controller.js:22 | `skip(n)` drops the first `n` documents and keeps the rest in order |
| Paging.Limit | src/controllers/comment.controller.js:23 | `limit(n)` keeps a prefix of `abs(n)` documents, or all of them for 0 |
| Paging.CeilDiv | src/controllers/comment.controller.js:30 | `Math.ceil(a / b)` is the least whole multiple bound: `(q - 1) * b < a <= q * b` for positive `b` |
| Paging.TotalPages | src/controllers/comment.controller.js:30 | The page count is undefined exactly for a zero limit, and is otherwise the ceiling of total over limit |
| Paging.Page | src/controllers/comment.controller.js:22-23 | A page is refused exactly when the skip `(page - 1) * limit` is negative |
| Paging.PageSlice | src/controllers/comment.controller.js:22-23 | A page is the run of documents that starts at the skip |
| Paging.PageContents | src/controllers/comment.controller.js:22-23 | With a positive limit and a page from 1 on, the page holds at most `limit` documents, each at its place after the skip |
| Paging.PageNonEmptyIff | src/controllers/comment.controller.js:22-30 | A page is non-empty exactly when its number is at most the page count |
| Paging.EveryDocumentOnSomePage | src/controllers/comment.controller.js:22-30 | Every document appears on page `j / limit + 1`, within the page count |
| Toggles.Toggle | src/controllers/subscription.controller.js:17-29 | A toggle creates exactly when nothing matches, appending the new document; otherwise it deletes the first match |
| Toggles.ToggleKeepsAtMostOne | src/controllers/subscription.controller.js:17-29 | A toggle keeps "at most one matching document" |
| Toggles.ToggleKeepsAtMostOneOther | src/controllers/subscription.controller.js:17-29 | A toggle keeps "at most one match" for any other filter the new document does not meet |
| Toggles.OthersUnchanged | src/controllers/like.controller.js:16-23 | Every document the toggle's filter rejects is kept, in order |
| Toggles.MatchCountChangesByOne | src/controllers/subscription.controller.js:17-29 | A toggle moves the number of matches from 0 to 1 or lowers it by one |
| Toggles.ToggleTwiceFromAbsent | src/controllers/subscription.controller.js:17-29 | Toggling twice from no match gives back the very same collection |
| Toggles.ToggleTwiceFromPresent | src/controllers/subscription.controller.js:17-29 | Toggling twice from one match deletes it and appends the new one, so the contents are the same multiset |
| Store.SavesKeepIdentity | src/models/video.models.js:49 | A document starts with `createdAt` equal to `updatedAt`; any run of saves at times that do not go back keeps its id and `createdAt`, ends at the last save's time and data, and never puts `updatedAt` before `createdAt` |
| Store.Db.CreateVideo | src/models/video.models.js:4-49 | `Video.create` stores a fresh document exactly when it validates, and otherwise changes nothing |
| Store.Db.CreateLike | src/models/like.models.js:4-25 | `Like.create` stores a fresh document exactly when it validates, and otherwise changes nothing |
| Store.Db.CreateSubscription | src/models/subscription.models.js:3-15 | `save` of a new subscription stores it exactly when it validates, and otherwise changes nothing |
| Store.Db.CreateTweet | src/models/tweet.models.js:3-15 | `save` of a new tweet stores it exactly when it validates, and otherwise changes nothing |
| Store.Db.CreateUser | src/models/user.models.js:5-53 | `User.create` refuses an invalid user, then a username or email clash with a duplicate-key error, and otherwise stores it |
| Store.Db.CreatePlaylist | src/controllers/playlist.controller.js:24-32 | `Playlist.create` appends a fresh document |
| Store.Db.CreateComment | src/controllers/comment.controller.js:55-59 | `Comment.create` appends a fresh document |
| UserModel.PublicDoc | src/middlewares/auth.middleware.js:20 | `select("-password -refreshToken")` keeps the id and timestamps |
| UserModel.PublicDocHidesOnlySecrets | src/middlewares/auth.middleware.js:20 | Two stored users look the same through the projection exactly when they differ in nothing but password and refresh token |
| UserModel.ApplySetters | src/models/user.models.js:6-27 | Assignment lower-cases and trims username and email, trims fullname, and changes no other field |
| UserModel.KeyFormOrderFree | src/models/user.models.js:10-11 | The username and email setters give the same value in either order, and applying them twice changes nothing more |
| UserModel.KeyFormAfterLower | src/controllers/user.controller.js:67 | Lower-casing the username before the setters changes nothing |
| UserModel.NewUser | src/models/user.models.js:5-53 | A new user has an empty watch history, a null refresh token and the given fields after their setters |
| UserModel.PreSaveRehashesOnlyWhenModified | src/models/user.models.js:55-61 | Saving replaces the password by its hash exactly when it was modified, and touches no other field |
| UserModel.SavedPasswordChecksAgainstHash | src/models/user.models.js:55-65 | After a save that modified the password, `isPasswordCorrect` compares the candidate with the password's hash; after one that did not, the check is unchanged |
| UserModel.AccessClaimKeys | src/models/user.models.js:67-69 | The access token carries the id under `id`, never `_id`, and for a valid user exactly `{id, email, username, fullname}` |
| UserModel.RefreshClaimKeys | src/models/user.models.js:71-73 | The refresh token carries exactly `{id}` |
| VideoModel.NewVideo | src/models/video.models.js:4-49 | A new video stores each given field as given, has 0 views and is published |
| VideoModel.NewVideoValidIff | src/models/video.models.js:5-40 | A new video validates exactly when its four strings are truthy and duration and owner are present |
| LikeModel.NewLike | src/controllers/like.controller.js:22 | The like a handler builds holds the user under `user` and the target in its field, and no `likedBy` |
| LikeModel.HandlerLikesInvalid | src/models/like.models.js:5-24 | No like a handler builds validates, and comment or tweet likes have no video |
| SubscriptionModel.NoPairUniqueness | src/models/subscription.models.js:3-15 | Any number of subscriptions for the same pair all validate |
| TweetModel.ContentLengthBounds | src/models/tweet.models.js:4-13 | Content of at most 140 code points always fits; content of more than 280 code points never does |
| PlaylistController.IndexOf | src/controllers/playlist.controller.js:125-131 | `indexOf` is -1 exactly when the video is absent, and otherwise the first position holding it |
| PlaylistController.RemoveFirstRemovesOne | src/controllers/playlist.controller.js:125-131 | `splice(indexOf(v), 1)` drops exactly the first occurrence, keeps the order of the rest, shortens the list by one, and keeps a duplicate-free list duplicate-free without `v` |
| PlaylistController.AppendKeepsNoDuplicates | src/controllers/playlist.controller.js:94-101 | Appending an absent video keeps the list duplicate-free |
| PlaylistController.AddThenRemoveRestores | src/controllers/playlist.controller.js:94-131 | Adding a video and then removing it gives the list back |
| PlaylistController.PatchOverwritesOnlyTruthy | src/controllers/playlist.controller.js:176-180 | The update overwrites only the truthy fields, keeps owner and videos, and is idempotent |
| PlaylistController.CreatePlaylist | src/controllers/playlist.controller.js:8-34 | 400 without a name, 409 if the requester has a playlist of that name, else one new playlist owned by the requester; names stay unique per owner |
| PlaylistController.GetUserPlaylists | src/controllers/playlist.controller.js:36-48 | 400 without a user id; otherwise exactly the user's playlists, newest first |
| PlaylistController.GetPlaylistById | src/controllers/playlist.controller.js:52-70 | 400 without an id, 404 for an unknown one, otherwise the playlist with that id |
| PlaylistController.AddVideoToPlaylist | src/controllers/playlist.controller.js:73-106 | 400, then 404 for the playlist, then the `Video` lookup (a ReferenceError as written, 404 when bound), then 409 for a present video; otherwise the video is appended and nothing else changes |
| PlaylistController.RemoveVideoFromPlaylist | src/controllers/playlist.controller.js:110-137 | 400, 404 for the playlist, 404 for an absent video; otherwise its first occurrence is removed and nothing else changes |
| PlaylistController.DeletePlaylist | src/controllers/playlist.controller.js:140-158 | 400, 404, otherwise exactly that playlist is removed and returned |
| PlaylistController.UpdatePlaylist | src/controllers/playlist.controller.js:161-189 | 400 without an id, 400 without a truthy field, 404, otherwise only the truthy fields are overwritten |
| LikeController.ToggleLike | src/controllers/like.controller.js:8-65 | 400 for an invalid id with no change; the first like the filter matches (the requester's on the target, or any on the target under `strictQuery`) is deleted with 200; otherwise the create fails validation and nothing changes |
| LikeController.LikeToggledAgainstIntended | src/controllers/like.controller.js:16-24 | With a like present the toggle is the intended one; without one, the intended toggle would add a like and the written one adds nothing |
| LikeController.LikeToggleNeverAdds | src/controllers/like.controller.js:16-24 | A toggle never adds a like, leaves all other likes as they were, and lowers the requester's likes on the target by one when there are any |
| LikeController.LikeToggleTwiceDoesNotRestore | src/controllers/like.controller.js:16-24 | Toggling twice from a like loses the like |
| LikeController.GetLiked | src/controllers/like.controller.js:68-98 | Exactly the likes whose field for the kind is set and that are the requester's (any requester's under `strictQuery`), as a multiset of the collection's matches |
| LikeController.StrictQueryIgnoresRequester | src/controllers/like.controller.js:16-19 | Under `strictQuery` the toggle and the listing are the same whoever asks, and the toggle deletes the first like on the target |
| SubscriptionController.NewSubscription | src/controllers/subscription.controller.js:24-27 | The new subscription validates and has the requester as subscriber and the channel |
| SubscriptionController.ToggleSubscription | src/controllers/subscription.controller.js:9-31 | 400 for an invalid id with no change; otherwise the pair's subscription is toggled: deleted with 200, or created with 201 |
| SubscriptionController.ToggleKeepsPairsUnique | src/controllers/subscription.controller.js:17-29 | A toggle keeps every (subscriber, channel) pair unique |
| SubscriptionController.ToggleTwice | src/controllers/subscription.controller.js:17-29 | Subscribing then unsubscribing restores the collection; unsubscribing then subscribing restores its contents |
| SubscriptionController.GetUserChannelSubscribers | src/controllers/subscription.controller.js:34-46 | 400 for an invalid id; otherwise exactly the subscriptions to the channel, each as often as stored |
| SubscriptionController.GetSubscribedChannels | src/controllers/subscription.controller.js:51-60 | 400 for an invalid id; otherwise exactly the subscriber's subscriptions, each as often as stored |
| CommentController.GetVideoComments | src/controllers/comment.controller.js:10-35 | A negative skip, and (on a server that checks them strictly) a NaN page or limit, is refused by the database; otherwise the page lists only the video's comments, newest first, with its total and `ceil(total / limit)` pages |
| CommentController.CommentsReply | src/controllers/comment.controller.js:19-33 | The same reply for page and limit already read |
| CommentController.CommentsOnPageReply | src/controllers/comment.controller.js:19-33 | With a positive limit and a page from 1 on, the reply is that page of the newest-first comments, with its page count |
| CommentController.ReadDecimal | src/controllers/comment.controller.js:15-16 | Decimal page and limit parameters are read as their values |
| CommentController.PageOfPositiveLimit | src/controllers/comment.controller.js:19-33 | The reply for a positive limit and a page from 1 on is that page |
| CommentController.VideoCommentsPageBounds | src/controllers/comment.controller.js:19-33 | A page holds at most `limit` comments and is non-empty exactly when it is within the page count |
| CommentController.EveryVideoCommentListed | src/controllers/comment.controller.js:19-33 | Every comment on the video is on some page within the page count |
| CommentController.AddComment | src/controllers/comment.controller.js:38-65 | 400 for blank content before any lookup, then the `Video` lookup (a ReferenceError as written, 404 when bound); otherwise one comment by the requester on the video |
| CommentController.UpdateComment | src/controllers/comment.controller.js:68-98 | 400, 404, a TypeError without an owner, 403 for another owner; otherwise only the content changes |
| CommentController.DeleteComment | src/controllers/comment.controller.js:101-122 | 404, a TypeError without an owner, 403 for another owner; otherwise exactly that comment is removed |
| VideoController.Joined | src/controllers/video.controller.js:16-22 | `$lookup` and `$unwind` keep at most the videos they were given |
| VideoController.JoinedOwnVideos | src/controllers/video.controller.js:16-37 | The requester's videos are all joined with the requester's user and projected, or all dropped if that user is gone |
| VideoController.Listed | src/controllers/video.controller.js:14-38 | The stages up to `$sort` give a permutation of the requester's joined videos, sorted on the field in the direction asked |
| VideoController.GetAllVideos | src/controllers/video.controller.js:10-49 | A TypeError without a user, then the database's refusal of a bad `sortBy` field path, then its refusal of a NaN or negative skip or a NaN limit, 404 when the skip passes the end; otherwise the run of at most `limit` videos after the skip |
| FieldPaths.PiecesError | src/controllers/video.controller.js:38 | A path is refused exactly when one of its pieces is, with one of the three field-path codes |
| FieldPaths.RefusedPaths | src/controllers/video.controller.js:38 | A piece starting with `$` (no DBRef name), a trailing dot and two dots in a row are refused |
| FieldPaths.TwoPieces | src/controllers/video.controller.js:38 | A path with one dot is refused exactly when one of its two pieces is, the left one deciding the error |
| VideoController.RefusedSortFieldNoReply | src/controllers/video.controller.js:38 | A refused `sortBy` leaves the client without a reply |
| VideoController.SortFieldsRefusedAndAccepted | src/controllers/video.controller.js:38 | `$title`, `title.` and `a..b` shapes of `sortBy` are refused; a nested field with good pieces is accepted |
| VideoController.DefaultSortFieldAccepted | src/controllers/video.controller.js:38 | The default field `createdAt` is accepted |
| VideoController.DefaultSortKeepsNaturalOrder | src/controllers/video.controller.js:23-38 | With no sort field, the sort on the removed `createdAt` keeps the join's order |
| VideoController.CreatedAtMissing | src/controllers/video.controller.js:23-38 | No projected video has a `createdAt` |
| VideoController.GetVideoById | src/controllers/video.controller.js:100-114 | 400 for an invalid id, 404 for an unknown one, otherwise the video with that id |
| VideoController.CreateVideo | src/controllers/video.controller.js:52-73 | 400 unless all four fields are truthy; otherwise the missing duration fails validation; nothing is ever stored |
| VideoController.PatchVideoKeepsValid | src/controllers/video.controller.js:132-134 | Only the truthy fields are overwritten, the patch is idempotent, and a valid video stays valid |
| VideoController.SaveVideo | src/controllers/video.controller.js:136 | `save` validates the whole document, then replaces it and moves `updatedAt` |
| VideoController.UpdateVideo | src/controllers/video.controller.js:117-142 | 400, 404, otherwise the patched video is saved |
| VideoController.DeleteVideo | src/controllers/video.controller.js:144-160 | 400, 404, otherwise exactly that video is removed |
| VideoController.FlipTwiceRestores | src/controllers/video.controller.js:174 | Flipping `isPublished` twice restores the video, and flipping always changes it and keeps validity |
| VideoController.ToggleVideoPublishStatus | src/controllers/video.controller.js:162-178 | 400, 404, otherwise `isPublished` is negated and saved |
| TweetController.CreateTweet | src/controllers/tweet.controller.js:8-19 | 400 without content, a validation failure over 280 UTF-16 units, otherwise one tweet by the requester |
| TweetController.GetUserTweets | src/controllers/tweet.controller.js:21-27 | Exactly the requester's tweets, each as often as stored, newest first |
| TweetController.UserTweetsIgnoreRouteUser | src/controllers/tweet.controller.js:22-23 | The reply does not depend on the user the route names |
| TweetController.NewContentValidIff | src/controllers/tweet.controller.js:39-40 | A tweet with new content validates exactly when the content is truthy and fits |
| TweetController.UpdateTweet | src/controllers/tweet.controller.js:29-42 | 400, 404, then any requester replaces the content if it validates |
| TweetController.DeleteTweet | src/controllers/tweet.controller.js:44-56 | 400, 404, then any requester removes the tweet |
| DashboardController.SumViewsAppend | src/controllers/dashboard.controller.js:16 | The views total of two lists is the sum of their totals |
| DashboardController.VideoIds | src/controllers/dashboard.controller.js:19 | `map(v => v._id)` keeps length and order |
| DashboardController.GetChannelStats | src/controllers/dashboard.controller.js:9-33 | The counts and sum are over the requester's videos, the likes on them and the subscriptions to the requester |
| DashboardController.LikeCountedIff | src/controllers/dashboard.controller.js:19-20 | A like is counted exactly when it is on one of the requester's videos |
| DashboardController.CountedLikeIsOnMine | src/controllers/dashboard.controller.js:19-20 | A counted like is on a video the requester owns |
| DashboardController.LikeOnMineIsCounted | src/controllers/dashboard.controller.js:19-20 | A like on a video the requester owns is counted |
| DashboardController.SubscriberCountAfterToggle | src/controllers/dashboard.controller.js:23 | A subscription toggle moves the channel's subscriber count by one, and other channels' counts not at all |
| DashboardController.LikeCountNeverRisesOnToggle | src/controllers/dashboard.controller.js:20 | A like toggle never raises a like count |
| DashboardController.StatsAfterOwnVideoDeleted | src/controllers/dashboard.controller.js:13-16 | Deleting one of the requester's videos lowers the video count by one and the views by that video's views |
| DashboardController.GetChannelVideos | src/controllers/dashboard.controller.js:36-45 | Exactly the requester's videos, each as often as stored, newest first |
| UserController.LookupCatchesEveryClash | src/controllers/user.controller.js:23-27 | When the lookup finds nobody, the unique indexes refuse nothing |
| UserController.UploadedFiles | src/controllers/user.controller.js:49-55 | The avatar is uploaded first, and the cover second exactly when it was given |
| UserController.RegisterUser | src/controllers/user.controller.js:7-84 | 400 for a given-but-blank field, 409 on a clash, 400 without an avatar path, all with no upload; then the uploads, and the user is refused or stored with a hashed password and returned without it |
| UserController.FinishRegistration | src/controllers/user.controller.js:57-82 | A failed avatar upload gives 400, a missing username a TypeError; otherwise the candidate is created or refused |
| UserController.CreateCandidate | src/controllers/user.controller.js:62-69 | An invalid user is refused with no change; a valid one is stored with its password hashed and returned without password or refresh token |

## Left out

- Uploads to Cloudinary, multer's disk storage and the file system: the upload is the parameter `upload`, returning an optional URL.
- Connecting to MongoDB and starting the server (src/db/index.js, src/index.js, src/app.js): process I/O. src/app.js mounts no router; the model takes the routers as mounted.
- Routes: only which handlers sit behind `verifyJwt` is used, as whether a requester id exists.
- Cryptography: `jwt.sign`, `jwt.verify`, `bcrypt.hash` and `bcrypt.compare` are parameters; there is no expiry clock.
- `isValidObjectId` and ObjectId casting are a parameter; a malformed id reaching `findById` is not modelled.
- `populate` and `select` projections of referenced documents: replies carry the stored documents.
- The `ApiResponse` envelope: src/utils/ApiResponse.js is not part of this model, so a successful reply is its status and data.
- The Playlist and Comment schemas: src/models/playlist.models.js and src/models/comment.models.js are not part of this model, so these documents are stored as the handlers build them, without validation.
- Mongoose's strict mode on writes: `Like.create` keeps the `user` field, where Mongoose would drop it. The create always fails validation, so no stored like differs.
- MongoDB's order among documents with equal sort keys: the sort is stable over insertion order.
- CommentController.GetVideoComments: assumes a MongoDB server that refuses a NaN skip or limit in `find`, as one `BadValue` error that gets no reply. A server that reads a NaN skip or limit as 0 would instead answer 200: for a NaN page, the first `limit` comments with `currentPage: null`; for a NaN limit, every comment from the skip on with `totalPages: null`. That reading is not modelled. (The aggregation stages of `getAllVideos` refuse NaN on every server version.)
- Numbers in documents: `views` and `duration` are JavaScript numbers but integers here, so a `null` or NaN `views` (which `video.views || 0` at src/controllers/dashboard.controller.js:16 reads as 0) and a fractional `duration` cannot be expressed.
- UserController.RegisterUser, UserController.FinishRegistration and UserController.CreateCandidate require `bcrypt.hash` never to return the empty string, which holds for bcrypt. The store's insert validates the user after hashing, whereas Mongoose validates before the `pre('save')` hook (src/models/user.models.js:55-61); with a non-empty hash both orders agree.
- Exact MongoDB error codes and messages: a refused skip or limit is one `BadValue` error, a duplicate key is code 11000, a refused field path is code 15998, 16410 or 16411 with a short message; the server's wording varies by version.
- Mongoose validation messages: a failed validation's message is `<Model> validation failed`; Mongoose goes on with `: <path>: <validator message>` for each failing path, so the 500 bodies of `CreateTweet`, `UpdateTweet`, `SaveVideo`, `ToggleLike` and `CodelessErrorIs500` carry shortened text.
- The process exit after a reply that throws (Express 4 on Node 15 and later): `NoReply` records only that nothing is sent; the crash and the requests it drops are outside the model, which runs each handler alone.
- `undefined` values inside query filters: treated as a match on a missing value.
- The re-read with `findById` after `User.create` in `registerUser`: it finds the stored user, so its 500 branch is not modelled.
- `remove()` on a document in `deleteVideo` and `deleteTweet` is modelled as deletion, as in Mongoose 6; under Mongoose 7 and later it is no function and both handlers would throw a TypeError after their checks.
- `publishAVideo`: no route reaches it.
- Login, logout and refresh-token rotation: their handlers are not in the user controller.
- Console logging, including the plaintext password log in `registerUser`.
- Concurrency: every handler runs alone, so the check-then-act races of the toggles and duplicate checks are not modelled.
- A save that changes nothing still moves `updatedAt`.
- JsStrings.Lower: maps only A-Z; the rest of Unicode case mapping is not modelled.
- JsStrings.ToNumber: covers white space around a signed decimal integer or a `0x` hexadecimal integer, and the blank string as 0; fractions, exponents, `Infinity`, `0b` and `0o` literals and a trailing dot (`5.`) read as NaN, where JavaScript's `Number` reads a number, so `getAllVideos` refuses some `page` values (`1.5`, `0b1`, `1.`) that JavaScript accepts.
