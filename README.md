# A model of the odysee-api backend

This project is a Dafny model of the request handlers and services of
odysee-api, a Flask/SQLAlchemy backend for a video-sharing site. The model
covers these parts:

- the like/dislike toggle on videos;
- the three-step registration over a Redis-style cache (`register` mails a
  token, `verify` trades it for a registry token, `create` inserts the user);
- login;
- the content lifecycle: uploading a video with its thumbnail and tags,
  reading it, deleting it;
- comments and tags;
- the profile handlers;
- the request validators.

The model has one abstract application state, split over three objects:

- `Database` holds four tables as maps: users, videos, comments and tags.
  A video's tags, likes and dislikes are sets.
- `KeyValueCache` maps keys to values with a time to live.
- `BlobStorage` is the set of live file ids.

Every service or handler is a method over these objects. Each method states
its complete new state, and every method that writes keeps the store
invariant `Consistent`. That invariant covers unique emails and usernames,
every foreign key, and the rule that a user never both likes and dislikes
the same video. Pure queries and validators are functions.

Everything random or external is a parameter of the operation that uses it:

- generated UUIDs and tokens;
- the bcrypt salt;
- the descriptors the storage returns for an upload;
- whether a mail is sent;
- whether a commit or a storage delete succeeds.

A request parameter that must be a UUID arrives as a `PathId`, which is
either `Parsed(id)` or `Unparsable(text)`. Querying a UUID column with
unparsable text raises, as it does against Postgres.

Handlers return their HTTP status code. Services return an `Outcome`:
either a value, a `ValueError` with its reason, or any other exception.

The model keeps the behaviour the code has, including these cases:

- Files uploaded for a video stay in storage when tag validation then
  fails.
- The registry token is never removed from the cache.
- Deleting a missing comment answers 403.
- Reading an existing video commits the extra view and then fails with 500,
  because the response reads a `duration` attribute that `Video` does not
  declare.
- An upload form without a description passes the schema, and the handler
  then fails on the missing key with 500.
- Every failure of `write_comment` answers 500.
- Renaming a tag does not check for duplicate titles.
- `delete-me` deletes nothing, and it answers 500 for any user some video, comment, reaction or short refers to, because the response serializer follows relationships in a cycle.
- Deleting a missing video answers 500, not 404.

## Model

| member | source | states |
|---|---|---|
| `Store.Lookup` | app/lib/utils.py:3-7 | a cached value is returned exactly when the key is present with a non-empty value; an absent or empty value reads as nothing |
| `Domain.Encode` | app/services/auth_service.py:7-10 | the stored digest is made from the password and a fresh salt |
| `Domain.CheckPw` | app/services/auth_service.py:52 | a password matches a digest exactly when the digest was made from it |
| `Domain.EncodeThenCheck` | app/services/auth_service.py:7-10 | a digest accepts the password it was made from, whatever the salt, and no other password |
| `Store.KeyValueCache.Get` | app/lib/utils.py:3-7 | a cache read returns what `Lookup` gives for the current entries, and changes nothing |
| `Store.KeyValueCache.Set` | app/routes/auth_route.py:43 | a `set` with an expiry replaces exactly that key's entry |
| `Store.KeyValueCache.Delete` | app/routes/auth_route.py:82 | a `delete` removes exactly that key |
| `Store.KeyValueCache.Expire` | app/routes/auth_route.py:83 | an entry whose time to live has passed disappears, and nothing else changes |
| `Store.BlobStorage.Upload` | app/services/video_service.py:42-46 | an upload adds exactly the fresh file id the storage hands out |
| `Store.BlobStorage.DeleteFile` | app/services/video_service.py:164-165 | a storage delete removes exactly that file id |
| `Uploads.RFind` | app/services/video_service.py:27 | the index found holds the character and no later index does; -1 when the character does not occur |
| `Uploads.Extension` | app/services/video_service.py:27 | the extension `os.path.splitext` gives is a suffix of the name that starts at a dot with no dot or slash after it and a non-dot before it in the last path component; it is empty exactly when no such dot exists |
| `Uploads.ExtensionFound` | app/services/video_service.py:27 | the last dot after the last slash, with a non-dot before it, starts an extension |
| `Uploads.NoExtension` | app/services/video_service.py:27 | when that dot is missing, no position starts an extension |
| `Uploads.Accepted` | app/services/video_service.py:27-37 | a file part is accepted when it is present, has a non-empty name and an extension in the allowed set |
| `Schemas.UsernameMatchesRegex` | app/schemas.py:16-22 | the username predicate accepts exactly what `^[a-zA-Z0-9_]+$` matches under Python's `re.match`, including one trailing newline |
| `Schemas.ValidatorBoundaries` | app/schemas.py:13-54 | the length bounds of the validators: passwords from 8 characters, tag titles 3 to 20, comments 1 to 256, optional update fields, and the username character class |
| `Schemas.ValidUsername` | app/schemas.py:16-22 | a username of one or more letters, digits and underscores, with one trailing newline let through as `$` does |
| `Schemas.ValidPassword` | app/schemas.py:23-28 | a password of at least 8 characters |
| `Schemas.ValidUserUpdate` | app/schemas.py:38-41 | each present update field within its bounds: names of 1 to 40 characters, a cover of at least 1 |
| `Schemas.ValidContentForm` | app/schemas.py:44-49 | a present title of 10 to 80 characters, a description of 10 to 255 when present, and tags that all parse as UUIDs |
| `Schemas.ValidTagTitle` | app/schemas.py:50-51 | a tag title of 3 to 20 characters |
| `Schemas.ValidCommentText` | app/schemas.py:53-54 | a comment text of 1 to 256 characters |
| `Schemas.ValidContentFitsColumns` | app/models.py:71-72 | every content form the schema accepts has a title, fits the 255-character video columns, and names its tags by parsed ids |
| `Schemas.UsernameHasNoLengthLimit` | app/models.py:40 | the username rule has no length bound, so a 46-character name passes the schema although the column holds 45 |
| `ReactionsService.LikeToggled` | app/services/reactions_service.py:21-34 | a like toggle flips the user's like; afterwards the user is not in both sets; an existing like leaves the dislikes alone; other users and other fields are untouched |
| `ReactionsService.DislikeToggled` | app/services/reactions_service.py:49-68 | the same for a dislike toggle, with the two sets exchanged |
| `ReactionsService.DislikeMirrorsLike` | app/services/reactions_service.py:42-73 | `toggle_dislike` is `toggle_like` applied with the like and dislike sets swapped |
| `ReactionsService.DoubleLikeToggle` | app/services/reactions_service.py:21-34 | two like toggles restore the user's like; a user who only disliked ends in neither set |
| `ReactionsService.LikeToggleCounts` | app/services/reactions_service.py:21-34 | one toggle moves the like count by exactly one, and the dislike count down by one only when a dislike is withdrawn |
| `ReactionsService.ClicksKeepExclusive` | app/services/reactions_service.py:8-73 | any sequence of toggles by any users keeps likes and dislikes disjoint and changes no other field |
| `ReactionsService.ToggleLike` | app/services/reactions_service.py:8-39 | a missing video or user reports not found and changes nothing; a refused commit rolls back; otherwise only that video's reactions change, as `LikeToggled` says, and the result reports the new like |
| `ReactionsService.ToggleDislike` | app/services/reactions_service.py:42-73 | the same for dislikes |
| `ReactionsService.GetLikedAndDislikedUsers` | app/services/reactions_service.py:76-103 | a missing video gives an error; the counts are the sizes of the two sets; the flags are membership of the given user, both false without one, never both true |
| `ReactionsService.ReactionScenario` | app/services/reactions_service.py:8-103 | like, dislike, dislike by one user on a fresh video read (1, 0), (0, 1), (0, 0) |
| `AuthService.AddUserKeepsConsistent` | app/models.py:39-40 | inserting a user whose email and username are free keeps the store consistent |
| `AuthService.RegisterUser` | app/services/auth_service.py:15-45 | the insert succeeds exactly when email and username are free, the values fit their columns and the store accepts; then exactly one user is added, with the hashed password, cover "none" and the given image; otherwise nothing changes |
| `AuthService.EmailTaken` | app/models.py:39 | some user row already has the email, the condition the unique column refuses |
| `AuthService.UsernameTaken` | app/models.py:40 | some user row already has the username, the condition the unique column refuses |
| `AuthService.FitsColumns` | app/models.py:39-45 | email, username and both names are within their column widths of 80, 45, 40 and 40 |
| `AuthService.NewUser` | app/services/auth_service.py:26-34 | the row `register_user` builds: the hashed password, the given names and image, and the cover "none" |
| `AuthService.InsertAccepted` | app/services/auth_service.py:36-38 | the insert commits exactly when the email and username are free, the values fit their columns and the store accepts |
| `AuthService.InsertMarksTaken` | app/services/auth_service.py:26-38 | inserting a row under a fresh id takes exactly its email and its username in addition to those already taken |
| `AuthService.Login` | app/services/auth_service.py:47-56 | false when no user has the email; otherwise the password check against that user's digest |
| `AuthService.RegisteredUserCanLogIn` | app/services/auth_service.py:15-56 | a user just inserted can log in with the password they chose |
| `AuthRoute.Register` | app/routes/auth_route.py:32-59 | a registered email gets 403 with no cache write and no mail; otherwise `token:<t>` is bound to the email for 600 s before the mail, which carries the token; a failed send answers 500 and the entry stays |
| `AuthRoute.VerifyUser` | app/routes/auth_route.py:62-98 | 403 and no change unless the token's entry holds the email; otherwise the token entry is deleted, the email is bound to the new registry token for 600 s, and that token is returned |
| `AuthRoute.CreateUser` | app/routes/auth_route.py:100-197 | the schema, registry token and file checks each answer 400 before any upload or insert; a refused insert answers 500 and deletes the uploaded file; otherwise exactly the new user is added (201); the cache is never written, so the registry token stays valid |
| `AuthRoute.LoginUser` | app/routes/auth_route.py:199-239 | 200 exactly when some user has the email and the password matches; 401 otherwise |
| `AuthRoute.CheckAuth` | app/routes/auth_route.py:263-268 | the status is true exactly when a cookie named `refresh_token_cookie` is sent; its value is never read |
| `AuthRoute.CheckAuthIgnoresToken` | app/routes/auth_route.py:263-268 | any value of the refresh cookie, forged, expired or empty, reads as logged in, the same as a valid one; without that cookie the status is false |
| `AuthRoute.RegisterVerifyCreate` | app/routes/auth_route.py:43-130 | verifying with the mailed token succeeds, and create then accepts the registry token it handed out |
| `AuthRoute.VerifyIsSingleUse` | app/routes/auth_route.py:70-83 | after a successful verify the token is refused for every email, the one it was mailed to included |
| `AuthRoute.ExpiredTokenRefused` | app/routes/auth_route.py:70-130 | once the token entry has expired no email verifies with it, once the email entry has expired no registry token creates the account, and every other entry reads as before |
| `AuthRoute.RegistrationScenario` | app/routes/auth_route.py:32-130 | register, a wrong verify, the right verify, then create: the cache holds what each step promises, and the email then counts as registered |
| `VideoService.CheckUploadFiles` | app/services/video_service.py:18-37 | the files pass exactly when both parts are present, named and of an allowed type; a missing video part is reported first, then a missing thumbnail part; the video is checked before the thumbnail; a type error names the extension found |
| `VideoService.NewVideo` | app/services/video_service.py:69-82 | a new video has no views and no reactions; its owner is the caller and its tags are the requested ones |
| `VideoService.AddVideoKeepsConsistent` | app/models.py:63-90 | inserting a video whose owner and tags exist keeps the store consistent |
| `VideoService.UploadVideo` | app/services/video_service.py:15-88 | file errors come before any upload; both files are then uploaded; missing tags raise with exactly the missing ids and leave both files in storage; a refused commit or a missing owner inserts nothing; otherwise exactly the new row is added |
| `VideoService.Viewed` | app/services/video_service.py:120 | a read adds one view and changes nothing else |
| `VideoService.ViewsAddUp` | app/services/video_service.py:118-121 | n reads add exactly n views |
| `VideoService.ViewKeepsConsistent` | app/services/video_service.py:118-121 | counting a view keeps the store consistent |
| `VideoService.GetVideoById` | app/services/video_service.py:117-139 | an unparsable id raises; a missing video gives `None` and changes nothing; a found video's view is counted and committed, and then the call raises |
| `VideoService.VideoExists` | app/services/video_service.py:141-149 | true exactly when the id parses and names a video |
| `VideoService.CheckEligibility` | app/services/video_service.py:152-158 | for an existing video, whether its owner is the caller; otherwise the call raises |
| `VideoService.WithoutVideo` | app/models.py:88-90 | deleting a video removes exactly it and the comments on it; every other row is kept |
| `VideoService.DeleteVideoKeepsConsistent` | app/models.py:88-90 | deleting a video keeps the store consistent |
| `VideoService.DeleteContent` | app/services/video_service.py:161-168 | both of the video's files and the row (with its comments) are deleted; a missing video changes nothing; an unparsable id raises |
| `VideoRoute.ParsedIds` | app/routes/video_route.py:17 | the requested tag ids are exactly the ids of the parsed form tags |
| `VideoRoute.UploadContent` | app/routes/video_route.py:10-57 | a schema failure answers 400; a missing description answers 500; file and tag errors answer 400; a refused insert answers 500; only a 200 adds a row, owned by the caller |
| `VideoRoute.GetVideo` | app/routes/video_route.py:74-97 | a missing video answers 404 with no counter change; an existing one has its view counted and answers 500 |
| `VideoRoute.DeleteVideo` | app/routes/video_route.py:99-118 | a missing or unparsable id answers 500 (the `NotFoundError` falls into the catch-all handler) and nothing changes; ownership second (403), nothing changing either; the owner's delete removes the video, its comments and its two files (200) |
| `CommentService.AddCommentKeepsConsistent` | app/models.py:93-106 | inserting a comment whose video and author exist keeps the store consistent |
| `CommentService.CreateComment` | app/services/comment_service.py:8-16 | exactly one comment with the given text, video and author is inserted, and only when both foreign keys hold and the commit succeeds; otherwise the call raises and nothing changes |
| `CommentService.IsVideoAvailable` | app/services/comment_service.py:27-34 | true exactly when a video has the id; an unparsable id raises |
| `CommentService.CheckingUserEligibility` | app/services/comment_service.py:36-61 | true exactly when the comment exists and the caller wrote it; a missing comment or an unparsable id gives false |
| `CommentService.GetComments` | app/services/comment_service.py:65-78 | exactly the comments whose video is the given one |
| `CommentService.DeleteComment` | app/services/comment_service.py:80-87 | reports whether the comment existed and removes exactly it |
| `CommentService.WrittenCommentIsListed` | app/services/comment_service.py:8-78 | a comment just written is listed under its video with its text |
| `CommentService.DeletedCommentIsNotListed` | app/services/comment_service.py:65-87 | a deleted comment is listed under no video |
| `CommentService.DeletedVideoHasNoComments` | app/services/comment_service.py:65-78 | after a video is deleted, no comment is listed under it |
| `CommentRoute.WriteComment` | app/routes/comment_route.py:8-24 | 200 exactly when the text is valid, the video and the caller exist and the commit succeeds, and then exactly that comment is added; every failure answers 500 and changes nothing |
| `CommentRoute.DeleteComment` | app/routes/comment_route.py:26-47 | anyone but the author, and any request for a missing comment, gets 403 and nothing changes; the author's delete removes exactly the comment (200) |
| `CommentRoute.GetVideoComments` | app/routes/comment_route.py:50-66 | 500 for an unparsable id, 404 for a missing video, otherwise 200 with exactly that video's comments |
| `CommentRoute.WriteThenList` | app/routes/comment_route.py:8-66 | a written comment shows in the listing of its video, and disappears once deleted |
| `TagsService.AddTagKeepsConsistent` | app/models.py:108-115 | adding or renaming a tag keeps the store consistent |
| `TagsService.CreateTag` | app/services/tags_service.py:7-14 | exactly one tag with the title is added, and the title then exists |
| `TagsService.TagExists` | app/services/tags_service.py:16-20 | some tag has exactly the title |
| `TagsService.TagExistsIffListed` | app/services/tags_service.py:16-30 | a title exists exactly when the tag listing holds a pair with that title |
| `TagsService.AllTags` | app/services/tags_service.py:23-29 | every tag is listed once, with its title |
| `TagsService.PairsCount` | app/services/tags_service.py:28-29 | the listing has as many entries as there are tags |
| `TagsService.GetTagById` | app/services/tags_service.py:32-36 | the tag when the id names one, `None` otherwise; an unparsable id raises |
| `TagsService.UpdateTag` | app/services/tags_service.py:40-47 | only that tag's title changes; a missing tag changes nothing |
| `TagsService.WithoutTag` | app/models.py:23-28 | deleting a tag removes exactly it, and it disappears from every video's tags |
| `TagsService.DeleteTagKeepsConsistent` | app/models.py:23-28 | deleting a tag keeps the store consistent |
| `TagsService.DeleteTag` | app/services/tags_service.py:50-55 | only that tag goes, with its video associations; a missing tag changes nothing |
| `TagsRoute.Create` | app/routes/tags_route.py:9-36 | 201 exactly when the title is valid and no tag has it, and then exactly that tag is added; otherwise 400 and nothing changes; unique titles stay unique |
| `TagsRoute.UpdateTag` | app/routes/tags_route.py:52-76 | 400 for an invalid title, 500 for an unparsable id, 404 for a missing tag, otherwise the rename (200) |
| `TagsRoute.DeleteTag` | app/routes/tags_route.py:78-91 | 500 for an unparsable id, 404 for a missing tag, otherwise the delete (200) |
| `TagsRoute.CreateKeepsTitlesUnique` | app/routes/tags_route.py:17-21 | creating a title no tag has keeps titles unique |
| `TagsRoute.UpdateCanDuplicateTitles` | app/routes/tags_route.py:60-64 | a rename can give two tags the same title |
| `UserService.GetMe` | app/services/user_service.py:8-23 | `None` for a missing user; otherwise the user's id, email, names, username, image and cover |
| `UserService.GetMeHidesPassword` | app/services/user_service.py:12-22 | the result does not depend on the password digest |
| `UserService.ReplaceUserKeepsConsistent` | app/models.py:39-45 | rewriting a user's other fields keeps the store consistent |
| `UserService.SetProfileImg` | app/services/user_service.py:26-37 | sets only that user's `profile_img`; raises and changes nothing for a missing user or a refused commit |
| `UserService.UploadImage` | app/services/user_service.py:26-30 | sets only the user's `profile_img` to the given descriptor |
| `UserService.DeleteProfileImg` | app/services/user_service.py:33-37 | sets only the user's `profile_img` to the given descriptor |
| `UserService.ProfileImgWriteIsRead` | app/services/user_service.py:8-37 | after an image write the profile read shows the new image and every other field as before |
| `UserRoute.ApplyUpdate` | app/routes/user_route.py:71-76 | exactly the fields present in the request are replaced; all others are kept |
| `UserRoute.UpdateIsIdempotent` | app/routes/user_route.py:71-76 | applying an update twice equals applying it once |
| `UserRoute.ValidUpdateFitsColumns` | app/routes/user_route.py:66-79 | an update the schema accepts keeps the row within its column widths |
| `UserRoute.UpdateUser` | app/routes/user_route.py:59-109 | 404 for a missing user, 400 for a refused body, 500 for a refused commit, and nothing changes on any of them; otherwise the present fields are written (200) |
| `UserRoute.StaleImage` | app/routes/user_route.py:157-164 | the old image is deleted only when there is one, it is not the default, and its deletion succeeds |
| `UserRoute.UploadProfileImg` | app/routes/user_route.py:112-197 | 404 for a missing user; 400 for a missing, unnamed or wrongly typed file, before any upload; otherwise the file is uploaded and a non-default old image deleted, a failed old-image delete is ignored, and the new image is stored (200); a refused commit deletes the new file again (500) |
| `UserRoute.DeleteProfileImg` | app/routes/user_route.py:198-234 | 500 for a missing user or a missing image; 400 for the default image; otherwise the file is deleted and the default descriptor stored (200) |
| `UserRoute.DeleteMe` | app/routes/user_route.py:236-249 | 404 for a missing user; 500 exactly when some video, comment, reaction or short refers to the user, because the serializer recurses without end; 200 only for a user no row refers to; nothing is deleted in any case |
| `UserRoute.HasRelatedRows` | app/utils/serialize_data.py:16-26 | some relationship of the user is non-empty: an owned video, a written comment, a like, a dislike or a short |
| `UserRoute.DeleteMeFreshThenOwner` | app/routes/user_route.py:236-249 | in a consistent store a just-inserted user is referred to by nothing and gets 200; once it owns a video the same request answers 500 |
| `UserRoute.GetUser` | app/routes/user_route.py:17-56 | 404 for a missing user, otherwise 200 with the profile read |

## Left out

- Email syntax (`fields.Email`) is not checked. Every form field the schemas mark as required is present in the model's requests, except those whose absence changes the outcome: the tag title, the comment text and the content title may be absent, and the request is then refused. The content description is optional (app/schemas.py:47); it may be absent too, and the upload handler then fails on the missing key with 500.
- The text forms of UUIDs are abstracted. A parameter arrives already parsed (`PathId`), and ids compare as canonical strings.
- app/constants.py is not part of this model. `VIDEO_FILE_TYPES` and `IMAGE_FILE_TYPES` are parameters.
- These are not modelled: the random file names, base64 encoding, upload folders, and the storage metadata (duration, height, width). A missing metadata key counts as a refused commit.
- Storage uploads always succeed. Storage deletes succeed, except in the two handlers that catch a failed delete: the old-image delete of the profile upload and the profile image delete. The profile upload's cleanup delete of the new file after a failed commit (app/routes/user_route.py:180-183, 190-193) also catches a failure; the model assumes that delete succeeds.
- The `SQLAlchemyError` path of `get_liked_and_disliked_users` (app/services/reactions_service.py:105-107), which answers an error dictionary, is not modelled: reads never fail in the model.
- Commits of tag writes, comment deletes and video deletes never fail in the model. Every other commit takes a `commitOk` or `storeOk` parameter that says whether it succeeds.
- Timestamps, JSON response shaping, and the message texts are not modelled. This includes the `capitalize()` of extensions.
- JWT creation and decoding, cookies, and the `refresh` and `logout` handlers are not modelled. The caller's identity is a parameter.
- Mail content is not modelled beyond the token it carries. This includes the HTML template and its 10-minute text.
- `views` is an unbounded natural number. The 32-bit overflow of the Postgres integer column is not modelled.
- `get_all` for videos (app/services/video_service.py:91-114) and its handler are not modelled. They only shape JSON.
- `UserService.delete_me` (app/services/user_service.py:39-46) is not modelled, because no handler calls it.
- app/routes/reactions_route.py is not modelled. It only maps statuses around the service.
- Domain.CheckPw: does not model bcrypt's truncation of the password to its first 72 bytes; in the source two passwords that share those 72 bytes both match the digest, while the model accepts only the exact password.
- `is_user_available` (app/services/comment_service.py:18-25) is not modelled, because no handler calls it.
- Concurrency is not modelled. Each operation runs atomically, one after another.
- Cache expiry is an explicit `Expire` step, with no clock.
