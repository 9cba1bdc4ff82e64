# cofix-backend handlers, modelled in Dafny

cofix-backend is an Express/PostgreSQL service for a coffee shop's site.
It handles accounts with reputation votes, news with likes and comments, a
drinks menu with reviews, a staff shift schedule, a small post board and
image uploads. Every handler checks the caller and the request body, then
runs one or two SQL statements.

This project models those decisions and state changes. Each group of tables
is a class over maps and sets keyed by row id. Each handler is a method that
answers with a `Status` (200, 201, 400, 401, 403, 404 or 500) and updates the
tables. The contracts state what the handler promises: its error cases, the
new state, and the invariants it keeps.

Modules:

- `Common` holds the shared vocabulary:
  - optional values, statuses and row ids;
  - JavaScript body values and their truthiness;
  - the authenticated caller (`req.user`) as an optional `Actor` record.
- `Policy` holds the inline authorization predicates:
  - the creator gate;
  - the staff gate (worker, manager, creator; admin excluded);
  - the news editor-or-author gate;
  - the comment and review moderation gate (owner by id, owner by name, or a privileged role).
- `Accounts` is the `users` record:
  - column defaults;
  - hash-on-create, with bcrypt modelled as an ideal digest;
  - password validation;
  - unique usernames and emails;
  - the rule that only `denisunderonov` may be creator, with the demotion that enforces it.
- `Auth` covers the token payload built by `generateToken`, the login lookup conditions, and the register/login reply.
- `Votes` is the reputation vote ledger:
  - the per-(voter, target) transition and the change it applies;
  - the vote sum of a user;
  - the proof that a vote keeps "reputation minus vote sum" constant for every user.
- `Users.UserDirectory` holds the `users` and `user_reputation_votes` tables. Its handlers are register, login, the vote and its status, and the creator's role, delete and reputation administration.
- `LikeSets` is the like toggle shared by news and posts. The `Posts.PostBoard` and `NewsInteractions.NewsSocial` tables use it.
- `Authorship` covers two things used by the like, comment and review handlers:
  - the caller id taken from the bearer token;
  - the display-name fallback chain: body, then token, then stored username, then "Аноним".
- `NewsInteractions.NewsSocial` holds news likes and comments.
- `DrinkInteractions.ReviewBook` holds drink reviews and the review count.
- `News.NewsTable` holds news items: creation, the COALESCE update and deletion.
- `Drinks.Menu` holds drinks: creation and the partial update built from the defined body fields. The SET-list builder is proved equal to a reference patch function.
- `Schedule.ShiftTable` holds staff shifts and the inclusive date-range query.
- `JsNumbers` models `parseInt(v, 10)` and `parseFloat(v)` on body values. A value with no numeric prefix gives `NaN`, and the statement it is written into fails.
- `Upload` covers four things:
  - the file-name sanitiser, a character-class replace;
  - the MIME whitelist and the 5 MB size limit (`5 * 1024 * 1024` bytes);
  - the stored name;
  - the public URL of an upload.

Conventions:

- A missing body key is `Undefined`, and JSON `null` is `Null`.
- Sequelize refuses a named replacement or a WHERE value that is `undefined`. The handler then answers from its catch block with 500. The model answers `ServerError` wherever a handler passes an absent field to a statement. Examples:
  - an absent `title` in `updateNews`;
  - a caller record without an id in `voteReputation`.
- A value Sequelize cannot write into a named replacement also fails the statement, and the handler answers 500 (`Common.Bindable`). A plain object cannot be escaped. An array is written as the comma-separated list of its elements, so it stands for one SQL value only when it has exactly one element, and then the row receives that element (`Common.Bound`). The model checks this for every body value a handler binds as given or as `v || null`.
- A `null` passed to `COALESCE` keeps the stored value.
- `users.reputation` is a PostgreSQL `integer`, a 32-bit value. A statement that would store a value outside that range fails, and the handler answers 500.
  - `voteReputation` writes the vote row first and credits the reputation in a second statement. When the credit overflows, the answer is 500 and the vote row stays. The target's "reputation minus vote sum" then moves by the change.
- Ids are unbounded integers, and one id has one spelling. `String(a) === String(b)` and `===` on ids are taken as id equality. The source compares spellings, which differs for account UUIDs (see "## Left out").
- The database's serial ids come from a counter in each class. The account UUID is a parameter of `Register`, and a colliding one fails the insert.
- Three things are parameters or inputs:
  - the random/time prefix of stored file names;
  - the host and forwarding headers of an upload;
  - a token's decoded claims.

The users table's invariant is `UniqueIdentities`, the unique constraints on username and email. It is kept by every method. The creator rule (`CreatorIsBootstrap`: only the bootstrap username is creator) is kept in two ways:

- Every method preserves it when it held before.
- A successful creator assignment re-establishes it outright: after it, the bootstrap account is the only creator. `updateUserRole` demotes other creators even in a table where the rule did not hold.

`deleteUser` refuses self-deletion by comparing the target with the caller's `userId` field only, as the source does.

`Users.RegistrationScenario` and `Users.VotingScenario` are worked examples. They call the handlers on small tables, and the verifier proves the statuses and replies their assertions name. They carry no contract of their own, so they have no row below.

## Model

| member | source | states |
|---|---|---|
| Common.ActorKey | src/controllers/userController.js:174 | the caller key is `id` when present, otherwise exactly `userId`; it is missing only when both are |
| Common.Bound | src/routes/post.js:127-131 | a bindable value is written as one value that is neither an array nor unbindable, a non-array is written as itself, and only `undefined` is written as `undefined` |
| Common.UnbindableValues | src/routes/post.js:127-131 | an object, an empty or two-element array and an array holding an object cannot be bound; text and null can, and a one-element array of text is written as the text |
| Common.SingletonBindsAsElement | src/routes/post.js:127-131 | a one-element array binds exactly when its element does (or is `undefined`), and is written as its element |
| Policy.IsCreator | src/controllers/adminController.js:32 | the creator gate: passing it implies a caller who is also staff, news editor and privileged |
| Policy.IsStaff | src/controllers/scheduleController.js:42-44 | the shift gate: a staff caller is privileged, and admin, user and guest callers are refused |
| Policy.CanManageNews | src/controllers/newsController.js:189 | admin and creator always pass; a row without author id passes only an editor role; no caller never passes |
| Policy.CanModerate | src/controllers/newsInteractionsController.js:143-149 | privileged roles always pass, no caller never passes, and a row with neither owner id nor name passes only a privileged role |
| Policy.AnonymousDenied | src/controllers/newsInteractionsController.js:143-149 | a missing caller passes none of the creator, staff, news and moderation gates |
| Policy.CreatorPassesEveryGate | src/controllers/drinkInteractionsController.js:96-101 | the creator passes the staff, news and moderation gates whoever owns the row |
| Policy.AdminIsNotStaff | src/controllers/scheduleController.js:42-44 | an admin may manage news and moderate, but is neither staff nor creator |
| Policy.ModerationWithoutRole | src/controllers/newsInteractionsController.js:143-149 | without a privileged role, deletion is allowed exactly for the owner by id or by non-empty name |
| Policy.NewsWithoutRole | src/controllers/newsController.js:188-191 | without admin/creator, news may be managed exactly by the caller whose id is the non-null author id |
| LikeSets.Toggle | src/controllers/newsInteractionsController.js:28-38 | the (item, user) pair's membership flips and every other pair keeps its membership |
| LikeSets.ToggleTwice | src/controllers/newsInteractionsController.js:23-38 | two toggles of the same pair restore the like set |
| LikeSets.ToggleCount | src/controllers/newsInteractionsController.js:40-45 | the item's like count moves by exactly one in the toggle's direction; other items' counts do not move |
| Votes.ParseDir | src/controllers/userController.js:183-185 | a direction is parsed exactly for the strings 'up' and 'down' |
| Votes.Transition | src/controllers/userController.js:193-220 | no row → insert, same direction → delete, other direction → flip; the change is exactly the change of the row's weight |
| Votes.FlipMovesByTwo | src/controllers/userController.js:206-212 | flipping a vote changes reputation by +2 (to up) or −2 (to down) |
| Votes.RepeatedVote | src/controllers/userController.js:198-205 | two identical votes from no vote or the same vote leave the row and reputation as they were |
| Votes.TallyAfterPut | src/controllers/userController.js:188-220 | rewriting one row changes only its target's vote sum, by the change of the row's weight |
| Votes.VoteKeepsBalance | src/controllers/userController.js:193-226 | after a vote each user's vote sum moves by exactly the reputation change credited to them |
| Accounts.Create | src/models/User.js:25-47 | a new account stores the hash of its password, role defaults to 'user', reputation to 0, no avatar |
| Accounts.ValidatePassword | src/models/User.js:49-51 | an account storing the digest of a password accepts exactly that password |
| Accounts.ValidatePasswordIff | src/models/User.js:49-51 | a created account validates exactly the password it was created with |
| Accounts.AtMostOneCreator | src/controllers/adminController.js:34-43 | under the role invariant there is at most one creator and it has the bootstrap username |
| Accounts.DemoteOtherCreators | src/controllers/adminController.js:40 | every creator other than the kept id becomes manager, every other row is unchanged |
| Accounts.PromotionKeepsInvariant | src/controllers/adminController.js:35-43 | demoting the others then promoting the bootstrap account makes it the sole creator and keeps uniqueness |
| Auth.GenerateToken | src/controllers/authController.js:8-13 | userId is `id`, else `userId`, else the argument; username and role appear exactly when truthy |
| Auth.AccountTokenIdentifies | src/controllers/authController.js:54 | a token for a stored account names its id and carries its non-empty username and role |
| Auth.LoginConditions | src/controllers/authController.js:84-86 | one condition per truthy field, username first; none when both are falsy |
| Auth.ReplyFor | src/controllers/authController.js:56-67 | the reply carries the token and the account's id, names, role, avatar and reputation |
| Users.RegisteredRole | src/controllers/authController.js:45-52 | the role asked for is creator exactly for the bootstrap username, otherwise the default applies |
| Users.LoginMatch | src/controllers/authController.js:84-92 | an account matching the given username or the given email is found; without both fields nothing matches |
| Users.Credit | src/controllers/userController.js:223-226 | only the target's reputation moves, by the change; a missing target changes nothing |
| Users.UserDirectory.Register | src/controllers/authController.js:19-76 | a duplicate username or email is 400 with nothing created; a missing username or email, or a missing password or colliding UUID for a free name, is 500; otherwise 201, and the account is created with the bootstrap role rule and reputation 0 |
| Users.UserDirectory.Login | src/controllers/authController.js:78-122 | 400 without username and email; 401 when nothing matches or the password fails; otherwise the matching account's reply |
| Users.UserDirectory.GetReputationStatus | src/controllers/userController.js:142-165 | 401 without caller; hasVoted holds exactly when the (caller, target) row exists, with its direction |
| Users.UserDirectory.VoteReputation | src/controllers/userController.js:168-255 | no caller is 401; self-vote and bad direction are 400 with no change; a caller with neither id nor userId is 500 with no change. Otherwise the (caller, target) row changes by the transition. The target is credited unless that leaves the 32-bit range; then the answer is 500 with the row kept and the target's balance moved by the change. On success, reputation minus vote sum is kept for every user and the reply reflects the new row |
| Users.UserDirectory.ApplyBallot | src/controllers/userController.js:193-220 | the (caller, target) row becomes the transition's row and the returned change is its weight change; accounts are untouched |
| Users.UserDirectory.DemoteOthers | src/controllers/adminController.js:40 | the row-by-row demotion ends in exactly the table where every other creator is manager |
| Users.UserDirectory.UpdateUserRole | src/controllers/adminController.js:23-51 | role outside the list is 400 before the 403 creator gate; creator only for the bootstrap account (else 400, missing 404), after which it is the sole creator; other roles change only the target's role |
| Users.UserDirectory.DeleteUser | src/controllers/adminController.js:54-87 | creator only (403); 400 exactly for the caller's own userId or the bootstrap account; 404 when absent; otherwise removes only the target |
| Users.UserDirectory.UpdateUserReputation | src/controllers/adminController.js:90-118 | creator only; a non-number is 400; a number outside the 32-bit range is 500; otherwise the reputation becomes exactly the value, 404 when absent |
| Authorship.ClaimedUserId | src/controllers/newsInteractionsController.js:14 | the caller id is `userId`, else `user.id`, else `id` (each fallback exactly), and missing without a verified token |
| Authorship.ClaimsOf | src/controllers/newsInteractionsController.js:13-14 | a verified payload decodes to its id claim and username, and a payload whose `userId` is no id decodes to no claims |
| Authorship.TokenName | src/controllers/newsInteractionsController.js:88-90 | the token's name is its non-empty `username`, else exactly the nested user's non-empty username, else missing |
| Authorship.StoredName | src/controllers/newsInteractionsController.js:99-106 | the stored name is the account's non-empty username, missing otherwise |
| Authorship.AuthorName | src/controllers/newsInteractionsController.js:81-108 | the name is the first non-empty of body, token and stored name, else "Аноним"; never empty |
| Authorship.ResolveAuthor | src/controllers/newsInteractionsController.js:79-108 | the reassignment sequence yields the claimed id and, for a caller with an id, exactly the fallback name |
| Authorship.IssuedTokenResolves | src/controllers/authController.js:8-13 | the decoded token `generateToken` issues for an account resolves to its id, and the author name is the body's, else the account's username, else the stored name or "Аноним" |
| NewsInteractions.NewsSocial.ToggleLike | src/controllers/newsInteractionsController.js:5-50 | 401 without caller id and no change; otherwise the pair flips, user_has_liked is "was not liked" and "is liked now", likes_count is the item's set size |
| NewsInteractions.NewsSocial.AddComment | src/controllers/newsInteractionsController.js:76-128 | 401 without caller id; a content or image URL Sequelize cannot bind (absent, an object, an array of other than one element) is 500; otherwise one comment with the fallback author name and the bound values is inserted under a fresh id |
| NewsInteractions.NewsSocial.DeleteComment | src/controllers/newsInteractionsController.js:131-157 | 404 unless the comment belongs to the news item; removed exactly when owner by id, by name or privileged, else 403 and kept |
| NewsInteractions.LikeTwiceRestores | src/controllers/newsInteractionsController.js:23-45 | two likes by one caller restore the set; the first reports the count one away from the original |
| DrinkInteractions.CountAfterInsert | src/controllers/drinkInteractionsController.js:61-80 | inserting a review under a fresh id adds one to its drink's count and no other |
| DrinkInteractions.CountAfterRemove | src/controllers/drinkInteractionsController.js:103 | removing a review takes one off its drink's count |
| DrinkInteractions.ReviewBook.AddReview | src/controllers/drinkInteractionsController.js:28-85 | a falsy rating is 400 before the 401 check. A rating `parseInt` cannot read, or a content Sequelize cannot bind, is 500. Otherwise one review is inserted with the parsed rating and the fallback name, and reviews_count is the previous count + 1 |
| DrinkInteractions.ReviewBook.DeleteReview | src/controllers/drinkInteractionsController.js:88-109 | 404 unless the review belongs to the drink; removed exactly when owner by id, by name or privileged |
| News.Coalesce | src/controllers/newsController.js:195-197 | the stored value is kept exactly when the new one is null or equal to it |
| News.Revise | src/controllers/newsController.js:193-203 | title, content and image URL are coalesced; author and author id are untouched |
| News.NullRevisionKeepsItem | src/controllers/newsController.js:193-203 | an update with every field null leaves the item unchanged |
| News.ReviseIdempotent | src/controllers/newsController.js:193-203 | repeating an update changes nothing further |
| News.NewsTable.CreateNews | src/controllers/newsController.js:118-142 | missing title/content is 400 before the 403 creator gate; a caller record without id or username, or a title, content or image URL Sequelize cannot bind, is 500; otherwise 201, and the row takes author and author id from the caller and image URL or null |
| News.NewsTable.CreateNewsWithUpload | src/controllers/newsController.js:145-175 | as createNews, including the 500 for a caller without id or username or an unbindable title or content, with image URL "/uploads/" + stored name when a file came, else null |
| News.NewsTable.UpdateNews | src/controllers/newsController.js:178-210 | 404 for a missing id, 403 unless editor or author, 500 when a field is absent or cannot be bound; otherwise only that row is revised by COALESCE of the bound values |
| News.NewsTable.DeleteNews | src/controllers/newsController.js:213-232 | 404 for a missing id, 403 unless editor or author, otherwise only that row is removed |
| Drinks.Patched | src/controllers/drinksController.js:139-151 | every undefined field keeps its column; every defined field is written (ingredients serialised) |
| Drinks.EmptyPatchKeepsDrink | src/controllers/drinksController.js:139-146 | a body defining no field would leave the row unchanged |
| Drinks.PushKeepsClause | src/controllers/drinksController.js:139-144 | each conditional push extends the SET list by exactly the next defined column, keeping the order |
| Drinks.PushIfDefined | src/controllers/drinksController.js:139-144 | one push adds the column's item exactly when its field is defined |
| Drinks.Apply | src/controllers/drinksController.js:148-151 | a column no SET item names keeps its value; a first item whose column is not named again is written |
| Drinks.ClauseComplete | src/controllers/drinksController.js:137-146 | the finished list names exactly the defined columns and is empty exactly when none is |
| Drinks.SetClause | src/controllers/drinksController.js:136-146 | the SET list holds exactly the defined fields, in the order name, description, price, category, image_url, ingredients |
| Drinks.ApplyOrdered | src/controllers/drinksController.js:148-151 | applying an ordered list writes each listed column with its value and leaves the others alone |
| Drinks.SetClauseMeetsPatch | src/controllers/drinksController.js:136-151 | applying the built SET list yields exactly the reference patched row |
| Drinks.BoundBody | src/controllers/drinksController.js:139-151 | the bound body defines exactly the fields the body defines; each written field is its bound value and the ingredients are kept for serialising |
| Drinks.ClauseBindsIff | src/controllers/drinksController.js:139-151 | the SET list binds exactly when every defined field other than the ingredients binds |
| Drinks.BoundClauseMeetsPatch | src/controllers/drinksController.js:139-155 | the bound SET list, applied to a row, equals the row patched with the bound body |
| Drinks.Menu.CreateDrink | src/controllers/drinksController.js:70-90 | missing name is 400 before the 403 creator gate; an absent description, or any inserted value Sequelize cannot bind, is 500; otherwise 201, and the row keeps truthy optional fields and serialises ingredients |
| Drinks.Menu.CreateDrinkWithUpload | src/controllers/drinksController.js:93-126 | missing name is 400 before the creator gate; a truthy price `parseFloat` cannot read, or an unbindable name, description or category, is 500; otherwise 201, with the image URL from the stored file |
| Drinks.Menu.UpdateDrink | src/controllers/drinksController.js:129-160 | creator only; no defined field is 400 with no change; a defined field Sequelize cannot bind is 500 before the 404; a missing id is 404; otherwise exactly the defined fields change, to their bound values |
| Drinks.Menu.DeleteDrink | src/controllers/drinksController.js:163-186 | creator only; a missing drink is 404; otherwise only that row is removed |
| JsNumbers.ParseIntPrefix | src/controllers/drinkInteractionsController.js:68 | `parseInt(s, 10)` reads a number exactly when a digit follows the white space and the sign |
| JsNumbers.DigitsThenTail | src/controllers/drinkInteractionsController.js:68 | digits followed by a non-digit parse as the value of the digits |
| JsNumbers.NegatedDigits | src/controllers/drinkInteractionsController.js:68 | a minus sign before a run of digits gives the negated value |
| JsNumbers.ParseIntOfNumber | src/controllers/drinkInteractionsController.js:68 | `parseInt(String(n), 10)` is `n` |
| JsNumbers.ParseInt | src/controllers/drinkInteractionsController.js:68 | a number reads as itself, a string by its prefix, an array by its first element; undefined, null, booleans and objects are `NaN` |
| JsNumbers.ParsesAsFloat | src/controllers/drinksController.js:115 | a number is finite; undefined, null, booleans and objects are `NaN` |
| JsNumbers.IntegerParsesAsFloat | src/controllers/drinksController.js:115 | whatever `parseInt` reads, `parseFloat` reads as a finite number too |
| JsNumbers.LeadingPoint | src/controllers/drinksController.js:115 | ".5" is a float but no integer, so the converse does not hold |
| Schedule.ShiftTable.GetSchedule | src/controllers/scheduleController.js:4-36 | both dates are required; the result is exactly the shifts dated within the range, both ends included |
| Schedule.ShiftTable.CreateShift | src/controllers/scheduleController.js:39-66 | staff only (admin excluded); the five fields are required (400); a caller with neither id nor userId, or a time, hours or notes value Sequelize cannot bind, is 500; otherwise 201, and created_by is the caller's id, else userId |
| Schedule.ShiftTable.UpdateShift | src/controllers/scheduleController.js:69-96 | staff only; an absent user, date, time or hours, or a value Sequelize cannot bind, is 500 before the 404; a missing id is 404; otherwise the row is rewritten from the bound body values |
| Schedule.ShiftTable.DeleteShift | src/controllers/scheduleController.js:99-114 | staff only; succeeds whether or not the id existed, and afterwards it does not |
| Schedule.CreatedShiftIsScheduled | src/controllers/scheduleController.js:12-29 | a newly created shift is returned by exactly the range queries that cover its date |
| Posts.PostBoard.ToggleLike | src/routes/post.js:65-115 | the liking user is always 1; the pair flips, no other user's like changes, the flag and count agree with the set |
| Posts.PostBoard.AddComment | src/routes/post.js:118-145 | a content Sequelize cannot bind (absent, an object, an array of other than one element) is 500; otherwise the comment is stored under "Аноним" with the bound content |
| Upload.Sanitize | src/middleware/upload.js:18 | same length; allowed characters kept in place, every other character becomes '_' |
| Upload.SanitizedIsSafe | src/middleware/upload.js:18 | every character of a sanitised name is in [A-Za-z0-9._-] |
| Upload.SafeNameUnchanged | src/middleware/upload.js:18 | a name of allowed characters only is left as it is |
| Upload.SanitizeIdempotent | src/middleware/upload.js:18 | sanitising twice is sanitising once |
| Upload.StoredFilename | src/middleware/upload.js:16-19 | the stored name is the unique prefix, '-', then the sanitised original name |
| Upload.AcceptFile | src/middleware/upload.js:25-28 | every accepted type is an `image/` type |
| Upload.AcceptedTypes | src/middleware/upload.js:6 | a file is accepted exactly for image/jpeg, image/png, image/webp and image/gif |
| Upload.Protocol | src/routes/uploads.js:14 | 'https' exactly when the request is secure or forwarded as https, else 'http' |
| Upload.UploadPath | src/routes/uploads.js:15 | the path is "/uploads/" followed by the file name |
| Upload.StoredImageUrl | src/controllers/newsController.js:154-157 | the image URL is "/uploads/" + stored name with a file, null without |
| Upload.PublicUrl | src/routes/uploads.js:15 | the URL is protocol, "://", host, then the upload path |
| Upload.UploadImage | src/routes/uploads.js:9-18 | no file is 400; a rejected type or oversize file is 500; otherwise 201 with the public URL and the stored name |
| Upload.UploadedUrlNamesStoredFile | src/routes/uploads.js:15-17 | an accepted upload's URL ends with the reported file name, whose tail is the sanitised original name |

## Left out

- The `protect` middleware (src/middleware/auth.js), JWT signing, verification and the 30-day expiry. The caller is an optional `Actor` input. The like, comment and review handlers see a token as its decoded claims, `None` when it is missing or does not verify. `protect` reads `decoded.user.id` while tokens carry a top-level `userId`; that mismatch is outside this model.
- bcrypt (cost 12) is an injective digest of the whole password. bcryptjs reads only the first 72 bytes of the UTF-8 encoding. So `validatePassword` also accepts any candidate that shares a longer password's first 72 bytes; `Accounts.ValidatePasswordIff` does not capture that truncation.
- Authorship.ClaimsOf: a payload whose `userId` claim is a whole record decodes to no claims, and the handlers then answer 401. The source would go on with an object as the caller id. `Auth.GenerateToken` issues such a payload for an argument with neither `id` nor `userId`.
- Avatar upload and deletion (file system), plus `getProfile` and `getUserById`, which are read queries.
- List and read handlers: `listUsers`, the news, drinks, comments and reviews listings, `getTemplates`, `getEmployees`. Their ordering, ILIKE search and LIMIT are left out, and so is the sample data returned for empty tables. `getSchedule` returns the set of matching shift ids, without ordering or joined user columns.
- The rating aggregate of `addReview` (`ROUND(AVG(...))`, `parseFloat`). Its reply's `rating` is not modelled; `reviews_count` is.
- DrinkInteractions.ReviewBook.AddReview: the `drink_reviews.rating` column's type and constraints are not modelled, because its migration is not part of this model. Any integer `parseInt` reads is stored.
- Drinks.Menu.CreateDrinkWithUpload: a truthy price is stored as received, not as the float `parseFloat` reads from it. A numeric prefix too large for a double (such as "1e400") reads as `Infinity`, which fails the insert in the source; the model accepts it.
- JsNumbers.ParseInt: it is exact on digit strings. JavaScript rounds values beyond 2^53 and gives `Infinity` beyond the double range. `String(n)` of a number of 10^21 or more uses exponent form. Neither is modelled.
- Numbers are integers only. A fractional reputation accepted by `updateUserReputation` is not representable.
- The `Date.now()`/`Math.random()` file-name prefix, which is the parameter `unique`. `NOW()` timestamps (`created_at`, `updated_at`) are not stored.
- Concurrent requests. Calls are sequential, so the read-then-write races in votes and like toggles are not represented.
- Foreign keys and cascades. Deleting a user, news item or drink leaves the dependent rows. Votes, likes, comments and reviews may name rows that do not exist.
- Column types and constraints other than the users' unique username and email and the range of `users.reputation`. A boolean or number bound into a text column, or text bound into the shift time and hours columns, meets PostgreSQL's casts and type checks, which are not modelled: the row receives the bound value. A `null` in `updateDrink` fields and in `updateShift`'s times, hours or notes is stored as given. `updateShift`'s user and date are optional ids and day numbers whose `None` means an absent key, so a JSON `null` there cannot be expressed. Shift dates are day numbers, so an unparseable date string is not represented.
- Username, email, password and `user_name` are optional strings. Other JSON types in those fields are not modelled.
- `Upload.Sanitize` works on Unicode characters. JavaScript's regular expression works on UTF-16 code units, so it turns a character outside the Basic Multilingual Plane into two underscores; the model turns it into one.
- Multer's disk write and the creation of the uploads directory. Multer errors reach Express's default error handler; the model takes that handler's answer to be 500.
- Upload.UploadImage: a file sent under a multipart field other than `image` makes `upload.single('image')` raise "Unexpected field", which Express answers with 500. The model's `file` input has no field name, so that request is the `None` case and answers 400.
- Users.UserDirectory.VoteReputation: `users.id` is a UUID column, and the self-vote guard compares the caller's id with the raw route parameter as strings. PostgreSQL's uuid input also accepts upper-case digits, braces and missing hyphens. A caller voting on another spelling of their own id passes the guard, and their own reputation is credited. The model has one spelling per id, so it answers 400 there; `NoSelfVotes` holds only under that abstraction.
- Users.UserDirectory.DeleteUser: the self-deletion guard compares `String(req.user.userId)` with the raw route parameter. Another spelling of the caller's own UUID passes it, and the caller's account is deleted unless it is the bootstrap account. The model answers 400 there.
- A route id its column rejects, such as `/api/admin/users/abc` or a non-numeric news, drink or shift id, makes the statement fail, so the source answers 500. Route ids in the model are always well-formed ids, so these requests cannot be expressed.
- News.NewsTable.UpdateNews: inside `COALESCE(:title, title)` an array of several values becomes extra COALESCE arguments, which PostgreSQL accepts (the first non-null one wins). The model treats every array of other than one element as unbindable and answers 500.
- JsNumbers.ParsesAsFloat: a numeric prefix beyond the double range (such as "1e400") reads as `Infinity` in the source, which is not a finite number; the model counts it as a number.
- Route wiring (src/routes/news.js, drinks.js, user.js, schedule.js, admin.js), src/index.js, the migration and seed scripts, and the database configuration.
