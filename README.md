# Jokes site core, modelled in Dafny

A model of the rule-governed core of the Express jokes site in
`src/index.js`, with the PostgreSQL store replaced by abstract state:

- **Voting** (`voting.dfy`): the `POST /like/:id` and `POST /dislike/:id`
  toggle handlers. The `joke_votes` table is unique on (user, joke), so it
  is a map from that pair to the stored `vote_type` text, held by the
  `VoteTable` class. Each handler refuses an anonymous session with 401,
  then undoes, switches or inserts the user's vote and reports the joke's
  like and dislike counts.
- **Auth** (`auth.dfy`): the session record and the `isAdmin` and
  `requireAuth` guards, including JavaScript truthiness of the user id
  (an absent id and the id 0 are both "not signed in").
- **Avatar** (`avatar.dfy`): the view-locals middleware, and the avatar
  computed from the username. It splits on a space, keeps the first
  character of each piece, joins and upper-cases. It is proved equal to a
  one-pass "first letter of every word" scan.
- **AdminDashboard** (`admin.dfy`): the `votesByJoke` loop of `/admin`,
  proved against a fold over the rows and against a per-joke reference
  definition of the likers and the dislikers.
- **Search** (`search.dfy`, with `jstext.dfy` for `trim` and
  `placeholders.dfy` for `$n` placeholders): the `/search` query builder.
  It grows the SQL text and the parameter list one non-blank filter at a
  time and keeps a running placeholder counter. The proofs show three
  things:
  - the placeholders of the final text are `$1 .. $n`, where n is the
    number of parameters;
  - each filter is applied exactly when its input is non-blank;
  - the SQL text depends on the filter values only through which of them
    are blank; the values themselves reach the database as parameters.

A case-insensitive category match was evidently intended in `/search`, as
`/category/:name` compares `LOWER` of both sides (src/index.js:152); the
search code compares with `=`, which is exact and case-sensitive, and the
model follows the code. The admin dashboard's
dictionary has an entry only for jokes that have at least one vote row,
including jokes whose rows are all of some other type; such jokes get an
empty entry.

## Model

| member | source | states |
|---|---|---|
| Auth.IsAdmin | src/index.js:76-81 | proceeds exactly when the session role is the string "admin"; otherwise answers 403 "Forbidden: Admins only", and never redirects |
| Auth.RequireAuth | src/index.js:555-559 | redirects to "/login" exactly when the session has no truthy user id; never answers with an error status |
| Auth.AnonymousIsRedirectedOrForbidden | src/index.js:76-81 | on every request that is neither signed in nor from an admin, `requireAuth` (src/index.js:555-559) redirects to the login page while `isAdmin` (src/index.js:76-81) answers 403 |
| Auth.AdminGuardIgnoresUserId | src/index.js:77 | `isAdmin` looks at the role only: removing the user id changes nothing, and the role "Admin" is refused |
| Voting.Toggled | src/index.js:230-244 | the toggled key is present afterwards exactly when it did not already hold the requested type; when present it holds that type; every other key keeps its presence and its value |
| Voting.ToggleCounts | src/index.js:247-250 | the requested type's count on the joke goes up by one, or down by one on an undo; the opposite count drops by one exactly on a switch; other jokes' counts do not move |
| Voting.ToggleTwice | src/index.js:230-233 | two identical toggles restore the table when the user had no vote or a vote of that type; from any other type they remove the user's row |
| Voting.ToggledWellTyped | src/index.js:236 | toggles keep every stored type among "like" and "dislike" |
| Voting.CountsPartitionVoters | src/index.js:247-248 | on a well-typed table, the like count plus the dislike count is the number of users with a vote on the joke |
| Voting.FirstLikeOnFreshJoke | src/index.js:238-250 | the first like on a joke with no votes reports 1 like and 0 dislikes; a second like by the same user reports 0 and 0 |
| Voting.VoteTable.Toggle | src/index.js:218-250 | an anonymous session gets Unauthorized and leaves the table unchanged; otherwise the table becomes `Toggled` of the old one and the reply holds the new counts of the joke |
| Voting.VoteTable.Like | src/index.js:217-255 | `POST /like/:id`: `Toggle` with the like kind |
| Voting.VoteTable.Dislike | src/index.js:283-319 | `POST /dislike/:id`: `Toggle` with the dislike kind |
| Voting.VoteTable.constructor | src/index.js:38-44 | the table holds whatever rows the database behind the pool already has, of any type |
| Voting.Count | src/index.js:247-248 | `SELECT COUNT(*)` of one joke's rows of one type; `ToggleCounts` and `CountsPartitionVoters` characterise it |
| Avatar.Split | src/index.js:89 | `split(" ")` yields at least one piece, no piece contains the separator, and joining the pieces with the separator gives back the input |
| Avatar.Initials | src/index.js:90-91 | the first character of each piece, an empty piece giving nothing; `InitialsAreWordStarts` characterises it on the pieces of a split |
| Avatar.AvatarOf | src/index.js:87-95 | no avatar without a non-empty username, else the upper-cased initials of its pieces; `AvatarIsUpperWordInitials` characterises it |
| Avatar.Upper | src/index.js:92 | upper-casing keeps the length and maps each character on its own |
| Avatar.InitialsAreWordStarts | src/index.js:89-91 | the first characters of the space-separated pieces, empty pieces giving nothing, are the characters that start a word in a left-to-right scan |
| Avatar.AvatarIsUpperWordInitials | src/index.js:87-95 | a non-empty username's avatar is the upper-cased word starts; it has no space and is never longer than the username |
| Avatar.TwoWordAvatar | src/index.js:87-95 | two words separated by one space give exactly their two upper-cased first letters |
| Avatar.DoubleSpaceAddsNothing | src/index.js:89-91 | a run of two spaces gives the same avatar as one space, because the empty piece between them contributes nothing |
| Avatar.ViewLocals | src/index.js:83-97 | a user id is shown exactly when `requireAuth` would proceed, and it is the session's; the role is the session's non-empty role or "user", so it is "admin" exactly when `isAdmin` would proceed; the username is shown exactly when the session's is non-empty; an avatar is shown exactly when a username is, and it is the one computed from the session's username |
| Avatar.ShownAvatarIsWordInitials | src/index.js:86-95 | the avatar a page shows is the upper-cased first letter of every word of the shown username |
| AdminDashboard.Place | src/index.js:533-535 | one `forEach` step: create the joke's entry if missing, then push the username onto the list its type names; `EntryAfterRow` characterises it |
| AdminDashboard.Grouped | src/index.js:532-536 | the dictionary after every row, in order; `GroupedKeys` and `GroupedEntries` characterise it |
| AdminDashboard.GroupedKeys | src/index.js:531-533 | the dictionary has an entry exactly for the jokes named by some row |
| AdminDashboard.GroupedEntries | src/index.js:532-536 | each entry's lists are the usernames of that joke's "like" rows and of its "dislike" rows, in row order; rows of other types are in no list |
| AdminDashboard.GroupVotes | src/index.js:530-536 | the loop yields the fold of the rows; its keys are the jokes with rows, and each entry holds the joke's likers and dislikers in row order |
| JsText.TrimStartDropsSpace | src/index.js:338 | `trim`'s leading pass drops only white space and leaves a suffix that is empty or starts with a non-space |
| JsText.TrimEndDropsSpace | src/index.js:338 | `trim`'s trailing pass drops only white space and leaves a prefix that is empty or ends with a non-space |
| JsText.Trim | src/index.js:338 | `trim`: the leading and then the trailing white space removed; `TrimStartDropsSpace`, `TrimEndDropsSpace` and `TrimEmptyIffAllSpace` characterise it |
| JsText.NonBlank | src/index.js:338 | the test `x && x.trim() !== ""`; `NonBlankIffHasNonSpace` characterises it |
| JsText.TrimEmptyIffAllSpace | src/index.js:338 | `trim` yields the empty string exactly when every character is JavaScript white space |
| JsText.NonBlankIffHasNonSpace | src/index.js:338 | a filter value passes `x && x.trim() !== ""` exactly when it is present and has a non-space character |
| SqlPlaceholders.DecimalReadsBack | src/index.js:339 | `${idx}` writes at least one digit, only digits, and they read back as idx |
| SqlPlaceholders.LeadingDigitsIsLongestDigitPrefix | src/index.js:339 | the digits after a `$` are the longest run of digits there |
| SqlPlaceholders.PlaceholdersAppend | src/index.js:339 | appending a text that does not start with a digit neither merges nor splits placeholders |
| SqlPlaceholders.Range | src/index.js:335 | the numbers from `first` on, ascending |
| Search.ParametersInOrder | src/index.js:340 | the i-th parameter is the one the i-th applied filter pushes |
| Search.Filters | src/index.js:337-349 | the filters a request applies, keyword first; `FiltersApplied` characterises it |
| Search.SearchQuery | src/index.js:328-351 | the final SQL text: the base SELECT, one condition per applied filter, the ordering; `SearchPlaceholdersMatchParams`, `SearchQueryIgnoresFilterValues` and `SearchQueryFramed` characterise it |
| Search.FiltersApplied | src/index.js:337-349 | the keyword filter comes first and is applied exactly when `q` is non-blank; the category filter comes last and is applied exactly when `category` is non-blank; nothing else is applied |
| Search.ConditionPlaceholder | src/index.js:339 | a condition starts with a space and holds exactly its own placeholder |
| Search.ConditionsPlaceholders | src/index.js:337-349 | the conditions of n filters numbered from `first` hold the placeholders first .. first+n-1, in order |
| Search.SearchPlaceholdersMatchParams | src/index.js:334-351 | the placeholders of the final text are exactly `$1 .. $n` in order, where n is the number of parameters |
| Search.SearchQueryIgnoresFilterValues | src/index.js:337-349 | the SQL text depends only on which filters are blank; the values reach the database as parameters |
| Search.SearchQueryFramed | src/index.js:328-351 | the query starts with the base SELECT text and ends with ` ORDER BY jokes.id DESC` |
| Search.BuildSearch | src/index.js:326-351 | the builder's text and parameters are the base text, the conditions of the applied filters and the ordering, and the parameters of those filters |

## Left out

- The PostgreSQL pool and every query it runs: the vote table is a map, and the SQL text is built but not executed.
- The startup admin bootstrap, bcrypt, `/register` and `/login`: external library calls and I/O.
- express-session, routing, middleware chaining and EJS rendering: the guards return what they decide instead of calling `next`, `res.status` or `res.redirect`.
- Random joke selection: it relies on `ORDER BY RANDOM()` and `Math.random`.
- The legacy `/jokes/:id/like` and `/jokes/:id/dislike` routes: they write a differently shaped `vote` column and an unconditional counter, and the toggle routes supersede them.
- `/delete/:id`, `/add`, `/logout` and `/category/:name`: thin store and session calls with no logic of their own.
- The error paths (`catch` answering 500, redirecting, or sending "Error loading admin dashboard"): store failures are not modelled.
- `req.params.id` is taken as an integer joke id; the text-to-integer conversion is left to the store and is not modelled.
- Voting.Count: node-pg returns `COUNT(*)` as a decimal string; the model reports a natural number.
- Search.BuildSearch: `q` and `category` are modelled as optional strings; a non-string value (an array from a repeated key, or an object from `?q[a]=b`), on which `trim` throws and the handler redirects to "/", is not modelled.
- AdminDashboard.GroupVotes: the rows are a parameter; the query that fetches them, and the `jokeIds.length > 0` test that skips it, are not modelled (with no jokes the rows are empty and so is the dictionary). JavaScript object keys are strings; the model keys the dictionary by the integer joke id.
- Avatar.AvatarOf: strings are sequences of Unicode scalar values, while `n[0]` takes a UTF-16 code unit; a piece that starts with a character outside the Basic Multilingual Plane keeps that whole character in the model, where the site takes only its high surrogate.
- Avatar.AvatarIsUpperWordInitials: its length bound counts Unicode scalar values, not UTF-16 code units.
- Voting.VoteTable.Toggle: each handler is modelled as one atomic step, while the site runs the SELECT, the write and the two COUNTs as four separate queries with no transaction. The model does not capture interleavings: two concurrent first likes by one user both insert, and the second fails on the (user, joke) uniqueness with a 500; and the reported counts may include other requests' writes or come from two different states.
- Avatar.Upper: `toUpperCase` is modelled on the ASCII letters only; full Unicode case mapping (such as "ß" to "SS") is not modelled.
