# Review site data core, in Dafny

This project models the data core of a Formula 1 race-review web application.
It has two parts.

- **The relational schema** (`backend/src/db/schema.ts`). There are seven tables: users, sessions, accounts, verifications, posts, race and race-review. The database enforces these rules on them:
  - unique user email, session token and race slug;
  - a unique (userId, raceId, reviewNumber) triple on reviews;
  - the `review_number_check` constraint, which keeps reviewNumber in 1..5;
  - foreign keys with `ON DELETE CASCADE` from sessions, accounts, posts and reviews to users, and from reviews to races;
  - column defaults;
  - the `varchar(255)` and `integer` column types.
- **Three request handlers** (`backend/src/index.ts`) over that store: `GET /api/users/:id`, `GET /api/posts` and `POST /api/posts`.

The files:

- `wrappers.dfy`: `Option` and `Result`.
- `sequences.dfy`: the generic facts about tables as sequences of rows:
  - `Filter`, which models deleting rows;
  - `Pairwise`, which states uniqueness;
  - the counting lemmas behind "at most one" and "at most five".
- `schema.dfy`: the model of the schema itself:
  - the row types and what an `INSERT` supplies;
  - the errors the database reports;
  - `Consistent`, which holds when every integrity rule holds;
  - for each table, the function that says which constraint an insert violates first;
  - the cascading deletes `WithoutUser` and `WithoutRace`;
  - the lemmas tying these together.
- `store.dfy`: the class `Database`. Its seven tables are `seq` fields. Its insert methods return either the stored row or the error. `DeleteUser` and `DeleteRace` cascade. Every method keeps `Valid()`, which is `Consistent` plus the freshness of ids. It also holds a worked scenario in which a review number is reused, then the next number is used, then a number out of range is tried.
- `api.dfy`: the handlers:
  - the profile and list handlers are functions over the store;
  - create-post is a method that inserts into it.

Modelling choices:

- **Session.** It is the user id that the authentication layer resolved, as an `Option<Uuid>`.
- **Storage failure.** The parameter `fault` models it. It may take either value, so both outcomes are covered.
- **Ids.** They are abstract. The store hands out a fresh one (`nextId`) on every successful insert. This stands for the random uuid default.
- **Order of checks.** When a row breaks several rules, the error follows the order Postgres checks in:
  - first the column types (`varchar(255)` length, `integer` range). A value longer than 255 characters is rejected only when a non-space character lies past the 255th. When only spaces lie past it, the value is cut to 255 characters and stored, and the unique check then applies to the cut value;
  - then NOT NULL and CHECK;
  - then the unique indexes;
  - the foreign-key triggers run last.
- **Nullable booleans.** `emailVerified` and `published` are nullable columns with a default, so they are `Option<bool>`:
  - an omitted value takes the default `false`;
  - an explicit `null` is stored as NULL.
- **`latestRace`.** It is `NOT NULL` with a default. An explicit `null` for it is rejected.

Facts of the code that a reader might not expect:

- The schema sets no range on `rating`. Only the `integer` width applies to it.
- A user delete also cascades to that user's posts.
- No handler reads or writes races or reviews. Races and reviews appear only through the schema's rules.
- The create-post handler turns every storage error into a 500. A constraint error gets no response code of its own.

## Model

| member | source | states |
|---|---|---|
| Schema.UserInsertError | backend/src/db/schema.ts:17 | A user insert can fail only because of `users_email_unique` |
| Schema.SessionInsertError | backend/src/db/schema.ts:28-31 | A duplicate token is always reported as the token's unique violation. The only other possible error is the foreign key to users |
| Schema.AccountInsertError | backend/src/db/schema.ts:41-43 | An account insert can fail only because of the foreign key to users |
| Schema.PostInsertError | backend/src/db/schema.ts:68-70 | A post insert can fail only because of the authorId foreign key |
| Schema.VarcharCut | backend/src/db/schema.ts:78-79 | The stored value of a `varchar(255)` column is a prefix of at most 255 characters, and a value that fits is stored as given |
| Schema.VarcharCutDropsOnlySpaces | backend/src/db/schema.ts:78-79 | A `varchar(255)` assignment is accepted exactly when the characters the cut drops are all spaces |
| Schema.PaddedValueIsCut | backend/src/db/schema.ts:78-79 | 255 characters followed only by spaces are accepted and stored as those 255 characters |
| Schema.RaceInsertError | backend/src/db/schema.ts:76-81 | A slug or name with a non-space character past the 255th is rejected as too long, and nothing else is. An explicit NULL for `latestRace` is rejected. So is a slug whose cut value is taken |
| Schema.ReviewInsertError | backend/src/db/schema.ts:83-110 | A reviewNumber outside 1..5 is rejected whatever the tables hold. Within the int32 range the rejection is the check violation. A taken (user, race, number) slot is rejected |
| Schema.UserAcceptedIffConsistent | backend/src/db/schema.ts:15-23 | With a fresh id, a user insert is accepted exactly when every integrity rule still holds after appending the row |
| Schema.SessionAcceptedIffConsistent | backend/src/db/schema.ts:26-36 | A session insert is accepted exactly when all rules hold afterwards: the token is unique and userId references a user |
| Schema.AccountAcceptedIffConsistent | backend/src/db/schema.ts:39-51 | An account insert is accepted exactly when all rules hold afterwards, which means userId references a user |
| Schema.VerificationKeepsConsistent | backend/src/db/schema.ts:54-61 | A verification with a fresh id always keeps every rule. The table has no foreign key and no unique column |
| Schema.PostAcceptedIffConsistent | backend/src/db/schema.ts:64-74 | A post insert is accepted exactly when all rules hold afterwards, which means authorId references a user |
| Schema.RaceAcceptedIffConsistent | backend/src/db/schema.ts:76-81 | A race insert is accepted exactly when slug and name have only spaces past the 255th character, `latestRace` is not NULL, and all rules hold after appending the row built from the cut values: the slug is unique and fits in 255 characters |
| Schema.ReviewAcceptedIffConsistent | backend/src/db/schema.ts:83-112 | A review insert is accepted exactly when all rules hold afterwards: the number is in 1..5, the triple is unique, the integers fit in 32 bits, and both foreign keys resolve |
| Schema.WithoutUser | backend/src/db/schema.ts:28-89 | Deleting a user removes exactly that user's row, sessions, accounts, posts and race reviews. Verifications and races are untouched |
| Schema.WithoutRace | backend/src/db/schema.ts:90-92 | Deleting a race removes exactly that race and the reviews whose raceId it is. Every other table is untouched |
| Schema.DeleteUserKeepsConsistent | backend/src/db/schema.ts:28-89 | The user cascade leaves no dangling reference and keeps every unique and check rule |
| Schema.DeleteRaceKeepsConsistent | backend/src/db/schema.ts:87-92 | The race cascade leaves no dangling reference and keeps every rule |
| Schema.DeleteMissingUserIsNoOp | backend/src/db/schema.ts:28-89 | Deleting a user id that no row has changes no table, because no row can reference it |
| Schema.DeleteMissingRaceIsNoOp | backend/src/db/schema.ts:90-92 | Deleting a race id that no row has changes no table |
| Schema.AtMostFiveReviews | backend/src/db/schema.ts:93-110 | In a consistent store a user has at most 5 reviews of a race. Their review numbers are pairwise distinct and lie in 1..5 |
| Schema.SlugIdentifiesRace | backend/src/db/schema.ts:78 | Looking up races by slug finds at most one |
| Schema.TokenIdentifiesSession | backend/src/db/schema.ts:31 | Looking up sessions by token finds at most one |
| Schema.EmailIdentifiesUser | backend/src/db/schema.ts:17 | Looking up users by email finds at most one |
| Schema.FindUser | backend/src/index.ts:107-117 | The `WHERE id = ? LIMIT 1` lookup returns a user row with that id, and returns nothing exactly when no row has it |
| Schema.FindUserIsTheUser | backend/src/db/schema.ts:16 | Because the id is a primary key, the row found is the only row with that id |
| Store.Database.constructor | backend/src/db/schema.ts:15-112 | The empty store satisfies every rule |
| Store.Database.InsertUser | backend/src/db/schema.ts:15-23 | Stores the row with `emailVerified` defaulting to false and a fresh id, or returns the constraint error and changes nothing. The store stays valid |
| Store.Database.InsertSession | backend/src/db/schema.ts:26-36 | Appends the session, or returns the token or foreign-key error and changes nothing. The store stays valid |
| Store.Database.InsertAccount | backend/src/db/schema.ts:39-51 | Appends the account, or returns the foreign-key error and changes nothing |
| Store.Database.InsertVerification | backend/src/db/schema.ts:54-61 | Always appends the verification with a fresh id |
| Store.Database.InsertPost | backend/src/db/schema.ts:64-74 | Appends the post with `published` defaulting to false, or returns the foreign-key error and changes nothing |
| Store.Database.InsertRace | backend/src/db/schema.ts:76-81 | Appends the race, with slug and name cut to 255 characters and `latestRace` defaulting to false. Otherwise it returns the length, NOT NULL or slug error and changes nothing |
| Store.Database.InsertRaceReview | backend/src/db/schema.ts:83-112 | Appends the review, or returns the first violated range, check, unique or foreign-key rule and changes nothing |
| Store.Database.DeleteUser | backend/src/db/schema.ts:28-89 | The new state is the user cascade of the old one. The result says whether the user existed. The store stays valid |
| Store.Database.DeleteRace | backend/src/db/schema.ts:90-92 | The new state is the race cascade of the old one. The result says whether the race existed |
| Api.GetUserProfile | backend/src/index.ts:92-127 | The checks run in order: no session gives 401, then another user's id gives 403, then a storage failure gives 500, then a missing row gives 404. Otherwise the reply is 200 with the id, email, name and avatar of a row with that id |
| Api.ProfileRejectionReadsNothing | backend/src/index.ts:92-104 | The 401 and 403 replies do not depend on the store or on storage failure |
| Api.OwnProfileIsOwnRow | backend/src/index.ts:106-123 | In a consistent store, asking for one's own profile returns the projection of one's own row |
| Api.Listing | backend/src/index.ts:35-49 | Each left-join row carries the post's columns, plus its author's id, name and email or no author when no user matches |
| Api.ListPosts | backend/src/index.ts:33-56 | A storage failure gives 500. Otherwise the reply is 200 with one row per post whose `published` is true, in table order, and nothing else |
| Api.ListedPostsHaveAuthors | backend/src/index.ts:42-49 | In a consistent store every listed post has its author. The foreign key rules out a null author |
| Api.CreatePost | backend/src/index.ts:59-89 | The checks run in order: no session gives 401, then an unreadable body gives 500, then a missing or empty title gives 400, and none of these inserts anything. Past those checks, every failure is exactly 500 "Failed to create post", whether storage failed or the insert was rejected, and nothing is inserted. On success the reply is 201 with the inserted row: a fresh id, the session user as author, and `published` false unless the body gives it |

## Left out

- Timestamps (`createdAt`, `updatedAt`, `defaultNow`) and the `expiresAt` columns are not modelled. So session validity by expiry is not modelled either.
- The uuid format is not modelled, and random uuid collisions are ignored. A profile request for a path id that is not a uuid always gets 403, because it cannot equal a session's user id.
- The ORM `relations(...)` blocks (`backend/src/db/schema.ts:115-156`) are left out. They add no rule beyond the foreign keys.
- `backend/src/db/migrate.ts` is left out. It only runs migrations.
- The server start-up, CORS, the welcome route, the mounted authentication routes and `/health` are left out. They are HTTP plumbing and a third-party library. Session resolution is an input.
- A failure of the session lookup itself is not modelled. It happens outside each handler's `try`.
- The frontend is left out. It is UI code over mock data.
- Updates are left out, because the core issues none.
- Plain deletes of sessions, accounts, posts, verifications and reviews are left out. No foreign key points at those tables, so such deletes cascade nowhere. `FilterPairwise` shows they keep every unique rule.
- Concurrency is not modelled. Each statement is one atomic method call.
- Rules the schema does not declare are not enforced: at most one latest race, unique (provider, providerAccountId), any rating range, and any review-numbering rule.
- Two Postgres `text` behaviours are not modelled. A NUL character in a `text` value is not rejected. The JSON body's `title`, `content` and `published` are assumed to have the expected JSON types, or to be missing or `null`.
- Api.ListPosts: returns rows in table order, where SQL promises no order.
