/**
 * The relational schema of the review site: seven tables (users, sessions,
 * accounts, verifications, posts, race, race-review), their rows, and the
 * integrity rules the database enforces on them: unique columns, the range
 * check on review numbers, foreign keys with ON DELETE CASCADE, the length of
 * varchar(255) columns, the width of integer columns and column defaults.
 */
module Schema {
  import opened Wrappers
  import opened Sequences

  /** A row identifier (a uuid the database draws at random); only its identity matters. */
  type Uuid = nat

  /** The declared length of the race table's varchar columns. */
  const VarcharLength: nat := 255
  /** The bounds of a Postgres `integer` column. */
  const Int32Min: int := -0x8000_0000
  const Int32Max: int := 0x7fff_ffff
  /** The range the review_number_check constraint allows. */
  const FirstReviewNumber: int := 1
  const LastReviewNumber: int := 5

  predicate IsInt32(x: int) { Int32Min <= x <= Int32Max }

  /** What an INSERT supplies for a column that has a default: nothing, an explicit NULL, or a value. */
  datatype Input<T> = Omitted | Null | Given(v: T)

  /** The stored value of a nullable column with a default. */
  function ColumnValue<T>(i: Input<T>, default: T): Option<T>
  {
    match i
    case Omitted => Some(default)
    case Null => None
    case Given(v) => Some(v)
  }

  // ----- Rows (timestamps and expiry columns are not modelled) -----

  datatype User = User(id: Uuid, email: string, emailVerified: Option<bool>, name: Option<string>, avatar: Option<string>)
  datatype Session = Session(id: Uuid, userId: Uuid, token: string, ipAddress: Option<string>, userAgent: Option<string>)
  datatype Account = Account(id: Uuid, userId: Uuid, provider: string, providerAccountId: string,
                             accessToken: Option<string>, refreshToken: Option<string>)
  datatype Verification = Verification(id: Uuid, identifier: string, value: string)
  datatype Post = Post(id: Uuid, title: string, content: Option<string>, authorId: Uuid, published: Option<bool>)
  datatype Race = Race(id: Uuid, slug: string, name: string, latestRace: bool)
  datatype RaceReview = RaceReview(id: Uuid, userId: Uuid, raceId: Uuid, reviewNumber: int, rating: int, comment: Option<string>)

  // ----- What an INSERT supplies (the id is always left to its default) -----

  datatype NewUser = NewUser(email: string, emailVerified: Input<bool>, name: Option<string>, avatar: Option<string>)
  datatype NewSession = NewSession(userId: Uuid, token: string, ipAddress: Option<string>, userAgent: Option<string>)
  datatype NewAccount = NewAccount(userId: Uuid, provider: string, providerAccountId: string,
                                   accessToken: Option<string>, refreshToken: Option<string>)
  datatype NewVerification = NewVerification(identifier: string, value: string)
  datatype NewPost = NewPost(title: string, content: Option<string>, authorId: Uuid, published: Input<bool>)
  datatype NewRace = NewRace(slug: string, name: string, latestRace: Input<bool>)
  datatype NewRaceReview = NewRaceReview(userId: Uuid, raceId: Uuid, reviewNumber: int, rating: int, comment: Option<string>)

  function UserRow(n: NewUser, id: Uuid): User
  {
    User(id, n.email, ColumnValue(n.emailVerified, false), n.name, n.avatar)
  }

  function SessionRow(n: NewSession, id: Uuid): Session
  {
    Session(id, n.userId, n.token, n.ipAddress, n.userAgent)
  }

  function AccountRow(n: NewAccount, id: Uuid): Account
  {
    Account(id, n.userId, n.provider, n.providerAccountId, n.accessToken, n.refreshToken)
  }

  function VerificationRow(n: NewVerification, id: Uuid): Verification
  {
    Verification(id, n.identifier, n.value)
  }

  function PostRow(n: NewPost, id: Uuid): Post
  {
    Post(id, n.title, n.content, n.authorId, ColumnValue(n.published, false))
  }

  /**
   * Assigning `s` to a varchar(255) column succeeds exactly when nothing but
   * spaces lies past the 255th character.
   */
  predicate VarcharAccepts(s: string)
  {
    forall i :: VarcharLength <= i < |s| ==> s[i] == ' '
  }

  /** The value a varchar(255) column stores for `s`: its first 255 characters. */
  function VarcharCut(s: string): (r: string)
    ensures |r| <= VarcharLength && r <= s
    ensures |s| <= VarcharLength ==> r == s
  {
    if |s| <= VarcharLength then s else s[..VarcharLength]
  }

  function Spaces(k: nat): (r: string)
    ensures |r| == k && forall i :: 0 <= i < k ==> r[i] == ' '
  {
    seq(k, _ => ' ')
  }

  /** An assignment is accepted exactly when the cut drops only spaces: padding the stored value back gives `s`. */
  lemma VarcharCutDropsOnlySpaces(s: string)
    ensures VarcharAccepts(s) <==> s == VarcharCut(s) + Spaces(|s| - |VarcharCut(s)|)
  {
  }

  /** A 255-character value followed only by spaces is accepted and stored as those 255 characters. */
  lemma PaddedValueIsCut(s: string, k: nat)
    requires |s| == VarcharLength
    ensures VarcharAccepts(s + Spaces(k)) && VarcharCut(s + Spaces(k)) == s
  {
  }

  /** latestRace is NOT NULL; an explicit NULL is rejected before a row is built. */
  function RaceRow(n: NewRace, id: Uuid): Race
  {
    Race(id, VarcharCut(n.slug), VarcharCut(n.name), if n.latestRace.Given? then n.latestRace.v else false)
  }

  function ReviewRow(n: NewRaceReview, id: Uuid): RaceReview
  {
    RaceReview(id, n.userId, n.raceId, n.reviewNumber, n.rating, n.comment)
  }

  // ----- Errors the database reports -----

  /** The named constraints of the schema. */
  datatype Constraint =
    | UsersEmailUnique | SessionsTokenUnique | RaceSlugUnique | UserRaceReviewNumber
    | ReviewNumberCheck
    | SessionsUserFk | AccountsUserFk | PostsAuthorFk | ReviewUserFk | ReviewRaceFk

  datatype Column = RaceSlug | RaceName | RaceLatestRace | ReviewNumber | ReviewRating

  datatype DbError =
    | UniqueViolation(constraint: Constraint)
    | CheckViolation(constraint: Constraint)
    | ForeignKeyViolation(constraint: Constraint)
    | NotNullViolation(column: Column)
    | NumericOutOfRange(column: Column)
    | StringTooLong(column: Column)

  // ----- The whole store as a value -----

  datatype Tables = Tables(users: seq<User>, sessions: seq<Session>, accounts: seq<Account>,
                           verifications: seq<Verification>, posts: seq<Post>, races: seq<Race>,
                           raceReviews: seq<RaceReview>)

  const Empty := Tables([], [], [], [], [], [], [])

  function UserIds(us: seq<User>): set<Uuid> { set u | u in us :: u.id }
  function RaceIds(rs: seq<Race>): set<Uuid> { set r | r in rs :: r.id }

  /** Two rows of one table may coexist: distinct primary keys and distinct unique columns. */
  predicate UsersDiffer(a: User, b: User) { a.id != b.id && a.email != b.email }
  predicate SessionsDiffer(a: Session, b: Session) { a.id != b.id && a.token != b.token }
  predicate AccountsDiffer(a: Account, b: Account) { a.id != b.id }
  predicate VerificationsDiffer(a: Verification, b: Verification) { a.id != b.id }
  predicate PostsDiffer(a: Post, b: Post) { a.id != b.id }
  predicate RacesDiffer(a: Race, b: Race) { a.id != b.id && a.slug != b.slug }
  predicate ReviewsDiffer(a: RaceReview, b: RaceReview)
  {
    a.id != b.id && (a.userId != b.userId || a.raceId != b.raceId || a.reviewNumber != b.reviewNumber)
  }

  /** The column types and the check constraint of one row. */
  predicate RaceRowOk(r: Race) { |r.slug| <= VarcharLength && |r.name| <= VarcharLength }
  predicate ReviewRowOk(r: RaceReview)
  {
    IsInt32(r.reviewNumber) && IsInt32(r.rating) && FirstReviewNumber <= r.reviewNumber <= LastReviewNumber
  }

  predicate UsersOk(users: seq<User>) { Pairwise(users, UsersDiffer) }

  predicate SessionsOk(users: seq<User>, sessions: seq<Session>)
  {
    Pairwise(sessions, SessionsDiffer) && forall s :: s in sessions ==> s.userId in UserIds(users)
  }

  predicate AccountsOk(users: seq<User>, accounts: seq<Account>)
  {
    Pairwise(accounts, AccountsDiffer) && forall a :: a in accounts ==> a.userId in UserIds(users)
  }

  predicate VerificationsOk(verifications: seq<Verification>) { Pairwise(verifications, VerificationsDiffer) }

  predicate PostsOk(users: seq<User>, posts: seq<Post>)
  {
    Pairwise(posts, PostsDiffer) && forall p :: p in posts ==> p.authorId in UserIds(users)
  }

  predicate RacesOk(races: seq<Race>)
  {
    Pairwise(races, RacesDiffer) && forall r :: r in races ==> RaceRowOk(r)
  }

  predicate ReviewsOk(users: seq<User>, races: seq<Race>, reviews: seq<RaceReview>)
  {
    && Pairwise(reviews, ReviewsDiffer)
    && (forall r :: r in reviews ==> ReviewRowOk(r))
    && (forall r :: r in reviews ==> r.userId in UserIds(users) && r.raceId in RaceIds(races))
  }

  /** Every integrity rule of the schema holds. */
  predicate Consistent(t: Tables)
  {
    && UsersOk(t.users)
    && SessionsOk(t.users, t.sessions)
    && AccountsOk(t.users, t.accounts)
    && VerificationsOk(t.verifications)
    && PostsOk(t.users, t.posts)
    && RacesOk(t.races)
    && ReviewsOk(t.users, t.races, t.raceReviews)
  }

  /** No row of any table uses `id` yet. */
  predicate IdUnused(t: Tables, id: Uuid)
  {
    && (forall r :: r in t.users ==> r.id != id)
    && (forall r :: r in t.sessions ==> r.id != id)
    && (forall r :: r in t.accounts ==> r.id != id)
    && (forall r :: r in t.verifications ==> r.id != id)
    && (forall r :: r in t.posts ==> r.id != id)
    && (forall r :: r in t.races ==> r.id != id)
    && (forall r :: r in t.raceReviews ==> r.id != id)
  }

  /** Every id in use is below `n`, so `n` and everything above it are still free. */
  predicate IdsBelow(t: Tables, n: Uuid)
  {
    && (forall r :: r in t.users ==> r.id < n)
    && (forall r :: r in t.sessions ==> r.id < n)
    && (forall r :: r in t.accounts ==> r.id < n)
    && (forall r :: r in t.verifications ==> r.id < n)
    && (forall r :: r in t.posts ==> r.id < n)
    && (forall r :: r in t.races ==> r.id < n)
    && (forall r :: r in t.raceReviews ==> r.id < n)
  }

  // ----- Which constraint an INSERT violates first -----
  // Postgres coerces values to the column types (varchar length, integer width),
  // then checks NOT NULL and CHECK constraints, then unique indexes, and runs the
  // foreign-key triggers last.

  predicate EmailTaken(users: seq<User>, email: string) { exists u :: u in users && u.email == email }
  predicate TokenTaken(sessions: seq<Session>, token: string) { exists s :: s in sessions && s.token == token }
  predicate SlugTaken(races: seq<Race>, slug: string) { exists r :: r in races && r.slug == slug }
  predicate SlotTaken(reviews: seq<RaceReview>, userId: Uuid, raceId: Uuid, n: int)
  {
    exists r :: r in reviews && r.userId == userId && r.raceId == raceId && r.reviewNumber == n
  }

  function UserInsertError(t: Tables, n: NewUser): (e: Option<DbError>)
    ensures e.None? || e == Some(UniqueViolation(UsersEmailUnique))
  {
    if EmailTaken(t.users, n.email) then Some(UniqueViolation(UsersEmailUnique)) else None
  }

  function SessionInsertError(t: Tables, n: NewSession): (e: Option<DbError>)
    ensures TokenTaken(t.sessions, n.token) ==> e == Some(UniqueViolation(SessionsTokenUnique))
    ensures e.None? || e == Some(UniqueViolation(SessionsTokenUnique)) || e == Some(ForeignKeyViolation(SessionsUserFk))
  {
    if TokenTaken(t.sessions, n.token) then Some(UniqueViolation(SessionsTokenUnique))
    else if n.userId !in UserIds(t.users) then Some(ForeignKeyViolation(SessionsUserFk))
    else None
  }

  function AccountInsertError(t: Tables, n: NewAccount): (e: Option<DbError>)
    ensures e.None? || e == Some(ForeignKeyViolation(AccountsUserFk))
  {
    if n.userId !in UserIds(t.users) then Some(ForeignKeyViolation(AccountsUserFk)) else None
  }

  function PostInsertError(t: Tables, n: NewPost): (e: Option<DbError>)
    ensures e.None? || e == Some(ForeignKeyViolation(PostsAuthorFk))
  {
    if n.authorId !in UserIds(t.users) then Some(ForeignKeyViolation(PostsAuthorFk)) else None
  }

  function RaceInsertError(t: Tables, n: NewRace): (e: Option<DbError>)
    ensures !VarcharAccepts(n.slug) ==> e == Some(StringTooLong(RaceSlug))
    ensures (e.Some? && e.value.StringTooLong?) <==> !VarcharAccepts(n.slug) || !VarcharAccepts(n.name)
    ensures n.latestRace.Null? ==> e.Some?
    ensures SlugTaken(t.races, VarcharCut(n.slug)) ==> e.Some?
  {
    if !VarcharAccepts(n.slug) then Some(StringTooLong(RaceSlug))
    else if !VarcharAccepts(n.name) then Some(StringTooLong(RaceName))
    else if n.latestRace.Null? then Some(NotNullViolation(RaceLatestRace))
    else if SlugTaken(t.races, VarcharCut(n.slug)) then Some(UniqueViolation(RaceSlugUnique))
    else None
  }

  function ReviewInsertError(t: Tables, n: NewRaceReview): (e: Option<DbError>)
    // out of range: rejected whatever the tables hold
    ensures !(FirstReviewNumber <= n.reviewNumber <= LastReviewNumber) ==> e.Some?
    ensures (IsInt32(n.reviewNumber) && IsInt32(n.rating) && !(FirstReviewNumber <= n.reviewNumber <= LastReviewNumber))
              ==> e == Some(CheckViolation(ReviewNumberCheck))
    ensures SlotTaken(t.raceReviews, n.userId, n.raceId, n.reviewNumber) ==> e.Some?
  {
    if !IsInt32(n.reviewNumber) then Some(NumericOutOfRange(ReviewNumber))
    else if !IsInt32(n.rating) then Some(NumericOutOfRange(ReviewRating))
    else if !(FirstReviewNumber <= n.reviewNumber <= LastReviewNumber) then Some(CheckViolation(ReviewNumberCheck))
    else if SlotTaken(t.raceReviews, n.userId, n.raceId, n.reviewNumber) then Some(UniqueViolation(UserRaceReviewNumber))
    else if n.userId !in UserIds(t.users) then Some(ForeignKeyViolation(ReviewUserFk))
    else if n.raceId !in RaceIds(t.races) then Some(ForeignKeyViolation(ReviewRaceFk))
    else None
  }

  // ----- Inserts are accepted exactly when the rules still hold afterwards -----

  lemma UserIdsAppend(us: seq<User>, u: User)
    ensures UserIds(us + [u]) == UserIds(us) + {u.id}
  {
  }

  lemma RaceIdsAppend(rs: seq<Race>, r: Race)
    ensures RaceIds(rs + [r]) == RaceIds(rs) + {r.id}
  {
  }

  /** Index of a row that is in a sequence. */
  lemma IndexOf<T>(s: seq<T>, x: T) returns (k: nat)
    requires x in s
    ensures k < |s| && s[k] == x
  {
    k :| 0 <= k < |s| && s[k] == x;
  }

  lemma UserAcceptedIffConsistent(t: Tables, n: NewUser, id: Uuid)
    requires Consistent(t) && IdUnused(t, id)
    ensures UserInsertError(t, n).None? <==> Consistent(t.(users := t.users + [UserRow(n, id)]))
  {
    var row := UserRow(n, id);
    var t' := t.(users := t.users + [row]);
    UserIdsAppend(t.users, row);
    if UserInsertError(t, n).None? {
      PairwiseAppend(t.users, row, UsersDiffer);
    } else {
      var u :| u in t.users && u.email == n.email;
      var k := IndexOf(t.users, u);
      assert t'.users[k] == u && t'.users[|t.users|] == row;
      assert !UsersDiffer(t'.users[k], t'.users[|t.users|]);
    }
  }

  lemma SessionAcceptedIffConsistent(t: Tables, n: NewSession, id: Uuid)
    requires Consistent(t) && IdUnused(t, id)
    ensures SessionInsertError(t, n).None? <==> Consistent(t.(sessions := t.sessions + [SessionRow(n, id)]))
  {
    var row := SessionRow(n, id);
    var t' := t.(sessions := t.sessions + [row]);
    assert row in t'.sessions;
    if SessionInsertError(t, n).None? {
      PairwiseAppend(t.sessions, row, SessionsDiffer);
    } else if TokenTaken(t.sessions, n.token) {
      var s :| s in t.sessions && s.token == n.token;
      var k := IndexOf(t.sessions, s);
      assert t'.sessions[k] == s && t'.sessions[|t.sessions|] == row;
      assert !SessionsDiffer(t'.sessions[k], t'.sessions[|t.sessions|]);
    }
  }

  lemma AccountAcceptedIffConsistent(t: Tables, n: NewAccount, id: Uuid)
    requires Consistent(t) && IdUnused(t, id)
    ensures AccountInsertError(t, n).None? <==> Consistent(t.(accounts := t.accounts + [AccountRow(n, id)]))
  {
  }

  lemma VerificationKeepsConsistent(t: Tables, n: NewVerification, id: Uuid)
    requires Consistent(t) && IdUnused(t, id)
    ensures Consistent(t.(verifications := t.verifications + [VerificationRow(n, id)]))
  {
  }

  lemma PostAcceptedIffConsistent(t: Tables, n: NewPost, id: Uuid)
    requires Consistent(t) && IdUnused(t, id)
    ensures PostInsertError(t, n).None? <==> Consistent(t.(posts := t.posts + [PostRow(n, id)]))
  {
  }

  /** A race row can be built only when latestRace is not an explicit NULL. */
  lemma RaceAcceptedIffConsistent(t: Tables, n: NewRace, id: Uuid)
    requires Consistent(t) && IdUnused(t, id)
    ensures RaceInsertError(t, n).None? <==>
              && VarcharAccepts(n.slug) && VarcharAccepts(n.name) && !n.latestRace.Null?
              && Consistent(t.(races := t.races + [RaceRow(n, id)]))
  {
    var row := RaceRow(n, id);
    var t' := t.(races := t.races + [row]);
    RaceIdsAppend(t.races, row);
    assert row in t'.races;
    if RaceInsertError(t, n).None? {
      PairwiseAppend(t.races, row, RacesDiffer);
    } else if VarcharAccepts(n.slug) && VarcharAccepts(n.name) && !n.latestRace.Null? {
      var r :| r in t.races && r.slug == row.slug;
      var k := IndexOf(t.races, r);
      assert t'.races[k] == r && t'.races[|t.races|] == row;
      assert !RacesDiffer(t'.races[k], t'.races[|t.races|]);
    }
  }

  lemma ReviewAcceptedIffConsistent(t: Tables, n: NewRaceReview, id: Uuid)
    requires Consistent(t) && IdUnused(t, id)
    ensures ReviewInsertError(t, n).None? <==> Consistent(t.(raceReviews := t.raceReviews + [ReviewRow(n, id)]))
  {
    var row := ReviewRow(n, id);
    var t' := t.(raceReviews := t.raceReviews + [row]);
    assert row in t'.raceReviews;
    if ReviewInsertError(t, n).None? {
      PairwiseAppend(t.raceReviews, row, ReviewsDiffer);
    } else if ReviewRowOk(row) && SlotTaken(t.raceReviews, n.userId, n.raceId, n.reviewNumber) {
      var r :| r in t.raceReviews && r.userId == n.userId && r.raceId == n.raceId && r.reviewNumber == n.reviewNumber;
      var k := IndexOf(t.raceReviews, r);
      assert t'.raceReviews[k] == r && t'.raceReviews[|t.raceReviews|] == row;
      assert !ReviewsDiffer(t'.raceReviews[k], t'.raceReviews[|t.raceReviews|]);
    }
  }

  // ----- Deletes cascade along the foreign keys -----

  /** The store after `DELETE FROM users WHERE id = uid`. */
  function WithoutUser(t: Tables, uid: Uuid): (r: Tables)
    ensures forall u :: u in r.users <==> u in t.users && u.id != uid
    ensures forall s :: s in r.sessions <==> s in t.sessions && s.userId != uid
    ensures forall a :: a in r.accounts <==> a in t.accounts && a.userId != uid
    ensures forall p :: p in r.posts <==> p in t.posts && p.authorId != uid
    ensures forall v :: v in r.raceReviews <==> v in t.raceReviews && v.userId != uid
    ensures r.verifications == t.verifications && r.races == t.races
  {
    t.(users := Filter(t.users, (u: User) => u.id != uid),
       sessions := Filter(t.sessions, (s: Session) => s.userId != uid),
       accounts := Filter(t.accounts, (a: Account) => a.userId != uid),
       posts := Filter(t.posts, (p: Post) => p.authorId != uid),
       raceReviews := Filter(t.raceReviews, (v: RaceReview) => v.userId != uid))
  }

  /** The store after `DELETE FROM race WHERE id = rid`. */
  function WithoutRace(t: Tables, rid: Uuid): (r: Tables)
    ensures forall x :: x in r.races <==> x in t.races && x.id != rid
    ensures forall v :: v in r.raceReviews <==> v in t.raceReviews && v.raceId != rid
    ensures r.users == t.users && r.sessions == t.sessions && r.accounts == t.accounts
    ensures r.verifications == t.verifications && r.posts == t.posts
  {
    t.(races := Filter(t.races, (x: Race) => x.id != rid),
       raceReviews := Filter(t.raceReviews, (v: RaceReview) => v.raceId != rid))
  }

  lemma {:induction false} DeleteUserKeepsConsistent(t: Tables, uid: Uuid)
    requires Consistent(t)
    ensures Consistent(WithoutUser(t, uid))
  {
    var r := WithoutUser(t, uid);
    FilterPairwise(t.users, (u: User) => u.id != uid, UsersDiffer);
    FilterPairwise(t.sessions, (s: Session) => s.userId != uid, SessionsDiffer);
    FilterPairwise(t.accounts, (a: Account) => a.userId != uid, AccountsDiffer);
    FilterPairwise(t.posts, (p: Post) => p.authorId != uid, PostsDiffer);
    FilterPairwise(t.raceReviews, (v: RaceReview) => v.userId != uid, ReviewsDiffer);
    assert UserIds(r.users) == UserIds(t.users) - {uid} by {
      forall id | id in UserIds(t.users) - {uid} ensures id in UserIds(r.users) {
        var u :| u in t.users && u.id == id;
        assert u in r.users;
      }
    }
  }

  lemma {:induction false} DeleteRaceKeepsConsistent(t: Tables, rid: Uuid)
    requires Consistent(t)
    ensures Consistent(WithoutRace(t, rid))
  {
    var r := WithoutRace(t, rid);
    FilterPairwise(t.races, (x: Race) => x.id != rid, RacesDiffer);
    FilterPairwise(t.raceReviews, (v: RaceReview) => v.raceId != rid, ReviewsDiffer);
    assert RaceIds(r.races) == RaceIds(t.races) - {rid} by {
      forall id | id in RaceIds(t.races) - {rid} ensures id in RaceIds(r.races) {
        var x :| x in t.races && x.id == id;
        assert x in r.races;
      }
    }
  }

  /** Deleting a user that does not exist changes no table: no row can reference it. */
  lemma {:induction false} DeleteMissingUserIsNoOp(t: Tables, uid: Uuid)
    requires Consistent(t) && uid !in UserIds(t.users)
    ensures WithoutUser(t, uid) == t
  {
    FilterKeepsAll(t.users, (u: User) => u.id != uid);
    FilterKeepsAll(t.sessions, (s: Session) => s.userId != uid);
    FilterKeepsAll(t.accounts, (a: Account) => a.userId != uid);
    FilterKeepsAll(t.posts, (p: Post) => p.authorId != uid);
    FilterKeepsAll(t.raceReviews, (v: RaceReview) => v.userId != uid);
  }

  /** Deleting a race that does not exist changes no table. */
  lemma {:induction false} DeleteMissingRaceIsNoOp(t: Tables, rid: Uuid)
    requires Consistent(t) && rid !in RaceIds(t.races)
    ensures WithoutRace(t, rid) == t
  {
    FilterKeepsAll(t.races, (x: Race) => x.id != rid);
    FilterKeepsAll(t.raceReviews, (v: RaceReview) => v.raceId != rid);
  }

  // ----- What the unique and check constraints guarantee -----

  /** The reviews one user has left on one race. */
  function ReviewsOf(reviews: seq<RaceReview>, userId: Uuid, raceId: Uuid): seq<RaceReview>
  {
    Filter(reviews, (r: RaceReview) => r.userId == userId && r.raceId == raceId)
  }

  /** A user holds at most five reviews of a race, with pairwise distinct review numbers in 1..5. */
  lemma AtMostFiveReviews(t: Tables, userId: Uuid, raceId: Uuid)
    requires Consistent(t)
    ensures var mine := ReviewsOf(t.raceReviews, userId, raceId);
      && |mine| <= 5
      && (forall i, j :: 0 <= i < j < |mine| ==> mine[i].reviewNumber != mine[j].reviewNumber)
      && (forall r :: r in mine ==> FirstReviewNumber <= r.reviewNumber <= LastReviewNumber)
  {
    var mine := ReviewsOf(t.raceReviews, userId, raceId);
    FilterPairwise(t.raceReviews, (r: RaceReview) => r.userId == userId && r.raceId == raceId, ReviewsDiffer);
    forall i, j | 0 <= i < j < |mine| ensures mine[i].reviewNumber != mine[j].reviewNumber {
      assert mine[i] in mine && mine[j] in mine;
      assert ReviewsDiffer(mine[i], mine[j]);
    }
    var numbers := seq(|mine|, i requires 0 <= i < |mine| => mine[i].reviewNumber);
    assert forall i :: 0 <= i < |numbers| ==> numbers[i] == mine[i].reviewNumber;
    forall i | 0 <= i < |numbers| ensures numbers[i] in {1, 2, 3, 4, 5} {
      assert mine[i] in mine;
    }
    DistinctWithin(numbers, {1, 2, 3, 4, 5});
  }

  function RacesWithSlug(races: seq<Race>, slug: string): seq<Race>
  {
    Filter(races, (r: Race) => r.slug == slug)
  }

  function SessionsWithToken(sessions: seq<Session>, token: string): seq<Session>
  {
    Filter(sessions, (s: Session) => s.token == token)
  }

  function UsersWithEmail(users: seq<User>, email: string): seq<User>
  {
    Filter(users, (u: User) => u.email == email)
  }

  /** Looking a race up by its slug finds at most one race. */
  lemma SlugIdentifiesRace(t: Tables, slug: string)
    requires Consistent(t)
    ensures |RacesWithSlug(t.races, slug)| <= 1
  {
    AtMostOneMatch(t.races, RacesDiffer, (r: Race) => r.slug == slug);
  }

  /** Looking a session up by its token finds at most one session. */
  lemma TokenIdentifiesSession(t: Tables, token: string)
    requires Consistent(t)
    ensures |SessionsWithToken(t.sessions, token)| <= 1
  {
    AtMostOneMatch(t.sessions, SessionsDiffer, (s: Session) => s.token == token);
  }

  /** Looking a user up by email finds at most one user. */
  lemma EmailIdentifiesUser(t: Tables, email: string)
    requires Consistent(t)
    ensures |UsersWithEmail(t.users, email)| <= 1
  {
    AtMostOneMatch(t.users, UsersDiffer, (u: User) => u.email == email);
  }

  /** The first user row with the given id, as `SELECT ... WHERE id = ? LIMIT 1` returns it. */
  function FindUser(users: seq<User>, id: Uuid): (r: Option<User>)
    ensures r.Some? ==> r.value in users && r.value.id == id
    ensures r.None? <==> id !in UserIds(users)
  {
    if users == [] then None
    else if users[0].id == id then Some(users[0])
    else FindUser(users[1..], id)
  }

  /** With unique ids, the row found is the only row with that id. */
  lemma FindUserIsTheUser(users: seq<User>, u: User)
    requires UsersOk(users) && u in users
    ensures FindUser(users, u.id) == Some(u)
  {
  }
}
