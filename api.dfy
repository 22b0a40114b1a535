/**
 * The decision logic of three request handlers over the store: reading one's
 * own profile, listing published posts and creating a post. The session is
 * what the authentication layer resolved for the request (a user id or
 * nothing); `fault` says whether the database call fails.
 */
module Api {
  import opened Wrappers
  import opened Sequences
  import opened Schema
  import opened Store

  /** An HTTP status with either the JSON payload or the `error` message. */
  datatype Reply<T> = Success(status: int, body: T) | Failure(status: int, error: string)

  // ----- GET /api/users/:id -----

  /** The columns the profile handler selects. */
  datatype UserProfile = UserProfile(id: Uuid, email: string, name: Option<string>, avatar: Option<string>)

  function ProfileOf(u: User): UserProfile
  {
    UserProfile(u.id, u.email, u.name, u.avatar)
  }

  function GetUserProfile(db: Database, session: Option<Uuid>, id: Uuid, fault: bool): (r: Reply<UserProfile>)
    reads db
    ensures session.None? ==> r == Failure(401, "Unauthorized")
    ensures session.Some? && session.value != id ==> r == Failure(403, "Forbidden")
    ensures session == Some(id) && fault ==> r == Failure(500, "Failed to fetch user")
    ensures session == Some(id) && !fault && id !in UserIds(db.users) ==> r == Failure(404, "User not found")
    ensures r.Success? <==> session == Some(id) && !fault && id in UserIds(db.users)
    ensures r.Success? ==> r.status == 200 && exists u :: u in db.users && u.id == id && r.body == ProfileOf(u)
  {
    if session.None? then Failure(401, "Unauthorized")
    else if session.value != id then Failure(403, "Forbidden")
    else if fault then Failure(500, "Failed to fetch user")
    else match FindUser(db.users, id)
      case None => Failure(404, "User not found")
      case Some(u) => Success(200, ProfileOf(u))
  }

  /** Without a session, or for someone else's id, the reply does not depend on the store or on its health. */
  lemma ProfileRejectionReadsNothing(db1: Database, db2: Database, session: Option<Uuid>, id: Uuid, fault1: bool, fault2: bool)
    requires session.None? || session.value != id
    ensures GetUserProfile(db1, session, id, fault1) == GetUserProfile(db2, session, id, fault2)
    ensures GetUserProfile(db1, session, id, fault1).status in {401, 403}
  {
  }

  /** In a consistent store, one's own profile shows exactly one's own user row. */
  lemma OwnProfileIsOwnRow(db: Database, u: User)
    requires db.Valid() && u in db.users
    ensures GetUserProfile(db, Some(u.id), u.id, false) == Success(200, ProfileOf(u))
  {
  }

  // ----- GET /api/posts -----

  datatype AuthorView = AuthorView(id: Uuid, name: Option<string>, email: string)
  datatype PostListing = PostListing(id: Uuid, title: string, content: Option<string>, published: Option<bool>,
                                     author: Option<AuthorView>)

  function AuthorOf(u: User): AuthorView
  {
    AuthorView(u.id, u.name, u.email)
  }

  /** The posts the `published = true` filter keeps; a NULL `published` is not true. */
  function PublishedPosts(posts: seq<Post>): seq<Post>
  {
    Filter(posts, (p: Post) => p.published == Some(true))
  }

  /** `l` is the left-join row of post `p`: its columns, and its author's, or no author when no user has that id. */
  ghost predicate ListsPost(l: PostListing, p: Post, users: seq<User>)
  {
    && l.id == p.id && l.title == p.title && l.content == p.content && l.published == p.published
    && (match l.author
        case None => p.authorId !in UserIds(users)
        case Some(a) => exists u :: u in users && u.id == p.authorId && a == AuthorOf(u))
  }

  function Listing(p: Post, users: seq<User>): (l: PostListing)
    ensures ListsPost(l, p, users)
  {
    PostListing(p.id, p.title, p.content, p.published,
                match FindUser(users, p.authorId) case None => None case Some(u) => Some(AuthorOf(u)))
  }

  function ListPosts(db: Database, fault: bool): (r: Reply<seq<PostListing>>)
    reads db
    ensures fault ==> r == Failure(500, "Failed to fetch posts")
    ensures !fault ==> r.Success? && r.status == 200
    ensures r.Success? ==>
      var shown := PublishedPosts(db.posts);
      |r.body| == |shown| && forall i :: 0 <= i < |shown| ==> ListsPost(r.body[i], shown[i], db.users)
    ensures r.Success? ==> forall l :: l in r.body ==> l.published == Some(true)
  {
    if fault then Failure(500, "Failed to fetch posts")
    else
      var shown, users := PublishedPosts(db.posts), db.users;
      var listed := seq(|shown|, i requires 0 <= i < |shown| => Listing(shown[i], users));
      assert forall i :: 0 <= i < |shown| ==> shown[i] in shown;
      Success(200, listed)
  }

  /** In a consistent store every listed post has its author: the foreign key rules out a dangling authorId. */
  lemma ListedPostsHaveAuthors(db: Database)
    requires db.Valid()
    ensures forall l :: l in ListPosts(db, false).body ==> l.author.Some?
  {
  }

  // ----- POST /api/posts -----

  /** A field of the parsed JSON body: missing, `null`, or a value. */
  datatype JsonField<T> = Absent | JsonNull | Present(v: T)

  /** The fields the handler reads; a JSON value that is not an object reads as all fields absent. */
  datatype PostBody = PostBody(title: JsonField<string>, content: JsonField<string>, published: JsonField<bool>)

  /** JavaScript truthiness of the title: missing, null and "" are falsy. */
  predicate HasTitle(title: JsonField<string>)
  {
    title.Present? && title.v != ""
  }

  /** `published = false` in the destructuring replaces only a missing field, not `null`. */
  function PublishedInput(f: JsonField<bool>): Input<bool>
  {
    match f
    case Absent => Given(false)
    case JsonNull => Null
    case Present(b) => Given(b)
  }

  /** A missing content is left out of the insert and an explicit null is stored; both leave the column NULL. */
  function ContentColumn(f: JsonField<string>): Option<string>
  {
    if f.Present? then Some(f.v) else None
  }

  /**
   * `body` is None when the request body is not JSON or is JSON `null` (reading
   * it throws); `fault` says whether the insert statement fails.
   */
  method CreatePost(db: Database, session: Option<Uuid>, body: Option<PostBody>, fault: bool) returns (r: Reply<Post>)
    requires db.Valid()
    modifies db`posts, db`nextId
    ensures db.Valid()
    ensures session.None? ==> r == Failure(401, "Unauthorized")
    ensures session.Some? && body.None? ==> r == Failure(500, "Failed to create post")
    ensures session.Some? && body.Some? && !HasTitle(body.value.title) ==> r == Failure(400, "Title is required")
    ensures r.Success? <==>
              session.Some? && body.Some? && HasTitle(body.value.title) && !fault && session.value in UserIds(old(db.users))
    ensures session.Some? && body.Some? && HasTitle(body.value.title) && r.Failure? ==>
              r == Failure(500, "Failed to create post")
    ensures r.Failure? ==> r.status in {401, 400, 500} && unchanged(db)
    ensures r.Success? ==>
              && r.status == 201
              && db.posts == old(db.posts) + [r.body]
              && (forall p :: p in old(db.posts) ==> p.id != r.body.id)
              && r.body.authorId == session.value
              && r.body.title == body.value.title.v
              && r.body.content == ContentColumn(body.value.content)
              && (body.value.published.Absent? ==> r.body.published == Some(false))
              && (body.value.published.JsonNull? ==> r.body.published == None)
              && (body.value.published.Present? ==> r.body.published == Some(body.value.published.v))
  {
    if session.None? {
      return Failure(401, "Unauthorized");
    }
    if body.None? {
      return Failure(500, "Failed to create post");
    }
    var b := body.value;
    if !HasTitle(b.title) {
      return Failure(400, "Title is required");
    }
    if fault {
      return Failure(500, "Failed to create post");
    }
    var inserted := db.InsertPost(NewPost(b.title.v, ContentColumn(b.content), session.value, PublishedInput(b.published)));
    match inserted
    case Err(_) =>
      r := Failure(500, "Failed to create post");
    case Ok(p) =>
      r := Success(201, p);
  }
}
