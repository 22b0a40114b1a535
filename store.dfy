/**
 * The database as one mutable object: the seven tables are fields that INSERT
 * and DELETE statements replace, each statement atomically. Inserts are
 * accepted or rejected with the error of the first constraint they violate;
 * deletes of users and races cascade along the foreign keys.
 */
module Store {
  import opened Wrappers
  import opened Schema

  class Database {
    var users: seq<User>
    var sessions: seq<Session>
    var accounts: seq<Account>
    var verifications: seq<Verification>
    var posts: seq<Post>
    var races: seq<Race>
    var raceReviews: seq<RaceReview>
    /** The next identifier the store hands out; it stands for the random uuid default. */
    var nextId: Uuid

    function Snapshot(): Tables
      reads this
    {
      Tables(users, sessions, accounts, verifications, posts, races, raceReviews)
    }

    /** The integrity rules hold and no row uses an id the store has yet to hand out. */
    ghost predicate Valid()
      reads this
    {
      Consistent(Snapshot()) && IdsBelow(Snapshot(), nextId)
    }

    constructor ()
      ensures Valid() && Snapshot() == Empty
    {
      users, sessions, accounts, verifications := [], [], [], [];
      posts, races, raceReviews := [], [], [];
      nextId := 0;
    }

    method InsertUser(n: NewUser) returns (r: Result<User, DbError>)
      requires Valid()
      modifies this`users, this`nextId
      ensures Valid()
      ensures r.Err? <==> UserInsertError(old(Snapshot()), n).Some?
      ensures r.Err? ==> UserInsertError(old(Snapshot()), n) == Some(r.error) && unchanged(this)
      ensures r.Ok? ==> r.value == UserRow(n, old(nextId)) && IdUnused(old(Snapshot()), r.value.id)
      ensures r.Ok? ==> users == old(users) + [r.value]
    {
      var e := UserInsertError(Snapshot(), n);
      if e.Some? {
        return Err(e.value);
      }
      var row := UserRow(n, nextId);
      UserAcceptedIffConsistent(Snapshot(), n, nextId);
      users := users + [row];
      nextId := nextId + 1;
      r := Ok(row);
    }

    method InsertSession(n: NewSession) returns (r: Result<Session, DbError>)
      requires Valid()
      modifies this`sessions, this`nextId
      ensures Valid()
      ensures r.Err? <==> SessionInsertError(old(Snapshot()), n).Some?
      ensures r.Err? ==> SessionInsertError(old(Snapshot()), n) == Some(r.error) && unchanged(this)
      ensures r.Ok? ==> r.value == SessionRow(n, old(nextId)) && IdUnused(old(Snapshot()), r.value.id)
      ensures r.Ok? ==> sessions == old(sessions) + [r.value]
    {
      var e := SessionInsertError(Snapshot(), n);
      if e.Some? {
        return Err(e.value);
      }
      var row := SessionRow(n, nextId);
      SessionAcceptedIffConsistent(Snapshot(), n, nextId);
      sessions := sessions + [row];
      nextId := nextId + 1;
      r := Ok(row);
    }

    method InsertAccount(n: NewAccount) returns (r: Result<Account, DbError>)
      requires Valid()
      modifies this`accounts, this`nextId
      ensures Valid()
      ensures r.Err? <==> AccountInsertError(old(Snapshot()), n).Some?
      ensures r.Err? ==> AccountInsertError(old(Snapshot()), n) == Some(r.error) && unchanged(this)
      ensures r.Ok? ==> r.value == AccountRow(n, old(nextId)) && IdUnused(old(Snapshot()), r.value.id)
      ensures r.Ok? ==> accounts == old(accounts) + [r.value]
    {
      var e := AccountInsertError(Snapshot(), n);
      if e.Some? {
        return Err(e.value);
      }
      var row := AccountRow(n, nextId);
      AccountAcceptedIffConsistent(Snapshot(), n, nextId);
      accounts := accounts + [row];
      nextId := nextId + 1;
      r := Ok(row);
    }

    /** The verifications table has no constraint besides its primary key: every insert succeeds. */
    method InsertVerification(n: NewVerification) returns (v: Verification)
      requires Valid()
      modifies this`verifications, this`nextId
      ensures Valid()
      ensures v == VerificationRow(n, old(nextId)) && IdUnused(old(Snapshot()), v.id)
      ensures verifications == old(verifications) + [v]
    {
      v := VerificationRow(n, nextId);
      VerificationKeepsConsistent(Snapshot(), n, nextId);
      verifications := verifications + [v];
      nextId := nextId + 1;
    }

    method InsertPost(n: NewPost) returns (r: Result<Post, DbError>)
      requires Valid()
      modifies this`posts, this`nextId
      ensures Valid()
      ensures r.Err? <==> PostInsertError(old(Snapshot()), n).Some?
      ensures r.Err? ==> PostInsertError(old(Snapshot()), n) == Some(r.error) && unchanged(this)
      ensures r.Ok? ==> r.value == PostRow(n, old(nextId)) && IdUnused(old(Snapshot()), r.value.id)
      ensures r.Ok? ==> posts == old(posts) + [r.value]
    {
      var e := PostInsertError(Snapshot(), n);
      if e.Some? {
        return Err(e.value);
      }
      var row := PostRow(n, nextId);
      PostAcceptedIffConsistent(Snapshot(), n, nextId);
      posts := posts + [row];
      nextId := nextId + 1;
      r := Ok(row);
    }

    method InsertRace(n: NewRace) returns (r: Result<Race, DbError>)
      requires Valid()
      modifies this`races, this`nextId
      ensures Valid()
      ensures r.Err? <==> RaceInsertError(old(Snapshot()), n).Some?
      ensures r.Err? ==> RaceInsertError(old(Snapshot()), n) == Some(r.error) && unchanged(this)
      ensures r.Ok? ==> r.value == RaceRow(n, old(nextId)) && IdUnused(old(Snapshot()), r.value.id)
      ensures r.Ok? ==> races == old(races) + [r.value]
    {
      var e := RaceInsertError(Snapshot(), n);
      if e.Some? {
        return Err(e.value);
      }
      var row := RaceRow(n, nextId);
      RaceAcceptedIffConsistent(Snapshot(), n, nextId);
      races := races + [row];
      nextId := nextId + 1;
      r := Ok(row);
    }

    method InsertRaceReview(n: NewRaceReview) returns (r: Result<RaceReview, DbError>)
      requires Valid()
      modifies this`raceReviews, this`nextId
      ensures Valid()
      ensures r.Err? <==> ReviewInsertError(old(Snapshot()), n).Some?
      ensures r.Err? ==> ReviewInsertError(old(Snapshot()), n) == Some(r.error) && unchanged(this)
      ensures r.Ok? ==> r.value == ReviewRow(n, old(nextId)) && IdUnused(old(Snapshot()), r.value.id)
      ensures r.Ok? ==> raceReviews == old(raceReviews) + [r.value]
    {
      var e := ReviewInsertError(Snapshot(), n);
      if e.Some? {
        return Err(e.value);
      }
      var row := ReviewRow(n, nextId);
      ReviewAcceptedIffConsistent(Snapshot(), n, nextId);
      raceReviews := raceReviews + [row];
      nextId := nextId + 1;
      r := Ok(row);
    }

    /** `DELETE FROM users WHERE id = uid`, cascading to sessions, accounts, posts and race reviews. */
    method DeleteUser(uid: Uuid) returns (deleted: bool)
      requires Valid()
      modifies this`users, this`sessions, this`accounts, this`posts, this`raceReviews
      ensures Valid()
      ensures deleted <==> uid in UserIds(old(users))
      ensures Snapshot() == WithoutUser(old(Snapshot()), uid)
    {
      deleted := uid in UserIds(users);
      var t := WithoutUser(Snapshot(), uid);
      DeleteUserKeepsConsistent(Snapshot(), uid);
      users, sessions, accounts, posts, raceReviews := t.users, t.sessions, t.accounts, t.posts, t.raceReviews;
    }

    /** `DELETE FROM race WHERE id = rid`, cascading to the race's reviews. */
    method DeleteRace(rid: Uuid) returns (deleted: bool)
      requires Valid()
      modifies this`races, this`raceReviews
      ensures Valid()
      ensures deleted <==> rid in RaceIds(old(races))
      ensures Snapshot() == WithoutRace(old(Snapshot()), rid)
    {
      deleted := rid in RaceIds(races);
      var t := WithoutRace(Snapshot(), rid);
      DeleteRaceKeepsConsistent(Snapshot(), rid);
      races, raceReviews := t.races, t.raceReviews;
    }
  }

  /** A store holding one user and one race, and no reviews yet. */
  method OneUserOneRace() returns (db: Database, uid: Uuid, rid: Uuid)
    ensures fresh(db) && db.Valid() && db.raceReviews == []
    ensures uid in UserIds(db.users) && rid in RaceIds(db.races)
  {
    db := new Database();
    var u := db.InsertUser(NewUser("driver@example.com", Omitted, None, None));
    assert u.Ok? && db.users == [u.value] && u.value in db.users;
    var race := db.InsertRace(NewRace("austria-2025", "Austrian Grand Prix", Omitted));
    assert race.Ok? && db.races == [race.value] && race.value in db.races;
    uid, rid := u.value.id, race.value.id;
  }

  /**
   * A user reviews a race with review number 1, again with 1, then with 2 and
   * with 6: the repeated number and the number out of range are rejected.
   */
  method ReviewSlotScenario()
  {
    var db, uid, rid := OneUserOneRace();

    var slot1 := NewRaceReview(uid, rid, 1, 4, Some("Great race"));
    assert ReviewInsertError(db.Snapshot(), slot1).None?;
    var first := db.InsertRaceReview(slot1);
    assert db.raceReviews == [first.value];

    var slot1again := NewRaceReview(uid, rid, 1, 5, None);
    assert SlotTaken(db.raceReviews, uid, rid, 1);
    var again := db.InsertRaceReview(slot1again);
    assert again == Err(UniqueViolation(UserRaceReviewNumber));

    var slot2 := NewRaceReview(uid, rid, 2, 5, None);
    assert ReviewInsertError(db.Snapshot(), slot2).None?;
    var second := db.InsertRaceReview(slot2);
    assert second.Ok?;

    var sixth := db.InsertRaceReview(NewRaceReview(uid, rid, 6, 5, None));
    assert sixth == Err(CheckViolation(ReviewNumberCheck));
  }
}
