/**
 * A client of the handlers' contracts: Alice signs up, logs in, passes the
 * gate with her token and creates a place; Bob, signed up too, may not
 * delete it; Alice may, after which she owns nothing.  Every fact below
 * follows from the contracts alone.
 */
module Scenario {
  import opened Wrappers
  import opened Store
  import opened Http
  import opened Auth
  import opened Places
  import opened Users

  const Key := "signing-key"

  // stand-ins for the collaborators: a tagging hash, a token that is the user id
  function Hash(plain: string, rounds: int): (h: Option<string>) { Some("hashed:" + plain) }
  function Compare(plain: string, hashed: string): (same: Option<bool>) { Some(hashed == "hashed:" + plain) }
  function Sign(payload: TokenPayload, key: string, lifetime: string): (token: Option<string>) { Some(payload.userId) }
  function Verify(token: string, key: string): (payload: Option<TokenPayload>) { Some(TokenPayload(token, "")) }
  function Geocode(address: string): (location: Result<Coordinates>) { Ok(Coordinates(40.7, -74.0)) }

  const Alice := User("Alice", "a@x.com", "hashed:" + "s3cret!", "alice.png", [])
  const Cafe := Place("Cafe", "Nice coffee shop downtown", "cafe.png", "1 Main St", Coordinates(40.7, -74.0), "alice")

  method AliceSignsUpAndLogsIn(db: Database) returns (token: string)
    requires db.users == map[] && db.places == map[]
    modifies db
    ensures db.users == map["alice" := Alice] && db.places == map[]
    ensures token == "alice"
  {
    var signedUp := Signup(db, true, "Alice", "a@x.com", "s3cret!", "alice.png",
                           Hash, Sign, Key, "alice", false, false);
    assert !EmailTaken(map[], "a@x.com");
    assert signedUp == Success(201, Session("alice", "a@x.com", "alice"));
    assert db.users == map["alice" := Alice];
    var loggedIn := Login(db.users, "a@x.com", "s3cret!", Compare, Sign, Key, false);
    assert UniqueEmails(db.users);
    assert db.users["alice"].email == "a@x.com";
    assert loggedIn == Success(200, Session("alice", "a@x.com", "alice"));
    token := loggedIn.body.token;
  }

  method AliceCreatesCafe(db: Database, token: string)
    requires db.users == map["alice" := Alice] && db.places == map[] && token == "alice"
    modifies db
    ensures db.users == map["alice" := Alice.(places := ["cafe"])] && db.places == map["cafe" := Cafe]
  {
    WellFormedHeaderAuthenticates("POST", "Bearer", token, Key, Verify);
    var gate := CheckAuth("POST", Some("Bearer" + " " + token), Key, Verify);
    assert gate == Authenticated(UserData("alice"));
    var created := CreatePlace(db, gate.userData.userId, "Cafe", "Nice coffee shop downtown", "1 Main St",
                               "cafe.png", Geocode, "cafe", false, false);
    assert ValidNewPlace("Cafe", "Nice coffee shop downtown", "1 Main St");
    assert created.Success?;
    assert Alice.places + ["cafe"] == ["cafe"];
  }

  method BobMayNotDelete(db: Database)
    requires db.users == map["alice" := Alice.(places := ["cafe"])] && db.places == map["cafe" := Cafe]
    modifies db
    ensures "alice" in db.users && db.users["alice"] == Alice.(places := ["cafe"]) && "bob" in db.users && db.places == map["cafe" := Cafe]
  {
    var bobSignedUp := Signup(db, true, "Bob", "b@x.com", "hunter22", "bob.png",
                              Hash, Sign, Key, "bob", false, false);
    assert bobSignedUp.Success?;
    var denied, _ := DeletePlace(db, "bob", "cafe", false, false);
    assert denied == Failure(DeleteForbidden);
  }

  method AliceDeletesCafe(db: Database)
    requires "alice" in db.users && db.users["alice"] == Alice.(places := ["cafe"]) && db.places == map["cafe" := Cafe]
    modifies db
    ensures db.places == map[] && "alice" in db.users && db.users["alice"].places == []
  {
    var deleted, unlink := DeletePlace(db, "alice", "cafe", false, false);
    assert deleted == Success(200, Message(Deleted)) && unlink == Some("cafe.png");
    assert Pull(["cafe"], "cafe") == [];
  }

  method AliceAndBob() {
    var db := new Database();
    var token := AliceSignsUpAndLogsIn(db);
    AliceCreatesCafe(db, token);
    assert Consistent(db.users, db.places);
    PlacesByUserMatchOwnedList(db.users, db.places, "alice");
    assert |GetPlacesByUserId(db.places, "alice", false).body.places| == 1;
    BobMayNotDelete(db);
    AliceDeletesCafe(db);
    assert GetPlacesByUserId(db.places, "alice", false).body.places == map[];
  }
}
