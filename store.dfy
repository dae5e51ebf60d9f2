/**
 * The persistence layer seen as two in-memory tables: accounts and places,
 * keyed by their ids.  A place's `creator` and an account's `places` list are
 * the two halves of one relationship; `Consistent` says they agree.
 */
module Store {

  /** Document ids, compared as their string form (`toString()`, `.id`). */
  type Id = string

  datatype Coordinates = Coordinates(lat: real, lng: real)

  /** An account; `password` holds the hashed secret, never the plain one. */
  datatype User = User(name: string, email: string, password: string, image: string, places: seq<Id>)

  /** An account as listed publicly: every field except the password. */
  datatype PublicUser = PublicUser(name: string, email: string, image: string, places: seq<Id>)

  datatype Place = Place(
    title: string,
    description: string,
    image: string,
    address: string,
    location: Coordinates,
    creator: Id)

  function Public(u: User): (p: PublicUser)
  {
    PublicUser(u.name, u.email, u.image, u.places)
  }

  predicate NoDuplicates(s: seq<Id>)
  {
    forall i, j :: 0 <= i < j < |s| ==> s[i] != s[j]
  }

  /**
   * Bidirectional consistency of the account <-> place link: every id an
   * account lists is a stored place created by that account, every place's
   * creator is a stored account that lists it, and no account lists a place
   * twice.
   */
  ghost predicate Consistent(users: map<Id, User>, places: map<Id, Place>)
  {
    && (forall u, p :: u in users && p in users[u].places ==> p in places && places[p].creator == u)
    && (forall p :: p in places ==> places[p].creator in users && p in users[places[p].creator].places)
    && (forall u :: u in users ==> NoDuplicates(users[u].places))
  }

  /** No two accounts share an email address. */
  ghost predicate UniqueEmails(users: map<Id, User>)
  {
    forall u, v :: u in users && v in users && users[u].email == users[v].email ==> u == v
  }

  /** Mongoose's array `pull`: removes every occurrence of `x`, keeping the order of the rest (`PullKeepsOrder`). */
  function Pull(s: seq<Id>, x: Id): (r: seq<Id>)
    ensures forall y :: y in r <==> y in s && y != x
    ensures |r| <= |s|
    ensures x !in s ==> r == s
    ensures NoDuplicates(s) ==> NoDuplicates(r)
  {
    if s == [] then []
    else if s[0] == x then Pull(s[1..], x)
    else
      assert NoDuplicates(s) ==> s[0] !in s[1..] && NoDuplicates(s[1..]);
      [s[0]] + Pull(s[1..], x)
  }

  /** The account `u` after pushing `pid` onto its places. */
  function WithPlace(u: User, pid: Id): (r: User)
    ensures |r.places| == |u.places| + 1
    ensures r.places[..|u.places|] == u.places && r.places[|u.places|] == pid
    ensures r.name == u.name && r.email == u.email && r.password == u.password && r.image == u.image
  {
    u.(places := u.places + [pid])
  }

  /**
   * `Pull` keeps the order of the ids it does not remove: pulling from a
   * concatenation is the concatenation of the pulls, and a single other id
   * stays where it is.
   */
  lemma {:induction false} PullKeepsOrder(a: seq<Id>, b: seq<Id>, x: Id)
    ensures Pull(a + b, x) == Pull(a, x) + Pull(b, x)
    ensures forall y :: y != x ==> Pull([y], x) == [y]
  {
    if a == [] {
      assert a + b == b;
    } else {
      assert (a + b)[0] == a[0];
      assert (a + b)[1..] == a[1..] + b;
      PullKeepsOrder(a[1..], b, x);
    }
    forall y | y != x
      ensures Pull([y], x) == [y]
    {
      assert [y][1..] == [];
    }
  }

  /** The account `u` after pulling `pid` from its places. */
  function WithoutPlace(u: User, pid: Id): (r: User)
    ensures pid !in r.places
    ensures forall q :: q != pid ==> (q in r.places <==> q in u.places)
    ensures r.name == u.name && r.email == u.email && r.password == u.password && r.image == u.image
  {
    u.(places := Pull(u.places, pid))
  }

  /** The create transaction (save place, push id, save account) preserves consistency. */
  lemma CreateKeepsConsistent(users: map<Id, User>, places: map<Id, Place>, uid: Id, pid: Id, place: Place)
    requires Consistent(users, places)
    requires uid in users && pid !in places && place.creator == uid
    ensures Consistent(users[uid := WithPlace(users[uid], pid)], places[pid := place])
  {
    var users', places' := users[uid := WithPlace(users[uid], pid)], places[pid := place];
    forall u, p | u in users' && p in users'[u].places
      ensures p in places' && places'[p].creator == u
    {
      if u == uid && p == pid {
      } else {
        assert p in users[u].places;
      }
    }
    forall u | u in users' ensures NoDuplicates(users'[u].places) {
      if u == uid {
        assert pid !in users[uid].places;
      }
    }
  }

  /** The delete transaction (remove place, pull id from its creator, save account) preserves consistency. */
  lemma DeleteKeepsConsistent(users: map<Id, User>, places: map<Id, Place>, pid: Id)
    requires Consistent(users, places)
    requires pid in places
    ensures var c := places[pid].creator;
      Consistent(users[c := WithoutPlace(users[c], pid)], places - {pid})
    ensures var c := places[pid].creator;
      forall u :: u in users ==> pid !in users[c := WithoutPlace(users[c], pid)][u].places
  {
    var c := places[pid].creator;
    var users', places' := users[c := WithoutPlace(users[c], pid)], places - {pid};
    forall u, p | u in users' && p in users'[u].places
      ensures p in places' && places'[p].creator == u
    {
      assert p in users[u].places;
    }
  }

  /** Rewriting a place without touching its creator preserves consistency. */
  lemma EditKeepsConsistent(users: map<Id, User>, places: map<Id, Place>, pid: Id, place: Place)
    requires Consistent(users, places)
    requires pid in places && place.creator == places[pid].creator
    ensures Consistent(users, places[pid := place])
  {
  }

  /** Adding a fresh account that owns nothing preserves consistency. */
  lemma AddUserKeepsConsistent(users: map<Id, User>, places: map<Id, Place>, uid: Id, user: User)
    requires Consistent(users, places)
    requires uid !in users && user.places == []
    ensures Consistent(users[uid := user], places)
  {
  }

  /** The shared store: both tables, updated in place by the request handlers. */
  class Database {
    var users: map<Id, User>
    var places: map<Id, Place>

    constructor ()
      ensures users == map[] && places == map[]
    {
      users := map[];
      places := map[];
    }
  }
}
