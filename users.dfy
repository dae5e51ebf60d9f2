/**
 * The account handlers: listing accounts, signing up and logging in.  The
 * password hash, the hash comparison and token signing are collaborators
 * given as functions (None: the call threw); the signing key is a parameter.
 */
module Users {
  import opened Wrappers
  import opened Store
  import opened Http
  import opened Auth

  const UsersFetchFailed := HttpError("Fetching users failed, please try again later.", 500)
  const SignupInvalid := HttpError("Invalid inputs passed, please check your data.", 404)
  const SignupFailed := HttpError("Signing up failed, please try again later.", 500)
  const UserExists := HttpError("User already exists, please login instead.", 422)
  const HashFailed := HttpError("Could not create user, please try again.", 500)
  const UserSaveFailed := HttpError("Could not save user to database.", 500)
  const LoginLookupFailed := HttpError("Logging in failed, please try again later.", 500)
  const BadCredentials := HttpError("Could not indentify user, credentials seem to be wrong.", 403)
  const LoginFailed := HttpError("Logging in failed, please try again.", 500)

  /** The cost factor passed to the password hash. */
  const HashRounds := 12
  /** The lifetime passed to the token signer. */
  const TokenLifetime := "1h"

  /** Some account already uses `email` (`findOne({ email })` finds a document). */
  predicate EmailTaken(users: map<Id, User>, email: string)
  {
    exists u :: u in users && users[u].email == email
  }

  /** GET /: every account, each without its password. */
  function GetAllUsers(users: map<Id, User>, lookupFails: bool): (r: Response)
    ensures lookupFails ==> r == Failure(UsersFetchFailed)
    ensures !lookupFails ==> r.Success? && r.status == 200 && r.body.UserList?
    ensures r.Success? ==> r.body.users.Keys == users.Keys
    ensures r.Success? ==>
              forall u :: u in users ==>
                && r.body.users[u].name == users[u].name
                && r.body.users[u].email == users[u].email
                && r.body.users[u].image == users[u].image
                && r.body.users[u].places == users[u].places
  {
    if lookupFails then Failure(UsersFetchFailed)
    else Success(200, UserList(map u | u in users :: Public(users[u])))
  }

  /**
   * POST /signup.  `inputsValid` is the validation result, `hash` the
   * password hash, `sign` the token signer under `key`, `newId` the id the new
   * document receives, `lookupFails` a throwing `findOne`, `saveFails` a
   * failing save.  The token is signed after the account is saved, so a
   * signing failure answers 500 but leaves the new account stored.
   */
  function SignupOutcome(users: map<Id, User>, places: map<Id, Place>, inputsValid: bool,
                         name: string, email: string, password: string, image: string,
                         hash: (string, int) -> Option<string>,
                         sign: (TokenPayload, string, string) -> Option<string>, key: string,
                         newId: Id, lookupFails: bool, saveFails: bool): (o: Outcome)
    ensures o.places == places && o.unlink == None
    // outcomes are decided in order: validation, lookup, uniqueness, hashing, save, signing
    ensures !inputsValid ==> o == Outcome(Failure(SignupInvalid), users, places, None)
    ensures inputsValid && lookupFails ==> o == Outcome(Failure(SignupFailed), users, places, None)
    ensures inputsValid && !lookupFails && EmailTaken(users, email) ==>
              o == Outcome(Failure(UserExists), users, places, None)
    ensures inputsValid && !lookupFails && !EmailTaken(users, email) && hash(password, HashRounds).None? ==>
              o == Outcome(Failure(HashFailed), users, places, None)
    ensures inputsValid && !lookupFails && !EmailTaken(users, email) && hash(password, HashRounds).Some?
            && (saveFails || newId in users) ==>
              o == Outcome(Failure(UserSaveFailed), users, places, None)
    // the account is stored exactly when every check before signing passed
    ensures o.users != users <==>
              inputsValid && !lookupFails && !EmailTaken(users, email) && hash(password, HashRounds).Some?
              && !saveFails && newId !in users
    ensures o.users != users ==>
              && newId !in users
              && o.users == users[newId := User(name, email, hash(password, HashRounds).value, image, [])]
              && o.users.Keys == users.Keys + {newId}
              && (sign(TokenPayload(newId, email), key, TokenLifetime).None? ==> o.response == Failure(SignupFailed))
    ensures o.response.Success? <==>
              o.users != users && sign(TokenPayload(newId, email), key, TokenLifetime).Some?
    ensures o.response.Success? ==>
              o.response == Success(201, Session(newId, email, sign(TokenPayload(newId, email), key, TokenLifetime).value))
    ensures UniqueEmails(users) ==> UniqueEmails(o.users)
    ensures Consistent(users, places) ==> Consistent(o.users, o.places)
  {
    if !inputsValid then Outcome(Failure(SignupInvalid), users, places, None)
    else if lookupFails then Outcome(Failure(SignupFailed), users, places, None)
    else if EmailTaken(users, email) then Outcome(Failure(UserExists), users, places, None)
    else match hash(password, HashRounds)
      case None => Outcome(Failure(HashFailed), users, places, None)
      case Some(hashed) =>
        if saveFails || newId in users then Outcome(Failure(UserSaveFailed), users, places, None)
        else
          var created := User(name, email, hashed, image, []);
          var users' := users[newId := created];
          assert users' != users by {
            assert newId in users' && newId !in users;
          }
          assert Consistent(users, places) ==> Consistent(users', places) by {
            if Consistent(users, places) {
              AddUserKeepsConsistent(users, places, newId, created);
            }
          }
          match sign(TokenPayload(newId, email), key, TokenLifetime)
          case None => Outcome(Failure(SignupFailed), users', places, None)
          case Some(token) => Outcome(Success(201, Session(newId, email, token)), users', places, None)
  }

  method Signup(db: Database, inputsValid: bool, name: string, email: string, password: string, image: string,
                hash: (string, int) -> Option<string>,
                sign: (TokenPayload, string, string) -> Option<string>, key: string,
                newId: Id, lookupFails: bool, saveFails: bool)
    returns (res: Response)
    modifies db
    ensures Outcome(res, db.users, db.places, None)
            == SignupOutcome(old(db.users), old(db.places), inputsValid, name, email, password, image,
                             hash, sign, key, newId, lookupFails, saveFails)
  {
    if !inputsValid {
      return Failure(SignupInvalid);
    }
    if lookupFails {
      return Failure(SignupFailed);
    }
    var existingUser := EmailTaken(db.users, email);
    if existingUser {
      return Failure(UserExists);
    }
    var hashedPassword := hash(password, HashRounds);
    if hashedPassword.None? {
      return Failure(HashFailed);
    }
    var createdUser := User(name, email, hashedPassword.value, image, []);
    if saveFails || newId in db.users {
      return Failure(UserSaveFailed);
    }
    db.users := db.users[newId := createdUser];
    var token := sign(TokenPayload(newId, createdUser.email), key, TokenLifetime);
    if token.None? {
      return Failure(SignupFailed);
    }
    res := Success(201, Session(newId, createdUser.email, token.value));
  }

  /**
   * POST /login.  Reads the account table and changes nothing.  An unknown
   * email and a wrong password give the very same 403; `compare` stands for
   * the hash comparison (None: it threw).
   */
  method Login(users: map<Id, User>, email: string, password: string,
               compare: (string, string) -> Option<bool>,
               sign: (TokenPayload, string, string) -> Option<string>, key: string,
               lookupFails: bool)
    returns (r: Response)
    ensures !r.NoResponse?
    ensures lookupFails ==> r == Failure(LoginLookupFailed)
    ensures !lookupFails && !EmailTaken(users, email) ==> r == Failure(BadCredentials)
    ensures r.Failure? && r.error.code == 403 ==> r.error == BadCredentials
    ensures r.Success? ==>
              && r.status == 200 && r.body.Session?
              && r.body.userId in users && r.body.email == email
              && users[r.body.userId].email == email
              && compare(password, users[r.body.userId].password) == Some(true)
              && sign(TokenPayload(r.body.userId, email), key, TokenLifetime) == Some(r.body.token)
    ensures !lookupFails && UniqueEmails(users) ==>
              forall u :: u in users && users[u].email == email ==>
                && (compare(password, users[u].password).None? ==> r == Failure(LoginFailed))
                && (compare(password, users[u].password) == Some(false) ==> r == Failure(BadCredentials))
                && (compare(password, users[u].password) == Some(true) ==>
                      r == match sign(TokenPayload(u, email), key, TokenLifetime)
                           case None => Failure(LoginFailed)
                           case Some(token) => Success(200, Session(u, email, token)))
  {
    if lookupFails {
      return Failure(LoginLookupFailed);
    }
    if !EmailTaken(users, email) {
      return Failure(BadCredentials);
    }
    var uid :| uid in users && users[uid].email == email;
    var user := users[uid];
    var passwordMatch := compare(password, user.password);
    if passwordMatch.None? {
      return Failure(LoginFailed);
    }
    if !passwordMatch.value {
      return Failure(BadCredentials);
    }
    var token := sign(TokenPayload(uid, user.email), key, TokenLifetime);
    if token.None? {
      return Failure(LoginFailed);
    }
    r := Success(200, Session(uid, user.email, token.value));
  }
}
