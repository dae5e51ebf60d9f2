/**
 * The place handlers: two read queries over the place table, and create,
 * update and delete, each a chain of early returns ending in one write.
 * Every mutating handler is given twice: as a function from the old tables
 * to an `Outcome` (whose contract states what the handler promises) and as a
 * method that performs the steps on the shared `Database` and is proved to
 * produce that outcome.
 */
module Places {
  import opened Wrappers
  import opened Store
  import opened Http

  const PlaceLookupFailed := HttpError("Could not find a place for the provided id.", 500)
  const PlaceNotFound := HttpError("Could not find a place for the provided id.", 404)
  const PlacesFetchFailed := HttpError("Fetching places failed, please try again later.", 500)
  const InvalidInputs := HttpError("Invalid inputs passed, please check your data.", 422)
  const CreateFailed := HttpError("Creating place failed, please try again.", 500)
  const CreatorNotFound := HttpError("Could not find user for provided id", 404)
  const FetchForUpdateFailed := HttpError("Fetching place failed, please try again later.", 500)
  const UpdateTargetNotFound := HttpError("Could not find place with provided id.", 404)
  const EditForbidden := HttpError("You are not allowed to edit this place.", 401)
  const SaveFailed := HttpError("Could not save place to database.", 500)
  const FetchForDeleteFailed := HttpError("Could not delete place with provided id.", 500)
  const DeleteTargetNotFound := HttpError("Could not find place for provided id.", 404)
  const DeleteForbidden := HttpError("You are not allowed to delete this place.", 401)
  const DeleteFailed := HttpError("Could not delete place in database.", 500)
  const Deleted := "Deleted place."

  /** The validation rules of the create route: non-empty title and address, description of 5 or more. */
  predicate ValidNewPlace(title: string, description: string, address: string)
  {
    title != "" && |description| >= 5 && address != ""
  }

  /** The validation rules of the update route: non-empty title, description of 5 or more. */
  predicate ValidPlaceEdit(title: string, description: string)
  {
    title != "" && |description| >= 5
  }

  /** GET /:pid.  `lookupFails` stands for `findById` throwing. */
  function GetPlaceById(places: map<Id, Place>, pid: Id, lookupFails: bool): (r: Response)
    ensures lookupFails ==> r == Failure(PlaceLookupFailed)
    ensures !lookupFails && pid !in places ==> r == Failure(PlaceNotFound)
    ensures r.Success? <==> !lookupFails && pid in places
    ensures r.Success? ==> r == Success(200, PlaceBody(pid, places[pid]))
  {
    if lookupFails then Failure(PlaceLookupFailed)
    else if pid !in places then Failure(PlaceNotFound)
    else Success(200, PlaceBody(pid, places[pid]))
  }

  /**
   * GET /user/:uid: the places whose creator is `uid`.  `find` yields an
   * empty list, never null, so the source's 404 branch cannot be reached.
   */
  function GetPlacesByUserId(places: map<Id, Place>, uid: Id, lookupFails: bool): (r: Response)
    ensures lookupFails ==> r == Failure(PlacesFetchFailed)
    ensures !lookupFails ==> r.Success? && r.status == 200 && r.body.PlaceList?
    ensures r.Success? ==>
              forall p :: p in r.body.places <==> p in places && places[p].creator == uid
    ensures r.Success? ==>
              forall p :: p in r.body.places ==> r.body.places[p] == places[p]
  {
    if lookupFails then Failure(PlacesFetchFailed)
    else Success(200, PlaceList(map p | p in places && places[p].creator == uid :: places[p]))
  }

  /** The elements of a list of ids, as a set. */
  function Elements(s: seq<Id>): (r: set<Id>)
    ensures forall x :: x in r <==> x in s
    ensures NoDuplicates(s) ==> |r| == |s|
  {
    if s == [] then {}
    else
      assert NoDuplicates(s) ==> s[0] !in s[1..] && NoDuplicates(s[1..]);
      {s[0]} + Elements(s[1..])
  }

  /**
   * In a consistent store the places listed for an account are exactly the
   * places its `places` array names, as many as that array has entries.
   */
  lemma PlacesByUserMatchOwnedList(users: map<Id, User>, places: map<Id, Place>, uid: Id)
    requires Consistent(users, places)
    requires uid in users
    ensures GetPlacesByUserId(places, uid, false).body.places.Keys == Elements(users[uid].places)
    ensures |GetPlacesByUserId(places, uid, false).body.places| == |users[uid].places|
  {
    var listed := GetPlacesByUserId(places, uid, false).body.places;
    var owned := Elements(users[uid].places);
    forall p | p in listed.Keys ensures p in owned {
      assert places[p].creator == uid;
    }
    forall p | p in owned ensures p in listed.Keys {
      assert p in users[uid].places;
    }
    assert listed.Keys == owned;
    assert NoDuplicates(users[uid].places);
  }

  /** An id nobody owns lists nothing, and that is a 200, not a 404. */
  lemma PlacesOfUnknownUserAreEmpty(users: map<Id, User>, places: map<Id, Place>, uid: Id)
    requires Consistent(users, places)
    requires uid !in users
    ensures GetPlacesByUserId(places, uid, false) == Success(200, PlaceList(map[]))
  {
    var listed := GetPlacesByUserId(places, uid, false).body.places;
    assert listed == map[];
  }

  /**
   * POST /.  `inputsValid` is the validation result, `geocode` the address
   * resolver, `newId` the id the new document receives, `lookupFails` a
   * throwing `findById`, `commitFails` any failure inside the transaction.
   * A 422 for invalid input returns at once (CreatePlaceAsWritten is the
   * handler as it is written).
   */
  function CreatePlaceOutcome(users: map<Id, User>, places: map<Id, Place>, userId: Id,
                              title: string, description: string, address: string, image: string,
                              inputsValid: bool, geocode: string -> Result<Coordinates>,
                              newId: Id, lookupFails: bool, commitFails: bool): (o: Outcome)
    ensures o.unlink == None
    // outcomes are decided in order: validation, geocoding, user lookup, user existence, commit
    ensures !inputsValid ==> o == Outcome(Failure(InvalidInputs), users, places, None)
    ensures inputsValid && geocode(address).Err? ==>
              o == Outcome(Failure(geocode(address).error), users, places, None)
    ensures inputsValid && geocode(address).Ok? && lookupFails ==>
              o == Outcome(Failure(CreateFailed), users, places, None)
    ensures inputsValid && geocode(address).Ok? && !lookupFails && userId !in users ==>
              o == Outcome(Failure(CreatorNotFound), users, places, None)
    ensures inputsValid && geocode(address).Ok? && !lookupFails && userId in users
            && (commitFails || newId in places) ==>
              o == Outcome(Failure(CreateFailed), users, places, None)
    // a request that passes every check is created
    ensures o.response.Success? <==>
              inputsValid && geocode(address).Ok? && !lookupFails && userId in users
              && !commitFails && newId !in places
    // both tables change together or neither does
    ensures !o.response.Success? ==> o.users == users && o.places == places
    ensures o.response.Success? ==>
              && geocode(address).Ok?
              && userId in users && newId !in places
              && o.places == places[newId := Place(title, description, image, address,
                                                    geocode(address).value, userId)]
              && o.users == users[userId := WithPlace(users[userId], newId)]
              && o.response == Success(201, PlaceBody(newId, o.places[newId]))
    ensures o.response.Success? ==>
              && o.places[newId].creator == userId
              && o.users[userId].places[|o.users[userId].places| - 1] == newId
    ensures Consistent(users, places) ==> Consistent(o.users, o.places)
  {
    if !inputsValid then Outcome(Failure(InvalidInputs), users, places, None)
    else match geocode(address)
      case Err(e) => Outcome(Failure(e), users, places, None)
      case Ok(coordinates) =>
        var created := Place(title, description, image, address, coordinates, userId);
        if lookupFails then Outcome(Failure(CreateFailed), users, places, None)
        else if userId !in users then Outcome(Failure(CreatorNotFound), users, places, None)
        else if commitFails || newId in places then Outcome(Failure(CreateFailed), users, places, None)
        else
          var users', places' := users[userId := WithPlace(users[userId], newId)], places[newId := created];
          assert Consistent(users, places) ==> Consistent(users', places') by {
            if Consistent(users, places) {
              CreateKeepsConsistent(users, places, userId, newId, created);
            }
          }
          Outcome(Success(201, PlaceBody(newId, created)), users', places', None)
  }

  method CreatePlace(db: Database, userId: Id, title: string, description: string, address: string,
                     image: string, geocode: string -> Result<Coordinates>,
                     newId: Id, lookupFails: bool, commitFails: bool)
    returns (res: Response)
    modifies db
    ensures Outcome(res, db.users, db.places, None)
            == CreatePlaceOutcome(old(db.users), old(db.places), userId, title, description, address, image,
                                  ValidNewPlace(title, description, address), geocode,
                                  newId, lookupFails, commitFails)
  {
    if !ValidNewPlace(title, description, address) {
      return Failure(InvalidInputs);
    }
    var coordinates := geocode(address);
    if coordinates.Err? {
      return Failure(coordinates.error);
    }
    var createdPlace := Place(title, description, image, address, coordinates.value, userId);
    if lookupFails {
      return Failure(CreateFailed);
    }
    if userId !in db.users {
      return Failure(CreatorNotFound);
    }
    var user := db.users[userId];
    // the transaction: save the place, push its id, save the account, commit
    if commitFails || newId in db.places {
      return Failure(CreateFailed);
    }
    user := user.(places := user.places + [newId]);
    db.places, db.users := db.places[newId := createdPlace], db.users[userId := user];
    res := Success(201, PlaceBody(newId, createdPlace));
  }

  /**
   * The create handler as written: a validation failure calls `next` with a
   * 422 but does not return, so the rest of the handler runs as if the input
   * were valid.  The first component lists every response the handler tries
   * to send, the second is its effect.
   */
  function CreatePlaceAsWritten(users: map<Id, User>, places: map<Id, Place>, userId: Id,
                                title: string, description: string, address: string, image: string,
                                inputsValid: bool, geocode: string -> Result<Coordinates>,
                                newId: Id, lookupFails: bool, commitFails: bool)
    : (w: (seq<Response>, Outcome))
    ensures inputsValid ==> w.0 == [w.1.response]
    ensures !inputsValid ==> |w.0| == 2 && w.0[0] == Failure(InvalidInputs) && w.0[1] == w.1.response
    ensures w.1.unlink == None
    // the store is written whenever the later checks pass, whatever the validator said
    ensures geocode(address).Ok? && !lookupFails && userId in users && !commitFails && newId !in places ==>
              && w.1.places == places[newId := Place(title, description, image, address,
                                                      geocode(address).value, userId)]
              && w.1.users == users[userId := WithPlace(users[userId], newId)]
              && w.1.response == Success(201, PlaceBody(newId, w.1.places[newId]))
    ensures !(geocode(address).Ok? && !lookupFails && userId in users && !commitFails && newId !in places) ==>
              w.1.places == places && w.1.users == users && !w.1.response.Success?
    // the second response of an invalid request is whichever failure the later steps hit
    ensures geocode(address).Err? ==> w.1.response == Failure(geocode(address).error)
    ensures geocode(address).Ok? && lookupFails ==> w.1.response == Failure(CreateFailed)
    ensures geocode(address).Ok? && !lookupFails && userId !in users ==> w.1.response == Failure(CreatorNotFound)
    ensures geocode(address).Ok? && !lookupFails && userId in users && (commitFails || newId in places) ==>
              w.1.response == Failure(CreateFailed)
    ensures Consistent(users, places) ==> Consistent(w.1.users, w.1.places)
  {
    var rest := CreatePlaceOutcome(users, places, userId, title, description, address, image,
                                   true, geocode, newId, lookupFails, commitFails);
    ((if inputsValid then [] else [Failure(InvalidInputs)]) + [rest.response], rest)
  }

  /**
   * The discrepancy: on input the validator rejects (a description shorter
   * than five characters, under a title no schema-level `required` refuses),
   * the handler as written still stores the place and links it to the
   * account, while the corrected handler leaves both tables as they were.
   */
  lemma InvalidPlaceStoredAsWritten(users: map<Id, User>, places: map<Id, Place>, userId: Id,
                                    address: string, image: string,
                                    geocode: string -> Result<Coordinates>, newId: Id)
    requires geocode(address).Ok? && userId in users && newId !in places
    ensures !ValidNewPlace("Cafe", "abc", address)
    ensures var w := CreatePlaceAsWritten(users, places, userId, "Cafe", "abc", address, image,
                                          ValidNewPlace("Cafe", "abc", address), geocode, newId, false, false);
            && w.0 == [Failure(InvalidInputs), Success(201, PlaceBody(newId, w.1.places[newId]))]
            && newId in w.1.places && w.1.places[newId].description == "abc"
            && newId in w.1.users[userId].places
    ensures var o := CreatePlaceOutcome(users, places, userId, "Cafe", "abc", address, image,
                                        ValidNewPlace("Cafe", "abc", address), geocode, newId, false, false);
            o.response == Failure(InvalidInputs) && o.places == places && o.users == users
  {
    var w := CreatePlaceAsWritten(users, places, userId, "Cafe", "abc", address, image,
                                  false, geocode, newId, false, false);
    assert w.1.places[newId].description == "abc";
    assert w.1.users[userId].places[|w.1.users[userId].places| - 1] == newId;
  }

  /** A place a successful create stored is found by id and listed for its creator. */
  lemma CreatedPlaceIsFound(users: map<Id, User>, places: map<Id, Place>, userId: Id,
                            title: string, description: string, address: string, image: string,
                            geocode: string -> Result<Coordinates>, newId: Id)
    requires CreatePlaceOutcome(users, places, userId, title, description, address, image,
                                true, geocode, newId, false, false).response.Success?
    ensures var o := CreatePlaceOutcome(users, places, userId, title, description, address, image,
                                        true, geocode, newId, false, false);
            && GetPlaceById(o.places, newId, false) == Success(200, PlaceBody(newId, o.places[newId]))
            && newId in GetPlacesByUserId(o.places, userId, false).body.places
            && GetPlaceById(o.places, newId, false).body.place.title == title
  {
  }

  /**
   * PATCH /:pid.  Existence is checked before ownership; only the title and
   * the description change, and the account table is never written.
   */
  function UpdatePlaceOutcome(users: map<Id, User>, places: map<Id, Place>, userId: Id, pid: Id,
                              title: string, description: string, inputsValid: bool,
                              lookupFails: bool, saveFails: bool): (o: Outcome)
    ensures o.users == users && o.unlink == None
    ensures !inputsValid ==> o.response == Failure(InvalidInputs)
    ensures inputsValid && lookupFails ==> o.response == Failure(FetchForUpdateFailed)
    ensures inputsValid && !lookupFails && pid !in places ==> o.response == Failure(UpdateTargetNotFound)
    ensures inputsValid && !lookupFails && pid in places && places[pid].creator != userId ==>
              o.response == Failure(EditForbidden)
    ensures inputsValid && !lookupFails && pid in places && places[pid].creator == userId && saveFails ==>
              o.response == Failure(SaveFailed)
    ensures !o.response.Success? ==> o.places == places
    ensures o.response.Success? <==>
              inputsValid && !lookupFails && pid in places && places[pid].creator == userId && !saveFails
    ensures o.response.Success? ==>
              && o.places == places[pid := places[pid].(title := title, description := description)]
              && o.response == Success(200, PlaceBody(pid, o.places[pid]))
    ensures o.places.Keys == places.Keys
    ensures forall q :: q in places && q != pid ==> o.places[q] == places[q]
    ensures forall q :: q in places ==>
              && o.places[q].address == places[q].address
              && o.places[q].location == places[q].location
              && o.places[q].image == places[q].image
              && o.places[q].creator == places[q].creator
    ensures Consistent(users, places) ==> Consistent(o.users, o.places)
  {
    if !inputsValid then Outcome(Failure(InvalidInputs), users, places, None)
    else if lookupFails then Outcome(Failure(FetchForUpdateFailed), users, places, None)
    else if pid !in places then Outcome(Failure(UpdateTargetNotFound), users, places, None)
    else if places[pid].creator != userId then Outcome(Failure(EditForbidden), users, places, None)
    else if saveFails then Outcome(Failure(SaveFailed), users, places, None)
    else
      var edited := places[pid].(title := title, description := description);
      assert Consistent(users, places) ==> Consistent(users, places[pid := edited]) by {
        if Consistent(users, places) {
          EditKeepsConsistent(users, places, pid, edited);
        }
      }
      Outcome(Success(200, PlaceBody(pid, edited)), users, places[pid := edited], None)
  }

  method UpdatePlace(db: Database, userId: Id, pid: Id, title: string, description: string,
                     lookupFails: bool, saveFails: bool)
    returns (res: Response)
    modifies db
    ensures Outcome(res, db.users, db.places, None)
            == UpdatePlaceOutcome(old(db.users), old(db.places), userId, pid, title, description,
                                  ValidPlaceEdit(title, description), lookupFails, saveFails)
  {
    if !ValidPlaceEdit(title, description) {
      return Failure(InvalidInputs);
    }
    if lookupFails {
      return Failure(FetchForUpdateFailed);
    }
    if pid !in db.places {
      return Failure(UpdateTargetNotFound);
    }
    var place := db.places[pid];
    if place.creator != userId {
      return Failure(EditForbidden);
    }
    place := place.(title := title);
    place := place.(description := description);
    if saveFails {
      return Failure(SaveFailed);
    }
    db.places := db.places[pid := place];
    res := Success(200, PlaceBody(pid, place));
  }

  /** After a successful update, reading the place back gives the new title and description. */
  lemma UpdatedPlaceReadsBack(users: map<Id, User>, places: map<Id, Place>, userId: Id, pid: Id,
                              title: string, description: string)
    requires UpdatePlaceOutcome(users, places, userId, pid, title, description, true, false, false).response.Success?
    ensures var o := UpdatePlaceOutcome(users, places, userId, pid, title, description, true, false, false);
            && GetPlaceById(o.places, pid, false).Success?
            && GetPlaceById(o.places, pid, false).body.place.title == title
            && GetPlaceById(o.places, pid, false).body.place.description == description
            && pid in GetPlacesByUserId(o.places, userId, false).body.places
  {
  }

  /**
   * DELETE /:pid.  The place is looked up with its creator populated;
   * existence is checked before ownership.  A place whose creator account is
   * missing makes `place.creator.id` throw outside every `try`, and the
   * request gets no response.  On success the image path read before the
   * transaction is handed to an unlink that is never awaited.
   */
  function DeletePlaceOutcome(users: map<Id, User>, places: map<Id, Place>, userId: Id, pid: Id,
                              lookupFails: bool, commitFails: bool): (o: Outcome)
    ensures lookupFails ==> o.response == Failure(FetchForDeleteFailed)
    ensures !lookupFails && pid !in places ==> o.response == Failure(DeleteTargetNotFound)
    ensures !lookupFails && pid in places && places[pid].creator !in users ==> o.response == NoResponse
    ensures !lookupFails && pid in places && places[pid].creator in users && places[pid].creator != userId ==>
              o.response == Failure(DeleteForbidden)
    ensures !lookupFails && pid in places && places[pid].creator == userId && userId in users && commitFails ==>
              o.response == Failure(DeleteFailed)
    ensures !o.response.Success? ==> o.users == users && o.places == places && o.unlink == None
    ensures o.response.Success? <==>
              !lookupFails && pid in places && places[pid].creator == userId && userId in users && !commitFails
    ensures o.response.Success? ==>
              && o.response == Success(200, Message(Deleted))
              && o.places == places - {pid}
              && o.users == users[userId := WithoutPlace(users[userId], pid)]
              && o.unlink == Some(places[pid].image)
    ensures Consistent(users, places) ==> Consistent(o.users, o.places)
    ensures Consistent(users, places) && o.response.Success? ==>
              forall u :: u in o.users ==> pid !in o.users[u].places
  {
    if lookupFails then Outcome(Failure(FetchForDeleteFailed), users, places, None)
    else if pid !in places then Outcome(Failure(DeleteTargetNotFound), users, places, None)
    else
      var creator := places[pid].creator;
      if creator !in users then Outcome(NoResponse, users, places, None)
      else if creator != userId then Outcome(Failure(DeleteForbidden), users, places, None)
      else
        var imagePath := places[pid].image;
        if commitFails then Outcome(Failure(DeleteFailed), users, places, None)
        else
          var users', places' := users[creator := WithoutPlace(users[creator], pid)], places - {pid};
          assert Consistent(users, places) ==>
                   Consistent(users', places') && forall u :: u in users' ==> pid !in users'[u].places by {
            if Consistent(users, places) {
              DeleteKeepsConsistent(users, places, pid);
            }
          }
          Outcome(Success(200, Message(Deleted)), users', places', Some(imagePath))
  }

  method DeletePlace(db: Database, userId: Id, pid: Id, lookupFails: bool, commitFails: bool)
    returns (res: Response, unlink: Option<string>)
    modifies db
    ensures Outcome(res, db.users, db.places, unlink)
            == DeletePlaceOutcome(old(db.users), old(db.places), userId, pid, lookupFails, commitFails)
  {
    if lookupFails {
      return Failure(FetchForDeleteFailed), None;
    }
    if pid !in db.places {
      return Failure(DeleteTargetNotFound), None;
    }
    var place := db.places[pid];
    if place.creator !in db.users {
      return NoResponse, None;
    }
    var creator := db.users[place.creator];
    if place.creator != userId {
      return Failure(DeleteForbidden), None;
    }
    var imagePath := place.image;
    // the transaction: remove the place, pull its id, save the account, commit
    if commitFails {
      return Failure(DeleteFailed), None;
    }
    creator := creator.(places := Pull(creator.places, pid));
    db.places, db.users := db.places - {pid}, db.users[place.creator := creator];
    // fire-and-forget: the unlink's own result never reaches the response
    unlink := Some(imagePath);
    res := Success(200, Message(Deleted));
  }

  /** After a successful delete the place is neither found by id nor listed for anyone. */
  lemma DeletedPlaceIsGone(users: map<Id, User>, places: map<Id, Place>, userId: Id, pid: Id, owner: Id)
    requires DeletePlaceOutcome(users, places, userId, pid, false, false).response.Success?
    ensures var o := DeletePlaceOutcome(users, places, userId, pid, false, false);
            && GetPlaceById(o.places, pid, false) == Failure(PlaceNotFound)
            && pid !in GetPlacesByUserId(o.places, owner, false).body.places
  {
  }
}
