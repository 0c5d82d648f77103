/** The trip service: creating a trip, patching it, and deleting it with
    everything that hangs off it. A trip that is shared publicly carries a
    share token; the token is issued when the trip is created public and
    re-issued each time it is made public again. */
module TripsService {
  import opened Base
  import opened Js
  import opened Store

  // ---------------------------------------------------------------------------
  // Share tokens
  // ---------------------------------------------------------------------------

  /** Every public trip can be reached by its share link. */
  ghost predicate SharedTripsHaveTokens(trips: map<Id, Trip>) {
    forall k :: k in trips && trips[k].isPublic ==> trips[k].shareToken.Some?
  }

  // ---------------------------------------------------------------------------
  // createTrip
  // ---------------------------------------------------------------------------

  /** The request body of createTrip; `isPublic` may be left out. */
  datatype NewTrip = NewTrip(
    name: string,
    summary: string,
    startDate: int,
    endDate: int,
    country: string,
    userId: Id,
    isPublic: Option<bool>)

  /** The row createTrip inserts; `uuid` is what uuidv4() returns. */
  function NewTripRow(data: NewTrip, uuid: string): (t: Trip)
    ensures t.isPublic <==> data.isPublic == Some(true)
    ensures t.shareToken.Some? <==> t.isPublic
    ensures t.shareToken.Some? ==> t.shareToken.value == uuid
    ensures t.userId == data.userId
  {
    Trip(data.userId, data.name, data.summary, data.startDate, data.endDate, data.country,
         if data.isPublic.Some? then data.isPublic.value else false,
         if data.isPublic == Some(true) then Some(uuid) else None)
  }

  /** createTrip: one insert, refused when the owner does not exist. */
  method CreateTrip(db: Database, data: NewTrip, uuid: string) returns (r: Answer<Id>)
    requires db.Valid()
    modifies db`trips, db`nextTrip
    ensures db.Valid()
    ensures SharedTripsHaveTokens(old(db.trips)) ==> SharedTripsHaveTokens(db.trips)
    ensures data.userId !in db.users ==> r == Refused(ForeignKeyViolation) && db.trips == old(db.trips)
    ensures data.userId in db.users ==>
              && r == Done(old(db.nextTrip))
              && db.trips == old(db.trips)[old(db.nextTrip) := NewTripRow(data, uuid)]
  {
    r := db.InsertTrip(NewTripRow(data, uuid));
  }

  // ---------------------------------------------------------------------------
  // updateTrip
  // ---------------------------------------------------------------------------

  /** The request body of updateTrip. A field that is `None` is left out of
      the update; a date is `None` also when it is empty. */
  datatype TripPatch = TripPatch(
    name: Option<string>,
    summary: Option<string>,
    startDate: Option<int>,
    endDate: Option<int>,
    country: Option<string>,
    isPublic: Option<bool>)

  function Pick<T>(field: Option<T>, current: T): T {
    if field.Some? then field.value else current
  }

  /** The trip after an update: each field the patch supplies takes the
      supplied value and each other field keeps its own. Making the trip
      public issues a fresh token; making it private, or leaving `isPublic`
      out, keeps the token. */
  function PatchedTrip(t: Trip, patch: TripPatch, uuid: string): (r: Trip)
    ensures r.userId == t.userId
    ensures patch.name.Some? ==> r.name == patch.name.value
    ensures patch.name.None? ==> r.name == t.name
    ensures patch.summary.Some? ==> r.summary == patch.summary.value
    ensures patch.summary.None? ==> r.summary == t.summary
    ensures patch.startDate.Some? ==> r.startDate == patch.startDate.value
    ensures patch.startDate.None? ==> r.startDate == t.startDate
    ensures patch.endDate.Some? ==> r.endDate == patch.endDate.value
    ensures patch.endDate.None? ==> r.endDate == t.endDate
    ensures patch.country.Some? ==> r.country == patch.country.value
    ensures patch.country.None? ==> r.country == t.country
    ensures patch.isPublic.Some? ==> r.isPublic == patch.isPublic.value
    ensures patch.isPublic.None? ==> r.isPublic == t.isPublic
    ensures patch.isPublic == Some(true) ==> r.isPublic && r.shareToken == Some(uuid)
    ensures patch.isPublic != Some(true) ==> r.shareToken == t.shareToken
    ensures patch.isPublic == Some(false) ==> !r.isPublic
  {
    Trip(t.userId,
         Pick(patch.name, t.name),
         Pick(patch.summary, t.summary),
         Pick(patch.startDate, t.startDate),
         Pick(patch.endDate, t.endDate),
         Pick(patch.country, t.country),
         Pick(patch.isPublic, t.isPublic),
         if patch.isPublic == Some(true) then Some(uuid) else t.shareToken)
  }

  /** An empty patch changes nothing. */
  lemma EmptyPatchKeepsTrip(t: Trip, uuid: string)
    ensures PatchedTrip(t, TripPatch(None, None, None, None, None, None), uuid) == t
  {
  }

  /** No update can leave a public trip without a share token. */
  lemma PatchKeepsTokens(trips: map<Id, Trip>, id: Id, patch: TripPatch, uuid: string)
    requires id in trips && SharedTripsHaveTokens(trips)
    ensures SharedTripsHaveTokens(trips[id := PatchedTrip(trips[id], patch, uuid)])
  {
  }

  /** updateTrip: one update of the row; NaN or an unknown id is refused. */
  method UpdateTrip(db: Database, id: Option<int>, patch: TripPatch, uuid: string) returns (r: Answer<()>)
    requires db.Valid()
    modifies db`trips
    ensures db.Valid()
    ensures SharedTripsHaveTokens(old(db.trips)) ==> SharedTripsHaveTokens(db.trips)
    ensures r.Refused? ==> db.trips == old(db.trips)
    ensures id.None? ==> r == Refused(InvalidArgument)
    ensures id.Some? && id.value !in old(db.trips) ==> r == Refused(RecordNotFound)
    ensures id.Some? && id.value in old(db.trips) ==>
              r == Done(()) && db.trips == old(db.trips)[id.value := PatchedTrip(old(db.trips)[id.value], patch, uuid)]
  {
    if id.None? {
      return Refused(InvalidArgument);
    }
    if id.value !in db.trips {
      return Refused(RecordNotFound);
    }
    r := db.UpdateTrip(id.value, PatchedTrip(db.trips[id.value], patch, uuid));
    if SharedTripsHaveTokens(old(db.trips)) {
      PatchKeepsTokens(old(db.trips), id.value, patch, uuid);
    }
  }

  // ---------------------------------------------------------------------------
  // deleteTrip: a manual cascade of five statements, with no transaction
  // ---------------------------------------------------------------------------

  /** The statements of deleteTrip, in the order it issues them. */
  datatype Stage = PhotosStage | CommentsStage | StepsStage | LocationsStage | TripStage

  function Rank(s: Stage): nat {
    match s
    case PhotosStage => 0
    case CommentsStage => 1
    case StepsStage => 2
    case LocationsStage => 3
    case TripStage => 4
  }

  /** Stage `s` runs when the store does not fail at it or before it. */
  predicate Reaches(fault: Option<Stage>, s: Stage) {
    fault.None? || Rank(s) < Rank(fault.value)
  }

  /** The tables after deleteTrip for trip `tid`, when the store fails at
      stage `fault` (if any): every stage before it has taken effect. */
  function Cascade(t: Tables, tid: Id, fault: Option<Stage>): (r: Tables)
    ensures r.users == t.users
  {
    t.(photos := if Reaches(fault, PhotosStage) then t.photos - PhotosOfTrip(t.photos, t.steps, tid) else t.photos,
       comments := if Reaches(fault, CommentsStage) then t.comments - CommentsOfTrip(t.comments, t.steps, tid) else t.comments,
       steps := if Reaches(fault, StepsStage) then t.steps - StepsOfTrip(t.steps, tid) else t.steps,
       locations := if Reaches(fault, LocationsStage) then t.locations - LocationsOfTrip(t.locations, tid) else t.locations,
       trips := if Reaches(fault, TripStage) then t.trips - {tid} else t.trips)
  }

  /** After a complete cascade nothing refers to the trip or to its steps. */
  lemma CascadeLeavesNoTrace(t: Tables, tid: Id)
    requires NoOrphanRows(t)
    ensures var r := Cascade(t, tid, None);
      && tid !in r.trips
      && (forall k :: k in r.steps ==> r.steps[k].tripId != tid)
      && (forall k :: k in r.locations ==> r.locations[k].tripId != tid)
      && (forall k :: k in r.photos ==> r.photos[k].stepId !in StepsOfTrip(t.steps, tid))
      && (forall k :: k in r.comments ==> r.comments[k].stepId !in StepsOfTrip(t.steps, tid))
  {
  }

  /** Rows of other trips are untouched, whatever stage the store fails at. */
  lemma CascadeKeepsOtherTrips(t: Tables, tid: Id, fault: Option<Stage>)
    requires NoOrphanRows(t)
    ensures var r := Cascade(t, tid, fault);
      && (forall k :: k in t.trips && k != tid ==> k in r.trips && r.trips[k] == t.trips[k])
      && (forall k :: k in t.steps && t.steps[k].tripId != tid ==> k in r.steps && r.steps[k] == t.steps[k])
      && (forall k :: k in t.locations && t.locations[k].tripId != tid ==> k in r.locations && r.locations[k] == t.locations[k])
      && (forall k :: k in t.photos && t.steps[t.photos[k].stepId].tripId != tid ==> k in r.photos && r.photos[k] == t.photos[k])
      && (forall k :: k in t.comments && t.steps[t.comments[k].stepId].tripId != tid ==> k in r.comments && r.comments[k] == t.comments[k])
  {
  }

  /** The order of the statements is what keeps every intermediate state
      free of orphan rows: children go before their parents. */
  lemma CascadeKeepsLinks(t: Tables, tid: Id, fault: Option<Stage>)
    requires NoOrphanRows(t)
    ensures NoOrphanRows(Cascade(t, tid, fault))
  {
    var r := Cascade(t, tid, fault);
    forall k | k in r.photos
      ensures r.photos[k].stepId in r.steps
    {
      var s := t.photos[k].stepId;
      if Reaches(fault, StepsStage) {
        assert k !in PhotosOfTrip(t.photos, t.steps, tid);
        assert s !in StepsOfTrip(t.steps, tid);
      }
    }
    forall k | k in r.comments
      ensures r.comments[k].stepId in r.steps
    {
      var s := t.comments[k].stepId;
      if Reaches(fault, StepsStage) {
        assert k !in CommentsOfTrip(t.comments, t.steps, tid);
        assert s !in StepsOfTrip(t.steps, tid);
      }
    }
    forall k | k in r.steps
      ensures r.steps[k].tripId in r.trips
    {
      if Reaches(fault, TripStage) {
        assert k !in StepsOfTrip(t.steps, tid);
      }
    }
    forall k | k in r.locations
      ensures r.locations[k].tripId in r.trips
    {
      if Reaches(fault, TripStage) {
        assert k !in LocationsOfTrip(t.locations, tid);
      }
    }
  }

  /** Once the photos and comments of a trip's steps are gone, no step of
      the trip is referenced any more. */
  lemma StepsOfTripUnreferenced(t: Tables, tid: Id, photos: map<Id, Photo>, comments: map<Id, Comment>)
    requires photos == t.photos - PhotosOfTrip(t.photos, t.steps, tid)
    requires comments == t.comments - CommentsOfTrip(t.comments, t.steps, tid)
    ensures forall k, j :: k in t.steps && t.steps[k].tripId == tid && j in photos ==> photos[j].stepId != k
    ensures forall k, j :: k in t.steps && t.steps[k].tripId == tid && j in comments ==> comments[j].stepId != k
  {
  }

  /** Only a run without a fault reaches the last statement. */
  lemma ReachesLastStage(fault: Option<Stage>)
    ensures Reaches(fault, TripStage) <==> fault.None?
  {
  }

  /** A run that fails at any statement leaves the trip row itself, and
      every row of the tables before the failing statement's, in place:
      the trip can be deleted again, and nothing is rolled back. */
  lemma FailedCascadeKeepsTrip(t: Tables, tid: Id, fault: Option<Stage>)
    requires fault.Some?
    ensures Cascade(t, tid, fault).trips == t.trips
    ensures Rank(fault.value) <= Rank(StepsStage) ==> Cascade(t, tid, fault).steps == t.steps
    ensures fault == Some(PhotosStage) ==> Cascade(t, tid, fault) == t
  {
    ReachesLastStage(fault);
  }

  datatype DeleteTripReply = TripDeleted | TripDeleteFailed
  {
    function Status(): int {
      match this
      case TripDeleted => 200
      case TripDeleteFailed => 500
    }
  }

  /** The first two statements of deleteTrip: the photos, then the
      comments, of the trip's steps. */
  method DeleteStepChildren(db: Database, tid: Id, fault: Option<Stage>) returns (ok: bool)
    requires db.Valid()
    modifies db`photos, db`comments
    ensures db.Valid()
    ensures ok <==> Reaches(fault, StepsStage)
    ensures db.photos == Cascade(old(db.Snapshot()), tid, fault).photos
    ensures db.comments == Cascade(old(db.Snapshot()), tid, fault).comments
  {
    if !Reaches(fault, PhotosStage) {
      return false;
    }
    db.DeletePhotosOfTrip(tid);
    if !Reaches(fault, CommentsStage) {
      return false;
    }
    db.DeleteCommentsOfTrip(tid);
    ok := Reaches(fault, StepsStage);
  }

  /** The last three statements of deleteTrip: the steps, the locations,
      then the trip, once nothing refers to the trip's steps any more. */
  method DeleteTripRows(db: Database, tid: Id, fault: Option<Stage>) returns (deleted: bool)
    requires db.Valid() && Reaches(fault, StepsStage)
    requires forall k, j :: k in db.steps && db.steps[k].tripId == tid && j in db.photos ==> db.photos[j].stepId != k
    requires forall k, j :: k in db.steps && db.steps[k].tripId == tid && j in db.comments ==> db.comments[j].stepId != k
    modifies db`steps, db`locations, db`trips
    ensures db.Valid()
    ensures db.steps == Cascade(old(db.Snapshot()), tid, fault).steps
    ensures db.locations == Cascade(old(db.Snapshot()), tid, fault).locations
    ensures db.trips == Cascade(old(db.Snapshot()), tid, fault).trips
    ensures deleted <==> fault.None? && tid in old(db.trips)
  {
    // refused only if a step of the trip were still referenced
    var stepsDeleted := db.DeleteStepsOfTrip(tid);
    ReachesLastStage(fault);
    if !Reaches(fault, LocationsStage) {
      return false;
    }
    db.DeleteLocationsOfTrip(tid);
    if !Reaches(fault, TripStage) {
      return false;
    }
    var tripDeleted := db.DeleteTrip(tid);
    deleted := tripDeleted.Done?;
  }

  /** The five statements of deleteTrip for trip `tid`. `fault` names the
      statement at which the store connection fails, if any; the statements
      before it stay applied. With no fault the cascade empties the trip of
      children first, so no statement is refused for a remaining reference,
      and the trip itself goes exactly when it existed. */
  method DeleteTripCascade(db: Database, tid: Id, fault: Option<Stage>) returns (deleted: bool)
    requires db.Valid()
    modifies db`photos, db`comments, db`steps, db`locations, db`trips
    ensures db.Valid()
    ensures db.Snapshot() == Cascade(old(db.Snapshot()), tid, fault)
    ensures deleted <==> fault.None? && tid in old(db.trips)
  {
    ghost var t0 := db.Snapshot();
    var ok := DeleteStepChildren(db, tid, fault);
    if !ok {
      return false;
    }
    StepsOfTripUnreferenced(t0, tid, db.photos, db.comments);
    deleted := DeleteTripRows(db, tid, fault);
  }

  /** deleteTrip: the path id is parsed; NaN is refused by the first
      statement, which changes nothing; otherwise the cascade runs, and the
      answer is 200 only when every statement succeeded. */
  method DeleteTrip(db: Database, idParam: string, fault: Option<Stage>) returns (reply: DeleteTripReply)
    requires db.Valid()
    modifies db`photos, db`comments, db`steps, db`locations, db`trips
    ensures db.Valid()
    ensures ParseInt(idParam).None? ==> reply == TripDeleteFailed && db.Snapshot() == old(db.Snapshot())
    ensures ParseInt(idParam).Some? ==>
              var tid := ParseInt(idParam).value;
              && db.Snapshot() == Cascade(old(db.Snapshot()), tid, fault)
              && (reply == TripDeleted <==> fault.None? && tid in old(db.trips))
  {
    var id := ParseInt(idParam);
    if id.None? {
      return TripDeleteFailed;
    }
    var deleted := DeleteTripCascade(db, id.value, fault);
    reply := if deleted then TripDeleted else TripDeleteFailed;
  }
}
