/** The read-only trip handlers: a user's trips, one trip with its owner's
    name, and the public share view of a trip. Each is a function of the
    tables and the path parameters. */
module TripsController {
  import opened Base
  import opened Js
  import opened Store
  import opened TripsService

  // ---------------------------------------------------------------------------
  // getTripsByUserId
  // ---------------------------------------------------------------------------

  datatype TripsReply = TripsOfUser(trips: map<Id, Trip>) | TripsFailed
  {
    function Status(): int {
      match this
      case TripsOfUser(_) => 200
      case TripsFailed => 500
    }
  }

  /** getTripsByUserId: the id is read with parseInt; NaN is refused by the
      store (500). Public and private trips alike are listed. */
  function GetTripsByUserId(trips: map<Id, Trip>, idParam: string): (r: TripsReply)
    ensures r == TripsFailed <==> ParseInt(idParam).None?
    ensures r.TripsOfUser? ==>
              && (forall k :: k in r.trips <==> k in trips && trips[k].userId == ParseInt(idParam).value)
              && (forall k :: k in r.trips ==> r.trips[k] == trips[k])
  {
    match ParseInt(idParam)
    case None => TripsFailed
    case Some(u) => TripsOfUser(map k | k in trips && trips[k].userId == u :: trips[k])
  }

  // ---------------------------------------------------------------------------
  // getById
  // ---------------------------------------------------------------------------

  datatype TripReply = TripWithOwner(trip: Trip, firstName: string, lastName: string) | TripNotFound | TripFailed
  {
    function Status(): int {
      match this
      case TripWithOwner(_, _, _) => 200
      case TripNotFound => 404
      case TripFailed => 500
    }
  }

  /** getById: the trip with its owner's first and last name, 404 when there
      is no such trip, 500 when the id is NaN. */
  function GetById(t: Tables, idParam: string): (r: TripReply)
    requires NoOrphanRows(t)
    ensures r == TripFailed <==> ParseInt(idParam).None?
    ensures r == TripNotFound <==> ParseInt(idParam).Some? && ParseInt(idParam).value !in t.trips
    ensures r.TripWithOwner? ==>
              var k := ParseInt(idParam).value;
              && k in t.trips && r.trip == t.trips[k]
              && r.firstName == t.users[r.trip.userId].firstName
              && r.lastName == t.users[r.trip.userId].lastName
  {
    match ParseInt(idParam)
    case None => TripFailed
    case Some(k) =>
      if k !in t.trips then TripNotFound
      else
        var owner := t.users[t.trips[k].userId];
        TripWithOwner(t.trips[k], owner.firstName, owner.lastName)
  }

  /** Every stored trip is found at its id and is listed under its owner. */
  lemma TripListedUnderOwner(t: Tables, k: Id)
    requires NoOrphanRows(t) && k in t.trips
    ensures GetById(t, Decimal(k)) == TripWithOwner(t.trips[k], t.users[t.trips[k].userId].firstName,
                                                    t.users[t.trips[k].userId].lastName)
    ensures var r := GetTripsByUserId(t.trips, Decimal(t.trips[k].userId));
            r.TripsOfUser? && k in r.trips
  {
    ParseIntOfDecimal(k, "");
    assert Decimal(k) + "" == Decimal(k);
    ParseIntOfDecimal(t.trips[k].userId, "");
    assert Decimal(t.trips[k].userId) + "" == Decimal(t.trips[k].userId);
  }

  // ---------------------------------------------------------------------------
  // getShare
  // ---------------------------------------------------------------------------

  /** A step with its photos and its comments. */
  datatype SharedStep = SharedStep(step: Step, photos: map<Id, Photo>, comments: map<Id, Comment>)

  /** The trip as the share view includes it: its steps, and the owner's
      whole row. */
  datatype SharedTrip = SharedTrip(trip: Trip, steps: map<Id, SharedStep>, owner: User)

  datatype ShareReply = Shared(message: string, trip: SharedTrip) | ShareNotFound | ShareFailed
  {
    function Status(): int {
      match this
      case Shared(_, _) => 200
      case ShareNotFound => 404
      case ShareFailed => 500
    }
  }

  const SharePrefix: string := "Voici le voyage partag\U{E9} par "

  function SharedStepOf(t: Tables, sid: Id): SharedStep
    requires sid in t.steps
  {
    SharedStep(t.steps[sid],
               map p | p in t.photos && t.photos[p].stepId == sid :: t.photos[p],
               map c | c in t.comments && t.comments[c].stepId == sid :: t.comments[c])
  }

  /** getShare: the trip id is read with `Number`; a missing or private trip
      is 404; the message quotes the two other path parameters as given. */
  function GetShare(t: Tables, fullName: string, tripIdParam: string, tripName: string): (r: ShareReply)
    requires NoOrphanRows(t)
    ensures r == ShareFailed <==> NumberOf(tripIdParam).None?
    ensures r == ShareNotFound <==>
              NumberOf(tripIdParam).Some? &&
              (NumberOf(tripIdParam).value !in t.trips || !t.trips[NumberOf(tripIdParam).value].isPublic)
    ensures r.Shared? ==>
              var k := NumberOf(tripIdParam).value;
              && k in t.trips && t.trips[k].isPublic
              && r.message == SharePrefix + fullName + ": " + tripName
              && r.trip.trip == t.trips[k]
              && r.trip.owner == t.users[t.trips[k].userId]
              && (forall s :: s in r.trip.steps <==> s in t.steps && t.steps[s].tripId == k)
              && (forall s :: s in r.trip.steps ==> r.trip.steps[s].step == t.steps[s])
              && (forall s, p :: s in r.trip.steps ==>
                    (p in r.trip.steps[s].photos <==> p in t.photos && t.photos[p].stepId == s))
              && (forall s, p :: s in r.trip.steps && p in r.trip.steps[s].photos ==>
                    r.trip.steps[s].photos[p] == t.photos[p])
              && (forall s, c :: s in r.trip.steps ==>
                    (c in r.trip.steps[s].comments <==> c in t.comments && t.comments[c].stepId == s))
              && (forall s, c :: s in r.trip.steps && c in r.trip.steps[s].comments ==>
                    r.trip.steps[s].comments[c] == t.comments[c])
  {
    match NumberOf(tripIdParam)
    case None => ShareFailed
    case Some(k) =>
      if k !in t.trips || !t.trips[k].isPublic then ShareNotFound
      else
        var steps := map s | s in t.steps && t.steps[s].tripId == k :: SharedStepOf(t, s);
        Shared(SharePrefix + fullName + ": " + tripName,
               SharedTrip(t.trips[k], steps, t.users[t.trips[k].userId]))
  }

  /** A trip created public can be opened from its share link at once; one
      created private cannot. */
  lemma CreatedTripShared(t: Tables, k: Id, data: NewTrip, uuid: string, fullName: string, tripName: string)
    requires NoOrphanRows(t) && k in t.trips && t.trips[k] == NewTripRow(data, uuid)
    ensures GetShare(t, fullName, Decimal(k), tripName).Shared? <==> data.isPublic == Some(true)
    ensures data.isPublic != Some(true) ==> GetShare(t, fullName, Decimal(k), tripName) == ShareNotFound
  {
    NumberOfDecimal(k);
  }

  /** Making a trip private closes its share link, although the trip keeps
      its share token. */
  lemma UnsharedTripHidden(t: Tables, k: Id, patch: TripPatch, uuid: string, fullName: string, tripName: string)
    requires NoOrphanRows(t) && k in t.trips && patch.isPublic == Some(false)
    ensures var after := t.(trips := t.trips[k := PatchedTrip(t.trips[k], patch, uuid)]);
            && after.trips[k].shareToken == t.trips[k].shareToken
            && GetShare(after, fullName, Decimal(k), tripName) == ShareNotFound
  {
    NumberOfDecimal(k);
    var after := t.(trips := t.trips[k := PatchedTrip(t.trips[k], patch, uuid)]);
    assert NoOrphanRows(after);
  }

  /** The share view never looks at the share token: a trip is shown or
      refused the same whatever token it holds. */
  lemma ShareIgnoresToken(t: Tables, k: Id, token: Option<string>, fullName: string, tripIdParam: string,
                          tripName: string)
    requires NoOrphanRows(t) && k in t.trips
    ensures var other := t.(trips := t.trips[k := t.trips[k].(shareToken := token)]);
            GetShare(other, fullName, tripIdParam, tripName).Shared?
            <==> GetShare(t, fullName, tripIdParam, tripName).Shared?
  {
    var other := t.(trips := t.trips[k := t.trips[k].(shareToken := token)]);
    assert NoOrphanRows(other);
  }
}
