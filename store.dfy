/** The relational store the handlers talk to through the ORM client: six
    tables (users, trips, steps, photos, comments, locations), one map per
    table keyed by the auto-increment id, with foreign-key fields.

    The statements the handlers issue are the methods of `Database`. Each
    keeps the store's own constraints (`Valid`): ids below the next
    auto-increment value, unique e-mail addresses, and no row whose foreign
    key names a missing parent. A statement that would break one of them is
    refused with the ORM's error (record not found, unique constraint,
    foreign-key constraint) and changes nothing. Deleting a row that other
    rows still reference is refused: the "restrict" referential action,
    which is the ORM's default for required relations. */
module Store {
  import opened Base

  type Id = int

  datatype User = User(
    email: string,
    password: string,         // the bcrypt digest of the password sent
    firstName: string,
    lastName: string,
    address: Option<string>,
    pic: Option<Bytes>,
    picType: Option<string>,
    createdAt: int)

  datatype Trip = Trip(
    userId: Id,
    name: string,
    summary: string,
    startDate: int,
    endDate: int,
    country: string,
    isPublic: bool,
    shareToken: Option<string>)

  datatype Step = Step(tripId: Id, stepDate: int, name: Option<string>, description: string)

  datatype Photo = Photo(stepId: Id, photoUrl: Bytes)

  datatype Comment = Comment(userId: Id, stepId: Id, text: string)

  datatype Location = Location(
    userId: Id,
    tripId: Id,
    city: string,
    latitude: real,
    longitude: real,
    createdAt: int)

  /** Why the store refused a statement. */
  datatype Refusal =
    | RecordNotFound
    | UniqueViolation(field: string)
    | ForeignKeyViolation
    | InvalidArgument    // a value the client validates away, such as NaN for an Int

  datatype Answer<T> = Done(value: T) | Refused(why: Refusal)

  /** The six tables at one instant. */
  datatype Tables = Tables(
    users: map<Id, User>,
    trips: map<Id, Trip>,
    steps: map<Id, Step>,
    photos: map<Id, Photo>,
    comments: map<Id, Comment>,
    locations: map<Id, Location>)

  /** The unique index on `user.email`. */
  ghost predicate UniqueEmails(users: map<Id, User>) {
    forall a, b :: a in users && b in users && users[a].email == users[b].email ==> a == b
  }

  /** Every foreign key names an existing row. */
  ghost predicate NoOrphanRows(t: Tables) {
    && (forall k :: k in t.trips ==> t.trips[k].userId in t.users)
    && (forall k :: k in t.steps ==> t.steps[k].tripId in t.trips)
    && (forall k :: k in t.photos ==> t.photos[k].stepId in t.steps)
    && (forall k :: k in t.comments ==> t.comments[k].stepId in t.steps && t.comments[k].userId in t.users)
    && (forall k :: k in t.locations ==> t.locations[k].userId in t.users && t.locations[k].tripId in t.trips)
  }

  /** The latest location of the pair (u, t), by creation time: what
      `findFirst({ where: { userId, tripId }, orderBy: { createdAt: "desc" } })`
      returns (among rows created at the same instant, any one of them). */
  ghost predicate IsLatest(locations: map<Id, Location>, u: Id, t: Id, k: Id) {
    && k in locations
    && locations[k].userId == u
    && locations[k].tripId == t
    && forall j :: j in locations && locations[j].userId == u && locations[j].tripId == t ==>
         locations[j].createdAt <= locations[k].createdAt
  }

  /** A non-empty set of ids has an element. */
  lemma SomeId(ks: set<Id>)
    ensures ks == {} || exists x :: x in ks
  {
    if !exists x :: x in ks {
      assert ks == {};
    }
  }

  /** A finite, non-empty set of rows has a latest one. */
  lemma {:induction false} LatestExists(locations: map<Id, Location>, ks: set<Id>)
    requires ks != {} && ks <= locations.Keys
    ensures exists k :: k in ks && forall j :: j in ks ==> locations[j].createdAt <= locations[k].createdAt
  {
    SomeId(ks);
    var x :| x in ks;
    if ks != {x} {
      var rest := ks - {x};
      SomeId(rest);
      LatestExists(locations, rest);
      var k :| k in rest && forall j :: j in rest ==> locations[j].createdAt <= locations[k].createdAt;
      if locations[x].createdAt <= locations[k].createdAt {
        assert forall j :: j in ks ==> locations[j].createdAt <= locations[k].createdAt;
      } else {
        assert forall j :: j in ks ==> locations[j].createdAt <= locations[x].createdAt;
      }
    } else {
      assert forall j :: j in ks ==> j == x;
    }
  }

  /** Rows given consecutive ids from `first` on, as a batch insert does. */
  function Numbered<T>(first: Id, rows: seq<T>): (m: map<Id, T>)
    ensures forall k :: k in m ==> first <= k < first + |rows| && m[k] == rows[k - first]
    ensures forall k :: first <= k < first + |rows| ==> k in m
  {
    if rows == [] then map[]
    else Numbered(first, rows[..|rows| - 1])[first + |rows| - 1 := rows[|rows| - 1]]
  }

  /** Photos whose step belongs to trip `tid`. */
  function PhotosOfTrip(photos: map<Id, Photo>, steps: map<Id, Step>, tid: Id): set<Id> {
    set k | k in photos && photos[k].stepId in steps && steps[photos[k].stepId].tripId == tid
  }

  /** Comments whose step belongs to trip `tid`. */
  function CommentsOfTrip(comments: map<Id, Comment>, steps: map<Id, Step>, tid: Id): set<Id> {
    set k | k in comments && comments[k].stepId in steps && steps[comments[k].stepId].tripId == tid
  }

  /** Steps of trip `tid`. */
  function StepsOfTrip(steps: map<Id, Step>, tid: Id): set<Id> {
    set k | k in steps && steps[k].tripId == tid
  }

  /** Check-ins recorded on trip `tid`. */
  function LocationsOfTrip(locations: map<Id, Location>, tid: Id): set<Id> {
    set k | k in locations && locations[k].tripId == tid
  }

  class Database {
    var users: map<Id, User>
    var trips: map<Id, Trip>
    var steps: map<Id, Step>
    var photos: map<Id, Photo>
    var comments: map<Id, Comment>
    var locations: map<Id, Location>

    // the next value of each table's auto-increment id
    var nextUser: Id
    var nextTrip: Id
    var nextStep: Id
    var nextPhoto: Id
    var nextComment: Id
    var nextLocation: Id

    ghost predicate IdsFresh()
      reads this
    {
      && 1 <= nextUser && 1 <= nextTrip && 1 <= nextStep
      && 1 <= nextPhoto && 1 <= nextComment && 1 <= nextLocation
      && (forall k :: k in users ==> 1 <= k < nextUser)
      && (forall k :: k in trips ==> 1 <= k < nextTrip)
      && (forall k :: k in steps ==> 1 <= k < nextStep)
      && (forall k :: k in photos ==> 1 <= k < nextPhoto)
      && (forall k :: k in comments ==> 1 <= k < nextComment)
      && (forall k :: k in locations ==> 1 <= k < nextLocation)
    }

    function Snapshot(): Tables
      reads this
    {
      Tables(users, trips, steps, photos, comments, locations)
    }

    ghost predicate EmailsUnique()
      reads this
    {
      UniqueEmails(users)
    }

    ghost predicate NoOrphans()
      reads this
    {
      NoOrphanRows(Snapshot())
    }

    ghost predicate Valid()
      reads this
    {
      IdsFresh() && EmailsUnique() && NoOrphans()
    }

    constructor ()
      ensures Valid()
      ensures users == map[] && trips == map[] && steps == map[]
      ensures photos == map[] && comments == map[] && locations == map[]
    {
      users, trips, steps, photos, comments, locations := map[], map[], map[], map[], map[], map[];
      nextUser, nextTrip, nextStep, nextPhoto, nextComment, nextLocation := 1, 1, 1, 1, 1, 1;
    }

    // -------------------------------------------------------------------------
    // Lookups
    // -------------------------------------------------------------------------

    predicate EmailTaken(email: string)
      reads this
    {
      exists k | k in users :: users[k].email == email
    }

    /** Some user other than `id` has this e-mail address. */
    predicate EmailTakenByOther(id: Id, email: string)
      reads this
    {
      exists k | k in users :: k != id && users[k].email == email
    }

    predicate UserReferenced(id: Id)
      reads this
    {
      || (exists k | k in trips :: trips[k].userId == id)
      || (exists k | k in comments :: comments[k].userId == id)
      || (exists k | k in locations :: locations[k].userId == id)
    }

    predicate TripReferenced(id: Id)
      reads this
    {
      || (exists k | k in steps :: steps[k].tripId == id)
      || (exists k | k in locations :: locations[k].tripId == id)
    }

    predicate StepReferenced(id: Id)
      reads this
    {
      || (exists k | k in photos :: photos[k].stepId == id)
      || (exists k | k in comments :: comments[k].stepId == id)
    }

    /** `user.findUnique({ where: { email } })`. */
    method FindUserByEmail(email: string) returns (r: Option<Id>)
      requires EmailsUnique()
      ensures r.None? <==> !EmailTaken(email)
      ensures r.Some? ==> r.value in users && users[r.value].email == email
      ensures r.Some? ==> forall k :: k in users && users[k].email == email ==> k == r.value
    {
      if EmailTaken(email) {
        var k :| k in users && users[k].email == email;
        r := Some(k);
      } else {
        r := None;
      }
    }

    /** `location.findFirst` for the pair, latest `createdAt` first. */
    method FindLatestLocation(u: Id, t: Id) returns (r: Option<Id>)
      ensures r.None? <==> !exists k :: k in locations && locations[k].userId == u && locations[k].tripId == t
      ensures r.Some? ==> IsLatest(locations, u, t, r.value)
    {
      var ks := set k | k in locations && locations[k].userId == u && locations[k].tripId == t;
      if ks == {} {
        assert forall k :: k in locations && locations[k].userId == u && locations[k].tripId == t ==> k in ks;
        r := None;
      } else {
        SomeId(ks);
        LatestExists(locations, ks);
        var k :| k in ks && forall j :: j in ks ==> locations[j].createdAt <= locations[k].createdAt;
        r := Some(k);
      }
    }

    // -------------------------------------------------------------------------
    // users
    // -------------------------------------------------------------------------

    method InsertUser(u: User) returns (r: Answer<Id>)
      requires Valid()
      modifies this`users, this`nextUser
      ensures Valid()
      ensures old(EmailTaken(u.email)) ==>
                r == Refused(UniqueViolation("email")) && users == old(users) && nextUser == old(nextUser)
      ensures !old(EmailTaken(u.email)) ==>
                && r == Done(old(nextUser)) && old(nextUser) !in old(users)
                && users == old(users)[old(nextUser) := u] && nextUser == old(nextUser) + 1
    {
      if EmailTaken(u.email) {
        r := Refused(UniqueViolation("email"));
      } else {
        r := Done(nextUser);
        users := users[nextUser := u];
        nextUser := nextUser + 1;
      }
    }

    method UpdateUser(id: Id, u: User) returns (r: Answer<()>)
      requires Valid()
      modifies this`users
      ensures Valid()
      ensures id !in old(users) ==> r == Refused(RecordNotFound) && users == old(users)
      ensures id in old(users) && old(EmailTakenByOther(id, u.email)) ==>
                r == Refused(UniqueViolation("email")) && users == old(users)
      ensures id in old(users) && !old(EmailTakenByOther(id, u.email)) ==>
                r == Done(()) && users == old(users)[id := u]
    {
      if id !in users {
        r := Refused(RecordNotFound);
      } else if EmailTakenByOther(id, u.email) {
        r := Refused(UniqueViolation("email"));
      } else {
        r := Done(());
        users := users[id := u];
      }
    }

    method DeleteUser(id: Id) returns (r: Answer<()>)
      requires Valid()
      modifies this`users
      ensures Valid()
      ensures id !in old(users) ==> r == Refused(RecordNotFound) && users == old(users)
      ensures id in old(users) && old(UserReferenced(id)) ==>
                r == Refused(ForeignKeyViolation) && users == old(users)
      ensures id in old(users) && !old(UserReferenced(id)) ==>
                r == Done(()) && users == old(users) - {id}
    {
      if id !in users {
        r := Refused(RecordNotFound);
      } else if UserReferenced(id) {
        r := Refused(ForeignKeyViolation);
      } else {
        r := Done(());
        users := users - {id};
      }
    }

    // -------------------------------------------------------------------------
    // trips
    // -------------------------------------------------------------------------

    method InsertTrip(t: Trip) returns (r: Answer<Id>)
      requires Valid()
      modifies this`trips, this`nextTrip
      ensures Valid()
      ensures t.userId !in users ==>
                r == Refused(ForeignKeyViolation) && trips == old(trips) && nextTrip == old(nextTrip)
      ensures t.userId in users ==>
                && r == Done(old(nextTrip)) && old(nextTrip) !in old(trips)
                && trips == old(trips)[old(nextTrip) := t] && nextTrip == old(nextTrip) + 1
    {
      if t.userId !in users {
        r := Refused(ForeignKeyViolation);
      } else {
        r := Done(nextTrip);
        trips := trips[nextTrip := t];
        nextTrip := nextTrip + 1;
      }
    }

    method UpdateTrip(id: Id, t: Trip) returns (r: Answer<()>)
      requires Valid()
      modifies this`trips
      ensures Valid()
      ensures id !in old(trips) ==> r == Refused(RecordNotFound) && trips == old(trips)
      ensures id in old(trips) && t.userId !in users ==>
                r == Refused(ForeignKeyViolation) && trips == old(trips)
      ensures id in old(trips) && t.userId in users ==>
                r == Done(()) && trips == old(trips)[id := t]
    {
      if id !in trips {
        r := Refused(RecordNotFound);
      } else if t.userId !in users {
        r := Refused(ForeignKeyViolation);
      } else {
        r := Done(());
        trips := trips[id := t];
      }
    }

    method DeleteTrip(id: Id) returns (r: Answer<()>)
      requires Valid()
      modifies this`trips
      ensures Valid()
      ensures id !in old(trips) ==> r == Refused(RecordNotFound) && trips == old(trips)
      ensures id in old(trips) && old(TripReferenced(id)) ==>
                r == Refused(ForeignKeyViolation) && trips == old(trips)
      ensures id in old(trips) && !old(TripReferenced(id)) ==>
                r == Done(()) && trips == old(trips) - {id}
    {
      if id !in trips {
        r := Refused(RecordNotFound);
      } else if TripReferenced(id) {
        r := Refused(ForeignKeyViolation);
      } else {
        r := Done(());
        trips := trips - {id};
      }
    }

    // -------------------------------------------------------------------------
    // steps
    // -------------------------------------------------------------------------

    method InsertStep(s: Step) returns (r: Answer<Id>)
      requires Valid()
      modifies this`steps, this`nextStep
      ensures Valid()
      ensures s.tripId !in trips ==>
                r == Refused(ForeignKeyViolation) && steps == old(steps) && nextStep == old(nextStep)
      ensures s.tripId in trips ==>
                && r == Done(old(nextStep)) && old(nextStep) !in old(steps)
                && steps == old(steps)[old(nextStep) := s] && nextStep == old(nextStep) + 1
    {
      if s.tripId !in trips {
        r := Refused(ForeignKeyViolation);
      } else {
        r := Done(nextStep);
        steps := steps[nextStep := s];
        nextStep := nextStep + 1;
      }
    }

    method UpdateStep(id: Id, s: Step) returns (r: Answer<()>)
      requires Valid()
      modifies this`steps
      ensures Valid()
      ensures id !in old(steps) ==> r == Refused(RecordNotFound) && steps == old(steps)
      ensures id in old(steps) && s.tripId !in trips ==>
                r == Refused(ForeignKeyViolation) && steps == old(steps)
      ensures id in old(steps) && s.tripId in trips ==>
                r == Done(()) && steps == old(steps)[id := s]
    {
      if id !in steps {
        r := Refused(RecordNotFound);
      } else if s.tripId !in trips {
        r := Refused(ForeignKeyViolation);
      } else {
        r := Done(());
        steps := steps[id := s];
      }
    }

    method DeleteStep(id: Id) returns (r: Answer<()>)
      requires Valid()
      modifies this`steps
      ensures Valid()
      ensures id !in old(steps) ==> r == Refused(RecordNotFound) && steps == old(steps)
      ensures id in old(steps) && old(StepReferenced(id)) ==>
                r == Refused(ForeignKeyViolation) && steps == old(steps)
      ensures id in old(steps) && !old(StepReferenced(id)) ==>
                r == Done(()) && steps == old(steps) - {id}
    {
      if id !in steps {
        r := Refused(RecordNotFound);
      } else if StepReferenced(id) {
        r := Refused(ForeignKeyViolation);
      } else {
        r := Done(());
        steps := steps - {id};
      }
    }

    /** `step.deleteMany({ where: { tripId } })`: one statement, so a single
        referenced step makes it refuse as a whole. */
    method DeleteStepsOfTrip(tid: Id) returns (r: Answer<()>)
      requires Valid()
      modifies this`steps
      ensures Valid()
      ensures (exists k :: k in old(steps) && old(steps)[k].tripId == tid && old(StepReferenced(k))) ==>
                r == Refused(ForeignKeyViolation) && steps == old(steps)
      ensures !(exists k :: k in old(steps) && old(steps)[k].tripId == tid && old(StepReferenced(k))) ==>
                r == Done(()) && steps == old(steps) - StepsOfTrip(old(steps), tid)
    {
      if exists k | k in steps :: steps[k].tripId == tid && StepReferenced(k) {
        r := Refused(ForeignKeyViolation);
      } else {
        r := Done(());
        steps := steps - StepsOfTrip(steps, tid);
      }
    }

    // -------------------------------------------------------------------------
    // photos, comments, locations
    // -------------------------------------------------------------------------

    /** `photo.createMany`: one statement; the rows get consecutive ids. */
    method InsertPhotos(rows: seq<Photo>) returns (r: Answer<()>)
      requires Valid()
      modifies this`photos, this`nextPhoto
      ensures Valid()
      ensures (exists i :: 0 <= i < |rows| && rows[i].stepId !in steps) ==>
                r == Refused(ForeignKeyViolation) && photos == old(photos) && nextPhoto == old(nextPhoto)
      ensures !(exists i :: 0 <= i < |rows| && rows[i].stepId !in steps) ==>
                && r == Done(())
                && nextPhoto == old(nextPhoto) + |rows|
                && photos == old(photos) + Numbered(old(nextPhoto), rows)
    {
      if exists i | 0 <= i < |rows| :: rows[i].stepId !in steps {
        r := Refused(ForeignKeyViolation);
      } else {
        r := Done(());
        var first := nextPhoto;
        photos := photos + Numbered(first, rows);
        nextPhoto := first + |rows|;
      }
    }

    method DeletePhotosOfTrip(tid: Id)
      requires Valid()
      modifies this`photos
      ensures Valid()
      ensures photos == old(photos) - PhotosOfTrip(old(photos), steps, tid)
    {
      photos := photos - PhotosOfTrip(photos, steps, tid);
    }

    method DeleteCommentsOfTrip(tid: Id)
      requires Valid()
      modifies this`comments
      ensures Valid()
      ensures comments == old(comments) - CommentsOfTrip(old(comments), steps, tid)
    {
      comments := comments - CommentsOfTrip(comments, steps, tid);
    }

    method InsertLocation(l: Location) returns (r: Answer<Id>)
      requires Valid()
      modifies this`locations, this`nextLocation
      ensures Valid()
      ensures (l.userId !in users || l.tripId !in trips) ==>
                r == Refused(ForeignKeyViolation) && locations == old(locations) && nextLocation == old(nextLocation)
      ensures l.userId in users && l.tripId in trips ==>
                && r == Done(old(nextLocation)) && old(nextLocation) !in old(locations)
                && locations == old(locations)[old(nextLocation) := l] && nextLocation == old(nextLocation) + 1
    {
      if l.userId !in users || l.tripId !in trips {
        r := Refused(ForeignKeyViolation);
      } else {
        r := Done(nextLocation);
        locations := locations[nextLocation := l];
        nextLocation := nextLocation + 1;
      }
    }

    method DeleteLocationsOfTrip(tid: Id)
      requires Valid()
      modifies this`locations
      ensures Valid()
      ensures locations == old(locations) - LocationsOfTrip(old(locations), tid)
    {
      locations := locations - LocationsOfTrip(locations, tid);
    }
  }
}
