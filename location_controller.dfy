/** Location check-ins. A check-in is reverse-geocoded to a city; when the
    latest check-in of the same user on the same trip is in that city and
    less than twelve hours old, nothing is recorded, otherwise one row is
    appended. The latest check-in of a pair can be read back.

    The geocoder's answer and the current time are inputs; coordinates are
    carried as opaque numbers and times as integer milliseconds. */
module LocationController {
  import opened Base
  import opened Js
  import opened Store

  const TwelveHoursMs: int := 12 * 60 * 60 * 1000

  // ---------------------------------------------------------------------------
  // Deciding on a check-in
  // ---------------------------------------------------------------------------

  /** The `address` part of a reverse-geocoding answer. */
  datatype Address = Address(city: Option<string>, town: Option<string>, village: Option<string>)

  /** What the geocoder answered: a failed request, or an answer that may
      lack an address. */
  datatype Geocoded = GeocoderFailed | Geocoded(address: Option<Address>)

  /** `address?.city || address?.town || address?.village`. */
  function PickCity(address: Option<Address>): (c: Option<string>)
    ensures c.Some? ==> c.value != ""
    ensures c.None? <==>
              (address.None? || (!TruthyStr(address.value.city) && !TruthyStr(address.value.town) && !TruthyStr(address.value.village)))
    ensures c.Some? ==> c == address.value.city || c == address.value.town || c == address.value.village
    ensures address.Some? && TruthyStr(address.value.city) ==> c == address.value.city
    ensures address.Some? && !TruthyStr(address.value.city) && TruthyStr(address.value.town) ==> c == address.value.town
    ensures address.Some? && !TruthyStr(address.value.city) && !TruthyStr(address.value.town) ==>
              (TruthyStr(address.value.village) ==> c == address.value.village)
  {
    match address
    case None => None
    case Some(a) =>
      if TruthyStr(a.city) then a.city
      else if TruthyStr(a.town) then a.town
      else if TruthyStr(a.village) then a.village
      else None
  }

  /** The user is still where they last checked in: same city, and that
      check-in is strictly younger than twelve hours. */
  predicate StillThere(last: Location, city: string, now: int) {
    last.city == city && last.createdAt > now - TwelveHoursMs
  }

  /** A check-in that comes strictly later than every earlier check-in of
      its pair is the one the next check-in is compared with, and that next
      check-in, from the same city, is skipped exactly when it comes less
      than twelve hours later. */
  lemma RepeatCheckIn(locations: map<Id, Location>, id: Id, row: Location, k: Id, later: int)
    requires id !in locations
    requires forall j :: j in locations && locations[j].userId == row.userId && locations[j].tripId == row.tripId
               ==> locations[j].createdAt < row.createdAt
    requires IsLatest(locations[id := row], row.userId, row.tripId, k)
    ensures k == id
    ensures StillThere(locations[id := row][k], row.city, later) <==> later < row.createdAt + TwelveHoursMs
  {
    var after := locations[id := row];
    assert id in after && after[id].userId == row.userId && after[id].tripId == row.tripId;
    assert row.createdAt <= after[k].createdAt;
  }

  // ---------------------------------------------------------------------------
  // handleLocation
  // ---------------------------------------------------------------------------

  /** An id in the check-in body: a JSON number or a JSON string. */
  datatype IdValue = IdNumber(number: real) | IdText(text: string)

  /** The body of a check-in: the coordinates are JSON numbers, the ids
      numbers or strings, and any of the four may be missing. */
  datatype CheckIn = CheckIn(
    latitude: Option<real>,
    longitude: Option<real>,
    userId: Option<IdValue>,
    tripId: Option<IdValue>)

  /** `Number.isInteger`. */
  predicate IsInteger(x: real) {
    x.Floor as real == x
  }

  /** `!!v` for an id: a number other than 0 or a non-empty string. */
  predicate TruthyId(v: Option<IdValue>) {
    match v
    case None => false
    case Some(IdNumber(x)) => x != 0.0
    case Some(IdText(s)) => s != ""
  }

  /** `Number(v)` when `Number.isInteger` holds of it, otherwise None. */
  function IdOf(v: IdValue): (r: Option<int>)
    ensures v.IdNumber? ==> (r.Some? <==> IsInteger(v.number))
    ensures v.IdNumber? && r.Some? ==> r.value as real == v.number
    ensures v.IdText? ==> r == NumberOf(v.text)
  {
    match v
    case IdNumber(x) => if IsInteger(x) then Some(x.Floor) else None
    case IdText(s) => NumberOf(s)
  }

  /** An id sent as the decimal text of an integer reads as the same id as
      the number itself. */
  lemma IdTextReadsAsNumber(n: int)
    ensures IdOf(IdText(Decimal(n))) == IdOf(IdNumber(n as real)) == Some(n)
  {
    NumberOfDecimal(n);
  }

  predicate AllGiven(body: CheckIn) {
    TruthyNum(body.latitude) && TruthyNum(body.longitude) && TruthyId(body.userId) && TruthyId(body.tripId)
  }

  predicate IdsAreIntegers(body: CheckIn)
    requires AllGiven(body)
  {
    IdOf(body.userId.value).Some? && IdOf(body.tripId.value).Some?
  }

  datatype CheckInReply =
    | MissingParams
    | InvalidIds
    | CityUnknown
    | StillIn(city: string, latitude: real, longitude: real)
    | Recorded(id: Id, location: Location)
    | CheckInFailed
  {
    function Status(): int {
      match this
      case MissingParams => 400
      case InvalidIds => 400
      case CityUnknown => 500
      case StillIn(_, _, _) => 200
      case Recorded(_, _) => 201
      case CheckInFailed => 500
    }
  }

  /** handleLocation. `geocoded` is the geocoder's answer for the
      coordinates and `now` the current time. */
  method HandleLocation(db: Database, body: CheckIn, geocoded: Geocoded, now: int) returns (reply: CheckInReply)
    requires db.Valid()
    modifies db`locations, db`nextLocation
    ensures db.Valid()
    ensures !reply.Recorded? ==> db.locations == old(db.locations)
    ensures !AllGiven(body) ==> reply == MissingParams
    ensures AllGiven(body) && !IdsAreIntegers(body) ==> reply == InvalidIds
    ensures AllGiven(body) && IdsAreIntegers(body) && geocoded.GeocoderFailed? ==> reply == CheckInFailed
    ensures AllGiven(body) && IdsAreIntegers(body) && geocoded.Geocoded? && PickCity(geocoded.address).None? ==>
              reply == CityUnknown
    ensures AllGiven(body) && IdsAreIntegers(body) && geocoded.Geocoded? && PickCity(geocoded.address).Some? ==>
              var city := PickCity(geocoded.address).value;
              var u := IdOf(body.userId.value).value;
              var t := IdOf(body.tripId.value).value;
              var row := Location(u, t, city, body.latitude.value, body.longitude.value, now);
              && (reply.StillIn? ==>
                    reply == StillIn(city, body.latitude.value, body.longitude.value)
                    && exists k :: IsLatest(old(db.locations), u, t, k) && StillThere(old(db.locations)[k], city, now))
              && (!reply.StillIn? ==>
                    (!exists k :: k in old(db.locations) && old(db.locations)[k].userId == u && old(db.locations)[k].tripId == t)
                    || (exists k :: IsLatest(old(db.locations), u, t, k) && !StillThere(old(db.locations)[k], city, now)))
              && (!reply.StillIn? && (u !in db.users || t !in db.trips) ==> reply == CheckInFailed)
              && (!reply.StillIn? && u in db.users && t in db.trips ==>
                    var id := old(db.nextLocation);
                    reply == Recorded(id, row) && id !in old(db.locations) && db.locations == old(db.locations)[id := row])
  {
    if !AllGiven(body) {
      return MissingParams;
    }
    if !IdsAreIntegers(body) {
      return InvalidIds;
    }
    var u := IdOf(body.userId.value).value;
    var t := IdOf(body.tripId.value).value;
    if geocoded.GeocoderFailed? {
      return CheckInFailed;
    }
    var city := PickCity(geocoded.address);
    if city.None? {
      return CityUnknown;
    }
    var last := db.FindLatestLocation(u, t);
    if last.Some? && StillThere(db.locations[last.value], city.value, now) {
      return StillIn(city.value, body.latitude.value, body.longitude.value);
    }
    var row := Location(u, t, city.value, body.latitude.value, body.longitude.value, now);
    var inserted := db.InsertLocation(row);
    reply := if inserted.Done? then Recorded(inserted.value, row) else CheckInFailed;
  }

  // ---------------------------------------------------------------------------
  // getLocation
  // ---------------------------------------------------------------------------

  datatype LocationReply =
    | MissingPairParams
    | LatestLocation(city: string, latitude: real, longitude: real)
    | NoLocation
    | LocationFailed
  {
    function Status(): int {
      match this
      case MissingPairParams => 400
      case LatestLocation(_, _, _) => 200
      case NoLocation => 404
      case LocationFailed => 500
    }
  }

  /** getLocation: both path parameters are needed; they are read with
      `parseInt(_, 10)`, and NaN is refused by the store (500). The answer is
      the latest location of the pair, or 404 when it has none. */
  method GetLocation(db: Database, userIdParam: Option<string>, tripIdParam: Option<string>)
    returns (reply: LocationReply)
    ensures !TruthyStr(userIdParam) || !TruthyStr(tripIdParam) ==> reply == MissingPairParams
    ensures TruthyStr(userIdParam) && TruthyStr(tripIdParam) ==>
              var u := ParseInt(userIdParam.value);
              var t := ParseInt(tripIdParam.value);
              if u.None? || t.None? then reply == LocationFailed
              else
                && (reply == NoLocation <==>
                      !exists k :: k in db.locations && db.locations[k].userId == u.value && db.locations[k].tripId == t.value)
                && (reply.LatestLocation? ==>
                      exists k :: IsLatest(db.locations, u.value, t.value, k)
                        && reply == LatestLocation(db.locations[k].city, db.locations[k].latitude, db.locations[k].longitude))
                && (reply.LatestLocation? || reply == NoLocation)
  {
    if !TruthyStr(userIdParam) || !TruthyStr(tripIdParam) {
      return MissingPairParams;
    }
    var u := ParseInt(userIdParam.value);
    var t := ParseInt(tripIdParam.value);
    if u.None? || t.None? {
      return LocationFailed;
    }
    var last := db.FindLatestLocation(u.value, t.value);
    if last.None? {
      return NoLocation;
    }
    var l := db.locations[last.value];
    reply := LatestLocation(l.city, l.latitude, l.longitude);
  }
}
