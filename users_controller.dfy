/** The user handlers that are more than a call into the users service:
    searching users by name, a user's public profile with their public
    trips, logging in, and registering behind the validation rules. */
module UsersController {
  import opened Base
  import opened Js
  import opened Store
  import opened UsersService
  import opened UserValidators

  // ---------------------------------------------------------------------------
  // searchUsers
  // ---------------------------------------------------------------------------

  /** The `query` query-string parameter: missing, one string, or something
      else (repeated parameters arrive as an array, brackets as an object). */
  datatype Query = NoQuery | QueryText(text: string) | QueryOther

  /** The `where` object the handler builds: empty, or an `OR` of the two
      name filters. */
  datatype NameFilter = MatchAll | NameContains(q: string)

  /** The selected columns: no e-mail and no password. */
  datatype UserSummary = UserSummary(id: Id, firstName: string, lastName: string, address: Option<string>)

  datatype SearchReply = QueryNotString | NoUsersFound | UsersFound(users: map<Id, UserSummary>)
  {
    function Status(): int {
      match this
      case QueryNotString => 400
      case NoUsersFound => 404
      case UsersFound(_) => 200
    }
  }

  /** A user is a hit when there is no (truthy) query, or when the query
      occurs in the first or the last name. */
  predicate Hit(u: User, query: Query) {
    match query
    case QueryText(q) => q == "" || Contains(u.firstName, q) || Contains(u.lastName, q)
    case _ => true
  }

  predicate Passes(u: User, filter: NameFilter) {
    match filter
    case MatchAll => true
    case NameContains(q) => Contains(u.firstName, q) || Contains(u.lastName, q)
  }

  /** searchUsers. */
  method SearchUsers(db: Database, query: Query) returns (reply: SearchReply)
    ensures query.QueryOther? <==> reply == QueryNotString
    ensures reply == NoUsersFound <==> !query.QueryOther? && !exists k :: k in db.users && Hit(db.users[k], query)
    ensures reply.UsersFound? ==>
              && (forall k :: k in reply.users <==> k in db.users && Hit(db.users[k], query))
              && (forall k :: k in reply.users ==>
                    reply.users[k] == UserSummary(k, db.users[k].firstName, db.users[k].lastName, db.users[k].address))
  {
    if query.QueryOther? {
      return QueryNotString;
    }
    var filter := MatchAll;
    if query.QueryText? && query.text != "" {
      filter := NameContains(query.text);
    }
    var found := map k | k in db.users && Passes(db.users[k], filter)
                   :: UserSummary(k, db.users[k].firstName, db.users[k].lastName, db.users[k].address);
    assert forall k :: k in db.users ==> (Passes(db.users[k], filter) <==> Hit(db.users[k], query));
    if found == map[] {
      assert forall k :: k in db.users ==> k !in found;
      return NoUsersFound;
    }
    reply := UsersFound(found);
  }

  // ---------------------------------------------------------------------------
  // getUserTripsBySearch
  // ---------------------------------------------------------------------------

  datatype StepCard = StepCard(name: Option<string>, description: string, photos: map<Id, Bytes>)

  datatype TripCard = TripCard(
    name: string,
    summary: string,
    startDate: int,
    endDate: int,
    country: string,
    userId: Id,
    isPublic: bool,
    steps: map<Id, StepCard>)

  datatype ProfileReply =
    | UserIdRequired
    | ProfileNotFound
    | Profile(id: Id, firstName: string, lastName: string, trips: map<Id, TripCard>)
  {
    function Status(): int {
      match this
      case UserIdRequired => 400
      case ProfileNotFound => 404
      case Profile(_, _, _, _) => 200
    }
  }

  /** A step with the URLs of its photos. */
  function StepCardOf(t: Tables, sid: Id): StepCard
    requires sid in t.steps
  {
    StepCard(t.steps[sid].name, t.steps[sid].description,
             map p | p in t.photos && t.photos[p].stepId == sid :: t.photos[p].photoUrl)
  }

  /** A trip with its steps. */
  function TripCardOf(t: Tables, tid: Id): TripCard
    requires tid in t.trips
  {
    var trip := t.trips[tid];
    TripCard(trip.name, trip.summary, trip.startDate, trip.endDate, trip.country, trip.userId, trip.isPublic,
             map s | s in t.steps && t.steps[s].tripId == tid :: StepCardOf(t, s))
  }

  /** getUserTripsBySearch: the id is read with parseInt and refused when it
      is NaN or 0; the profile lists only the user's public trips. */
  function GetUserTripsBySearch(t: Tables, idParam: string): (r: ProfileReply)
    ensures r == UserIdRequired <==> !TruthyInt(ParseInt(idParam))
    ensures r == ProfileNotFound <==> TruthyInt(ParseInt(idParam)) && ParseInt(idParam).value !in t.users
    ensures r.Profile? ==>
              && r.id == ParseInt(idParam).value && r.id in t.users
              && r.firstName == t.users[r.id].firstName && r.lastName == t.users[r.id].lastName
              && (forall k :: k in r.trips ==> k in t.trips && t.trips[k].userId == r.id && t.trips[k].isPublic)
              && (forall k :: k in t.trips && t.trips[k].userId == r.id && t.trips[k].isPublic ==> k in r.trips)
              && (forall k :: k in r.trips ==> r.trips[k] == TripCardOf(t, k))
  {
    var id := ParseInt(idParam);
    if !TruthyInt(id) then UserIdRequired
    else if id.value !in t.users then ProfileNotFound
    else
      var u := t.users[id.value];
      Profile(id.value, u.firstName, u.lastName, PublicTripCards(t, id.value))
  }

  /** `userWithTrips.trips.filter(trip => trip.isPublic)`, each with its steps. */
  function PublicTripCards(t: Tables, u: Id): map<Id, TripCard> {
    map k | k in t.trips && t.trips[k].userId == u && t.trips[k].isPublic :: TripCardOf(t, k)
  }

  /** A trip's card echoes the trip's columns and lists exactly the trip's
      steps, each with its name, its description and exactly its photos'
      URLs. */
  lemma TripCardContents(t: Tables, tid: Id)
    requires tid in t.trips
    ensures var c := TripCardOf(t, tid);
            var trip := t.trips[tid];
            && c.name == trip.name && c.summary == trip.summary
            && c.startDate == trip.startDate && c.endDate == trip.endDate
            && c.country == trip.country && c.userId == trip.userId && c.isPublic == trip.isPublic
            && (forall s :: s in c.steps <==> s in t.steps && t.steps[s].tripId == tid)
            && (forall s :: s in c.steps ==>
                  && c.steps[s].name == t.steps[s].name
                  && c.steps[s].description == t.steps[s].description
                  && (forall p :: p in c.steps[s].photos <==> p in t.photos && t.photos[p].stepId == s)
                  && (forall p :: p in c.steps[s].photos ==> c.steps[s].photos[p] == t.photos[p].photoUrl))
  {
  }

  /** A trip's card depends on its own row, the steps and the photos only. */
  lemma TripCardOfFrame(a: Tables, b: Tables, tid: Id)
    requires a.steps == b.steps && a.photos == b.photos
    requires tid in a.trips && tid in b.trips && a.trips[tid] == b.trips[tid]
    ensures TripCardOf(a, tid) == TripCardOf(b, tid)
  {
    assert forall s :: s in a.steps ==> StepCardOf(a, s) == StepCardOf(b, s);
  }

  /** Private trips do not show through: the profile is the same whether a
      private trip is there or not, whatever it holds. */
  lemma ProfileIgnoresPrivateTrip(t: Tables, idParam: string, k: Id, trip: Trip)
    requires !trip.isPublic
    ensures GetUserTripsBySearch(t.(trips := t.trips[k := trip]), idParam)
         == GetUserTripsBySearch(t.(trips := t.trips - {k}), idParam)
  {
    var id := ParseInt(idParam);
    if TruthyInt(id) && id.value in t.users {
      PublicCardsIgnorePrivateTrip(t, id.value, k, trip);
    }
  }

  /** The cards of a user's public trips leave out a private trip. */
  lemma PublicCardsIgnorePrivateTrip(t: Tables, u: Id, k: Id, trip: Trip)
    requires !trip.isPublic
    ensures PublicTripCards(t.(trips := t.trips[k := trip]), u) == PublicTripCards(t.(trips := t.trips - {k}), u)
  {
    var with := t.(trips := t.trips[k := trip]);
    var without := t.(trips := t.trips - {k});
    var a := PublicTripCards(with, u);
    var b := PublicTripCards(without, u);
    assert a.Keys == b.Keys;
    forall j | j in a
      ensures a[j] == b[j]
    {
      TripCardOfFrame(with, without, j);
    }
  }

  // ---------------------------------------------------------------------------
  // login
  // ---------------------------------------------------------------------------

  datatype LoginReply =
    | LoggedIn(token: string, id: Id)
    | LoginRejected
    | LoginSecretMissing
    | LoginFailed
  {
    function Status(): int {
      match this
      case LoggedIn(_, _) => 200
      case LoginRejected => 404
      case LoginSecretMissing => 500
      case LoginFailed => 500
    }
  }

  /** login. A missing e-mail makes the lookup throw and a missing password
      makes bcrypt throw; both end in the catch-all 500. An unknown e-mail
      and a wrong password get the same answer. */
  method Login(db: Database, email: Option<string>, password: Option<string>, crypt: Crypt, jwt: Jwt,
               secret: Option<string>)
    returns (reply: LoginReply)
    requires db.EmailsUnique()
    ensures email.None? ==> reply == LoginFailed
    ensures email.Some? && !db.EmailTaken(email.value) ==> reply == LoginRejected
    ensures reply == LoginRejected <==>
              email.Some? &&
              (!db.EmailTaken(email.value) ||
               exists k :: k in db.users && db.users[k].email == email.value && password.Some?
                             && !crypt.compare(password.value, db.users[k].password))
    ensures reply.LoggedIn? ==>
              && email.Some? && password.Some? && TruthyStr(secret)
              && reply.id in db.users && db.users[reply.id].email == email.value
              && crypt.compare(password.value, db.users[reply.id].password)
              && reply.token == jwt.sign(Claims(email.value, reply.id), secret.value)
    ensures reply.LoggedIn? <==>
              email.Some? && password.Some? && TruthyStr(secret) &&
              exists k :: k in db.users && db.users[k].email == email.value
                            && crypt.compare(password.value, db.users[k].password)
  {
    if email.None? {
      return LoginFailed;
    }
    var found := db.FindUserByEmail(email.value);
    if found.None? {
      return LoginRejected;
    }
    var id := found.value;
    if password.None? {
      return LoginFailed;
    }
    if !crypt.compare(password.value, db.users[id].password) {
      return LoginRejected;
    }
    if !TruthyStr(secret) {
      return LoginSecretMissing;
    }
    reply := LoggedIn(jwt.sign(Claims(db.users[id].email, id), secret.value), id);
  }

  // ---------------------------------------------------------------------------
  // register
  // ---------------------------------------------------------------------------

  /** The answers on the registration route: `validate`'s 400 with the
      error objects, register's own 400 with the messages, or createUser's. */
  datatype RegisterReply = NotValidated(errors: seq<Message>) | Invalid(messages: seq<Message>) | Handled(outcome: CreateReply)
  {
    function Status(): int {
      match this
      case NotValidated(_) => 400
      case Invalid(_) => 400
      case Handled(outcome) => outcome.Status()
    }
  }

  /** The body createUser reads once the rules have passed over `body`: the
      e-mail has been normalised in place, and every other field is the
      one sent. */
  function NewUserOf(body: Registration, rules: EmailRules): (u: NewUser)
    requires RegistrationErrorsAsWritten(body, rules) == []
    ensures u.email == rules.normalize(TextOf(body.email))
    ensures u.firstName == body.firstName.value && u.lastName == body.lastName.value
    ensures u.password == body.password.value && u.address == body.address && u.pic == body.pic
  {
    RegistrationErrorsAsWrittenEmpty(body, rules);
    NewUser(body.lastName.value, body.firstName.value, rules.normalize(TextOf(body.email)),
            body.password.value, body.address, body.pic)
  }

  /** The registration route: the rules as written, then `validate`, then
      register, which runs the same rules once more over the body the first
      run sanitised, and finally createUser on the body sanitised twice.
      Any message answers 400 and leaves the store alone. */
  method Register(db: Database, body: Registration, rules: EmailRules, crypt: Crypt, jwt: Jwt,
                  secret: Option<string>, now: int)
    returns (reply: RegisterReply)
    requires db.Valid()
    modifies db`users, db`nextUser
    ensures db.Valid()
    ensures RegistrationErrorsAsWritten(body, rules) != [] ==>
              reply == NotValidated(RegistrationErrorsAsWritten(body, rules)) && db.users == old(db.users)
    ensures var again := Sanitized(body, rules);
            RegistrationErrorsAsWritten(body, rules) == [] && RegistrationErrorsAsWritten(again, rules) != [] ==>
              reply == Invalid(RegistrationErrorsAsWritten(again, rules)) && db.users == old(db.users)
    ensures var again := Sanitized(body, rules);
            RegistrationErrorsAsWritten(body, rules) == [] && RegistrationErrorsAsWritten(again, rules) == [] ==>
              var u := NewUserOf(again, rules);
              && (body.address.Other? ==> reply == Handled(CreateFailed) && db.users == old(db.users))
              && (!body.address.Other? && old(db.EmailTaken(u.email)) ==>
                    reply == Handled(EmailExists) && db.users == old(db.users))
              && (!body.address.Other? && !old(db.EmailTaken(u.email)) ==>
                    var id := old(db.nextUser);
                    && id !in old(db.users)
                    && db.users == old(db.users)[id := NewUserRow(u, crypt, now)]
                    && reply == Handled(if TruthyStr(secret)
                                        then Created(jwt.sign(Claims(u.email, id), secret.value), ViewOf(id, db.users[id]))
                                        else CreateFailed))
  {
    var errors := RegistrationErrorsAsWritten(body, rules);
    if errors != [] {
      return NotValidated(errors);
    }
    var again := Sanitized(body, rules);
    errors := RegistrationErrorsAsWritten(again, rules);
    if errors != [] {
      return Invalid(errors);
    }
    var outcome := CreateUser(db, NewUserOf(again, rules), crypt, jwt, secret, now);
    reply := Handled(outcome);
  }

  /** A registration that gets through both runs of the rules stores
      bcrypt's digest of the password sent, and that password is a strong
      one. The row exists only when `address` is a string or missing. */
  lemma RegisteredPasswordIsHashed(body: Registration, rules: EmailRules, crypt: Crypt, now: int)
    requires RegistrationErrorsAsWritten(body, rules) == []
    requires RegistrationErrorsAsWritten(Sanitized(body, rules), rules) == []
    requires !body.address.Other?
    ensures NewUserRow(NewUserOf(Sanitized(body, rules), rules), crypt, now).password == crypt.hash(body.password.value)
    ensures StrongPassword(body.password.value)
  {
    RegistrationErrorsAsWrittenEmpty(body, rules);
  }
}
