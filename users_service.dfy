/** The user-account service: creating an account, changing its password,
    updating its profile, deleting it, and storing or serving its profile
    picture. Every handler answers with a status and one of a fixed set of
    outcomes; the ones that write go through the store's statements. */
module UsersService {
  import opened Base
  import opened Js
  import opened Store

  // ---------------------------------------------------------------------------
  // Pictures sent as data URLs
  // ---------------------------------------------------------------------------

  /** The `pic` field of a request body: `string | Buffer | null`. */
  datatype PicInput = PicText(text: string) | PicBuffer(buffer: Bytes) | PicNull

  /** A character of the regular-expression class `\w`. */
  predicate IsWordChar(c: char) {
    ('a' <= c <= 'z') || ('A' <= c <= 'Z') || ('0' <= c <= '9') || c == '_'
  }

  predicate AllWordChars(s: string) {
    forall i :: 0 <= i < |s| ==> IsWordChar(s[i])
  }

  /** Length of the longest prefix of `s` made of `\w` characters. */
  function LeadingWord(s: string): (n: nat)
    ensures n <= |s| && AllWordChars(s[..n])
    ensures n < |s| ==> !IsWordChar(s[n])
  {
    if s == [] || !IsWordChar(s[0]) then 0 else 1 + LeadingWord(s[1..])
  }

  lemma {:induction false} LeadingWordOfWord(w: string, rest: string)
    requires AllWordChars(w)
    requires rest == [] || !IsWordChar(rest[0])
    ensures LeadingWord(w + rest) == |w|
  {
    if w != [] {
      assert (w + rest)[1..] == w[1..] + rest;
      LeadingWordOfWord(w[1..], rest);
    }
  }

  /** `s.replace(/^data:image\/\w+;base64,/, "")`: drop a leading
      "data:image/<word>;base64," header, or leave `s` as it is. The word is
      a maximal run of `\w` characters, since ';' is not one of them. */
  function StripDataUrl(s: string): (r: string)
    ensures r == s || (StartsWith(s, "data:image/") && |r| < |s| && r == s[|s| - |r|..])
  {
    if StartsWith(s, "data:image/") then
      var t := s[11..];
      var n := LeadingWord(t);
      if n > 0 && StartsWith(t[n..], ";base64,") then t[n + 8..] else s
    else s
  }

  /** The header comes off a data URL and leaves exactly its payload. */
  lemma StripDataUrlOfDataUrl(kind: string, payload: string)
    requires |kind| > 0 && AllWordChars(kind)
    ensures StripDataUrl("data:image/" + kind + ";base64," + payload) == payload
  {
    var s := "data:image/" + kind + ";base64," + payload;
    assert s[..11] == "data:image/";
    var t := s[11..];
    assert t == kind + (";base64," + payload);
    LeadingWordOfWord(kind, ";base64," + payload);
    assert t[|kind|..] == ";base64," + payload;
    assert (";base64," + payload)[..8] == ";base64,";
    assert t[|kind| + 8..] == payload;
  }

  /** processPic: a string that starts with "data:image" is decoded after
      its header is stripped; a Buffer is kept as it is; anything else is
      null. */
  function ProcessPic(pic: PicInput): (r: Option<Bytes>)
    ensures r.Some? <==> pic.PicBuffer? || (pic.PicText? && StartsWith(pic.text, "data:image"))
    ensures pic.PicBuffer? ==> r == Some(pic.buffer)
  {
    match pic
    case PicText(s) => if StartsWith(s, "data:image") then Some(FromBase64(StripDataUrl(s))) else None
    case PicBuffer(b) => Some(b)
    case PicNull => None
  }

  /** A picture sent as a data URL is stored as the buffer of its payload. */
  lemma ProcessPicOfDataUrl(kind: string, payload: string)
    requires |kind| > 0 && AllWordChars(kind)
    ensures ProcessPic(PicText("data:image/" + kind + ";base64," + payload)) == Some(FromBase64(payload))
  {
    var s := "data:image/" + kind + ";base64," + payload;
    assert s[..10] == "data:image";
    StripDataUrlOfDataUrl(kind, payload);
  }

  // ---------------------------------------------------------------------------
  // createUser
  // ---------------------------------------------------------------------------

  /** An optional body field that should hold a string: missing, a string,
      JSON `null`, or some other JSON value (a number, a boolean, an object,
      an array). The store takes `null` for an empty column and refuses the
      last kind. */
  datatype Field = Absent | Null | Text(text: string) | Other

  /** The request body createUser reads. */
  datatype NewUser = NewUser(
    lastName: string,
    firstName: string,
    email: string,
    password: string,
    address: Field,
    pic: PicInput)

  /** The user fields echoed back after creation (no password). */
  datatype UserView = UserView(
    id: Id,
    lastName: string,
    firstName: string,
    email: string,
    address: Option<string>,
    pic: Option<Bytes>,
    createdAt: int)

  datatype CreateReply = Created(token: string, user: UserView) | EmailExists | CreateFailed
  {
    function Status(): int {
      match this
      case Created(_, _) => 200
      case EmailExists => 409
      case CreateFailed => 500
    }
  }

  /** The `address` column value of a string, missing or null field. */
  function AddressOf(f: Field): (a: Option<string>)
    requires !f.Other?
    ensures a.Some? <==> f.Text?
    ensures a.Some? ==> a.value == f.text
  {
    if f.Text? then Some(f.text) else None
  }

  /** The row createUser inserts: the password is replaced by its digest.
      An address that is neither a string nor null makes no row at all: the ORM client
      rejects the statement before sending it. */
  function NewUserRow(body: NewUser, crypt: Crypt, now: int): (u: User)
    requires !body.address.Other?
    ensures u.password == crypt.hash(body.password)
    ensures u.email == body.email && u.picType == None && u.createdAt == now
    ensures u.firstName == body.firstName && u.lastName == body.lastName
    ensures u.address == AddressOf(body.address) && u.pic == ProcessPic(body.pic)
  {
    User(body.email, crypt.hash(body.password), body.firstName, body.lastName,
         AddressOf(body.address), ProcessPic(body.pic), None, now)
  }

  /** The user as createUser echoes it: every stored column but the
      password digest and the picture's MIME type. */
  function ViewOf(id: Id, u: User): (v: UserView)
    ensures v.id == id && v.email == u.email && v.pic == u.pic
    ensures v.lastName == u.lastName && v.firstName == u.firstName
    ensures v.address == u.address && v.createdAt == u.createdAt
  {
    UserView(id, u.lastName, u.firstName, u.email, u.address, u.pic, u.createdAt)
  }

  /** createUser. An address that is neither a string nor null is a validation error of
      the ORM client, which is not the unique violation, so it answers 500
      whether or not the e-mail is taken, and writes nothing. The token is
      signed after the row is written, so a missing signing secret answers
      500 with the new row left in place. */
  method CreateUser(db: Database, body: NewUser, crypt: Crypt, jwt: Jwt, secret: Option<string>, now: int)
    returns (reply: CreateReply)
    requires db.Valid()
    modifies db`users, db`nextUser
    ensures db.Valid()
    ensures body.address.Other? ==> reply == CreateFailed && db.users == old(db.users)
    ensures !body.address.Other? && old(db.EmailTaken(body.email)) ==> reply == EmailExists && db.users == old(db.users)
    ensures !body.address.Other? && !old(db.EmailTaken(body.email)) ==>
              var id := old(db.nextUser);
              && id !in old(db.users)
              && db.users == old(db.users)[id := NewUserRow(body, crypt, now)]
              && reply == if TruthyStr(secret)
                          then Created(jwt.sign(Claims(body.email, id), secret.value), ViewOf(id, db.users[id]))
                          else CreateFailed
  {
    if body.address.Other? {
      return CreateFailed;
    }
    var row := NewUserRow(body, crypt, now);
    var inserted := db.InsertUser(row);
    match inserted
    case Refused(why) =>
      reply := if why == UniqueViolation("email") then EmailExists else CreateFailed;
    case Done(id) =>
      if !TruthyStr(secret) {
        reply := CreateFailed;
      } else {
        var token := jwt.sign(Claims(body.email, id), secret.value);
        reply := Created(token, ViewOf(id, row));
      }
  }

  // ---------------------------------------------------------------------------
  // updatePass
  // ---------------------------------------------------------------------------

  datatype PasswordChange = PasswordChange(
    password: Option<string>,
    newPassword: Option<string>,
    repeatPassword: Option<string>)

  datatype PassReply = MissingFields | PasswordsDiffer | PassUserNotFound | WrongPassword | PasswordUpdated | PassFailed
  {
    function Status(): int {
      match this
      case MissingFields => 400
      case PasswordsDiffer => 400
      case PassUserNotFound => 404
      case WrongPassword => 400
      case PasswordUpdated => 200
      case PassFailed => 500
    }
  }

  /** updatePass: the four checks, in order, then the new digest. A path id
      that is not a number reaches the store as NaN, which it rejects. */
  method UpdatePass(db: Database, idParam: string, body: PasswordChange, crypt: Crypt)
    returns (reply: PassReply)
    requires db.Valid()
    modifies db`users
    ensures db.Valid()
    ensures reply != PasswordUpdated ==> db.users == old(db.users)
    ensures !(TruthyStr(body.password) && TruthyStr(body.newPassword) && TruthyStr(body.repeatPassword)) ==>
              reply == MissingFields
    ensures TruthyStr(body.password) && TruthyStr(body.newPassword) && TruthyStr(body.repeatPassword) ==>
              var id := ParseInt(idParam);
              if body.newPassword != body.repeatPassword then reply == PasswordsDiffer
              else if id.None? then reply == PassFailed
              else if id.value !in old(db.users) then reply == PassUserNotFound
              else if !crypt.compare(body.password.value, old(db.users)[id.value].password) then reply == WrongPassword
              else reply == PasswordUpdated
                   && db.users == old(db.users)[id.value := old(db.users)[id.value].(password := crypt.hash(body.newPassword.value))]
  {
    if !TruthyStr(body.password) || !TruthyStr(body.newPassword) || !TruthyStr(body.repeatPassword) {
      return MissingFields;
    }
    if body.newPassword != body.repeatPassword {
      return PasswordsDiffer;
    }
    var id := ParseInt(idParam);
    if id.None? {
      return PassFailed;
    }
    if id.value !in db.users {
      return PassUserNotFound;
    }
    var user := db.users[id.value];
    if !crypt.compare(body.password.value, user.password) {
      return WrongPassword;
    }
    var digest := crypt.hash(body.newPassword.value);
    var updated := db.UpdateUser(id.value, user.(password := digest));
    reply := if updated.Done? then PasswordUpdated else PassFailed;
  }

  // ---------------------------------------------------------------------------
  // updateUser
  // ---------------------------------------------------------------------------

  datatype UserPatch = UserPatch(
    lastName: Option<string>,
    firstName: Option<string>,
    email: Option<string>,
    password: Option<string>,
    address: Option<string>,
    pic: PicInput)

  datatype UpdateReply = UserUpdated(user: User) | UpdateNotFound | UpdateFailed
  {
    function Status(): int {
      match this
      case UserUpdated(_) => 200
      case UpdateNotFound => 404
      case UpdateFailed => 500
    }
  }

  /** The profile after an update: each field the request sets to a
      non-empty string takes that value, each field it leaves falsy keeps
      its stored value; a picture replaces the stored one only when it is
      one processPic accepts; the password changes only when one is
      supplied, and then to its digest. */
  function Merge(u: User, patch: UserPatch, crypt: Crypt): (r: User)
    ensures TruthyStr(patch.lastName) ==> r.lastName == patch.lastName.value
    ensures !TruthyStr(patch.lastName) ==> r.lastName == u.lastName
    ensures TruthyStr(patch.firstName) ==> r.firstName == patch.firstName.value
    ensures !TruthyStr(patch.firstName) ==> r.firstName == u.firstName
    ensures TruthyStr(patch.email) ==> r.email == patch.email.value
    ensures !TruthyStr(patch.email) ==> r.email == u.email
    ensures TruthyStr(patch.address) ==> r.address == patch.address
    ensures !TruthyStr(patch.address) ==> r.address == u.address
    ensures ProcessPic(patch.pic).Some? ==> r.pic == ProcessPic(patch.pic)
    ensures ProcessPic(patch.pic).None? ==> r.pic == u.pic
    ensures !TruthyStr(patch.password) ==> r.password == u.password
    ensures TruthyStr(patch.password) ==> r.password == crypt.hash(patch.password.value)
    ensures r.picType == u.picType && r.createdAt == u.createdAt
  {
    u.(lastName := OrStr(patch.lastName, u.lastName),
       firstName := OrStr(patch.firstName, u.firstName),
       email := OrStr(patch.email, u.email),
       password := if TruthyStr(patch.password) then crypt.hash(patch.password.value) else u.password,
       address := if TruthyStr(patch.address) then patch.address else u.address,
       pic := if ProcessPic(patch.pic).Some? then ProcessPic(patch.pic) else u.pic)
  }

  /** Applying the same update twice is the same as applying it once. */
  lemma MergeIdempotent(u: User, patch: UserPatch, crypt: Crypt)
    ensures Merge(Merge(u, patch, crypt), patch, crypt) == Merge(u, patch, crypt)
  {
  }

  /** updateUser: an unknown id answers 404 and changes nothing; an e-mail
      address that another user holds is a unique violation (500). */
  method UpdateUser(db: Database, idParam: string, patch: UserPatch, crypt: Crypt)
    returns (reply: UpdateReply)
    requires db.Valid()
    modifies db`users
    ensures db.Valid()
    ensures !reply.UserUpdated? ==> db.users == old(db.users)
    ensures var id := ParseInt(idParam);
      if id.None? then reply == UpdateFailed
      else if id.value !in old(db.users) then reply == UpdateNotFound
      else
        var merged := Merge(old(db.users)[id.value], patch, crypt);
        if old(db.EmailTakenByOther(id.value, merged.email)) then reply == UpdateFailed
        else reply == UserUpdated(merged) && db.users == old(db.users)[id.value := merged]
  {
    var id := ParseInt(idParam);
    if id.None? {
      return UpdateFailed;
    }
    if id.value !in db.users {
      return UpdateNotFound;
    }
    var merged := Merge(db.users[id.value], patch, crypt);
    var updated := db.UpdateUser(id.value, merged);
    reply := if updated.Done? then UserUpdated(db.users[id.value]) else UpdateFailed;
  }

  // ---------------------------------------------------------------------------
  // deleteUser
  // ---------------------------------------------------------------------------

  datatype DeleteReply = InvalidUserId | DeleteNotFound | UserDeleted | DeleteFailed
  {
    function Status(): int {
      match this
      case InvalidUserId => 400
      case DeleteNotFound => 404
      case UserDeleted => 200
      case DeleteFailed => 500
    }
  }

  /** deleteUser: a non-numeric id answers 400, an unknown one 404;
      otherwise exactly that user is removed, unless rows still refer to it. */
  method DeleteUser(db: Database, idParam: string) returns (reply: DeleteReply)
    requires db.Valid()
    modifies db`users
    ensures db.Valid()
    ensures reply != UserDeleted ==> db.users == old(db.users)
    ensures var id := ParseInt(idParam);
      if id.None? then reply == InvalidUserId
      else if id.value !in old(db.users) then reply == DeleteNotFound
      else if old(db.UserReferenced(id.value)) then reply == DeleteFailed
      else reply == UserDeleted && db.users == old(db.users) - {id.value}
  {
    var id := ParseInt(idParam);
    if id.None? {
      return InvalidUserId;
    }
    if id.value !in db.users {
      return DeleteNotFound;
    }
    var deleted := db.DeleteUser(id.value);
    reply := if deleted.Done? then UserDeleted else DeleteFailed;
  }

  // ---------------------------------------------------------------------------
  // Profile picture
  // ---------------------------------------------------------------------------

  datatype UploadReply = NoImage | PictureStored(user: User) | UploadFailed
  {
    function Status(): int {
      match this
      case NoImage => 400
      case PictureStored(_) => 200
      case UploadFailed => 500
    }
  }

  /** The stored user after a picture upload. */
  function WithPicture(u: User, image: string, mimeType: string): (r: User)
    ensures r.pic == Some(FromBase64(StripDataUrl(image))) && r.picType == Some(mimeType)
    ensures r.(pic := u.pic, picType := u.picType) == u
  {
    u.(pic := Some(FromBase64(StripDataUrl(image))), picType := Some(mimeType))
  }

  /** uploadProfilePicture: a missing image or MIME type answers 400 and
      writes nothing; an id the store does not hold fails the update (500). */
  method UploadProfilePicture(db: Database, idParam: string, image: Option<string>, mimeType: Option<string>)
    returns (reply: UploadReply)
    requires db.Valid()
    modifies db`users
    ensures db.Valid()
    ensures !reply.PictureStored? ==> db.users == old(db.users)
    ensures !TruthyStr(image) || !TruthyStr(mimeType) ==> reply == NoImage
    ensures TruthyStr(image) && TruthyStr(mimeType) ==>
              var id := ParseInt(idParam);
              if id.None? || id.value !in old(db.users) then reply == UploadFailed
              else
                var u := WithPicture(old(db.users)[id.value], image.value, mimeType.value);
                reply == PictureStored(u) && db.users == old(db.users)[id.value := u]
  {
    if !TruthyStr(image) || !TruthyStr(mimeType) {
      return NoImage;
    }
    var id := ParseInt(idParam);
    if id.None? || id.value !in db.users {
      return UploadFailed;
    }
    var u := WithPicture(db.users[id.value], image.value, mimeType.value);
    var updated := db.UpdateUser(id.value, u);
    reply := if updated.Done? then PictureStored(u) else UploadFailed;
  }

  datatype PictureReply = PictureBadId | StoredPicture(contentType: string, data: Bytes) | DefaultPicture
  {
    function Status(): int {
      match this
      case PictureBadId => 400
      case StoredPicture(_, _) => 200
      case DefaultPicture => 200
    }
  }

  /** getProfilePicture: the stored picture when the user has both a picture
      and a non-empty MIME type, the default image otherwise. */
  function GetProfilePicture(users: map<Id, User>, idParam: string): (r: PictureReply)
    ensures r == PictureBadId <==> ParseInt(idParam).None?
    ensures r.StoredPicture? ==>
              var id := ParseInt(idParam).value;
              id in users && users[id].pic == Some(r.data) && users[id].picType == Some(r.contentType)
              && r.contentType != ""
    ensures r == DefaultPicture <==>
              var id := ParseInt(idParam);
              id.Some? && (id.value !in users || users[id.value].pic.None? || !TruthyStr(users[id.value].picType))
  {
    var id := ParseInt(idParam);
    if id.None? then PictureBadId
    else if id.value in users && users[id.value].pic.Some? && TruthyStr(users[id.value].picType)
    then StoredPicture(users[id.value].picType.value, users[id.value].pic.value)
    else DefaultPicture
  }

  /** Uploading a picture and then asking for it, by the decimal id, serves
      what was uploaded. */
  lemma UploadThenGetPicture(users: map<Id, User>, id: Id, image: string, mimeType: string)
    requires id in users && mimeType != ""
    ensures GetProfilePicture(users[id := WithPicture(users[id], image, mimeType)], Decimal(id))
            == StoredPicture(mimeType, FromBase64(StripDataUrl(image)))
  {
    var after := users[id := WithPicture(users[id], image, mimeType)];
    ParseIntOfDecimal(id, "");
    assert Decimal(id) + "" == Decimal(id);
    assert ParseInt(Decimal(id)) == Some(id);
    assert after[id].pic == Some(FromBase64(StripDataUrl(image))) && after[id].picType == Some(mimeType);
  }
}
