/** The step service: creating a step with its photos, patching a step and
    appending photos to it, and deleting a step. Photos arrive as data URLs
    and are stored as the buffer of their payload. */
module StepsService {
  import opened Base
  import opened Js
  import opened Store
  import opened UsersService

  /** The request body of createStep and updateStep. `stepDate` is `None`
      when it is absent or empty; each photo entry is `None` when it is null
      or has no `image`. */
  datatype StepBody = StepBody(
    tripId: Option<int>,
    stepDate: Option<int>,
    name: Option<string>,
    description: Option<string>,
    photos: Option<seq<Option<string>>>)

  /** The photo row stored for an image sent for step `stepId`. */
  function PhotoRow(stepId: Id, image: string): (p: Photo)
    ensures p.stepId == stepId
  {
    Photo(stepId, FromBase64(StripDataUrl(image)))
  }

  /** Whether the body carries at least one photo entry. */
  predicate HasPhotos(body: StepBody) {
    body.photos.Some? && |body.photos.value| > 0
  }

  // ---------------------------------------------------------------------------
  // createStep
  // ---------------------------------------------------------------------------

  /** createStep maps every entry to a row; it needs every entry's image. */
  function AllPhotoRows(stepId: Id, images: seq<Option<string>>): (rows: seq<Photo>)
    requires forall i :: 0 <= i < |images| ==> images[i].Some?
    ensures |rows| == |images|
    ensures forall i :: 0 <= i < |rows| ==> rows[i] == PhotoRow(stepId, images[i].value)
  {
    if images == [] then [] else [PhotoRow(stepId, images[0].value)] + AllPhotoRows(stepId, images[1..])
  }

  /** The step row createStep inserts. */
  function NewStepRow(body: StepBody): (s: Step)
    requires body.tripId.Some? && body.stepDate.Some? && body.description.Some?
    ensures s.tripId == body.tripId.value && s.name == body.name
  {
    Step(body.tripId.value, body.stepDate.value, body.name, body.description.value)
  }

  datatype CreateStepReply = MissingStepFields | StepCreated(id: Id, step: Step) | CreateStepFailed
  {
    function Status(): int {
      match this
      case MissingStepFields => 400
      case StepCreated(_, _) => 201
      case CreateStepFailed => 500
    }
  }

  /** The required-field guard of createStep; `name` is optional. */
  predicate HasRequiredFields(body: StepBody) {
    TruthyInt(body.tripId) && body.stepDate.Some? && TruthyStr(body.description)
  }

  /** createStep: the guard, the step, then one photo row per entry, each
      linked to the new step. An entry without an image fails the request
      after the step is written: there is no transaction. */
  method CreateStep(db: Database, body: StepBody) returns (reply: CreateStepReply)
    requires db.Valid()
    modifies db`steps, db`nextStep, db`photos, db`nextPhoto
    ensures db.Valid()
    ensures !HasRequiredFields(body) ==>
              reply == MissingStepFields && db.steps == old(db.steps) && db.photos == old(db.photos)
    ensures HasRequiredFields(body) && body.tripId.value !in db.trips ==>
              reply == CreateStepFailed && db.steps == old(db.steps) && db.photos == old(db.photos)
    ensures HasRequiredFields(body) && body.tripId.value in db.trips ==>
              var id := old(db.nextStep);
              && id !in old(db.steps)
              && db.steps == old(db.steps)[id := NewStepRow(body)]
              && if !HasPhotos(body) then
                   reply == StepCreated(id, NewStepRow(body)) && db.photos == old(db.photos)
                 else if exists i :: 0 <= i < |body.photos.value| && body.photos.value[i].None? then
                   reply == CreateStepFailed && db.photos == old(db.photos)
                 else
                   && reply == StepCreated(id, NewStepRow(body))
                   && db.photos == old(db.photos) + Numbered(old(db.nextPhoto), AllPhotoRows(id, body.photos.value))
  {
    if !HasRequiredFields(body) {
      return MissingStepFields;
    }
    var row := NewStepRow(body);
    var inserted := db.InsertStep(row);
    if inserted.Refused? {
      return CreateStepFailed;
    }
    var id := inserted.value;
    if HasPhotos(body) {
      var images := body.photos.value;
      if exists i | 0 <= i < |images| :: images[i].None? {
        return CreateStepFailed;
      }
      var stored := db.InsertPhotos(AllPhotoRows(id, images));
      if stored.Refused? {
        return CreateStepFailed;
      }
    }
    reply := StepCreated(id, row);
  }

  // ---------------------------------------------------------------------------
  // updateStep
  // ---------------------------------------------------------------------------

  /** The photo rows updateStep appends: one per entry with a non-empty
      image, in order; the other entries are skipped. */
  function PhotoRowsOf(stepId: Id, images: seq<Option<string>>): (rows: seq<Photo>)
    ensures |rows| <= |images|
    ensures forall i :: 0 <= i < |rows| ==> rows[i].stepId == stepId
    ensures rows == [] <==> forall i :: 0 <= i < |images| ==> !TruthyStr(images[i])
  {
    if images == [] then []
    else
      var last := images[|images| - 1];
      var init := PhotoRowsOf(stepId, images[..|images| - 1]);
      assert forall i :: 0 <= i < |images| - 1 ==> images[..|images| - 1][i] == images[i];
      if TruthyStr(last) then init + [PhotoRow(stepId, last.value)] else init
  }

  /** Collecting rows is compositional over the list of entries. */
  lemma {:induction false} PhotoRowsOfAppend(stepId: Id, a: seq<Option<string>>, b: seq<Option<string>>)
    ensures PhotoRowsOf(stepId, a + b) == PhotoRowsOf(stepId, a) + PhotoRowsOf(stepId, b)
    decreases |b|
  {
    if b == [] {
      assert a + b == a;
    } else {
      var b' := b[..|b| - 1];
      assert (a + b)[..|a + b| - 1] == a + b';
      PhotoRowsOfAppend(stepId, a, b');
    }
  }

  /** When every entry has an image, updateStep keeps them all, as
      createStep does. */
  lemma {:induction false} PhotoRowsOfAllImages(stepId: Id, images: seq<Option<string>>)
    requires forall i :: 0 <= i < |images| ==> images[i].Some? && images[i].value != ""
    ensures PhotoRowsOf(stepId, images) == AllPhotoRows(stepId, images)
  {
    if images != [] {
      PhotoRowsOfAppend(stepId, [images[0]], images[1..]);
      assert [images[0]] + images[1..] == images;
      PhotoRowsOfAllImages(stepId, images[1..]);
      assert PhotoRowsOf(stepId, [images[0]]) == [PhotoRow(stepId, images[0].value)] by {
        assert [images[0]][..0] == [];
      }
    }
  }

  /** The loop of updateStep that fills the photo batch. */
  method CollectPhotoRows(stepId: Id, images: seq<Option<string>>) returns (rows: seq<Photo>)
    ensures rows == PhotoRowsOf(stepId, images)
  {
    rows := [];
    for i := 0 to |images|
      invariant rows == PhotoRowsOf(stepId, images[..i])
    {
      assert images[..i + 1][..i] == images[..i];
      if TruthyStr(images[i]) {
        rows := rows + [PhotoRow(stepId, images[i].value)];
      }
    }
    assert images[..|images|] == images;
  }

  /** The fields updateStep writes: only those that are truthy. */
  datatype StepChanges = StepChanges(
    tripId: Option<int>,
    stepDate: Option<int>,
    name: Option<string>,
    description: Option<string>)

  /** The step after the changes are written. */
  function ApplyChanges(s: Step, c: StepChanges): Step {
    Step(if c.tripId.Some? then c.tripId.value else s.tripId,
         if c.stepDate.Some? then c.stepDate.value else s.stepDate,
         if c.name.Some? then c.name else s.name,
         if c.description.Some? then c.description.value else s.description)
  }

  /** The step as updateStep leaves it: each field the body sets to a
      truthy value takes that value, and each other field keeps its own. */
  function UpdatedStep(s: Step, body: StepBody): (r: Step)
    ensures TruthyInt(body.tripId) ==> r.tripId == body.tripId.value
    ensures !TruthyInt(body.tripId) ==> r.tripId == s.tripId
    ensures body.stepDate.Some? ==> r.stepDate == body.stepDate.value
    ensures body.stepDate.None? ==> r.stepDate == s.stepDate
    ensures TruthyStr(body.name) ==> r.name == body.name
    ensures !TruthyStr(body.name) ==> r.name == s.name
    ensures TruthyStr(body.description) ==> r.description == body.description.value
    ensures !TruthyStr(body.description) ==> r.description == s.description
  {
    Step(if TruthyInt(body.tripId) then body.tripId.value else s.tripId,
         if body.stepDate.Some? then body.stepDate.value else s.stepDate,
         if TruthyStr(body.name) then body.name else s.name,
         if TruthyStr(body.description) then body.description.value else s.description)
  }

  /** The photos of one step. */
  function PhotosOfStep(photos: map<Id, Photo>, stepId: Id): map<Id, Photo> {
    map k | k in photos && photos[k].stepId == stepId :: photos[k]
  }

  /** The photo part of updateStep: a batch of the entries with an image,
      sent only when it is not empty. The step exists, so the batch is
      never refused. */
  method AppendPhotos(db: Database, stepId: Id, body: StepBody)
    requires db.Valid() && stepId in db.steps
    modifies db`photos, db`nextPhoto
    ensures db.Valid()
    ensures db.photos == old(db.photos) + Numbered(old(db.nextPhoto),
              if HasPhotos(body) then PhotoRowsOf(stepId, body.photos.value) else [])
  {
    var rows: seq<Photo> := [];
    if HasPhotos(body) {
      rows := CollectPhotoRows(stepId, body.photos.value);
    }
    if |rows| > 0 {
      var stored := db.InsertPhotos(rows);
    } else {
      assert Numbered(db.nextPhoto, rows) == map[];
      assert db.photos + map[] == db.photos;
    }
  }

  datatype UpdateStepReply = StepUpdated(step: Step, photos: map<Id, Photo>) | UpdateStepFailed
  {
    function Status(): int {
      match this
      case StepUpdated(_, _) => 200
      case UpdateStepFailed => 500
    }
  }

  /** updateStep: writes only the truthy fields, then appends one photo row
      per entry with an image; existing photos are never removed, and no
      batch is sent when no entry has an image. */
  method UpdateStep(db: Database, idParam: string, body: StepBody) returns (reply: UpdateStepReply)
    requires db.Valid()
    modifies db`steps, db`photos, db`nextPhoto
    ensures db.Valid()
    ensures old(db.photos).Keys <= db.photos.Keys
    ensures var id := ParseInt(idParam);
      if id.None? || id.value !in old(db.steps)
         || UpdatedStep(old(db.steps)[id.value], body).tripId !in db.trips then
        reply == UpdateStepFailed && db.steps == old(db.steps) && db.photos == old(db.photos)
      else
        var row := UpdatedStep(old(db.steps)[id.value], body);
        var rows := if HasPhotos(body) then PhotoRowsOf(id.value, body.photos.value) else [];
        && db.steps == old(db.steps)[id.value := row]
        && db.photos == old(db.photos) + Numbered(old(db.nextPhoto), rows)
        && reply == StepUpdated(row, PhotosOfStep(db.photos, id.value))
  {
    var id := ParseInt(idParam);
    if id.None? || id.value !in db.steps {
      return UpdateStepFailed;
    }
    var changes := StepChanges(None, None, None, None);
    if TruthyInt(body.tripId) {
      changes := changes.(tripId := body.tripId);
    }
    if body.stepDate.Some? {
      changes := changes.(stepDate := body.stepDate);
    }
    if TruthyStr(body.name) {
      changes := changes.(name := body.name);
    }
    if TruthyStr(body.description) {
      changes := changes.(description := body.description);
    }
    var row := ApplyChanges(db.steps[id.value], changes);
    assert row == UpdatedStep(db.steps[id.value], body);
    var updated := db.UpdateStep(id.value, row);
    if updated.Refused? {
      return UpdateStepFailed;
    }
    AppendPhotos(db, id.value, body);
    reply := StepUpdated(db.steps[id.value], PhotosOfStep(db.photos, id.value));
  }

  // ---------------------------------------------------------------------------
  // deleteStep
  // ---------------------------------------------------------------------------

  datatype DeleteStepReply = StepNotFound | StepDeleted | DeleteStepFailed
  {
    function Status(): int {
      match this
      case StepNotFound => 404
      case StepDeleted => 200
      case DeleteStepFailed => 500
    }
  }

  /** deleteStep: an unknown id answers 404 and changes nothing; a step that
      still has photos or comments is refused by the store (500). */
  method DeleteStep(db: Database, idParam: string) returns (reply: DeleteStepReply)
    requires db.Valid()
    modifies db`steps
    ensures db.Valid()
    ensures reply != StepDeleted ==> db.steps == old(db.steps)
    ensures var id := ParseInt(idParam);
      if id.None? then reply == DeleteStepFailed
      else if id.value !in old(db.steps) then reply == StepNotFound
      else if old(db.StepReferenced(id.value)) then reply == DeleteStepFailed
      else reply == StepDeleted && db.steps == old(db.steps) - {id.value}
  {
    var id := ParseInt(idParam);
    if id.None? {
      return DeleteStepFailed;
    }
    if id.value !in db.steps {
      return StepNotFound;
    }
    var deleted := db.DeleteStep(id.value);
    reply := if deleted.Done? then StepDeleted else DeleteStepFailed;
  }
}
