# Travel-journal backend: a verified model of its handlers

This project models the core of a travel-journal REST backend. Users keep
trips. A trip has dated steps, and a step has photos and comments. While
travelling, a user checks in locations. Almost every handler is a short
sequence: it checks its input, reads and writes six tables, and answers
with an HTTP status. The model states what each handler promises and
proves it.

The database is the class `Store.Database`:
- It holds six tables (users, trips, steps, photos, comments, locations). Each table is a map from the auto-increment id to the row.
- Each table has an id counter.
- Its invariant `Valid` states three things: ids are fresh, e-mails are unique, and no foreign key dangles.
- Every ORM statement a handler issues is a method. The method states the new content of the table, and it refuses with the error the ORM reports: record not found, unique violation on `email`, or foreign-key violation.

The schema is not part of this model. Required relations are taken to
restrict deletion (the ORM's default). This agrees with `deleteTrip`, which
deletes a trip's dependants by hand before the trip itself.

Handlers that change the store are methods on the database. Their
`ensures` give the reply and the new tables for every branch, in the
order in which the handler makes its checks. The read-only handlers are functions of the
tables, or methods with no `modifies`. Services outside the program are
parameters:
- bcrypt `hash`/`compare` (`Base.Crypt`);
- jsonwebtoken `sign`/`verify` (`Base.Jwt`);
- the uuid the trip service draws;
- the reverse geocoder's answer;
- validator.js `isEmail`/`normalizeEmail`;
- the current time, in milliseconds.

`Base.Bytes` identifies a Buffer by the base64 text it was built from.

Path parameters are text. Module `Js` models the JavaScript built-ins the
handlers use on them:
- `parseInt`: decimal, with leading white space, a sign, and trailing text ignored;
- `Number` on integer text;
- truthiness;
- `split(" ")`;
- substring containment.

A path id that is `NaN` reaches the store, which rejects it, so the handler
answers with its catch-all 500. `deleteTrip` runs five deletions with no
transaction. Its model takes an injected failure stage (`fault`), which
lets it state what is left behind when a stage throws.

The registration route is modelled as written. Its rules check a field
named `adress`, so a body whose `address` is not a string gets past them.
createUser stores a `null` address as an empty column and fails with a 500
on a number, a boolean, an object or an array. The rules with the check on
`address` are kept beside them, for the finding below.

## Model

| member | source | states |
|---|---|---|
| Js.ParseIntOfDecimal | src/services/Users.service.ts:110 | parseInt reads any integer written in decimal back exactly, whatever non-digit text follows it |
| Js.ParseIntNaN | src/services/Users.service.ts:145-149 | text with no digit after the white space and the sign is NaN, which deleteUser's `isNaN` check catches |
| Js.NumberOfDecimal | src/controllers/Trips.controllers.ts:103 | `Number` reads any integer written in decimal back exactly |
| Js.NumberOfTrailingText | src/controllers/Trips.controllers.ts:103 | for every integer written in decimal and followed by text that cannot continue a numeric literal and is not all white space (`"12ab"`, `"7 px"`), `Number` gives NaN while `parseInt` reads the integer: the share route is stricter than the others |
| Js.JoinSplit | src/middlewares/authenticateJWT.ts:22 | `split` loses nothing: joining the pieces with the separator gives back the header |
| Js.SplitSinglePiece | src/middlewares/authenticateJWT.ts:22 | the header splits into more than one piece exactly when it contains a space |
| Js.SplitAfterPiece | src/middlewares/authenticateJWT.ts:22 | a separator-free piece followed by the separator is the first piece, and the rest is split on its own |
| Store.LatestExists | src/controllers/location.controller.ts:75-78 | every non-empty set of location rows has a latest one, so `findFirst` ordered by `createdAt` desc finds a row whenever one matches |
| Store.Database.FindUserByEmail | src/controllers/Users.controllers.ts:204-206 | `findUnique` by e-mail finds the one user with that e-mail, or nothing exactly when no user has it |
| Store.Database.FindLatestLocation | src/controllers/location.controller.ts:75-78 | finds nothing exactly when the (user, trip) pair has no location; otherwise finds a row no other row of the pair is later than |
| Store.Database.InsertUser | src/services/Users.service.ts:26-35 | a taken e-mail is refused as a unique violation on `email` and nothing changes; otherwise the row is added under a fresh id |
| Store.Database.UpdateUser | src/services/Users.service.ts:96-99 | an unknown id is refused as not found; an e-mail taken by another user is refused; otherwise only that row is replaced |
| Store.Database.DeleteUser | src/services/Users.service.ts:156 | an unknown id is refused; a user still referenced by trips, comments or locations is refused; otherwise exactly that row goes |
| Store.Database.InsertTrip | src/services/Trips.service.ts:17-28 | a trip whose owner does not exist is refused; otherwise the row is added under a fresh id |
| Store.Database.UpdateTrip | src/services/Trips.service.ts:40-51 | an unknown id is refused as not found; otherwise only that row is replaced |
| Store.Database.DeleteTrip | src/services/Trips.service.ts:82-86 | an unknown id is refused; a trip still referenced by steps or locations is refused; otherwise exactly that row goes |
| Store.Database.InsertStep | src/services/Steps.service.ts:15-22 | a step for an unknown trip is refused; otherwise the row is added under a fresh id |
| Store.Database.UpdateStep | src/services/Steps.service.ts:54-57 | an unknown id is refused; otherwise only that row is replaced |
| Store.Database.DeleteStep | src/services/Steps.service.ts:97-99 | an unknown id is refused; a step with photos or comments is refused; otherwise exactly that row goes |
| Store.Database.DeleteStepsOfTrip | src/services/Trips.service.ts:72-76 | removes every step of the trip, unless one of them is still referenced, in which case nothing changes |
| Store.Database.InsertPhotos | src/services/Steps.service.ts:32-34 | a batch naming an unknown step is refused whole; otherwise the rows are added under consecutive fresh ids |
| Store.Database.DeletePhotosOfTrip | src/services/Trips.service.ts:57-63 | removes exactly the photos of the trip's steps |
| Store.Database.DeleteCommentsOfTrip | src/services/Trips.service.ts:65-71 | removes exactly the comments on the trip's steps |
| Store.Database.InsertLocation | src/controllers/location.controller.ts:92-100 | a location naming an unknown user or trip is refused; otherwise the row is added under a fresh id |
| Store.Database.DeleteLocationsOfTrip | src/services/Trips.service.ts:77-81 | removes exactly the locations of the trip |
| UsersService.StripDataUrl | src/services/Users.service.ts:12 | the result is the input, or a proper suffix of it that follows a `data:image/` prefix |
| UsersService.StripDataUrlOfDataUrl | src/services/Users.service.ts:12 | for `data:image/<word>;base64,<payload>` the result is exactly the payload |
| UsersService.ProcessPic | src/services/Users.service.ts:10-18 | a picture is produced exactly for a Buffer (returned as is) or for a string starting with `data:image`; anything else gives null |
| UsersService.ProcessPicOfDataUrl | src/services/Users.service.ts:10-14 | a data URL gives the buffer of its payload |
| UsersService.NewUserRow | src/services/Users.service.ts:24-35 | the stored password is `bcrypt.hash` of the one sent; names and e-mail are the ones sent, a string address is stored as sent and a missing or `null` one as an empty column, and the picture is processed; an address that is a number, a boolean, an object or an array has no row |
| UsersService.ViewOf | src/services/Users.service.ts:46-58 | the echoed user carries the new id and the stored names, e-mail, address, picture and creation time, and no password |
| UsersService.CreateUser | src/services/Users.service.ts:21-70 | an address that is a number, a boolean, an object or an array answers 500 and adds no user, whether or not the e-mail is taken (a `null` address is stored as an empty column); a taken e-mail answers 409 and adds no user; otherwise exactly one row with the digest is added and the reply echoes it with a token signed over `{email, id}`; with no signing secret the reply is 500 but the row stays |
| UsersService.UpdatePass | src/services/Users.service.ts:73-105 | the checks in order: a missing field (400), passwords that differ (400), an unknown user (404), a wrong current password (400), with no change on any of them; success changes only that user's password, to the digest of the new one |
| UsersService.Merge | src/services/Users.service.ts:113-131 | each of the names, e-mail and address takes the value sent when that is a non-empty string and keeps its stored value otherwise; a picture processPic accepts replaces the stored one; the password changes only when one is sent, and then to its digest |
| UsersService.MergeIdempotent | src/services/Users.service.ts:123-133 | sending the same update twice gives the same user as sending it once |
| UsersService.UpdateUser | src/services/Users.service.ts:108-140 | an unknown id answers 404 with no change; otherwise only that user changes, to the merged row |
| UsersService.DeleteUser | src/services/Users.service.ts:143-161 | a non-numeric id answers 400, an unknown id 404, with no change; otherwise exactly that user is removed (200) |
| UsersService.WithPicture | src/services/Users.service.ts:174-179 | the picture becomes the stripped payload and the MIME type is set; every other field is kept |
| UsersService.UploadProfilePicture | src/services/Users.service.ts:165-186 | a missing image or MIME type answers 400 with no change; otherwise only that user's picture fields change |
| UsersService.GetProfilePicture | src/services/Users.service.ts:189-212 | a NaN id answers 400; the stored picture is served exactly when the user exists with a picture and a non-empty MIME type, and the default image otherwise |
| UsersService.UploadThenGetPicture | src/services/Users.service.ts:165-212 | after an upload, asking for the picture by the user's id serves exactly what was uploaded |
| TripsService.NewTripRow | src/services/Trips.service.ts:16-27 | the trip is public exactly when `isPublic` is true (default false); it has a share token exactly when public, and the token is the fresh uuid |
| TripsService.CreateTrip | src/services/Trips.service.ts:7-29 | exactly one trip row is added, and every public trip keeps having a share token |
| TripsService.PatchedTrip | src/services/Trips.service.ts:39-50 | each supplied field (name, summary, dates, country, isPublic) takes the supplied value and each absent one is kept; `isPublic: true` makes the trip public with a new token; otherwise the token is kept, and `isPublic: false` does not clear it |
| TripsService.EmptyPatchKeepsTrip | src/services/Trips.service.ts:40-51 | an update with no fields leaves the trip as it was |
| TripsService.PatchKeepsTokens | src/services/Trips.service.ts:39-49 | no update can leave a public trip without a share token |
| TripsService.UpdateTrip | src/services/Trips.service.ts:31-52 | a NaN id is refused and an unknown id is not found, with no change; otherwise only that trip changes, to the patched row |
| TripsService.Cascade | src/services/Trips.service.ts:57-86 | the stages in order (photos, comments, steps, locations, trip), stopping at the first that fails; users are never touched |
| TripsService.CascadeLeavesNoTrace | src/services/Trips.service.ts:57-88 | after a complete cascade, no photo, comment, step or location refers to the trip or its steps, and the trip is gone |
| TripsService.CascadeKeepsOtherTrips | src/services/Trips.service.ts:57-86 | rows of other trips are untouched whatever stage fails |
| TripsService.CascadeKeepsLinks | src/services/Trips.service.ts:57-86 | a cascade stopped at any stage leaves no dangling foreign key |
| TripsService.StepsOfTripUnreferenced | src/services/Trips.service.ts:57-76 | once the first two stages are done, no photo or comment refers to a step of the trip, so the steps can go |
| TripsService.FailedCascadeKeepsTrip | src/services/Trips.service.ts:82-96 | a run that fails at any stage keeps the trip row, so the reply is 500 and the trip is still there; a failure at or before the step stage keeps every step, and one at the first stage changes nothing |
| TripsService.DeleteStepChildren | src/services/Trips.service.ts:57-71 | the photo and comment stages leave exactly the tables the cascade gives |
| TripsService.DeleteTripRows | src/services/Trips.service.ts:72-86 | the step, location and trip stages leave exactly the tables the cascade gives |
| TripsService.DeleteTripCascade | src/services/Trips.service.ts:57-86 | the five stages leave exactly the cascade's tables; deletions made before a failing stage stay, with no rollback |
| TripsService.DeleteTrip | src/services/Trips.service.ts:54-97 | 200 exactly when every stage succeeds, 500 otherwise, with the partial deletions kept |
| StepsService.PhotoRow | src/services/Steps.service.ts:25-30 | each photo row is linked to the new step |
| StepsService.AllPhotoRows | src/services/Steps.service.ts:24-31 | createStep makes exactly one row per entry, in order, each with the entry's payload |
| StepsService.NewStepRow | src/services/Steps.service.ts:15-22 | the step row carries the body's trip and the optional name as sent |
| StepsService.CreateStep | src/services/Steps.service.ts:7-40 | a missing trip id, date or description answers 400 with no change; otherwise one step and one photo row per entry are added (201); an entry with no image fails after the step is written |
| StepsService.PhotoRowsOf | src/services/Steps.service.ts:59-69 | updateStep's batch has at most one row per entry, all for the step, and is empty exactly when no entry has an image |
| StepsService.PhotoRowsOfAppend | src/services/Steps.service.ts:61-69 | the batch for two lists of entries is the two batches one after the other |
| StepsService.PhotoRowsOfAllImages | src/services/Steps.service.ts:59-69 | when every entry has an image, updateStep stores the same rows createStep would |
| StepsService.CollectPhotoRows | src/services/Steps.service.ts:60-69 | the loop builds exactly the batch of entries with an image |
| StepsService.UpdatedStep | src/services/Steps.service.ts:47-57 | each field the body sets to a truthy value (trip id, date, name, description) takes that value; every other field keeps its own |
| StepsService.AppendPhotos | src/services/Steps.service.ts:59-75 | existing photos are kept and exactly the batch of entries with an image is appended, under consecutive fresh ids |
| StepsService.UpdateStep | src/services/Steps.service.ts:42-86 | only the truthy fields are written and photos are only ever added; an unknown id changes nothing |
| StepsService.DeleteStep | src/services/Steps.service.ts:88-104 | an unknown id answers 404 with no change; otherwise exactly that step is removed (200) |
| LocationController.PickCity | src/controllers/location.controller.ts:65 | the city is one of the three fields: city when truthy, else town when truthy, else village when truthy; none exactly when all three are falsy; never empty |
| LocationController.RepeatCheckIn | src/controllers/location.controller.ts:82-88 | a check-in from the same city is skipped exactly when it comes less than twelve hours after the latest one |
| LocationController.HandleLocation | src/controllers/location.controller.ts:24-108 | a falsy coordinate or id (400), an id that `Number` does not read as an integer, whether sent as a number or as text (400), or no city (500) writes nothing; the ids stored are the ones `Number` reads; the same city within twelve hours of the latest check-in answers 200 with no write; otherwise exactly one row is appended (201) |
| LocationController.IdOf | src/controllers/location.controller.ts:41-48 | a numeric id is kept exactly when it is an integer; a text id is read by `Number` |
| LocationController.IdTextReadsAsNumber | src/controllers/location.controller.ts:41-42 | the decimal text of an integer id reads as the same id as the number itself |
| LocationController.GetLocation | src/controllers/location.controller.ts:111-141 | missing parameters answer 400; the reply is the latest location of the pair, or 404 exactly when the pair has none |
| UsersController.SearchUsers | src/controllers/Users.controllers.ts:45-84 | a non-string query answers 400; a user is listed exactly when there is no query or a name contains it; 404 exactly when nobody is listed; listed records hold no e-mail and no password |
| UsersController.GetUserTripsBySearch | src/controllers/Users.controllers.ts:87-140 | an id of 0 or NaN answers 400 and an unknown user 404; the profile lists exactly the user's public trips, each as its card |
| UsersController.TripCardContents | src/controllers/Users.controllers.ts:116-133 | a trip's card carries the trip's columns and lists exactly the trip's steps, each with its name, its description and exactly its photos' URLs |
| UsersController.ProfileIgnoresPrivateTrip | src/controllers/Users.controllers.ts:111 | the profile is the same whether or not a private trip exists, whatever that trip holds |
| UsersController.Login | src/controllers/Users.controllers.ts:200-240 | an unknown e-mail and a wrong password get the same 404; a missing secret answers 500; success returns a token signed over the user's e-mail and id, and that id |
| UsersController.NewUserOf | src/validators/User.validators.ts:17-20 | after the rules as written have passed, createUser receives the normalised e-mail and every other field as sent, `address` included whatever it holds |
| UsersController.Register | src/routes/users.routes.ts:31 | the route as written: a rule that fails on the body answers `validate`'s 400 with no change; then register runs the rules again over the sanitised body and answers 400 with no change if one fails; otherwise it answers what createUser answers on the body with the e-mail normalised twice, including 500 with no change for an address that is a number, a boolean, an object or an array |
| UsersController.RegisteredPasswordIsHashed | src/controllers/Users.controllers.ts:147-160 | a password that gets through both runs of the rules is a strong one, and the row createUser stores holds `bcrypt.hash` of it |
| TripsController.GetTripsByUserId | src/controllers/Trips.controllers.ts:18-32 | exactly the trips whose owner is the path id, public or not; NaN answers 500 |
| TripsController.GetById | src/controllers/Trips.controllers.ts:33-58 | the trip with its owner's names when it exists, 404 exactly when it does not, 500 for NaN |
| TripsController.TripListedUnderOwner | src/controllers/Trips.controllers.ts:21-53 | every stored trip is found at its id and is listed under its owner's id |
| TripsController.GetShare | src/controllers/Trips.controllers.ts:97-125 | NaN answers 500 and a missing or private trip 404; otherwise the message quotes `fullName` and `tripName`, with the trip, exactly its steps, each with exactly its photos and exactly its comments, and the owner's whole row |
| TripsController.CreatedTripShared | src/controllers/Trips.controllers.ts:102-116 | a trip created public can be opened from its share link, and one created private cannot |
| TripsController.UnsharedTripHidden | src/controllers/Trips.controllers.ts:114 | making a trip private closes its share link, although it keeps its token |
| TripsController.ShareIgnoresToken | src/controllers/Trips.controllers.ts:102-116 | whether a trip is shown does not depend on its share token |
| AuthenticateJwt.BearerToken | src/middlewares/authenticateJWT.ts:22 | the token is undefined exactly when the header has no space, and never contains a space |
| AuthenticateJwt.BearerTokenOf | src/middlewares/authenticateJWT.ts:22 | the token is the text between the first and the second space, whatever the scheme word |
| AuthenticateJwt.Authenticate | src/middlewares/authenticateJWT.ts:12-35 | no secret answers 500 before the header is looked at; no header answers 401; `next` is called exactly for a non-empty token that verifies; a header without a space answers 403 |
| AuthenticateJwt.BearerRequest | src/middlewares/authenticateJWT.ts:21-30 | `Bearer <token>` goes through exactly when the token verifies, and gets 403 otherwise |
| UserValidators.Matches | src/validators/User.validators.ts:25-29 | a one-class pattern matches exactly when some character is in the class |
| UserValidators.NameErrors | src/validators/User.validators.ts:5-15 | no message exactly when the name is 2 to 50 characters long; an empty name gets both messages |
| UserValidators.EmailErrors | src/validators/User.validators.ts:17-19 | a message exactly when `isEmail` refuses the address |
| UserValidators.PasswordErrors | src/validators/User.validators.ts:22-30 | no message exactly when the password is 8 to 50 characters long and has an upper-case letter, a digit and a special character; each missing class gives its own message |
| UserValidators.OptionalStringErrors | src/validators/User.validators.ts:32-35 | an absent field passes; a message exactly when the field is present and not a string, `null` included |
| UserValidators.ChainErrorsEmpty | src/validators/User.validators.ts:4-36 | the rules raise nothing exactly when no chain raises anything |
| UserValidators.ChainErrorsWellFormed | src/validators/User.validators.ts:4-36 | the chains raise nothing exactly when both names are 2 to 50 characters, `isEmail` accepts the e-mail, the password is 8 to 50 characters with an upper-case letter, a digit and a special character, and the checked field is a string or missing |
| UserValidators.RegistrationErrorsAsWritten | src/validators/User.validators.ts:32-35 | as written, the not-a-string message depends on `adress` only |
| UserValidators.RegistrationErrors | src/validators/User.validators.ts:4-36 | with the rule on `address`, the not-a-string message depends on `address` only |
| UserValidators.RegistrationErrorsAsWrittenEmpty | src/validators/User.validators.ts:4-36 | the rules as written raise nothing exactly when the body is well formed with `adress`, not `address`, a string or missing |
| UserValidators.RegistrationErrorsEmpty | src/validators/User.validators.ts:4-36 | with the rule on `address`, the rules raise nothing exactly when the body is well formed, `address` included |
| UserValidators.AdressTypoLetsNonStringAddressThrough | src/validators/User.validators.ts:32 | a body whose `address` is not a string passes the rules as written and is refused by the corrected ones |
| UserValidators.Validate | src/validators/User.validators.ts:38-44 | `next` is called exactly when there are no errors; otherwise 400 with all of them |
| UserValidators.ValidateAcceptsWellFormed | src/routes/users.routes.ts:31 | a registration gets past `validate` on the route exactly when it is well formed with `adress` a string or missing, whatever `address` holds |
| UserValidators.Sanitized | src/validators/User.validators.ts:17-20 | after the rules run, the e-mail is the normalised one and every other field is unchanged |
| UserValidators.SecondRunChecksNormalisedEmail | src/controllers/Users.controllers.ts:148-154 | when the rules pass, running them again over the sanitised body raises only the e-mail message, exactly when `isEmail` refuses the normalised address |

## Left out

- Js.ParseInt: the `0x` prefix and radixes other than ten are not modelled. White space is the ASCII set plus no-break space and the byte-order mark; the other Unicode spaces are not. Integers are unbounded, so precision beyond 2^53 is not modelled.
- Js.NumberOf: text that `Number` reads as an integer but is not plain decimal (`"1e3"`, `"0x10"`, `"1.0"`) is treated as NaN.
- Js.Contains: Prisma's `contains` is modelled as case-sensitive substring containment; a database collation may compare differently.
- Message strings, JSON serialisation and the exact shape of `include`/`select` results are not modelled. Replies are tagged outcomes with their status, and lists are maps keyed by id, so `findMany` order is not modelled.
- Times: Date objects are integer milliseconds. `new Date(...)` on text that is not a date is not modelled.
- Schema defaults other than `isPublic` (such as `isVisible` and `createdAt`) are not modelled; `createdAt` is an input.
- UsersService.NewUserRow: bcrypt's `hash` is an opaque function here, so the model does not promise that the stored digest differs from the password sent.
- Ids: path ids are unbounded integers, while the `Int` columns are 32-bit. An id outside that range, such as `"99999999999"`, makes the ORM client reject the query, which the handlers' catch turns into 500; the model answers as for an unknown id instead (404, the default picture, or a refused statement). This holds for UsersService.UpdatePass, UsersService.UpdateUser, UsersService.DeleteUser, UsersService.UploadProfilePicture, UsersService.GetProfilePicture, TripsService.UpdateTrip, TripsService.DeleteTrip, StepsService.UpdateStep, StepsService.DeleteStep, UsersController.GetUserTripsBySearch, LocationController.GetLocation, TripsController.GetTripsByUserId, TripsController.GetById and TripsController.GetShare.
- bcrypt, jsonwebtoken (including token expiry), uuid, validator.js `isEmail`/`normalizeEmail`, the Nominatim request and Buffer's base64 decoding are parameters or opaque values.
- Store failures other than the ones a statement reports (lost connection, timeouts) are not modelled, except the failing stage injected into deleteTrip.
- Concurrency between requests, logging and `async` sequencing are not modelled. Each handler runs alone against the store.
- UserValidators.NameErrors: lengths are counted in characters. validator.js also discounts variation selectors, which is not modelled.
- UserValidators.Registration: the first name, last name, e-mail and password are taken to be strings or absent. Other JSON values, which express-validator converts to text, are not modelled.
- UserValidators.Validate: express-validator's error objects (field, location, value) are reduced to their messages.
- LocationController.HandleLocation: the coordinates are taken to be JSON numbers when present. Coordinates sent as text, which the geocoder receives as sent and the store refuses, are not modelled.
- StepsService: a photo entry's `image` is taken to be a string when it is present.
- The users controller's `getAll`, `getById`, `updateById`, `updateProfile`, `getProfile`, `deleteById` and `updatePassword` only forward to the services modelled here or run one query. They are not modelled. The same holds for the trips controller's `getAll`, `create`, `updateById` and `deleteById`.
- The referential actions of the schema are not part of this model. Required relations are taken to restrict deletion, and foreign keys are checked on insert.

## Findings

| source | as written | input that shows it | evidently intended | confidence | as-written member | corrected member |
|---|---|---|---|---|---|---|
| src/validators/User.validators.ts:32-35 | the optional must-be-a-string rule is on `body('adress')` | a registration whose `address` is the number 42 and that has no `adress` passes every rule, reaches createUser and gets a 500 instead of a 400; one whose `adress` is 42 is refused for a field that is never stored | the rule checks `address`, the field createUser stores (src/services/Users.service.ts:33) | not executed | UserValidators.AdressTypoLetsNonStringAddressThrough | UserValidators.RegistrationErrorsEmpty |
