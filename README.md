# SpeakSmart server: route handlers over five collections

This project models `index.js` of the SpeakSmart course-marketplace server: the
`verifyJWT` credential gate and every route handler registered in `run()`. The handlers
work on five MongoDB collections of the `speakSmart` database: `users`, `classes`,
`selectedClasses`, `enrolledClasses` and `payments`.

A collection is a sequence of documents in natural (insertion) order. A document is an
opaque `_id` plus a map from field names to values. Each MongoDB call the handlers make
is written as a pure function on such a sequence, with the driver's observable result:

- `find` with an equality filter;
- `sort` descending on a field, using MongoDB's order across types (null, numbers, strings, booleans) and treating a missing field as null;
- `limit`;
- `findOne`;
- `insertOne`, which refuses an `_id` already present;
- `updateOne` with `$set`, with or without upsert, reporting matched, modified and upserted counts;
- `deleteOne`.

The handlers that write are methods of the class `Server.Store`, which holds the five
collections as `seq` fields. Each method's `modifies` clause names the one collection it
changes. Each keeps the unique `_id` index of every collection (`Valid()`). The read
handlers are functions of the store.

Token verification (secret, signature, expiry) is a parameter: a function from the token
to its decoded claims, or None. ObjectIds are an abstract type with equality only. The
id the driver generates for an insert is a method parameter. The price of
`POST /create-payment-intent` is taken in whole dollars.

Some behaviour of the code worth stating outright:

- `GET /classes` with a status other than `approved` or `pending` lists all classes, sorted by status (`Server.UnknownStatusIsUnfiltered`).
- `GET /payments/:email` has no empty-email guard. Only the selected- and enrolled-class reads have one.
- A header with no space has no second word. The token is then `undefined`, which the JWT library refuses, so the gate denies.
- The server has separate `POST /payments`, `POST /enrolled-classes` and `DELETE /selected-class/:id` routes. No route runs them together, and no route increments `enrolledStudents`.

## Model

| member | source | states |
|---|---|---|
| Gate.Split | index.js:41 | `split(' ')`: at least one piece, no piece holds a space, and joining the pieces with spaces gives back the header |
| Gate.Token | index.js:41 | the token is the second piece of the header split on single spaces; it exists exactly when the header has a space, and it holds no space |
| Gate.BearerToken | index.js:41 | for `<scheme> <token>` with neither part holding a space, and any further text starting with a space, the token checked is exactly `<token>` |
| Gate.Authenticate | index.js:36-50 | a missing or empty header is denied; access is granted exactly when there is a non-empty second word and the verifier accepts it, with the verifier's claims; an empty token never reaches the verifier |
| Values.ValueLeTotal | index.js:156 | any two field values are ordered one way or the other by the sort order |
| Values.ValueLeTransitive | index.js:156 | the sort order is transitive |
| Values.ValueLeAntisymmetric | index.js:156 | two values that sort in either order are equal, so the order is total |
| Tables.FirstMatch | index.js:98 | the position of the first document the query matches, and no earlier one matches; None exactly when nothing matches |
| Tables.FindOne | index.js:98 | `findOne` returns a matching document of the collection, and returns null exactly when no document matches |
| Tables.Filter | index.js:202 | `find` with an equality filter: every result matches, and each matching document occurs as often as in the collection and no other does |
| Tables.SortDesc | index.js:156 | `sort({f: -1})` is a permutation of its input, ordered by the field with non-increasing values |
| Tables.Limit | index.js:119 | `limit(n)` for a positive n is the prefix of length min(n, size), and so holds only documents of its input, no more often than there |
| Tables.LimitOmitsNoLarger | index.js:118-119 | on a list sorted by a field, descending, nothing `limit(n)` drops has a larger value of that field than anything it keeps |
| Tables.InsertOne | index.js:111 | the insert succeeds exactly when the id is new, and then appends the body under that id, findable by id; a duplicate changes nothing; the unique index is kept |
| Tables.UpdateOne | index.js:185 | with a match, the first matching document becomes its old fields overridden by the `$set` fields, reporting one match; without a match and no upsert, nothing changes and zero counts are reported; an upsert without a match appends the query's equality fields plus the `$set` fields under the queried id (or the generated id); a duplicate key is reported, with nothing changed, exactly when that id is already taken; only the first match changes; the unique index is kept |
| Tables.DeleteOne | index.js:232 | removes at most one document, one that matches, leaving the rest in order; removes one exactly when some document matches |
| Tables.UpdateByIdEffect | index.js:176-187 | `$set` by id merges the body into that document; if no document has the id, an upsert appends one with that id and the body, and a non-upsert changes nothing; documents with other ids keep their place |
| Tables.UpdateByIdIdempotent | index.js:207-216 | repeating the same `$set` by id leaves the collection as one application did, and reports one match and no modification |
| Tables.UpsertEstablishes | index.js:83-93 | after an upsert keyed by a field, the document the query finds carries every field of the body |
| Tables.UpsertOnlyWithoutMatch | index.js:256-265 | with a match, updates with and without upsert perform the same write; without one, the non-upsert form leaves the collection unchanged |
| Tables.DeleteByIdRemovesId | index.js:229-234 | under unique ids, delete by id removes exactly that id from the collection's ids, keeps ids unique, and reports 1 exactly when the id was present |
| Queries.StatusFilter | index.js:152-155 | a status filter is used exactly for `approved` and `pending`, and then it is an equality on `status` |
| Queries.ListClasses | index.js:150-158 | for `approved`/`pending`: exactly the classes with that status; otherwise: a permutation of all classes; in both cases sorted by status, descending |
| Queries.PendingBeforeApproved | index.js:156 | in a listing sorted by status, descending, every pending class precedes every approved one |
| Queries.Popular | index.js:116-120 | min(6, number matching) results, drawn from the matching documents no more often than they occur, ordered by `enrolledStudents` non-increasing, and no matching document left out has a larger `enrolledStudents` than one returned |
| Queries.PopularClasses | index.js:115-122 | the top min(6, number approved) approved classes by `enrolledStudents`, in non-increasing order, with no left-out approved class larger than one returned |
| Queries.PopularInstructors | index.js:134-141 | the top min(6, number of instructors) users with role instructor by `enrolledStudents`, in non-increasing order, with no left-out instructor larger than one returned |
| Queries.StudentRecords | index.js:197-204 | an empty email gives an empty list; otherwise exactly the records whose `student` is the email |
| Queries.PaymentsOf | index.js:250-253 | exactly the payments whose `studentEmail` is the email, sorted by `date`, newest first |
| Queries.Instructors | index.js:144-147 | exactly the users whose role is instructor |
| Queries.InstructorClasses | index.js:161-165 | exactly the classes whose `instructorEmail` is the email |
| Queries.ChargeAmount | index.js:71 | the amount is a whole number of hundreds of cents equal to the price in dollars |
| Queries.PaymentIntentFor | index.js:72-76 | the charge asks for the price times 100 in `usd`, paid by card |
| Server.CreatePaymentIntent | index.js:69-80 | Unauthorized exactly when the gate denies; otherwise a card charge in `usd` of the price in cents |
| Server.ApproveTwiceIsOnce | index.js:207-216 | approving twice gives the same classes as approving once; the second call matches one and modifies none |
| Server.UnknownStatusIsUnfiltered | index.js:152-156 | any status other than `approved`/`pending` gives the same listing as no status |
| Server.Store.constructor | index.js:55-59 | the five collections start empty and the unique-id invariant holds |
| Server.Store.PutUser | index.js:83-93 | with a user having that email, the first one gets its old fields overridden by the body; otherwise a user `{email} + body` is appended under the generated id (or nothing changes if that id is taken); the user found by that email then carries every field of the body; other collections unchanged |
| Server.Store.GetUser | index.js:96-100 | a user with that email, or null exactly when none has it |
| Server.Store.GetUsers | index.js:103-106 | all users |
| Server.Store.PostClass | index.js:109-113 | gate denied: Unauthorized and nothing changes; granted with a new id: the class is appended; other collections unchanged |
| Server.Store.GetPopularClasses | index.js:115-122 | the top min(6, number approved) approved classes of the collection by `enrolledStudents`, in non-increasing order, with no left-out approved class larger than one returned |
| Server.Store.GetSelectedClass | index.js:125-131 | the selection with that id, or null exactly when no selection has it |
| Server.Store.GetPopularInstructors | index.js:134-141 | the top min(6, number of instructors) instructors of the users by `enrolledStudents`, in non-increasing order, with no left-out instructor larger than one returned |
| Server.Store.GetInstructors | index.js:144-147 | each user whose role is instructor is listed as often as it occurs in the users, and no other document is listed |
| Server.Store.GetClasses | index.js:150-158 | sorted by status, descending; with `approved`/`pending`, each class with that status is listed as often as it occurs and no other document is; otherwise a permutation of all classes |
| Server.Store.GetInstructorClasses | index.js:161-165 | each class whose `instructorEmail` is the email is listed as often as it occurs, and no other document is |
| Server.Store.GetClass | index.js:168-173 | the class with that id, or null exactly when no class has it |
| Server.Store.PutClass | index.js:176-187 | with a match the body is merged into that class and the count is kept; without one a class with that id and the body is appended; classes with other ids and the other collections are unchanged |
| Server.Store.SelectClass | index.js:190-194 | the selection is appended when its id is new; other collections unchanged |
| Server.Store.GetSelectedClasses | index.js:197-204 | Unauthorized exactly when the gate denies; an empty email gives an empty list; otherwise each selection whose `student` is the email is listed as often as it occurs, and no other document is |
| Server.Store.ApprovedFields | index.js:212 | the `$set` document is exactly `status: "approved"` and `checked: true` |
| Server.Store.ApproveClass | index.js:207-216 | afterwards the class with the id has status approved and checked true, it keeps every other field it had with the same value, and any other field it has it had before; a new class is added exactly when none had the id; other classes and collections unchanged |
| Server.Store.GetEnrolledClasses | index.js:219-226 | Unauthorized exactly when the gate denies; an empty email gives an empty list; otherwise each enrollment whose `student` is the email is listed as often as it occurs, and no other document is |
| Server.Store.DeleteSelectedClass | index.js:229-234 | gate denied: nothing changes; granted: the selection ids lose exactly that id, at most one record goes, and the rest keep their order; other collections unchanged |
| Server.Store.PostEnrolledClass | index.js:237-241 | gate denied: nothing changes; granted with a new id: the enrollment is appended; other collections unchanged |
| Server.Store.PostPayment | index.js:243-247 | gate denied: nothing changes; granted with a new id: the payment is appended; other collections unchanged |
| Server.Store.GetPayments | index.js:250-254 | Unauthorized exactly when the gate denies; otherwise a permutation of that student's payments, sorted by `date`, newest first |
| Server.Store.PatchClass | index.js:256-265 | gate denied or no class with the id: the classes are unchanged; otherwise the body is merged into that class; the count never changes; other classes and collections unchanged |

## Left out

- Express setup, CORS, `app.listen` and the root route (index.js:1-33) are HTTP plumbing.
- The MongoDB connection, the collection handles and the ping (index.js:19-28, 54-59, 268) are I/O. The constructor stands for an empty database.
- `POST /jwt` (index.js:62-66) signs a token with a secret. Signing and checking tokens is crypto, so the verifier is a parameter.
- The decoded claims are handed to the handlers as `req.decoded`. They are kept in `Gate.Auth` but no handler reads them.
- The charge request to the payment gateway and the client secret it returns (index.js:72-79) are a network call. Only the amount, currency and method types are modelled.
- `new ObjectId(id)` throws on a malformed id. Ids are opaque here, so that error is not modelled.
- A request body that carries its own `_id` is not modelled. The `Fields` type excludes `_id`, and insert ids come from the driver.
- Field values are null, booleans, integers and strings. Arrays, nested documents, floats and dates as BSON types are not modelled. Neither is MongoDB's matching of a value inside an array.
- Queries.ChargeAmount: takes the price as whole dollars, so a fractional price, whose product by 100 is a float in the source, is not modelled.
- A duplicate `_id` makes the driver's insert throw. The source does not catch it, so no response is sent. The model reports `DuplicateKey` and leaves the collection unchanged.
- Tables.Filter: its contract fixes which documents are returned and how often, but not that they keep natural order, which the body does.
- Tables.SortDesc: the order among documents with equal keys is not stated, because MongoDB does not guarantee it.
- Concurrency between requests and the async interleaving inside a handler are not modelled.
- Tables.Limit: `limit(0)`, which MongoDB reads as no limit, is not modelled, because the handlers only call `limit(6)`.
- No handler checks that an enrollment is unique per student and class, that the caller owns the record it changes, or that the charged price matches the class on record, so the model has none of these.
