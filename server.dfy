/**
 The route handlers registered in `run()`, over a store holding the five collections of
 the `speakSmart` database. Each handler that writes changes exactly one collection;
 handlers mounted behind `verifyJWT` take the `Authorization` header and the token
 verifier, and do nothing but answer Unauthorized when the gate refuses.
 */
module Server {
  import opened Wrappers
  import opened Values
  import opened Tables
  import opened Gate
  import opened Queries

  /** What a handler sends back. */
  datatype Reply =
    | Unauthorized                      // status 401, `{ error: true, message }`
    | Written(result: WriteResult)      // the driver's write result
    | Found(docs: seq<Doc>)             // `find(...).toArray()`
    | FoundOne(doc: Option<Doc>)        // `findOne(...)`, null when nothing matches
    | ClientSecretFor(request: IntentRequest)

  /** `POST /create-payment-intent` (index.js lines 69-80): the charge requested for `price`. */
  function CreatePaymentIntent(header: Option<string>, verify: Verifier, price: int): (r: Reply)
    ensures r == Unauthorized <==> Authenticate(header, verify).Denied?
    ensures r != Unauthorized ==>
      && r.ClientSecretFor?
      && r.request.amount % 100 == 0 && r.request.amount / 100 == price
      && r.request.currency == "usd" && r.request.methodTypes == ["card"]
  {
    if Authenticate(header, verify).Denied? then Unauthorized
    else ClientSecretFor(PaymentIntentFor(price))
  }

  /** Approving a class twice leaves the classes as approving it once, and the second reports no change. */
  lemma ApproveTwiceIsOnce(classes: seq<Doc>, id: Id)
    ensures var once := UpdateOne(classes, ById(id), Store.ApprovedFields(), true, id);
      var twice := UpdateOne(once.table, ById(id), Store.ApprovedFields(), true, id);
      twice.table == once.table && twice.result == UpdateResult(1, 0, None)
  {
    var once := UpdateOne(classes, ById(id), Store.ApprovedFields(), true, id);
    UpdateByIdEffect(classes, id, Store.ApprovedFields(), true, id);
    UpdateByIdIdempotent(classes, id, Store.ApprovedFields(), true, id, id);
    assert (classes + [Doc(id, Store.ApprovedFields())])[|classes|] == Doc(id, Store.ApprovedFields());
  }

  /** An unrecognised or absent status filter lists the classes exactly as no filter does. */
  lemma UnknownStatusIsUnfiltered(classes: seq<Doc>, status: string)
    requires status != "approved" && status != "pending"
    ensures ListClasses(classes, Some(status)) == ListClasses(classes, None)
  {
  }

  class Store {
    var users: seq<Doc>
    var classes: seq<Doc>
    var selectedClasses: seq<Doc>
    var enrolledClasses: seq<Doc>
    var payments: seq<Doc>

    /** Every collection keeps MongoDB's unique index on `_id`. */
    ghost predicate Valid()
      reads this
    {
      && UniqueIds(users)
      && UniqueIds(classes)
      && UniqueIds(selectedClasses)
      && UniqueIds(enrolledClasses)
      && UniqueIds(payments)
    }

    constructor ()
      ensures Valid()
      ensures users == [] && classes == [] && selectedClasses == []
      ensures enrolledClasses == [] && payments == []
    {
      users, classes, selectedClasses, enrolledClasses, payments := [], [], [], [], [];
    }

    /** `PUT /users/:email` (index.js lines 83-93): upsert of the user with that email. */
    method PutUser(email: string, body: Fields, newId: Id) returns (reply: Reply)
      requires Valid()
      modifies this`users
      ensures Valid()
      ensures var w := UpdateOne(old(users), ByField("email", Str(email)), body, true, newId);
        users == w.table && reply == Written(w.result)
      ensures |old(users)| <= |users| <= |old(users)| + 1
      ensures ("email" in body ==> body["email"] == Str(email)) && !reply.result.DuplicateKey? ==>
        && FindOne(users, ByField("email", Str(email))).Some?
        && forall f :: f in body ==>
             f in FindOne(users, ByField("email", Str(email))).value.fields
             && FindOne(users, ByField("email", Str(email))).value.fields[f] == body[f]
      ensures FirstMatch(old(users), ByField("email", Str(email))).Some? ==>
        var k := FirstMatch(old(users), ByField("email", Str(email))).value;
        users == old(users)[k := Doc(old(users)[k].id, old(users)[k].fields + body)]
      ensures FirstMatch(old(users), ByField("email", Str(email))).None? && newId in Ids(old(users)) ==>
        users == old(users) && reply == Written(DuplicateKey(newId))
      ensures FirstMatch(old(users), ByField("email", Str(email))).None? && newId !in Ids(old(users)) ==>
        && users == old(users) + [Doc(newId, map["email" := Str(email)] + body)]
        && reply == Written(UpdateResult(0, 0, Some(newId)))
      ensures classes == old(classes) && selectedClasses == old(selectedClasses)
      ensures enrolledClasses == old(enrolledClasses) && payments == old(payments)
    {
      if "email" !in body || body["email"] == Str(email) {
        UpsertEstablishes(users, ByField("email", Str(email)), body, newId);
      }
      var w := UpdateOne(users, ByField("email", Str(email)), body, true, newId);
      users := w.table;
      reply := Written(w.result);
    }

    /** `GET /users/:email` (index.js lines 96-100): the first user with that email, or null. */
    function GetUser(email: string): (r: Reply)
      reads this
      ensures r.FoundOne?
      ensures r.doc.Some? ==> r.doc.value in users && Key(r.doc.value, "email") == Str(email)
      ensures r.doc.None? <==> forall d :: d in users ==> Key(d, "email") != Str(email)
    {
      FoundOne(FindOne(users, ByField("email", Str(email))))
    }

    /** `GET /users` (index.js lines 103-106): every user, in natural order. */
    function GetUsers(): (r: Reply)
      reads this
      ensures r.Found? && r.docs == users
    {
      Found(users)
    }

    /** `POST /classes` (index.js lines 109-113), behind the gate: inserts the body as a class. */
    method PostClass(header: Option<string>, verify: Verifier, body: Fields, newId: Id) returns (reply: Reply)
      requires Valid()
      modifies this`classes
      ensures Valid()
      ensures Authenticate(header, verify).Denied? ==> reply == Unauthorized && classes == old(classes)
      ensures Authenticate(header, verify).Granted? ==>
        var w := InsertOne(old(classes), newId, body); classes == w.table && reply == Written(w.result)
      ensures Authenticate(header, verify).Granted? && newId !in Ids(old(classes)) ==>
        classes == old(classes) + [Doc(newId, body)]
      ensures users == old(users) && selectedClasses == old(selectedClasses)
      ensures enrolledClasses == old(enrolledClasses) && payments == old(payments)
    {
      reply := Unauthorized;
      if Authenticate(header, verify).Granted? {
        var w := InsertOne(classes, newId, body);
        classes := w.table;
        reply := Written(w.result);
      }
    }

    /** `GET /popular-classes` (index.js lines 115-122). */
    function GetPopularClasses(): (r: Reply)
      reads this
      ensures r.Found? && IsTopByEnrollment(r.docs, classes, ByField("status", Str("approved")))
      ensures forall d :: d in r.docs ==> d in classes && Key(d, "status") == Str("approved")
    {
      Found(PopularClasses(classes))
    }

    /** `GET /selected-class/:id` (index.js lines 125-131): that selection, or null. */
    function GetSelectedClass(id: Id): (r: Reply)
      reads this
      ensures r.FoundOne?
      ensures r.doc.Some? ==> r.doc.value in selectedClasses && r.doc.value.id == id
      ensures r.doc.None? <==> id !in Ids(selectedClasses)
    {
      FoundOne(FindOne(selectedClasses, ById(id)))
    }

    /** `GET /popular-instructors` (index.js lines 134-141). */
    function GetPopularInstructors(): (r: Reply)
      reads this
      ensures r.Found? && IsTopByEnrollment(r.docs, users, ByField("role", Str("instructor")))
      ensures forall d :: d in r.docs ==> d in users && Key(d, "role") == Str("instructor")
    {
      Found(PopularInstructors(users))
    }

    /** `GET /instructors` (index.js lines 144-147). */
    function GetInstructors(): (r: Reply)
      reads this
      ensures r.Found?
      ensures forall d :: d in r.docs <==> d in users && Key(d, "role") == Str("instructor")
      ensures forall d :: multiset(r.docs)[d] == if Key(d, "role") == Str("instructor") then multiset(users)[d] else 0
    {
      Found(Instructors(users))
    }

    /** `GET /classes?status=` (index.js lines 150-158). */
    function GetClasses(status: Option<string>): (r: Reply)
      reads this
      ensures r.Found? && SortedDesc(r.docs, "status")
      ensures StatusFilter(status).Some? ==>
        forall d :: d in r.docs <==> d in classes && Key(d, "status") == Str(status.value)
      ensures StatusFilter(status).Some? ==>
        forall d :: multiset(r.docs)[d] == if Key(d, "status") == Str(status.value) then multiset(classes)[d] else 0
      ensures StatusFilter(status).None? ==> multiset(r.docs) == multiset(classes)
    {
      Found(ListClasses(classes, status))
    }

    /** `GET /instructor-classes/:email` (index.js lines 161-165). */
    function GetInstructorClasses(email: string): (r: Reply)
      reads this
      ensures r.Found?
      ensures forall d :: d in r.docs <==> d in classes && Key(d, "instructorEmail") == Str(email)
      ensures forall d :: multiset(r.docs)[d] == if Key(d, "instructorEmail") == Str(email) then multiset(classes)[d] else 0
    {
      Found(InstructorClasses(classes, email))
    }

    /** `GET /classes/:id` (index.js lines 168-173): that class, or null. */
    function GetClass(id: Id): (r: Reply)
      reads this
      ensures r.FoundOne?
      ensures r.doc.Some? ==> r.doc.value in classes && r.doc.value.id == id
      ensures r.doc.None? <==> id !in Ids(classes)
    {
      FoundOne(FindOne(classes, ById(id)))
    }

    /** `PUT /classes/:id` (index.js lines 176-187): `$set` of the body with upsert. */
    method PutClass(id: Id, body: Fields) returns (reply: Reply)
      requires Valid()
      modifies this`classes
      ensures Valid()
      ensures var w := UpdateOne(old(classes), ById(id), body, true, id);
        classes == w.table && reply == Written(w.result)
      ensures id in Ids(old(classes)) ==>
        && |classes| == |old(classes)|
        && FindOne(classes, ById(id)) == Some(Doc(id, FindOne(old(classes), ById(id)).value.fields + body))
      ensures id !in Ids(old(classes)) ==> classes == old(classes) + [Doc(id, body)]
      ensures forall k :: 0 <= k < |old(classes)| && old(classes)[k].id != id ==> classes[k] == old(classes)[k]
      ensures users == old(users) && selectedClasses == old(selectedClasses)
      ensures enrolledClasses == old(enrolledClasses) && payments == old(payments)
    {
      UpdateByIdEffect(classes, id, body, true, id);
      var w := UpdateOne(classes, ById(id), body, true, id);
      classes := w.table;
      reply := Written(w.result);
    }

    /** `POST /select-class` (index.js lines 190-194): inserts the body as a selection. */
    method SelectClass(body: Fields, newId: Id) returns (reply: Reply)
      requires Valid()
      modifies this`selectedClasses
      ensures Valid()
      ensures var w := InsertOne(old(selectedClasses), newId, body);
        selectedClasses == w.table && reply == Written(w.result)
      ensures newId !in Ids(old(selectedClasses)) ==> selectedClasses == old(selectedClasses) + [Doc(newId, body)]
      ensures users == old(users) && classes == old(classes)
      ensures enrolledClasses == old(enrolledClasses) && payments == old(payments)
    {
      var w := InsertOne(selectedClasses, newId, body);
      selectedClasses := w.table;
      reply := Written(w.result);
    }

    /** `GET /selected-classes/:email` (index.js lines 197-204), behind the gate. */
    function GetSelectedClasses(header: Option<string>, verify: Verifier, email: string): (r: Reply)
      reads this
      ensures r == Unauthorized <==> Authenticate(header, verify).Denied?
      ensures r != Unauthorized ==> r.Found?
      ensures r != Unauthorized && email == "" ==> r.docs == []
      ensures r != Unauthorized && email != "" ==>
        forall d :: d in r.docs <==> d in selectedClasses && Key(d, "student") == Str(email)
      ensures r != Unauthorized && email != "" ==>
        forall d :: multiset(r.docs)[d] == if Key(d, "student") == Str(email) then multiset(selectedClasses)[d] else 0
    {
      if Authenticate(header, verify).Denied? then Unauthorized
      else Found(StudentRecords(selectedClasses, email))
    }

    /** The `$set` document of `PATCH /approve-class/:id`. */
    static function ApprovedFields(): (f: Fields)
      ensures f.Keys == {"status", "checked"}
      ensures f["status"] == Str("approved") && f["checked"] == Bool(true)
    {
      map["status" := Str("approved"), "checked" := Bool(true)]
    }

    /**
     `PATCH /approve-class/:id` (index.js lines 207-216): sets status approved and checked true,
     with upsert; other fields of that class and all other classes stay as they were.
     */
    method ApproveClass(id: Id) returns (reply: Reply)
      requires Valid()
      modifies this`classes
      ensures Valid()
      ensures var w := UpdateOne(old(classes), ById(id), ApprovedFields(), true, id);
        classes == w.table && reply == Written(w.result)
      ensures FindOne(classes, ById(id)).Some?
      ensures var d := FindOne(classes, ById(id)).value;
        && d.fields["status"] == Str("approved") && d.fields["checked"] == Bool(true)
        && forall f :: f in d.fields && f != "status" && f != "checked" ==>
             id in Ids(old(classes)) && f in FindOne(old(classes), ById(id)).value.fields
             && d.fields[f] == FindOne(old(classes), ById(id)).value.fields[f]
      ensures id in Ids(old(classes)) ==>
        var d := FindOne(classes, ById(id)).value;
        var before := FindOne(old(classes), ById(id)).value;
        forall f :: f in before.fields && f != "status" && f != "checked" ==>
          f in d.fields && d.fields[f] == before.fields[f]
      ensures |classes| == if id in Ids(old(classes)) then |old(classes)| else |old(classes)| + 1
      ensures forall k :: 0 <= k < |old(classes)| && old(classes)[k].id != id ==> classes[k] == old(classes)[k]
      ensures users == old(users) && selectedClasses == old(selectedClasses)
      ensures enrolledClasses == old(enrolledClasses) && payments == old(payments)
    {
      UpdateByIdEffect(classes, id, ApprovedFields(), true, id);
      var w := UpdateOne(classes, ById(id), ApprovedFields(), true, id);
      classes := w.table;
      reply := Written(w.result);
      assert (old(classes) + [Doc(id, ApprovedFields())])[|old(classes)|] == Doc(id, ApprovedFields());
    }

    /** `GET /enrolled-classes/:email` (index.js lines 219-226), behind the gate. */
    function GetEnrolledClasses(header: Option<string>, verify: Verifier, email: string): (r: Reply)
      reads this
      ensures r == Unauthorized <==> Authenticate(header, verify).Denied?
      ensures r != Unauthorized ==> r.Found?
      ensures r != Unauthorized && email == "" ==> r.docs == []
      ensures r != Unauthorized && email != "" ==>
        forall d :: d in r.docs <==> d in enrolledClasses && Key(d, "student") == Str(email)
      ensures r != Unauthorized && email != "" ==>
        forall d :: multiset(r.docs)[d] == if Key(d, "student") == Str(email) then multiset(enrolledClasses)[d] else 0
    {
      if Authenticate(header, verify).Denied? then Unauthorized
      else Found(StudentRecords(enrolledClasses, email))
    }

    /** `DELETE /selected-class/:id` (index.js lines 229-234), behind the gate. */
    method DeleteSelectedClass(header: Option<string>, verify: Verifier, id: Id) returns (reply: Reply)
      requires Valid()
      modifies this`selectedClasses
      ensures Valid()
      ensures Authenticate(header, verify).Denied? ==>
        reply == Unauthorized && selectedClasses == old(selectedClasses)
      ensures Authenticate(header, verify).Granted? ==>
        var w := DeleteOne(old(selectedClasses), ById(id));
        selectedClasses == w.table && reply == Written(w.result)
      ensures Authenticate(header, verify).Granted? ==>
        Ids(selectedClasses) == Ids(old(selectedClasses)) - {id}
      ensures |old(selectedClasses)| - 1 <= |selectedClasses| <= |old(selectedClasses)|
      ensures users == old(users) && classes == old(classes)
      ensures enrolledClasses == old(enrolledClasses) && payments == old(payments)
    {
      reply := Unauthorized;
      if Authenticate(header, verify).Granted? {
        DeleteByIdRemovesId(selectedClasses, id);
        var w := DeleteOne(selectedClasses, ById(id));
        selectedClasses := w.table;
        reply := Written(w.result);
      }
    }

    /** `POST /enrolled-classes` (index.js lines 237-241), behind the gate. */
    method PostEnrolledClass(header: Option<string>, verify: Verifier, body: Fields, newId: Id) returns (reply: Reply)
      requires Valid()
      modifies this`enrolledClasses
      ensures Valid()
      ensures Authenticate(header, verify).Denied? ==>
        reply == Unauthorized && enrolledClasses == old(enrolledClasses)
      ensures Authenticate(header, verify).Granted? ==>
        var w := InsertOne(old(enrolledClasses), newId, body);
        enrolledClasses == w.table && reply == Written(w.result)
      ensures Authenticate(header, verify).Granted? && newId !in Ids(old(enrolledClasses)) ==>
        enrolledClasses == old(enrolledClasses) + [Doc(newId, body)]
      ensures users == old(users) && classes == old(classes)
      ensures selectedClasses == old(selectedClasses) && payments == old(payments)
    {
      reply := Unauthorized;
      if Authenticate(header, verify).Granted? {
        var w := InsertOne(enrolledClasses, newId, body);
        enrolledClasses := w.table;
        reply := Written(w.result);
      }
    }

    /** `POST /payments` (index.js lines 243-247), behind the gate. */
    method PostPayment(header: Option<string>, verify: Verifier, body: Fields, newId: Id) returns (reply: Reply)
      requires Valid()
      modifies this`payments
      ensures Valid()
      ensures Authenticate(header, verify).Denied? ==> reply == Unauthorized && payments == old(payments)
      ensures Authenticate(header, verify).Granted? ==>
        var w := InsertOne(old(payments), newId, body); payments == w.table && reply == Written(w.result)
      ensures Authenticate(header, verify).Granted? && newId !in Ids(old(payments)) ==>
        payments == old(payments) + [Doc(newId, body)]
      ensures users == old(users) && classes == old(classes)
      ensures selectedClasses == old(selectedClasses) && enrolledClasses == old(enrolledClasses)
    {
      reply := Unauthorized;
      if Authenticate(header, verify).Granted? {
        var w := InsertOne(payments, newId, body);
        payments := w.table;
        reply := Written(w.result);
      }
    }

    /** `GET /payments/:email` (index.js lines 250-254), behind the gate: newest first. */
    function GetPayments(header: Option<string>, verify: Verifier, email: string): (r: Reply)
      reads this
      ensures r == Unauthorized <==> Authenticate(header, verify).Denied?
      ensures r != Unauthorized ==> r.Found? && SortedDesc(r.docs, "date")
      ensures r != Unauthorized ==>
        multiset(r.docs) == multiset(Filter(payments, ByField("studentEmail", Str(email))))
    {
      if Authenticate(header, verify).Denied? then Unauthorized
      else Found(PaymentsOf(payments, email))
    }

    /** `PATCH /classes/:id` (index.js lines 256-265), behind the gate: `$set` without upsert. */
    method PatchClass(header: Option<string>, verify: Verifier, id: Id, body: Fields) returns (reply: Reply)
      requires Valid()
      modifies this`classes
      ensures Valid()
      ensures Authenticate(header, verify).Denied? ==> reply == Unauthorized && classes == old(classes)
      ensures Authenticate(header, verify).Granted? ==>
        var w := UpdateOne(old(classes), ById(id), body, false, id);
        classes == w.table && reply == Written(w.result)
      ensures id !in Ids(old(classes)) ==> classes == old(classes)
      ensures |classes| == |old(classes)|
      ensures Authenticate(header, verify).Granted? && id in Ids(old(classes)) ==>
        FindOne(classes, ById(id)) == Some(Doc(id, FindOne(old(classes), ById(id)).value.fields + body))
      ensures forall k :: 0 <= k < |old(classes)| && old(classes)[k].id != id ==> classes[k] == old(classes)[k]
      ensures users == old(users) && selectedClasses == old(selectedClasses)
      ensures enrolledClasses == old(enrolledClasses) && payments == old(payments)
    {
      reply := Unauthorized;
      if Authenticate(header, verify).Granted? {
        UpdateByIdEffect(classes, id, body, false, id);
        var w := UpdateOne(classes, ById(id), body, false, id);
        classes := w.table;
        reply := Written(w.result);
      }
    }
  }
}
