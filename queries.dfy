/**
 The read-only route handlers of index.js as functions of the collections they query,
 and the payment amount computed before the charge is requested.
 */
module Queries {
  import opened Wrappers
  import opened Values
  import opened Tables

  /** index.js lines 152-155: `GET /classes` filters on `status` only for these two values. */
  function StatusFilter(status: Option<string>): (q: Option<Selector>)
    ensures q.Some? <==> status == Some("approved") || status == Some("pending")
    ensures q.Some? ==> q.value == ByField("status", Str(status.value))
  {
    if status == Some("approved") || status == Some("pending")
    then Some(ByField("status", Str(status.value)))
    else None
  }

  /**
   `GET /classes?status=`: exactly the classes with the requested status when it is
   `approved` or `pending`, all classes otherwise; always sorted by status, descending.
   */
  function ListClasses(classes: seq<Doc>, status: Option<string>): (r: seq<Doc>)
    ensures SortedDesc(r, "status")
    ensures StatusFilter(status).Some? ==>
      forall d :: multiset(r)[d] ==
        if Key(d, "status") == Str(status.value) then multiset(classes)[d] else 0
    ensures StatusFilter(status).None? ==> multiset(r) == multiset(classes)
  {
    match StatusFilter(status)
    case None => SortDesc(classes, "status")
    case Some(q) => SortDesc(Filter(classes, q), "status")
  }

  /**
   In any listing sorted by status, descending, such as `ListClasses` returns, every
   pending class comes before every approved one.
   */
  lemma PendingBeforeApproved(r: seq<Doc>, i: nat, j: nat)
    requires SortedDesc(r, "status")
    requires i < |r| && j < |r|
    requires Key(r[i], "status") == Str("approved") && Key(r[j], "status") == Str("pending")
    ensures j < i
  {
    assert !StrLe("pending", "approved");
  }

  /** How many documents the popularity listings return. */
  const PopularCount: nat := 6

  /**
   `r` is a top-6 list of the documents of `t` that `q` matches: min(6, #matching) of
   them, each no more often than in the collection, ordered by `enrolledStudents`
   non-increasing, and no matching document left out has more `enrolledStudents` than
   one kept.
   */
  predicate IsTopByEnrollment(r: seq<Doc>, t: seq<Doc>, q: Selector)
  {
    && |r| == (if |Filter(t, q)| <= PopularCount then |Filter(t, q)| else PopularCount)
    && multiset(r) <= multiset(Filter(t, q))
    && SortedDesc(r, "enrolledStudents")
    && forall x, y :: x in r && y in t && Matches(y, q) && y !in r ==>
         ValueLe(Key(y, "enrolledStudents"), Key(x, "enrolledStudents"))
  }

  /** `find(query).sort({ enrolledStudents: -1 }).limit(6)`. */
  function Popular(t: seq<Doc>, q: Selector): (r: seq<Doc>)
    ensures IsTopByEnrollment(r, t, q)
    ensures forall d :: d in r ==> d in t && Matches(d, q)
  {
    var sorted := SortDesc(Filter(t, q), "enrolledStudents");
    PopularCountOfSorted(t, q, sorted);
    LimitKeepsOrder(sorted, "enrolledStudents", PopularCount);
    LimitDrawsFromMatches(t, q, Filter(t, q), sorted);
    LimitKeepsLargest(t, q, Filter(t, q), sorted);
    Limit(sorted, PopularCount)
  }

  lemma PopularCountOfSorted(t: seq<Doc>, q: Selector, sorted: seq<Doc>)
    requires sorted == SortDesc(Filter(t, q), "enrolledStudents")
    ensures |Limit(sorted, PopularCount)| ==
      (if |Filter(t, q)| <= PopularCount then |Filter(t, q)| else PopularCount)
  {
    assert |multiset(sorted)| == |multiset(Filter(t, q))|;
  }

  lemma LimitKeepsOrder(sorted: seq<Doc>, name: string, n: nat)
    requires n > 0 && SortedDesc(sorted, name)
    ensures SortedDesc(Limit(sorted, n), name)
  {
    var r := Limit(sorted, n);
    forall i, j | 0 <= i < j < |r| ensures ValueLe(Key(r[j], name), Key(r[i], name)) {
      assert r[i] == sorted[i] && r[j] == sorted[j];
    }
  }

  lemma LimitDrawsFromMatches(t: seq<Doc>, q: Selector, f: seq<Doc>, sorted: seq<Doc>)
    requires f == Filter(t, q) && multiset(sorted) == multiset(f)
    ensures forall d :: d in Limit(sorted, PopularCount) ==> d in t && Matches(d, q)
  {
    forall d | d in Limit(sorted, PopularCount) ensures d in t && Matches(d, q) {
      assert d in multiset(sorted);
      assert d in f;
    }
  }

  lemma LimitKeepsLargest(t: seq<Doc>, q: Selector, f: seq<Doc>, sorted: seq<Doc>)
    requires f == Filter(t, q) && multiset(sorted) == multiset(f) && SortedDesc(sorted, "enrolledStudents")
    ensures var r := Limit(sorted, PopularCount);
      forall x, y :: x in r && y in t && Matches(y, q) && y !in r ==>
        ValueLe(Key(y, "enrolledStudents"), Key(x, "enrolledStudents"))
  {
    var r := Limit(sorted, PopularCount);
    forall x, y | x in r && y in t && Matches(y, q) && y !in r
      ensures ValueLe(Key(y, "enrolledStudents"), Key(x, "enrolledStudents"))
    {
      assert multiset(f)[y] == multiset(t)[y] > 0;
      assert y in multiset(sorted);
      LimitOmitsNoLarger(sorted, "enrolledStudents", PopularCount, x, y);
    }
  }

  /** `GET /popular-classes`: the top 6 approved classes. */
  function PopularClasses(classes: seq<Doc>): (r: seq<Doc>)
    ensures IsTopByEnrollment(r, classes, ByField("status", Str("approved")))
    ensures forall d :: d in r ==> d in classes && Key(d, "status") == Str("approved")
  {
    Popular(classes, ByField("status", Str("approved")))
  }

  /** `GET /popular-instructors`: the top 6 users whose role is instructor. */
  function PopularInstructors(users: seq<Doc>): (r: seq<Doc>)
    ensures IsTopByEnrollment(r, users, ByField("role", Str("instructor")))
    ensures forall d :: d in r ==> d in users && Key(d, "role") == Str("instructor")
  {
    Popular(users, ByField("role", Str("instructor")))
  }

  /**
   `GET /selected-classes/:email` and `GET /enrolled-classes/:email`: an empty email
   gives nothing, otherwise exactly the records whose `student` is that email.
   */
  function StudentRecords(t: seq<Doc>, email: string): (r: seq<Doc>)
    ensures email == "" ==> r == []
    ensures email != "" ==>
      forall d :: multiset(r)[d] == if Key(d, "student") == Str(email) then multiset(t)[d] else 0
  {
    if email == "" then [] else Filter(t, ByField("student", Str(email)))
  }

  /** `GET /payments/:email`: exactly that student's payments, newest `date` first. */
  function PaymentsOf(payments: seq<Doc>, email: string): (r: seq<Doc>)
    ensures SortedDesc(r, "date")
    ensures forall d :: (multiset(r)[d] ==
      if Key(d, "studentEmail") == Str(email) then multiset(payments)[d] else 0)
  {
    SortDesc(Filter(payments, ByField("studentEmail", Str(email))), "date")
  }

  /** `GET /instructors`: every user whose role is instructor, in natural order. */
  function Instructors(users: seq<Doc>): (r: seq<Doc>)
    ensures forall d :: (multiset(r)[d] ==
      if Key(d, "role") == Str("instructor") then multiset(users)[d] else 0)
  {
    Filter(users, ByField("role", Str("instructor")))
  }

  /** `GET /instructor-classes/:email`: the classes whose `instructorEmail` is that email. */
  function InstructorClasses(classes: seq<Doc>, email: string): (r: seq<Doc>)
    ensures forall d :: (multiset(r)[d] ==
      if Key(d, "instructorEmail") == Str(email) then multiset(classes)[d] else 0)
  {
    Filter(classes, ByField("instructorEmail", Str(email)))
  }

  /** index.js line 71: the charge in cents for a price in whole dollars. */
  function ChargeAmount(price: int): (amount: int)
    ensures amount % 100 == 0 && amount / 100 == price
  {
    price * 100
  }

  /** What `paymentIntents.create` is asked for (index.js lines 72-76). */
  datatype IntentRequest = IntentRequest(amount: int, currency: string, methodTypes: seq<string>)

  function PaymentIntentFor(price: int): (r: IntentRequest)
    ensures r.currency == "usd" && r.methodTypes == ["card"]
    ensures r.amount / 100 == price && r.amount % 100 == 0
  {
    IntentRequest(ChargeAmount(price), "usd", ["card"])
  }
}
