/**
 Documents as the handlers see them: a document is an opaque `_id` plus a map from
 field names to values, and the order MongoDB sorts values by.
 */
module Values {

  /** An ObjectId. Nothing is assumed of it but equality. */
  type Id(==, !new)

  /** The field values a request body may carry (JSON numbers are taken as integers). */
  datatype Value = Null | Bool(b: bool) | Num(n: int) | Str(s: string)

  /** The fields of a document or a request body; `_id` is kept apart, in `Doc.id`. */
  type Fields = m: map<string, Value> | "_id" !in m witness map[]

  datatype Doc = Doc(id: Id, fields: Fields)

  /** The value a sort or a filter sees for `name`: a missing field reads as null. */
  function Key(d: Doc, name: string): (v: Value)
    ensures name in d.fields ==> v == d.fields[name]
    ensures name !in d.fields ==> v == Null
  {
    if name in d.fields then d.fields[name] else Null
  }

  /** MongoDB's order between values of different types: null, numbers, strings, booleans. */
  function Rank(v: Value): nat
  {
    match v
    case Null => 0
    case Num(_) => 1
    case Str(_) => 2
    case Bool(_) => 3
  }

  /** Strings compare by code point, lexicographically (binary collation). */
  predicate StrLe(a: string, b: string)
  {
    if a == [] then true
    else if b == [] then false
    else a[0] < b[0] || (a[0] == b[0] && StrLe(a[1..], b[1..]))
  }

  /** `a` sorts at or before `b` in an ascending MongoDB sort. */
  predicate ValueLe(a: Value, b: Value)
  {
    if Rank(a) != Rank(b) then Rank(a) < Rank(b)
    else match (a, b)
      case (Num(x), Num(y)) => x <= y
      case (Str(x), Str(y)) => StrLe(x, y)
      case (Bool(x), Bool(y)) => !x || y
      case _ => true
  }

  lemma {:induction false} StrLeTotal(a: string, b: string)
    ensures StrLe(a, b) || StrLe(b, a)
  {
    if a != [] && b != [] && a[0] == b[0] {
      StrLeTotal(a[1..], b[1..]);
    }
  }

  lemma {:induction false} StrLeTransitive(a: string, b: string, c: string)
    requires StrLe(a, b) && StrLe(b, c)
    ensures StrLe(a, c)
  {
    if a != [] && b != [] && c != [] && a[0] == b[0] && b[0] == c[0] {
      StrLeTransitive(a[1..], b[1..], c[1..]);
    }
  }

  lemma {:induction false} StrLeAntisymmetric(a: string, b: string)
    requires StrLe(a, b) && StrLe(b, a)
    ensures a == b
  {
    if a != [] && b != [] {
      StrLeAntisymmetric(a[1..], b[1..]);
      assert a == [a[0]] + a[1..] && b == [b[0]] + b[1..];
    }
  }

  /** Any two values are comparable, so every collection has a sorted order. */
  lemma ValueLeTotal(a: Value, b: Value)
    ensures ValueLe(a, b) || ValueLe(b, a)
  {
    if a.Str? && b.Str? {
      StrLeTotal(a.s, b.s);
    }
  }

  lemma ValueLeTransitive(a: Value, b: Value, c: Value)
    requires ValueLe(a, b) && ValueLe(b, c)
    ensures ValueLe(a, c)
  {
    if a.Str? && b.Str? && c.Str? {
      StrLeTransitive(a.s, b.s, c.s);
    }
  }

  /** Two values that sort in either order are the same value: the sort order is a total order. */
  lemma ValueLeAntisymmetric(a: Value, b: Value)
    requires ValueLe(a, b) && ValueLe(b, a)
    ensures a == b
  {
    if a.Str? && b.Str? {
      StrLeAntisymmetric(a.s, b.s);
    }
  }
}
