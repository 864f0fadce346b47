/** The two-state relation rows shared by favorites, the shopping cart and subscriptions:
    a request either adds a row or removes it, and fails when the row already is, or is not,
    there. */
module Toggles {

  /** POST adds the row, DELETE removes it. */
  datatype Op = Add | Remove

  datatype Outcome = Added | Removed | AlreadyPresent | Absent

  predicate Succeeded(o: Outcome) {
    o == Added || o == Removed
  }

  /** One request against a relation table holding the rows `rows`. */
  function Toggle<P>(rows: set<P>, p: P, op: Op): (r: (Outcome, set<P>))
    ensures Succeeded(r.0) <==> r.1 != rows
    ensures r.1 - {p} == rows - {p}
    ensures op == Add ==> p in r.1
    ensures op == Remove ==> p !in r.1
    ensures r.0 == AlreadyPresent <==> op == Add && p in rows
    ensures r.0 == Absent <==> op == Remove && p !in rows
    ensures r.0 == Added <==> op == Add && p !in rows
    ensures r.0 == Removed <==> op == Remove && p in rows
  {
    match op
    case Add => if p in rows then (AlreadyPresent, rows) else (Added, rows + {p})
    case Remove => if p in rows then (Removed, rows - {p}) else (Absent, rows)
  }

  /** Adding then removing a new row restores the table. */
  lemma AddThenRemove<P>(rows: set<P>, p: P)
    requires p !in rows
    ensures Toggle(rows, p, Add).0 == Added
    ensures Toggle(Toggle(rows, p, Add).1, p, Remove) == (Removed, rows)
  {
  }

  /** Removing then re-adding a present row restores the table. */
  lemma RemoveThenAdd<P>(rows: set<P>, p: P)
    requires p in rows
    ensures Toggle(rows, p, Remove).0 == Removed
    ensures Toggle(Toggle(rows, p, Remove).1, p, Add) == (Added, rows)
  {
    assert (rows - {p}) + {p} == rows;
  }

  /** Adding is not idempotent: the second of two adds fails and changes nothing. */
  lemma AddTwice<P>(rows: set<P>, p: P)
    ensures var once := Toggle(rows, p, Add).1; Toggle(once, p, Add) == (AlreadyPresent, once)
  {
    var once := Toggle(rows, p, Add).1;
    assert p in once;
  }

  /** The second of two removes fails and changes nothing. */
  lemma RemoveTwice<P>(rows: set<P>, p: P)
    ensures var once := Toggle(rows, p, Remove).1; Toggle(once, p, Remove) == (Absent, once)
  {
    var once := Toggle(rows, p, Remove).1;
    assert p !in once;
  }
}
