/** The query filters of the recipe and ingredient lists. */
module Filters {
  import opened Wrappers
  import opened UsersModels
  import opened RecipesModels

  /** `r` is `s` with some elements left out, the rest in their order. */
  predicate SubsequenceOf<T(==)>(r: seq<T>, s: seq<T>)
    decreases |s|
  {
    if |r| == 0 then true
    else if |s| == 0 then false
    else if r[|r| - 1] == s[|s| - 1] then SubsequenceOf(r[..|r| - 1], s[..|s| - 1])
    else SubsequenceOf(r, s[..|s| - 1])
  }

  /** The recipes of `qs` that `user` has marked in `marks`, in their order. */
  function MarkedBy(qs: seq<RecipeId>, marks: set<Mark>, user: UserId): (r: seq<RecipeId>)
    ensures forall x :: x in r <==> x in qs && Mark(x, user) in marks
    ensures SubsequenceOf(r, qs)
  {
    if |qs| == 0 then []
    else
      var init := MarkedBy(qs[..|qs| - 1], marks, user);
      var x := qs[|qs| - 1];
      assert qs == qs[..|qs| - 1] + [x];
      if Mark(x, user) in marks then
        var r := init + [x];
        assert r[..|r| - 1] == init;
        r
      else
        SubsequenceExtend(init, qs[..|qs| - 1], x);
        init
  }

  /** Dropping the last element of a subsequence leaves a subsequence. */
  lemma {:induction false} SubsequenceDropLast<T>(r: seq<T>, s: seq<T>)
    requires |r| > 0 && SubsequenceOf(r, s)
    ensures SubsequenceOf(r[..|r| - 1], s)
    decreases |s|, 1
  {
    var s' := s[..|s| - 1];
    if r[|r| - 1] == s[|s| - 1] {
      SubsequenceExtend(r[..|r| - 1], s', s[|s| - 1]);
    } else {
      SubsequenceDropLast(r, s');
      SubsequenceExtend(r[..|r| - 1], s', s[|s| - 1]);
    }
    assert s' + [s[|s| - 1]] == s;
  }

  /** A subsequence of `t` is a subsequence of `t` extended by one element. */
  lemma {:induction false} SubsequenceExtend<T>(r: seq<T>, t: seq<T>, x: T)
    requires SubsequenceOf(r, t)
    ensures SubsequenceOf(r, t + [x])
    decreases |t|, 2
  {
    var s := t + [x];
    assert s[..|s| - 1] == t;
    if |r| > 0 && r[|r| - 1] == x {
      SubsequenceDropLast(r, t);
    }
  }

  /** `filter_is_favorited` and `filter_is_in_shopping_cart`, over the favorite or cart table:
      with a true value and a signed-in requester, the recipes that requester has marked;
      otherwise the queryset as it came. */
  function FilterByMark(qs: seq<RecipeId>, marks: set<Mark>, requester: Option<UserId>, value: bool): (r: seq<RecipeId>)
    ensures !value || requester.None? ==> r == qs
    ensures value && requester.Some? ==> forall x :: x in r <==> x in qs && Mark(x, requester.value) in marks
    ensures SubsequenceOf(r, qs)
  {
    if value && requester.Some? then MarkedBy(qs, marks, requester.value)
    else
      SubsequenceReflexive(qs);
      qs
  }

  lemma {:induction false} SubsequenceReflexive<T>(s: seq<T>)
    ensures SubsequenceOf(s, s)
  {
    if |s| > 0 {
      SubsequenceReflexive(s[..|s| - 1]);
    }
  }

  // ---- `name` with `icontains` ----

  /** Lower case for the Latin and Cyrillic alphabets, including Ё. */
  function LowerChar(c: char): (d: char)
    ensures 'A' <= c <= 'Z' ==> d as int == c as int + 32
    ensures 'А' <= c <= 'Я' ==> d as int == c as int + 32
    ensures c == 'Ё' ==> d == 'ё'
    ensures !('A' <= c <= 'Z' || 'А' <= c <= 'Я' || c == 'Ё') ==> d == c
  {
    if 'A' <= c <= 'Z' || 'А' <= c <= 'Я' then (c as int + 32) as char
    else if c == 'Ё' then 'ё'
    else c
  }

  function Lower(s: string): (t: string)
    ensures |t| == |s| && forall i :: 0 <= i < |s| ==> t[i] == LowerChar(s[i])
  {
    if |s| == 0 then "" else Lower(s[..|s| - 1]) + [LowerChar(s[|s| - 1])]
  }

  /** `q` occurs in `s` at offset `k`. */
  predicate OccursAt(s: string, q: string, k: int) {
    0 <= k && k + |q| <= |s| && s[k..k + |q|] == q
  }

  /** `q` occurs in `s` at some offset. */
  predicate Contains(s: string, q: string) {
    exists k | 0 <= k <= |s| - |q| :: OccursAt(s, q, k)
  }

  /** `name__icontains=q`. */
  predicate ContainsIgnoringCase(name: string, q: string) {
    Contains(Lower(name), Lower(q))
  }

  /** The `name` filter of the ingredient list; an absent or empty query filters nothing. */
  function FilterByName(ingredients: seq<Ingredient>, q: Option<string>): (r: seq<Ingredient>)
    ensures q.None? || q == Some("") ==> r == ingredients
    ensures q.Some? && q.value != "" ==>
      forall x :: x in r <==> x in ingredients && ContainsIgnoringCase(x.name, q.value)
    ensures SubsequenceOf(r, ingredients)
  {
    if q.None? || q.value == "" then
      SubsequenceReflexive(ingredients);
      ingredients
    else KeepMatching(ingredients, q.value)
  }

  function KeepMatching(ingredients: seq<Ingredient>, q: string): (r: seq<Ingredient>)
    ensures forall x :: x in r <==> x in ingredients && ContainsIgnoringCase(x.name, q)
    ensures SubsequenceOf(r, ingredients)
  {
    if |ingredients| == 0 then []
    else
      var init := KeepMatching(ingredients[..|ingredients| - 1], q);
      var x := ingredients[|ingredients| - 1];
      assert ingredients == ingredients[..|ingredients| - 1] + [x];
      if ContainsIgnoringCase(x.name, q) then
        var r := init + [x];
        assert r[..|r| - 1] == init;
        r
      else
        SubsequenceExtend(init, ingredients[..|ingredients| - 1], x);
        init
  }

  /** An exact occurrence is found whatever the case of query and name. */
  lemma LowerKeepsOccurrence(s: string, q: string)
    requires Contains(s, q)
    ensures Contains(Lower(s), Lower(q))
  {
    var k :| 0 <= k <= |s| - |q| && OccursAt(s, q, k);
    var ls, lq := Lower(s), Lower(q);
    forall i | 0 <= i < |q| ensures ls[k + i] == lq[i] {
      assert s[k..k + |q|][i] == q[i];
    }
    assert ls[k..k + |q|] == lq;
    assert OccursAt(ls, lq, k);
  }

  /** Queries with the same lower case keep the same ingredients. */
  lemma {:induction false} KeepMatchingByLower(ingredients: seq<Ingredient>, q1: string, q2: string)
    requires Lower(q1) == Lower(q2)
    ensures KeepMatching(ingredients, q1) == KeepMatching(ingredients, q2)
  {
    if |ingredients| > 0 {
      KeepMatchingByLower(ingredients[..|ingredients| - 1], q1, q2);
    }
  }

  lemma LowerIdempotent(s: string)
    ensures Lower(Lower(s)) == Lower(s)
  {
  }

  /** The query's case does not matter, and an ingredient whose name holds the query as typed
      is always found. */
  lemma NameFilterIgnoresCase(ingredients: seq<Ingredient>, q: string, x: Ingredient)
    requires q != ""
    ensures FilterByName(ingredients, Some(q)) == FilterByName(ingredients, Some(Lower(q)))
    ensures x in ingredients && Contains(x.name, q) ==> x in FilterByName(ingredients, Some(q))
  {
    LowerIdempotent(q);
    KeepMatchingByLower(ingredients, q, Lower(q));
    if x in ingredients && Contains(x.name, q) {
      LowerKeepsOccurrence(x.name, q);
    }
  }
}
