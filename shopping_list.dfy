/** The shopping-list download: every ingredient line of every recipe in the cart is summed
    per ingredient, and the sums are rendered one line per ingredient, in the order each
    ingredient was first met (the dictionary's insertion order; nothing is sorted). */
module ShoppingList {
  import opened RecipesModels
  import Decimal

  /** One ingredient line as the view reads it: the ingredient row and the amount. */
  datatype Entry = Entry(ingredient: Ingredient, amount: nat)

  const Header: string := "Ваш список покупок:\n\n"

  /** The lines of all the cart's recipes, recipe after recipe. */
  function Flatten(items: seq<seq<Entry>>): (lines: seq<Entry>)
    ensures items == [] ==> lines == []
  {
    if |items| == 0 then [] else Flatten(items[..|items| - 1]) + items[|items| - 1]
  }

  /** The ids of a list of ingredients. */
  function Ids(keys: seq<Ingredient>): set<IngredientId> {
    set k | k in keys :: k.id
  }

  /** Ids are the dictionary keys: ingredients compare by primary key. */
  predicate DistinctIds(keys: seq<Ingredient>) {
    forall a, b :: 0 <= a < b < |keys| ==> keys[a].id != keys[b].id
  }

  /** The dictionary's keys in insertion order: each ingredient the first time its id is met. */
  function FirstSeen(lines: seq<Entry>): seq<Ingredient> {
    if |lines| == 0 then []
    else
      var prev := FirstSeen(lines[..|lines| - 1]);
      var ing := lines[|lines| - 1].ingredient;
      if ing.id in Ids(prev) then prev else prev + [ing]
  }

  /** The summed amount of ingredient `id` over `lines`. */
  function Total(lines: seq<Entry>, id: IngredientId): nat {
    if |lines| == 0 then 0
    else
      var last := lines[|lines| - 1];
      Total(lines[..|lines| - 1], id) + (if last.ingredient.id == id then last.amount else 0)
  }

  /** One report line: "• {name} — {amount}({unit})" and a newline. */
  function ReportLine(ing: Ingredient, amount: nat): string
  {
    "• " + ing.name + " — " + Decimal.NatToDecimal(amount) + "(" + ing.measurementUnit + ")\n"
  }

  /** The report lines for `keys`, each with its total over `lines`. */
  function RenderLines(keys: seq<Ingredient>, lines: seq<Entry>): string {
    if |keys| == 0 then ""
    else RenderLines(keys[..|keys| - 1], lines) + ReportLine(keys[|keys| - 1], Total(lines, keys[|keys| - 1].id))
  }

  /** The text file the user downloads for a cart whose recipes hold `items`. */
  function Report(items: seq<seq<Entry>>): string {
    var lines := Flatten(items);
    Header + RenderLines(FirstSeen(lines), lines)
  }

  // ---- Unfolding the definitions one element at a time ----

  lemma FlattenSnoc(items: seq<seq<Entry>>, row: seq<Entry>)
    ensures Flatten(items + [row]) == Flatten(items) + row
  {
    assert (items + [row])[..|items|] == items;
  }

  lemma FirstSeenSnoc(lines: seq<Entry>, e: Entry)
    ensures FirstSeen(lines + [e]) ==
      if e.ingredient.id in Ids(FirstSeen(lines)) then FirstSeen(lines) else FirstSeen(lines) + [e.ingredient]
  {
    assert (lines + [e])[..|lines|] == lines;
  }

  lemma TotalSnoc(lines: seq<Entry>, e: Entry, id: IngredientId)
    ensures Total(lines + [e], id) == Total(lines, id) + (if e.ingredient.id == id then e.amount else 0)
  {
    assert (lines + [e])[..|lines|] == lines;
  }

  lemma RenderLinesSnoc(keys: seq<Ingredient>, k: Ingredient, lines: seq<Entry>)
    ensures RenderLines(keys + [k], lines) == RenderLines(keys, lines) + ReportLine(k, Total(lines, k.id))
  {
    assert (keys + [k])[..|keys|] == keys;
  }

  lemma AppendAssoc(a: string, b: string, c: string)
    ensures (a + b) + c == a + (b + c)
  {
  }

  /** One turn of the render loop: the k-th key has a sum, and its line extends the text. */
  lemma RenderStep(keys: seq<Ingredient>, sums: map<IngredientId, nat>, lines: seq<Entry>, k: nat)
    requires Tracks(keys, sums, lines) && k < |keys|
    ensures keys[k].id in sums
    ensures RenderLines(keys[..k + 1], lines) == RenderLines(keys[..k], lines) + ReportLine(keys[k], sums[keys[k].id])
  {
    assert keys[k] in keys;
    assert keys[..k + 1] == keys[..k] + [keys[k]];
    RenderLinesSnoc(keys[..k], keys[k], lines);
  }

  /** The dictionary state after reading `lines`: its keys in insertion order, and each
      key's running sum. */
  predicate Tracks(keys: seq<Ingredient>, sums: map<IngredientId, nat>, lines: seq<Entry>) {
    && keys == FirstSeen(lines)
    && sums.Keys == Ids(keys)
    && forall id :: id in sums ==> sums[id] == Total(lines, id)
  }

  /** `ingredients_summary[ingredient] += amount` keeps the dictionary in step with the lines. */
  lemma AddEntryTracks(keys: seq<Ingredient>, sums: map<IngredientId, nat>, lines: seq<Entry>, e: Entry)
    requires Tracks(keys, sums, lines)
    ensures e.ingredient.id in sums ==>
      Tracks(keys, sums[e.ingredient.id := sums[e.ingredient.id] + e.amount], lines + [e])
    ensures e.ingredient.id !in sums ==>
      Tracks(keys + [e.ingredient], sums[e.ingredient.id := e.amount], lines + [e])
  {
    FirstSeenSnoc(lines, e);
    forall id ensures Total(lines + [e], id) == Total(lines, id) + (if e.ingredient.id == id then e.amount else 0) {
      TotalSnoc(lines, e, id);
    }
    if e.ingredient.id !in sums {
      TotalAbsent(lines, e.ingredient.id, keys);
      IdsSnoc(keys, e.ingredient);
    }
  }

  /** The download, as the view computes it: the dictionary of sums, then a string grown
      one line per key. */
  method BuildShoppingList(items: seq<seq<Entry>>) returns (text: string)
    ensures text == Report(items)
  {
    var keys, sums := Summarise(items);
    text := RenderReport(keys, sums, Flatten(items));
  }

  /** The render loop: the header, then one line per dictionary key in insertion order. */
  method RenderReport(keys: seq<Ingredient>, sums: map<IngredientId, nat>, ghost lines: seq<Entry>)
    returns (text: string)
    requires Tracks(keys, sums, lines)
    ensures text == Header + RenderLines(FirstSeen(lines), lines)
  {
    text := Header;
    var k := 0;
    while k < |keys|
      invariant 0 <= k <= |keys|
      invariant text == Header + RenderLines(keys[..k], lines)
    {
      RenderStep(keys, sums, lines, k);
      var line := ReportLine(keys[k], sums[keys[k].id]);
      AppendAssoc(Header, RenderLines(keys[..k], lines), line);
      text := text + line;
      k := k + 1;
    }
    assert keys[..k] == keys;
  }

  /** The two nested loops filling the `defaultdict`: recipe by recipe, line by line. */
  method Summarise(items: seq<seq<Entry>>) returns (keys: seq<Ingredient>, sums: map<IngredientId, nat>)
    ensures Tracks(keys, sums, Flatten(items))
  {
    keys, sums := [], map[];
    var i := 0;
    while i < |items|
      invariant 0 <= i <= |items|
      invariant Tracks(keys, sums, Flatten(items[..i]))
    {
      ghost var before := Flatten(items[..i]);
      var j := 0;
      assert before + items[i][..j] == before;
      while j < |items[i]|
        invariant 0 <= j <= |items[i]|
        invariant Tracks(keys, sums, before + items[i][..j])
      {
        var e := items[i][j];
        assert before + items[i][..j + 1] == (before + items[i][..j]) + [e];
        AddEntryTracks(keys, sums, before + items[i][..j], e);
        if e.ingredient.id in sums {
          sums := sums[e.ingredient.id := sums[e.ingredient.id] + e.amount];
        } else {
          keys := keys + [e.ingredient];
          sums := sums[e.ingredient.id := e.amount];
        }
        j := j + 1;
      }
      assert items[i][..j] == items[i];
      assert items[..i + 1] == items[..i] + [items[i]];
      FlattenSnoc(items[..i], items[i]);
      i := i + 1;
    }
    assert items[..i] == items;
  }

  /** An id not among the first-seen keys has not occurred, so its total is 0. */
  lemma {:induction false} TotalAbsent(lines: seq<Entry>, id: IngredientId, keys: seq<Ingredient>)
    requires keys == FirstSeen(lines) && id !in Ids(keys)
    ensures Total(lines, id) == 0
  {
    if |lines| > 0 {
      var init := lines[..|lines| - 1];
      var e := lines[|lines| - 1];
      assert lines == init + [e];
      FirstSeenSnoc(init, e);
      var keys0 := FirstSeen(init);
      if e.ingredient.id !in Ids(keys0) {
        IdsSnoc(keys0, e.ingredient);
      }
      TotalAbsent(init, id, keys0);
    }
  }

  lemma IdsSnoc(keys: seq<Ingredient>, k: Ingredient)
    ensures Ids(keys + [k]) == Ids(keys) + {k.id}
  {
    forall x | x in Ids(keys + [k]) ensures x in Ids(keys) + {k.id} {
      var y :| y in keys + [k] && y.id == x;
      if y != k {
        assert y in keys;
      }
    }
    forall x | x in Ids(keys) ensures x in Ids(keys + [k]) {
      var y :| y in keys && y.id == x;
      assert y in keys + [k];
    }
    assert k in keys + [k];
  }

  lemma DistinctSnoc(init: seq<Ingredient>, last: Ingredient)
    requires DistinctIds(init + [last])
    ensures DistinctIds(init) && last.id !in Ids(init)
  {
    var keys := init + [last];
    forall a, b | 0 <= a < b < |init| ensures init[a].id != init[b].id {
      assert keys[a] == init[a] && keys[b] == init[b];
    }
    forall k | k in init ensures k.id != last.id {
      var a :| 0 <= a < |init| && init[a] == k;
      assert keys[a] == k && keys[|init|] == last;
    }
  }

  // ---- What the report promises ----

  /** Each ingredient id gets at most one report line. */
  lemma {:induction false} FirstSeenDistinct(lines: seq<Entry>)
    ensures DistinctIds(FirstSeen(lines))
  {
    if |lines| > 0 {
      var init := lines[..|lines| - 1];
      var prev := FirstSeen(init);
      FirstSeenDistinct(init);
      var ing := lines[|lines| - 1].ingredient;
      if ing.id !in Ids(prev) {
        var keys := prev + [ing];
        forall a, b | 0 <= a < b < |keys| ensures keys[a].id != keys[b].id {
          if b == |prev| {
            assert keys[a] in prev;
          }
        }
      }
    }
  }

  /** Every ingredient that occurs in the cart gets a report line, and nothing else does. */
  lemma {:induction false} FirstSeenComplete(lines: seq<Entry>)
    ensures forall id :: id in Ids(FirstSeen(lines)) <==> exists p :: 0 <= p < |lines| && lines[p].ingredient.id == id
  {
    if |lines| > 0 {
      var init := lines[..|lines| - 1];
      FirstSeenComplete(init);
      var e := lines[|lines| - 1];
      assert lines == init + [e];
      FirstSeenSnoc(init, e);
      forall id
        ensures id in Ids(FirstSeen(lines)) <==> exists p :: 0 <= p < |lines| && lines[p].ingredient.id == id
      {
        if id in Ids(FirstSeen(lines)) {
          if id == e.ingredient.id {
            assert lines[|lines| - 1].ingredient.id == id;
          } else {
            var k :| k in FirstSeen(lines) && k.id == id;
            assert k in FirstSeen(init);
            assert id in Ids(FirstSeen(init));
            var p :| 0 <= p < |init| && init[p].ingredient.id == id;
            assert lines[p] == init[p];
          }
        }
        if exists p :: 0 <= p < |lines| && lines[p].ingredient.id == id {
          var p :| 0 <= p < |lines| && lines[p].ingredient.id == id;
          if p == |lines| - 1 {
            if e.ingredient.id !in Ids(FirstSeen(init)) {
              assert e.ingredient in FirstSeen(lines);
            }
          } else {
            assert init[p] == lines[p];
            assert id in Ids(FirstSeen(init));
            var k :| k in FirstSeen(init) && k.id == id;
            assert k in FirstSeen(lines);
          }
        }
      }
    }
  }

  /** `p` is the first line carrying its ingredient's id. */
  predicate FirstOccurrence(lines: seq<Entry>, p: int) {
    0 <= p < |lines| && forall q :: 0 <= q < p ==> lines[q].ingredient.id != lines[p].ingredient.id
  }

  /** The positions of the first occurrences, in increasing order. */
  function FirstPositions(lines: seq<Entry>): seq<nat> {
    if |lines| == 0 then []
    else
      var init := lines[..|lines| - 1];
      if lines[|lines| - 1].ingredient.id in Ids(FirstSeen(init)) then FirstPositions(init)
      else FirstPositions(init) + [|lines| - 1]
  }

  /** The report lists the ingredients in the order of their first occurrence in the cart:
      the k-th key is the ingredient of the k-th first occurrence, and those positions
      increase. */
  lemma {:induction false} FirstSeenOrder(lines: seq<Entry>)
    ensures var keys, pos := FirstSeen(lines), FirstPositions(lines);
      && |pos| == |keys|
      && (forall k :: 0 <= k < |pos| ==> FirstOccurrence(lines, pos[k]) && keys[k] == lines[pos[k]].ingredient)
      && (forall a, b :: 0 <= a < b < |pos| ==> pos[a] < pos[b])
  {
    if |lines| > 0 {
      var init := lines[..|lines| - 1];
      FirstSeenOrder(init);
      var keys0, pos0 := FirstSeen(init), FirstPositions(init);
      var e := lines[|lines| - 1];
      var keys, pos := FirstSeen(lines), FirstPositions(lines);
      forall k | 0 <= k < |pos0| ensures FirstOccurrence(lines, pos0[k]) && keys0[k] == lines[pos0[k]].ingredient {
        assert FirstOccurrence(init, pos0[k]);
        assert lines[pos0[k]] == init[pos0[k]];
        forall q | 0 <= q < pos0[k] ensures lines[q].ingredient.id != lines[pos0[k]].ingredient.id {
          assert lines[q] == init[q];
        }
      }
      if e.ingredient.id !in Ids(keys0) {
        FirstSeenComplete(init);
        forall q | 0 <= q < |lines| - 1 ensures lines[q].ingredient.id != e.ingredient.id {
          assert init[q] == lines[q];
        }
        assert FirstOccurrence(lines, |lines| - 1);
      }
    }
  }

  /** The sum of every amount in `lines`. */
  function SumAmounts(lines: seq<Entry>): nat {
    if |lines| == 0 then 0 else SumAmounts(lines[..|lines| - 1]) + lines[|lines| - 1].amount
  }

  /** The sum of the printed totals. */
  function SumTotals(keys: seq<Ingredient>, lines: seq<Entry>): nat {
    if |keys| == 0 then 0 else SumTotals(keys[..|keys| - 1], lines) + Total(lines, keys[|keys| - 1].id)
  }

  /** A new line adds its amount to exactly the key it names, when that key is listed once. */
  lemma {:induction false} SumTotalsSnoc(keys: seq<Ingredient>, lines: seq<Entry>, e: Entry)
    requires DistinctIds(keys)
    ensures SumTotals(keys, lines + [e]) ==
      SumTotals(keys, lines) + (if e.ingredient.id in Ids(keys) then e.amount else 0)
  {
    if |keys| > 0 {
      var init := keys[..|keys| - 1];
      var last := keys[|keys| - 1];
      assert keys == init + [last];
      DistinctSnoc(init, last);
      IdsSnoc(init, last);
      SumTotalsSnoc(init, lines, e);
      TotalSnoc(lines, e, last.id);
    }
  }

  /** Nothing is lost or counted twice: the printed totals add up to the sum of all the
      amounts in the cart. */
  lemma {:induction false} TotalsPreserveSum(lines: seq<Entry>)
    ensures SumTotals(FirstSeen(lines), lines) == SumAmounts(lines)
  {
    if |lines| > 0 {
      var init := lines[..|lines| - 1];
      var e := lines[|lines| - 1];
      assert lines == init + [e];
      TotalsPreserveSum(init);
      var keys0 := FirstSeen(init);
      FirstSeenDistinct(init);
      SumTotalsSnoc(keys0, init, e);
      FirstSeenSnoc(init, e);
      if e.ingredient.id !in Ids(keys0) {
        TotalAbsent(init, e.ingredient.id, keys0);
        TotalSnoc(init, e, e.ingredient.id);
        assert (keys0 + [e.ingredient])[..|keys0|] == keys0;
      }
    }
  }

  /** Totals over consecutive parts of the lines add up. */
  lemma {:induction false} TotalAppend(a: seq<Entry>, b: seq<Entry>, id: IngredientId)
    ensures Total(a + b, id) == Total(a, id) + Total(b, id)
  {
    if |b| == 0 {
      assert a + b == a;
    } else {
      var init := b[..|b| - 1];
      assert a + b == (a + init) + [b[|b| - 1]];
      TotalAppend(a, init, id);
      TotalSnoc(a + init, b[|b| - 1], id);
    }
  }

  /** The sum of ingredient `id` over every recipe separately. */
  function PerRecipe(items: seq<seq<Entry>>, id: IngredientId): nat {
    if |items| == 0 then 0 else PerRecipe(items[..|items| - 1], id) + Total(items[|items| - 1], id)
  }

  /** The printed amount of an ingredient is the sum, over every recipe in the cart, of that
      ingredient's amounts in the recipe. */
  lemma {:induction false} TotalOverCart(items: seq<seq<Entry>>, id: IngredientId)
    ensures Total(Flatten(items), id) == PerRecipe(items, id)
  {
    if |items| > 0 {
      TotalOverCart(items[..|items| - 1], id);
      TotalAppend(Flatten(items[..|items| - 1]), items[|items| - 1], id);
    }
  }

  /** An empty cart, or one whose recipes have no lines, downloads the header alone. */
  lemma EmptyCartReport(items: seq<seq<Entry>>)
    requires Flatten(items) == []
    ensures Report(items) == Header
  {
  }
}
