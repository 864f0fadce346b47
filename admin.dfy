/** The two computed columns of the recipe list in the admin site. */
module RecipeAdmin {
  import opened RecipesModels
  import opened Decimal

  /** What the tag column shows for a recipe without tags. */
  const NoTags: string := "Нет тегов"

  /** `', '.join(names)`. */
  function Join(names: seq<string>): (r: string)
    ensures |names| == 1 ==> r == names[0]
  {
    if |names| == 0 then ""
    else if |names| == 1 then names[0]
    else Join(names[..|names| - 1]) + ", " + names[|names| - 1]
  }

  /** The joined text is empty exactly for no names, or for a single empty name. */
  lemma {:induction false} JoinEmptyIff(names: seq<string>)
    ensures |Join(names)| == 0 <==> names == [] || names == [""]
  {
    if |names| >= 2 {
      assert |Join(names)| >= 2;
    }
  }

  /** The joined text holds every name, the separators counted twice each but once fewer than
      the names. */
  lemma {:induction false} JoinLength(names: seq<string>)
    requires |names| >= 1
    ensures |Join(names)| == SumLengths(names) + 2 * (|names| - 1)
  {
    if |names| >= 2 {
      JoinLength(names[..|names| - 1]);
      assert names[..|names| - 1] + [names[|names| - 1]] == names;
      SumLengthsSnoc(names[..|names| - 1], names[|names| - 1]);
    }
  }

  function SumLengths(names: seq<string>): nat {
    if |names| == 0 then 0 else SumLengths(names[..|names| - 1]) + |names[|names| - 1]|
  }

  lemma SumLengthsSnoc(names: seq<string>, x: string)
    ensures SumLengths(names + [x]) == SumLengths(names) + |x|
  {
    assert (names + [x])[..|names|] == names;
  }

  /** `tags_in_list`: the recipe's tag names joined by ", ", in the order they are given (the
      tag model orders them by name); the fallback text when that leaves nothing. */
  function TagsInList(names: seq<string>): (r: string)
    ensures |Join(names)| >= 1 ==> r == Join(names)
    ensures |Join(names)| == 0 ==> r == NoTags
  {
    var a := Join(names);
    if |a| < 1 then NoTags else a
  }

  /** When no tag name is blank (a rule only forms enforce), a recipe with tags shows their
      joined names and only a recipe without tags shows the fallback. */
  lemma TagsInListCases(tags: seq<Tag>)
    requires forall t :: t in tags ==> t.name != ""
    ensures tags == [] ==> TagsInList(TagNames(tags)) == NoTags
    ensures tags != [] ==> TagsInList(TagNames(tags)) == Join(TagNames(tags))
  {
    JoinEmptyIff(TagNames(tags));
    if |tags| == 1 {
      assert TagNames(tags)[0] == tags[0].name;
    }
  }

  function TagNames(tags: seq<Tag>): (r: seq<string>)
    ensures |r| == |tags| && forall i :: 0 <= i < |tags| ==> r[i] == tags[i].name
  {
    if |tags| == 0 then [] else TagNames(tags[..|tags| - 1]) + [tags[|tags| - 1].name]
  }

  /** One ingredient line of a recipe, as the admin lists it: its ingredient and amount. */
  datatype Line = Line(ingredient: Ingredient, amount: nat)

  /** One entry of the ingredient column: " {name}({amount}{unit}.)". */
  function LineEntry(l: Line): string {
    " " + l.ingredient.name + "(" + NatToDecimal(l.amount) + l.ingredient.measurementUnit + ".)"
  }

  /** `ingredient_in_list`: one entry per ingredient line, in the order the relation yields
      them. */
  function IngredientInList(lines: seq<Line>): (r: seq<string>)
    ensures |r| == |lines|
    ensures forall i :: 0 <= i < |lines| ==> r[i] == LineEntry(lines[i])
  {
    if |lines| == 0 then [] else IngredientInList(lines[..|lines| - 1]) + [LineEntry(lines[|lines| - 1])]
  }

  /** The list of a concatenation is the concatenation of the lists. */
  lemma IngredientInListAppend(a: seq<Line>, b: seq<Line>)
    ensures IngredientInList(a + b) == IngredientInList(a) + IngredientInList(b)
  {
  }

  /** An entry shows its amount faithfully: two lines of the same ingredient whose entries read
      the same have the same amount. */
  lemma EntryDeterminesAmount(l: Line, m: Line)
    requires l.ingredient == m.ingredient && LineEntry(l) == LineEntry(m)
    ensures l.amount == m.amount
  {
    var prefix := " " + l.ingredient.name + "(";
    var suffix := l.ingredient.measurementUnit + ".)";
    var a, b := NatToDecimal(l.amount), NatToDecimal(m.amount);
    assert LineEntry(l) == prefix + a + suffix;
    assert LineEntry(m) == prefix + b + suffix;
    assert |a| == |b|;
    forall i | 0 <= i < |a| ensures a[i] == b[i] {
      assert (prefix + a + suffix)[|prefix| + i] == a[i];
      assert (prefix + b + suffix)[|prefix| + i] == b[i];
    }
    assert a == b;
    DecimalInjective(l.amount, m.amount);
  }
}
