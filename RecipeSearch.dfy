/**
 * The recipe searches of `recipe_search.py` over the recipe list the
 * database gives back (`get_all_recipes`, newest first).  The text query it
 * delegates to `recipe_database.py` has no `ORDER BY`, so it is modelled as
 * the filter its SQL states over the table in stored order; the `LIKE`
 * wildcards `%` and `_` inside the search text are not modelled.
 */
module RecipeSearch {
  import opened Wrappers
  import opened Text
  import opened Seqs

  datatype Recipe = Recipe(
    id: int, name: string, category: string, prepTime: string, rating: int,
    imagePath: Option<string>, ingredients: string, instructions: string, createdDate: string)

  /** `category and category != "All"`: the query adds a category condition. */
  predicate FiltersCategory(category: Option<string>) {
    category.Some? && category.value != [] && category.value != "All"
  }

  /**
   * The `WHERE` clause of `RecipeDatabase.search_recipes`: the lower-cased
   * name or ingredients contain `text`, and the category is the one asked for
   * when one is.
   */
  function Wanted(text: string, category: Option<string>): Recipe -> bool {
    (r: Recipe) =>
      (Contains(Lower(r.name), text) || Contains(Lower(r.ingredients), text))
      && (FiltersCategory(category) ==> r.category == category.value)
  }

  lemma ContainsEmpty(s: string)
    ensures Contains(s, [])
  {
    assert OccursAt(s, [], 0);
  }

  /**
   * `search_recipes` over the table `rows` in stored order, where `newest`
   * is what `get_all_recipes` gives back: with no text and no category
   * condition that list, otherwise the database query on the lower-cased
   * text, whose rows come in stored order.
   */
  function SearchRecipes(newest: seq<Recipe>, rows: seq<Recipe>, text: string, category: Option<string>): (r: seq<Recipe>)
    ensures text == [] && !FiltersCategory(category) ==> r == newest
    ensures text != [] || FiltersCategory(category) ==> r == Filter(Wanted(Lower(text), category), rows)
  {
    if text == [] && !FiltersCategory(category) then newest
    else Filter(Wanted(Lower(text), category), rows)
  }

  /**
   * Whichever branch answers, when `newest` holds the recipes of the table,
   * the result holds exactly the recipes of the table the query describes.
   */
  lemma SearchMembers(newest: seq<Recipe>, rows: seq<Recipe>, text: string, category: Option<string>)
    requires forall x :: x in newest <==> x in rows
    ensures forall x :: x in SearchRecipes(newest, rows, text, category) <==> x in rows && Wanted(Lower(text), category)(x)
  {
    if text == [] && !FiltersCategory(category) {
      forall x: Recipe ensures Contains(Lower(x.name), Lower(text)) {
        ContainsEmpty(Lower(x.name));
      }
    } else {
      FilterMembers(Wanted(Lower(text), category), rows);
    }
  }

  /** A query that has to filter keeps the stored order of the rows it selects. */
  lemma SearchStoredOrder(newest: seq<Recipe>, rows: seq<Recipe>, text: string, category: Option<string>, i: nat, j: nat)
    requires text != [] || FiltersCategory(category)
    requires i < j < |rows| && Wanted(Lower(text), category)(rows[i]) && Wanted(Lower(text), category)(rows[j])
    ensures var r := SearchRecipes(newest, rows, text, category);
      exists a, b :: 0 <= a < b < |r| && r[a] == rows[i] && r[b] == rows[j]
  {
    var f := Wanted(Lower(text), category);
    var r := SearchRecipes(newest, rows, text, category);
    assert r == Filter(f, rows);
    FilterOrder(f, rows, i, j);
    var a, b :| 0 <= a < b < |Filter(f, rows)| && Filter(f, rows)[a] == rows[i] && Filter(f, rows)[b] == rows[j];
    assert r[a] == rows[i] && r[b] == rows[j];
  }

  // ---------------------------------------------------------------------
  // Search by ingredients

  /** `ing.lower() in lowered` for every requested ingredient. */
  predicate AllIn(ings: seq<string>, lowered: string) {
    forall i :: 0 <= i < |ings| ==> Contains(lowered, Lower(ings[i]))
  }

  function HasAll(ings: seq<string>): Recipe -> bool {
    (r: Recipe) => AllIn(ings, Lower(r.ingredients))
  }

  /** `search_by_ingredients`: the recipes holding every requested ingredient, in their order. */
  method SearchByIngredients(recipes: seq<Recipe>, ings: seq<string>) returns (matching: seq<Recipe>)
    ensures matching == Filter(HasAll(ings), recipes)
  {
    matching := [];
    var i := 0;
    while i < |recipes|
      invariant 0 <= i <= |recipes|
      invariant matching == Filter(HasAll(ings), recipes[..i])
    {
      FilterSnoc(HasAll(ings), recipes[..i], recipes[i]);
      assert recipes[..i + 1] == recipes[..i] + [recipes[i]];
      var lowered := Lower(recipes[i].ingredients);
      if AllIn(ings, lowered) {
        matching := matching + [recipes[i]];
      }
      i := i + 1;
    }
    assert recipes[..i] == recipes;
  }

  /** What the ingredient search keeps: exactly the recipes containing every ingredient, case aside. */
  lemma SearchByIngredientsMembers(recipes: seq<Recipe>, ings: seq<string>)
    ensures forall x :: x in Filter(HasAll(ings), recipes) <==>
      x in recipes && forall i :: 0 <= i < |ings| ==> Contains(Lower(x.ingredients), Lower(ings[i]))
  {
    FilterMembers(HasAll(ings), recipes);
  }

  /** No requested ingredient: every recipe. */
  lemma NoIngredientsAll(recipes: seq<Recipe>)
    ensures Filter(HasAll([]), recipes) == recipes
  {
    FilterAll(HasAll([]), recipes);
  }

  // ---------------------------------------------------------------------
  // Suggestions

  function In(lowered: string): string -> bool {
    (ing: string) => Contains(lowered, Lower(ing))
  }

  /** `matching_count`: how many requested ingredients occur in the recipe, repeats counted. */
  function MatchCount(ings: seq<string>, r: Recipe): nat {
    Count(In(Lower(r.ingredients)), ings)
  }

  /** A suggestion with its match count; its `match_score` is the count over `len(ingredients)`. */
  datatype Suggestion = Suggestion(recipe: Recipe, matches: nat)

  /** `lambda recipe: matching_count` for the requested ingredients. */
  function MatchScore(ings: seq<string>): Recipe -> nat {
    (r: Recipe) => MatchCount(ings, r)
  }

  /** The suggestions the loop collects, in recipe order: recipes scoring above zero, with their score. */
  function Scored(recipes: seq<Recipe>, score: Recipe -> nat): seq<Suggestion> {
    if recipes == [] then []
    else
      var last := recipes[|recipes| - 1];
      Scored(recipes[..|recipes| - 1], score) + (if score(last) > 0 then [Suggestion(last, score(last))] else [])
  }

  lemma ScoredStep(recipes: seq<Recipe>, i: nat, ings: seq<string>)
    requires i < |recipes|
    ensures var m := MatchCount(ings, recipes[i]);
      Scored(recipes[..i + 1], MatchScore(ings)) == Scored(recipes[..i], MatchScore(ings))
      + (if m > 0 then [Suggestion(recipes[i], m)] else [])
  {
    assert recipes[..i + 1][..i] == recipes[..i];
  }

  /** A suggestion is collected exactly for a recipe scoring above zero, with its score. */
  lemma {:induction false} ScoredMembers(recipes: seq<Recipe>, score: Recipe -> nat)
    ensures forall y :: y in Scored(recipes, score) <==>
      y.recipe in recipes && y.matches == score(y.recipe) && y.matches > 0
  {
    if recipes != [] {
      var front, last := recipes[..|recipes| - 1], recipes[|recipes| - 1];
      ScoredMembers(front, score);
      assert recipes == front + [last];
      assert forall x :: x in recipes <==> x in front || x == last;
    }
  }

  /** Non-increasing match count, as `sort(..., reverse=True)` leaves the list. */
  predicate Descending(s: seq<Suggestion>) {
    forall i, j :: 0 <= i < j < |s| ==> s[i].matches >= s[j].matches
  }

  /** Puts `x` after every element scoring at least as much, which keeps equal scores in arrival order. */
  function Insert(x: Suggestion, s: seq<Suggestion>): (r: seq<Suggestion>)
    ensures multiset(r) == multiset(s) + multiset{x}
  {
    if s == [] then [x]
    else if s[0].matches >= x.matches then
      assert s == [s[0]] + s[1..];
      [s[0]] + Insert(x, s[1..])
    else [x] + s
  }

  /** The stable sort by descending score. */
  function SortDesc(xs: seq<Suggestion>): (r: seq<Suggestion>)
    ensures multiset(r) == multiset(xs)
  {
    if xs == [] then []
    else
      assert xs == xs[..|xs| - 1] + [xs[|xs| - 1]];
      Insert(xs[|xs| - 1], SortDesc(xs[..|xs| - 1]))
  }

  lemma {:induction false} InsertDescending(x: Suggestion, s: seq<Suggestion>)
    requires Descending(s)
    ensures Descending(Insert(x, s))
  {
    if s == [] {
    } else if s[0].matches >= x.matches {
      DescendingTail(s);
      InsertDescending(x, s[1..]);
      InsertBounded(x, s[1..], s[0].matches);
      assert Insert(x, s) == [s[0]] + Insert(x, s[1..]);
      ConsDescending(s[0], Insert(x, s[1..]));
    } else {
      DescendingTail(s);
      assert Insert(x, s) == [x] + s;
      ConsDescending(x, s);
    }
  }

  /** Below the head of a descending list all scores are at most the head's. */
  lemma DescendingTail(s: seq<Suggestion>)
    requires Descending(s) && s != []
    ensures Descending(s[1..])
    ensures forall k :: 0 <= k < |s| ==> s[k].matches <= s[0].matches
  {
    forall k | 0 <= k < |s| ensures s[k].matches <= s[0].matches {
      if k > 0 {
        assert s[0].matches >= s[k].matches;
      }
    }
  }

  /** A head scoring at least every element keeps a descending list descending. */
  lemma ConsDescending(h: Suggestion, r: seq<Suggestion>)
    requires Descending(r)
    requires forall k :: 0 <= k < |r| ==> r[k].matches <= h.matches
    ensures Descending([h] + r)
  {
    var t := [h] + r;
    forall i, j | 0 <= i < j < |t| ensures t[i].matches >= t[j].matches {
      assert t[j] == r[j - 1];
      if i > 0 {
        assert t[i] == r[i - 1];
      }
    }
  }

  /** Inserting below a bound keeps every score below it. */
  lemma {:induction false} InsertBounded(x: Suggestion, s: seq<Suggestion>, m: nat)
    requires x.matches <= m && forall k :: 0 <= k < |s| ==> s[k].matches <= m
    ensures forall k :: 0 <= k < |Insert(x, s)| ==> Insert(x, s)[k].matches <= m
  {
    if s != [] && s[0].matches >= x.matches {
      InsertBounded(x, s[1..], m);
      var r := Insert(x, s[1..]);
      assert Insert(x, s) == [s[0]] + r;
      forall k | 0 <= k < |[s[0]] + r| ensures ([s[0]] + r)[k].matches <= m {
        if k > 0 {
          assert ([s[0]] + r)[k] == r[k - 1];
        }
      }
    } else if s != [] {
      assert Insert(x, s) == [x] + s;
      forall k | 0 <= k < |[x] + s| ensures ([x] + s)[k].matches <= m {
        if k > 0 {
          assert ([x] + s)[k] == s[k - 1];
        }
      }
    }
  }

  function WithMatches(c: nat): Suggestion -> bool {
    (x: Suggestion) => x.matches == c
  }

  /** Inserting `x` adds it at the end of its own score class and leaves the other classes alone. */
  lemma {:induction false} InsertStable(x: Suggestion, s: seq<Suggestion>, c: nat)
    requires Descending(s)
    ensures Filter(WithMatches(c), Insert(x, s)) == Filter(WithMatches(c), s) + (if x.matches == c then [x] else [])
  {
    if s == [] {
    } else if s[0].matches >= x.matches {
      InsertStable(x, s[1..], c);
      InsertBehind(x, s, c);
    } else {
      InsertAhead(x, s, c);
    }
  }

  /** `x` goes after the head: the head's class gains nothing in front of it. */
  lemma InsertBehind(x: Suggestion, s: seq<Suggestion>, c: nat)
    requires s != [] && s[0].matches >= x.matches
    requires Filter(WithMatches(c), Insert(x, s[1..])) == Filter(WithMatches(c), s[1..]) + (if x.matches == c then [x] else [])
    ensures Filter(WithMatches(c), Insert(x, s)) == Filter(WithMatches(c), s) + (if x.matches == c then [x] else [])
  {
    var f := WithMatches(c);
    var rest := Insert(x, s[1..]);
    var head := if f(s[0]) then [s[0]] else [];
    var tail := if x.matches == c then [x] else [];
    assert Insert(x, s) == [s[0]] + rest;
    assert ([s[0]] + rest)[1..] == rest;
    assert Filter(f, Insert(x, s)) == head + Filter(f, rest);
    assert Filter(f, s) == head + Filter(f, s[1..]);
    PrependBoth(head, Filter(f, rest), Filter(f, s[1..]), tail);
  }

  lemma PrependBoth(head: seq<Suggestion>, xs: seq<Suggestion>, ys: seq<Suggestion>, tail: seq<Suggestion>)
    requires xs == ys + tail
    ensures head + xs == (head + ys) + tail
  {
  }

  /** `x` goes in front of a list scoring less: nothing there shares its score. */
  lemma InsertAhead(x: Suggestion, s: seq<Suggestion>, c: nat)
    requires Descending(s) && s != [] && s[0].matches < x.matches
    ensures Filter(WithMatches(c), Insert(x, s)) == Filter(WithMatches(c), s) + (if x.matches == c then [x] else [])
  {
    var f := WithMatches(c);
    assert Insert(x, s) == [x] + s;
    FilterConcat(f, [x], s);
    if x.matches == c {
      forall k | 0 <= k < |s| ensures !f(s[k]) {
        assert k == 0 || s[0].matches >= s[k].matches;
      }
      FilterNone(f, s);
    }
  }

  lemma {:induction false} SortDescending(xs: seq<Suggestion>)
    ensures Descending(SortDesc(xs))
  {
    if xs != [] {
      SortDescending(xs[..|xs| - 1]);
      InsertDescending(xs[|xs| - 1], SortDesc(xs[..|xs| - 1]));
    }
  }

  /** The sort is stable: within each score the suggestions keep their order. */
  lemma {:induction false} SortStable(xs: seq<Suggestion>, c: nat)
    ensures Filter(WithMatches(c), SortDesc(xs)) == Filter(WithMatches(c), xs)
  {
    if xs != [] {
      var front, last := xs[..|xs| - 1], xs[|xs| - 1];
      var sorted := SortDesc(front);
      assert SortDesc(xs) == Insert(last, sorted);
      SortStable(front, c);
      SortDescending(front);
      InsertStable(last, sorted, c);
      FilterLast(WithMatches(c), xs);
    }
  }

  function RecipesOf(s: seq<Suggestion>): (r: seq<Recipe>)
    ensures |r| == |s| && forall k :: 0 <= k < |s| ==> r[k] == s[k].recipe
  {
    seq(|s|, k requires 0 <= k < |s| => s[k].recipe)
  }

  /** What `get_recipe_suggestions` returns. */
  function Suggestions(recipes: seq<Recipe>, ings: seq<string>): seq<Recipe> {
    RecipesOf(SortDesc(Scored(recipes, MatchScore(ings))))
  }

  /** `get_recipe_suggestions`: the collecting loop, then the sort by score and the list of recipes. */
  method GetRecipeSuggestions(recipes: seq<Recipe>, ings: seq<string>) returns (r: seq<Recipe>)
    ensures r == Suggestions(recipes, ings)
  {
    var suggestions: seq<Suggestion> := [];
    var i := 0;
    while i < |recipes|
      invariant 0 <= i <= |recipes|
      invariant suggestions == Scored(recipes[..i], MatchScore(ings))
    {
      ScoredStep(recipes, i, ings);
      var matching := Count(In(Lower(recipes[i].ingredients)), ings);
      if matching > 0 {
        suggestions := suggestions + [Suggestion(recipes[i], matching)];
      }
      i := i + 1;
    }
    assert recipes[..i] == recipes;
    r := RecipesOf(SortDesc(suggestions));
  }

  /** Ranking by any score keeps exactly the recipes scoring above zero, in non-increasing score. */
  lemma RankedFacts(recipes: seq<Recipe>, score: Recipe -> nat)
    ensures var s := SortDesc(Scored(recipes, score));
      Descending(s) && forall x :: x in RecipesOf(s) <==> x in recipes && score(x) > 0
  {
    SortDescending(Scored(recipes, score));
    forall x
      ensures x in RecipesOf(SortDesc(Scored(recipes, score))) <==> x in recipes && score(x) > 0
    {
      RankedMember(recipes, score, x);
    }
  }

  lemma RankedMember(recipes: seq<Recipe>, score: Recipe -> nat, x: Recipe)
    ensures x in RecipesOf(SortDesc(Scored(recipes, score))) <==> x in recipes && score(x) > 0
  {
    var scored := Scored(recipes, score);
    var s := SortDesc(scored);
    ScoredMembers(recipes, score);
    SortMembers(scored);
    var r := RecipesOf(s);
    if x in recipes && score(x) > 0 {
      var y := Suggestion(x, score(x));
      assert y in s;
      var k :| 0 <= k < |s| && s[k] == y;
      assert r[k] == x;
    }
    if x in r {
      var k :| 0 <= k < |r| && r[k] == x;
      assert s[k] in s;
    }
  }

  /**
   * The suggestions are the recipes matching at least one requested
   * ingredient, ordered by non-increasing match count, recipes with the same
   * count in the order of the recipe list.
   */
  lemma SuggestionsFacts(recipes: seq<Recipe>, ings: seq<string>, c: nat)
    ensures var s := SortDesc(Scored(recipes, MatchScore(ings)));
      Suggestions(recipes, ings) == RecipesOf(s) && Descending(s)
      && (forall x :: x in Suggestions(recipes, ings) <==> x in recipes && MatchCount(ings, x) > 0)
      && Filter(WithMatches(c), s) == Filter(WithMatches(c), Scored(recipes, MatchScore(ings)))
  {
    RankedFacts(recipes, MatchScore(ings));
    SortStable(Scored(recipes, MatchScore(ings)), c);
  }

  lemma SortMembers(xs: seq<Suggestion>)
    ensures forall y :: y in SortDesc(xs) <==> y in xs
  {
    var s := SortDesc(xs);
    assert forall y :: y in s <==> y in multiset(s);
    assert forall y :: y in xs <==> y in multiset(xs);
  }

  /** No requested ingredient: no suggestion (and so no division by zero). */
  lemma {:induction false} NoIngredientsNoSuggestions(recipes: seq<Recipe>)
    ensures Scored(recipes, MatchScore([])) == [] && Suggestions(recipes, []) == []
  {
    if recipes != [] {
      NoIngredientsNoSuggestions(recipes[..|recipes| - 1]);
    }
  }

  /** Scores share the denominator `len(ingredients)`, so ordering by score is ordering by match count. */
  lemma ScoreOrder(a: nat, b: nat, n: nat)
    requires n > 0
    ensures a as real / n as real >= b as real / n as real <==> a >= b
  {
    var p, q := a as real / n as real, b as real / n as real;
    assert p * n as real == a as real && q * n as real == b as real;
    if a >= b {
      assert (p - q) * n as real >= 0.0;
    } else {
      assert (q - p) * n as real > 0.0;
    }
  }
}
