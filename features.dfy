/**
 * Feature extraction of the recipe recommender: the ingredient list of a
 * search hit, the per-index mapping of a hit onto a recipe row, and the
 * translation of recipe names to recipe ids used by the weight trainer.
 * The search engine itself is left out: its hits are the input here.
 */
module Features {
  import opened Wrappers
  import opened Text

  /** One row of the recipe table. `major`, `minor` and `abv` are `None` where the
      index gives the row no such column. */
  datatype Recipe = Recipe(
    id: string,
    name: Option<string>,
    ingredients: seq<string>,
    major: Option<string>,
    minor: Option<string>,
    abv: Option<string>)

  /** An element of a hit's `special` list: a string, or any other JSON value. */
  datatype Special = Text(text: string) | NotText

  /** A hit's source document: its scalar fields as text, the `ingredient` value of each
      element of its `ingredients` list (`None` where the element has no such key), and
      its `special` list. A missing list is the empty list. */
  datatype Source = Source(fields: map<string, string>, ingredients: seq<Option<string>>, specials: seq<Special>)

  datatype Hit = Hit(id: string, source: Source)

  const FoodIndex: string := "recipe_food"
  const CocktailIndex: string := "recipe_cocktail"

  /** The values that are present, in order (`dropna` on a row, or the entries that carry a key). */
  function Present(xs: seq<Option<string>>): (r: seq<string>)
    ensures |r| <= |xs|
    ensures forall x :: x in r <==> Some(x) in xs
    decreases |xs|
  {
    if xs == [] then []
    else
      var init := Present(xs[..|xs| - 1]);
      assert xs == xs[..|xs| - 1] + [xs[|xs| - 1]];
      match xs[|xs| - 1]
      case Some(x) => init + [x]
      case None => init
  }

  /** Keeping the present values of a concatenation keeps those of each part, in order. */
  lemma {:induction false} PresentAppend(a: seq<Option<string>>, b: seq<Option<string>>)
    ensures Present(a + b) == Present(a) + Present(b)
    decreases |b|
  {
    if b == [] {
      assert a + b == a;
    } else {
      var init := b[..|b| - 1];
      var x := b[|b| - 1];
      var tail := if x.Some? then [x.value] else [];
      PresentAppend(a, init);
      assert (a + b)[..|a + b| - 1] == a + init;
      assert Present(a + b) == Present(a + init) + tail;
      assert Present(b) == Present(init) + tail;
      AppendAssoc(Present(a), Present(init), tail);
    }
  }

  lemma AppendAssoc<T>(a: seq<T>, b: seq<T>, c: seq<T>)
    ensures (a + b) + c == a + (b + c)
  {
  }

  /** One entry: its value when present, nothing otherwise. With `PresentAppend` this fixes
      the order and the multiplicity of every value kept. */
  lemma PresentSingle(x: Option<string>)
    ensures Present([x]) == if x.Some? then [x.value] else []
  {
    assert [x][..0] == [];
  }

  lemma PresentSnoc(xs: seq<Option<string>>, i: nat)
    requires i < |xs|
    ensures Present(xs[..i + 1]) == Present(xs[..i]) + (if xs[i].Some? then [xs[i].value] else [])
  {
    assert xs[..i + 1][..i] == xs[..i];
  }

  /** The characters of `[\d.]`. */
  predicate IsQuantityChar(c: char) {
    IsAsciiDigit(c) || c == '.'
  }

  predicate NoQuantity(s: string) {
    forall k :: 0 <= k < |s| ==> !IsQuantityChar(s[k])
  }

  /** What is left of `s` after its longest prefix of digits and dots. */
  function SkipQuantity(s: string): (r: string)
    ensures |r| <= |s| && r == s[|s| - |r|..]
    ensures forall k :: 0 <= k < |s| - |r| ==> IsQuantityChar(s[k])
    ensures r != [] ==> !IsQuantityChar(r[0])
    decreases |s|
  {
    if s != [] && IsQuantityChar(s[0]) then SkipQuantity(s[1..]) else s
  }

  /** What is left of `s` after its longest prefix of ASCII letters. */
  function SkipLetters(s: string): (r: string)
    ensures |r| <= |s| && r == s[|s| - |r|..]
    ensures forall k :: 0 <= k < |s| - |r| ==> IsAsciiLetter(s[k])
    decreases |s|
  {
    if s != [] && IsAsciiLetter(s[0]) then SkipLetters(s[1..]) else s
  }

  /** `re.sub(r'[\d.]+[a-zA-Z]*', '', s)`: scanning from the left, every run of digits and
      dots is removed together with the run of ASCII letters right after it (a quantity
      and its unit); every other character is kept. */
  function StripQuantities(s: string): (r: string)
    ensures NoQuantity(r)
    decreases |s|
  {
    if s == [] then []
    else if IsQuantityChar(s[0]) then
      StripQuantities(SkipLetters(SkipQuantity(s)))
    else
      [s[0]] + StripQuantities(s[1..])
  }

  /** Text without quantities in front passes through unchanged. */
  lemma {:induction false} StripQuantitiesAppend(a: string, b: string)
    requires NoQuantity(a)
    ensures StripQuantities(a + b) == a + StripQuantities(b)
    decreases |a|
  {
    if a == [] {
      assert a + b == b;
    } else {
      var t := a[1..];
      assert NoQuantity(t) by {
        forall k | 0 <= k < |t| ensures !IsQuantityChar(t[k]) {
          assert t[k] == a[k + 1];
        }
      }
      StripQuantitiesAppend(t, b);
      HeadTail(a, b);
      StripQuantitiesCons(a[0], t + b);
      AppendAssoc([a[0]], t, StripQuantities(b));
    }
  }

  lemma HeadTail<T>(a: seq<T>, b: seq<T>)
    requires a != []
    ensures a == [a[0]] + a[1..] && a + b == [a[0]] + (a[1..] + b)
  {
  }

  lemma StripQuantitiesCons(c: char, t: string)
    requires !IsQuantityChar(c)
    ensures StripQuantities([c] + t) == [c] + StripQuantities(t)
  {
    assert ([c] + t)[1..] == t;
  }

  /** A quantity `q` followed by its unit `l` is removed as a whole, and what follows is
      cleaned on its own: `b` starts with neither a letter nor, when there is no unit, a
      digit or a dot. */
  lemma StripQuantityRun(q: string, l: string, b: string)
    requires q != [] && forall k :: 0 <= k < |q| ==> IsQuantityChar(q[k])
    requires forall k :: 0 <= k < |l| ==> IsAsciiLetter(l[k])
    requires b != [] ==> !IsAsciiLetter(b[0]) && (l == [] ==> !IsQuantityChar(b[0]))
    ensures StripQuantities(q + l + b) == StripQuantities(b)
  {
    assert q + l + b == q + (l + b);
    SkipQuantityRun(q, l + b);
    SkipLettersRun(l, b);
  }

  lemma {:induction false} SkipQuantityRun(q: string, rest: string)
    requires forall k :: 0 <= k < |q| ==> IsQuantityChar(q[k])
    requires rest != [] ==> !IsQuantityChar(rest[0])
    ensures SkipQuantity(q + rest) == rest
    decreases |q|
  {
    if q == [] {
      assert q + rest == rest;
    } else {
      assert (q + rest)[1..] == q[1..] + rest;
      SkipQuantityRun(q[1..], rest);
    }
  }

  lemma {:induction false} SkipLettersRun(l: string, rest: string)
    requires forall k :: 0 <= k < |l| ==> IsAsciiLetter(l[k])
    requires rest != [] ==> !IsAsciiLetter(rest[0])
    ensures SkipLetters(l + rest) == rest
    decreases |l|
  {
    if l == [] {
      assert l + rest == rest;
    } else {
      assert (l + rest)[1..] == l[1..] + rest;
      SkipLettersRun(l[1..], rest);
    }
  }

  /** A quantity and its unit are shorter than the text they start and hold no character
      other than digits, dots and letters. */
  lemma QuantityRunCount(s: string, c: char)
    requires s != [] && IsQuantityChar(s[0])
    requires !IsQuantityChar(c) && !IsAsciiLetter(c)
    ensures var u := SkipLetters(SkipQuantity(s));
      |u| < |s| && multiset(u)[c] == multiset(s)[c]
  {
    var q := SkipQuantity(s);
    var u := SkipLetters(q);
    assert |q| == |s| ==> q == s;
    RunHasNoOtherChar(s, q, c);
    RunHasNoOtherChar(q, u, c);
  }

  /** Every character that is neither a digit, a dot nor an ASCII letter survives, as
      often as it occurs. */
  lemma {:induction false} StripKeepsOtherChars(s: string, c: char)
    requires !IsQuantityChar(c) && !IsAsciiLetter(c)
    ensures multiset(StripQuantities(s))[c] == multiset(s)[c]
    decreases |s|
  {
    if s != [] {
      if IsQuantityChar(s[0]) {
        var u := SkipLetters(SkipQuantity(s));
        QuantityRunCount(s, c);
        assert StripQuantities(s) == StripQuantities(u);
        StripKeepsOtherChars(u, c);
      } else {
        StripKeepsOtherChars(s[1..], c);
        assert s == [s[0]] + s[1..];
      }
    }
  }

  lemma RunHasNoOtherChar(s: string, u: string, c: char)
    requires |u| <= |s| && u == s[|s| - |u|..]
    requires forall k :: 0 <= k < |s| - |u| ==> IsQuantityChar(s[k]) || IsAsciiLetter(s[k])
    requires !IsQuantityChar(c) && !IsAsciiLetter(c)
    ensures multiset(s)[c] == multiset(u)[c]
  {
    var n := |s| - |u|;
    assert s == s[..n] + u;
    assert c !in s[..n];
    assert multiset(s) == multiset(s[..n]) + multiset(u);
  }

  /** Text without digits or dots has nothing the pattern matches. */
  lemma {:induction false} StripQuantitiesIdentity(s: string)
    requires NoQuantity(s)
    ensures StripQuantities(s) == s
    decreases |s|
  {
    if s != [] {
      StripQuantitiesIdentity(s[1..]);
    }
  }

  /** Removing quantities a second time changes nothing. */
  lemma StripQuantitiesIdempotent(s: string)
    ensures StripQuantities(StripQuantities(s)) == StripQuantities(s)
  {
    StripQuantitiesIdentity(StripQuantities(s));
  }

  /** The characters Python's `str.strip()` removes: those `str.isspace` accepts, which include
      the separators U+001C to U+001F. */
  predicate IsPyWhitespace(c: char) {
    ('\t' <= c <= '\r') || ('\U{1C}' <= c <= ' ') || c == '\U{85}' || c == '\U{A0}'
    || c == '\U{1680}' || ('\U{2000}' <= c <= '\U{200A}') || c == '\U{2028}' || c == '\U{2029}'
    || c == '\U{202F}' || c == '\U{205F}' || c == '\U{3000}'
  }

  /** The first position at or after `i` whose character is not whitespace, or `|s|`. */
  function SkipSpaceFrom(s: string, i: nat): (n: nat)
    requires i <= |s|
    ensures i <= n <= |s|
    ensures forall k :: i <= k < n ==> IsPyWhitespace(s[k])
    ensures n < |s| ==> !IsPyWhitespace(s[n])
    decreases |s| - i
  {
    if i < |s| && IsPyWhitespace(s[i]) then SkipSpaceFrom(s, i + 1) else i
  }

  /** The position just past the last character of `s[lo..j]` that is not whitespace, or
      `lo`. */
  function SkipSpaceBack(s: string, lo: nat, j: nat): (n: nat)
    requires lo <= j <= |s|
    ensures lo <= n <= j
    ensures forall k :: n <= k < j ==> IsPyWhitespace(s[k])
    ensures n > lo ==> !IsPyWhitespace(s[n - 1])
    decreases j
  {
    if j > lo && IsPyWhitespace(s[j - 1]) then SkipSpaceBack(s, lo, j - 1) else j
  }

  /** Neither the first nor the last character is whitespace. */
  predicate Trimmed(r: string) {
    r != [] ==> !IsPyWhitespace(r[0]) && !IsPyWhitespace(r[|r| - 1])
  }

  predicate AllWhitespace(s: string) {
    forall k :: 0 <= k < |s| ==> IsPyWhitespace(s[k])
  }

  /** Where `str.strip()` cuts `s`: after its leading whitespace and before its trailing
      whitespace. */
  function StripStart(s: string): (i: nat)
    ensures i <= |s|
  {
    SkipSpaceFrom(s, 0)
  }

  function StripEnd(s: string): (j: nat)
    ensures StripStart(s) <= j <= |s|
  {
    SkipSpaceBack(s, StripStart(s), |s|)
  }

  /** `str.strip()`: `s` less its leading and its trailing whitespace. */
  function PyStrip(s: string): (r: string)
    ensures Trimmed(r)
  {
    s[StripStart(s)..StripEnd(s)]
  }

  /** `str.strip()` keeps the characters of `s` between a stretch of leading whitespace and
      a stretch of trailing whitespace, in place, and it removes a stretch exactly when it
      is whitespace: the text is empty only when all of `s` is. */
  lemma PyStripFacts(s: string)
    ensures var i := StripStart(s); var j := StripEnd(s);
      PyStrip(s) == s[i..j]
      && (forall k :: 0 <= k < i ==> IsPyWhitespace(s[k]))
      && (forall k :: j <= k < |s| ==> IsPyWhitespace(s[k]))
    ensures PyStrip(s) == [] <==> AllWhitespace(s)
    ensures forall k :: 0 <= k < |PyStrip(s)| ==> PyStrip(s)[k] in s
  {
    var i := StripStart(s);
    var j := StripEnd(s);
    var r := PyStrip(s);
    if i < |s| {
      assert !IsPyWhitespace(s[i]) && i < j;
    }
    forall k | 0 <= k < |r| ensures r[k] in s {
      assert r[k] == s[i + k];
    }
  }

  /** Stripping removes only whitespace, so any other character keeps its count. */
  lemma PyStripCount(s: string, c: char)
    requires !IsPyWhitespace(c)
    ensures multiset(PyStrip(s))[c] == multiset(s)[c]
  {
    PyStripFacts(s);
    CountBetweenWhitespace(s, StripStart(s), StripEnd(s), c);
  }

  lemma CountBetweenWhitespace(s: string, i: nat, j: nat, c: char)
    requires i <= j <= |s| && !IsPyWhitespace(c)
    requires forall k :: 0 <= k < i ==> IsPyWhitespace(s[k])
    requires forall k :: j <= k < |s| ==> IsPyWhitespace(s[k])
    ensures multiset(s[i..j])[c] == multiset(s)[c]
  {
    assert s == s[..i] + s[i..j] + s[j..];
    assert c !in s[..i] && c !in s[j..];
    assert multiset(s) == multiset(s[..i]) + multiset(s[i..j]) + multiset(s[j..]);
  }

  /** A string `special` as `extract_ingredients` cleans it. */
  function CleanSpecial(s: string): (r: string)
    ensures NoQuantity(r) && Trimmed(r)
  {
    var t := StripQuantities(s);
    var r := PyStrip(t);
    PyStripFacts(t);
    forall k | 0 <= k < |r| ensures !IsQuantityChar(r[k]) {
      assert r[k] in t;
    }
    r
  }

  /** A special cleans to nothing exactly when all that is left after removing the
      quantities is whitespace; any character that is not whitespace, a digit, a dot or an
      ASCII letter (a Hangul syllable, say) keeps its count. */
  lemma CleanSpecialFacts(s: string, c: char)
    requires !IsPyWhitespace(c) && !IsQuantityChar(c) && !IsAsciiLetter(c)
    ensures CleanSpecial(s) == [] <==> AllWhitespace(StripQuantities(s))
    ensures multiset(CleanSpecial(s))[c] == multiset(s)[c]
  {
    PyStripFacts(StripQuantities(s));
    PyStripCount(StripQuantities(s), c);
    StripKeepsOtherChars(s, c);
  }

  /** A special written as a quantity, its unit, a space and a name (as in "2cups sugar")
      cleans to the name. */
  lemma CleanSpecialMeasured(q: string, u: string, name: string)
    requires q != [] && forall k :: 0 <= k < |q| ==> IsQuantityChar(q[k])
    requires forall k :: 0 <= k < |u| ==> IsAsciiLetter(u[k])
    requires name != [] && NoQuantity(name) && Trimmed(name)
    ensures CleanSpecial(q + u + ([' '] + name)) == name
  {
    var t := [' '] + name;
    StripQuantityRun(q, u, t);
    assert NoQuantity(t) by {
      forall k | 0 <= k < |t| ensures !IsQuantityChar(t[k]) {
        if k > 0 {
          assert t[k] == name[k - 1];
        }
      }
    }
    StripQuantitiesIdentity(t);
    StripOneSpace(name);
  }

  /** A single space in front of a trimmed, non-empty text is all that stripping removes. */
  lemma StripOneSpace(name: string)
    requires name != [] && Trimmed(name)
    ensures PyStrip([' '] + name) == name
  {
    var t := [' '] + name;
    assert t[1] == name[0] && t[|t| - 1] == name[|name| - 1];
    assert SkipSpaceFrom(t, 1) == 1;
    assert StripStart(t) == 1;
    assert StripEnd(t) == |t|;
    assert t[1..] == name;
  }

  /** The cleaned string specials that are not empty, in order. */
  function CleanedSpecials(specials: seq<Special>): (r: seq<string>)
    ensures |r| <= |specials|
    decreases |specials|
  {
    if specials == [] then []
    else
      var init := CleanedSpecials(specials[..|specials| - 1]);
      match specials[|specials| - 1]
      case Text(t) => var c := CleanSpecial(t); if c != [] then init + [c] else init
      case NotText => init
  }

  /** What one more special adds to the cleaned list. */
  function CleanedOne(special: Special): seq<string> {
    match special
    case Text(t) => if CleanSpecial(t) != [] then [CleanSpecial(t)] else []
    case NotText => []
  }

  lemma CleanedSpecialsSnoc(specials: seq<Special>, i: nat)
    requires i < |specials|
    ensures CleanedSpecials(specials[..i + 1]) == CleanedSpecials(specials[..i]) + CleanedOne(specials[i])
  {
    assert specials[..i + 1][..i] == specials[..i];
  }

  lemma CleanedSpecialsTextStep(specials: seq<Special>, i: nat)
    requires i < |specials| && specials[i].Text?
    ensures var c := CleanSpecial(specials[i].text);
      CleanedSpecials(specials[..i + 1]) == CleanedSpecials(specials[..i]) + (if c != [] then [c] else [])
  {
    CleanedSpecialsSnoc(specials, i);
  }

  lemma CleanedSpecialsOtherStep(specials: seq<Special>, i: nat)
    requires i < |specials| && specials[i].NotText?
    ensures CleanedSpecials(specials[..i + 1]) == CleanedSpecials(specials[..i])
  {
    CleanedSpecialsSnoc(specials, i);
  }

  /** Every cleaned special is non-empty, without digits or dots, and trimmed. */
  lemma {:induction false} CleanedSpecialsShape(specials: seq<Special>)
    ensures forall x :: x in CleanedSpecials(specials) ==> x != [] && NoQuantity(x) && Trimmed(x)
    decreases |specials|
  {
    if specials != [] {
      var n := |specials| - 1;
      var front, last := CleanedSpecials(specials[..n]), CleanedOne(specials[n]);
      CleanedSpecialsShape(specials[..n]);
      CleanedSpecialsSnoc(specials, n);
      assert specials[..n + 1] == specials;
      forall x | x in front + last ensures x != [] && NoQuantity(x) && Trimmed(x) {
        if x !in front {
          assert x in last;
        }
      }
    }
  }

  /** No string special whose cleaned form is non-empty is lost. */
  lemma {:induction false} CleanedSpecialsComplete(specials: seq<Special>, i: nat)
    requires i < |specials| && specials[i].Text? && CleanSpecial(specials[i].text) != []
    ensures CleanSpecial(specials[i].text) in CleanedSpecials(specials)
    decreases |specials|
  {
    var n := |specials| - 1;
    var init := specials[..n];
    if i < n {
      var x := specials[i];
      assert init[i] == x;
      CleanedSpecialsComplete(init, i);
    }
    CleanedSpecialsExtend(specials, i);
  }

  lemma CleanedSpecialsExtend(specials: seq<Special>, i: nat)
    requires i < |specials| && specials[i].Text? && CleanSpecial(specials[i].text) != []
    requires i < |specials| - 1 ==> CleanSpecial(specials[i].text) in CleanedSpecials(specials[..|specials| - 1])
    ensures CleanSpecial(specials[i].text) in CleanedSpecials(specials)
  {
    var n := |specials| - 1;
    var c := CleanSpecial(specials[i].text);
    var front, last := CleanedSpecials(specials[..n]), CleanedOne(specials[n]);
    assert c in front || last == [c];
    CleanedSpecialsSnoc(specials, n);
    assert specials[..n + 1] == specials;
    InAppend(c, front, last);
  }

  lemma InAppend(x: string, a: seq<string>, b: seq<string>)
    requires x in a || b == [x]
    ensures x in a + b
  {
    if x !in a {
      assert (a + b)[|a|] == x;
    }
  }

  /** `extract_ingredients`: the `ingredient` values first, then the cleaned specials.
      The specials are gathered apart and appended at the end, which gives the same list
      as appending them one by one. */
  method ExtractIngredients(entries: seq<Option<string>>, specials: seq<Special>) returns (ingredients: seq<string>)
    ensures ingredients == Present(entries) + CleanedSpecials(specials)
  {
    ingredients := [];
    for i := 0 to |entries|
      invariant ingredients == Present(entries[..i])
    {
      PresentSnoc(entries, i);
      if entries[i].Some? {
        ingredients := ingredients + [entries[i].value];
      }
    }
    assert entries[..|entries|] == entries;
    var cleanedSpecials: seq<string> := [];
    for i := 0 to |specials|
      invariant cleanedSpecials == CleanedSpecials(specials[..i])
    {
      if specials[i].Text? {
        var cleaned := CleanSpecial(specials[i].text);
        CleanedSpecialsTextStep(specials, i);
        if cleaned != [] {
          cleanedSpecials := cleanedSpecials + [cleaned];
        }
      } else {
        CleanedSpecialsOtherStep(specials, i);
      }
    }
    assert specials[..|specials|] == specials;
    ingredients := ingredients + cleanedSpecials;
  }

  /** `dict.get(key, default)` on a source's text fields. */
  function Get(fields: map<string, string>, key: string, default: string): string {
    if key in fields then fields[key] else default
  }

  /** The row `fetch_data_from_es` builds from one hit: id, name and ingredients for every
      index; method and kind for the food index; category, glass and the abv text for the
      cocktail index. */
  function ToRecipe(index: string, id: string, fields: map<string, string>, ingredients: seq<string>): (r: Recipe)
    ensures r.id == id && r.ingredients == ingredients
    ensures r.name == (if "name" in fields then Some(fields["name"]) else None)
    ensures r.abv.Some? <==> index == CocktailIndex
    ensures r.major.Some? <==> index == FoodIndex || index == CocktailIndex
    ensures r.minor.Some? <==> r.major.Some?
    ensures index == FoodIndex ==> r.major == Some(Get(fields, "RCP_WAY2", "")) && r.minor == Some(Get(fields, "RCP_PAT2", ""))
    ensures index == CocktailIndex ==>
      r.major == Some(Get(fields, "category", "")) && r.minor == Some(Get(fields, "glass", ""))
      && r.abv == Some(Get(fields, "abv", ""))
  {
    var name := if "name" in fields then Some(fields["name"]) else None;
    var base := Recipe(id, name, ingredients, None, None, None);
    if index == FoodIndex then
      base.(major := Some(Get(fields, "RCP_WAY2", "")), minor := Some(Get(fields, "RCP_PAT2", "")))
    else if index == CocktailIndex then
      base.(abv := Some(Get(fields, "abv", "")), major := Some(Get(fields, "category", "")),
            minor := Some(Get(fields, "glass", "")))
    else base
  }

  /** The row one hit becomes: its ingredients extracted, then mapped by `ToRecipe`. */
  function RowOf(index: string, hit: Hit): Recipe {
    ToRecipe(index, hit.id, hit.source.fields,
             Present(hit.source.ingredients) + CleanedSpecials(hit.source.specials))
  }

  /** The loop of `fetch_data_from_es` over the hits: one row per hit, in order. */
  method BuildCorpus(index: string, hits: seq<Hit>) returns (corpus: seq<Recipe>)
    ensures |corpus| == |hits|
    ensures forall i :: 0 <= i < |hits| ==> corpus[i] == RowOf(index, hits[i])
  {
    corpus := [];
    for i := 0 to |hits|
      invariant |corpus| == i
      invariant forall j :: 0 <= j < i ==> corpus[j] == RowOf(index, hits[j])
    {
      var source := hits[i].source;
      var ingredients := ExtractIngredients(source.ingredients, source.specials);
      var row := ToRecipe(index, hits[i].id, source.fields, ingredients);
      assert row == RowOf(index, hits[i]);
      corpus := corpus + [row];
    }
  }

  /** `pd.Series(ids, index=names).to_dict()`: the names of the rows are the keys, and
      each name maps to the id of the LAST row carrying it; rows without a name
      contribute nothing. */
  function NameToId(corpus: seq<Recipe>): (m: map<string, string>)
    ensures forall n :: n in m <==> exists i :: 0 <= i < |corpus| && corpus[i].name == Some(n)
    ensures forall i :: 0 <= i < |corpus| && corpus[i].name.Some? && LastWithName(corpus, i) ==>
      corpus[i].name.value in m && m[corpus[i].name.value] == corpus[i].id
    decreases |corpus|
  {
    if corpus == [] then map[]
    else
      var init := corpus[..|corpus| - 1];
      var m := NameToId(init);
      var last := corpus[|corpus| - 1];
      NameToIdStep(corpus, m);
      if last.name.Some? then m[last.name.value := last.id] else m
  }

  /** No row after row `i` has row `i`'s name. */
  predicate LastWithName(corpus: seq<Recipe>, i: int)
    requires 0 <= i < |corpus|
  {
    forall j :: i < j < |corpus| ==> corpus[j].name != corpus[i].name
  }

  lemma NameToIdStep(corpus: seq<Recipe>, m: map<string, string>)
    requires corpus != []
    requires var init := corpus[..|corpus| - 1];
      (forall n :: n in m <==> exists i :: 0 <= i < |init| && init[i].name == Some(n))
      && forall i :: 0 <= i < |init| && init[i].name.Some? && LastWithName(init, i) ==>
        init[i].name.value in m && m[init[i].name.value] == init[i].id
    ensures var last := corpus[|corpus| - 1];
      var m' := if last.name.Some? then m[last.name.value := last.id] else m;
      (forall n :: n in m' <==> exists i :: 0 <= i < |corpus| && corpus[i].name == Some(n))
      && forall i :: 0 <= i < |corpus| && corpus[i].name.Some? && LastWithName(corpus, i) ==>
        corpus[i].name.value in m' && m'[corpus[i].name.value] == corpus[i].id
  {
    var init := corpus[..|corpus| - 1];
    var last := corpus[|corpus| - 1];
    var m' := if last.name.Some? then m[last.name.value := last.id] else m;
    forall n ensures n in m' <==> exists i :: 0 <= i < |corpus| && corpus[i].name == Some(n) {
      if n in m' && !(last.name == Some(n)) {
        var i :| 0 <= i < |init| && init[i].name == Some(n);
        assert corpus[i] == init[i];
      }
      if exists i :: 0 <= i < |corpus| && corpus[i].name == Some(n) {
        var i :| 0 <= i < |corpus| && corpus[i].name == Some(n);
        if i < |init| {
          assert init[i] == corpus[i];
        }
      }
    }
    forall i | 0 <= i < |corpus| && corpus[i].name.Some? && LastWithName(corpus, i)
      ensures corpus[i].name.value in m' && m'[corpus[i].name.value] == corpus[i].id
    {
      if i < |init| {
        assert init[i] == corpus[i];
        assert last.name != corpus[i].name;
        assert LastWithName(init, i);
      }
    }
  }

  /** Every named row has a last row with the same name at or after it. */
  lemma LastOccurrence(corpus: seq<Recipe>, i: nat) returns (k: nat)
    requires i < |corpus|
    ensures i <= k < |corpus| && corpus[k].name == corpus[i].name && LastWithName(corpus, k)
    decreases |corpus| - i
  {
    if LastWithName(corpus, i) {
      k := i;
    } else {
      var j :| i < j < |corpus| && corpus[j].name == corpus[i].name;
      k := LastOccurrence(corpus, j);
    }
  }

  /** The id a name cell maps to: `None` for an empty cell or an unknown name. */
  function IdOf(m: map<string, string>, cell: Option<string>): Option<string> {
    if cell.Some? && cell.value in m then Some(m[cell.value]) else None
  }

  /** `convert_name_to_id`: every cell of the table of name lists replaced by its id. */
  function ConvertNamesToIds(table: seq<seq<Option<string>>>, corpus: seq<Recipe>): (r: seq<seq<Option<string>>>)
    ensures |r| == |table|
    ensures forall i :: 0 <= i < |table| ==> |r[i]| == |table[i]|
    ensures forall i, j :: 0 <= i < |table| && 0 <= j < |table[i]| ==> r[i][j] == IdOf(NameToId(corpus), table[i][j])
  {
    var m := NameToId(corpus);
    seq(|table|, i requires 0 <= i < |table| => seq(|table[i]|, j requires 0 <= j < |table[i]| => IdOf(m, table[i][j])))
  }

  /** After `dropna`, every entry of a converted row is the id of a corpus row that
      carries one of the row's names. */
  lemma {:induction false} ConvertedIdsExist(table: seq<seq<Option<string>>>, corpus: seq<Recipe>, i: nat, x: string)
    requires i < |table|
    requires x in Present(ConvertNamesToIds(table, corpus)[i])
    ensures exists k :: 0 <= k < |corpus| && corpus[k].id == x && corpus[k].name.Some? && Some(corpus[k].name.value) in table[i]
  {
    var row := ConvertNamesToIds(table, corpus)[i];
    var m := NameToId(corpus);
    assert Some(x) in row;
    var j :| 0 <= j < |row| && row[j] == Some(x);
    var n := table[i][j].value;
    assert n in m && m[n] == x;
    var i0 :| 0 <= i0 < |corpus| && corpus[i0].name == Some(n);
    var k := LastOccurrence(corpus, i0);
    assert Some(corpus[k].name.value) == table[i][j];
  }
}
