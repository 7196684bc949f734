/**
 * Scoring and ranking of the recipe recommender: the per-field similarities
 * of a candidate row to the liked rows are averaged over the liked ids,
 * weighted, scaled to an integer score and the candidates are sorted by
 * score, best first. The text vectorisers, the cosine similarity and the
 * abv scaler are library numerics: they are the functions of `Similarity`.
 */
module Scoring {
  import opened Wrappers
  import opened Features

  /** The similarity of a liked row (first argument) to a candidate row, field by field,
      and the abv scaler when the index has one. */
  datatype Similarity = Similarity(
    name: (Recipe, Recipe) -> real,
    ingredients: (Recipe, Recipe) -> real,
    major: (Recipe, Recipe) -> real,
    minor: (Recipe, Recipe) -> real,
    abvScale: Option<Recipe -> real>)

  /** The five field weights, numbered 0 to 4 in the order name, ingredients, major,
      minor, abv. */
  datatype Weights = Weights(name: real, ingredients: real, major: real, minor: real, abv: real) {
    function Get(field: nat): real {
      if field == 0 then name
      else if field == 1 then ingredients
      else if field == 2 then major
      else if field == 3 then minor
      else abv
    }

    function Set(field: nat, v: real): (r: Weights)
      ensures field <= 4 ==> r.Get(field) == v
      ensures forall f :: f <= 4 && f != field ==> r.Get(f) == Get(f)
    {
      if field == 0 then this.(name := v)
      else if field == 1 then this.(ingredients := v)
      else if field == 2 then this.(major := v)
      else if field == 3 then this.(minor := v)
      else if field == 4 then this.(abv := v)
      else this
    }
  }

  /** Per-field sums (or averages) of similarities. */
  datatype Sums = Sums(name: real, ingredients: real, major: real, minor: real, abv: real)

  /** One entry of the ranking: the candidate's id, its score and its average similarity
      per field (`abv` is `None` without a scaler). */
  datatype Ranked = Ranked(
    id: string,
    score: int,
    name: real,
    ingredients: real,
    major: real,
    minor: real,
    abv: Option<real>)

  /** What `recommend_recipe` keeps of an entry. */
  datatype Pick = Pick(id: string, score: int)

  datatype RecommendError =
    | DivisionByZero   // no liked ids while some row is a candidate
    | IndexError       // fewer candidates than asked for

  /** The position of the first element whose key is `id`, or -1. */
  function FirstWith<T>(xs: seq<T>, key: T -> string, id: string): (k: int)
    ensures -1 <= k < |xs|
    ensures k >= 0 ==> key(xs[k]) == id
    ensures forall j :: 0 <= j < |xs| && (k < 0 || j < k) ==> key(xs[j]) != id
    decreases |xs|
  {
    if xs == [] then -1
    else if key(xs[0]) == id then 0
    else
      var k := FirstWith(xs[1..], key, id);
      if k < 0 then -1 else k + 1
  }

  function RecipeId(r: Recipe): string {
    r.id
  }

  function RankedId(e: Ranked): string {
    e.id
  }

  /** `df[df['id'] == id]` as the similarity code reads it: its first row, if any. */
  function Lookup(corpus: seq<Recipe>, id: string): Option<Recipe> {
    var k := FirstWith(corpus, RecipeId, id);
    if k < 0 then None else Some(corpus[k])
  }

  /** `1 - abs(liked - candidate)` on scaled abv values. It is at most 1, exactly 1 for
      equal values, and it is not clamped: it goes below 0 once they are more than 1 apart. */
  function AbvSimilarity(liked: real, candidate: real): (r: real)
    ensures r <= 1.0
    ensures r == 1.0 <==> liked == candidate
    ensures r < 0.0 <==> liked - candidate > 1.0 || candidate - liked > 1.0
  {
    1.0 - (if liked >= candidate then liked - candidate else candidate - liked)
  }

  /** The similarities of one liked row to the candidate; the abv term is 0 without a scaler. */
  function PairSims(sim: Similarity, liked: Recipe, candidate: Recipe): Sums {
    Sums(
      sim.name(liked, candidate),
      sim.ingredients(liked, candidate),
      sim.major(liked, candidate),
      sim.minor(liked, candidate),
      match sim.abvScale
      case Some(scale) => AbvSimilarity(scale(liked), scale(candidate))
      case None => 0.0)
  }

  function Add(a: Sums, b: Sums): Sums {
    Sums(a.name + b.name, a.ingredients + b.ingredients, a.major + b.major, a.minor + b.minor, a.abv + b.abv)
  }

  const Zero: Sums := Sums(0.0, 0.0, 0.0, 0.0, 0.0)

  /** The per-field totals over the liked ids; an id with no row adds nothing. */
  function Totals(sim: Similarity, corpus: seq<Recipe>, likes: seq<string>, candidate: Recipe): Sums
    decreases |likes|
  {
    if likes == [] then Zero
    else
      var t := Totals(sim, corpus, likes[..|likes| - 1], candidate);
      match Lookup(corpus, likes[|likes| - 1])
      case None => t
      case Some(liked) => Add(t, PairSims(sim, liked, candidate))
  }

  lemma TotalsSnoc(sim: Similarity, corpus: seq<Recipe>, likes: seq<string>, j: nat, candidate: Recipe)
    requires j < |likes|
    ensures Totals(sim, corpus, likes[..j + 1], candidate) ==
      match Lookup(corpus, likes[j])
      case None => Totals(sim, corpus, likes[..j], candidate)
      case Some(liked) => Add(Totals(sim, corpus, likes[..j], candidate), PairSims(sim, liked, candidate))
  {
    assert likes[..j + 1][..j] == likes[..j];
  }

  /** A liked id without a row leaves every total as it was. */
  lemma TotalsSkipUnknown(sim: Similarity, corpus: seq<Recipe>, likes: seq<string>, unknown: string, candidate: Recipe)
    requires forall i :: 0 <= i < |corpus| ==> corpus[i].id != unknown
    ensures Totals(sim, corpus, likes + [unknown], candidate) == Totals(sim, corpus, likes, candidate)
  {
    assert (likes + [unknown])[..|likes|] == likes;
  }

  /** The weighted sum of the averages; the abv term only with a scaler. */
  function Weighted(avg: Sums, w: Weights, hasScaler: bool): real {
    avg.name * w.name + avg.ingredients * w.ingredients + avg.major * w.major + avg.minor * w.minor
    + (if hasScaler then avg.abv * w.abv else 0.0)
  }

  /** Python's `round` of a real to an integer: the nearest integer, ties to the even one. */
  function RoundHalfEven(x: real): (r: int)
    ensures x - 1.0 / 2.0 <= r as real <= x + 1.0 / 2.0
    ensures r as real == x - 1.0 / 2.0 || r as real == x + 1.0 / 2.0 ==> r % 2 == 0
  {
    var f := x.Floor;
    var d := x - f as real;
    if d < 1.0 / 2.0 then f
    else if d > 1.0 / 2.0 then f + 1
    else if f % 2 == 0 then f
    else f + 1
  }

  /** A real exactly between two integers has a single even neighbour, so the two
      conditions above leave no choice. */
  lemma RoundHalfEvenUnique(x: real, n: int)
    requires x - 1.0 / 2.0 <= n as real <= x + 1.0 / 2.0
    requires n as real == x - 1.0 / 2.0 || n as real == x + 1.0 / 2.0 ==> n % 2 == 0
    ensures n == RoundHalfEven(x)
  {
    var r := RoundHalfEven(x);
    assert -1 <= n - r <= 1;
  }

  /** `total / count`: the average that, times the count, gives the total back. */
  function Average(total: real, count: nat): (r: real)
    requires count > 0
    ensures r * count as real == total
  {
    total / count as real
  }

  /** The entry of one candidate row: each average is the field's total divided by the
      number of liked ids (found or not), and the score is `round(100 * weighted sum)`. */
  function Entry(sim: Similarity, w: Weights, corpus: seq<Recipe>, likes: seq<string>, candidate: Recipe): (r: Ranked)
    requires |likes| > 0
    ensures r.id == candidate.id
    ensures r.abv.Some? <==> sim.abvScale.Some?
  {
    var t := Totals(sim, corpus, likes, candidate);
    var n := |likes|;
    var avg := Sums(Average(t.name, n), Average(t.ingredients, n), Average(t.major, n), Average(t.minor, n), Average(t.abv, n));
    Ranked(candidate.id, RoundHalfEven(100.0 * Weighted(avg, w, sim.abvScale.Some?)),
      avg.name, avg.ingredients, avg.major, avg.minor,
      if sim.abvScale.Some? then Some(avg.abv) else None)
  }

  /** The averages of an entry are the field totals over the number of liked ids. */
  lemma EntryAverages(sim: Similarity, w: Weights, corpus: seq<Recipe>, likes: seq<string>, candidate: Recipe)
    requires |likes| > 0
    ensures var e := Entry(sim, w, corpus, likes, candidate);
      var t := Totals(sim, corpus, likes, candidate);
      var n := |likes|;
      e.name == Average(t.name, n) && e.ingredients == Average(t.ingredients, n)
      && e.major == Average(t.major, n) && e.minor == Average(t.minor, n)
      && (e.abv.Some? ==> e.abv.value == Average(t.abv, n))
  {
  }

  /** The score of an entry is 100 times the weighted averages rounded to the nearest
      integer, a tie going to the even one. */
  lemma EntryScore(sim: Similarity, w: Weights, corpus: seq<Recipe>, likes: seq<string>, candidate: Recipe)
    requires |likes| > 0
    ensures var e := Entry(sim, w, corpus, likes, candidate);
      var t := Totals(sim, corpus, likes, candidate);
      var x := 100.0 * Weighted(Sums(e.name, e.ingredients, e.major, e.minor, Average(t.abv, |likes|)), w, sim.abvScale.Some?);
      x - 1.0 / 2.0 <= e.score as real <= x + 1.0 / 2.0
      && (e.score as real == x - 1.0 / 2.0 || e.score as real == x + 1.0 / 2.0 ==> e.score % 2 == 0)
  {
  }

  /** An extra liked id without a row leaves the totals as they were but still counts in
      the divisor: every average becomes the same total over one more id. */
  lemma UnknownLikeDilutes(sim: Similarity, w: Weights, corpus: seq<Recipe>, likes: seq<string>, unknown: string, candidate: Recipe)
    requires |likes| > 0
    requires forall i :: 0 <= i < |corpus| ==> corpus[i].id != unknown
    ensures var t := Totals(sim, corpus, likes, candidate);
      var after := Entry(sim, w, corpus, likes + [unknown], candidate);
      var n := |likes| + 1;
      after.name == Average(t.name, n) && after.ingredients == Average(t.ingredients, n)
      && after.major == Average(t.major, n) && after.minor == Average(t.minor, n)
      && (after.abv.Some? ==> after.abv.value == Average(t.abv, n))
  {
    TotalsSkipUnknown(sim, corpus, likes, unknown, candidate);
    EntryAverages(sim, w, corpus, likes + [unknown], candidate);
  }

  /** Without a scaler the abv weight takes no part in any entry. */
  lemma AbvWeightUnusedWithoutScaler(sim: Similarity, w: Weights, corpus: seq<Recipe>, likes: seq<string>, candidate: Recipe, a: real)
    requires |likes| > 0 && sim.abvScale.None?
    ensures Entry(sim, w.(abv := a), corpus, likes, candidate) == Entry(sim, w, corpus, likes, candidate)
  {
    var t := Totals(sim, corpus, likes, candidate);
    var n := |likes|;
    var avg := Sums(Average(t.name, n), Average(t.ingredients, n), Average(t.major, n), Average(t.minor, n), Average(t.abv, n));
    assert Weighted(avg, w.(abv := a), false) == Weighted(avg, w, false);
  }

  /** The unsorted entries: one per row whose id is not liked, in row order. */
  function ScoreAll(sim: Similarity, w: Weights, corpus: seq<Recipe>, likes: seq<string>, rows: seq<Recipe>): (r: seq<Ranked>)
    requires |likes| > 0 || rows == []
    ensures |r| <= |rows|
    ensures forall e :: e in r ==> e.id !in likes
    ensures forall e :: e in r ==> (e.abv.Some? <==> sim.abvScale.Some?)
    decreases |rows|
  {
    if rows == [] then []
    else
      var init := ScoreAll(sim, w, corpus, likes, rows[..|rows| - 1]);
      var row := rows[|rows| - 1];
      if row.id in likes then init else init + [Entry(sim, w, corpus, likes, row)]
  }

  lemma ScoreAllSnoc(sim: Similarity, w: Weights, corpus: seq<Recipe>, likes: seq<string>, i: nat)
    requires i < |corpus| && |likes| > 0
    ensures ScoreAll(sim, w, corpus, likes, corpus[..i + 1]) ==
      ScoreAll(sim, w, corpus, likes, corpus[..i])
      + (if corpus[i].id in likes then [] else [Entry(sim, w, corpus, likes, corpus[i])])
  {
    assert corpus[..i + 1][..i] == corpus[..i];
  }

  /** Every row whose id is not liked has its entry. */
  lemma {:induction false} ScoreAllComplete(sim: Similarity, w: Weights, corpus: seq<Recipe>, likes: seq<string>, rows: seq<Recipe>, i: nat)
    requires |likes| > 0 && i < |rows| && rows[i].id !in likes
    ensures Entry(sim, w, corpus, likes, rows[i]) in ScoreAll(sim, w, corpus, likes, rows)
    decreases |rows|
  {
    var n := |rows| - 1;
    if i < n {
      assert rows[..n][i] == rows[i];
      ScoreAllComplete(sim, w, corpus, likes, rows[..n], i);
    }
  }

  /** The scores are non-increasing. */
  predicate SortedDesc(xs: seq<Ranked>) {
    forall i, j :: 0 <= i < j < |xs| ==> xs[i].score >= xs[j].score
  }

  /** The entries with score `v`, in order. */
  function WithScore(xs: seq<Ranked>, v: int): seq<Ranked>
    decreases |xs|
  {
    if xs == [] then []
    else (if xs[0].score == v then [xs[0]] else []) + WithScore(xs[1..], v)
  }

  lemma {:induction false} WithScoreAppend(a: seq<Ranked>, b: seq<Ranked>, v: int)
    ensures WithScore(a + b, v) == WithScore(a, v) + WithScore(b, v)
    decreases |a|
  {
    if a == [] {
      assert a + b == b;
    } else {
      var head := if a[0].score == v then [a[0]] else [];
      assert (a + b)[0] == a[0];
      assert (a + b)[1..] == a[1..] + b;
      WithScoreAppend(a[1..], b, v);
      assert WithScore(a + b, v) == head + (WithScore(a[1..], v) + WithScore(b, v));
    }
  }

  lemma {:induction false} WithScoreNone(xs: seq<Ranked>, v: int)
    requires forall i :: 0 <= i < |xs| ==> xs[i].score < v
    ensures WithScore(xs, v) == []
    decreases |xs|
  {
    if xs != [] {
      WithScoreNone(xs[1..], v);
    }
  }

  /** `e` placed after every entry whose score is at least its own. */
  function Insert(s: seq<Ranked>, e: Ranked): (r: seq<Ranked>)
    ensures multiset(r) == multiset(s) + multiset{e}
    decreases |s|
  {
    if s == [] then [e]
    else if s[0].score >= e.score then
      assert s == [s[0]] + s[1..];
      [s[0]] + Insert(s[1..], e)
    else [e] + s
  }

  lemma {:induction false} InsertSorted(s: seq<Ranked>, e: Ranked)
    requires SortedDesc(s)
    ensures SortedDesc(Insert(s, e))
    decreases |s|
  {
    if s != [] && s[0].score >= e.score {
      var t := Insert(s[1..], e);
      assert SortedDesc(s[1..]);
      InsertSorted(s[1..], e);
      forall x | x in t ensures s[0].score >= x.score {
        assert x in multiset(t);
        if x != e {
          assert x in multiset(s[1..]);
          var k :| 0 <= k < |s[1..]| && s[1..][k] == x;
          assert s[k + 1] == x;
        }
      }
      SortedCons(s[0], t);
    }
  }

  lemma SortedCons(h: Ranked, t: seq<Ranked>)
    requires SortedDesc(t)
    requires forall x :: x in t ==> h.score >= x.score
    ensures SortedDesc([h] + t)
  {
    var r := [h] + t;
    forall i, j | 0 <= i < j < |r| ensures r[i].score >= r[j].score {
      assert r[j] == t[j - 1];
      if i > 0 {
        assert r[i] == t[i - 1];
      } else {
        assert t[j - 1] in t;
      }
    }
  }

  lemma {:induction false} InsertWithScore(s: seq<Ranked>, e: Ranked, v: int)
    requires SortedDesc(s)
    ensures WithScore(Insert(s, e), v) == WithScore(s, v) + (if e.score == v then [e] else [])
    decreases |s|
  {
    if s == [] {
      assert WithScore([e], v) == (if e.score == v then [e] else []) + WithScore([], v);
    } else if s[0].score >= e.score {
      InsertWithScore(s[1..], e, v);
      InsertWithScoreBehind(s, e, v);
    } else {
      InsertWithScoreAhead(s, e, v);
    }
  }

  lemma InsertWithScoreBehind(s: seq<Ranked>, e: Ranked, v: int)
    requires s != [] && s[0].score >= e.score
    requires WithScore(Insert(s[1..], e), v) == WithScore(s[1..], v) + (if e.score == v then [e] else [])
    ensures WithScore(Insert(s, e), v) == WithScore(s, v) + (if e.score == v then [e] else [])
  {
    var tail := if e.score == v then [e] else [];
    var head := if s[0].score == v then [s[0]] else [];
    var t := Insert(s[1..], e);
    var x := WithScore(s[1..], v);
    assert Insert(s, e) == [s[0]] + t;
    WithScoreCons(s[0], t, v);
    assert WithScore(s, v) == head + x;
    AppendAssoc(head, x, tail);
  }

  lemma AppendAssoc(a: seq<Ranked>, b: seq<Ranked>, c: seq<Ranked>)
    ensures a + (b + c) == (a + b) + c
  {
  }

  lemma WithScoreCons(h: Ranked, t: seq<Ranked>, v: int)
    ensures WithScore([h] + t, v) == (if h.score == v then [h] else []) + WithScore(t, v)
  {
    assert ([h] + t)[0] == h;
    assert ([h] + t)[1..] == t;
  }

  lemma InsertWithScoreAhead(s: seq<Ranked>, e: Ranked, v: int)
    requires SortedDesc(s) && s != [] && s[0].score < e.score
    ensures WithScore(Insert(s, e), v) == WithScore(s, v) + (if e.score == v then [e] else [])
  {
    assert ([e] + s)[1..] == s;
    if e.score == v {
      WithScoreNone(s, v);
      assert WithScore([e] + s, v) == [e] + [];
    } else {
      assert WithScore([e] + s, v) == [] + WithScore(s, v);
    }
  }

  lemma SnocWithScore(xs: seq<Ranked>, v: int)
    requires xs != []
    ensures WithScore(xs, v) == WithScore(xs[..|xs| - 1], v) + WithScore([xs[|xs| - 1]], v)
  {
    assert xs == xs[..|xs| - 1] + [xs[|xs| - 1]];
    WithScoreAppend(xs[..|xs| - 1], [xs[|xs| - 1]], v);
  }

  /** `sorted(xs, key=score, reverse=True)`: a stable sort, best score first. */
  function SortDesc(xs: seq<Ranked>): (r: seq<Ranked>)
    ensures multiset(r) == multiset(xs)
    decreases |xs|
  {
    if xs == [] then []
    else
      assert xs == xs[..|xs| - 1] + [xs[|xs| - 1]];
      Insert(SortDesc(xs[..|xs| - 1]), xs[|xs| - 1])
  }

  lemma {:induction false} SortDescSorted(xs: seq<Ranked>)
    ensures SortedDesc(SortDesc(xs))
    decreases |xs|
  {
    if xs != [] {
      SortDescSorted(xs[..|xs| - 1]);
      InsertSorted(SortDesc(xs[..|xs| - 1]), xs[|xs| - 1]);
    }
  }

  /** Stability: the entries of each score keep their order. */
  lemma {:induction false} SortDescStable(xs: seq<Ranked>, v: int)
    ensures WithScore(SortDesc(xs), v) == WithScore(xs, v)
    decreases |xs|
  {
    if xs != [] {
      var init := xs[..|xs| - 1];
      var last := xs[|xs| - 1];
      SortDescStable(init, v);
      SortDescSorted(init);
      InsertWithScore(SortDesc(init), last, v);
      SnocWithScore(xs, v);
    }
  }

  /** What `recommend` returns when it returns. */
  function Ranking(sim: Similarity, w: Weights, corpus: seq<Recipe>, likes: seq<string>): seq<Ranked>
    requires |likes| > 0 || corpus == []
  {
    SortDesc(ScoreAll(sim, w, corpus, likes, corpus))
  }

  /** The ranking holds no liked id, is sorted best first, keeps the row order among
      equal scores, and holds the entry of every row that is not liked. */
  lemma RankingFacts(sim: Similarity, w: Weights, corpus: seq<Recipe>, likes: seq<string>)
    requires |likes| > 0 || corpus == []
    ensures var r := Ranking(sim, w, corpus, likes);
      (forall e :: e in r ==> e.id !in likes)
      && SortedDesc(r)
      && (forall v :: WithScore(r, v) == WithScore(ScoreAll(sim, w, corpus, likes, corpus), v))
      && (forall i :: 0 <= i < |corpus| && corpus[i].id !in likes ==> Entry(sim, w, corpus, likes, corpus[i]) in r)
  {
    var all := ScoreAll(sim, w, corpus, likes, corpus);
    var r := Ranking(sim, w, corpus, likes);
    forall e | e in r ensures e.id !in likes {
      assert e in multiset(all);
    }
    SortDescSorted(all);
    forall v ensures WithScore(r, v) == WithScore(all, v) {
      SortDescStable(all, v);
    }
    forall i | 0 <= i < |corpus| && corpus[i].id !in likes
      ensures Entry(sim, w, corpus, likes, corpus[i]) in r
    {
      ScoreAllComplete(sim, w, corpus, likes, corpus, i);
      assert Entry(sim, w, corpus, likes, corpus[i]) in multiset(all);
    }
  }

  /** The inner loop of `recommend`: the similarity totals of one candidate row over the
      liked ids, skipping the ids without a row. */
  method SimilarityTotals(sim: Similarity, corpus: seq<Recipe>, likes: seq<string>, row: Recipe) returns (t: Sums)
    ensures t == Totals(sim, corpus, likes, row)
  {
    var totalName, totalIngredients, totalMajor, totalMinor, totalAbv := 0.0, 0.0, 0.0, 0.0, 0.0;
    for j := 0 to |likes|
      invariant Sums(totalName, totalIngredients, totalMajor, totalMinor, totalAbv)
        == Totals(sim, corpus, likes[..j], row)
    {
      TotalsSnoc(sim, corpus, likes, j, row);
      var liked := Lookup(corpus, likes[j]);
      if liked.None? {
        continue;
      }
      var s := PairSims(sim, liked.value, row);
      totalName := totalName + s.name;
      totalIngredients := totalIngredients + s.ingredients;
      totalMajor := totalMajor + s.major;
      totalMinor := totalMinor + s.minor;
      if sim.abvScale.Some? {
        totalAbv := totalAbv + s.abv;
      }
    }
    assert likes[..|likes|] == likes;
    t := Sums(totalName, totalIngredients, totalMajor, totalMinor, totalAbv);
  }

  /** The body of the row loop of `recommend` for a row that is not liked: the totals,
      their averages over the number of liked ids, and the rounded score. */
  method ScoreRow(sim: Similarity, w: Weights, corpus: seq<Recipe>, likes: seq<string>, row: Recipe) returns (entry: Ranked)
    requires |likes| > 0
    ensures entry == Entry(sim, w, corpus, likes, row)
  {
    var t := SimilarityTotals(sim, corpus, likes, row);
    var n := |likes|;
    var avg := Sums(Average(t.name, n), Average(t.ingredients, n), Average(t.major, n), Average(t.minor, n), Average(t.abv, n));
    var score := RoundHalfEven(100.0 * Weighted(avg, w, sim.abvScale.Some?));
    entry := Ranked(row.id, score, avg.name, avg.ingredients, avg.major,
      avg.minor, if sim.abvScale.Some? then Some(avg.abv) else None);
  }

  /** `recommend`: for every row whose id is not liked, the similarity totals over the
      liked ids, their averages and the score; then the entries sorted best first. With no
      liked ids the first candidate row divides by zero. */
  method Recommend(sim: Similarity, w: Weights, corpus: seq<Recipe>, likes: seq<string>)
    returns (r: Result<seq<Ranked>, RecommendError>)
    ensures r.Err? <==> |likes| == 0 && |corpus| > 0
    ensures r.Err? ==> r.error == DivisionByZero
    ensures r.Ok? ==> r.value == Ranking(sim, w, corpus, likes)
    ensures r.Ok? ==> SortedDesc(r.value) && forall e :: e in r.value ==> e.id !in likes
  {
    var recommendations: seq<Ranked> := [];
    for i := 0 to |corpus|
      invariant |likes| == 0 ==> i == 0 && recommendations == []
      invariant |likes| > 0 ==> recommendations == ScoreAll(sim, w, corpus, likes, corpus[..i])
    {
      var row := corpus[i];
      if |likes| > 0 {
        ScoreAllSnoc(sim, w, corpus, likes, i);
      }
      if row.id in likes {
        continue;
      }
      if |likes| == 0 {
        return Err(DivisionByZero);
      }
      var entry := ScoreRow(sim, w, corpus, likes, row);
      recommendations := recommendations + [entry];
    }
    assert corpus[..|corpus|] == corpus;
    r := Ok(SortDesc(recommendations));
    RankingFacts(sim, w, corpus, likes);
  }

  /** The first `n` entries of a ranking cut down to id and score. */
  function Picks(ranking: seq<Ranked>, n: nat): (r: seq<Pick>)
    requires n <= |ranking|
    ensures |r| == n
    ensures forall i :: 0 <= i < n ==> r[i] == Pick(ranking[i].id, ranking[i].score)
  {
    seq(n, i requires 0 <= i < n => Pick(ranking[i].id, ranking[i].score))
  }

  /** A shorter list of picks is a prefix of a longer one. */
  lemma PicksPrefix(ranking: seq<Ranked>, n: nat, m: nat)
    requires n <= m <= |ranking|
    ensures Picks(ranking, n) == Picks(ranking, m)[..n]
  {
  }

  /** `recommend_recipe`: the first `topN` entries of the ranking as (id, score); no entry
      for `topN <= 0`, and an index error when the ranking is shorter than `topN`. */
  method RecommendRecipe(sim: Similarity, w: Weights, corpus: seq<Recipe>, likes: seq<string>, topN: int)
    returns (r: Result<seq<Pick>, RecommendError>)
    ensures |likes| == 0 && |corpus| > 0 ==> r == Err(DivisionByZero)
    ensures |likes| > 0 || |corpus| == 0 ==>
      var ranking := Ranking(sim, w, corpus, likes);
      (topN > |ranking| ==> r == Err(IndexError))
      && (topN <= |ranking| ==> r == Ok(Picks(ranking, if topN < 0 then 0 else topN)))
  {
    var recommendations := Recommend(sim, w, corpus, likes);
    if recommendations.Err? {
      return Err(recommendations.error);
    }
    var ranking := recommendations.value;
    var list: seq<Pick> := [];
    for i := 0 to (if topN < 0 then 0 else topN)
      invariant i <= |ranking|
      invariant list == Picks(ranking, i)
    {
      if i >= |ranking| {
        return Err(IndexError);
      }
      list := list + [Pick(ranking[i].id, ranking[i].score)];
    }
    r := Ok(list);
  }
}
