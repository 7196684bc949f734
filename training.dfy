/**
 * The weight trainer of the recipe recommender, a hill climber: for each
 * training row one liked id is held out and the others are ranked; when the
 * held-out id misses the top three, the two fields most similar to it gain
 * weight and the two least similar lose weight; then every weight is
 * rescaled towards the band in which the best score lies. The random split
 * and the random held-out position are inputs (a schedule), and the test
 * table is read by the caller.
 */
module Training {
  import opened Wrappers
  import opened Features
  import opened Scoring

  /** The exceptions a training row can raise: the ranking is empty (`recommendations[0]`),
      or the held-out id is nowhere in it (`next` finds nothing). */
  datatype TrainError = EmptyRanking | LabelNotRanked

  /** The lowest weight the trainer aims for. */
  const MinWeight: real := 0.01

  /** A weight the trainer keeps: between 0.01 and 1. */
  predicate Between(x: real) {
    MinWeight <= x <= 1.0
  }

  /** The number of fields that take part: four, or five with the abv scaler. */
  function FieldCount(hasScaler: bool): nat {
    if hasScaler then 5 else 4
  }

  predicate InRange(w: Weights, hasScaler: bool) {
    Between(w.name) && Between(w.ingredients) && Between(w.major) && Between(w.minor)
    && (hasScaler ==> Between(w.abv))
  }

  /** Every weight taking part in `v` is at most the one in `w`. */
  predicate AtMost(v: Weights, w: Weights, hasScaler: bool) {
    v.name <= w.name && v.ingredients <= w.ingredients && v.major <= w.major && v.minor <= w.minor
    && (hasScaler ==> v.abv <= w.abv)
  }

  /** `w += lr * (1 - w)`: a step towards 1 that does not pass it. */
  function NudgeUp(w: real, lr: real): (r: real)
    ensures 0.0 <= lr <= 1.0 && w <= 1.0 ==> w <= r <= 1.0
  {
    ProductBelow(lr, 1.0 - w);
    w + lr * (1.0 - w)
  }

  /** `w -= lr * (w - 0.01)`: a step towards 0.01 that does not pass it. */
  function NudgeDown(w: real, lr: real): (r: real)
    ensures 0.0 <= lr <= 1.0 && MinWeight <= w ==> MinWeight <= r <= w
  {
    var d := w - MinWeight;
    ProductBelow(lr, d);
    w - lr * d
  }

  lemma ProductBelow(a: real, b: real)
    ensures 0.0 <= a <= 1.0 && 0.0 <= b ==> 0.0 <= a * b <= b
  {
    if 0.0 <= a <= 1.0 && 0.0 <= b {
      assert a * b <= 1.0 * b;
    }
  }

  /** The similarities of an entry in field order; the abv one only when present. */
  function Sims(e: Ranked): (s: seq<real>)
    ensures |s| == if e.abv.Some? then 5 else 4
  {
    [e.name, e.ingredients, e.major, e.minor] + (if e.abv.Some? then [e.abv.value] else [])
  }

  /** `a` is strictly ahead of `b`: greater when sorting by `higher`, smaller otherwise. */
  predicate Ahead(a: real, b: real, higher: bool) {
    if higher then a > b else a < b
  }

  /** Among the positions below `n` other than `skip`, the first one whose value no other
      is ahead of; -1 when there is no such position. */
  function FirstBest(s: seq<real>, skip: int, higher: bool, n: nat): (k: int)
    requires n <= |s|
    ensures -1 <= k < n && (k >= 0 ==> k != skip)
    ensures k == -1 <==> n == 0 || (n == 1 && skip == 0)
    ensures k >= 0 ==> forall j :: 0 <= j < n && j != skip ==> !Ahead(s[j], s[k], higher)
    ensures k >= 0 ==> forall j :: 0 <= j < k && j != skip ==> Ahead(s[k], s[j], higher)
    decreases n
  {
    if n == 0 then -1
    else
      var k := FirstBest(s, skip, higher, n - 1);
      if n - 1 == skip then k
      else if k == -1 || Ahead(s[n - 1], s[k], higher) then n - 1
      else k
  }

  /** The fields of the first two pairs of `sorted(enumerate(s), key=value)` (with
      `reverse=True` when `higher`): a stable sort puts first the earliest best position,
      then the earliest best of the rest. */
  function TwoBest(s: seq<real>, higher: bool): (r: seq<nat>)
    requires |s| >= 2
    ensures |r| == 2 && r[0] < |s| && r[1] < |s| && r[0] != r[1]
    ensures forall j :: 0 <= j < |s| ==> !Ahead(s[j], s[r[0]], higher)
    ensures forall j :: 0 <= j < r[0] ==> Ahead(s[r[0]], s[j], higher)
    ensures forall j :: 0 <= j < |s| && j != r[0] ==> !Ahead(s[j], s[r[1]], higher)
    ensures forall j :: 0 <= j < r[1] && j != r[0] ==> Ahead(s[r[1]], s[j], higher)
  {
    var a := FirstBest(s, -1, higher, |s|);
    var b := FirstBest(s, a, higher, |s|);
    [a as nat, b as nat]
  }

  /** With all similarities equal, fields 0 and 1 are both the top two and the bottom two,
      so they are raised and then lowered. */
  lemma {:induction false} TiesPickFirstTwo(s: seq<real>)
    requires |s| >= 2
    requires forall j :: 0 <= j < |s| ==> s[j] == s[0]
    ensures TwoBest(s, true) == [0, 1] && TwoBest(s, false) == [0, 1]
  {
    var top := TwoBest(s, true);
    var bottom := TwoBest(s, false);
    assert !Ahead(s[top[0]], s[0], true) && !Ahead(s[top[1]], s[1], true);
    assert !Ahead(s[bottom[0]], s[0], false) && !Ahead(s[bottom[1]], s[1], false);
  }

  /** The loop over `top_2`: each field in turn nudged up. */
  function Raise(w: Weights, fields: seq<nat>, lr: real): Weights
    decreases |fields|
  {
    if fields == [] then w
    else
      var f := fields[|fields| - 1];
      var v := Raise(w, fields[..|fields| - 1], lr);
      v.Set(f, NudgeUp(v.Get(f), lr))
  }

  /** The loop over `bottom_2`: each field in turn nudged down. */
  function Lower(w: Weights, fields: seq<nat>, lr: real): Weights
    decreases |fields|
  {
    if fields == [] then w
    else
      var f := fields[|fields| - 1];
      var v := Lower(w, fields[..|fields| - 1], lr);
      v.Set(f, NudgeDown(v.Get(f), lr))
  }

  lemma RaiseSnoc(w: Weights, fields: seq<nat>, t: nat, lr: real)
    requires t < |fields|
    ensures var v := Raise(w, fields[..t], lr);
      Raise(w, fields[..t + 1], lr) == v.Set(fields[t], NudgeUp(v.Get(fields[t]), lr))
  {
    assert fields[..t + 1][..t] == fields[..t];
  }

  lemma LowerSnoc(w: Weights, fields: seq<nat>, t: nat, lr: real)
    requires t < |fields|
    ensures var v := Lower(w, fields[..t], lr);
      Lower(w, fields[..t + 1], lr) == v.Set(fields[t], NudgeDown(v.Get(fields[t]), lr))
  {
    assert fields[..t + 1][..t] == fields[..t];
  }

  /** Nudging the fields the entry is most and least similar in. */
  function Nudge(w: Weights, e: Ranked, lr: real): Weights {
    var s := Sims(e);
    Lower(Raise(w, TwoBest(s, true), lr), TwoBest(s, false), lr)
  }

  /** Fields taking part keep their range under both nudges, and without a scaler the abv
      weight stays (`NudgeGet` gives every weight exactly). */
  lemma {:induction false} RaiseKeepsRange(w: Weights, fields: seq<nat>, lr: real, hasScaler: bool)
    requires InRange(w, hasScaler) && 0.0 <= lr <= 1.0
    requires forall i :: 0 <= i < |fields| ==> fields[i] < FieldCount(hasScaler)
    ensures InRange(Raise(w, fields, lr), hasScaler)
    ensures !hasScaler ==> Raise(w, fields, lr).abv == w.abv
    decreases |fields|
  {
    if fields != [] {
      RaiseKeepsRange(w, fields[..|fields| - 1], lr, hasScaler);
    }
  }

  lemma {:induction false} LowerKeepsRange(w: Weights, fields: seq<nat>, lr: real, hasScaler: bool)
    requires InRange(w, hasScaler) && 0.0 <= lr <= 1.0
    requires forall i :: 0 <= i < |fields| ==> fields[i] < FieldCount(hasScaler)
    ensures InRange(Lower(w, fields, lr), hasScaler)
    ensures !hasScaler ==> Lower(w, fields, lr).abv == w.abv
    decreases |fields|
  {
    if fields != [] {
      LowerKeepsRange(w, fields[..|fields| - 1], lr, hasScaler);
    }
  }

  /** After the raising loop a field keeps its weight unless it is one of the fields
      raised, and a raised field is nudged up once. */
  lemma {:induction false} RaiseGet(w: Weights, fields: seq<nat>, lr: real, f: nat)
    requires f <= 4
    requires forall i, j :: 0 <= i < j < |fields| ==> fields[i] != fields[j]
    ensures Raise(w, fields, lr).Get(f) == if f in fields then NudgeUp(w.Get(f), lr) else w.Get(f)
    decreases |fields|
  {
    if fields != [] {
      var init := fields[..|fields| - 1];
      RaiseGet(w, init, lr, f);
      LastNotEarlier(fields, f);
    }
  }

  lemma {:induction false} LowerGet(w: Weights, fields: seq<nat>, lr: real, f: nat)
    requires f <= 4
    requires forall i, j :: 0 <= i < j < |fields| ==> fields[i] != fields[j]
    ensures Lower(w, fields, lr).Get(f) == if f in fields then NudgeDown(w.Get(f), lr) else w.Get(f)
    decreases |fields|
  {
    if fields != [] {
      var init := fields[..|fields| - 1];
      LowerGet(w, init, lr, f);
      LastNotEarlier(fields, f);
    }
  }

  /** In a list without repeats, `f` is in the list iff it is in its front or is its last
      element, and not both. */
  lemma LastNotEarlier(fields: seq<nat>, f: nat)
    requires fields != []
    requires forall i, j :: 0 <= i < j < |fields| ==> fields[i] != fields[j]
    ensures var init := fields[..|fields| - 1]; var g := fields[|fields| - 1];
      (f in fields <==> f in init || f == g) && (f == g ==> f !in init)
  {
    var init := fields[..|fields| - 1];
    assert fields == init + [fields[|fields| - 1]];
    if f in init {
      var i :| 0 <= i < |init| && init[i] == f;
      assert fields[i] == f;
    }
  }

  /** Every weight after the two nudging loops: a field in neither the top two nor the
      bottom two keeps its weight, one in the top two only is nudged up, one in the bottom
      two only is nudged down, and one in both is nudged up and then down. */
  lemma NudgeGet(w: Weights, e: Ranked, lr: real, f: nat)
    requires f <= 4
    ensures var s := Sims(e);
      var top := TwoBest(s, true);
      var bottom := TwoBest(s, false);
      var v := w.Get(f);
      Nudge(w, e, lr).Get(f)
        == if f in top && f in bottom then NudgeDown(NudgeUp(v, lr), lr)
           else if f in top then NudgeUp(v, lr)
           else if f in bottom then NudgeDown(v, lr)
           else v
  {
    var s := Sims(e);
    var top := TwoBest(s, true);
    var bottom := TwoBest(s, false);
    RaiseGet(w, top, lr, f);
    LowerGet(Raise(w, top, lr), bottom, lr, f);
  }

  lemma TwoBestFields(s: seq<real>, higher: bool, hasScaler: bool)
    requires |s| == FieldCount(hasScaler)
    ensures forall i :: 0 <= i < 2 ==> TwoBest(s, higher)[i] < FieldCount(hasScaler)
  {
  }

  lemma NudgeKeepsRange(w: Weights, e: Ranked, lr: real, hasScaler: bool)
    requires InRange(w, hasScaler) && 0.0 <= lr <= 1.0
    requires e.abv.Some? <==> hasScaler
    ensures InRange(Nudge(w, e, lr), hasScaler)
    ensures !hasScaler ==> Nudge(w, e, lr).abv == w.abv
  {
    var s := Sims(e);
    var top := TwoBest(s, true);
    var bottom := TwoBest(s, false);
    TwoBestFields(s, true, hasScaler);
    TwoBestFields(s, false, hasScaler);
    RaiseKeepsRange(w, top, lr, hasScaler);
    LowerKeepsRange(Raise(w, top, lr), bottom, lr, hasScaler);
  }

  /** `w *= factor` then `w = max(w, 0.01)`. */
  function ShrinkTo(w: real, factor: real): (r: real)
    ensures MinWeight <= r
    ensures Between(w) && 0.0 < factor <= 1.0 ==> r <= w
  {
    ProductBelow(factor, w);
    var v := w * factor;
    if v < MinWeight then MinWeight else v
  }

  /** `w *= factor` then `w = min(w, 1)`. */
  function GrowTo(w: real, factor: real): (r: real)
    ensures r <= 1.0
    ensures Between(w) && factor >= 1.0 ==> w <= r
  {
    ProductAbove(factor, w);
    var v := w * factor;
    if v > 1.0 then 1.0 else v
  }

  lemma ProductAbove(a: real, b: real)
    ensures a >= 1.0 && b >= 0.0 ==> a * b >= b
  {
    if a >= 1.0 && b >= 0.0 {
      assert a * b >= 1.0 * b;
    }
  }

  /** The score-band step on the best score `p`: above 100 every weight shrinks by 100/p
      (floored at 0.01), at 50 or below every weight grows by 1 + (60 - p)/100 (capped at
      1), in between nothing changes. The abv weight takes part only with a scaler. */
  function Band(w: Weights, p: int, hasScaler: bool): Weights {
    if p > 100 then
      var factor := 100.0 / p as real;
      Weights(ShrinkTo(w.name, factor), ShrinkTo(w.ingredients, factor), ShrinkTo(w.major, factor),
        ShrinkTo(w.minor, factor), if hasScaler then ShrinkTo(w.abv, factor) else w.abv)
    else if p <= 50 then
      var factor := 1.0 + (60 - p) as real / 100.0;
      Weights(GrowTo(w.name, factor), GrowTo(w.ingredients, factor), GrowTo(w.major, factor),
        GrowTo(w.minor, factor), if hasScaler then GrowTo(w.abv, factor) else w.abv)
    else w
  }

  /** The band step keeps the range; above 100 no weight grows, at 50 or below none
      shrinks, in between none moves, and without a scaler the abv weight stays. */
  lemma BandFacts(w: Weights, p: int, hasScaler: bool)
    requires InRange(w, hasScaler)
    ensures var r := Band(w, p, hasScaler);
      InRange(r, hasScaler)
      && (p > 100 ==> AtMost(r, w, hasScaler))
      && (p <= 50 ==> AtMost(w, r, hasScaler))
      && (50 < p <= 100 ==> r == w)
      && (!hasScaler ==> r.abv == w.abv)
  {
    if p > 100 {
      assert 0.0 < 100.0 / p as real <= 1.0;
    } else if p <= 50 {
      assert 1.0 + (60 - p) as real / 100.0 >= 1.0;
    }
  }

  /** `[rec[0] for rec in recommendations[:3]]`. */
  function TopThreeIds(recs: seq<Ranked>): seq<string> {
    var n := if |recs| < 3 then |recs| else 3;
    seq(n, k requires 0 <= k < n => recs[k].id)
  }

  /** What a training step reads: the similarities, the corpus and the learning rate. */
  datatype Model = Model(sim: Similarity, corpus: seq<Recipe>, lr: real)

  /** One training row: the non-empty ids of a table row, one of them held out at position
      `draw % n`, the others ranked. */
  function RowStep(m: Model, w: Weights, liked: seq<string>, draw: nat): Result<Weights, TrainError> {
    if |liked| <= 1 then Ok(w)
    else
      var idx := draw % |liked|;
      var y := liked[idx];
      var x := liked[..idx] + liked[idx + 1..];
      var recs := Ranking(m.sim, w, m.corpus, x);
      var hasScaler := m.sim.abvScale.Some?;
      if recs == [] then Err(EmptyRanking)
      else if y in TopThreeIds(recs) then Ok(Band(w, recs[0].score, hasScaler))
      else
        var k := FirstWith(recs, RankedId, y);
        if k < 0 then Err(LabelNotRanked)
        else Ok(Band(Nudge(w, recs[k], m.lr), recs[0].score, hasScaler))
  }

  /** A training row keeps the weights in range, and without a scaler leaves the abv
      weight alone. */
  lemma RowStepKeepsRange(m: Model, w: Weights, liked: seq<string>, draw: nat)
    requires InRange(w, m.sim.abvScale.Some?) && 0.0 <= m.lr <= 1.0
    ensures var r := RowStep(m, w, liked, draw);
      r.Ok? ==> InRange(r.value, m.sim.abvScale.Some?) && (m.sim.abvScale.None? ==> r.value.abv == w.abv)
  {
    var hasScaler := m.sim.abvScale.Some?;
    if |liked| > 1 {
      var idx := draw % |liked|;
      var y := liked[idx];
      var x := liked[..idx] + liked[idx + 1..];
      var recs := Ranking(m.sim, w, m.corpus, x);
      if recs != [] {
        if y in TopThreeIds(recs) {
          BandFacts(w, recs[0].score, hasScaler);
        } else {
          var k := FirstWith(recs, RankedId, y);
          if k >= 0 {
            RankingEntriesHaveAbv(m.sim, w, m.corpus, x);
            NudgeKeepsRange(w, recs[k], m.lr, hasScaler);
            BandFacts(Nudge(w, recs[k], m.lr), recs[0].score, hasScaler);
          }
        }
      }
    }
  }

  /** Every entry of a ranking carries an abv similarity exactly when there is a scaler. */
  lemma RankingEntriesHaveAbv(sim: Similarity, w: Weights, corpus: seq<Recipe>, likes: seq<string>)
    requires |likes| > 0 || corpus == []
    ensures forall e :: e in Ranking(sim, w, corpus, likes) ==> (e.abv.Some? <==> sim.abvScale.Some?)
  {
    var all := ScoreAll(sim, w, corpus, likes, corpus);
    forall e | e in Ranking(sim, w, corpus, likes) ensures e.abv.Some? <==> sim.abvScale.Some? {
      assert e in multiset(all);
    }
  }

  /** The two loops of `train_weight` over `top_2` and `bottom_2`. */
  method NudgeWeights(w0: Weights, e: Ranked, lr: real) returns (w: Weights)
    ensures w == Nudge(w0, e, lr)
  {
    var similarities := Sims(e);
    var top2 := TwoBest(similarities, true);
    var bottom2 := TwoBest(similarities, false);
    w := w0;
    for t := 0 to |top2|
      invariant w == Raise(w0, top2[..t], lr)
    {
      RaiseSnoc(w0, top2, t, lr);
      w := w.Set(top2[t], NudgeUp(w.Get(top2[t]), lr));
    }
    assert top2[..|top2|] == top2;
    var raised := w;
    for t := 0 to |bottom2|
      invariant w == Lower(raised, bottom2[..t], lr)
    {
      LowerSnoc(raised, bottom2, t, lr);
      w := w.Set(bottom2[t], NudgeDown(w.Get(bottom2[t]), lr));
    }
    assert bottom2[..|bottom2|] == bottom2;
  }

  /** The body of the row loop of `train_weight`. */
  method TrainRow(m: Model, w0: Weights, liked: seq<string>, draw: nat) returns (r: Result<Weights, TrainError>)
    ensures r == RowStep(m, w0, liked, draw)
  {
    if |liked| <= 1 {
      return Ok(w0);
    }
    var idx := draw % |liked|;
    var y := liked[idx];
    var x := liked[..idx] + liked[idx + 1..];
    var recommendations := Recommend(m.sim, w0, m.corpus, x);
    var recs := recommendations.value;
    var top3 := TopThreeIds(recs);
    if |recs| == 0 {
      return Err(EmptyRanking);
    }
    var predicted := recs[0].score;
    var w := w0;
    if y !in top3 {
      var k := FirstWith(recs, RankedId, y);
      if k < 0 {
        return Err(LabelNotRanked);
      }
      w := NudgeWeights(w0, recs[k], m.lr);
    }
    w := Band(w, predicted, m.sim.abvScale.Some?);
    r := Ok(w);
  }

  /** Which table row is trained and the random draw for its held-out position. */
  datatype TrainingRow = TrainingRow(row: nat, draw: nat)

  predicate ValidSchedule(schedule: seq<seq<TrainingRow>>, rows: nat) {
    forall e, k :: 0 <= e < |schedule| && 0 <= k < |schedule[e]| ==> schedule[e][k].row < rows
  }

  /** The rows of one epoch from the `k`-th on, stopping at the first error. */
  function RowsFrom(m: Model, table: seq<seq<Option<string>>>, w: Weights, rows: seq<TrainingRow>, k: nat): Result<Weights, TrainError>
    requires k <= |rows|
    requires forall i :: 0 <= i < |rows| ==> rows[i].row < |table|
    decreases |rows| - k
  {
    if k == |rows| then Ok(w)
    else match RowStep(m, w, Present(table[rows[k].row]), rows[k].draw)
      case Err(e) => Err(e)
      case Ok(next) => RowsFrom(m, table, next, rows, k + 1)
  }

  /** The epochs from the `e`-th on, stopping at the first error. */
  function EpochsFrom(m: Model, table: seq<seq<Option<string>>>, w: Weights, schedule: seq<seq<TrainingRow>>, e: nat): Result<Weights, TrainError>
    requires e <= |schedule| && ValidSchedule(schedule, |table|)
    decreases |schedule| - e
  {
    if e == |schedule| then Ok(w)
    else match RowsFrom(m, table, w, schedule[e], 0)
      case Err(err) => Err(err)
      case Ok(next) => EpochsFrom(m, table, next, schedule, e + 1)
  }

  lemma {:induction false} RowsFromKeepsRange(m: Model, table: seq<seq<Option<string>>>, w: Weights, rows: seq<TrainingRow>, k: nat)
    requires k <= |rows|
    requires forall i :: 0 <= i < |rows| ==> rows[i].row < |table|
    requires InRange(w, m.sim.abvScale.Some?) && 0.0 <= m.lr <= 1.0
    ensures var r := RowsFrom(m, table, w, rows, k);
      r.Ok? ==> InRange(r.value, m.sim.abvScale.Some?) && (m.sim.abvScale.None? ==> r.value.abv == w.abv)
    decreases |rows| - k
  {
    if k < |rows| {
      var step := RowStep(m, w, Present(table[rows[k].row]), rows[k].draw);
      RowStepKeepsRange(m, w, Present(table[rows[k].row]), rows[k].draw);
      if step.Ok? {
        RowsFromKeepsRange(m, table, step.value, rows, k + 1);
      }
    }
  }

  lemma {:induction false} EpochsFromKeepsRange(m: Model, table: seq<seq<Option<string>>>, w: Weights, schedule: seq<seq<TrainingRow>>, e: nat)
    requires e <= |schedule| && ValidSchedule(schedule, |table|)
    requires InRange(w, m.sim.abvScale.Some?) && 0.0 <= m.lr <= 1.0
    ensures var r := EpochsFrom(m, table, w, schedule, e);
      r.Ok? ==> InRange(r.value, m.sim.abvScale.Some?) && (m.sim.abvScale.None? ==> r.value.abv == w.abv)
    decreases |schedule| - e
  {
    if e < |schedule| {
      var epoch := RowsFrom(m, table, w, schedule[e], 0);
      RowsFromKeepsRange(m, table, w, schedule[e], 0);
      if epoch.Ok? {
        EpochsFromKeepsRange(m, table, epoch.value, schedule, e + 1);
      }
    }
  }

  /** What `train_weight` returns: four `None`s for an unknown index, otherwise the
      weights, with `None` for abv when there is no scaler. */
  datatype Outcome =
    | UnknownIndex
    | Trained(name: real, ingredients: real, major: real, minor: real, abv: Option<real>)

  /** The outcome of `train_weight` on a test table of names, given its schedule. */
  function Train(index: string, m: Model, testData: seq<seq<Option<string>>>, init: Weights, schedule: seq<seq<TrainingRow>>): Result<Outcome, TrainError>
    requires ValidSchedule(schedule, |testData|)
  {
    if index != "cocktail" && index != "food" then Ok(UnknownIndex)
    else
      var table := ConvertNamesToIds(testData, m.corpus);
      match EpochsFrom(m, table, init, schedule, 0)
      case Err(err) => Err(err)
      case Ok(w) => Ok(Trained(w.name, w.ingredients, w.major, w.minor,
                               if m.sim.abvScale.Some? then Some(w.abv) else None))
  }

  /** Weights that start in [0.01, 1] end there when the learning rate is in [0, 1]. */
  lemma TrainKeepsRange(index: string, m: Model, testData: seq<seq<Option<string>>>, init: Weights, schedule: seq<seq<TrainingRow>>)
    requires ValidSchedule(schedule, |testData|)
    requires InRange(init, m.sim.abvScale.Some?) && 0.0 <= m.lr <= 1.0
    ensures var r := Train(index, m, testData, init, schedule);
      r.Ok? && r.value.Trained? ==>
        Between(r.value.name) && Between(r.value.ingredients) && Between(r.value.major)
        && Between(r.value.minor) && (r.value.abv.Some? ==> Between(r.value.abv.value))
        && (r.value.abv.Some? <==> m.sim.abvScale.Some?)
  {
    if index == "cocktail" || index == "food" {
      var table := ConvertNamesToIds(testData, m.corpus);
      EpochsFromKeepsRange(m, table, init, schedule, 0);
      var r := EpochsFrom(m, table, init, schedule, 0);
    }
  }

  /** The weights file `save_weights` writes: its name and its record. */
  datatype SavedWeights = SavedWeights(fileName: string, record: map<string, Option<real>>)

  /** The file `save_weights` names: the cocktail file for "cocktail", the food file for
      any other index. */
  function SaveFileName(index: string): string {
    if index == "cocktail" then "cocktail_weights.json" else "food_weights.json"
  }

  /** The file `load_weights_from_json` reads. */
  function LoadFileName(index: string): string {
    index + "_weights.json"
  }

  /** Weights saved for an index are read back from the same file exactly for the two
      known indexes. */
  lemma FileNamesAgree(index: string)
    ensures SaveFileName(index) == LoadFileName(index) <==> index == "cocktail" || index == "food"
  {
    if index != "cocktail" && SaveFileName(index) == LoadFileName(index) {
      var saved := "food_weights.json";
      assert |saved| == 17 && |index + "_weights.json"| == |index| + 13;
      assert index == (index + "_weights.json")[..|index|];
      assert saved[..4] == "food";
    }
  }

  function SaveWeights(index: string, name: real, ingredients: real, major: real, minor: real, abv: Option<real>): (r: SavedWeights)
    ensures r.fileName == SaveFileName(index)
    ensures r.record.Keys == {"weight_name", "weight_ingredients", "weight_major", "weight_minor", "weight_abv"}
    ensures r.record["weight_name"] == Some(name) && r.record["weight_ingredients"] == Some(ingredients)
    ensures r.record["weight_major"] == Some(major) && r.record["weight_minor"] == Some(minor)
    ensures r.record["weight_abv"] == abv
  {
    SavedWeights(SaveFileName(index), map[
      "weight_name" := Some(name),
      "weight_ingredients" := Some(ingredients),
      "weight_major" := Some(major),
      "weight_minor" := Some(minor),
      "weight_abv" := abv])
  }

  /** `train_weight`: the test table's names turned into ids, then the epochs of the
      schedule (one list of rows per epoch, each row with its draw) one row at a time, then
      the weights saved. `epochs` below 0 runs no epoch. */
  method TrainWeight(index: string, m: Model, testData: seq<seq<Option<string>>>, init: Weights,
                     epochs: int, schedule: seq<seq<TrainingRow>>)
    returns (r: Result<Outcome, TrainError>, saved: Option<SavedWeights>)
    requires |schedule| == if epochs < 0 then 0 else epochs
    requires ValidSchedule(schedule, |testData|)
    ensures r == Train(index, m, testData, init, schedule)
    ensures saved.Some? <==> r.Ok? && r.value.Trained?
    ensures saved.Some? ==> saved.value == SaveWeights(index, r.value.name, r.value.ingredients,
      r.value.major, r.value.minor, r.value.abv)
  {
    if index != "cocktail" && index != "food" {
      return Ok(UnknownIndex), None;
    }
    var table := ConvertNamesToIds(testData, m.corpus);
    var w := init;
    for e := 0 to |schedule|
      invariant EpochsFrom(m, table, init, schedule, 0) == EpochsFrom(m, table, w, schedule, e)
    {
      var rows := schedule[e];
      var start := w;
      for k := 0 to |rows|
        invariant RowsFrom(m, table, start, rows, 0) == RowsFrom(m, table, w, rows, k)
      {
        var liked := Present(table[rows[k].row]);
        var next := TrainRow(m, w, liked, rows[k].draw);
        if next.Err? {
          return Err(next.error), None;
        }
        w := next.value;
      }
    }
    var abv := if m.sim.abvScale.Some? then Some(w.abv) else None;
    r := Ok(Trained(w.name, w.ingredients, w.major, w.minor, abv));
    saved := Some(SaveWeights(index, w.name, w.ingredients, w.major, w.minor, abv));
  }
}
