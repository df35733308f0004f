/** The learned risk field: prediction, online learning, and the migration of
    released four-statistic fields to the ten-statistic layout. */
module Risk {
  import opened Collections
  import opened MemoryNodes

  const USIZE_MAX: nat := 0xFFFF_FFFF_FFFF_FFFF

  function Zeros(n: nat): Vector { seq(n, _ => 0.0) }

  function CheckedAdd(a: nat, b: nat): Option<nat> { if a + b <= USIZE_MAX then Some(a + b) else None }

  function CheckedMul(a: nat, b: nat): Option<nat> { if a * b <= USIZE_MAX then Some(a * b) else None }

  /** A field's parameters. */
  datatype Layout = Layout(d: nat, channels: nat, stats: nat, weights: Vector, bias: real, rate: real)

  /** Library mathematics: the Euclidean norm and the logistic function. */
  datatype Calculus = Calculus(norm: Vector -> real, sigmoid: real -> real, small: real)
  {
    ghost predicate Valid() { forall x: real :: 0.0 < sigmoid(x) < 1.0 }

    function Div(x: real, y: real): real { if y == 0.0 then 0.0 else x / y }
  }

  function Normalized(m: Calculus, activated: Vector): (r: Vector)
    ensures |r| == |activated|
  {
    seq(|activated|, i requires 0 <= i < |activated| => m.Div(activated[i], m.norm(activated) + m.small))
  }

  /** `affect_features`: raw for released fields, normalised for newer ones, and
      both for migrated ones. */
  function AffectFeatures(m: Calculus, f: Layout, activated: Vector): Result<Vector> {
    var expected := if f.stats == 10 then f.channels / 2 else f.channels;
    if |activated| != expected then Err("dimension")
    else if f.stats == 4 then Ok(activated)
    else Ok(Normalized(m, activated) + if f.stats == 10 then activated else [])
  }

  /** `features`. */
  function Features(m: Calculus, f: Layout, x: Vector, feeling: Vector, stats: Vector): Result<Vector> {
    if |x| != f.d then Err("dimension")
    else
      var felt :=
        if f.stats == 10 && CheckedMul(|feeling|, 2) == Some(f.channels)
          then AffectFeatures(m, f, feeling) else Ok(feeling);
      if felt.Err? then Err(felt.error)
      else if |felt.value| != f.channels then Err("dimension")
      else
        var seen := if f.stats == 10 && |stats| == 4 then Zeros(6) + stats else stats;
        if |seen| != f.stats then Err("dimension") else Ok(x + felt.value + seen)
  }

  /** A vector scaled to about unit length: each coordinate over the norm and a little more. */
  ghost predicate Normalizes(m: Calculus, activated: Vector, unit: Vector) {
    var length := m.norm(activated) + m.small;
    |unit| == |activated| && (length != 0.0 ==> forall i | 0 <= i < |unit| :: unit[i] * length == activated[i])
  }

  /** Released fields read affect as it is, newer ones normalised, migrated ones both ways. */
  lemma AffectExactly(m: Calculus, f: Layout, activated: Vector)
    ensures AffectFeatures(m, f, activated).Ok?
      <==> |activated| == (if f.stats == 10 then f.channels / 2 else f.channels)
    ensures AffectFeatures(m, f, activated).Ok? ==> var felt := AffectFeatures(m, f, activated).value;
      && (f.stats == 4 ==> felt == activated)
      && (f.stats != 4 && f.stats != 10 ==> Normalizes(m, activated, felt))
      && (f.stats == 10 ==>
            && |felt| == |activated| + |activated| && felt[|activated|..] == activated
            && Normalizes(m, activated, felt[..|activated|]))
  {
  }

  /** The inputs a field of ten statistics also takes from before its migration. */
  predicate Compatible(f: Layout, felt: nat) { f.stats == 10 && felt + felt == f.channels <= USIZE_MAX }

  predicate Accepts(f: Layout, x: nat, felt: nat, stats: nat) {
    && x == f.d && (felt == f.channels || Compatible(f, felt)) && (stats == f.stats || (f.stats == 10 && stats == 4))
  }

  /** The vector a field reads: the state, the affect and the statistics, those from
      before a migration in their old place. */
  ghost predicate Reads(m: Calculus, f: Layout, x: Vector, feeling: Vector, stats: Vector, features: Vector) {
    && |features| == f.d + f.channels + f.stats && features[..f.d] == x
    && (var felt, seen := features[f.d..f.d + f.channels], features[f.d + f.channels..];
        && (if !Compatible(f, |feeling|) then felt == feeling
            else felt[|feeling|..] == feeling && Normalizes(m, feeling, felt[..|feeling|]))
        && (if f.stats != 10 || |stats| != 4 then seen == stats
            else seen[6..] == stats && forall i | 0 <= i < 6 :: seen[i] == 0.0))
  }

  lemma FeaturesExactly(m: Calculus, f: Layout, x: Vector, feeling: Vector, stats: Vector)
    ensures Features(m, f, x, feeling, stats).Ok? <==> Accepts(f, |x|, |feeling|, |stats|)
    ensures Features(m, f, x, feeling, stats).Ok? ==>
      Reads(m, f, x, feeling, stats, Features(m, f, x, feeling, stats).value)
  {
    hide Normalizes, AffectFeatures;
    AffectExactly(m, f, feeling);
    if Features(m, f, x, feeling, stats).Ok? {
      var features := Features(m, f, x, feeling, stats).value;
      var felt := if Compatible(f, |feeling|) then AffectFeatures(m, f, feeling).value else feeling;
      var seen := if f.stats == 10 && |stats| == 4 then Zeros(6) + stats else stats;
      assert features == x + felt + seen;
      assert features[..f.d] == x && features[f.d..f.d + f.channels] == felt && features[f.d + f.channels..] == seen;
    }
  }

  function Score(f: Layout, features: Vector): real { Dot(f.weights, features) + f.bias }

  function Predict(m: Calculus, f: Layout, x: Vector, feeling: Vector, stats: Vector): Result<real> {
    var features := Features(m, f, x, feeling, stats);
    if features.Err? then Err(features.error) else Ok(m.sigmoid(Score(f, features.value)))
  }

  // ----- Migration -----

  /** What the upgrade accepts: the declared shape, and a known one. */
  predicate Upgradable(f: Layout, d: nat, channels: nat, declared: nat) {
    var stored := if declared == 10 then channels * 2 else channels;
    && d + stored + declared <= USIZE_MAX
    && f.d == d && f.channels == stored && f.stats == declared && |f.weights| == d + stored + declared
    && (declared == 4 || declared == 6 || declared == 10) && f.rate >= 0.0
  }

  /** A released field with its new coordinates at zero. */
  function Migrated(f: Layout): Layout
    requires |f.weights| == f.d + f.channels + 4
  {
    var x, affect, stats := f.weights[..f.d], f.weights[f.d..f.d + f.channels], f.weights[f.d + f.channels..];
    f.(channels := f.channels * 2, stats := 10, weights := x + Zeros(f.channels) + affect + Zeros(6) + stats)
  }

  lemma MigratedParts(f: Layout)
    requires |f.weights| == f.d + f.channels + 4
    ensures Migrated(f) == Layout(f.d, f.channels * 2, 10,
      f.weights[..f.d] + Zeros(f.channels) + f.weights[f.d..f.d + f.channels] + Zeros(6)
        + f.weights[f.d + f.channels..],
      f.bias, f.rate)
  {
  }

  // ----- Inner products of concatenations -----

  lemma {:induction false} DotConcat(a: Vector, b: Vector, c: Vector, d: Vector)
    requires |a| == |c|
    ensures Dot(a + b, c + d) == Dot(a, c) + Dot(b, d)
    decreases |a|
  {
    if a == [] {
      assert a + b == b && c + d == d;
    } else {
      DotConcat(a[1..], b, c[1..], d);
      assert (a + b)[1..] == a[1..] + b && (c + d)[1..] == c[1..] + d;
    }
  }

  lemma {:induction false} DotZeros(n: nat, v: Vector)
    ensures Dot(Zeros(n), v) == 0.0
    decreases n
  {
    if n > 0 && v != [] {
      assert Zeros(n)[1..] == Zeros(n - 1);
      DotZeros(n - 1, v[1..]);
    }
  }

  lemma ZerosCount(n: nat)
    ensures |Zeros(n)| == n
  {
  }

  /** Coordinates that start at zero add nothing, whatever is read into them. */
  lemma MigrationKeepsScore(f: Layout, x: Vector, norm: Vector, feeling: Vector, more: Vector, stats: Vector)
    requires |f.weights| == f.d + f.channels + 4
    requires |x| == f.d && |norm| == |feeling| == f.channels && |more| == 6 && |stats| == 4
    ensures Score(Migrated(f), x + (norm + feeling) + (more + stats)) == Score(f, x + feeling + stats)
  {
    hide Dot, Zeros;
    var wx, wf, ws := f.weights[..f.d], f.weights[f.d..f.d + f.channels], f.weights[f.d + f.channels..];
    var zc, z6 := Zeros(f.channels), Zeros(6);
    ZerosCount(f.channels);
    ZerosCount(6);
    assert f.weights == wx + wf + ws;
    DotConcat(wx + wf, ws, x + feeling, stats);
    DotConcat(wx, wf, x, feeling);
    assert Migrated(f).weights == wx + (zc + wf) + (z6 + ws);
    DotConcat(wx + (zc + wf), z6 + ws, x + (norm + feeling), more + stats);
    DotConcat(wx, zc + wf, x, norm + feeling);
    DotConcat(zc, wf, norm, feeling);
    DotConcat(z6, ws, more, stats);
    DotZeros(f.channels, norm);
    DotZeros(6, more);
  }

  /** The upgrade leaves every earlier prediction as it was, and a full
      ten-statistic input ending in the old four predicts the same. */
  lemma MigrationKeepsPredictions(m: Calculus, f: Layout, x: Vector, feeling: Vector, stats: Vector, more: Vector)
    requires f.stats == 4 && |f.weights| == f.d + f.channels + 4 && f.channels * 2 <= USIZE_MAX
    requires Predict(m, f, x, feeling, stats).Ok? && |more| == 6
    ensures Predict(m, Migrated(f), x, feeling, stats) == Predict(m, f, x, feeling, stats)
    ensures Predict(m, Migrated(f), x, feeling, more + stats) == Predict(m, f, x, feeling, stats)
  {
    hide Dot, Normalized, Score;
    var next := Migrated(f);
    assert next.channels / 2 == f.channels && CheckedMul(|feeling|, 2) == Some(next.channels);
    var norm := Normalized(m, feeling);
    assert AffectFeatures(m, next, feeling) == Ok(norm + feeling);
    MigrationKeepsScore(f, x, norm, feeling, Zeros(6), stats);
    MigrationKeepsScore(f, x, norm, feeling, more, stats);
    assert Features(m, f, x, feeling, stats) == Ok(x + feeling + stats);
    assert Features(m, next, x, feeling, stats) == Ok(x + (norm + feeling) + (Zeros(6) + stats));
    assert Features(m, next, x, feeling, more + stats) == Ok(x + (norm + feeling) + (more + stats));
  }

  /** A migrated field is accepted as a ten-statistic one, unless its size no
      longer fits a machine word, and never again as a four-statistic one. */
  lemma MigratedOnce(f: Layout, d: nat, channels: nat)
    requires Upgradable(f, d, channels, 4)
    ensures Upgradable(Migrated(f), d, channels, 10) <==> d + channels * 2 + 10 <= USIZE_MAX
    ensures !Upgradable(Migrated(f), d, channels, 4)
  {
  }

  // ----- Learning -----

  lemma AddScaledTail(w: Vector, s: real, f: Vector)
    requires |w| == |f| && w != []
    ensures AddScaled(w, s, f)[1..] == AddScaled(w[1..], s, f[1..]) && AddScaled(w, s, f)[0] == w[0] + s * f[0]
  {
    var a, b := AddScaled(w, s, f)[1..], AddScaled(w[1..], s, f[1..]);
    forall i | 0 <= i < |b|
      ensures a[i] == b[i]
    {
      assert w[1..][i] == w[i + 1] && f[1..][i] == f[i + 1];
    }
  }

  lemma Spread(w: real, s: real, f: real, rest: real, square: real)
    ensures (w + s * f) * f + (rest + s * square) == (w * f + rest) + s * (f * f + square)
  {
    assert (w + s * f) * f == w * f + s * (f * f);
    assert s * (f * f + square) == s * (f * f) + s * square;
  }

  lemma {:induction false} DotAddScaled(w: Vector, s: real, f: Vector)
    requires |w| == |f|
    ensures Dot(AddScaled(w, s, f), f) == Dot(w, f) + s * Dot(f, f)
    decreases |w|
  {
    if w != [] {
      AddScaledTail(w, s, f);
      DotAddScaled(w[1..], s, f[1..]);
      Spread(w[0], s, f[0], Dot(w[1..], f[1..]), Dot(f[1..], f[1..]));
    }
  }

  lemma {:induction false} SelfDot(f: Vector)
    ensures Dot(f, f) >= 0.0
    decreases |f|
  {
    if f != [] {
      SelfDot(f[1..]);
    }
  }

  function Gradient(prediction: real, target: real): real { (target - prediction) * prediction * (1.0 - prediction) }

  function Times(x: real, y: real): real { x * y }

  function Learned(f: Layout, features: Vector, gradient: real): Layout {
    f.(weights := AddScaled(f.weights, Times(f.rate, gradient), features), bias := f.bias + Times(f.rate, gradient))
  }

  lemma LearnedScore(f: Layout, features: Vector, gradient: real)
    requires |features| == |f.weights|
    ensures Score(Learned(f, features, gradient), features) - Score(f, features)
         == Times(f.rate, gradient) * (Dot(features, features) + 1.0)
  {
    hide Times, AddScaled, Dot;
    var step, square := Times(f.rate, gradient), Dot(features, features);
    DotAddScaled(f.weights, step, features);
    assert step * (square + 1.0) == step * square + step;
  }

  /** A step changes the score of its own input by the learning rate times the
      gradient times one plus the squared length, so toward the target. */
  lemma LearningMovesTowardLabel(m: Calculus, f: Layout, features: Vector, target: real)
    requires m.Valid() && f.rate >= 0.0 && |features| == |f.weights|
    ensures var p := m.sigmoid(Score(f, features));
      var moved := Score(Learned(f, features, Gradient(p, target)), features) - Score(f, features);
      && moved == f.rate * ((target - p) * (p * (1.0 - p))) * (Dot(features, features) + 1.0)
      && (target >= p ==> moved >= 0.0) && (target <= p ==> moved <= 0.0)
      && (f.rate > 0.0 && target != p ==> moved != 0.0)
  {
    hide AddScaled, Dot, Gradient, Learned, Score;
    var p := m.sigmoid(Score(f, features));
    LearnedScore(f, features, Gradient(p, target));
    SelfDot(features);
    GradientSign(p, target);
    StepSign(f.rate, Gradient(p, target), Dot(features, features) + 1.0);
  }

  lemma GradientSign(p: real, target: real)
    requires 0.0 < p < 1.0
    ensures Gradient(p, target) == (target - p) * (p * (1.0 - p))
    ensures target > p ==> Gradient(p, target) > 0.0
    ensures target < p ==> Gradient(p, target) < 0.0
    ensures target == p ==> Gradient(p, target) == 0.0
  {
    var slope := p * (1.0 - p);
    assert slope > 0.0;
    assert Gradient(p, target) == (target - p) * slope;
  }

  lemma StepSign(rate: real, g: real, size: real)
    requires rate >= 0.0 && size >= 1.0
    ensures g >= 0.0 ==> rate * g * size >= 0.0
    ensures g <= 0.0 ==> rate * g * size <= 0.0
    ensures g != 0.0 && rate > 0.0 ==> rate * g * size != 0.0
  {
    var step := rate * g;
    assert g >= 0.0 ==> step >= 0.0;
    assert g <= 0.0 ==> step <= 0.0;
    assert g > 0.0 && rate > 0.0 ==> step > 0.0;
    assert g < 0.0 && rate > 0.0 ==> step < 0.0;
  }

  /** A step of online learning: each weight moves by its own feature, and the bias by
      one, times the rate, the error and the slope of the logistic at the prediction. */
  ghost predicate Steps(f: Layout, features: Vector, p: real, target: real, after: Layout) {
    var step := f.rate * ((target - p) * (p * (1.0 - p)));
    && after == f.(weights := after.weights, bias := after.bias)
    && |after.weights| == |f.weights| && after.bias - f.bias == step
    && forall i | 0 <= i < |f.weights| :: after.weights[i] - f.weights[i] ==
         if i < |features| then step * features[i] else 0.0
  }

  lemma StepExactly(f: Layout, features: Vector, p: real, target: real)
    ensures Steps(f, features, p, target, Learned(f, features, Gradient(p, target)))
  {
    assert Gradient(p, target) == (target - p) * (p * (1.0 - p));
    hide Gradient;
  }

  // ----- The mutable field -----

  class RiskField {
    const calculus: Calculus
    const d: nat
    var channels: nat
    var retrievalStats: nat
    var weights: Vector
    var bias: real
    var learningRate: real
    var updates: nat

    function State(): Layout
      reads this
    {
      Layout(d, channels, retrievalStats, weights, bias, learningRate)
    }

    constructor (calculus: Calculus, d: nat, channels: nat, retrievalStats: nat)
      requires channels <= USIZE_MAX
      ensures this.calculus == calculus && updates == 0
      ensures State() ==
        var stored := if retrievalStats != 10 then channels
                      else if channels * 2 <= USIZE_MAX then channels * 2 else USIZE_MAX;
        Layout(d, stored, retrievalStats, Zeros(d + stored + retrievalStats), 0.0, 0.01)
    {
      var doubled := if channels * 2 <= USIZE_MAX then channels * 2 else USIZE_MAX;
      var stored := if retrievalStats == 10 then doubled else channels;
      this.calculus, this.d, this.channels, this.retrievalStats := calculus, d, stored, retrievalStats;
      weights, bias, learningRate, updates := Zeros(d + stored + retrievalStats), 0.0, 0.01, 0;
    }

    /** A field read back from storage, of any shape. */
    constructor Loaded(calculus: Calculus, f: Layout, updates: nat)
      ensures this.calculus == calculus && State() == f && this.updates == updates
    {
      this.calculus, d, channels, retrievalStats := calculus, f.d, f.channels, f.stats;
      weights, bias, learningRate, this.updates := f.weights, f.bias, f.rate, updates;
    }

    method Update(x: Vector, feeling: Vector, stats: Vector, tension: real) returns (r: Result<real>)
      modifies this
      ensures r == if tension < 0.0 || tension > 1.0 then Err("tension label must be finite and in [0, 1]")
                   else Predict(calculus, old(State()), x, feeling, stats)
      ensures r.Err? ==> State() == old(State()) && updates == old(updates)
      ensures r.Ok? ==> updates == old(updates) + 1
      ensures r.Ok? ==>
        State() == Learned(old(State()), Features(calculus, old(State()), x, feeling, stats).value,
                           Gradient(r.value, tension))
      ensures r.Ok? <==> 0.0 <= tension <= 1.0 && Accepts(old(State()), |x|, |feeling|, |stats|)
      ensures r.Ok? ==> exists features ::
        && Reads(calculus, old(State()), x, feeling, stats, features)
        && r.value == calculus.sigmoid(Dot(old(weights), features) + old(bias))
        && Steps(old(State()), features, r.value, tension, State())
    {
      hide Dot, AddScaled, Times, Features, Gradient, Reads, Steps, Accepts;
      FeaturesExactly(calculus, State(), x, feeling, stats);
      if tension < 0.0 || tension > 1.0 {
        return Err("tension label must be finite and in [0, 1]");
      }
      var features := Features(calculus, State(), x, feeling, stats);
      if features.Err? {
        return Err(features.error);
      }
      var prediction := calculus.sigmoid(Dot(weights, features.value) + bias);
      var gradient := Gradient(prediction, tension);
      StepExactly(State(), features.value, prediction, tension);
      weights := AddScaled(weights, Times(learningRate, gradient), features.value);
      bias := bias + Times(learningRate, gradient);
      updates := updates + 1;
      r := Ok(prediction);
    }

    /** The checks of the upgrade: refused, nothing to do, or to be migrated. */
    method CheckLayout(d: nat, channels: nat, declared: nat) returns (r: Result<bool>)
      ensures r.Ok? <==> Upgradable(State(), d, channels, declared) && (declared == 4 ==> channels * 2 <= USIZE_MAX)
      ensures r.Ok? ==> (r.value <==> declared == 4)
    {
      var stored := if declared == 10 then CheckedMul(channels, 2) else Some(channels);
      if stored.None? {
        return Err("risk dimensions overflow");
      }
      var prefix := CheckedAdd(d, stored.value);
      if prefix.None? {
        return Err("risk dimensions overflow");
      }
      var expected := CheckedAdd(prefix.value, declared);
      if expected.None? {
        return Err("risk dimensions overflow");
      }
      if this.d != d || this.channels != stored.value || retrievalStats != declared || |weights| != expected.value
         || !(declared == 4 || declared == 6 || declared == 10) || learningRate < 0.0
      {
        return Err("unsupported or inconsistent persisted risk feature layout");
      }
      if declared != 4 {
        return Ok(false);
      }
      r := if CheckedMul(channels, 2).Some? then Ok(true) else Err("risk dimensions overflow");
    }

    /** `upgrade_retrieval_layout`: every refusal leaves the field untouched. */
    method UpgradeRetrievalLayout(d: nat, channels: nat, declared: nat) returns (r: Result<bool>)
      modifies this
      ensures r.Ok? <==>
        Upgradable(old(State()), d, channels, declared) && (declared == 4 ==> channels * 2 <= USIZE_MAX)
      ensures r.Ok? ==> (r.value <==> declared == 4)
      ensures State() == if r == Ok(true) then Migrated(old(State())) else old(State())
      ensures updates == old(updates)
    {
      hide Zeros, Migrated;
      r := CheckLayout(d, channels, declared);
      if r == Ok(true) {
        MigratedParts(State());
        SpreadWeights(channels, d + channels);
        this.channels := channels * 2;
        retrievalStats := 10;
      }
    }

    /** Split off the old segments and lay them out between the new zeros. */
    method SpreadWeights(channels: nat, prefix: nat)
      requires prefix == d + channels && |weights| == prefix + 4
      modifies this`weights
      ensures weights == old(weights)[..d] + Zeros(channels) + old(weights)[d..prefix] + Zeros(6)
        + old(weights)[prefix..]
    {
      hide Zeros;
      ghost var before := weights;
      var legacyStats := weights[prefix..];
      weights := weights[..prefix];
      var legacyAffect := weights[d..];
      weights := weights[..d];
      assert legacyAffect == before[d..prefix] && weights == before[..d];
      weights := weights + Zeros(channels);
      weights := weights + legacyAffect;
      weights := weights + Zeros(6);
      weights := weights + legacyStats;
    }
  }
}
