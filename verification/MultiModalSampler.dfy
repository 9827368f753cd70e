/**
  Sampling synthetic multimodal items under per-modality caps (vllm/benchmarks/datasets.py,
  RandomMultiModalDataset). Probabilities are reals, and every random draw is an arbitrary choice
  among the outcomes of positive probability.
 */
module MultiModalSampler {
  import opened Wrappers

  datatype Config = Config(height: int, width: int, frames: int)

  /** One entry of a bucket config, in dict order. */
  datatype Bucket = Bucket(config: Config, weight: real)

  function MapConfigToModality(config: Config): Result<string> {
    if config.frames == 1 then Ok("image")
    else if config.frames > 1 then Ok("video")
    else Raise("Invalid multimodal item configuration")
  }

  predicate AllMapped(buckets: seq<Bucket>) {
    forall i | 0 <= i < |buckets| :: MapConfigToModality(buckets[i].config).Ok?
  }

  /******* Sums over dicts *******/

  ghost function Sum(m: map<string, int>): int {
    if m == map[] then 0
    else
      var k :| k in m;
      m[k] + Sum(m - {k})
  }

  lemma {:induction false} SumAt(m: map<string, int>, k: string)
    requires k in m
    ensures Sum(m) == m[k] + Sum(m - {k})
  {
    var k' :| k' in m && Sum(m) == m[k'] + Sum(m - {k'});
    if k' != k {
      SumAt(m - {k'}, k);
      SumAt(m - {k}, k');
      assert m - {k'} - {k} == m - {k} - {k'};
    }
  }

  lemma {:induction false} SumIncrement(m: map<string, int>, k: string)
    requires k in m
    ensures Sum(m[k := m[k] + 1]) == Sum(m) + 1
  {
    SumAt(m, k);
    SumAt(m[k := m[k] + 1], k);
    assert m[k := m[k] + 1] - {k} == m - {k};
  }

  lemma {:induction false} SumMonotone(low: map<string, int>, high: map<string, int>)
    requires low.Keys == high.Keys
    requires forall k | k in low :: low[k] <= high[k]
    ensures Sum(low) <= Sum(high)
    decreases |low|
  {
    if k :| k in low {
      SumAt(low, k);
      SumAt(high, k);
      assert (low - {k}).Keys == (high - {k}).Keys;
      SumMonotone(low - {k}, high - {k});
    }
  }

  lemma {:induction false} SumZero(m: map<string, int>)
    requires forall k | k in m :: m[k] == 0
    ensures Sum(m) == 0
    decreases |m|
  {
    if k :| k in m {
      SumAt(m, k);
      SumZero(m - {k});
    }
  }

  method SumValues(m: map<string, int>) returns (n: int)
    ensures n == Sum(m)
  {
    var rest := m;
    n := 0;
    while rest != map[]
      invariant n + Sum(rest) == Sum(m)
      decreases |rest|
    {
      var k :| k in rest;
      SumAt(rest, k);
      n := n + rest[k];
      rest := rest - {k};
    }
  }

  /******* Normalising a bucket config *******/

  function Weight(buckets: seq<Bucket>): real {
    if buckets == [] then 0.0 else buckets[0].weight + Weight(buckets[1..])
  }

  predicate NonNegative(buckets: seq<Bucket>) {
    forall i | 0 <= i < |buckets| :: buckets[i].weight >= 0.0
  }

  function Positive(buckets: seq<Bucket>): (r: seq<Bucket>)
    ensures forall b :: b in r <==> b in buckets && b.weight > 0.0
    ensures |r| <= |buckets|
    ensures |r| == |buckets| ==> forall b | b in buckets :: b.weight > 0.0
  {
    if buckets == [] then []
    else
      var rest := Positive(buckets[1..]);
      assert forall b :: b in buckets <==> b == buckets[0] || b in buckets[1..];
      if buckets[0].weight > 0.0 then [buckets[0]] + rest else rest
  }

  function Share(weight: real, total: real): real
    requires total > 0.0
  {
    weight / total
  }

  lemma {:induction false} ShareLaws(a: real, b: real, total: real)
    requires total > 0.0
    ensures Share(a, total) + Share(b, total) == Share(a + b, total)
    ensures Share(0.0, total) == 0.0
    ensures Share(total, total) == 1.0
    ensures a > 0.0 ==> Share(a, total) > 0.0
  {
  }

  function Scaled(buckets: seq<Bucket>, total: real): (r: seq<Bucket>)
    requires total > 0.0
    ensures |r| == |buckets|
    ensures forall i | 0 <= i < |r| :: r[i] == Bucket(buckets[i].config, Share(buckets[i].weight, total))
  {
    seq(|buckets|, i requires 0 <= i < |buckets| => Bucket(buckets[i].config, Share(buckets[i].weight, total)))
  }

  lemma {:induction false} PositiveKeepsWeight(buckets: seq<Bucket>)
    requires NonNegative(buckets)
    ensures Weight(Positive(buckets)) == Weight(buckets)
    ensures Weight(buckets) >= 0.0
    ensures Positive(buckets) != [] ==> Weight(buckets) > 0.0
  {
    if buckets != [] {
      var rest := Positive(buckets[1..]);
      PositiveKeepsWeight(buckets[1..]);
      assert ([buckets[0]] + rest)[1..] == rest;
    }
  }

  lemma {:induction false} ScaledWeight(buckets: seq<Bucket>, total: real)
    requires total > 0.0
    ensures Weight(Scaled(buckets, total)) == Share(Weight(buckets), total)
  {
    hide Share;
    if buckets != [] {
      ScaledWeight(buckets[1..], total);
      assert Scaled(buckets, total)[1..] == Scaled(buckets[1..], total);
      ShareLaws(buckets[0].weight, Weight(buckets[1..]), total);
    } else {
      ShareLaws(0.0, 0.0, total);
    }
  }

  /** A distribution that the random generator accepts, with no impossible outcome. */
  predicate Distribution(buckets: seq<Bucket>) {
    && (forall i | 0 <= i < |buckets| :: buckets[i].weight > 0.0)
    && Weight(buckets) == 1.0
  }

  function NormalizeBucketConfig(buckets: seq<Bucket>): Result<seq<Bucket>> {
    if exists i | 0 <= i < |buckets| :: buckets[i].weight < 0.0 then
      Raise("Bucket config values must be non-negative.")
    else
      var kept := Positive(buckets);
      if kept == [] then Raise("Got invalid bucket config. Bucket config values must be non-zero.")
      else
        PositiveKeepsWeight(buckets);
        Ok(Scaled(kept, Weight(kept)))
  }

  ghost predicate HasConfig(buckets: seq<Bucket>, config: Config) {
    exists i | 0 <= i < |buckets| :: buckets[i].config == config
  }

  /** The configs that can be drawn. */
  ghost predicate Drawable(buckets: seq<Bucket>, config: Config) {
    exists i | 0 <= i < |buckets| :: buckets[i].config == config && buckets[i].weight > 0.0
  }

  ghost predicate SomePositive(buckets: seq<Bucket>) {
    exists i :: 0 <= i < |buckets| && buckets[i].weight > 0.0
  }

  /** Normalising succeeds exactly on non-negative weights that are not all zero. */
  lemma {:induction false} NormalizesIff(buckets: seq<Bucket>)
    ensures NormalizeBucketConfig(buckets).Ok? <==> NonNegative(buckets) && SomePositive(buckets)
  {
    var kept := Positive(buckets);
    if kept != [] {
      assert kept[0] in buckets;
    } else {
      forall i | 0 <= i < |buckets| ensures buckets[i].weight <= 0.0 {
        assert buckets[i] in buckets;
      }
    }
  }

  /** It then gives a distribution, each weight divided by the total ... */
  lemma {:induction false} NormalizedWeights(buckets: seq<Bucket>)
    ensures var r := NormalizeBucketConfig(buckets);
            r.Ok? ==>
              && Distribution(r.value)
              && Weight(buckets) > 0.0
              && forall i | 0 <= i < |r.value| :: IsShare(buckets, r.value[i])
  {
    hide Positive, Weight, Share;
    var r := NormalizeBucketConfig(buckets);
    if r.Ok? {
      var kept := Positive(buckets);
      PositiveKeepsWeight(buckets);
      ScaledWeight(kept, Weight(kept));
      ShareLaws(0.0, 0.0, Weight(kept));
      forall i | 0 <= i < |kept| ensures IsShare(buckets, r.value[i]) && r.value[i].weight > 0.0 {
        assert kept[i] in buckets;
        ShareLaws(kept[i].weight, 0.0, Weight(kept));
      }
    }
  }

  /** The entry stands for one of `buckets`, with its share of the total weight. */
  ghost predicate IsShare(buckets: seq<Bucket>, entry: Bucket) {
    && Weight(buckets) > 0.0
    && exists b :: b in buckets && entry == Bucket(b.config, Share(b.weight, Weight(buckets)))
  }

  /** ... over exactly the configs of positive weight. */
  lemma {:induction false} NormalizedConfigs(buckets: seq<Bucket>)
    ensures var r := NormalizeBucketConfig(buckets);
            r.Ok? ==>
              && r.value != []
              && |r.value| <= |buckets|
              && (forall config :: HasConfig(r.value, config) <==> Drawable(buckets, config))
              && ((exists b :: b in buckets && b.weight == 0.0) ==> |r.value| < |buckets|)
  {
  }

  /******* The sampling parameters *******/

  datatype Params = Params(min: int, max: int, limits: map<string, int>, buckets: seq<Bucket>)

  ghost predicate HasModality(buckets: seq<Bucket>, modality: string) {
    exists i :: 0 <= i < |buckets| && MapConfigToModality(buckets[i].config) == Ok(modality)
  }

  /** What the iterator relies on. */
  ghost predicate Sampleable(p: Params) {
    && Distribution(p.buckets)
    && AllMapped(p.buckets)
    && (forall m :: m in p.limits <==> HasModality(p.buckets, m))
    && 0 <= p.min <= p.max <= Sum(p.limits)
  }

  function Min(a: int, b: int): (r: int)
    ensures r <= a && r <= b && (r == a || r == b)
  {
    if a <= b then a else b
  }

  function Max(a: int, b: int): (r: int)
    ensures r >= a && r >= b && (r == a || r == b)
  {
    if a >= b then a else b
  }

  function Ceil(x: real): (n: int)
    ensures n as real - 1.0 < x <= n as real
  {
    -(-x).Floor
  }

  /** The modality of some bucket of positive weight. */
  ghost predicate DrawableModality(buckets: seq<Bucket>, modality: string) {
    exists config :: Drawable(buckets, config) && MapConfigToModality(config) == Ok(modality)
  }

  /** The limits of the modalities that can be drawn. */
  ghost function UsedLimits(limits: map<string, int>, buckets: seq<Bucket>): map<string, int> {
    map m | m in limits && DrawableModality(buckets, m) :: limits[m]
  }

  /** Every bucket, drawable or not, has a modality with a limit. */
  ghost predicate AllLimited(limits: map<string, int>, buckets: seq<Bucket>) {
    forall i | 0 <= i < |buckets| :: Limited(limits, buckets[i].config)
  }

  predicate Limited(limits: map<string, int>, config: Config) {
    MapConfigToModality(config).Ok? && MapConfigToModality(config).value in limits
  }

  /** The config has frames, and the limit for its kind exists: one frame is an image, more are a video. */
  ghost predicate FramesLimited(limits: map<string, int>, config: Config) {
    config.frames >= 1 && (if config.frames == 1 then "image" in limits else "video" in limits)
  }

  /** Some bucket of positive weight holds a single frame, or several. */
  ghost predicate DrawsFrames(buckets: seq<Bucket>, several: bool) {
    exists i :: 0 <= i < |buckets| && buckets[i].weight > 0.0
                && (if several then buckets[i].config.frames > 1 else buckets[i].config.frames == 1)
  }

  /** What is limited, by frames. */
  lemma {:induction false} LimitedByFrames(limits: map<string, int>, buckets: seq<Bucket>)
    ensures AllLimited(limits, buckets) <==> forall i | 0 <= i < |buckets| :: FramesLimited(limits, buckets[i].config)
    ensures forall m :: m in UsedLimits(limits, buckets) <==>
              && m in limits
              && ((m == "image" && DrawsFrames(buckets, false)) || (m == "video" && DrawsFrames(buckets, true)))
    ensures forall m | m in UsedLimits(limits, buckets) :: UsedLimits(limits, buckets)[m] == limits[m]
  {
    forall i | 0 <= i < |buckets|
      ensures Limited(limits, buckets[i].config) <==> FramesLimited(limits, buckets[i].config)
    {
    }
    forall m
      ensures DrawableModality(buckets, m) <==>
              (m == "image" && DrawsFrames(buckets, false)) || (m == "video" && DrawsFrames(buckets, true))
    {
      DrawnByFrames(buckets, m);
    }
  }

  lemma {:induction false} DrawnByFrames(buckets: seq<Bucket>, m: string)
    ensures DrawableModality(buckets, m) <==>
            (m == "image" && DrawsFrames(buckets, false)) || (m == "video" && DrawsFrames(buckets, true))
  {
    assert "image" != "video" by {
      assert "image"[0] != "video"[0];
    }
    if DrawableModality(buckets, m) {
      var config :| Drawable(buckets, config) && MapConfigToModality(config) == Ok(m);
      var i :| 0 <= i < |buckets| && buckets[i].config == config && buckets[i].weight > 0.0;
    }
    if m == "image" && DrawsFrames(buckets, false) {
      var i :| 0 <= i < |buckets| && buckets[i].weight > 0.0 && buckets[i].config.frames == 1;
      assert Drawable(buckets, buckets[i].config);
    }
    if m == "video" && DrawsFrames(buckets, true) {
      var i :| 0 <= i < |buckets| && buckets[i].weight > 0.0 && buckets[i].config.frames > 1;
      assert Drawable(buckets, buckets[i].config);
    }
  }

  lemma {:induction false} NormalizedModalities(limits: map<string, int>, buckets: seq<Bucket>)
    requires NormalizeBucketConfig(buckets).Ok? && AllLimited(limits, buckets)
    ensures var r := NormalizeBucketConfig(buckets).value;
            && AllLimited(limits, r)
            && forall m :: DrawableModality(buckets, m) <==> HasModality(r, m)
  {
  }

  method GetMmItemSamplingParams(base: int, ratio: real, limits: map<string, int>, buckets: seq<Bucket>)
    returns (r: Result<Params>)
    ensures var used := Sum(UsedLimits(limits, buckets));
            var least, most := Max(0, (base as real * (1.0 - ratio)).Floor), Min(used, Ceil(base as real * (1.0 + ratio)));
            && (r.Ok? <==>
                  && 0.0 <= ratio <= 1.0
                  && AllLimited(limits, buckets)
                  && NonNegative(buckets)
                  && SomePositive(buckets)
                  && least <= most)
            && (r.Ok? ==> r.value.min == least && r.value.max == most)
    ensures r.Ok? ==> Sampleable(r.value)
    ensures r.Ok? ==> r.value.limits == UsedLimits(limits, buckets)
    // by frames: every bucket has the limit of its kind, and the kinds that can be drawn keep theirs
    ensures AllLimited(limits, buckets) <==> forall i | 0 <= i < |buckets| :: FramesLimited(limits, buckets[i].config)
    ensures r.Ok? ==>
              && ("image" in r.value.limits <==> DrawsFrames(buckets, false))
              && ("video" in r.value.limits <==> DrawsFrames(buckets, true))
              && forall m | m in r.value.limits :: (m == "image" || m == "video") && m in limits && r.value.limits[m] == limits[m]
    ensures r.Ok? ==> forall config :: HasConfig(r.value.buckets, config) <==> Drawable(buckets, config)
    ensures r.Ok? ==> forall i | 0 <= i < |r.value.buckets| :: IsShare(buckets, r.value.buckets[i])
  {
    hide Distribution, Weight, NormalizeBucketConfig, IsShare, HasConfig, DrawableModality, HasModality, DrawsFrames;
    LimitedByFrames(limits, buckets);
    if !(0.0 <= ratio <= 1.0) {
      return Raise("num_mm_items_range_ratio must be in [0, 1].");
    }
    for i := 0 to |buckets|
      invariant forall j | 0 <= j < i :: Limited(limits, buckets[j].config)
    {
      if !Limited(limits, buckets[i].config) {
        return Raise("ValueError");
      }
    }
    NormalizesIff(buckets);
    var normalized := NormalizeBucketConfig(buckets);
    if normalized.Raise? {
      return Raise(normalized.error);
    }
    NormalizedWeights(buckets);
    NormalizedConfigs(buckets);
    NormalizedModalities(limits, buckets);
    var used := RestrictLimits(limits, normalized.value);
    assert used == UsedLimits(limits, buckets);
    if used == map[] {
      // "No valid limits for modalities present in bucket_config" is never raised
      assert false;
    }
    var total := SumValues(used);
    var most := Min(total, Ceil(base as real * (1.0 + ratio)));
    var least := Max(0, (base as real * (1.0 - ratio)).Floor);
    if least > most {
      return Raise("Min num mm items is greater than max mm items");
    }
    DrawnIsLimited(limits, buckets);
    r := Ok(Params(least, most, used, normalized.value));
  }

  lemma {:induction false} DrawnIsLimited(limits: map<string, int>, buckets: seq<Bucket>)
    requires AllLimited(limits, buckets)
    ensures DrawsFrames(buckets, false) ==> "image" in limits
    ensures DrawsFrames(buckets, true) ==> "video" in limits
  {
    if i :| 0 <= i < |buckets| && buckets[i].config.frames == 1 {
      assert Limited(limits, buckets[i].config);
    }
    if i :| 0 <= i < |buckets| && buckets[i].config.frames > 1 {
      assert Limited(limits, buckets[i].config);
    }
  }

  method RestrictLimits(limits: map<string, int>, buckets: seq<Bucket>) returns (used: map<string, int>)
    requires AllLimited(limits, buckets) && buckets != []
    ensures used == map m | m in limits && HasModality(buckets, m) :: limits[m]
    ensures forall m :: m in used <==> HasModality(buckets, m)
    ensures used != map[]
  {
    var allowed := set i | 0 <= i < |buckets| :: MapConfigToModality(buckets[i].config);
    used := map m | m in limits && Ok(m) in allowed :: limits[m];
    forall m ensures Ok(m) in allowed <==> HasModality(buckets, m) {
    }
    assert Limited(limits, buckets[0].config);
    assert MapConfigToModality(buckets[0].config).value in used;
  }

  /******* Drawing the items of one request *******/

  ghost function Count(items: seq<Config>, modality: string): nat {
    if items == [] then 0
    else Count(items[..|items| - 1], modality)
         + if MapConfigToModality(items[|items| - 1]) == Ok(modality) then 1 else 0
  }

  lemma {:induction false} CountSnoc(items: seq<Config>, config: Config, modality: string)
    ensures Count(items + [config], modality)
         == Count(items, modality) + if MapConfigToModality(config) == Ok(modality) then 1 else 0
  {
  }

  /** The items of a single frame, or of several. */
  ghost function CountFrames(items: seq<Config>, several: bool): nat {
    if items == [] then 0
    else
      var last := items[|items| - 1];
      CountFrames(items[..|items| - 1], several) + if (if several then last.frames > 1 else last.frames == 1) then 1 else 0
  }

  lemma {:induction false} CountIsCountFrames(items: seq<Config>)
    ensures Count(items, "image") == CountFrames(items, false) && Count(items, "video") == CountFrames(items, true)
  {
    assert "image" != "video" by {
      assert "image"[0] != "video"[0];
    }
    if items != [] {
      CountIsCountFrames(items[..|items| - 1]);
    }
  }

  /** The counters describe the items, which stay within the limits. */
  ghost predicate Counted(items: seq<Config>, counter: map<string, int>, limits: map<string, int>) {
    && counter.Keys == limits.Keys
    && Sum(counter) == |items|
    && forall m | m in counter :: counter[m] == Count(items, m) && counter[m] <= Max(0, limits[m])
  }

  /** What may still be drawn; a bucket that was dropped has its modality at its limit. */
  ghost predicate Remaining(left: seq<Bucket>, p: Params, counter: map<string, int>) {
    && Distribution(left)
    && AllMapped(left)
    && (forall config :: HasConfig(left, config) ==> HasConfig(p.buckets, config))
    && (forall config :: HasConfig(p.buckets, config) && !HasConfig(left, config) ==> AtLimit(config, p.limits, counter))
  }

  ghost predicate AtLimit(config: Config, limits: map<string, int>, counter: map<string, int>) {
    exists m :: MapConfigToModality(config) == Ok(m) && m in counter && m in limits && counter[m] >= limits[m]
  }

  function ZeroedBucket(b: Bucket, modality: string): Bucket {
    if MapConfigToModality(b.config) == Ok(modality) then b.(weight := 0.0) else b
  }

  method ZeroModality(buckets: seq<Bucket>, modality: string) returns (zeroed: seq<Bucket>)
    ensures |zeroed| == |buckets|
    ensures forall i | 0 <= i < |buckets| :: zeroed[i] == ZeroedBucket(buckets[i], modality)
  {
    zeroed := buckets;
    for i := 0 to |zeroed|
      invariant |zeroed| == |buckets|
      invariant forall j | 0 <= j < i :: zeroed[j] == ZeroedBucket(buckets[j], modality)
      invariant forall j | i <= j < |buckets| :: zeroed[j] == buckets[j]
    {
      if MapConfigToModality(zeroed[i].config) == Ok(modality) {
        zeroed := zeroed[i := zeroed[i].(weight := 0.0)];
      }
    }
  }

  lemma {:induction false} CountOne(items: seq<Config>, counter: map<string, int>, limits: map<string, int>, config: Config, modality: string)
    requires Counted(items, counter, limits)
    requires MapConfigToModality(config) == Ok(modality)
    requires modality in counter && counter[modality] < limits[modality]
    ensures Counted(items + [config], counter[modality := counter[modality] + 1], limits)
  {
    hide Sum, Count;
    SumIncrement(counter, modality);
    forall m ensures Count(items + [config], m)
                  == Count(items, m) + if MapConfigToModality(config) == Ok(m) then 1 else 0 {
      CountSnoc(items, config, m);
    }
  }

  lemma {:induction false} CountKeepsRemaining(left: seq<Bucket>, p: Params, counter: map<string, int>, modality: string)
    requires Remaining(left, p, counter) && modality in counter
    ensures Remaining(left, p, counter[modality := counter[modality] + 1])
  {
  }

  /** If every bucket is at its limit, no item is missing. */
  lemma {:induction false} AllAtLimit(p: Params, items: seq<Config>, counter: map<string, int>)
    requires Sampleable(p) && Counted(items, counter, p.limits)
    requires forall config | HasConfig(p.buckets, config) :: AtLimit(config, p.limits, counter)
    ensures |items| >= p.max
  {
    hide Distribution, Count, Sum;
    forall m | m in p.limits ensures p.limits[m] <= counter[m] {
      assert HasModality(p.buckets, m);
      var i :| 0 <= i < |p.buckets| && MapConfigToModality(p.buckets[i].config) == Ok(m);
      assert HasConfig(p.buckets, p.buckets[i].config);
    }
    SumMonotone(p.limits, counter);
  }

  /** Once a modality at its limit is set to zero, what cannot be drawn any more is at its limit. */
  lemma {:induction false} DroppedAtLimit(left: seq<Bucket>, zeroed: seq<Bucket>, p: Params, counter: map<string, int>,
                                          modality: string, config: Config)
    requires Remaining(left, p, counter)
    requires modality in counter && modality in p.limits && counter[modality] >= p.limits[modality]
    requires |zeroed| == |left| && forall i | 0 <= i < |left| :: zeroed[i] == ZeroedBucket(left[i], modality)
    ensures HasConfig(p.buckets, config) && !Drawable(zeroed, config) ==> AtLimit(config, p.limits, counter)
    ensures Drawable(zeroed, config) ==> HasConfig(left, config)
  {
  }

  /** While items are missing, something is left to draw: the draw never comes to an early end. */
  lemma {:induction false} NeverExhausted(left: seq<Bucket>, zeroed: seq<Bucket>, p: Params, items: seq<Config>,
                                          counter: map<string, int>, modality: string)
    requires Sampleable(p) && Counted(items, counter, p.limits) && Remaining(left, p, counter)
    requires modality in counter && modality in p.limits && counter[modality] >= p.limits[modality]
    requires |zeroed| == |left| && forall i | 0 <= i < |left| :: zeroed[i] == ZeroedBucket(left[i], modality)
    requires |items| < p.max
    ensures SomePositive(zeroed)
  {
    hide Sampleable, Counted, Remaining, AtLimit;
    if !SomePositive(zeroed) {
      forall config | HasConfig(p.buckets, config) ensures AtLimit(config, p.limits, counter) {
        DroppedAtLimit(left, zeroed, p, counter, modality, config);
      }
      AllAtLimit(p, items, counter);
      assert false;
    }
  }

  /** What is left can be normalised again, and keeps the account of what was dropped. */
  lemma {:induction false} DropModality(left: seq<Bucket>, zeroed: seq<Bucket>, p: Params, counter: map<string, int>, modality: string)
    requires Remaining(left, p, counter)
    requires modality in counter && modality in p.limits && counter[modality] >= p.limits[modality]
    requires |zeroed| == |left| && forall i | 0 <= i < |left| :: zeroed[i] == ZeroedBucket(left[i], modality)
    requires SomePositive(zeroed)
    ensures NormalizeBucketConfig(zeroed).Ok?
    ensures Remaining(NormalizeBucketConfig(zeroed).value, p, counter)
  {
    hide NormalizeBucketConfig, AtLimit, Drawable, Weight;
    NormalizesIff(zeroed);
    NormalizedWeights(zeroed);
    NormalizedConfigs(zeroed);
    var r := NormalizeBucketConfig(zeroed).value;
    forall config
      ensures HasConfig(p.buckets, config) && !HasConfig(r, config) ==> AtLimit(config, p.limits, counter)
      ensures HasConfig(r, config) ==> HasConfig(left, config)
    {
      DroppedAtLimit(left, zeroed, p, counter, modality, config);
    }
    forall i | 0 <= i < |r| ensures MapConfigToModality(r[i].config).Ok? {
      assert HasConfig(r, r[i].config);
    }
  }

  method ZeroCounters(buckets: seq<Bucket>) returns (counter: map<string, int>)
    requires AllMapped(buckets)
    ensures forall m :: m in counter <==> HasModality(buckets, m)
    ensures forall m | m in counter :: counter[m] == 0
  {
    counter := map[];
    for i := 0 to |buckets|
      invariant forall m :: m in counter <==> HasModality(buckets[..i], m)
      invariant forall m | m in counter :: counter[m] == 0
    {
      var modality := MapConfigToModality(buckets[i].config).value;
      counter := counter[modality := 0];
      assert buckets[..i + 1] == buckets[..i] + [buckets[i]];
      forall m ensures HasModality(buckets[..i + 1], m) <==> HasModality(buckets[..i], m) || m == modality {
        assert m == modality ==> MapConfigToModality(buckets[..i + 1][i].config) == Ok(m);
        if HasModality(buckets[..i], m) {
          var j :| 0 <= j < i && MapConfigToModality(buckets[..i][j].config) == Ok(m);
          assert buckets[..i + 1][j] == buckets[..i][j];
        }
      }
    }
    assert buckets[..|buckets|] == buckets;
  }

  lemma {:induction false} StartCounted(p: Params, counter: map<string, int>)
    requires Sampleable(p)
    requires forall m :: m in counter <==> HasModality(p.buckets, m)
    requires forall m | m in counter :: counter[m] == 0
    ensures Counted([], counter, p.limits) && Remaining(p.buckets, p, counter)
  {
    hide Distribution;
    SumZero(counter);
  }

  lemma {:induction false} DistributionNotEmpty(buckets: seq<Bucket>)
    requires Distribution(buckets)
    ensures |buckets| > 0 && buckets[0].weight > 0.0
  {
  }

  lemma {:induction false} DrawnIsCounted(p: Params, left: seq<Bucket>, counter: map<string, int>, i: nat)
    requires Sampleable(p) && Remaining(left, p, counter) && counter.Keys == p.limits.Keys && i < |left|
    ensures HasConfig(p.buckets, left[i].config)
    ensures MapConfigToModality(left[i].config).Ok? && MapConfigToModality(left[i].config).value in counter
  {
  }

  lemma {:induction false} DropShrinks(left: seq<Bucket>, zeroed: seq<Bucket>, i: nat, modality: string)
    requires i < |left| && MapConfigToModality(left[i].config) == Ok(modality)
    requires |zeroed| == |left| && forall j | 0 <= j < |left| :: zeroed[j] == ZeroedBucket(left[j], modality)
    requires NormalizeBucketConfig(zeroed).Ok?
    ensures |NormalizeBucketConfig(zeroed).value| < |left|
  {
  }

  /**
    Whatever is drawn: exactly the requested number of items, each from the buckets, no modality
    over its limit, and the "exhausted" break is never taken.
   */
  method GetMmItemIterator(p: Params) returns (request: int, items: seq<Config>)
    requires Sampleable(p)
    ensures p.min <= request <= p.max && |items| == request
    ensures forall i | 0 <= i < |items| :: HasConfig(p.buckets, items[i])
    ensures forall m | m in p.limits :: Count(items, m) <= Max(0, p.limits[m])
    // by frames: images within the image limit, videos within the video limit, and nothing else
    ensures "image" in p.limits ==> CountFrames(items, false) <= Max(0, p.limits["image"])
    ensures "video" in p.limits ==> CountFrames(items, true) <= Max(0, p.limits["video"])
    ensures forall i | 0 <= i < |items| :: FramesLimited(p.limits, items[i])
  {
    request, items := DrawItems(p);
    CountIsCountFrames(items);
    forall i | 0 <= i < |items|
      ensures FramesLimited(p.limits, items[i])
    {
      DrawnFrames(p, items[i]);
    }
  }

  lemma {:induction false} DrawnFrames(p: Params, config: Config)
    requires Sampleable(p) && HasConfig(p.buckets, config)
    ensures FramesLimited(p.limits, config)
  {
    hide Distribution, Sum;
    var i :| 0 <= i < |p.buckets| && p.buckets[i].config == config;
    assert HasModality(p.buckets, MapConfigToModality(config).value);
  }

  /** The drawing loop. */
  method DrawItems(p: Params) returns (request: int, items: seq<Config>)
    requires Sampleable(p)
    ensures p.min <= request <= p.max && |items| == request
    ensures forall i | 0 <= i < |items| :: HasConfig(p.buckets, items[i])
    ensures forall m | m in p.limits :: Count(items, m) <= Max(0, p.limits[m])
  {
    hide Sum, Count, HasConfig, Distribution, NormalizeBucketConfig, AtLimit;
    items := [];
    request :| p.min <= request <= p.max;
    var counter := ZeroCounters(p.buckets);
    StartCounted(p, counter);
    if request == 0 {
      return;
    }
    var left := p.buckets;
    var total := SumValues(counter);
    while total < request
      invariant Counted(items, counter, p.limits) && total == |items| <= request
      invariant Remaining(left, p, counter)
      invariant forall i | 0 <= i < |items| :: HasConfig(p.buckets, items[i])
      decreases request - total, |left|
    {
      DistributionNotEmpty(left);
      var i :| 0 <= i < |left| && left[i].weight > 0.0;
      var config := left[i].config;
      DrawnIsCounted(p, left, counter, i);
      var modality := MapConfigToModality(config).value;
      if counter[modality] < p.limits[modality] {
        CountOne(items, counter, p.limits, config, modality);
        CountKeepsRemaining(left, p, counter, modality);
        counter := counter[modality := counter[modality] + 1];
        items := items + [config];
        total := SumValues(counter);
      } else {
        var zeroed := ZeroModality(left, modality);
        NeverExhausted(left, zeroed, p, items, counter, modality);
        DropModality(left, zeroed, p, counter, modality);
        DropShrinks(left, zeroed, i, modality);
        if forall j | 0 <= j < |zeroed| :: zeroed[j].weight == 0.0 {
          // "Exhausted all multimodal items" is never logged
          assert false;
          break;
        }
        left := NormalizeBucketConfig(zeroed).value;
      }
    }
  }
}
