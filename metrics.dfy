/**
 * Training metrics (FastAutoAugment/common/metrics.py): the step, epoch and
 * best-so-far bookkeeping of `Metrics`, the suffix rule of `Metrics.save`,
 * and `Accumulator`, a dictionary of running totals whose missing keys read
 * as zero. Timing, logging, TensorBoard and YAML output are left out, and so
 * are the running averages themselves (`utils.AverageMeter`): the top-1
 * average an epoch ends with is a parameter.
 */
module TrainingMetrics {
  import opened Common

  class Metrics {
    var epochs: int
    var bestTop1: real
    var bestEpoch: int
    var epoch: int
    var globalStep: int
    var step: int

    /**
     * What every public operation keeps: counters never negative, the step
     * within the epoch never ahead of the global step, the best epoch never
     * ahead of the current one and the best accuracy at least its reset value.
     */
    ghost predicate Valid()
      reads this
    {
      0 <= step <= globalStep && 0 <= bestEpoch <= epoch && bestTop1 >= 0.0
    }

    /** `__init__`: the title and logging frequency are left out. */
    constructor(epochs: int)
      ensures Valid()
      ensures this.epochs == epochs && epoch == 0 && globalStep == 0 && step == 0
      ensures bestTop1 == 0.0 && bestEpoch == 0
    {
      this.epochs := epochs;
      bestTop1, bestEpoch := 0.0, 0;
      epoch := 0;
      globalStep := 0;
      step := 0;
    }

    /** `_reset_epoch`: only the step counter (and the meters) restart. */
    method ResetEpoch()
      modifies this`step
      ensures step == 0
    {
      step := 0;
    }

    /**
     * `reset`: every counter and the best-so-far go back to zero; the number
     * of epochs changes only when one is given.
     */
    method Reset(newEpochs: Option<int>)
      modifies this
      ensures Valid()
      ensures bestTop1 == 0.0 && bestEpoch == 0 && epoch == 0 && globalStep == 0 && step == 0
      ensures epochs == if newEpochs.Some? then newEpochs.value else old(epochs)
    {
      bestTop1, bestEpoch := 0.0, 0;
      epoch := 0;
      globalStep := 0;
      if newEpochs.Some? {
        epochs := newEpochs.value;
      }
      ResetEpoch();
    }

    /** `post_step`: one more step, counted in the epoch and globally. */
    method PostStep()
      requires Valid()
      modifies this`step, this`globalStep
      ensures Valid()
      ensures step == old(step) + 1 && globalStep == old(globalStep) + 1
    {
      step := step + 1;
      globalStep := globalStep + 1;
    }

    /** `pre_epoch`: the step counter restarts; the epoch and global step stay. */
    method PreEpoch()
      requires Valid()
      modifies this`step
      ensures Valid()
      ensures step == 0
    {
      ResetEpoch();
    }

    method IncrementEpoch()
      requires Valid()
      modifies this`epoch
      ensures Valid()
      ensures epoch == old(epoch) + 1
    {
      epoch := epoch + 1;
    }

    /**
     * `post_epoch`: the epoch advances, and it becomes the best epoch exactly
     * when its top-1 average beats the best so far strictly; the best
     * accuracy never decreases.
     */
    method PostEpoch(top1Avg: real)
      requires Valid()
      modifies this`epoch, this`bestEpoch, this`bestTop1
      ensures Valid()
      ensures epoch == old(epoch) + 1
      ensures old(bestTop1) < top1Avg ==> bestEpoch == epoch && bestTop1 == top1Avg
      ensures !(old(bestTop1) < top1Avg) ==> bestEpoch == old(bestEpoch) && bestTop1 == old(bestTop1)
      ensures bestTop1 >= old(bestTop1) && bestTop1 >= top1Avg
    {
      IncrementEpoch();
      if bestTop1 < top1Avg {
        bestEpoch := epoch;
        bestTop1 := top1Avg;
      }
    }

    predicate IsBest()
      reads this
    {
      epoch == bestEpoch
    }
  }

  /** Right after a reset the current epoch counts as the best one. */
  method ResetIsBest(m: Metrics, newEpochs: Option<int>) returns (best: bool)
    modifies m
    ensures best && m.Valid()
  {
    m.Reset(newEpochs);
    best := m.IsBest();
  }

  /** An epoch that does not improve on the best is not the best epoch. */
  method NoImprovementIsNotBest(m: Metrics, top1Avg: real) returns (best: bool)
    requires m.Valid() && top1Avg <= m.bestTop1
    modifies m
    ensures !best && m.Valid()
  {
    m.PostEpoch(top1Avg);
    best := m.IsBest();
  }

  // ---- the save path

  predicate EndsWith(s: string, suffix: string)
  {
    |suffix| <= |s| && s[|s| - |suffix|..] == suffix
  }

  const YamlSuffix: string := ".yaml"

  /**
   * The path `save` writes to: no path and the empty path are returned as
   * they are (nothing is written); any other path gets a `.yaml` suffix
   * unless it already has one.
   */
  function SavePath(p: Option<string>): (r: Option<string>)
    ensures p.None? <==> r.None?
    ensures p == Some("") ==> r == p
    ensures p.Some? && p.value != "" ==> EndsWith(r.value, YamlSuffix)
    ensures p.Some? && EndsWith(p.value, YamlSuffix) ==> r == p
    ensures p.Some? ==> |r.value| >= |p.value| && r.value[..|p.value|] == p.value
  {
    if p.None? || p.value == "" then p
    else if EndsWith(p.value, YamlSuffix) then p
    else Some(p.value + YamlSuffix)
  }

  /** Saving twice under the returned path writes to the same file. */
  lemma SavePathIdempotent(p: Option<string>)
    ensures SavePath(SavePath(p)) == SavePath(p)
  {
    if p.Some? && p.value != "" && !EndsWith(p.value, YamlSuffix) {
      var q := p.value + YamlSuffix;
      assert q[|q| - |YamlSuffix|..] == YamlSuffix;
    }
  }

  // ---- Accumulator

  type Totals = map<string, real>

  /** `defaultdict(lambda: 0.)` read without inserting. */
  function Lookup(m: Totals, key: string): real
  {
    if key in m then m[key] else 0.0
  }

  /** Every key of `d` added onto the totals of `m`, missing ones counting as zero. */
  function Added(m: Totals, d: Totals): Totals
  {
    map k | k in m.Keys + d.Keys :: Lookup(m, k) + Lookup(d, k)
  }

  /** The entries of `d` under the given keys. */
  function Restrict(d: Totals, keys: set<string>): Totals
  {
    map k | k in d.Keys * keys :: d[k]
  }

  /** Adding one more entry of `d` is a single `add`. */
  lemma AddedStep(m: Totals, d: Totals, done: set<string>, key: string)
    requires key in d && key !in done
    ensures var cur := Added(m, Restrict(d, done));
      Added(m, Restrict(d, done + {key})) == cur[key := Lookup(cur, key) + d[key]]
  {
    var cur := Added(m, Restrict(d, done));
    var lhs := Added(m, Restrict(d, done + {key}));
    var rhs := cur[key := Lookup(cur, key) + d[key]];
    assert lhs.Keys == rhs.Keys;
    forall k | k in lhs
      ensures lhs[k] == rhs[k]
    {
      if k == key {
        assert Lookup(Restrict(d, done), key) == 0.0;
        assert Lookup(cur, key) == Lookup(m, key);
      }
    }
  }

  lemma AddedNothing(m: Totals, d: Totals)
    ensures Added(m, Restrict(d, {})) == m
  {
    assert Restrict(d, {}) == map[];
  }

  lemma RestrictAll(d: Totals)
    ensures Restrict(d, d.Keys) == d
  {
  }

  /** The order in which dictionaries are added does not matter. */
  lemma AddedCommutes(m: Totals, d1: Totals, d2: Totals)
    ensures Added(Added(m, d1), d2) == Added(Added(m, d2), d1)
  {
    var lhs, rhs := Added(Added(m, d1), d2), Added(Added(m, d2), d1);
    assert lhs.Keys == rhs.Keys;
    forall k | k in lhs
      ensures lhs[k] == rhs[k]
    {
      assert Lookup(Added(m, d1), k) == Lookup(m, k) + Lookup(d1, k);
      assert Lookup(Added(m, d2), k) == Lookup(m, k) + Lookup(d2, k);
    }
  }

  /** What `a / other` divides by. */
  datatype Divisor = ByKey(key: string) | ByValue(value: real)

  /** Every total divided by `c`. */
  function DividedBy(m: Totals, c: real): (r: Totals)
    requires c != 0.0
    ensures r.Keys == m.Keys
  {
    map k | k in m :: m[k] / c
  }

  /** Dividing by one changes nothing. */
  lemma DividedByOne(m: Totals)
    ensures DividedBy(m, 1.0) == m
  {
  }

  /** Every total other than `key`'s divided by `key`'s; `key`'s own stays. */
  function DividedByKey(m: Totals, key: string): (r: Totals)
    requires key in m && m[key] != 0.0
    ensures r.Keys == m.Keys && r[key] == m[key]
    ensures forall k :: k in m && k != key ==> r[k] == DividedBy(m, m[key])[k]
  {
    map k | k in m :: if k == key then m[k] else m[k] / m[key]
  }

  /**
   * A key divisor can be used when every division the loop performs, one
   * per other key and each by the key's total read as `self[other]`, has a
   * non-zero divisor.
   */
  ghost predicate KeyDivisible(m: Totals, key: string)
  {
    forall k :: k in m && k != key ==> Lookup(m, key) != 0.0
  }

  class Accumulator {
    var metrics: Totals

    constructor()
      ensures metrics == map[]
    {
      metrics := map[];
    }

    /** `add`: a missing key starts from zero. */
    method Add(key: string, value: real)
      modifies this
      ensures metrics == old(metrics)[key := Lookup(old(metrics), key) + value]
    {
      metrics := metrics[key := Lookup(metrics, key) + value];
    }

    /** `add_dict`: `add` for every entry, in whatever order the entries come. */
    method AddDict(d: Totals)
      modifies this
      ensures metrics == Added(old(metrics), d)
    {
      ghost var m0 := metrics;
      ghost var done: set<string> := {};
      var remaining := d.Keys;
      AddedNothing(m0, d);
      while remaining != {}
        invariant remaining == d.Keys - done && done <= d.Keys
        invariant metrics == Added(m0, Restrict(d, done))
        decreases |remaining|
      {
        var key :| key in remaining;
        AddedStep(m0, d, done, key);
        ghost var cur := metrics;
        Add(key, d[key]);
        assert metrics == cur[key := Lookup(cur, key) + d[key]];
        done := done + {key};
        remaining := remaining - {key};
      }
      assert done == d.Keys;
      RestrictAll(d);
    }

    /** `__getitem__` on a `defaultdict`: reading a missing key inserts it as zero. */
    method Get(key: string) returns (v: real)
      modifies this
      ensures v == Lookup(old(metrics), key)
      ensures metrics == if key in old(metrics) then old(metrics) else old(metrics)[key := 0.0]
    {
      if key !in metrics {
        metrics := metrics[key := 0.0];
      }
      v := metrics[key];
    }

    method Set(key: string, value: real)
      modifies this
      ensures metrics == old(metrics)[key := value]
    {
      metrics := metrics[key := value];
    }

    /** `get_dict`: a copy of the totals; the accumulator itself is untouched. */
    method GetDict() returns (d: Totals)
      ensures d == metrics
    {
      d := metrics;
    }

    /**
     * `__truediv__`: a new accumulator with the same keys. `None` where
     * Python divides by zero. A key divisor that is missing is inserted as
     * zero by the lookup before the division fails.
     */
    method TrueDiv(other: Divisor) returns (r: Option<Accumulator>)
      modifies this
      ensures other.ByValue? ==> metrics == old(metrics)
      ensures other.ByValue? ==> (r.Some? <==> other.value != 0.0 || old(metrics) == map[])
      ensures other.ByValue? && r.Some? ==>
        r.value.metrics == (if other.value == 0.0 then map[] else DividedBy(old(metrics), other.value))
      ensures other.ByKey? ==> (r.Some? <==> KeyDivisible(old(metrics), other.key))
      ensures other.ByKey? && r.Some? ==> metrics == old(metrics)
      ensures other.ByKey? && r.Some? && other.key in old(metrics) && old(metrics)[other.key] != 0.0 ==>
        r.value.metrics == DividedByKey(old(metrics), other.key)
      ensures other.ByKey? && r.Some? && !(other.key in old(metrics) && old(metrics)[other.key] != 0.0) ==>
        r.value.metrics == old(metrics)
      ensures other.ByKey? && r.None? ==>
        metrics == old(metrics)[other.key := Lookup(old(metrics), other.key)]
      ensures r.Some? ==> fresh(r.value)
    {
      match other {
        case ByValue(c) =>
          if c == 0.0 && metrics != map[] {
            return None;
          }
          var d := if c == 0.0 then map[] else DividedBy(metrics, c);
          var newone := new Accumulator();
          newone.metrics := d;
          return Some(newone);
        case ByKey(key) =>
          if !KeyDivisibleCheck(metrics, key) {
            if key !in metrics {
              metrics := metrics[key := 0.0];
            }
            return None;
          }
          var d := if key in metrics && metrics[key] != 0.0 then DividedByKey(metrics, key) else metrics;
          var newone := new Accumulator();
          newone.metrics := d;
          return Some(newone);
      }
    }
  }

  /** The run-time test of `KeyDivisible`. */
  function KeyDivisibleCheck(m: Totals, key: string): (b: bool)
    ensures b <==> forall k :: k in m && k != key ==> Lookup(m, key) != 0.0
  {
    (key in m && m[key] != 0.0) || m.Keys <= {key}
  }
}
