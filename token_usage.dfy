/** The token counts each engine reports and the running totals the answer script keeps per engine. */
module TokenUsage {
  import opened JsNumber

  /** One property of a reply's `usage`: a token count, NaN where the reply left it undefined. */
  datatype Entry = Entry(name: string, count: Num)

  /** A reply's `usage`, in `Object.keys` order. */
  type Usage = seq<Entry>

  /** `totalUsage` of an engine before any image. */
  const InitialUsage: map<string, Num> :=
    map["prompt_tokens" := Finite(0.0), "completion_tokens" := Finite(0.0), "total_tokens" := Finite(0.0)]

  /** `total[name] += count`: an absent name reads as `undefined`, and the sum is NaN. */
  function AddEntry(total: map<string, Num>, e: Entry): (r: map<string, Num>)
    ensures r.Keys == total.Keys + {e.name}
  {
    total[e.name := Add(if e.name in total then total[e.name] else NaN, e.count)]
  }

  /** The totals after the `forEach` over a reply's usage. */
  function Accumulate(total: map<string, Num>, usage: Usage): map<string, Num>
    decreases |usage|
  {
    if |usage| == 0 then total else AddEntry(Accumulate(total, usage[..|usage| - 1]), usage[|usage| - 1])
  }

  /** The sum of the counts `usage` holds under `name`, from 0. */
  function CountOf(usage: Usage, name: string): Num
    decreases |usage|
  {
    if |usage| == 0 then Finite(0.0)
    else
      var last := usage[|usage| - 1];
      var init := CountOf(usage[..|usage| - 1], name);
      if last.name == name then Add(init, last.count) else init
  }

  lemma AddAssociative(x: Num, y: Num, z: Num)
    ensures Add(Add(x, y), z) == Add(x, Add(y, z))
  {
  }

  /**
   * A name the totals already hold ends as its old total plus everything
   * the usage counts under it; every other old name keeps its total.
   */
  lemma {:induction false} AccumulateKey(total: map<string, Num>, usage: Usage, name: string)
    requires name in total
    ensures name in Accumulate(total, usage)
    ensures Accumulate(total, usage)[name] == Add(total[name], CountOf(usage, name))
    decreases |usage|
  {
    if |usage| > 0 {
      var init := usage[..|usage| - 1];
      AccumulateKey(total, init, name);
      AddAssociative(total[name], CountOf(init, name), usage[|usage| - 1].count);
    }
  }

  /** Nothing is counted under a name the usage never mentions. */
  lemma {:induction false} CountOfUnmentioned(usage: Usage, name: string)
    requires forall i :: 0 <= i < |usage| ==> usage[i].name != name
    ensures CountOf(usage, name) == Finite(0.0)
    decreases |usage|
  {
    if |usage| > 0 {
      var init := usage[..|usage| - 1];
      assert forall i :: 0 <= i < |init| ==> init[i] == usage[i];
      CountOfUnmentioned(init, name);
    }
  }

  /** A name the usage never mentions keeps its total. */
  lemma AccumulateUnmentioned(total: map<string, Num>, usage: Usage, name: string)
    requires name in total
    requires forall i :: 0 <= i < |usage| ==> usage[i].name != name
    ensures name in Accumulate(total, usage) && Accumulate(total, usage)[name] == total[name]
  {
    AccumulateKey(total, usage, name);
    CountOfUnmentioned(usage, name);
  }

  /** A name the totals lack becomes NaN as soon as the usage mentions it. */
  lemma {:induction false} AccumulateNewKey(total: map<string, Num>, usage: Usage, i: nat)
    requires i < |usage| && usage[i].name !in total
    ensures usage[i].name in Accumulate(total, usage) && Accumulate(total, usage)[usage[i].name] == NaN
    decreases |usage|
  {
    var init := usage[..|usage| - 1];
    if i < |usage| - 1 {
      assert init[i] == usage[i];
      AccumulateNewKey(total, init, i);
    } else if usage[i].name in Accumulate(total, init) {
      AccumulateKeys(total, init);
      var j :| 0 <= j < |init| && init[j].name == usage[i].name;
      AccumulateNewKey(total, init, j);
    }
  }

  /** The totals hold the old names and every name the usage mentions, and nothing else. */
  lemma {:induction false} AccumulateKeys(total: map<string, Num>, usage: Usage)
    ensures forall k :: k in Accumulate(total, usage) <==>
              k in total || exists i :: 0 <= i < |usage| && usage[i].name == k
    decreases |usage|
  {
    if |usage| > 0 {
      var init := usage[..|usage| - 1];
      AccumulateKeys(total, init);
      assert forall i :: 0 <= i < |init| ==> init[i] == usage[i];
    }
  }

  /** A model engine: its key and the token totals the script keeps for it. */
  class Engine {
    const key: string
    var totalUsage: map<string, Num>

    constructor (key: string)
      ensures this.key == key && totalUsage == InitialUsage
    {
      this.key := key;
      totalUsage := InitialUsage;
    }

    /** `Object.keys(usage).forEach((key) => (engine.totalUsage[key] += usage[key]))`. */
    method Record(usage: Usage)
      modifies this
      ensures totalUsage == Accumulate(old(totalUsage), usage)
    {
      for i := 0 to |usage|
        invariant totalUsage == Accumulate(old(totalUsage), usage[..i])
      {
        assert usage[..i + 1][..i] == usage[..i];
        totalUsage := AddEntry(totalUsage, usage[i]);
      }
      assert usage[..|usage|] == usage;
    }
  }
}
