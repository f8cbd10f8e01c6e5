/**
 * The answer script: each image's id is read from its file name, every
 * chosen engine's reply is normalised into a one-paragraph answer, the
 * engines' token usage is accumulated, the responses are sorted by id, and
 * one answer file per engine is assembled as `id. answer` blocks separated
 * by blank lines, the layout the question segmenter reads.
 */
module Answers {
  import opened Wrappers
  import opened JsNumber
  import opened Ascii
  import opened EndOfLine
  import opened Segmenter
  import opened Layout
  import opened TokenUsage
  import opened ImageNames
  import opened AnswerText
  import opened Engines
  import opened ResponseOrder

  /** Engine `j`'s totals after the images of `replies`, in order. */
  function Totals(total: map<string, Num>, replies: seq<seq<Reply>>, j: nat): map<string, Num>
    requires forall k :: 0 <= k < |replies| ==> j < |replies[k]|
    decreases |replies|
  {
    if |replies| == 0 then total
    else
      var n := |replies| - 1;
      Accumulate(Totals(total, replies[..n], j), replies[n][j].usage)
  }

  /** Everything engine `j` reported as usage over the images of `replies`, joined in order. */
  function EngineUsage(replies: seq<seq<Reply>>, j: nat): Usage
    requires forall k :: 0 <= k < |replies| ==> j < |replies[k]|
    decreases |replies|
  {
    if |replies| == 0 then []
    else
      var n := |replies| - 1;
      EngineUsage(replies[..n], j) + replies[n][j].usage
  }

  /** Accumulating two usages in turn is accumulating them joined. */
  lemma {:induction false} AccumulateConcat(total: map<string, Num>, u: Usage, v: Usage)
    ensures Accumulate(Accumulate(total, u), v) == Accumulate(total, u + v)
    decreases |v|
  {
    if |v| > 0 {
      var init := v[..|v| - 1];
      AccumulateConcat(total, u, init);
      assert (u + v)[..|u + v| - 1] == u + init && (u + v)[|u + v| - 1] == v[|v| - 1];
    } else {
      assert u + v == u;
    }
  }

  /** Accumulating image after image is accumulating all of the engine's usage joined. */
  lemma {:induction false} TotalsConcat(total: map<string, Num>, replies: seq<seq<Reply>>, j: nat)
    requires forall k :: 0 <= k < |replies| ==> j < |replies[k]|
    ensures Totals(total, replies, j) == Accumulate(total, EngineUsage(replies, j))
    decreases |replies|
  {
    if |replies| > 0 {
      var n := |replies| - 1;
      TotalsConcat(total, replies[..n], j);
      AccumulateConcat(total, EngineUsage(replies[..n], j), replies[n][j].usage);
    }
  }

  /**
   * From the initial totals, each of the three counters ends as the sum of
   * everything the engine's replies counted under its name.
   */
  lemma TotalsFromStart(replies: seq<seq<Reply>>, j: nat, name: string)
    requires forall k :: 0 <= k < |replies| ==> j < |replies[k]|
    requires name in InitialUsage
    ensures name in Totals(InitialUsage, replies, j)
    ensures Totals(InitialUsage, replies, j)[name] == CountOf(EngineUsage(replies, j), name)
  {
    TotalsConcat(InitialUsage, replies, j);
    AccumulateKey(InitialUsage, EngineUsage(replies, j), name);
  }

  /** Every image's file name holds an id. */
  predicate Identified(images: seq<string>) {
    forall k :: 0 <= k < |images| ==> ImageId(images[k]).Some?
  }

  /** One more image grows an engine's totals by its usage on that image. */
  lemma TotalsSnoc(total: map<string, Num>, replies: seq<seq<Reply>>, k: nat, j: nat)
    requires k < |replies| && forall l :: 0 <= l < |replies| ==> j < |replies[l]|
    ensures Totals(total, replies[..k + 1], j) == Accumulate(Totals(total, replies[..k], j), replies[k][j].usage)
  {
    assert replies[..k + 1][..k] == replies[..k];
  }

  /** The engines' totals as they stand. */
  ghost function CurrentTotals(engines: seq<Engine>): (r: seq<map<string, Num>>)
    reads engines
    ensures |r| == |engines| && forall j :: 0 <= j < |engines| ==> r[j] == engines[j].totalUsage
    decreases |engines|
  {
    if |engines| == 0 then [] else CurrentTotals(engines[..|engines| - 1]) + [engines[|engines| - 1].totalUsage]
  }

  /**
   * One turn of the image loop: `processImage` on the `k`-th image, with
   * every engine's totals followed from `start`, its totals before the
   * first image.
   */
  method ProcessNext(image: string, engines: seq<Engine>, replies: seq<seq<Reply>>, k: nat, ghost start: seq<map<string, Num>>)
    returns (r: Option<Response>)
    requires k < |replies| && forall l :: 0 <= l < |replies| ==> |replies[l]| == |engines|
    requires DistinctEngines(engines) && |start| == |engines|
    requires forall j :: 0 <= j < |engines| ==> engines[j].totalUsage == Totals(start[j], replies[..k], j)
    modifies set i | 0 <= i < |engines| :: engines[i]
    ensures r == ResponseFor(image, Keys(engines), replies[k])
    ensures r.Some? ==> forall j :: 0 <= j < |engines| ==> engines[j].totalUsage == Totals(start[j], replies[..k + 1], j)
  {
    r := ProcessImage(image, engines, replies[k]);
    if r.Some? {
      forall j | 0 <= j < |engines|
        ensures engines[j].totalUsage == Totals(start[j], replies[..k + 1], j)
      {
        assert old(engines[j].totalUsage) == Totals(start[j], replies[..k], j);
        TotalsSnoc(start[j], replies, k, j);
      }
    }
  }

  /** Every outcome, in order, when none is missing; otherwise None. */
  function All<T>(os: seq<Option<T>>): Option<seq<T>>
    decreases |os|
  {
    if |os| == 0 then Some([])
    else
      match All(os[..|os| - 1])
      case None => None
      case Some(xs) =>
        match os[|os| - 1]
        case None => None
        case Some(x) => Some(xs + [x])
  }

  /** One more outcome extends the collection by itself, or ends it when missing. */
  lemma AllSnoc<T>(os: seq<Option<T>>, k: nat, xs: seq<T>)
    requires k < |os| && All(os[..k]) == Some(xs)
    ensures All(os[..k + 1]) == if os[k].Some? then Some(xs + [os[k].value]) else None
  {
    assert os[..k + 1][..k] == os[..k];
  }

  /** A missing outcome in a prefix leaves nothing collected. */
  lemma {:induction false} AllPrefix<T>(os: seq<Option<T>>, m: nat)
    requires m <= |os| && All(os[..m]).None?
    ensures All(os).None?
    decreases |os|
  {
    if m == |os| {
      assert os[..m] == os;
    } else {
      var n := |os| - 1;
      assert os[..n][..m] == os[..m];
      AllPrefix(os[..n], m);
    }
  }

  /** The collection exists exactly when no outcome is missing. */
  lemma {:induction false} AllSome<T>(os: seq<Option<T>>)
    ensures All(os).Some? <==> forall k :: 0 <= k < |os| ==> os[k].Some?
    decreases |os|
  {
    if |os| > 0 {
      var n := |os| - 1;
      AllSome(os[..n]);
      assert forall k :: 0 <= k < n ==> os[..n][k] == os[k];
    }
  }

  /** The collection holds one value per outcome. */
  lemma {:induction false} AllLength<T>(os: seq<Option<T>>)
    requires All(os).Some?
    ensures |All(os).value| == |os|
    decreases |os|
  {
    if |os| > 0 {
      AllLength(os[..|os| - 1]);
    }
  }

  /** The collection holds every outcome's value, in order. */
  lemma {:induction false} AllAt<T>(os: seq<Option<T>>, k: nat)
    requires All(os).Some? && k < |os|
    ensures |All(os).value| == |os| && Some(All(os).value[k]) == os[k]
    decreases |os|
  {
    AllLength(os);
    var n := |os| - 1;
    if n > 0 {
      AllAt(os[..n], if k < n then k else 0);
      assert k < n ==> os[..n][k] == os[k];
    }
  }

  /** What `processImage` gives for each image in turn: a response, or none when the file name holds no id. */
  function Outcomes(images: seq<string>, keys: seq<string>, replies: seq<seq<Reply>>): (r: seq<Option<Response>>)
    requires |replies| == |images| && forall k :: 0 <= k < |images| ==> |replies[k]| == |keys|
    ensures |r| == |images|
  {
    seq(|images|, k requires 0 <= k < |images| => ResponseFor(images[k], keys, replies[k]))
  }

  /** The responses the image loop collects: one per image, in order, or none when an image has no id. */
  function Collected(images: seq<string>, keys: seq<string>, replies: seq<seq<Reply>>): Option<seq<Response>>
    requires |replies| == |images| && forall k :: 0 <= k < |images| ==> |replies[k]| == |keys|
  {
    All(Outcomes(images, keys, replies))
  }

  /** The responses are collected exactly when every image's file name holds an id. */
  lemma CollectedSome(images: seq<string>, keys: seq<string>, replies: seq<seq<Reply>>)
    requires |replies| == |images| && forall k :: 0 <= k < |images| ==> |replies[k]| == |keys|
    ensures Collected(images, keys, replies).Some? <==> Identified(images)
  {
    var os := Outcomes(images, keys, replies);
    AllSome(os);
    assert forall k :: 0 <= k < |images| ==> (os[k].Some? <==> ImageId(images[k]).Some?);
  }

  /** One response is collected per image. */
  lemma CollectedLength(images: seq<string>, keys: seq<string>, replies: seq<seq<Reply>>)
    requires |replies| == |images| && forall l :: 0 <= l < |images| ==> |replies[l]| == |keys|
    requires Collected(images, keys, replies).Some?
    ensures |Collected(images, keys, replies).value| == |images|
  {
    AllLength(Outcomes(images, keys, replies));
  }

  /** The collected responses are the response of each image, in the order of the images. */
  lemma CollectedAt(images: seq<string>, keys: seq<string>, replies: seq<seq<Reply>>, k: nat)
    requires |replies| == |images| && forall l :: 0 <= l < |images| ==> |replies[l]| == |keys|
    requires Collected(images, keys, replies).Some? && k < |images|
    ensures |Collected(images, keys, replies).value| == |images|
    ensures Some(Collected(images, keys, replies).value[k]) == ResponseFor(images[k], keys, replies[k])
  {
    AllAt(Outcomes(images, keys, replies), k);
  }

  /**
   * The loop `for (const image of images)`: a response per image, in order,
   * unless some file name holds no id, which ends the run; each engine's
   * totals grow by its usage on every image.
   */
  method CollectResponses(images: seq<string>, engines: seq<Engine>, replies: seq<seq<Reply>>)
    returns (r: Option<seq<Response>>)
    requires |replies| == |images| && forall k :: 0 <= k < |images| ==> |replies[k]| == |engines|
    requires DistinctEngines(engines)
    modifies set i | 0 <= i < |engines| :: engines[i]
    ensures r == Collected(images, Keys(engines), replies)
    ensures r.Some? <==> Identified(images)
    ensures r.Some? ==> forall j :: 0 <= j < |engines| ==>
              engines[j].totalUsage == Totals(old(engines[j].totalUsage), replies, j)
  {
    var keys := Keys(engines);
    ghost var start := CurrentTotals(engines);
    ghost var outcomes := Outcomes(images, keys, replies);
    var responses := [];
    for k := 0 to |images|
      invariant All(outcomes[..k]) == Some(responses)
      invariant forall j :: 0 <= j < |engines| ==> engines[j].totalUsage == Totals(start[j], replies[..k], j)
    {
      var response := ProcessNext(images[k], engines, replies, k, start);
      assert response == outcomes[k];
      AllSnoc(outcomes, k, responses);
      if response.None? {
        AllPrefix(outcomes, k + 1);
        CollectedSome(images, keys, replies);
        return None;
      }
      responses := responses + [response.value];
    }
    assert outcomes[..|images|] == outcomes && replies[..|images|] == replies;
    CollectedSome(images, keys, replies);
    r := Some(responses);
  }

  /** `item.messages[engineKey]` in a template string: the engine's answer, or `undefined` when it gave none. */
  function Text(r: Response, key: string): string {
    if key in r.messages then r.messages[key] else "undefined"
  }

  /** `${item.id}. ${item.messages[engineKey]}`, as the question it reads back as. */
  function Item(r: Response, key: string): Match {
    Match(Decimal(r.id), Text(r, key))
  }

  function Items(rs: seq<Response>, key: string): (ms: seq<Match>)
    ensures |ms| == |rs| && forall i :: 0 <= i < |rs| ==> ms[i] == Item(rs[i], key)
  {
    seq(|rs|, i requires 0 <= i < |rs| => Item(rs[i], key))
  }

  /** The answer file of one engine: one `id. answer` block per response, separated by blank lines. */
  function AnswerContent(rs: seq<Response>, key: string): string {
    Join(Blocks(Items(rs, key)), "\n\n")
  }

  /** Responses with pairwise different ids. */
  predicate DistinctIds(rs: seq<Response>) {
    forall i, j :: 0 <= i < j < |rs| ==> rs[i].id != rs[j].id
  }

  /**
   * An answer file reads back, through the question segmenter, as exactly
   * one question per response, keyed by its id and holding the engine's
   * answer, as long as the ids differ and no answer holds a blank line.
   */
  lemma AnswerContentReadBack(rs: seq<Response>, key: string)
    requires DistinctIds(rs)
    requires forall i :: 0 <= i < |rs| ==> !HasBlankLine(Text(rs[i], key)) && IsTrimmed(Text(rs[i], key))
    ensures var q := GetQuestions(AnswerContent(rs, key));
            && (forall k :: k in q <==> exists i :: 0 <= i < |rs| && Decimal(rs[i].id) == k)
            && (forall i :: 0 <= i < |rs| ==> q[Decimal(rs[i].id)] == Text(rs[i], key))
  {
    var ms := Items(rs, key);
    forall i, j | 0 <= i < j < |ms| ensures ms[i].key != ms[j].key {
      if ms[i].key == ms[j].key {
        DecimalInjective(rs[i].id, rs[j].id);
      }
    }
    GetQuestionsOfJoined(ms);
  }

  /** Responses with distinct ids occur at most once each. */
  lemma {:induction false} AtMostOnce(rs: seq<Response>)
    requires DistinctIds(rs)
    ensures forall x :: multiset(rs)[x] <= 1
    decreases |rs|
  {
    if |rs| > 0 {
      var n := |rs| - 1;
      var init := rs[..n];
      assert DistinctIds(init) by {
        assert forall i :: 0 <= i < n ==> init[i] == rs[i];
      }
      AtMostOnce(init);
      assert rs == init + [rs[n]];
      assert rs[n] !in init by {
        assert forall i :: 0 <= i < n ==> init[i].id != rs[n].id;
      }
    }
  }

  /** A value at two positions occurs at least twice. */
  lemma Twice(rs: seq<Response>, i: nat, j: nat)
    requires i < j < |rs| && rs[i] == rs[j]
    ensures multiset(rs)[rs[i]] >= 2
  {
    assert rs == rs[..j] + [rs[j]] + rs[j + 1..];
    assert rs[..j][i] == rs[i];
  }

  /** Reordering keeps the ids distinct. */
  lemma DistinctIdsPermutation(a: seq<Response>, b: seq<Response>)
    requires DistinctIds(a) && multiset(a) == multiset(b)
    ensures DistinctIds(b)
  {
    AtMostOnce(a);
    forall i, j | 0 <= i < j < |b| ensures b[i].id != b[j].id {
      assert b[i] in multiset(a) && b[j] in multiset(a);
      var p :| 0 <= p < |a| && a[p] == b[i];
      var q :| 0 <= q < |a| && a[q] == b[j];
      if b[i].id == b[j].id {
        assert p == q;
        Twice(b, i, j);
      }
    }
  }

  /** Every image's file name holds an id, and no two hold the same. */
  predicate DistinctImageIds(images: seq<string>) {
    && Identified(images)
    && forall k, l :: 0 <= k < l < |images| ==> ImageId(images[k]).value != ImageId(images[l]).value
  }

  /** No two engines share a key. */
  predicate DistinctKeys(keys: seq<string>) {
    forall j, l :: 0 <= j < l < |keys| ==> keys[j] != keys[l]
  }

  /** No reply holds three line feeds in a row once its line endings are unified. */
  predicate PlainReplies(replies: seq<seq<Reply>>) {
    forall k, j :: 0 <= k < |replies| && 0 <= j < |replies[k]| ==> !HasTriple(Unify(replies[k][j].message))
  }

  /** The collected response of image `k`: its id, and engine `j`'s message is its answer. */
  lemma CollectedResponse(images: seq<string>, keys: seq<string>, replies: seq<seq<Reply>>, k: nat, j: nat)
    requires |replies| == |images| && forall l :: 0 <= l < |images| ==> |replies[l]| == |keys|
    requires Collected(images, keys, replies).Some? && k < |images| && j < |keys| && DistinctKeys(keys)
    ensures var c := Collected(images, keys, replies).value;
            && |c| == |images| && Some(c[k].id) == ImageId(images[k])
            && Text(c[k], keys[j]) == Answer(replies[k][j].message)
  {
    CollectedAt(images, keys, replies, k);
    MessagesAt(keys, replies[k], j);
  }

  /** Images with distinct ids give collected responses with distinct ids. */
  lemma CollectedDistinctIds(images: seq<string>, keys: seq<string>, replies: seq<seq<Reply>>)
    requires |replies| == |images| && forall l :: 0 <= l < |images| ==> |replies[l]| == |keys|
    requires DistinctImageIds(images) && Collected(images, keys, replies).Some?
    ensures DistinctIds(Collected(images, keys, replies).value)
  {
    var c := Collected(images, keys, replies).value;
    CollectedLength(images, keys, replies);
    forall k, l | 0 <= k < l < |c| ensures c[k].id != c[l].id {
      CollectedAt(images, keys, replies, k);
      CollectedAt(images, keys, replies, l);
    }
  }

  /** A response of a reordering is some image's collected response. */
  lemma FromImage(images: seq<string>, keys: seq<string>, replies: seq<seq<Reply>>, rs: seq<Response>, i: nat)
    returns (k: nat)
    requires |replies| == |images| && forall l :: 0 <= l < |images| ==> |replies[l]| == |keys|
    requires Collected(images, keys, replies).Some? && multiset(rs) == multiset(Collected(images, keys, replies).value)
    requires i < |rs|
    ensures k < |images| && |Collected(images, keys, replies).value| == |images| && rs[i] == Collected(images, keys, replies).value[k]
  {
    var c := Collected(images, keys, replies).value;
    CollectedLength(images, keys, replies);
    assert rs[i] in multiset(c);
    k :| 0 <= k < |c| && c[k] == rs[i];
  }

  /** Each image's collected response appears in a reordering. */
  lemma ToPosition(images: seq<string>, keys: seq<string>, replies: seq<seq<Reply>>, rs: seq<Response>, k: nat)
    returns (i: nat)
    requires |replies| == |images| && forall l :: 0 <= l < |images| ==> |replies[l]| == |keys|
    requires Collected(images, keys, replies).Some? && multiset(rs) == multiset(Collected(images, keys, replies).value)
    requires k < |images|
    ensures i < |rs| && |Collected(images, keys, replies).value| == |images| && rs[i] == Collected(images, keys, replies).value[k]
  {
    var c := Collected(images, keys, replies).value;
    CollectedLength(images, keys, replies);
    assert c[k] in multiset(rs);
    i :| 0 <= i < |rs| && rs[i] == c[k];
  }

  /**
   * End to end: when the file names carry distinct ids, the engines have
   * distinct keys and no reply holds three line feeds in a row, the answer
   * file of engine `j`, written from the responses in any order, reads back
   * as one question per image, keyed by the image's id and holding that
   * engine's answer to it.
   */
  lemma AnswerFileReadBack(images: seq<string>, keys: seq<string>, replies: seq<seq<Reply>>, rs: seq<Response>, j: nat)
    requires |replies| == |images| && forall l :: 0 <= l < |images| ==> |replies[l]| == |keys|
    requires DistinctImageIds(images) && DistinctKeys(keys) && PlainReplies(replies) && j < |keys|
    requires Collected(images, keys, replies).Some? && multiset(rs) == multiset(Collected(images, keys, replies).value)
    ensures var q := GetQuestions(AnswerContent(rs, keys[j]));
            && (forall key :: key in q <==> exists k :: 0 <= k < |images| && key == Decimal(ImageId(images[k]).value))
            && (forall k :: 0 <= k < |images| ==> q[Decimal(ImageId(images[k]).value)] == Answer(replies[k][j].message))
  {
    CollectedDistinctIds(images, keys, replies);
    DistinctIdsPermutation(Collected(images, keys, replies).value, rs);
    forall i | 0 <= i < |rs| ensures !HasBlankLine(Text(rs[i], keys[j])) && IsTrimmed(Text(rs[i], keys[j])) {
      var k := FromImage(images, keys, replies, rs, i);
      CollectedResponse(images, keys, replies, k, j);
      AnswerHasNoBlankLine(replies[k][j].message);
    }
    AnswerContentReadBack(rs, keys[j]);
    var q := GetQuestions(AnswerContent(rs, keys[j]));
    forall k | 0 <= k < |images|
      ensures Decimal(ImageId(images[k]).value) in q
      ensures q[Decimal(ImageId(images[k]).value)] == Answer(replies[k][j].message)
    {
      var i := ToPosition(images, keys, replies, rs, k);
      CollectedResponse(images, keys, replies, k, j);
    }
    forall key | key in q ensures exists k :: 0 <= k < |images| && key == Decimal(ImageId(images[k]).value) {
      var i :| 0 <= i < |rs| && Decimal(rs[i].id) == key;
      var k := FromImage(images, keys, replies, rs, i);
      CollectedResponse(images, keys, replies, k, j);
    }
  }

  /** `responses.sort(...)` on a copy of the collected responses. */
  method SortResponses(rs: seq<Response>) returns (sorted: seq<Response>)
    ensures SortedById(sorted) && multiset(sorted) == multiset(rs)
  {
    var a := new Response[|rs|](i requires 0 <= i < |rs| => rs[i]);
    assert a[..] == rs;
    SortById(a);
    sorted := a[..];
  }

  /** The loop `for (const engineKey of engines)`: the content of each engine's answer file, in order. */
  method AnswerContents(rs: seq<Response>, keys: seq<string>) returns (files: seq<string>)
    ensures |files| == |keys| && forall j :: 0 <= j < |keys| ==> files[j] == AnswerContent(rs, keys[j])
  {
    files := [];
    for j := 0 to |keys|
      invariant |files| == j
      invariant forall l :: 0 <= l < j ==> files[l] == AnswerContent(rs, keys[l])
    {
      files := files + [AnswerContent(rs, keys[j])];
    }
  }

  /** What the run leaves behind: the responses as sorted and one answer file per engine. */
  datatype Run = Run(responses: seq<Response>, files: seq<string>)

  /**
   * The run over all images: the responses collected, sorted by id, and for
   * each engine in turn the content of its answer file; nothing when some
   * image's file name holds no id.
   */
  method AnswerFiles(images: seq<string>, engines: seq<Engine>, replies: seq<seq<Reply>>)
    returns (r: Option<Run>)
    requires |replies| == |images| && forall k :: 0 <= k < |images| ==> |replies[k]| == |engines|
    requires DistinctEngines(engines)
    modifies set i | 0 <= i < |engines| :: engines[i]
    ensures r.Some? <==> Identified(images)
    ensures r.Some? ==> var collected := Collected(images, Keys(engines), replies);
              && collected.Some?
              && SortedById(r.value.responses)
              && multiset(r.value.responses) == multiset(collected.value)
    ensures r.Some? ==> |r.value.files| == |engines|
    ensures r.Some? ==> forall j :: 0 <= j < |engines| ==> r.value.files[j] == AnswerContent(r.value.responses, engines[j].key)
    ensures r.Some? ==> forall j :: 0 <= j < |engines| ==>
              engines[j].totalUsage == Totals(old(engines[j].totalUsage), replies, j)
  {
    var collected := CollectResponses(images, engines, replies);
    if collected.None? {
      return None;
    }
    var sorted := SortResponses(collected.value);
    var files := AnswerContents(sorted, Keys(engines));
    r := Some(Run(sorted, files));
  }
}
