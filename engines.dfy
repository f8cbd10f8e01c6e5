/**
 * `processImage`: the id of one image, every chosen engine's answer to it
 * by engine key, and the engines' totals grown by their replies' usage.
 */
module Engines {
  import opened Wrappers
  import opened JsNumber
  import opened TokenUsage
  import opened AnswerText
  import opened ImageNames

  /** Any two positions of `engines` hold different engine objects. */
  predicate DistinctEngines(engines: seq<Engine>) {
    forall i, j :: 0 <= i < j < |engines| ==> engines[i] != engines[j]
  }

  /** The keys of the chosen engines, in order. */
  function Keys(engines: seq<Engine>): (r: seq<string>)
    ensures |r| == |engines| && forall i :: 0 <= i < |engines| ==> r[i] == engines[i].key
  {
    seq(|engines|, i requires 0 <= i < |engines| => engines[i].key)
  }

  /** What `engine.handle` resolves to: the reply text and its token usage. */
  datatype Reply = Reply(message: string, usage: Usage)

  /** `{ id: Number(id), messages }` of one image. */
  datatype Response = Response(id: nat, messages: map<string, string>)

  /** `messages[engineKey] = message` for each engine in turn, a later key replacing an earlier one. */
  function Stored(keys: seq<string>, texts: seq<string>): map<string, string>
    requires |keys| == |texts|
    decreases |keys|
  {
    if |keys| == 0 then map[]
    else
      var n := |keys| - 1;
      Stored(keys[..n], texts[..n])[keys[n] := texts[n]]
  }

  /** The answer kept for each reply, in order. */
  function AnswerTexts(replies: seq<Reply>): (r: seq<string>)
    ensures |r| == |replies|
  {
    seq(|replies|, i requires 0 <= i < |replies| => Answer(replies[i].message))
  }

  /** The answers by engine key. */
  function Messages(keys: seq<string>, replies: seq<Reply>): map<string, string>
    requires |keys| == |replies|
  {
    Stored(keys, AnswerTexts(replies))
  }

  /** The texts are stored under the keys and no others. */
  lemma {:induction false} StoredKeys(keys: seq<string>, texts: seq<string>)
    requires |keys| == |texts|
    ensures forall k :: k in Stored(keys, texts) <==> k in keys
    decreases |keys|
  {
    if |keys| > 0 {
      var n := |keys| - 1;
      StoredKeys(keys[..n], texts[..n]);
      assert keys == keys[..n] + [keys[n]];
    }
  }

  /** The messages are stored under the engines' keys and no others. */
  lemma MessagesKeys(keys: seq<string>, replies: seq<Reply>)
    requires |keys| == |replies|
    ensures forall k :: k in Messages(keys, replies) <==> k in keys
  {
    StoredKeys(keys, AnswerTexts(replies));
  }

  /** With distinct keys, each text is stored under its own key. */
  lemma {:induction false} StoredAt(keys: seq<string>, texts: seq<string>, i: nat)
    requires |keys| == |texts| && i < |keys|
    requires forall j, l :: 0 <= j < l < |keys| ==> keys[j] != keys[l]
    ensures keys[i] in Stored(keys, texts) && Stored(keys, texts)[keys[i]] == texts[i]
    decreases |keys|
  {
    var n := |keys| - 1;
    if i < n {
      assert keys[..n][i] == keys[i] && texts[..n][i] == texts[i];
      StoredAt(keys[..n], texts[..n], i);
    }
  }

  /** With distinct keys, each engine's answer is stored under its own key. */
  lemma MessagesAt(keys: seq<string>, replies: seq<Reply>, i: nat)
    requires |keys| == |replies| && i < |keys|
    requires forall j, l :: 0 <= j < l < |keys| ==> keys[j] != keys[l]
    ensures keys[i] in Messages(keys, replies) && Messages(keys, replies)[keys[i]] == Answer(replies[i].message)
  {
    StoredAt(keys, AnswerTexts(replies), i);
  }

  /** One more text extends the stored map by its key. */
  lemma StoredSnoc(keys: seq<string>, texts: seq<string>, i: nat)
    requires |keys| == |texts| && i < |keys|
    ensures Stored(keys[..i + 1], texts[..i + 1]) == Stored(keys[..i], texts[..i])[keys[i] := texts[i]]
  {
    assert keys[..i + 1][..i] == keys[..i] && texts[..i + 1][..i] == texts[..i];
  }

  /** The first `i` engines' totals have grown by their usage, the others are as they were. */
  twostate predicate Recorded(engines: seq<Engine>, replies: seq<Reply>, i: nat)
    requires |replies| == |engines| && i <= |engines|
    reads engines
  {
    && (forall j :: 0 <= j < i ==> engines[j].totalUsage == Accumulate(old(engines[j].totalUsage), replies[j].usage))
    && (forall j :: i <= j < |engines| ==> engines[j].totalUsage == old(engines[j].totalUsage))
  }

  /**
   * The loop of `processImage` over the chosen engines: every engine's
   * answer under its key, and every engine's totals grown by its reply's
   * usage.
   */
  method AskEngines(engines: seq<Engine>, replies: seq<Reply>) returns (messages: map<string, string>)
    requires |replies| == |engines| && DistinctEngines(engines)
    modifies set i | 0 <= i < |engines| :: engines[i]
    ensures messages == Messages(Keys(engines), replies)
    ensures forall i :: 0 <= i < |engines| ==>
              engines[i].totalUsage == Accumulate(old(engines[i].totalUsage), replies[i].usage)
  {
    var keys := Keys(engines);
    ghost var texts := AnswerTexts(replies);
    messages := map[];
    for i := 0 to |engines|
      invariant messages == Stored(keys[..i], texts[..i])
      invariant Recorded(engines, replies, i)
    {
      StoredSnoc(keys, texts, i);
      var message := Answer(replies[i].message);
      assert message == texts[i];
      messages := messages[engines[i].key := message];
      engines[i].Record(replies[i].usage);
      assert Recorded(engines, replies, i + 1);
    }
    assert keys[..|engines|] == keys && texts[..|engines|] == texts;
  }

  /** The response of an image: none when its file name holds no id, otherwise the id and the answers by key. */
  function ResponseFor(image: string, keys: seq<string>, replies: seq<Reply>): (r: Option<Response>)
    requires |keys| == |replies|
    ensures r.Some? <==> ImageId(image).Some?
  {
    match ImageId(image)
    case None => None
    case Some(id) => Some(Response(id, Messages(keys, replies)))
  }

  /**
   * `processImage(image)` with the engines' replies given: no response when
   * the file name holds no `_digits.` (the destructuring of `null` throws),
   * and then no engine is touched; otherwise the id with the engines'
   * answers by key, and every engine's totals grown by its reply's usage.
   */
  method ProcessImage(image: string, engines: seq<Engine>, replies: seq<Reply>) returns (r: Option<Response>)
    requires |replies| == |engines| && DistinctEngines(engines)
    modifies set i | 0 <= i < |engines| :: engines[i]
    ensures r == ResponseFor(image, Keys(engines), replies)
    ensures r.None? ==> forall i :: 0 <= i < |engines| ==> engines[i].totalUsage == old(engines[i].totalUsage)
    ensures r.Some? ==> forall i :: 0 <= i < |engines| ==>
              engines[i].totalUsage == Accumulate(old(engines[i].totalUsage), replies[i].usage)
  {
    var id := ImageId(image);
    if id.None? {
      return None;
    }
    var messages := AskEngines(engines, replies);
    r := Some(Response(id.value, messages));
  }
}
