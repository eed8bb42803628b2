/**
 * `score.py`: the items of the merged answers file are judged one at a time. A
 * complete item whose record already holds an `llm_score` reuses it; any other
 * complete item is sent to the model once. Either way the item's record is built
 * anew and the whole store is written after each item. At the end the
 * per-category report is made from all records, with no coercion step.
 */
module Score {
  import opened Wrappers
  import opened Json
  import opened Runtime
  import opened Items
  import Text
  import Dicts
  import Aggregate

  // ---------------------------------------------------------------------------
  // The verdict of one judge call (`evaluate_llm_judge`)

  function Intro(): string
  {
    "你是一个问答判定助手，请根据以下内容判断“模型回答”是否正确。只返回“1”表示正确，“0”表示错误，不要有其它解释。"
    + "\n\n            问题："
  }

  function Closing(): string
  {
    "\n\n            请判断模型回答是否正确（1表示正确，0表示错误）：\n    "
  }

  /** The prompt of `evaluate_llm_judge`; `question` is already rendered by the f-string. */
  function ItemPrompt(question: string, gt: string, pred: string): string
  {
    Intro() + question + "\n            参考答案：" + gt + "\n            模型回答：" + pred + Closing()
  }

  /**
   * What `evaluate_llm_judge` returns for a reply: the string "1" or "0" read off the
   * start of the stripped content ("1" tested first), `None` for anything else, and
   * the integer 0 when the call or the content lookup raises.
   */
  function Verdict(reply: Reply): (v: Value)
    ensures v == Str("1") || v == Str("0") || v == Null || v == Int(0)
    ensures v == Int(0) <==> reply.Raised? || reply == Answered(None)
  {
    match reply
    case Raised => Int(0)
    case Answered(None) => Int(0)
    case Answered(Some(c)) =>
      var t := Text.Strip(c);
      if Text.StartsWith(t, "1") then Str("1")
      else if Text.StartsWith(t, "0") then Str("0")
      else Null
  }

  /** `ch` is the first character of `c` that is not white space. */
  ghost predicate FirstNonSpace(c: string, ch: char)
  {
    exists i :: 0 <= i < |c| && c[i] == ch && forall k :: 0 <= k < i ==> Text.IsSpace(c[k])
  }

  /** The stripped content starts with a non-space `ch` exactly when `ch` is the first non-space character. */
  lemma StrippedStartsWith(c: string, ch: char)
    requires !Text.IsSpace(ch)
    ensures Text.StartsWith(Text.Strip(c), [ch]) <==> FirstNonSpace(c, ch)
  {
    var i := Text.LeadingRun(c, Text.IsSpace);
    var j := Text.TrailingCut(c[i..], Text.IsSpace);
    assert Text.Strip(c) == c[i..i + j];
    if FirstNonSpace(c, ch) {
      var m :| 0 <= m < |c| && c[m] == ch && forall k :: 0 <= k < m ==> Text.IsSpace(c[k]);
      assert i == m;
      assert c[i..][0] == c[i];
      assert Text.Strip(c)[0] == ch;
    }
    if Text.StartsWith(Text.Strip(c), [ch]) {
      assert c[i] == ch;
      forall k | 0 <= k < i ensures Text.IsSpace(c[k]) {
        assert c[..i][k] == c[k];
      }
    }
  }

  /** The verdict depends only on the first character of the content that is not white space. */
  lemma VerdictByFirstCharacter(c: string)
    ensures Verdict(Answered(Some(c))) == Str("1") <==> FirstNonSpace(c, '1')
    ensures Verdict(Answered(Some(c))) == Str("0") <==> FirstNonSpace(c, '0')
    ensures Verdict(Answered(Some(c))) == Null <==> !FirstNonSpace(c, '1') && !FirstNonSpace(c, '0')
  {
    StrippedStartsWith(c, '1');
    StrippedStartsWith(c, '0');
    assert "1" == ['1'] && "0" == ['0'];
  }

  /** The arguments of `evaluate_llm_judge`: the question, `str(answer)` and `str(response)`. */
  datatype Question = Question(question: Value, gt: string, pred: string)

  /** The judge of `main`, given the question and the number of calls made before. */
  type Judge = (Question, nat) -> Value

  function LlmJudge(ext: Externals): Judge
  {
    (a: Question, n: nat) => Verdict(ext.send(n, ItemPrompt(ext.StrOf(a.question), a.gt, a.pred)))
  }

  /** The question `main` asks about a complete item. */
  function QuestionOf(item: Record, ext: Externals): Question
    requires Complete(item)
  {
    Question(item["question"], ext.StrOf(item["answer"]), ext.StrOf(item["response"]))
  }

  // ---------------------------------------------------------------------------
  // The item loop of `main`

  /** The record written for a complete item, with the `llm_score` given. */
  function ItemRecord(item: Record, llm: Value, ext: Externals): (r: Record)
    requires Complete(item)
    ensures r.Keys == {"question", "answer", "response", "category", "bleu_score", "f1_score", "llm_score"}
    ensures r["question"] == item["question"] && r["category"] == item["category"] && r["llm_score"] == llm
  {
    var gt := ext.StrOf(item["answer"]);
    var pred := ext.StrOf(item["response"]);
    map[
      "question" := item["question"],
      "answer" := Str(gt),
      "response" := Str(pred),
      "category" := item["category"],
      "bleu_score" := Real(ext.bleu1(pred, gt)),
      "f1_score" := Real(ext.f1(pred, gt)),
      "llm_score" := llm]
  }

  /** The loop state: the store, the judge calls made, and the stores written, in order. */
  datatype Scoring = Scoring(store: Store, calls: nat, writes: seq<Store>)

  function Start(store0: Store): Scoring
  {
    Scoring(store0, 0, [])
  }

  /** The `llm_score` the loop uses for a complete item, and the judge calls made after it. */
  function LlmScore(k: string, item: Record, p: Scoring, judge: Judge, ext: Externals): (Value, nat)
    requires Complete(item)
  {
    if Judged(p.store, k) then (p.store.vals[k]["llm_score"], p.calls)
    else (judge(QuestionOf(item, ext), p.calls), p.calls + 1)
  }

  /** One pass of the loop body for key `k`: skip an incomplete item, otherwise rewrite its record and the file. */
  function ScoreItem(k: string, data: Store, p: Scoring, judge: Judge, ext: Externals): (q: Scoring)
    requires k in data.vals
    ensures !Complete(data.vals[k]) ==> q == p
    ensures Complete(data.vals[k]) ==>
      && q.calls == (if Judged(p.store, k) then p.calls else p.calls + 1)
      && q.writes == p.writes + [q.store]
      && q.store.vals == p.store.vals[k := ItemRecord(data.vals[k], LlmScore(k, data.vals[k], p, judge, ext).0, ext)]
  {
    var item := data.vals[k];
    if !Complete(item) then p
    else
      var (llm, calls) := LlmScore(k, item, p, judge, ext);
      var s := Dicts.Put(p.store, k, ItemRecord(item, llm, ext));
      Scoring(s, calls, p.writes + [s])
  }

  /** The loop over `keys` in order, from state `start`. */
  function ScoreRun(keys: seq<string>, data: Store, start: Scoring, judge: Judge, ext: Externals): (q: Scoring)
    requires forall k :: k in keys ==> k in data.vals
    ensures start.writes <= q.writes
  {
    if keys == [] then start
    else ScoreItem(keys[|keys| - 1], data, ScoreRun(keys[..|keys| - 1], data, start, judge, ext), judge, ext)
  }

  /** Running over the first `i + 1` keys is running over the first `i`, then one more item. */
  lemma ScoreRunSnoc(keys: seq<string>, data: Store, start: Scoring, judge: Judge, ext: Externals, i: nat)
    requires forall k :: k in keys ==> k in data.vals
    requires i < |keys|
    ensures ScoreRun(keys[..i + 1], data, start, judge, ext)
            == ScoreItem(keys[i], data, ScoreRun(keys[..i], data, start, judge, ext), judge, ext)
  {
    assert keys[..i + 1][..i] == keys[..i];
  }

  /** Running over `a` then `b` is running over `a + b`. */
  lemma {:induction false} ScoreRunAppend(a: seq<string>, b: seq<string>, data: Store, start: Scoring, judge: Judge, ext: Externals)
    requires forall k :: k in a + b ==> k in data.vals
    ensures forall k :: k in a ==> k in data.vals
    ensures forall k :: k in b ==> k in data.vals
    ensures ScoreRun(a + b, data, start, judge, ext) == ScoreRun(b, data, ScoreRun(a, data, start, judge, ext), judge, ext)
  {
    assert forall k :: k in a ==> k in a + b;
    assert forall k :: k in b ==> k in a + b;
    if b == [] {
      assert a + b == a;
    } else {
      var init := b[..|b| - 1];
      assert (a + b)[..|a + b| - 1] == a + init;
      assert forall k :: k in a + init ==> k in a + b;
      ScoreRunAppend(a, init, data, start, judge, ext);
    }
  }

  // ---------------------------------------------------------------------------
  // What the loop guarantees

  /** A key that is not a complete item of the keys run over keeps its record, or stays absent. */
  lemma {:induction false} ScoreRunKeeps(keys: seq<string>, data: Store, start: Scoring, judge: Judge, ext: Externals, x: string)
    requires forall k :: k in keys ==> k in data.vals
    requires x !in keys || !Complete(data.vals[x])
    ensures var q := ScoreRun(keys, data, start, judge, ext);
      && (x in q.store.vals <==> x in start.store.vals)
      && (x in start.store.vals ==> q.store.vals[x] == start.store.vals[x])
  {
    if keys != [] {
      var init := keys[..|keys| - 1];
      assert forall k :: k in init ==> k in keys;
      ScoreRunKeeps(init, data, start, judge, ext, x);
    }
  }

  /** The number of keys in `keys` whose items are complete: the number of store writes. */
  function CompleteCount(keys: seq<string>, data: Store): nat
    requires forall k :: k in keys ==> k in data.vals
  {
    if keys == [] then 0
    else CompleteCount(keys[..|keys| - 1], data) + (if Complete(data.vals[keys[|keys| - 1]]) then 1 else 0)
  }

  /** The number of keys whose items are complete and have no `llm_score` in `store`: the judge calls a run makes. */
  function FreshCount(keys: seq<string>, data: Store, store: Store): nat
    requires forall k :: k in keys ==> k in data.vals
  {
    if keys == [] then 0
    else
      var k := keys[|keys| - 1];
      FreshCount(keys[..|keys| - 1], data, store) + (if Complete(data.vals[k]) && !Judged(store, k) then 1 else 0)
  }

  /**
   * Over distinct keys, the judge is called once for each complete item without a
   * stored `llm_score`, and the store is written once for each complete item.
   */
  lemma {:induction false} ScoreRunCounts(keys: seq<string>, data: Store, start: Scoring, judge: Judge, ext: Externals)
    requires forall k :: k in keys ==> k in data.vals
    requires Dicts.Distinct(keys)
    ensures var q := ScoreRun(keys, data, start, judge, ext);
      && q.calls == start.calls + FreshCount(keys, data, start.store)
      && |q.writes| == |start.writes| + CompleteCount(keys, data)
  {
    if keys != [] {
      var init := keys[..|keys| - 1];
      var k := keys[|keys| - 1];
      assert forall x :: x in init ==> x in keys;
      assert Dicts.Distinct(init);
      ScoreRunCounts(init, data, start, judge, ext);
      Dicts.DistinctAt(keys, |keys| - 1);
      ScoreRunKeeps(init, data, start, judge, ext, k);
    }
  }

  /**
   * Over distinct keys, the record of a complete item is the one built from its
   * fields and from its stored `llm_score` when there is one, or else from the
   * verdict of the call made for it, whose number is the calls made before it.
   */
  lemma ScoreRunRecord(keys: seq<string>, data: Store, start: Scoring, judge: Judge, ext: Externals, i: nat)
    requires forall k :: k in keys ==> k in data.vals
    requires Dicts.Distinct(keys) && i < |keys| && Complete(data.vals[keys[i]])
    ensures var k := keys[i];
      var item := data.vals[k];
      var llm := if Judged(start.store, k) then start.store.vals[k]["llm_score"]
                 else judge(QuestionOf(item, ext), ScoreRun(keys[..i], data, start, judge, ext).calls);
      && k in ScoreRun(keys, data, start, judge, ext).store.vals
      && ScoreRun(keys, data, start, judge, ext).store.vals[k] == ItemRecord(item, llm, ext)
  {
    var k := keys[i];
    assert keys == keys[..i + 1] + keys[i + 1..];
    ScoreRunAppend(keys[..i + 1], keys[i + 1..], data, start, judge, ext);
    ScoreRunSnoc(keys, data, start, judge, ext, i);
    Dicts.DistinctAt(keys, i);
    ScoreRunKeeps(keys[..i], data, start, judge, ext, k);
    Dicts.DistinctAfter(keys, i);
    ScoreRunKeeps(keys[i + 1..], data, ScoreRun(keys[..i + 1], data, start, judge, ext), judge, ext, k);
  }

  /** Every complete item of the keys run over ends up with a record that holds an `llm_score`. */
  lemma ScoreRunJudges(keys: seq<string>, data: Store, start: Scoring, judge: Judge, ext: Externals, k: string)
    requires forall x :: x in keys ==> x in data.vals
    requires Dicts.Distinct(keys) && k in keys && Complete(data.vals[k])
    ensures Judged(ScoreRun(keys, data, start, judge, ext).store, k)
  {
    var i :| 0 <= i < |keys| && keys[i] == k;
    ScoreRunRecord(keys, data, start, judge, ext, i);
  }

  /** Every complete item of the keys run over holds the record rebuilt from its own `llm_score`. */
  ghost predicate Settled(keys: seq<string>, data: Store, store: Store, ext: Externals)
    requires forall k :: k in keys ==> k in data.vals
  {
    forall k :: k in keys && Complete(data.vals[k]) ==>
      Judged(store, k) && store.vals[k] == ItemRecord(data.vals[k], store.vals[k]["llm_score"], ext)
  }

  /** A run over distinct keys leaves every complete item settled. */
  lemma ScoreRunSettles(keys: seq<string>, data: Store, start: Scoring, judge: Judge, ext: Externals)
    requires forall x :: x in keys ==> x in data.vals
    requires Dicts.Distinct(keys)
    ensures Settled(keys, data, ScoreRun(keys, data, start, judge, ext).store, ext)
  {
    forall k | k in keys && Complete(data.vals[k])
      ensures var s := ScoreRun(keys, data, start, judge, ext).store;
        Judged(s, k) && s.vals[k] == ItemRecord(data.vals[k], s.vals[k]["llm_score"], ext)
    {
      var i :| 0 <= i < |keys| && keys[i] == k;
      ScoreRunRecord(keys, data, start, judge, ext, i);
    }
  }

  /** From a settled store, every item is reused and rewritten as it was: no judge call and no change. */
  lemma {:induction false} SettledRunIsStable(keys: seq<string>, data: Store, start: Scoring, judge: Judge, ext: Externals)
    requires forall k :: k in keys ==> k in data.vals
    requires Settled(keys, data, start.store, ext)
    ensures ScoreRun(keys, data, start, judge, ext).store == start.store
    ensures ScoreRun(keys, data, start, judge, ext).calls == start.calls
  {
    if keys != [] {
      var init := keys[..|keys| - 1];
      var k := keys[|keys| - 1];
      assert forall x :: x in init ==> x in keys;
      SettledRunIsStable(init, data, start, judge, ext);
      if Complete(data.vals[k]) {
        var s := start.store;
        var rec := ItemRecord(data.vals[k], s.vals[k]["llm_score"], ext);
        assert Dicts.Put(s, k, rec).vals == s.vals;
      }
    }
  }

  /** The judge's answer does not depend on how many calls came before. */
  ghost predicate IndexFree(judge: Judge)
  {
    forall a, m, m' :: judge(a, m) == judge(a, m')
  }

  /** `send_to_llm` answers a prompt the same way whenever it is sent. */
  ghost predicate SendIndexFree(ext: Externals)
  {
    forall m, m', prompt :: ext.send(m, prompt) == ext.send(m', prompt)
  }

  lemma LlmJudgeIndexFree(ext: Externals)
    requires SendIndexFree(ext)
    ensures IndexFree(LlmJudge(ext))
  {
    forall a, m: nat, m': nat ensures LlmJudge(ext)(a, m) == LlmJudge(ext)(a, m') {
      var prompt := ItemPrompt(ext.StrOf(a.question), a.gt, a.pred);
      assert ext.send(m, prompt) == ext.send(m', prompt);
    }
  }

  /** With an index-free judge, two runs from the same store end in the same store. */
  lemma {:induction false} ScoreFromSameStore(keys: seq<string>, data: Store, p1: Scoring, p2: Scoring, judge: Judge, ext: Externals)
    requires forall k :: k in keys ==> k in data.vals
    requires IndexFree(judge) && p1.store == p2.store
    ensures ScoreRun(keys, data, p1, judge, ext).store == ScoreRun(keys, data, p2, judge, ext).store
  {
    if keys != [] {
      var init := keys[..|keys| - 1];
      assert forall x :: x in init ==> x in keys;
      ScoreFromSameStore(init, data, p1, p2, judge, ext);
    }
  }

  /**
   * Resuming: a run over distinct keys stopped after its first `m` items and
   * restarted from the store it last wrote ends in the same store as the
   * uninterrupted run, given a judge that answers the same way each time.
   */
  lemma ScoreResume(keys: seq<string>, data: Store, store0: Store, m: nat, judge: Judge, ext: Externals)
    requires forall k :: k in keys ==> k in data.vals
    requires Dicts.Distinct(keys) && m <= |keys| && IndexFree(judge)
    ensures forall k :: k in keys[..m] ==> k in data.vals
    ensures var mid := ScoreRun(keys[..m], data, Start(store0), judge, ext);
      ScoreRun(keys, data, Start(mid.store), judge, ext).store == ScoreRun(keys, data, Start(store0), judge, ext).store
  {
    var a, b := keys[..m], keys[m..];
    assert keys == a + b;
    ScoreRunAppend(a, b, data, Start(store0), judge, ext);
    var mid := ScoreRun(a, data, Start(store0), judge, ext);
    ScoreRunAppend(a, b, data, Start(mid.store), judge, ext);
    forall i, j | 0 <= i < j < |a| ensures a[i] != a[j] {
      assert a[i] == keys[i] && a[j] == keys[j];
    }
    ScoreRunSettles(a, data, Start(store0), judge, ext);
    SettledRunIsStable(a, data, Start(mid.store), judge, ext);
    ScoreFromSameStore(b, data, mid, ScoreRun(a, data, Start(mid.store), judge, ext), judge, ext);
  }

  // ---------------------------------------------------------------------------
  // The whole run

  /** Everything `main` leaves behind: the stores written, the judge calls, and the report or its error. */
  datatype Outcome = Outcome(writes: seq<Store>, calls: nat, result: Result<Aggregate.Report, Aggregate.AggError>)

  /** The item loop with the judge given, then the report over the records left behind. */
  function EvaluateWith(data: Store, store0: Store, judge: Judge, ext: Externals): Outcome
  {
    Dicts.KeysListed(data);
    var q := ScoreRun(data.keys, data, Start(store0), judge, ext);
    Outcome(q.writes, q.calls, Aggregate.AggregateRows(Dicts.Values(q.store), ext.parseFloat))
  }

  /** `main` on the merged answers `data` and the store found on disk. */
  function Evaluate(data: Store, store0: Store, ext: Externals): Outcome
  {
    EvaluateWith(data, store0, LlmJudge(ext), ext)
  }

  /** After a run, every complete item has a record holding an `llm_score`, and every other key's record is as it was. */
  lemma EvaluateEffect(data: Store, store0: Store, ext: Externals, x: string)
    ensures (Dicts.KeysListed(data);
      var s := ScoreRun(data.keys, data, Start(store0), LlmJudge(ext), ext).store;
      && (x in data.vals && Complete(data.vals[x]) ==> Judged(s, x))
      && (!(x in data.vals && Complete(data.vals[x])) ==>
            (x in s.vals <==> x in store0.vals) && (x in store0.vals ==> s.vals[x] == store0.vals[x])))
  {
    Dicts.KeysListed(data);
    if x in data.vals && Complete(data.vals[x]) {
      ScoreRunJudges(data.keys, data, Start(store0), LlmJudge(ext), ext, x);
    } else {
      ScoreRunKeeps(data.keys, data, Start(store0), LlmJudge(ext), ext, x);
    }
  }

  /** The judge is called once per complete item without a stored `llm_score`; the file is written once per complete item. */
  lemma EvaluateCounts(data: Store, store0: Store, ext: Externals)
    ensures (Dicts.KeysListed(data);
      && Evaluate(data, store0, ext).calls == FreshCount(data.keys, data, store0)
      && |Evaluate(data, store0, ext).writes| == CompleteCount(data.keys, data))
  {
    Dicts.KeysListed(data);
    ScoreRunCounts(data.keys, data, Start(store0), LlmJudge(ext), ext);
  }

  /** Scoring again from the store a run left behind makes no judge call, changes no record and reports the same. */
  lemma RescoreChangesNothing(data: Store, store0: Store, ext: Externals)
    ensures (Dicts.KeysListed(data);
      var s := ScoreRun(data.keys, data, Start(store0), LlmJudge(ext), ext).store;
      && ScoreRun(data.keys, data, Start(s), LlmJudge(ext), ext).store == s
      && Evaluate(data, s, ext).calls == 0
      && Evaluate(data, s, ext).result == Evaluate(data, store0, ext).result)
  {
    Dicts.KeysListed(data);
    ScoreRunSettles(data.keys, data, Start(store0), LlmJudge(ext), ext);
    var s := ScoreRun(data.keys, data, Start(store0), LlmJudge(ext), ext).store;
    SettledRunIsStable(data.keys, data, Start(s), LlmJudge(ext), ext);
  }

  // ---------------------------------------------------------------------------
  // `config['is_azure_openai']`, read at each judge call

  /** A complete item with no `llm_score` in `store`: the loop calls the judge for it. */
  predicate Fresh(data: Store, store: Store, k: string)
    requires k in data.vals
  {
    Complete(data.vals[k]) && !Judged(store, k)
  }

  /** The position of the first key whose item is fresh in `store`, or `|keys|` when there is none. */
  function FirstFresh(keys: seq<string>, data: Store, store: Store): (m: nat)
    requires forall k :: k in keys ==> k in data.vals
    ensures m <= |keys|
    ensures forall j :: 0 <= j < m ==> !Fresh(data, store, keys[j])
    ensures m < |keys| ==> Fresh(data, store, keys[m])
  {
    if keys == [] || Fresh(data, store, keys[0]) then 0
    else 1 + FirstFresh(keys[1..], data, store)
  }

  /** Over distinct keys, the loop's store before key `i` holds an `llm_score` for it exactly when the store found on disk does. */
  lemma JudgedBefore(keys: seq<string>, data: Store, store0: Store, judge: Judge, ext: Externals, i: nat)
    requires forall k :: k in keys ==> k in data.vals
    requires Dicts.Distinct(keys) && i < |keys|
    ensures forall k :: k in keys[..i] ==> k in data.vals
    ensures Judged(ScoreRun(keys[..i], data, Start(store0), judge, ext).store, keys[i]) <==> Judged(store0, keys[i])
  {
    assert forall k :: k in keys[..i] ==> k in keys;
    Dicts.DistinctAt(keys, i);
    ScoreRunKeeps(keys[..i], data, Start(store0), judge, ext, keys[i]);
  }

  /** The run ended by `KeyError('is_azure_openai')`, after the stores written before it. */
  datatype Stop = MissingAzureFlag(writes: seq<Store>)

  /**
   * `main` with or without `is_azure_openai` in `config`. The flag is read with no
   * default at each judge call, so without it the run ends at the first fresh item,
   * after the writes of the reused items before it; with no fresh item it is never read.
   */
  function EvaluateConfig(data: Store, store0: Store, hasAzureFlag: bool, ext: Externals): Result<Outcome, Stop>
  {
    Dicts.KeysListed(data);
    var m := FirstFresh(data.keys, data, store0);
    if hasAzureFlag || m == |data.keys| then Ok(Evaluate(data, store0, ext))
    else Err(MissingAzureFlag(ScoreRun(data.keys[..m], data, Start(store0), LlmJudge(ext), ext).writes))
  }

  /** A count of fresh items over keys none of which is fresh is zero. */
  lemma {:induction false} NoFreshNoCalls(keys: seq<string>, data: Store, store: Store)
    requires forall k :: k in keys ==> k in data.vals
    requires forall j :: 0 <= j < |keys| ==> !Fresh(data, store, keys[j])
    ensures FreshCount(keys, data, store) == 0
  {
    if keys != [] {
      NoFreshNoCalls(keys[..|keys| - 1], data, store);
    }
  }

  /** Over the keys of `data`, a fresh position exists exactly when a fresh item does. */
  lemma FirstFreshExists(data: Store, store0: Store)
    ensures forall k :: k in data.keys ==> k in data.vals
    ensures FirstFresh(data.keys, data, store0) < |data.keys| <==> exists k :: k in data.vals && Fresh(data, store0, k)
  {
    Dicts.KeysListed(data);
    var keys := data.keys;
    if FirstFresh(keys, data, store0) == |keys| {
      forall k | k in data.vals
        ensures !Fresh(data, store0, k)
      {
        var j :| 0 <= j < |keys| && keys[j] == k;
      }
    }
  }

  /** Without `is_azure_openai` the run fails exactly when some complete item has no stored `llm_score`. */
  lemma MissingAzureFlagStops(data: Store, store0: Store, ext: Externals)
    ensures EvaluateConfig(data, store0, false, ext).Err? <==>
      exists k :: k in data.vals && Fresh(data, store0, k)
  {
    FirstFreshExists(data, store0);
  }

  /** A run without `is_azure_openai` that does not fail is the run with it, and it makes no judge call. */
  lemma MissingAzureFlagUnread(data: Store, store0: Store, ext: Externals)
    requires EvaluateConfig(data, store0, false, ext).Ok?
    ensures EvaluateConfig(data, store0, false, ext) == EvaluateConfig(data, store0, true, ext)
    ensures Evaluate(data, store0, ext).calls == 0
  {
    Dicts.KeysListed(data);
    NoFreshNoCalls(data.keys, data, store0);
    EvaluateCounts(data, store0, ext);
  }

  // ---------------------------------------------------------------------------
  // Verdicts stored as text

  /** A store in which the report finds the record of `k` with a textual `llm_score` cannot be reported on. */
  lemma TextScoreSpoilsReport(store: Store, k: string, parseFloat: string -> Option<real>)
    requires k in store.vals && "llm_score" in store.vals[k] && store.vals[k]["llm_score"].Str?
    ensures Aggregate.AggregateRows(Dicts.Values(store), parseFloat).Err?
  {
    var i := Dicts.KeyIndex(store, k);
    Aggregate.NotNumericCellFails(Dicts.Values(store), parseFloat, "llm_score", i);
  }

  /**
   * As written, `evaluate_llm_judge` returns the strings "1" and "0", and `main`
   * stores them as they are. So as soon as the model answers one item's question
   * with a `1` or a `0`, the `llm_score` column holds text and the report raises.
   */
  lemma TextVerdictSpoilsReport(data: Store, store0: Store, ext: Externals, k: string)
    requires k in data.vals && Complete(data.vals[k]) && !Judged(store0, k)
    requires forall n :: LlmJudge(ext)(QuestionOf(data.vals[k], ext), n).Str?
    ensures Evaluate(data, store0, ext).result.Err?
  {
    Dicts.KeysListed(data);
    var i := Dicts.KeyIndex(data, k);
    ScoreRunRecord(data.keys, data, Start(store0), LlmJudge(ext), ext, i);
    var s := ScoreRun(data.keys, data, Start(store0), LlmJudge(ext), ext).store;
    TextScoreSpoilsReport(s, k, ext.parseFloat);
  }

  /** The verdict as a number, which is what the mean over `llm_score` needs: 1, 0, `None`, or 0 on an error. */
  function NumericVerdict(reply: Reply): (v: Value)
    ensures v == Int(1) || v == Int(0) || v == Null
  {
    match Verdict(reply)
    case Str(t) => Int(if t == "1" then 1 else 0)
    case other => other
  }

  /** The numeric verdict says what the textual one says. */
  lemma NumericVerdictAgrees(reply: Reply)
    ensures NumericVerdict(reply) == Int(1) <==> Verdict(reply) == Str("1")
    ensures NumericVerdict(reply) == Int(0) <==> Verdict(reply) == Str("0") || Verdict(reply) == Int(0)
    ensures NumericVerdict(reply) == Null <==> Verdict(reply) == Null
  {
  }

  /** The judge with the numeric verdict. */
  function NumericLlmJudge(ext: Externals): Judge
  {
    (a: Question, n: nat) => NumericVerdict(ext.send(n, ItemPrompt(ext.StrOf(a.question), a.gt, a.pred)))
  }

  /** Every record's `llm_score`, where there is one, is a number or `None`. */
  ghost predicate ScoresNumeric(store: Store)
  {
    forall k :: k in store.vals ==> Aggregate.ScoreCell(store.vals[k], "llm_score") != Aggregate.NotNumeric
  }

  /** The judge only ever answers with a number or `None`. */
  ghost predicate NumericJudge(judge: Judge)
  {
    forall a, n :: Aggregate.ScoreCell(map["llm_score" := judge(a, n)], "llm_score") != Aggregate.NotNumeric
  }

  /** A judge that answers with numbers keeps every `llm_score` of the store a number. */
  lemma {:induction false} NumericJudgeKeepsScoresNumeric(keys: seq<string>, data: Store, start: Scoring, judge: Judge, ext: Externals)
    requires forall k :: k in keys ==> k in data.vals
    requires NumericJudge(judge) && ScoresNumeric(start.store)
    ensures ScoresNumeric(ScoreRun(keys, data, start, judge, ext).store)
  {
    if keys != [] {
      var init := keys[..|keys| - 1];
      var k := keys[|keys| - 1];
      assert forall x :: x in init ==> x in keys;
      NumericJudgeKeepsScoresNumeric(init, data, start, judge, ext);
      var p := ScoreRun(init, data, start, judge, ext);
      if Complete(data.vals[k]) {
        var llm := LlmScore(k, data.vals[k], p, judge, ext).0;
        if !Judged(p.store, k) {
          assert map["llm_score" := llm]["llm_score"] == llm;
        }
        assert Aggregate.ScoreCell(ItemRecord(data.vals[k], llm, ext), "llm_score") != Aggregate.NotNumeric;
      }
    }
  }

  lemma NumericLlmJudgeIsNumeric(ext: Externals)
    ensures NumericJudge(NumericLlmJudge(ext))
  {
    forall a, n: nat
      ensures Aggregate.ScoreCell(map["llm_score" := NumericLlmJudge(ext)(a, n)], "llm_score") != Aggregate.NotNumeric
    {
      var v := NumericVerdict(ext.send(n, ItemPrompt(ext.StrOf(a.question), a.gt, a.pred)));
      assert map["llm_score" := v]["llm_score"] == v;
    }
  }

  /**
   * With the numeric verdict, a run from a store whose `llm_score`s are numbers
   * leaves only numbers there, so the `llm_score` column never makes the report fail.
   */
  lemma NumericVerdictsReport(data: Store, store0: Store, ext: Externals)
    requires ScoresNumeric(store0)
    ensures EvaluateWith(data, store0, NumericLlmJudge(ext), ext).result != Err(Aggregate.ScoreNotNumeric("llm_score"))
  {
    Dicts.KeysListed(data);
    NumericLlmJudgeIsNumeric(ext);
    NumericJudgeKeepsScoresNumeric(data.keys, data, Start(store0), NumericLlmJudge(ext), ext);
    var s := ScoreRun(data.keys, data, Start(store0), NumericLlmJudge(ext), ext).store;
    var recs := Dicts.Values(s);
    if EvaluateWith(data, store0, NumericLlmJudge(ext), ext).result == Err(Aggregate.ScoreNotNumeric("llm_score")) {
      Aggregate.ScoreErrorHasCell(recs, ext.parseFloat, "llm_score");
    }
  }

  // ---------------------------------------------------------------------------
  // `main`, statement by statement

  /** The state of the item loop before key `i`: no fresh item passed when the flag is missing, and the run so far. */
  ghost predicate LoopAt(keys: seq<string>, data: Store, store0: Store, judge: Judge, hasAzureFlag: bool, ext: Externals,
                         i: nat, p: Scoring)
    requires forall k :: k in keys ==> k in data.vals
  {
    && i <= |keys|
    && (!hasAzureFlag ==> i <= FirstFresh(keys, data, store0))
    && p == ScoreRun(keys[..i], data, Start(store0), judge, ext)
  }

  /**
   * The loop body for key `keys[i]`: skip an incomplete item, reuse a stored
   * `llm_score` or read the flag and call the judge, then rewrite the record and the
   * file. It stops, changing nothing, where the flag is missing.
   */
  method ScoreKey(keys: seq<string>, data: Store, store0: Store, judge: Judge, hasAzureFlag: bool, ext: Externals,
                  i: nat, p: Scoring)
    returns (q: Scoring, stopped: bool)
    requires forall k :: k in keys ==> k in data.vals
    requires Dicts.Distinct(keys) && i < |keys| && LoopAt(keys, data, store0, judge, hasAzureFlag, ext, i, p)
    ensures stopped ==> !hasAzureFlag && FirstFresh(keys, data, store0) == i && q == p
    ensures !stopped ==> LoopAt(keys, data, store0, judge, hasAzureFlag, ext, i + 1, q)
  {
    var k := keys[i];
    var item := data.vals[k];
    ScoreRunSnoc(keys, data, Start(store0), judge, ext, i);
    JudgedBefore(keys, data, store0, judge, ext, i);
    q, stopped := p, false;
    if "question" in item && "answer" in item && "response" in item && "category" in item {
      var gt := ext.StrOf(item["answer"]);
      var pred := ext.StrOf(item["response"]);
      var llm, calls := Null, p.calls;
      if k in p.store.vals && "llm_score" in p.store.vals[k] {
        llm := p.store.vals[k]["llm_score"];
      } else {
        if !hasAzureFlag {
          return p, true;
        }
        llm := judge(Question(item["question"], gt, pred), calls);
        calls := calls + 1;
      }
      var store := Dicts.Put(p.store, k, ItemRecord(item, llm, ext));
      q := Scoring(store, calls, p.writes + [store]);
    }
  }

  /** The `for k, item in data.items()` loop, with the judge given; `hasAzureFlag` says whether `config` holds `is_azure_openai`. */
  method ScoreLoop(data: Store, store0: Store, judge: Judge, hasAzureFlag: bool, ext: Externals)
    returns (store: Store, calls: nat, writes: seq<Store>, stopped: bool)
    ensures forall k :: k in data.keys ==> k in data.vals
    ensures var m := if hasAzureFlag then |data.keys| else FirstFresh(data.keys, data, store0);
      && stopped == (m < |data.keys|)
      && Scoring(store, calls, writes) == ScoreRun(data.keys[..m], data, Start(store0), judge, ext)
  {
    Dicts.KeysListed(data);
    var keys := data.keys;
    var p := Start(store0);
    var i := 0;
    while i < |keys|
      invariant LoopAt(keys, data, store0, judge, hasAzureFlag, ext, i, p)
      decreases |keys| - i
    {
      var stop;
      p, stop := ScoreKey(keys, data, store0, judge, hasAzureFlag, ext, i, p);
      if stop {
        return p.store, p.calls, p.writes, true;
      }
      i := i + 1;
    }
    store, calls, writes, stopped := p.store, p.calls, p.writes, false;
  }

  /** `main`: the item loop from the store found on disk, then the report. */
  method RunScoring(data: Store, store0: Store, hasAzureFlag: bool, ext: Externals)
    returns (r: Result<Outcome, Stop>)
    ensures r == EvaluateConfig(data, store0, hasAzureFlag, ext)
  {
    var store, calls, writes, stopped := ScoreLoop(data, store0, LlmJudge(ext), hasAzureFlag, ext);
    if stopped {
      return Err(MissingAzureFlag(writes));
    }
    assert data.keys[..|data.keys|] == data.keys;
    var result := Aggregate.AggregateRows(Dicts.Values(store), ext.parseFloat);
    return Ok(Outcome(writes, calls, result));
  }
}
