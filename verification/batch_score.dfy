/**
 * `batch_score.py`: the items of the merged answers file are judged by the model in
 * batches. Keys are cut into consecutive slices; in each slice the complete items
 * with no stored `llm_score` are sent in one prompt, the verdicts are read out of
 * the reply, the records are put into the store and the whole store is written.
 * At the end the scores are coerced to numbers and the per-category report is made.
 */
module BatchScore {
  import opened Wrappers
  import opened Json
  import opened Runtime
  import Text
  import Dicts
  import BraceScan
  import Aggregate
  import opened Items

  /** What ends a run early: an exception that escapes `main`. */
  datatype Crash =
    | ZeroBatchSize               // `range(0, total, 0)` raises ValueError
    | UnboundResponse             // `send_to_llm` raised; the handler then reads the unassigned `response`
    | ScoresNotAnObject           // `llm_scores.get` on something that is not a dict
    | BadVerdict(key: string)     // `int(llm_score)` raised
    | MissingScoreField(key: string)  // the coercion handler re-reads a missing score field
    | ReportFailed(error: Aggregate.AggError)

  // ---------------------------------------------------------------------------
  // The prompt

  /** One entry of `batch_items`: the key, the raw question, `str(answer)` and `str(response)`. */
  datatype PendingItem = PendingItem(id: string, question: Value, answer: string, response: string)

  function Header(): string {
    "你是一个问答判定助手，请对多个问答对进行判断。"
    + "我们会给出每个问题的编号、问题内容、参考答案和模型回答。"
    + "你的任务是判断模型回答是否正确，结果用 JSON 格式返回，键是问题编号，值是 1（正确）或 0（错误）。"
    + "不要添加多余解释，只返回严格符合 JSON 格式的内容。\n\n"
  }

  function Suffix(): string { "\n请你返回如下格式的 JSON，例如：{\"1\":1,\"2\":0}" }

  /** The four lines that present one item; `str` renders the question as an f-string does. */
  function Block(item: PendingItem, str: Value -> string): string
  {
    "编号：" + item.id + "\n"
    + "问题：" + str(item.question) + "\n"
    + "参考答案：" + item.answer + "\n"
    + "模型回答：" + item.response + "\n"
  }

  function Blocks(items: seq<PendingItem>, str: Value -> string): (bs: seq<string>)
    ensures |bs| == |items|
    ensures forall j :: 0 <= j < |items| ==> bs[j] == Block(items[j], str)
  {
    seq(|items|, j requires 0 <= j < |items| => Block(items[j], str))
  }

  /** `build_batch_prompt(items)`. */
  function BuildBatchPrompt(items: seq<PendingItem>, str: Value -> string): string
  {
    Header() + Text.Join(Blocks(items, str), "\n") + Suffix()
  }

  /** Where the block of item `j` starts in the prompt. */
  function BlockStart(items: seq<PendingItem>, str: Value -> string, j: nat): nat
    requires j <= |items|
  {
    |Header()| + Text.JoinOffset(Blocks(items, str), "\n", j)
  }

  /**
   * The prompt is the header, then the blocks of the items in input order, each
   * separated from the next by one newline, then the example suffix.
   */
  lemma PromptLayout(items: seq<PendingItem>, str: Value -> string, j: nat)
    requires j < |items|
    ensures var p := BuildBatchPrompt(items, str);
      && Text.StartsWith(p, Header())
      && Text.EndsWith(p, Suffix())
      && BlockStart(items, str, j) + |Block(items[j], str)| + |Suffix()| <= |p|
      && p[BlockStart(items, str, j)..BlockStart(items, str, j) + |Block(items[j], str)|] == Block(items[j], str)
    ensures j + 1 < |items| ==>
      BlockStart(items, str, j) + |Block(items[j], str)| + 1 == BlockStart(items, str, j + 1)
  {
    var bs := Blocks(items, str);
    Text.FramedJoinAt(Header(), bs, "\n", Suffix(), j);
    if j + 1 < |items| {
      Text.JoinOffsetsOrdered(bs, "\n", j);
    }
  }

  // ---------------------------------------------------------------------------
  // Reading the verdicts out of the reply

  predicate IsFenceChar(c: char)
  {
    c == '`' || c == 'j' || c == 's' || c == 'o' || c == 'n'
  }

  predicate IsBacktick(c: char)
  {
    c == '`'
  }

  /** `content.strip().strip("```json").strip("```").strip()`. */
  function Clean(content: string): string
  {
    Text.Strip(Text.StripBy(Text.StripBy(Text.Strip(content), IsFenceChar), IsBacktick))
  }

  /** The cleaning never touches a brace, so the first brace block is the one of the raw reply. */
  lemma CleanKeepsBlock(content: string)
    ensures BraceScan.FirstBraceBlock(Clean(content)) == BraceScan.FirstBraceBlock(content)
  {
    var s1 := Text.Strip(content);
    BraceScan.StripKeepsBlock(content, s1, Text.IsSpace);
    var s2 := Text.StripBy(s1, IsFenceChar);
    BraceScan.StripKeepsBlock(s1, s2, IsFenceChar);
    var s3 := Text.StripBy(s2, IsBacktick);
    BraceScan.StripKeepsBlock(s2, s3, IsBacktick);
    var s4 := Text.Strip(s3);
    BraceScan.StripKeepsBlock(s3, s4, Text.IsSpace);
  }

  /** The set of ids of a list of pending items. */
  function IdSet(items: seq<PendingItem>): set<string>
  {
    set j | 0 <= j < |items| :: items[j].id
  }

  /** `{item[0]: None for item in items}`: the fallback when no verdict map can be read. */
  function AllNone(items: seq<PendingItem>): Value
  {
    Obj(map k | k in IdSet(items) :: Null)
  }

  /** The verdict map read from a reply: `json.loads` of its first brace block. */
  function ReadVerdicts(content: string, items: seq<PendingItem>, loads: string -> Option<Value>): Value
  {
    match BraceScan.FirstBraceBlock(Clean(content))
    case None => AllNone(items)
    case Some(b) =>
      match loads(Text.Strip(b))
      case Some(v) => v
      case None => AllNone(items)
  }

  /**
   * `evaluate_llm_judge_batch_with_id` for the `callNo`-th judge call of the run.
   * Whatever the cleaning does, the map parsed is the first brace block of the raw
   * reply, and every way of failing after a reply was received gives `AllNone`.
   */
  function JudgeBatch(items: seq<PendingItem>, callNo: nat, ext: Externals): (r: Result<Value, Crash>)
    ensures var reply := ext.send(callNo, BuildBatchPrompt(items, ext.StrOf));
      match reply
      case Raised => r == Err(UnboundResponse)
      case Answered(None) => r == Ok(AllNone(items))
      case Answered(Some(c)) =>
        match BraceScan.FirstBraceBlock(c)
        case None => r == Ok(AllNone(items))
        case Some(b) => r == Ok(if ext.loads(b).Some? then ext.loads(b).value else AllNone(items))
  {
    match ext.send(callNo, BuildBatchPrompt(items, ext.StrOf))
    case Raised => Err(UnboundResponse)
    case Answered(None) => Ok(AllNone(items))
    case Answered(Some(c)) =>
      CleanKeepsBlock(c);
      BraceScan.StripOfBlock(c);
      Ok(ReadVerdicts(c, items, ext.loads))
  }

  /** The judge's value for key `k`: `llm_scores.get(k, None)`. */
  function Verdict(scores: Value, k: string): Result<Value, Crash>
  {
    match scores
    case Obj(m) => Ok(if k in m then m[k] else Null)
    case _ => Err(ScoresNotAnObject)
  }

  /** The `llm_score` stored for key `k`: a missing or `None` verdict counts as 0, the rest goes through `int`. */
  function StoredVerdict(scores: Value, k: string, ext: Externals): (r: Result<int, Crash>)
    ensures scores.Obj? && (k !in scores.fields || scores.fields[k] == Null) ==> r == Ok(0)
    ensures scores.Obj? && k in scores.fields && scores.fields[k] != Null ==>
      (r.Ok? <==> ext.IntOf(scores.fields[k]).Some?) && (r.Ok? ==> r.value == ext.IntOf(scores.fields[k]).value)
    ensures !scores.Obj? ==> r == Err(ScoresNotAnObject)
  {
    match Verdict(scores, k)
    case Err(e) => Err(e)
    case Ok(v) =>
      match ext.IntOf(if v == Null then Int(0) else v)
      case Some(n) => Ok(n)
      case None => Err(BadVerdict(k))
  }

  // ---------------------------------------------------------------------------
  // Which items are sent

  predicate Eligible(data: Store, store: Store, k: string)
    requires k in data.vals
  {
    Complete(data.vals[k]) && !Judged(store, k)
  }

  function ItemOf(data: Store, k: string, ext: Externals): PendingItem
    requires k in data.vals && Complete(data.vals[k])
  {
    var item := data.vals[k];
    PendingItem(k, item["question"], ext.StrOf(item["answer"]), ext.StrOf(item["response"]))
  }

  /** `batch_items` for one slice: its eligible keys, in slice order. */
  function Pending(batch: seq<string>, data: Store, store: Store, ext: Externals): (items: seq<PendingItem>)
    requires forall k :: k in batch ==> k in data.vals
    ensures |items| <= |batch|
  {
    if batch == [] then []
    else
      var init := Pending(batch[..|batch| - 1], data, store, ext);
      var k := batch[|batch| - 1];
      if Eligible(data, store, k) then init + [ItemOf(data, k, ext)] else init
  }

  ghost predicate HasId(items: seq<PendingItem>, k: string)
  {
    exists j :: 0 <= j < |items| && items[j].id == k
  }

  ghost predicate DistinctIds(items: seq<PendingItem>)
  {
    forall i, j :: 0 <= i < j < |items| ==> items[i].id != items[j].id
  }

  /** Each pending item is an eligible key of the slice, built by `ItemOf`. */
  lemma {:induction false} PendingFacts(batch: seq<string>, data: Store, store: Store, ext: Externals, j: nat)
    requires forall k :: k in batch ==> k in data.vals
    requires j < |Pending(batch, data, store, ext)|
    ensures var item := Pending(batch, data, store, ext)[j];
      item.id in batch && Eligible(data, store, item.id) && item == ItemOf(data, item.id, ext)
  {
    var init := batch[..|batch| - 1];
    assert forall x :: x in init ==> x in batch;
    if j < |Pending(init, data, store, ext)| {
      PendingFacts(init, data, store, ext, j);
    }
  }

  /** Each eligible key of the slice is pending. */
  lemma {:induction false} EligibleIsPending(batch: seq<string>, data: Store, store: Store, ext: Externals, k: string)
    requires forall x :: x in batch ==> x in data.vals
    requires k in batch && Eligible(data, store, k)
    ensures HasId(Pending(batch, data, store, ext), k)
  {
    var init := batch[..|batch| - 1];
    var last := batch[|batch| - 1];
    var pre := Pending(init, data, store, ext);
    assert forall x :: x in init ==> x in batch;
    if k == last {
      var items := pre + [ItemOf(data, k, ext)];
      assert items[|pre|].id == k;
    } else {
      assert batch == init + [last];
      EligibleIsPending(init, data, store, ext, k);
      var j :| 0 <= j < |pre| && pre[j].id == k;
      assert Pending(batch, data, store, ext)[j] == pre[j];
    }
  }

  /** A slice of distinct keys gives pending items with distinct ids. */
  lemma {:induction false} PendingDistinct(batch: seq<string>, data: Store, store: Store, ext: Externals)
    requires forall k :: k in batch ==> k in data.vals
    requires Dicts.Distinct(batch)
    ensures DistinctIds(Pending(batch, data, store, ext))
  {
    if batch != [] {
      var init := batch[..|batch| - 1];
      var k := batch[|batch| - 1];
      assert forall x :: x in init ==> x in batch;
      PendingDistinct(init, data, store, ext);
      var pre := Pending(init, data, store, ext);
      if Eligible(data, store, k) {
        forall j | 0 <= j < |pre| ensures pre[j].id != k {
          PendingFacts(init, data, store, ext, j);
          var i :| 0 <= i < |init| && init[i] == pre[j].id;
          assert batch[i] == init[i];
        }
      }
    }
  }

  /** Exactly the eligible keys of the slice are pending, each once, and each as `ItemOf` builds it. */
  lemma PendingExactlyEligible(batch: seq<string>, data: Store, store: Store, ext: Externals)
    requires forall k :: k in batch ==> k in data.vals
    requires Dicts.Distinct(batch)
    ensures var items := Pending(batch, data, store, ext);
      forall j :: 0 <= j < |items| ==>
        items[j].id in batch && Eligible(data, store, items[j].id) && items[j] == ItemOf(data, items[j].id, ext)
    ensures forall k :: k in batch && Eligible(data, store, k) ==> HasId(Pending(batch, data, store, ext), k)
    ensures DistinctIds(Pending(batch, data, store, ext))
  {
    var items := Pending(batch, data, store, ext);
    forall j | 0 <= j < |items|
      ensures items[j].id in batch && Eligible(data, store, items[j].id) && items[j] == ItemOf(data, items[j].id, ext)
    {
      PendingFacts(batch, data, store, ext, j);
    }
    forall k | k in batch && Eligible(data, store, k) ensures HasId(items, k) {
      EligibleIsPending(batch, data, store, ext, k);
    }
    PendingDistinct(batch, data, store, ext);
  }

  /** With nothing eligible in the slice, nothing is pending. */
  lemma {:induction false} NothingEligibleNothingPending(batch: seq<string>, data: Store, store: Store, ext: Externals)
    requires forall k :: k in batch ==> k in data.vals
    requires forall k :: k in batch ==> !Eligible(data, store, k)
    ensures Pending(batch, data, store, ext) == []
  {
    if batch != [] {
      NothingEligibleNothingPending(batch[..|batch| - 1], data, store, ext);
    }
  }

  // ---------------------------------------------------------------------------
  // Putting the verdicts into the store

  /** The record written for a judged item. */
  function NewRecord(item: PendingItem, category: Value, verdict: int, ext: Externals): (r: Record)
    ensures "llm_score" in r && r["llm_score"] == Int(verdict)
    ensures r.Keys == {"question", "answer", "response", "category", "bleu_score", "f1_score", "llm_score"}
  {
    map[
      "question" := item.question,
      "answer" := Str(item.answer),
      "response" := Str(item.response),
      "category" := category,
      "bleu_score" := Real(ext.bleu1(item.response, item.answer)),
      "f1_score" := Real(ext.f1(item.response, item.answer)),
      "llm_score" := Int(verdict)]
  }

  /** `data[k]["category"]`, read only for pending items, which have one. */
  function CategoryOf(data: Store, k: string): Value
  {
    if k in data.vals && "category" in data.vals[k] then data.vals[k]["category"] else Null
  }

  /** What the loop body writes for one pending item, or the crash of `int(llm_score)`. */
  type Writer = PendingItem -> Result<Record, Crash>

  /** The body of the inner loop of `main`: the verdict for the item's id, then its new record. */
  function VerdictWriter(scores: Value, data: Store, ext: Externals): Writer
  {
    (item: PendingItem) =>
      match StoredVerdict(scores, item.id, ext)
      case Err(e) => Err(e)
      case Ok(n) => Ok(NewRecord(item, CategoryOf(data, item.id), n, ext))
  }

  /** The loop that writes one record per pending item; the first failing write ends the run. */
  function Apply(items: seq<PendingItem>, write: Writer, store: Store): Result<Store, Crash>
  {
    if items == [] then Ok(store)
    else
      match Apply(items[..|items| - 1], write, store)
      case Err(e) => Err(e)
      case Ok(s) =>
        var item := items[|items| - 1];
        match write(item)
        case Err(e) => Err(e)
        case Ok(rec) => Ok(Dicts.Put(s, item.id, rec))
  }

  /** Applying the verdicts succeeds exactly when every pending item's write succeeds. */
  lemma {:induction false} ApplyOutcome(items: seq<PendingItem>, write: Writer, store: Store)
    ensures Apply(items, write, store).Ok? <==> forall j :: 0 <= j < |items| ==> write(items[j]).Ok?
  {
    if items != [] {
      var init := items[..|items| - 1];
      ApplyOutcome(init, write, store);
      forall j | 0 <= j < |init| ensures init[j] == items[j] { }
    }
  }

  /** A key is in the new store when it was in the old one or is pending; one that is not pending keeps its record. */
  lemma {:induction false} ApplyKeeps(items: seq<PendingItem>, write: Writer, store: Store, x: string)
    requires Apply(items, write, store).Ok?
    ensures var r := Apply(items, write, store).value;
      && (x in r.vals <==> x in store.vals || HasId(items, x))
      && (x in store.vals && !HasId(items, x) ==> r.vals[x] == store.vals[x])
  {
    if items != [] {
      var init := items[..|items| - 1];
      ApplyKeeps(init, write, store, x);
      HasIdSnoc(items, x);
    }
  }

  /** A key is pending in a list exactly when it is pending before the last item or is the last item's. */
  lemma HasIdSnoc(items: seq<PendingItem>, x: string)
    requires items != []
    ensures HasId(items, x) <==> HasId(items[..|items| - 1], x) || items[|items| - 1].id == x
  {
    var init := items[..|items| - 1];
    if HasId(items, x) && x != items[|items| - 1].id {
      var j :| 0 <= j < |items| && items[j].id == x;
      assert init[j].id == x;
    }
    if HasId(init, x) {
      var j :| 0 <= j < |init| && init[j].id == x;
      assert items[j].id == x;
    }
  }

  /** Each pending item's key holds the record its write produced. */
  lemma {:induction false} ApplyWrites(items: seq<PendingItem>, write: Writer, store: Store, j: nat)
    requires DistinctIds(items) && j < |items|
    requires Apply(items, write, store).Ok?
    ensures write(items[j]).Ok?
    ensures items[j].id in Apply(items, write, store).value.vals
    ensures Apply(items, write, store).value.vals[items[j].id] == write(items[j]).value
  {
    var init := items[..|items| - 1];
    if j < |init| {
      assert init[j] == items[j];
      assert items[j].id != items[|items| - 1].id;
      ApplyWrites(init, write, store, j);
    }
  }

  // ---------------------------------------------------------------------------
  // One slice and the loop over slices

  /** What a slice does to the store: nothing (no pending item), or a new store that is then written. */
  datatype Batch = Skipped | Written(store: Store)

  /** A batch judge: the verdict map for the pending items, given the number of calls made before. */
  type Judge = (seq<PendingItem>, nat) -> Result<Value, Crash>

  /** The judge of `main`: one `evaluate_llm_judge_batch_with_id` call. */
  function LlmJudge(ext: Externals): Judge
  {
    (items: seq<PendingItem>, n: nat) => JudgeBatch(items, n, ext)
  }

  /** One iteration of the loop in `main`, with `calls` judge calls made before it. */
  function ProcessBatch(batch: seq<string>, data: Store, store: Store, calls: nat, judge: Judge, ext: Externals): Result<Batch, Crash>
    requires forall k :: k in batch ==> k in data.vals
  {
    var items := Pending(batch, data, store, ext);
    if items == [] then Ok(Skipped)
    else
      match judge(items, calls)
      case Err(e) => Err(e)
      case Ok(scores) =>
        match Apply(items, VerdictWriter(scores, data, ext), store)
        case Err(e) => Err(e)
        case Ok(s) => Ok(Written(s))
  }

  /** A slice is skipped, with no judge call and no write, exactly when none of its keys is eligible. */
  lemma BatchSkipped(batch: seq<string>, data: Store, store: Store, calls: nat, judge: Judge, ext: Externals)
    requires forall k :: k in batch ==> k in data.vals
    ensures (forall k :: k in batch ==> !Eligible(data, store, k))
            <==> ProcessBatch(batch, data, store, calls, judge, ext) == Ok(Skipped)
  {
    if forall k :: k in batch ==> !Eligible(data, store, k) {
      NothingEligibleNothingPending(batch, data, store, ext);
    } else {
      var k :| k in batch && Eligible(data, store, k);
      EligibleIsPending(batch, data, store, ext, k);
    }
  }

  /** A slice ends the run exactly when it was judged and the judge failed or some verdict is unusable. */
  lemma BatchFails(batch: seq<string>, data: Store, store: Store, calls: nat, judge: Judge, ext: Externals)
    requires forall k :: k in batch ==> k in data.vals
    ensures var items := Pending(batch, data, store, ext);
      ProcessBatch(batch, data, store, calls, judge, ext).Err?
      <==> items != [] && (judge(items, calls).Err?
                           || exists j :: 0 <= j < |items| && StoredVerdict(judge(items, calls).value, items[j].id, ext).Err?)
  {
    var items := Pending(batch, data, store, ext);
    if items != [] && judge(items, calls).Ok? {
      var write := VerdictWriter(judge(items, calls).value, data, ext);
      ApplyOutcome(items, write, store);
      forall j | 0 <= j < |items|
        ensures write(items[j]).Ok? <==> StoredVerdict(judge(items, calls).value, items[j].id, ext).Ok?
      {
      }
    }
  }

  /** After a judged slice, each eligible key of the slice holds its new record. */
  lemma BatchWrites(batch: seq<string>, data: Store, store: Store, calls: nat, judge: Judge, ext: Externals, k: string)
    requires forall x :: x in batch ==> x in data.vals
    requires Dicts.Distinct(batch)
    requires ProcessBatch(batch, data, store, calls, judge, ext).Ok?
    requires k in batch && Eligible(data, store, k)
    ensures var items := Pending(batch, data, store, ext);
      var r := ProcessBatch(batch, data, store, calls, judge, ext).value;
      && r.Written?
      && judge(items, calls).Ok?
      && StoredVerdict(judge(items, calls).value, k, ext).Ok?
      && k in r.store.vals
      && r.store.vals[k]
         == NewRecord(ItemOf(data, k, ext), data.vals[k]["category"], StoredVerdict(judge(items, calls).value, k, ext).value, ext)
  {
    var items := Pending(batch, data, store, ext);
    EligibleIsPending(batch, data, store, ext, k);
    var j :| 0 <= j < |items| && items[j].id == k;
    PendingFacts(batch, data, store, ext, j);
    PendingDistinct(batch, data, store, ext);
    ApplyWrites(items, VerdictWriter(judge(items, calls).value, data, ext), store, j);
  }

  /** After a slice, a key that was not eligible in it keeps its record, or stays absent. */
  lemma BatchKeeps(batch: seq<string>, data: Store, store: Store, calls: nat, judge: Judge, ext: Externals, x: string)
    requires forall k :: k in batch ==> k in data.vals
    requires ProcessBatch(batch, data, store, calls, judge, ext).Ok?
    requires !(x in batch && Eligible(data, store, x))
    ensures var r := ProcessBatch(batch, data, store, calls, judge, ext).value;
      var after := if r.Written? then r.store else store;
      && (x in after.vals <==> x in store.vals)
      && (x in store.vals ==> after.vals[x] == store.vals[x])
  {
    var items := Pending(batch, data, store, ext);
    if items != [] {
      ApplyKeeps(items, VerdictWriter(judge(items, calls).value, data, ext), store, x);
      if HasId(items, x) {
        var j :| 0 <= j < |items| && items[j].id == x;
        PendingFacts(batch, data, store, ext, j);
      }
    }
  }

  /** The state of `main` between two slices. */
  datatype Progress = Progress(store: Store, calls: nat, writes: seq<Store>, crash: Option<Crash>)

  function Start(store0: Store): Progress
  {
    Progress(store0, 0, [], None)
  }

  /** Every slice lists distinct keys of `data`. */
  ghost predicate WellSliced(slices: seq<seq<string>>, data: Store)
  {
    forall b :: 0 <= b < |slices| ==>
      Dicts.Distinct(slices[b]) && forall k :: k in slices[b] ==> k in data.vals
  }

  /**
   * The loop over slices from state `start`. A crash stops it; the judge call that
   * preceded the crash is counted, and the store stays the one last written.
   */
  function RunSlices(slices: seq<seq<string>>, data: Store, start: Progress, judge: Judge, ext: Externals): (p: Progress)
    requires WellSliced(slices, data)
    ensures start.writes <= p.writes
    ensures start.crash.Some? ==> p == start
    ensures p.writes == start.writes ==> p.store == start.store
    ensures |p.writes| > |start.writes| ==> p.store == p.writes[|p.writes| - 1]
    ensures p.calls == start.calls + (|p.writes| - |start.writes|)
                       + (if p.crash.Some? && start.crash.None? then 1 else 0)
  {
    if slices == [] then start
    else Step(RunSlices(slices[..|slices| - 1], data, start, judge, ext), slices[|slices| - 1], data, judge, ext)
  }

  /** One pass of the loop body from state `p`; nothing happens once the run has crashed. */
  function Step(p: Progress, batch: seq<string>, data: Store, judge: Judge, ext: Externals): (q: Progress)
    requires forall k :: k in batch ==> k in data.vals
    ensures p.crash.Some? ==> q == p
    ensures q.writes == p.writes || q.writes == p.writes + [q.store]
    ensures q.writes == p.writes ==> q.store == p.store
    ensures q.calls == p.calls + (|q.writes| - |p.writes|) + (if q.crash.Some? && p.crash.None? then 1 else 0)
    ensures q.crash.Some? && p.crash.None? ==> q.writes == p.writes
  {
    if p.crash.Some? then p
    else match ProcessBatch(batch, data, p.store, p.calls, judge, ext)
      case Err(e) => Progress(p.store, p.calls + 1, p.writes, Some(e))
      case Ok(Skipped) => p
      case Ok(Written(s)) => Progress(s, p.calls + 1, p.writes + [s], None)
  }

  /** Once the run has crashed, later slices change nothing. */
  lemma {:induction false} CrashSticks(pre: seq<seq<string>>, post: seq<seq<string>>, data: Store, start: Progress, judge: Judge, ext: Externals)
    requires WellSliced(pre + post, data)
    requires WellSliced(pre, data)
    requires RunSlices(pre, data, start, judge, ext).crash.Some?
    ensures RunSlices(pre + post, data, start, judge, ext) == RunSlices(pre, data, start, judge, ext)
  {
    if post == [] {
      assert pre + post == pre;
    } else {
      var init := post[..|post| - 1];
      WellSlicedInit(pre, post, data);
      CrashSticks(pre, init, data, start, judge, ext);
    }
  }

  /** Dropping the last slice of `pre + post` drops the last slice of `post`, and keeps the slices well formed. */
  lemma WellSlicedInit(pre: seq<seq<string>>, post: seq<seq<string>>, data: Store)
    requires post != [] && WellSliced(pre + post, data)
    ensures (pre + post)[..|pre + post| - 1] == pre + post[..|post| - 1]
    ensures WellSliced(pre + post[..|post| - 1], data)
  {
    var all := pre + post;
    var init := post[..|post| - 1];
    assert all[..|all| - 1] == pre + init;
    forall b | 0 <= b < |pre + init| ensures (pre + init)[b] == all[b] { }
  }

  // ---------------------------------------------------------------------------
  // Slicing the keys

  /** `[keys[i:i + n] for i in range(0, len(keys), n)]` for a positive `n`. */
  function Slices(keys: seq<string>, n: nat): seq<seq<string>>
    requires n > 0
    decreases |keys|
  {
    if keys == [] then []
    else if |keys| <= n then [keys]
    else [keys[..n]] + Slices(keys[n..], n)
  }

  function Flatten(ss: seq<seq<string>>): seq<string>
  {
    if ss == [] then [] else ss[0] + Flatten(ss[1..])
  }

  /** The slices, put back together, are the key list in its order. */
  lemma {:induction false} SlicesFlatten(keys: seq<string>, n: nat)
    requires n > 0
    ensures Flatten(Slices(keys, n)) == keys
    decreases |keys|
  {
    if |keys| > n {
      SlicesFlatten(keys[n..], n);
      var all := Slices(keys, n);
      assert all[0] == keys[..n];
      assert all[1..] == Slices(keys[n..], n);
      assert keys == keys[..n] + keys[n..];
    }
  }

  /** Each slice is non-empty and at most `n` long, and only the last may be shorter. */
  lemma {:induction false} SlicesSizes(keys: seq<string>, n: nat)
    requires n > 0
    ensures forall b :: 0 <= b < |Slices(keys, n)| ==> 0 < |Slices(keys, n)[b]| <= n
    ensures forall b :: 0 <= b < |Slices(keys, n)| - 1 ==> |Slices(keys, n)[b]| == n
    decreases |keys|
  {
    var all := Slices(keys, n);
    if |keys| > n {
      var rest := Slices(keys[n..], n);
      SlicesSizes(keys[n..], n);
      assert all == [keys[..n]] + rest;
      forall b | 1 <= b < |all| ensures all[b] == rest[b - 1] { }
    }
  }

  /** Every key lies in exactly one slice. */
  lemma {:induction false} KeyInOneSlice(keys: seq<string>, n: nat, k: string)
    requires n > 0 && Dicts.Distinct(keys) && k in keys
    ensures exists b :: 0 <= b < |Slices(keys, n)| && k in Slices(keys, n)[b]
    ensures forall b, b' :: 0 <= b < b' < |Slices(keys, n)| && k in Slices(keys, n)[b] ==> k !in Slices(keys, n)[b']
    decreases |keys|
  {
    var all := Slices(keys, n);
    if |keys| <= n {
      assert all == [keys];
      assert k in all[0];
    } else {
      var rest := Slices(keys[n..], n);
      assert all == [keys[..n]] + rest;
      forall b | 1 <= b < |all| ensures all[b] == rest[b - 1] { }
      if k in keys[..n] {
        var i :| 0 <= i < n && keys[i] == k;
        assert k in all[0];
        assert k !in keys[n..] by {
          forall i' | 0 <= i' < |keys| - n ensures keys[n..][i'] != k {
            assert keys[n..][i'] == keys[n + i'];
          }
        }
        forall b' | 0 < b' < |all| ensures k !in all[b'] {
          SlicesWithin(keys[n..], n, b' - 1);
        }
      } else {
        assert keys == keys[..n] + keys[n..];
        assert k in keys[n..];
        KeyInOneSlice(keys[n..], n, k);
        var b :| 0 <= b < |rest| && k in rest[b];
        assert k in all[b + 1];
      }
    }
  }

  /** Every slice is made of keys of the list. */
  lemma {:induction false} SlicesWithin(keys: seq<string>, n: nat, b: nat)
    requires n > 0 && b < |Slices(keys, n)|
    ensures forall k :: k in Slices(keys, n)[b] ==> k in keys
    ensures Dicts.Distinct(keys) ==> Dicts.Distinct(Slices(keys, n)[b])
    decreases |keys|
  {
    if |keys| > n {
      var rest := Slices(keys[n..], n);
      assert Slices(keys, n) == [keys[..n]] + rest;
      if b > 0 {
        SlicesWithin(keys[n..], n, b - 1);
        assert Slices(keys, n)[b] == rest[b - 1];
        assert forall k :: k in keys[n..] ==> k in keys;
      }
    }
  }

  lemma SlicesOfData(keys: seq<string>, data: Store, n: nat)
    requires n > 0 && Dicts.Distinct(keys) && forall k :: k in keys ==> k in data.vals
    ensures WellSliced(Slices(keys, n), data)
  {
    forall b | 0 <= b < |Slices(keys, n)|
      ensures Dicts.Distinct(Slices(keys, n)[b]) && forall k :: k in Slices(keys, n)[b] ==> k in data.vals
    {
      SlicesWithin(keys, n, b);
    }
  }

  /** `m` is a multiple of `n`. */
  ghost predicate MultipleOf(m: nat, n: nat)
    requires n > 0
    decreases m
  {
    m == 0 || (m >= n && MultipleOf(m - n, n))
  }

  /** Cutting after a whole number of slices cuts the slice list there. */
  lemma {:induction false} SlicesAppend(a: seq<string>, b: seq<string>, n: nat)
    requires n > 0 && MultipleOf(|a|, n)
    ensures Slices(a + b, n) == Slices(a, n) + Slices(b, n)
    decreases |a|
  {
    if a == [] {
      assert a + b == b;
    } else if |a| == n {
      if b == [] {
        assert a + b == a;
      } else {
        assert (a + b)[..n] == a;
        assert (a + b)[n..] == b;
      }
    } else {
      assert (a + b)[..n] == a[..n];
      assert (a + b)[n..] == a[n..] + b;
      SlicesAppend(a[n..], b, n);
    }
  }

  // ---------------------------------------------------------------------------
  // Coercing the scores (`convert_scores_to_numeric_or_raise`)

  /**
   * One record after coercion; `None` where a score field is missing, since the
   * handler re-reads it and raises `KeyError`. A failed `int(llm_score)` leaves
   * `llm_score` as it was and sets `bleu_score` to 0.
   */
  function ConvertRecord(rec: Record, ext: Externals): (r: Option<Record>)
    ensures r.Some? <==> "bleu_score" in rec && "f1_score" in rec && "llm_score" in rec
  {
    if "bleu_score" !in rec || "f1_score" !in rec || "llm_score" !in rec then None
    else
      var bleu := Coerced(rec["bleu_score"], ext);
      var f1 := Coerced(rec["f1_score"], ext);
      match ext.IntOf(rec["llm_score"])
      case Some(n) => Some(rec["bleu_score" := bleu]["f1_score" := f1]["llm_score" := Int(n)])
      case None => Some(rec["bleu_score" := Int(0)]["f1_score" := f1])
  }

  /** What coercion does to each field of one record. */
  lemma ConvertRecordEffect(rec: Record, ext: Externals)
    requires "bleu_score" in rec && "f1_score" in rec && "llm_score" in rec
    ensures var r := ConvertRecord(rec, ext).value;
      var llm := ext.IntOf(rec["llm_score"]);
      && r.Keys == rec.Keys
      && (forall f :: f in rec && f !in Aggregate.ScoreFields ==> r[f] == rec[f])
      && r["llm_score"] == (if llm.Some? then Int(llm.value) else rec["llm_score"])
      && r["bleu_score"] == (if llm.None? then Int(0) else Coerced(rec["bleu_score"], ext))
      && r["f1_score"] == Coerced(rec["f1_score"], ext)
  {
  }

  /** `float(v)` where it succeeds, `v` itself where it raises. */
  function Coerced(v: Value, ext: Externals): Value
  {
    match ext.FloatOf(v) case Some(x) => Real(x) case None => v
  }

  /** A per-record coercion; `None` where it raises. */
  type Coercion = Record -> Option<Record>

  /** The coercion loop over the keys `keys` of the store, in that order; the error names the record. */
  function ConvertKeys(keys: seq<string>, store: Store, conv: Coercion): (r: Result<Store, string>)
    requires forall k :: k in keys ==> k in store.vals
    ensures r.Ok? ==> r.value.keys == store.keys && r.value.vals.Keys == store.vals.Keys
  {
    if keys == [] then Ok(store)
    else
      match ConvertKeys(keys[..|keys| - 1], store, conv)
      case Err(k) => Err(k)
      case Ok(s) =>
        var k := keys[|keys| - 1];
        match conv(store.vals[k])
        case None => Err(k)
        case Some(rec) => Ok(Dicts.Put(s, k, rec))
  }

  /** The loop fails exactly when some visited record fails, and then names such a record. */
  lemma {:induction false} ConvertKeysOutcome(keys: seq<string>, store: Store, conv: Coercion)
    requires forall k :: k in keys ==> k in store.vals
    ensures var r := ConvertKeys(keys, store, conv);
      && (r.Ok? <==> forall k :: k in keys ==> conv(store.vals[k]).Some?)
      && (r.Err? ==> r.error in keys && conv(store.vals[r.error]).None?)
  {
    if keys != [] {
      var init := keys[..|keys| - 1];
      assert forall x :: x in keys <==> x in init || x == keys[|keys| - 1];
      ConvertKeysOutcome(init, store, conv);
    }
  }

  /** After the loop, a visited record holds its coerced value and any other record is as it was. */
  lemma {:induction false} ConvertKeysAt(keys: seq<string>, store: Store, conv: Coercion, x: string)
    requires forall k :: k in keys ==> k in store.vals
    requires x in store.vals && ConvertKeys(keys, store, conv).Ok?
    ensures var r := ConvertKeys(keys, store, conv).value;
      && x in r.vals
      && (x in keys ==> conv(store.vals[x]) == Some(r.vals[x]))
      && (x !in keys ==> r.vals[x] == store.vals[x])
  {
    if keys != [] {
      var init := keys[..|keys| - 1];
      assert forall y :: y in keys <==> y in init || y == keys[|keys| - 1];
      ConvertKeysAt(init, store, conv, x);
    }
  }

  /** `convert_scores_to_numeric_or_raise(local_results)`. */
  function ConvertAll(store: Store, ext: Externals): Result<Store, string>
  {
    assert forall k :: k in store.keys ==> k in store.vals by {
      assert store.vals.Keys == set k | k in store.keys;
    }
    ConvertKeys(store.keys, store, (rec: Record) => ConvertRecord(rec, ext))
  }

  /**
   * Coercion keeps the keys and each record's fields; it fails exactly when some
   * record lacks one of the three score fields.
   */
  lemma ConvertAllEffect(store: Store, ext: Externals)
    ensures var r := ConvertAll(store, ext);
      (r.Ok? <==> forall k :: k in store.vals ==> ConvertRecord(store.vals[k], ext).Some?)
    ensures var r := ConvertAll(store, ext);
      r.Err? ==> r.error in store.vals && ConvertRecord(store.vals[r.error], ext).None?
    ensures var r := ConvertAll(store, ext);
      r.Ok? ==> r.value.keys == store.keys && r.value.vals.Keys == store.vals.Keys
    ensures var r := ConvertAll(store, ext);
      r.Ok? ==> forall k :: k in store.vals ==> ConvertRecord(store.vals[k], ext) == Some(r.value.vals[k])
  {
    var conv := (rec: Record) => ConvertRecord(rec, ext);
    assert forall k :: k in store.keys <==> k in store.vals by {
      assert store.vals.Keys == set k | k in store.keys;
    }
    ConvertKeysOutcome(store.keys, store, conv);
    var r := ConvertAll(store, ext);
    if r.Ok? {
      forall k | k in store.vals ensures ConvertRecord(store.vals[k], ext) == Some(r.value.vals[k]) {
        ConvertKeysAt(store.keys, store, conv, k);
      }
    }
  }

  /** Coercing a coerced record again changes nothing. */
  lemma ConvertRecordIdempotent(rec: Record, ext: Externals)
    requires ConvertRecord(rec, ext).Some?
    ensures ConvertRecord(ConvertRecord(rec, ext).value, ext) == ConvertRecord(rec, ext)
  {
    var r1 := ConvertRecord(rec, ext).value;
    ConvertRecordEffect(rec, ext);
    ConvertRecordEffect(r1, ext);
    var r2 := ConvertRecord(r1, ext).value;
    assert r2 == r1;
  }

  /** Every record of a coerced store is left as it is by coercion. */
  lemma CoercedRecordsAreFixed(store: Store, ext: Externals)
    requires ConvertAll(store, ext).Ok?
    ensures var s1 := ConvertAll(store, ext).value;
      forall k :: k in s1.vals ==> ConvertRecord(s1.vals[k], ext) == Some(s1.vals[k])
  {
    var s1 := ConvertAll(store, ext).value;
    ConvertAllEffect(store, ext);
    forall k | k in s1.vals ensures ConvertRecord(s1.vals[k], ext) == Some(s1.vals[k]) {
      ConvertRecordIdempotent(store.vals[k], ext);
    }
  }

  /** Coercing an already coerced store changes nothing. */
  lemma ConvertAllIdempotent(store: Store, ext: Externals)
    requires ConvertAll(store, ext).Ok?
    ensures ConvertAll(ConvertAll(store, ext).value, ext) == ConvertAll(store, ext)
  {
    var s1 := ConvertAll(store, ext).value;
    CoercedRecordsAreFixed(store, ext);
    ConvertAllEffect(s1, ext);
    var s2 := ConvertAll(s1, ext).value;
    assert s2.vals == s1.vals;
    assert s2 == s1;
  }

  // ---------------------------------------------------------------------------
  // The whole run

  /** Everything `main` leaves behind: the stores written, the judge calls, and the report or the crash. */
  datatype Outcome = Outcome(writes: seq<Store>, calls: nat, result: Result<Aggregate.Report, Crash>)

  /** Coercion, then the per-category report over `list(local_results.values())`. */
  function Summarize(store: Store, ext: Externals): Result<Aggregate.Report, Crash>
  {
    match ConvertAll(store, ext)
    case Err(k) => Err(MissingScoreField(k))
    case Ok(s) =>
      match Aggregate.AggregateRows(Dicts.Values(s), ext.parseFloat)
      case Err(e) => Err(ReportFailed(e))
      case Ok(rep) => Ok(rep)
  }

  /** `main` on the merged answers `data`, the store found on disk and `batch_size`. */
  function Evaluate(data: Store, store0: Store, batchSize: int, ext: Externals): Outcome
  {
    if batchSize == 0 then Outcome([], 0, Err(ZeroBatchSize))
    else
      var p := Loop(data, store0, batchSize, ext);
      Outcome(p.writes, p.calls, if p.crash.Some? then Err(p.crash.value) else Summarize(p.store, ext))
  }

  /** The loop of `main`; a negative step gives an empty `range`. */
  function Loop(data: Store, store0: Store, batchSize: int, ext: Externals): Progress
    requires batchSize != 0
  {
    if batchSize < 0 then Start(store0)
    else
      DataSlices(data, batchSize);
      RunSlices(Slices(data.keys, batchSize), data, Start(store0), LlmJudge(ext), ext)
  }

  lemma DataSlices(data: Store, n: nat)
    requires n > 0
    ensures WellSliced(Slices(data.keys, n), data)
  {
    assert data.vals.Keys == set k | k in data.keys;
    SlicesOfData(data.keys, data, n);
  }

  // ---------------------------------------------------------------------------
  // What a run guarantees

  /** A failed judgement is stored as 0 for every item of the batch. */
  lemma FailedJudgementScoresZero(items: seq<PendingItem>, k: string, ext: Externals)
    ensures StoredVerdict(AllNone(items), k, ext) == Ok(0)
  {
  }

  /** One slice leaves alone every key it does not find eligible. */
  lemma StepKeeps(p: Progress, batch: seq<string>, data: Store, judge: Judge, ext: Externals, x: string)
    requires forall k :: k in batch ==> k in data.vals
    requires !(x in batch && Eligible(data, p.store, x))
    ensures var q := Step(p, batch, data, judge, ext);
      && (x in q.store.vals <==> x in p.store.vals)
      && (x in p.store.vals ==> q.store.vals[x] == p.store.vals[x])
  {
    if p.crash.None? && ProcessBatch(batch, data, p.store, p.calls, judge, ext).Ok? {
      BatchKeeps(batch, data, p.store, p.calls, judge, ext, x);
    }
  }

  /** A slice that does not crash leaves every complete key of it judged. */
  lemma StepJudges(p: Progress, batch: seq<string>, data: Store, judge: Judge, ext: Externals, k: string)
    requires forall x :: x in batch ==> x in data.vals
    requires Dicts.Distinct(batch)
    requires k in batch && Complete(data.vals[k])
    requires Step(p, batch, data, judge, ext).crash.None?
    ensures Judged(Step(p, batch, data, judge, ext).store, k)
  {
    if Eligible(data, p.store, k) {
      BatchWrites(batch, data, p.store, p.calls, judge, ext, k);
    } else {
      StepKeeps(p, batch, data, judge, ext, k);
    }
  }

  /** A key the run can never find eligible: not an item, incomplete, or judged at the start. */
  predicate NeverEligible(data: Store, store: Store, x: string)
  {
    x !in data.vals || !Complete(data.vals[x]) || Judged(store, x)
  }

  /** A key that is never eligible keeps its record, or stays absent, through the whole run. */
  lemma {:induction false} RunKeeps(slices: seq<seq<string>>, data: Store, start: Progress, judge: Judge, ext: Externals, x: string)
    requires WellSliced(slices, data)
    requires NeverEligible(data, start.store, x)
    ensures var q := RunSlices(slices, data, start, judge, ext);
      && (x in q.store.vals <==> x in start.store.vals)
      && (x in start.store.vals ==> q.store.vals[x] == start.store.vals[x])
  {
    if slices != [] {
      var init := slices[..|slices| - 1];
      assert WellSliced(init, data) by {
        forall b | 0 <= b < |init| ensures init[b] == slices[b] { }
      }
      RunKeeps(init, data, start, judge, ext, x);
      var p := RunSlices(init, data, start, judge, ext);
      assert NeverEligible(data, p.store, x);
      StepKeeps(p, slices[|slices| - 1], data, judge, ext, x);
    }
  }

  /** Every complete key of every slice has a judged record in `store`. */
  ghost predicate AllJudged(slices: seq<seq<string>>, data: Store, store: Store)
  {
    forall b, k :: 0 <= b < |slices| && k in slices[b] && k in data.vals && Complete(data.vals[k]) ==> Judged(store, k)
  }

  /** A run that does not crash leaves every complete key of every slice judged. */
  lemma {:induction false} RunJudgesAll(slices: seq<seq<string>>, data: Store, start: Progress, judge: Judge, ext: Externals)
    requires WellSliced(slices, data)
    requires RunSlices(slices, data, start, judge, ext).crash.None?
    ensures AllJudged(slices, data, RunSlices(slices, data, start, judge, ext).store)
  {
    if slices != [] {
      var init := slices[..|slices| - 1];
      var last := slices[|slices| - 1];
      assert WellSliced(init, data) by {
        forall b | 0 <= b < |init| ensures init[b] == slices[b] { }
      }
      var p := RunSlices(init, data, start, judge, ext);
      var q := RunSlices(slices, data, start, judge, ext);
      assert p.crash.None?;
      RunJudgesAll(init, data, start, judge, ext);
      forall b, k | 0 <= b < |slices| && k in slices[b] && k in data.vals && Complete(data.vals[k])
        ensures Judged(q.store, k)
      {
        if b == |slices| - 1 {
          StepJudges(p, last, data, judge, ext, k);
        } else {
          assert init[b] == slices[b];
          assert Judged(p.store, k);
          StepKeeps(p, last, data, judge, ext, k);
        }
      }
    }
  }

  /** A run over slices whose complete keys are all judged skips every slice. */
  lemma {:induction false} RunSkipsJudged(slices: seq<seq<string>>, data: Store, start: Progress, judge: Judge, ext: Externals)
    requires WellSliced(slices, data)
    requires AllJudged(slices, data, start.store)
    ensures RunSlices(slices, data, start, judge, ext) == start
  {
    if slices != [] {
      var init := slices[..|slices| - 1];
      var last := slices[|slices| - 1];
      assert WellSliced(init, data) && AllJudged(init, data, start.store) by {
        forall b | 0 <= b < |init| ensures init[b] == slices[b] { }
      }
      RunSkipsJudged(init, data, start, judge, ext);
      if start.crash.None? {
        assert forall k :: k in last ==> !Eligible(data, start.store, k) by {
          forall k | k in last ensures !Eligible(data, start.store, k) {
            assert 0 <= |slices| - 1 < |slices| && k in slices[|slices| - 1];
          }
        }
        BatchSkipped(last, data, start.store, start.calls, judge, ext);
      }
    }
  }

  /** Running `a` then `b` is running `a + b`. */
  lemma {:induction false} RunAppend(a: seq<seq<string>>, b: seq<seq<string>>, data: Store, start: Progress, judge: Judge, ext: Externals)
    requires WellSliced(a, data) && WellSliced(b, data) && WellSliced(a + b, data)
    ensures RunSlices(a + b, data, start, judge, ext) == RunSlices(b, data, RunSlices(a, data, start, judge, ext), judge, ext)
  {
    if b == [] {
      assert a + b == a;
    } else {
      var init := b[..|b| - 1];
      assert (a + b)[..|a + b| - 1] == a + init;
      assert (a + b)[|a + b| - 1] == b[|b| - 1];
      assert WellSliced(init, data) && WellSliced(a + init, data) by {
        forall i | 0 <= i < |init| ensures init[i] == b[i] { }
        forall i | 0 <= i < |a + init| ensures (a + init)[i] == (a + b)[i] { }
      }
      RunAppend(a, init, data, start, judge, ext);
    }
  }

  /** The judge's answer does not depend on how many calls came before. */
  ghost predicate IndexFree(judge: Judge)
  {
    forall items, m, m' :: judge(items, m) == judge(items, m')
  }

  /** `send_to_llm` answers a prompt the same way whenever it is sent. */
  ghost predicate SendIndexFree(ext: Externals)
  {
    forall m, m', prompt :: ext.send(m, prompt) == ext.send(m', prompt)
  }

  lemma LlmJudgeIndexFree(ext: Externals)
    requires SendIndexFree(ext)
    ensures IndexFree(LlmJudge(ext))
  {
    forall items, m: nat, m': nat ensures JudgeBatch(items, m, ext) == JudgeBatch(items, m', ext) {
      assert ext.send(m, BuildBatchPrompt(items, ext.StrOf)) == ext.send(m', BuildBatchPrompt(items, ext.StrOf));
    }
  }

  /** With an index-free judge, one slice from two states with the same store does the same thing. */
  lemma StepFromSameStore(p1: Progress, p2: Progress, batch: seq<string>, data: Store, judge: Judge, ext: Externals)
    requires forall k :: k in batch ==> k in data.vals
    requires IndexFree(judge) && p1.store == p2.store && p1.crash == p2.crash
    ensures var q1 := Step(p1, batch, data, judge, ext);
      var q2 := Step(p2, batch, data, judge, ext);
      && q1.store == q2.store && q1.crash == q2.crash
      && (q1.writes == p1.writes <==> q2.writes == p2.writes)
      && q1.calls - p1.calls == q2.calls - p2.calls
  {
    if p1.crash.None? {
      var items := Pending(batch, data, p1.store, ext);
      if items != [] {
        assert judge(items, p1.calls) == judge(items, p2.calls);
      }
    }
  }

  lemma SuffixSplit(a: seq<Store>, b: seq<Store>, c: seq<Store>)
    requires a <= b <= c
    ensures c[|a|..] == b[|a|..] + c[|b|..]
  {
    assert c == b + c[|b|..];
  }

  /**
   * With an index-free judge, two runs over the same slices from the same store
   * end in the same store and crash, and append the same writes.
   */
  lemma {:induction false} RunFromSameStore(slices: seq<seq<string>>, data: Store, p1: Progress, p2: Progress, judge: Judge, ext: Externals)
    requires WellSliced(slices, data) && IndexFree(judge)
    requires p1.store == p2.store && p1.crash == p2.crash
    ensures var q1 := RunSlices(slices, data, p1, judge, ext);
      var q2 := RunSlices(slices, data, p2, judge, ext);
      && q1.store == q2.store && q1.crash == q2.crash
      && q1.writes[|p1.writes|..] == q2.writes[|p2.writes|..]
      && q1.calls - p1.calls == q2.calls - p2.calls
  {
    if slices != [] {
      var init := slices[..|slices| - 1];
      var last := slices[|slices| - 1];
      assert WellSliced(init, data) by {
        forall b | 0 <= b < |init| ensures init[b] == slices[b] { }
      }
      RunFromSameStore(init, data, p1, p2, judge, ext);
      var r1 := RunSlices(init, data, p1, judge, ext);
      var r2 := RunSlices(init, data, p2, judge, ext);
      StepFromSameStore(r1, r2, last, data, judge, ext);
      var q1 := Step(r1, last, data, judge, ext);
      var q2 := Step(r2, last, data, judge, ext);
      SuffixSplit(p1.writes, r1.writes, q1.writes);
      SuffixSplit(p2.writes, r2.writes, q2.writes);
      assert q1.writes[|r1.writes|..] == q2.writes[|r2.writes|..];
    }
  }

  /** The first `j` slices and the rest are slices of the data too. */
  lemma WellSlicedParts(slices: seq<seq<string>>, data: Store, j: nat)
    requires WellSliced(slices, data) && j <= |slices|
    ensures WellSliced(slices[..j], data) && WellSliced(slices[j..], data)
    ensures slices == slices[..j] + slices[j..]
  {
    forall b | 0 <= b < j ensures slices[..j][b] == slices[b] { }
    forall b | 0 <= b < |slices| - j ensures slices[j..][b] == slices[j + b] { }
  }

  /** A run of `main` with a positive batch size stopped after its first `j` slices. */
  function RunPrefix(data: Store, store0: Store, n: nat, j: nat, ext: Externals): Progress
    requires n > 0 && j <= |Slices(data.keys, n)|
  {
    DataSlices(data, n);
    WellSlicedParts(Slices(data.keys, n), data, j);
    RunSlices(Slices(data.keys, n)[..j], data, Start(store0), LlmJudge(ext), ext)
  }

  /** Over the slices of the key list, a run that does not crash judges every complete item. */
  lemma SlicedRunJudgesAll(data: Store, start: Progress, n: nat, judge: Judge, ext: Externals)
    requires n > 0 && WellSliced(Slices(data.keys, n), data)
    requires RunSlices(Slices(data.keys, n), data, start, judge, ext).crash.None?
    ensures forall k :: k in data.vals && Complete(data.vals[k]) ==> Judged(RunSlices(Slices(data.keys, n), data, start, judge, ext).store, k)
  {
    var slices := Slices(data.keys, n);
    RunJudgesAll(slices, data, start, judge, ext);
    Dicts.KeysListed(data);
    forall k | k in data.vals && Complete(data.vals[k]) ensures Judged(RunSlices(slices, data, start, judge, ext).store, k) {
      KeyInOneSlice(data.keys, n, k);
      var b :| 0 <= b < |slices| && k in slices[b];
    }
  }

  /** After a run that does not crash, every complete item has a judged record. */
  lemma EveryCompleteItemJudged(data: Store, store0: Store, n: nat, ext: Externals)
    requires n > 0 && Loop(data, store0, n, ext).crash.None?
    ensures forall k :: k in data.vals && Complete(data.vals[k]) ==> Judged(Loop(data, store0, n, ext).store, k)
  {
    DataSlices(data, n);
    SlicedRunJudgesAll(data, Start(store0), n, LlmJudge(ext), ext);
  }

  /**
   * A key that is not a complete item, or that was judged already, keeps its
   * record (or stays absent) through the whole loop. In particular a stored 0
   * from a failed judgement is never judged again.
   */
  lemma UntouchedKeys(data: Store, store0: Store, batchSize: int, ext: Externals, x: string)
    requires batchSize != 0 && NeverEligible(data, store0, x)
    ensures var s := Loop(data, store0, batchSize, ext).store;
      && (x in s.vals <==> x in store0.vals)
      && (x in store0.vals ==> s.vals[x] == store0.vals[x])
  {
    if batchSize > 0 {
      DataSlices(data, batchSize);
      RunKeeps(Slices(data.keys, batchSize), data, Start(store0), LlmJudge(ext), ext, x);
    }
  }

  /** Running `main` again on the store a crash-free run left behind calls no judge, writes nothing and reports the same. */
  lemma RerunChangesNothing(data: Store, store0: Store, batchSize: int, ext: Externals)
    requires batchSize != 0 && Loop(data, store0, batchSize, ext).crash.None?
    ensures Evaluate(data, Loop(data, store0, batchSize, ext).store, batchSize, ext)
            == Outcome([], 0, Evaluate(data, store0, batchSize, ext).result)
  {
    if batchSize > 0 {
      var slices := Slices(data.keys, batchSize);
      DataSlices(data, batchSize);
      var p := Loop(data, store0, batchSize, ext);
      RunJudgesAll(slices, data, Start(store0), LlmJudge(ext), ext);
      RunSkipsJudged(slices, data, Start(p.store), LlmJudge(ext), ext);
    }
  }

  /** A run restarted from the store the first `j` slices left behind skips those slices. */
  lemma RestartSkipsPrefix(slices: seq<seq<string>>, data: Store, store0: Store, j: nat, judge: Judge, ext: Externals)
    requires WellSliced(slices, data) && j <= |slices|
    requires WellSliced(slices[..j], data) && WellSliced(slices[j..], data)
    requires RunSlices(slices[..j], data, Start(store0), judge, ext).crash.None?
    ensures var mid := RunSlices(slices[..j], data, Start(store0), judge, ext);
      RunSlices(slices, data, Start(mid.store), judge, ext) == RunSlices(slices[j..], data, Start(mid.store), judge, ext)
  {
    WellSlicedParts(slices, data, j);
    var mid := RunSlices(slices[..j], data, Start(store0), judge, ext);
    RunAppend(slices[..j], slices[j..], data, Start(mid.store), judge, ext);
    RunJudgesAll(slices[..j], data, Start(store0), judge, ext);
    RunSkipsJudged(slices[..j], data, Start(mid.store), judge, ext);
  }

  /** The run over all slices is the run over the first `j`, continued over the rest. */
  lemma RunSplits(slices: seq<seq<string>>, data: Store, store0: Store, j: nat, judge: Judge, ext: Externals)
    requires WellSliced(slices, data) && j <= |slices|
    requires WellSliced(slices[..j], data) && WellSliced(slices[j..], data)
    ensures RunSlices(slices, data, Start(store0), judge, ext)
            == RunSlices(slices[j..], data, RunSlices(slices[..j], data, Start(store0), judge, ext), judge, ext)
  {
    WellSlicedParts(slices, data, j);
    RunAppend(slices[..j], slices[j..], data, Start(store0), judge, ext);
  }

  lemma PrefixConcat(x: seq<Store>, y: seq<Store>)
    requires x <= y
    ensures y == x + y[|x|..]
  {
  }

  /** Resuming over any slices, with an index-free judge. */
  lemma SlicedResume(slices: seq<seq<string>>, data: Store, store0: Store, j: nat, judge: Judge, ext: Externals)
    requires WellSliced(slices, data) && IndexFree(judge) && j <= |slices|
    requires WellSliced(slices[..j], data) && WellSliced(slices[j..], data)
    requires RunSlices(slices[..j], data, Start(store0), judge, ext).crash.None?
    ensures var full := RunSlices(slices, data, Start(store0), judge, ext);
      var mid := RunSlices(slices[..j], data, Start(store0), judge, ext);
      var resumed := RunSlices(slices, data, Start(mid.store), judge, ext);
      && resumed.store == full.store && resumed.crash == full.crash
      && full.writes == mid.writes + resumed.writes
      && full.calls == mid.calls + resumed.calls
  {
    var mid := RunSlices(slices[..j], data, Start(store0), judge, ext);
    RunSplits(slices, data, store0, j, judge, ext);
    RestartSkipsPrefix(slices, data, store0, j, judge, ext);
    RunFromSameStore(slices[j..], data, mid, Start(mid.store), judge, ext);
    PrefixConcat(mid.writes, RunSlices(slices[j..], data, mid, judge, ext).writes);
  }

  /**
   * Resuming: a run stopped after its first `j` slices, restarted from the store
   * it last wrote, ends where the uninterrupted run ends (same store, same crash),
   * and the two parts together make the judge calls and write the stores the
   * uninterrupted run does. This needs `send_to_llm` to answer a prompt the same
   * way each time.
   */
  lemma ResumeAfterInterruption(data: Store, store0: Store, n: nat, j: nat, ext: Externals)
    requires n > 0 && j <= |Slices(data.keys, n)|
    requires SendIndexFree(ext)
    requires RunPrefix(data, store0, n, j, ext).crash.None?
    ensures var full := Loop(data, store0, n, ext);
      var mid := RunPrefix(data, store0, n, j, ext);
      var resumed := Loop(data, mid.store, n, ext);
      && resumed.store == full.store && resumed.crash == full.crash
      && full.writes == mid.writes + resumed.writes
      && full.calls == mid.calls + resumed.calls
  {
    DataSlices(data, n);
    WellSlicedParts(Slices(data.keys, n), data, j);
    LlmJudgeIndexFree(ext);
    SlicedResume(Slices(data.keys, n), data, store0, j, LlmJudge(ext), ext);
  }

  /** The resumed run reports what the uninterrupted run reports. */
  lemma ResumedRunReportsTheSame(data: Store, store0: Store, n: nat, j: nat, ext: Externals)
    requires n > 0 && j <= |Slices(data.keys, n)|
    requires SendIndexFree(ext)
    requires RunPrefix(data, store0, n, j, ext).crash.None?
    ensures Evaluate(data, RunPrefix(data, store0, n, j, ext).store, n, ext).result == Evaluate(data, store0, n, ext).result
  {
    ResumeAfterInterruption(data, store0, n, j, ext);
  }

  // ---------------------------------------------------------------------------
  // `main`, statement by statement

  /** Collecting over the first `i + 1` keys is collecting over the first `i`, then one more test. */
  lemma PendingSnoc(batch: seq<string>, data: Store, store: Store, ext: Externals, i: nat)
    requires forall k :: k in batch ==> k in data.vals
    requires i < |batch|
    ensures Pending(batch[..i + 1], data, store, ext)
            == if Eligible(data, store, batch[i])
               then Pending(batch[..i], data, store, ext) + [ItemOf(data, batch[i], ext)]
               else Pending(batch[..i], data, store, ext)
  {
    assert batch[..i + 1][..i] == batch[..i];
  }

  /** The inner `for k in batch_keys` loop that fills `batch_items`. */
  method CollectPending(batch: seq<string>, data: Store, store: Store, ext: Externals) returns (items: seq<PendingItem>)
    requires forall k :: k in batch ==> k in data.vals
    ensures items == Pending(batch, data, store, ext)
  {
    items := [];
    var i := 0;
    while i < |batch|
      invariant 0 <= i <= |batch|
      invariant items == Pending(batch[..i], data, store, ext)
    {
      var k := batch[i];
      var item := data.vals[k];
      PendingSnoc(batch, data, store, ext, i);
      if "question" in item && "answer" in item && "response" in item && "category" in item {
        if !(k in store.vals && "llm_score" in store.vals[k]) {
          items := items + [PendingItem(k, item["question"], ext.StrOf(item["answer"]), ext.StrOf(item["response"]))];
        }
      }
      i := i + 1;
    }
    assert batch[..|batch|] == batch;
  }

  /** Once a prefix of the items fails, the whole loop fails the same way. */
  lemma {:induction false} ApplyStopsAtError(items: seq<PendingItem>, write: Writer, store: Store, m: nat)
    requires m <= |items| && Apply(items[..m], write, store).Err?
    ensures Apply(items, write, store) == Apply(items[..m], write, store)
    decreases |items|
  {
    if m < |items| {
      var init := items[..|items| - 1];
      assert init[..m] == items[..m];
      ApplyStopsAtError(init, write, store, m);
    } else {
      assert items[..m] == items;
    }
  }

  /** The loop over the first `j + 1` items is the loop over the first `j`, then one more write. */
  lemma ApplySnoc(items: seq<PendingItem>, write: Writer, store: Store, j: nat)
    requires j < |items|
    ensures Apply(items[..j + 1], write, store)
            == match Apply(items[..j], write, store)
               case Err(e) => Err(e)
               case Ok(s) =>
                 match write(items[j])
                 case Err(e) => Err(e)
                 case Ok(rec) => Ok(Dicts.Put(s, items[j].id, rec))
  {
    assert items[..j + 1][..j] == items[..j];
  }

  /** The loop over `batch_items` that writes the new records into `local_results`. */
  method ApplyVerdicts(items: seq<PendingItem>, scores: Value, data: Store, store: Store, ext: Externals)
    returns (r: Result<Store, Crash>)
    ensures r == Apply(items, VerdictWriter(scores, data, ext), store)
  {
    var results := store;
    var j := 0;
    while j < |items|
      invariant 0 <= j <= |items|
      invariant Apply(items[..j], VerdictWriter(scores, data, ext), store) == Ok(results)
    {
      var item := items[j];
      ApplySnoc(items, VerdictWriter(scores, data, ext), store, j);
      var verdict := StoredVerdict(scores, item.id, ext);
      if verdict.Err? {
        ApplyStopsAtError(items, VerdictWriter(scores, data, ext), store, j + 1);
        return Err(verdict.error);
      }
      results := Dicts.Put(results, item.id, NewRecord(item, CategoryOf(data, item.id), verdict.value, ext));
      j := j + 1;
    }
    assert items[..|items|] == items;
    return Ok(results);
  }

  /** One pass of the slice loop: collect, judge, write. */
  method ProcessSlice(batch: seq<string>, data: Store, store: Store, calls: nat, judge: Judge, ext: Externals)
    returns (r: Result<Batch, Crash>)
    requires forall k :: k in batch ==> k in data.vals
    ensures r == ProcessBatch(batch, data, store, calls, judge, ext)
  {
    var items := CollectPending(batch, data, store, ext);
    if items == [] {
      return Ok(Skipped);
    }
    var scores := judge(items, calls);
    if scores.Err? {
      return Err(scores.error);
    }
    var written := ApplyVerdicts(items, scores.value, data, store, ext);
    if written.Err? {
      return Err(written.error);
    }
    return Ok(Written(written.value));
  }

  /** Once a prefix of the keys fails, the coercion loop fails the same way. */
  lemma {:induction false} ConvertStopsAtError(keys: seq<string>, store: Store, conv: Coercion, m: nat)
    requires forall k :: k in keys ==> k in store.vals
    requires m <= |keys| && ConvertKeys(keys[..m], store, conv).Err?
    ensures ConvertKeys(keys, store, conv) == ConvertKeys(keys[..m], store, conv)
    decreases |keys|
  {
    if m < |keys| {
      var init := keys[..|keys| - 1];
      assert init[..m] == keys[..m];
      ConvertStopsAtError(init, store, conv, m);
    } else {
      assert keys[..m] == keys;
    }
  }

  /** The coercion loop over the first `i + 1` keys is the loop over the first `i`, then one more record. */
  lemma ConvertSnoc(keys: seq<string>, store: Store, conv: Coercion, i: nat)
    requires forall k :: k in keys ==> k in store.vals
    requires i < |keys|
    ensures ConvertKeys(keys[..i + 1], store, conv)
            == match ConvertKeys(keys[..i], store, conv)
               case Err(k) => Err(k)
               case Ok(s) =>
                 match conv(store.vals[keys[i]])
                 case None => Err(keys[i])
                 case Some(rec) => Ok(Dicts.Put(s, keys[i], rec))
  {
    assert keys[..i + 1][..i] == keys[..i];
  }

  /** The three `try` blocks of the coercion loop, on one record; `None` where a handler raises. */
  method CoerceRecord(rec: Record, ext: Externals) returns (r: Option<Record>)
    ensures r == ConvertRecord(rec, ext)
  {
    if "bleu_score" !in rec || "f1_score" !in rec || "llm_score" !in rec {
      return None;
    }
    var v := rec;
    v := v["bleu_score" := Coerced(v["bleu_score"], ext)];
    v := v["f1_score" := Coerced(v["f1_score"], ext)];
    var llm := ext.IntOf(v["llm_score"]);
    if llm.Some? {
      v := v["llm_score" := Int(llm.value)];
    } else {
      v := v["bleu_score" := Int(0)];
      assert v == rec["bleu_score" := Int(0)]["f1_score" := Coerced(rec["f1_score"], ext)];
    }
    return Some(v);
  }

  /** `convert_scores_to_numeric_or_raise`, coercing each record of `local_results` in turn. */
  method ConvertScores(store: Store, ext: Externals) returns (r: Result<Store, string>)
    ensures r == ConvertAll(store, ext)
  {
    var conv := (rec: Record) => ConvertRecord(rec, ext);
    Dicts.KeysListed(store);
    var results := store;
    var i := 0;
    while i < |store.keys|
      invariant 0 <= i <= |store.keys|
      invariant ConvertKeys(store.keys[..i], store, conv) == Ok(results)
    {
      var k := store.keys[i];
      ConvertSnoc(store.keys, store, conv, i);
      Dicts.DistinctAt(store.keys, i);
      ConvertKeysAt(store.keys[..i], store, conv, k);
      var v := CoerceRecord(results.vals[k], ext);
      if v.None? {
        ConvertStopsAtError(store.keys, store, conv, i + 1);
        return Err(k);
      }
      results := Dicts.Put(results, k, v.value);
      i := i + 1;
    }
    assert store.keys[..|store.keys|] == store.keys;
    return Ok(results);
  }

  /** The slices of `keys` up to `i + n` are those up to `i`, then `keys[i:i + n]`. */
  lemma SliceStep(keys: seq<string>, data: Store, n: nat, i: nat, hi: nat)
    requires n > 0 && Dicts.Distinct(keys) && forall k :: k in keys ==> k in data.vals
    requires MultipleOf(i, n) && i < hi <= |keys| && hi == (if i + n <= |keys| then i + n else |keys|)
    ensures Slices(keys[..hi], n) == Slices(keys[..i], n) + [keys[i..hi]]
    ensures WellSliced(Slices(keys[..hi], n), data) && WellSliced(Slices(keys[..i], n), data)
    ensures MultipleOf(i + n, n)
  {
    assert keys[..hi] == keys[..i] + keys[i..hi];
    assert |keys[..i]| == i;
    SlicesAppend(keys[..i], keys[i..hi], n);
    assert Slices(keys[i..hi], n) == [keys[i..hi]];
    PrefixOfData(keys, data, hi);
    PrefixOfData(keys, data, i);
    SlicesOfData(keys[..hi], data, n);
    SlicesOfData(keys[..i], data, n);
    assert (i + n) - n == i;
  }

  lemma PrefixOfData(keys: seq<string>, data: Store, m: nat)
    requires m <= |keys| && Dicts.Distinct(keys) && forall k :: k in keys ==> k in data.vals
    ensures Dicts.Distinct(keys[..m]) && forall k :: k in keys[..m] ==> k in data.vals
  {
    assert forall k :: k in keys[..m] ==> k in keys;
  }

  /** Running one more slice is one more step. */
  lemma RunSnoc(slices: seq<seq<string>>, batch: seq<string>, data: Store, start: Progress, judge: Judge, ext: Externals)
    requires WellSliced(slices + [batch], data) && WellSliced(slices, data)
    ensures forall k :: k in batch ==> k in data.vals
    ensures RunSlices(slices + [batch], data, start, judge, ext)
            == Step(RunSlices(slices, data, start, judge, ext), batch, data, judge, ext)
  {
    var all := slices + [batch];
    assert all[..|all| - 1] == slices;
    assert all[|all| - 1] == batch;
  }

  /** Running the slices up to `i + n` is running those up to `i`, then one step on `keys[i:i + n]`. */
  lemma RunStep(keys: seq<string>, data: Store, n: nat, i: nat, hi: nat, start: Progress, judge: Judge, ext: Externals)
    requires n > 0 && Dicts.Distinct(keys) && forall k :: k in keys ==> k in data.vals
    requires MultipleOf(i, n) && i < hi <= |keys| && hi == (if i + n <= |keys| then i + n else |keys|)
    ensures WellSliced(Slices(keys[..hi], n), data) && WellSliced(Slices(keys[..i], n), data)
    ensures forall k :: k in keys[i..hi] ==> k in data.vals
    ensures RunSlices(Slices(keys[..hi], n), data, start, judge, ext)
            == Step(RunSlices(Slices(keys[..i], n), data, start, judge, ext), keys[i..hi], data, judge, ext)
    ensures MultipleOf(i + n, n)
  {
    SliceStep(keys, data, n, i, hi);
    RunSnoc(Slices(keys[..i], n), keys[i..hi], data, start, judge, ext);
  }

  /** Where the loop stops, by reaching the end or by a crash, the run over all slices is over. */
  lemma RunFinished(keys: seq<string>, data: Store, n: nat, lo: nat, start: Progress, judge: Judge, ext: Externals)
    requires n > 0 && Dicts.Distinct(keys) && forall k :: k in keys ==> k in data.vals
    requires lo <= |keys| && MultipleOf(lo, n)
    requires WellSliced(Slices(keys[..lo], n), data)
    requires RunSlices(Slices(keys[..lo], n), data, start, judge, ext).crash.Some?
    ensures WellSliced(Slices(keys, n), data)
    ensures RunSlices(Slices(keys, n), data, start, judge, ext) == RunSlices(Slices(keys[..lo], n), data, start, judge, ext)
  {
    assert keys == keys[..lo] + keys[lo..];
    assert |keys[..lo]| == lo;
    SlicesAppend(keys[..lo], keys[lo..], n);
    SlicesOfData(keys, data, n);
    CrashSticks(Slices(keys[..lo], n), Slices(keys[lo..], n), data, start, judge, ext);
  }

  /** The last statements of `main`: coercion, then the report. */
  method Report(store: Store, ext: Externals) returns (result: Result<Aggregate.Report, Crash>)
    ensures result == Summarize(store, ext)
  {
    var converted := ConvertScores(store, ext);
    if converted.Err? {
      return Err(MissingScoreField(converted.error));
    }
    var report := Aggregate.AggregateRows(Dicts.Values(converted.value), ext.parseFloat);
    if report.Err? {
      return Err(ReportFailed(report.error));
    }
    return Ok(report.value);
  }

  /** The body of the slice loop, on a run that has not crashed. */
  method NextSlice(batch: seq<string>, data: Store, store: Store, calls: nat, writes: seq<Store>, judge: Judge, ext: Externals)
    returns (store': Store, calls': nat, writes': seq<Store>, crash': Option<Crash>)
    requires forall k :: k in batch ==> k in data.vals
    ensures Progress(store', calls', writes', crash')
            == Step(Progress(store, calls, writes, None), batch, data, judge, ext)
  {
    store', calls', writes', crash' := store, calls, writes, None;
    var r := ProcessSlice(batch, data, store, calls, judge, ext);
    match r {
      case Err(e) =>
        calls', crash' := calls + 1, Some(e);
      case Ok(Skipped) =>
      case Ok(Written(s)) =>
        store', calls', writes' := s, calls + 1, writes + [s];
    }
  }

  /** The loop of `main` has run the slices of the first `done` keys and reached state `p`. */
  ghost predicate LoopAt(keys: seq<string>, data: Store, n: nat, done: nat, start: Progress, judge: Judge, ext: Externals, p: Progress)
    requires n > 0
  {
    && done <= |keys|
    && WellSliced(Slices(keys[..done], n), data)
    && RunSlices(Slices(keys[..done], n), data, start, judge, ext) == p
  }

  /** One pass of the slice loop moves the loop state on by the slice `keys[i:i + n]`. */
  lemma LoopAdvance(keys: seq<string>, data: Store, n: nat, i: nat, start: Progress, judge: Judge, ext: Externals, p: Progress)
    requires n > 0 && Dicts.Distinct(keys) && forall k :: k in keys ==> k in data.vals
    requires MultipleOf(i, n) && i < |keys| && LoopAt(keys, data, n, i, start, judge, ext, p)
    ensures var hi := if i + n <= |keys| then i + n else |keys|;
      && (forall k :: k in keys[i..hi] ==> k in data.vals)
      && MultipleOf(i + n, n)
      && LoopAt(keys, data, n, hi, start, judge, ext, Step(p, keys[i..hi], data, judge, ext))
  {
    var hi := if i + n <= |keys| then i + n else |keys|;
    RunStep(keys, data, n, i, hi, start, judge, ext);
  }

  /** Where the slice loop stops, by reaching the end or by a crash, its state is that of the whole run. */
  lemma LoopExit(keys: seq<string>, data: Store, n: nat, i: nat, done: nat, start: Progress, judge: Judge, ext: Externals, p: Progress)
    requires n > 0 && Dicts.Distinct(keys) && forall k :: k in keys ==> k in data.vals
    requires MultipleOf(i, n) && LoopAt(keys, data, n, done, start, judge, ext, p)
    requires done == (if i < |keys| then i else |keys|)
    requires i < |keys| ==> p.crash.Some?
    ensures WellSliced(Slices(keys, n), data)
    ensures RunSlices(Slices(keys, n), data, start, judge, ext) == p
  {
    if i < |keys| {
      RunFinished(keys, data, n, i, start, judge, ext);
    } else {
      assert keys[..|keys|] == keys;
    }
  }

  /**
   * One pass of the slice loop from `i`: the slice `keys[i:i + n]`, processed from state `p`.
   * The result is tied to the run only through `LoopAt`: `q` is the specified run over the
   * slices up to `hi`. `RunLoop` states the outcome of the whole loop.
   */
  method SlicePass(keys: seq<string>, data: Store, n: nat, i: nat, ghost start: Progress, p: Progress, judge: Judge, ext: Externals)
    returns (q: Progress, ghost hi: nat)
    requires n > 0 && Dicts.Distinct(keys) && forall k :: k in keys ==> k in data.vals
    requires MultipleOf(i, n) && i < |keys| && p.crash.None? && LoopAt(keys, data, n, i, start, judge, ext, p)
    ensures hi == (if i + n <= |keys| then i + n else |keys|)
    ensures MultipleOf(i + n, n) && LoopAt(keys, data, n, hi, start, judge, ext, q)
  {
    hi := if i + n <= |keys| then i + n else |keys|;
    var end := if i + n <= |keys| then i + n else |keys|;
    LoopAdvance(keys, data, n, i, start, judge, ext, p);
    var store, calls, writes, crash := NextSlice(keys[i..end], data, p.store, p.calls, p.writes, judge, ext);
    q := Progress(store, calls, writes, crash);
  }

  /** The `for i in range(0, total, batch_size)` loop of `main`, for a positive `batch_size`. */
  method RunLoop(data: Store, store0: Store, n: nat, judge: Judge, ext: Externals)
    returns (p: Progress)
    requires n > 0
    ensures WellSliced(Slices(data.keys, n), data)
    ensures p == RunSlices(Slices(data.keys, n), data, Start(store0), judge, ext)
  {
    p := Start(store0);
    var keys := data.keys;
    Dicts.KeysListed(data);
    var i := 0;
    ghost var done := 0;
    assert keys[..0] == [];
    while i < |keys| && p.crash.None?
      invariant MultipleOf(i, n)
      invariant done == (if i < |keys| then i else |keys|)
      invariant LoopAt(keys, data, n, done, Start(store0), judge, ext, p)
      decreases |keys| - i
    {
      p, done := SlicePass(keys, data, n, i, Start(store0), p, judge, ext);
      i := i + n;
    }
    LoopExit(keys, data, n, i, done, Start(store0), judge, ext, p);
  }

  /**
   * `main`: the slice loop over the keys of `data`, starting from the store found
   * on disk, then the report; `writes` lists the stores written to the results
   * file, in order, and `calls` counts the judge calls.
   */
  method RunEvaluation(data: Store, store0: Store, batchSize: int, ext: Externals)
    returns (writes: seq<Store>, calls: nat, result: Result<Aggregate.Report, Crash>)
    ensures Outcome(writes, calls, result) == Evaluate(data, store0, batchSize, ext)
  {
    if batchSize == 0 {
      return [], 0, Err(ZeroBatchSize);
    }
    var p := Start(store0);
    if batchSize > 0 {
      p := RunLoop(data, store0, batchSize, LlmJudge(ext), ext);
    }
    writes, calls := p.writes, p.calls;
    if p.crash.Some? {
      return writes, calls, Err(p.crash.value);
    }
    result := Report(p.store, ext);
  }
}
