/**
 * `json_to_nl.py`: each LoCoMo sample (a dated, multi-session conversation between
 * two speakers, and its question-answer pairs) becomes a prompt text
 * `sample_{i}.txt` and an answer key `answers_{i}.json` in the output directory.
 */
module JsonToNl {
  import opened Wrappers
  import opened Json
  import opened Runtime
  import Text
  import Dicts
  import PosixPath
  import opened SessionSort

  /** Why `convert_to_chat_and_qa_format` stops. */
  datatype Failure =
    | MissingDataset          // ValueError: the config has no non-empty `dataset`
    | DatasetNotFound         // FileNotFoundError: the dataset path does not exist
    | PathTypeError           // TypeError: an `os.path` function given a value that is not a string
    | ConfigPathUnbound       // NameError: `get_output_dir` reads `config_path`, which is not in its scope
    | KeyMissing(key: string) // KeyError from `d[key]`
    | NotSubscriptable        // TypeError: `v[key]` on a value that is not a dict
    | NotIterable             // TypeError: `for x in v` on a value that cannot be iterated
    | NoGet                   // AttributeError: `qa.get` on a QA pair that is not a dict
    | BadDate                 // `format_datetime` raises: not a string, or not in the expected format

  /** The failures that come from the content of one sample rather than from the configuration. */
  predicate InSample(f: Failure)
  {
    f.KeyMissing? || f.NotSubscriptable? || f.NotIterable? || f.NoGet? || f.BadDate?
  }

  type Lines = Result<seq<string>, Failure>

  /** Python truthiness of a JSON value. */
  predicate Truthy(v: Value)
  {
    match v
    case Null => false
    case Bool(b) => b
    case Int(i) => i != 0
    case Real(x) => x != 0.0
    case Str(s) => s != []
    case Arr(xs) => xs != []
    case Obj(f) => f != map[]
  }

  /** `d.get(key)`. */
  function Get(d: Record, key: string): Value
  {
    if key in d then d[key] else Null
  }

  /** `v[key]`. */
  function Lookup(v: Value, key: string): (r: Result<Value, Failure>)
    ensures r.Ok? <==> v.Obj? && key in v.fields
    ensures r.Ok? ==> r.value == v.fields[key]
    ensures r.Err? ==> InSample(r.error)
  {
    if !v.Obj? then Err(NotSubscriptable)
    else if key in v.fields then Ok(v.fields[key])
    else Err(KeyMissing(key))
  }

  /**
   * What `for x in v` runs over: the items of a list, the one-character strings of
   * a string, nothing for an empty dict. Anything else is not iterated by the model.
   */
  function Items(v: Value): Option<seq<Value>>
  {
    match v
    case Arr(xs) => Some(xs)
    case Str(s) => Some(seq(|s|, i requires 0 <= i < |s| => Str([s[i]])))
    case Obj(f) => if f == map[] then Some([]) else None
    case _ => None
  }

  // ---------------------------------------------------------------------------
  // The output directory

  const DefaultDirName := "locomo10_output"

  /**
   * `get_output_dir(config, dataset_path)`: a configured `output_dir` wins; an
   * absolute one is used as it is and a relative one reaches the unbound
   * `config_path`. Without one, `locomo10_output` beside the dataset.
   */
  function OutputDir(config: Record, datasetPath: Value): Result<string, Failure>
  {
    var od := Get(config, "output_dir");
    if Truthy(od) then
      if !od.Str? then Err(PathTypeError)
      else if PosixPath.IsAbs(od.s) then Ok(od.s)
      else Err(ConfigPathUnbound)
    else if datasetPath.Str? then Ok(PosixPath.Join(PosixPath.DirName(datasetPath.s), DefaultDirName))
    else Err(PathTypeError)
  }

  /**
   * The three outcomes of `get_output_dir`: it succeeds exactly for an absolute
   * configured directory, which it keeps, or for no configured directory and a
   * string dataset path, when it names an entry `locomo10_output` of the
   * dataset's own directory.
   */
  lemma OutputDirCases(config: Record, datasetPath: Value)
    ensures var od := Get(config, "output_dir");
      OutputDir(config, datasetPath).Ok? <==>
        (if Truthy(od) then od.Str? && PosixPath.IsAbs(od.s) else datasetPath.Str?)
    ensures var od := Get(config, "output_dir");
      Truthy(od) && od.Str? && !PosixPath.IsAbs(od.s) ==> OutputDir(config, datasetPath) == Err(ConfigPathUnbound)
    ensures var od := Get(config, "output_dir");
      Truthy(od) && OutputDir(config, datasetPath).Ok? ==> OutputDir(config, datasetPath).value == od.s
    ensures var od := Get(config, "output_dir");
      !Truthy(od) && OutputDir(config, datasetPath).Ok? ==>
        var d := OutputDir(config, datasetPath).value;
        && PosixPath.DirName(d) == PosixPath.DirName(datasetPath.s)
        && Text.EndsWith(d, DefaultDirName)
  {
    var od := Get(config, "output_dir");
    if !Truthy(od) && datasetPath.Str? {
      var dir := PosixPath.DirName(datasetPath.s);
      assert PosixPath.PlainName(DefaultDirName);
      PosixPath.JoinedIsBeside(datasetPath.s, DefaultDirName);
    }
  }

  // ---------------------------------------------------------------------------
  // Collecting the sessions

  /** A key naming a session's dialogue: `session_…` but not `…_date_time`. */
  predicate IsSessionKey(k: string)
  {
    Text.StartsWith(k, "session_") && !Text.EndsWith(k, "_date_time")
  }

  function DateKey(k: string): string
  {
    k + "_date_time"
  }

  /** `format_datetime` applied to a stored value. */
  function FormatDate(v: Value, ext: Externals): (r: Result<string, Failure>)
    ensures r.Err? ==> r.error == BadDate
  {
    if !v.Str? then Err(BadDate)
    else match ext.formatDatetime(v.s)
      case Some(t) => Ok(t)
      case None => Err(BadDate)
  }

  /** The sessions the key loop collects from the first `n` keys of the conversation. */
  function Collect(conv: Dicts.Dict<Value>, n: nat, ext: Externals): (r: Result<seq<Session>, Failure>)
    requires n <= |conv.keys|
    ensures r.Err? ==> r.error == BadDate
  {
    if n == 0 then Ok([])
    else
      match Collect(conv, n - 1, ext)
      case Err(e) => Err(e)
      case Ok(ss) =>
        var k := conv.keys[n - 1];
        Dicts.KeysListed(conv);
        if IsSessionKey(k) && DateKey(k) in conv.vals then
          match FormatDate(conv.vals[DateKey(k)], ext)
          case Err(e) => Err(e)
          case Ok(t) => Ok(ss + [Session(t, conv.vals[k])])
        else Ok(ss)
  }

  /** The keys among the first `n` whose sessions are collected, in key order. */
  ghost function Selected(conv: Dicts.Dict<Value>, n: nat): (ks: seq<string>)
    requires n <= |conv.keys|
    ensures forall i :: 0 <= i < |ks| ==> ks[i] in conv.vals && DateKey(ks[i]) in conv.vals
  {
    if n == 0 then []
    else
      var k := conv.keys[n - 1];
      Dicts.KeysListed(conv);
      Selected(conv, n - 1) + (if IsSessionKey(k) && DateKey(k) in conv.vals then [k] else [])
  }

  /** A key is selected exactly when it names a session and its date is stored. */
  lemma {:induction false} SelectedMembers(conv: Dicts.Dict<Value>, n: nat, k: string)
    requires n <= |conv.keys|
    ensures k in Selected(conv, n) <==> k in conv.keys[..n] && IsSessionKey(k) && DateKey(k) in conv.vals
  {
    if n > 0 {
      SelectedMembers(conv, n - 1, k);
      assert conv.keys[..n] == conv.keys[..n - 1] + [conv.keys[n - 1]];
    } else {
      assert conv.keys[..n] == [];
    }
  }

  /** The collection fails exactly when a selected session's date does not format. */
  lemma {:induction false} CollectOk(conv: Dicts.Dict<Value>, n: nat, ext: Externals)
    requires n <= |conv.keys|
    ensures var sel := Selected(conv, n);
      Collect(conv, n, ext).Ok? <==>
        forall i :: 0 <= i < |sel| ==> FormatDate(conv.vals[DateKey(sel[i])], ext).Ok?
    ensures Collect(conv, n, ext).Ok? ==> |Collect(conv, n, ext).value| == |Selected(conv, n)|
  {
    if n > 0 {
      CollectOk(conv, n - 1, ext);
      var sel0 := Selected(conv, n - 1);
      var sel := Selected(conv, n);
      assert sel[..|sel0|] == sel0;
      if Collect(conv, n - 1, ext).Ok? && |sel| > |sel0| {
        assert sel[|sel0|] == conv.keys[n - 1];
      }
    }
  }

  /** Session `i` holds the formatted date and the dialogue of the `i`-th selected key. */
  lemma {:induction false} CollectAt(conv: Dicts.Dict<Value>, n: nat, ext: Externals, i: nat)
    requires n <= |conv.keys| && Collect(conv, n, ext).Ok?
    requires i < |Selected(conv, n)|
    ensures (CollectOk(conv, n, ext);
      var s := Collect(conv, n, ext).value[i];
      var k := Selected(conv, n)[i];
      && FormatDate(conv.vals[DateKey(k)], ext) == Ok(s.time)
      && s.dialog == conv.vals[k])
  {
    CollectOk(conv, n, ext);
    var k := conv.keys[n - 1];
    if i < |Selected(conv, n - 1)| {
      CollectAt(conv, n - 1, ext, i);
      CollectOk(conv, n - 1, ext);
    } else {
      CollectOk(conv, n - 1, ext);
    }
  }

  // ---------------------------------------------------------------------------
  // Writing the dialogue

  /** The lines of a run of parts, up to the first part that fails. */
  function Flatten(parts: seq<Lines>): (r: Lines)
    ensures (forall i :: 0 <= i < |parts| && parts[i].Err? ==> InSample(parts[i].error)) ==>
      (r.Err? ==> InSample(r.error))
  {
    if parts == [] then Ok([])
    else
      match Flatten(parts[..|parts| - 1])
      case Err(e) => Err(e)
      case Ok(ls) =>
        match parts[|parts| - 1]
        case Err(e) => Err(e)
        case Ok(m) => Ok(ls + m)
  }

  /** A run of parts gives lines exactly when every part does. */
  lemma {:induction false} FlattenOk(parts: seq<Lines>)
    ensures Flatten(parts).Ok? <==> forall i :: 0 <= i < |parts| ==> parts[i].Ok?
  {
    if parts != [] {
      FlattenOk(parts[..|parts| - 1]);
    }
  }

  /** The failure of a run is that of its first failing part. */
  lemma {:induction false} FlattenFirstError(parts: seq<Lines>, i: nat)
    requires i < |parts| && parts[i].Err?
    requires forall j :: 0 <= j < i ==> parts[j].Ok?
    ensures Flatten(parts) == Err(parts[i].error)
    decreases |parts|
  {
    var init := parts[..|parts| - 1];
    if i < |parts| - 1 {
      FlattenFirstError(init, i);
    } else {
      FlattenOk(init);
    }
  }

  /** One more part of a run: its lines follow the earlier ones, or its failure ends the run. */
  lemma FlattenStep(parts: seq<Lines>, i: nat)
    requires i < |parts|
    ensures Flatten(parts[..i + 1]) ==
      match Flatten(parts[..i])
      case Err(e) => Err(e)
      case Ok(ls) => (match parts[i] case Err(e) => Err(e) case Ok(m) => Ok(ls + m))
  {
    assert parts[..i + 1][..i] == parts[..i];
  }

  function Speech(speaker: Value, text: Value, ext: Externals): string
  {
    ext.StrOf(speaker) + "：" + ext.StrOf(text)
  }

  function ImageLine(url: Value, caption: string, ext: Externals): string
  {
    "img(" + ext.StrOf(url) + ") (" + caption + ")"
  }

  /** One `img(url) (caption)` line per url, in order. */
  function ImageLines(urls: seq<Value>, caption: string, ext: Externals): (ls: seq<string>)
    ensures |ls| == |urls|
    ensures forall u :: 0 <= u < |urls| ==> ls[u] == ImageLine(urls[u], caption, ext)
  {
    if urls == [] then []
    else ImageLines(urls[..|urls| - 1], caption, ext) + [ImageLine(urls[|urls| - 1], caption, ext)]
  }

  /** `msg.get("blip_caption", "")` as the caption line shows it. */
  function Caption(f: Record, ext: Externals): string
  {
    if "blip_caption" in f then ext.StrOf(f["blip_caption"]) else ""
  }

  /** The lines one message adds: `speaker：text`, then one line per image url when it has a non-empty `img_url`. */
  function MessageLines(msg: Value, ext: Externals): (r: Lines)
    ensures r.Err? ==> InSample(r.error)
  {
    match Lookup(msg, "speaker")
    case Err(e) => Err(e)
    case Ok(speaker) =>
      match Lookup(msg, "text")
      case Err(e) => Err(e)
      case Ok(text) =>
        var line := Speech(speaker, text, ext);
        if "img_url" in msg.fields && Truthy(msg.fields["img_url"]) then
          match Items(msg.fields["img_url"])
          case None => Err(NotIterable)
          case Some(urls) => Ok([line] + ImageLines(urls, Caption(msg.fields, ext), ext))
        else Ok([line])
  }

  /** A message that has lines has its speech line first and one line per image after it. */
  lemma MessageShape(msg: Value, ext: Externals)
    requires MessageLines(msg, ext).Ok?
    ensures var ls := MessageLines(msg, ext).value;
      && msg.Obj? && "speaker" in msg.fields && "text" in msg.fields
      && |ls| >= 1
      && ls[0] == Speech(msg.fields["speaker"], msg.fields["text"], ext)
      && (forall u :: 1 <= u < |ls| ==> Text.StartsWith(ls[u], "img("))
      && (|ls| > 1 ==> "img_url" in msg.fields && Truthy(msg.fields["img_url"]))
  {
  }

  function MessageParts(msgs: seq<Value>, ext: Externals): (parts: seq<Lines>)
    ensures |parts| == |msgs|
  {
    seq(|msgs|, i requires 0 <= i < |msgs| => MessageLines(msgs[i], ext))
  }

  /** One session: its date line, the lines of its messages, then an empty line. */
  function SessionLines(s: Session, ext: Externals): (r: Lines)
    ensures r.Err? ==> InSample(r.error)
  {
    match Items(s.dialog)
    case None => Err(NotIterable)
    case Some(msgs) =>
      match Flatten(MessageParts(msgs, ext))
      case Err(e) => Err(e)
      case Ok(ls) => Ok([s.time] + ls + [""])
  }

  function SessionParts(ss: seq<Session>, ext: Externals): (parts: seq<Lines>)
    ensures |parts| == |ss|
  {
    seq(|ss|, i requires 0 <= i < |ss| => SessionLines(ss[i], ext))
  }

  /** A session that has lines opens with its date and closes with an empty line. */
  lemma SessionFramed(s: Session, ext: Externals)
    requires SessionLines(s, ext).Ok?
    ensures var ls := SessionLines(s, ext).value;
      |ls| >= 2 && ls[0] == s.time && ls[|ls| - 1] == ""
  {
  }

  // ---------------------------------------------------------------------------
  // Questions and the answer key

  /** `qa.get('category') == 5`: Python's `==` is true for the integer and the float five. */
  predicate IsFive(v: Value)
  {
    v == Int(5) || v == Real(5.0)
  }

  /** A question the loop skips. */
  predicate Skipped(qa: Value)
  {
    qa.Obj? && IsFive(Get(qa.fields, "category"))
  }

  datatype QaSection = QaSection(lines: seq<string>, answers: Dicts.Dict<Value>)

  /** The answer key entry of one question. */
  function AnswerEntry(category: Value, answer: Value, question: Value): Value
  {
    Obj(map["category" := category, "answer" := answer, "question" := question])
  }

  /** One pass of the QA loop, for the question at `idx`. */
  function QaStep(acc: QaSection, idx: nat, qa: Value, ext: Externals): (r: Result<QaSection, Failure>)
    ensures r.Err? ==> InSample(r.error)
  {
    if !qa.Obj? then Err(NoGet)
    else if IsFive(Get(qa.fields, "category")) then Ok(acc)
    else
      match Lookup(qa, "question")
      case Err(e) => Err(e)
      case Ok(question) =>
        match Lookup(qa, "answer")
        case Err(e) => Err(e)
        case Ok(answer) =>
          var key := Text.Decimal(idx);
          Ok(QaSection(acc.lines + [key + ":" + ext.StrOf(question)],
                       Dicts.Put(acc.answers, key, AnswerEntry(Get(qa.fields, "category"), answer, question))))
  }

  /** The QA loop over the first questions `qas`. */
  function Qa(qas: seq<Value>, ext: Externals): (r: Result<QaSection, Failure>)
    ensures r.Err? ==> InSample(r.error)
  {
    if qas == [] then Ok(QaSection([], Dicts.Empty()))
    else
      match Qa(qas[..|qas| - 1], ext)
      case Err(e) => Err(e)
      case Ok(acc) => QaStep(acc, |qas| - 1, qas[|qas| - 1], ext)
  }

  /** The positions of the questions that are asked, ascending. */
  ghost function Kept(qas: seq<Value>): (ks: seq<nat>)
    ensures forall i :: 0 <= i < |ks| ==> ks[i] < |qas|
    ensures forall i, j :: 0 <= i < j < |ks| ==> ks[i] < ks[j]
  {
    if qas == [] then []
    else Kept(qas[..|qas| - 1]) + (if Skipped(qas[|qas| - 1]) then [] else [|qas| - 1])
  }

  lemma {:induction false} KeptMembers(qas: seq<Value>, idx: nat)
    ensures idx in Kept(qas) <==> idx < |qas| && !Skipped(qas[idx])
  {
    if qas != [] {
      KeptMembers(qas[..|qas| - 1], idx);
    }
  }

  /** A key spelt for a position below `n` is not among keys spelt for positions at or above `n`. */
  lemma FreshKey(ks: seq<nat>, keys: seq<string>, n: nat)
    requires |keys| == |ks|
    requires forall i :: 0 <= i < |ks| ==> ks[i] < n && keys[i] == Text.Decimal(ks[i])
    ensures Text.Decimal(n) !in keys
  {
    if Text.Decimal(n) in keys {
      var i :| 0 <= i < |keys| && keys[i] == Text.Decimal(n);
      Text.DecimalInjective(ks[i], n);
    }
  }

  /**
   * The answer key and the question lines both follow the asked questions: one
   * entry and one line per asked question, the keys being their positions.
   */
  lemma {:induction false} QaKeys(qas: seq<Value>, ext: Externals)
    requires Qa(qas, ext).Ok?
    ensures var sec := Qa(qas, ext).value;
      |sec.lines| == |Kept(qas)| && |sec.answers.keys| == |Kept(qas)|
    ensures var sec := Qa(qas, ext).value;
      forall i :: 0 <= i < |Kept(qas)| ==> sec.answers.keys[i] == Text.Decimal(Kept(qas)[i])
  {
    if qas != [] {
      var init := qas[..|qas| - 1];
      QaKeys(init, ext);
      var acc := Qa(init, ext).value;
      if !Skipped(qas[|qas| - 1]) {
        FreshKey(Kept(init), acc.answers.keys, |qas| - 1);
      }
    }
  }

  /**
   * The `i`-th asked question, at position `idx`: its line is `idx:question` and
   * its entry under `str(idx)` holds its category, answer and question.
   */
  lemma {:induction false} QaAt(qas: seq<Value>, ext: Externals, i: nat)
    requires Qa(qas, ext).Ok? && i < |Kept(qas)|
    ensures (QaKeys(qas, ext);
      var sec := Qa(qas, ext).value;
      var idx := Kept(qas)[i];
      var qa := qas[idx];
      && qa.Obj? && "question" in qa.fields && "answer" in qa.fields
      && sec.lines[i] == Text.Decimal(idx) + ":" + ext.StrOf(qa.fields["question"])
      && Text.Decimal(idx) in sec.answers.vals
      && sec.answers.vals[Text.Decimal(idx)] ==
           AnswerEntry(Get(qa.fields, "category"), qa.fields["answer"], qa.fields["question"]))
  {
    QaKeys(qas, ext);
    var init := qas[..|qas| - 1];
    QaKeys(init, ext);
    var acc := Qa(init, ext).value;
    if i < |Kept(init)| {
      QaAt(init, ext, i);
      var idx := Kept(qas)[i];
      if !Skipped(qas[|qas| - 1]) {
        FreshKey(Kept(init), acc.answers.keys, |qas| - 1);
      }
    } else {
      FreshKey(Kept(init), acc.answers.keys, |qas| - 1);
    }
  }

  /** Every question is either skipped, being of category 5, or has an entry in the answer key. */
  lemma QaSkipsCategoryFive(qas: seq<Value>, ext: Externals, idx: nat)
    requires Qa(qas, ext).Ok? && idx < |qas|
    ensures qas[idx].Obj?
    ensures Text.Decimal(idx) in Qa(qas, ext).value.answers.vals <==> !IsFive(Get(qas[idx].fields, "category"))
  {
    QaObjects(qas, ext, idx);
    QaKeys(qas, ext);
    KeptMembers(qas, idx);
    var sec := Qa(qas, ext).value;
    var ks := Kept(qas);
    Dicts.KeysListed(sec.answers);
    if Text.Decimal(idx) in sec.answers.vals {
      var i :| 0 <= i < |ks| && sec.answers.keys[i] == Text.Decimal(idx);
      Text.DecimalInjective(ks[i], idx);
    }
  }

  /** The QA loop only completes when every QA pair is a dict. */
  lemma {:induction false} QaObjects(qas: seq<Value>, ext: Externals, idx: nat)
    requires Qa(qas, ext).Ok? && idx < |qas|
    ensures qas[idx].Obj?
  {
    if idx < |qas| - 1 {
      assert qas[..|qas| - 1][idx] == qas[idx];
      QaObjects(qas[..|qas| - 1], ext, idx);
    }
  }

  // ---------------------------------------------------------------------------
  // One sample

  /** A sample as `json.load` gives it: the conversation dict in its key order, and the QA list. */
  datatype Sample = Sample(conversation: Dicts.Dict<Value>, qa: Value)

  const HeaderOpening: string := "The following is the dialogue between the two people: "
  const HeaderClosing: string :=
    " The dialogue lasted for several days, and the date of each dialogue was written at the beginning of the dialogue。\n"

  function Header(a: string, b: string): string
  {
    HeaderOpening + a + " and " + b + HeaderClosing
  }

  const AskLine: string := "According to the above dialogue, write down the simplest answer with the least number of words to each of the following questions in a few sentences."
  const FormatLine: string := "Write the answer in the form of a json, where each entry contains the question number as \"key\" and the short answer as \"value\". ex: {{\"0\":\"xx\",\"1\":\"xx\"}}"
  const ExactWordsLine: string := "Try to answer with the exact words in the dialogue."

  /** The three instruction lines between the dialogue and the questions; the example answer keeps its doubled braces. */
  function Instructions(): seq<string>
  {
    [AskLine, FormatLine, ExactWordsLine]
  }

  /** The header line, naming both speakers. */
  function HeaderLine(conv: Dicts.Dict<Value>, ext: Externals): (r: Result<string, Failure>)
    ensures r.Err? ==> InSample(r.error)
  {
    if "speaker_a" !in conv.vals then Err(KeyMissing("speaker_a"))
    else if "speaker_b" !in conv.vals then Err(KeyMissing("speaker_b"))
    else Ok(Header(ext.StrOf(conv.vals["speaker_a"]), ext.StrOf(conv.vals["speaker_b"])))
  }

  /** The dialogue lines: the sessions collected, sorted by time, then written one after another. */
  function Dialogue(conv: Dicts.Dict<Value>, ext: Externals): (r: Lines)
    ensures r.Err? ==> InSample(r.error)
  {
    match Collect(conv, |conv.keys|, ext)
    case Err(e) => Err(e)
    case Ok(ss) => Flatten(SessionParts(SortByTime(ss), ext))
  }

  /** The question lines and the answer key of a sample's `qa` list. */
  function Questions(qa: Value, ext: Externals): (r: Result<QaSection, Failure>)
    ensures r.Err? ==> InSample(r.error)
  {
    match Items(qa)
    case None => Err(NotIterable)
    case Some(qas) => Qa(qas, ext)
  }

  /** The output lines of one sample and its answer key. */
  function SampleLines(sample: Sample, ext: Externals): (r: Result<QaSection, Failure>)
    ensures r.Err? ==> InSample(r.error)
  {
    match HeaderLine(sample.conversation, ext)
    case Err(e) => Err(e)
    case Ok(header) =>
      match Dialogue(sample.conversation, ext)
      case Err(e) => Err(e)
      case Ok(body) =>
        match Questions(sample.qa, ext)
        case Err(e) => Err(e)
        case Ok(sec) => Ok(QaSection([header] + body + Instructions() + sec.lines, sec.answers))
  }

  /** What one sample writes: the text `"\n".join(output_lines)` and the answer key. */
  datatype Converted = Converted(text: string, answers: Dicts.Dict<Value>)

  function ConvertSample(sample: Sample, ext: Externals): (r: Result<Converted, Failure>)
    ensures r.Err? ==> InSample(r.error)
  {
    match SampleLines(sample, ext)
    case Err(e) => Err(e)
    case Ok(out) => Ok(Converted(Text.Join(out.lines, "\n"), out.answers))
  }

  /**
   * The lines of a converted sample: the header first, the instructions just
   * before the questions, and the questions last, one per answer key entry.
   */
  lemma SampleLayout(sample: Sample, ext: Externals)
    requires SampleLines(sample, ext).Ok?
    ensures var out := SampleLines(sample, ext).value;
      var conv := sample.conversation;
      && "speaker_a" in conv.vals && "speaker_b" in conv.vals
      && |out.lines| >= 4 + |out.answers.keys|
      && out.lines[0] == Header(ext.StrOf(conv.vals["speaker_a"]), ext.StrOf(conv.vals["speaker_b"]))
      && out.lines[|out.lines| - |out.answers.keys| - 3..|out.lines| - |out.answers.keys|] == Instructions()
      && forall i :: 0 <= i < |out.answers.keys| ==>
           Text.StartsWith(out.lines[|out.lines| - |out.answers.keys| + i], out.answers.keys[i] + ":")
  {
    var conv := sample.conversation;
    var header := HeaderLine(conv, ext).value;
    var body := Dialogue(conv, ext).value;
    var qas := Items(sample.qa).value;
    var sec := Qa(qas, ext).value;
    assert SampleLines(sample, ext).value == QaSection([header] + body + Instructions() + sec.lines, sec.answers);
    QaLinesKeyed(qas, ext);
    LinesLayout(header, body, sec.lines, sec.answers.keys);
  }

  /** The question lines match the answer keys one for one, each line opening with its key. */
  lemma QaLinesKeyed(qas: seq<Value>, ext: Externals)
    requires Qa(qas, ext).Ok?
    ensures var sec := Qa(qas, ext).value;
      && |sec.lines| == |sec.answers.keys|
      && forall i :: 0 <= i < |sec.lines| ==> Text.StartsWith(sec.lines[i], sec.answers.keys[i] + ":")
  {
    QaKeys(qas, ext);
    var sec := Qa(qas, ext).value;
    forall i | 0 <= i < |sec.lines|
      ensures Text.StartsWith(sec.lines[i], sec.answers.keys[i] + ":")
    {
      QaAt(qas, ext, i);
    }
  }

  /** Where the parts of `[header] + body + Instructions() + questions` sit in the joined list. */
  lemma LinesLayout(header: string, body: seq<string>, questions: seq<string>, keys: seq<string>)
    requires |questions| == |keys|
    requires forall i :: 0 <= i < |questions| ==> Text.StartsWith(questions[i], keys[i] + ":")
    ensures var ls := [header] + body + Instructions() + questions;
      && |ls| >= 4 + |keys|
      && ls[0] == header
      && ls[|ls| - |keys| - 3..|ls| - |keys|] == Instructions()
      && forall i :: 0 <= i < |keys| ==> Text.StartsWith(ls[|ls| - |keys| + i], keys[i] + ":")
  {
    var pre := [header] + body + Instructions();
    var ls := pre + questions;
    assert ls[|pre| - 3..|pre|] == Instructions();
    forall i | 0 <= i < |keys|
      ensures ls[|pre| + i] == questions[i]
    {
    }
  }

  /** The text of a converted sample opens with the header, whose own newline leaves an empty second line. */
  lemma TextOpensWithHeader(sample: Sample, ext: Externals)
    requires ConvertSample(sample, ext).Ok?
    ensures var conv := sample.conversation;
      && "speaker_a" in conv.vals && "speaker_b" in conv.vals
      && Text.StartsWith(ConvertSample(sample, ext).value.text,
           Header(ext.StrOf(conv.vals["speaker_a"]), ext.StrOf(conv.vals["speaker_b"])) + "\n")
  {
    SampleLayout(sample, ext);
    var ls := SampleLines(sample, ext).value.lines;
    assert Text.Join(ls, "\n") == ls[0] + "\n" + Text.Join(ls[1..], "\n");
  }

  // ---------------------------------------------------------------------------
  // The whole run

  function SampleFile(dir: string, i: nat): string
  {
    PosixPath.Join(dir, "sample_" + Text.Decimal(i) + ".txt")
  }

  function AnswersFile(dir: string, i: nat): string
  {
    PosixPath.Join(dir, "answers_" + Text.Decimal(i) + ".json")
  }

  /** Joining a relative name onto a directory loses nothing of the name. */
  lemma JoinRelative(dir: string, a: string, b: string)
    requires !PosixPath.IsAbs(a) && !PosixPath.IsAbs(b)
    requires PosixPath.Join(dir, a) == PosixPath.Join(dir, b)
    ensures a == b
  {
    var pre := if dir == [] || dir[|dir| - 1] == '/' then dir else dir + "/";
    assert PosixPath.Join(dir, a) == pre + a && PosixPath.Join(dir, b) == pre + b;
    assert a == (pre + a)[|pre|..];
  }

  /** No two files of a run have the same path: each sample writes its own text and answer key. */
  lemma FilesDistinct(dir: string, i: nat, j: nat)
    ensures SampleFile(dir, i) == SampleFile(dir, j) ==> i == j
    ensures AnswersFile(dir, i) == AnswersFile(dir, j) ==> i == j
    ensures SampleFile(dir, i) != AnswersFile(dir, j)
  {
    var si, sj := "sample_" + Text.Decimal(i) + ".txt", "sample_" + Text.Decimal(j) + ".txt";
    var ai, aj := "answers_" + Text.Decimal(i) + ".json", "answers_" + Text.Decimal(j) + ".json";
    assert si[0] == 's' && ai[0] == 'a' && aj[0] == 'a';
    if SampleFile(dir, i) == SampleFile(dir, j) {
      JoinRelative(dir, si, sj);
      assert Text.Decimal(i) == si[7..|si| - 4];
      Text.DecimalInjective(i, j);
    }
    if AnswersFile(dir, i) == AnswersFile(dir, j) {
      JoinRelative(dir, ai, aj);
      assert Text.Decimal(i) == ai[8..|ai| - 5];
      Text.DecimalInjective(i, j);
    }
    if SampleFile(dir, i) == AnswersFile(dir, j) {
      JoinRelative(dir, si, aj);
    }
  }

  datatype Written = Written(textPath: string, text: string, answersPath: string, answers: Dicts.Dict<Value>)

  /** What a run leaves: the files written in order and, when it stopped early, why. */
  datatype Run = Run(written: seq<Written>, failure: Option<Failure>)

  /** What converting each sample gives, in order. */
  function Outcomes(data: seq<Sample>, ext: Externals): (outs: seq<Result<Converted, Failure>>)
    ensures |outs| == |data|
  {
    seq(|data|, i requires 0 <= i < |data| => ConvertSample(data[i], ext))
  }

  /** The sample loop into `dir` over the samples' outcomes, stopping at the first sample that raises. */
  function WriteAll(dir: string, outs: seq<Result<Converted, Failure>>): Run
  {
    if outs == [] then Run([], None)
    else
      var r := WriteAll(dir, outs[..|outs| - 1]);
      var i := |outs| - 1;
      if r.failure.Some? then r
      else match outs[i]
        case Err(e) => Run(r.written, Some(e))
        case Ok(c) => Run(r.written + [Written(SampleFile(dir, i), c.text, AnswersFile(dir, i), c.answers)], None)
  }

  /**
   * The run writes the samples up to the first one that raises, and stops with
   * that one's failure; it completes exactly when every sample converts.
   */
  lemma {:induction false} WriteAllOutcome(dir: string, outs: seq<Result<Converted, Failure>>)
    ensures var r := WriteAll(dir, outs);
      && |r.written| <= |outs|
      && (forall i :: 0 <= i < |r.written| ==> outs[i].Ok?)
      && (r.failure.None? <==> forall i :: 0 <= i < |outs| ==> outs[i].Ok?)
      && (r.failure.None? ==> |r.written| == |outs|)
      && (r.failure.Some? ==> |r.written| < |outs| && outs[|r.written|] == Err(r.failure.value))
  {
    if outs != [] {
      WriteAllOutcome(dir, outs[..|outs| - 1]);
    }
  }

  /** The `i`-th written pair is the `i`-th sample's text and answer key, under its own numbered names. */
  lemma {:induction false} WrittenAt(dir: string, outs: seq<Result<Converted, Failure>>, i: nat)
    requires i < |WriteAll(dir, outs).written|
    ensures (WriteAllOutcome(dir, outs);
      var c := outs[i].value;
      WriteAll(dir, outs).written[i] == Written(SampleFile(dir, i), c.text, AnswersFile(dir, i), c.answers))
  {
    WriteAllOutcome(dir, outs);
    var init := outs[..|outs| - 1];
    WriteAllOutcome(dir, init);
    if i < |WriteAll(dir, init).written| {
      WrittenAt(dir, init, i);
    }
  }

  /** Stopping is final: once a prefix of the run has failed, the rest changes nothing. */
  lemma {:induction false} WriteAllStops(dir: string, outs: seq<Result<Converted, Failure>>, n: nat)
    requires n <= |outs| && WriteAll(dir, outs[..n]).failure.Some?
    ensures WriteAll(dir, outs) == WriteAll(dir, outs[..n])
    decreases |outs| - n
  {
    if n < |outs| {
      var m := outs[..n + 1];
      assert m[..n] == outs[..n];
      WriteAllStops(dir, outs, n + 1);
    } else {
      assert outs[..n] == outs;
    }
  }

  /** `config.get('dataset')`. */
  function Dataset(config: Record): Value
  {
    Get(config, "dataset")
  }

  /**
   * `convert_to_chat_and_qa_format` after the config is loaded: `pathExists` stands
   * for `os.path.exists`, `data` for the loaded dataset.
   */
  function Conversion(config: Record, pathExists: Value -> bool, data: seq<Sample>, ext: Externals): Run
  {
    var ds := Dataset(config);
    if !Truthy(ds) then Run([], Some(MissingDataset))
    else if !pathExists(ds) then Run([], Some(DatasetNotFound))
    else
      match OutputDir(config, ds)
      case Err(e) => Run([], Some(e))
      case Ok(dir) => WriteAll(dir, Outcomes(data, ext))
  }

  /**
   * The configuration is checked before any file is written: the run reports a
   * missing dataset exactly when the config has none, a missing file exactly when
   * there is one that does not exist, and writes nothing in either case.
   */
  lemma ConversionChecksFirst(config: Record, pathExists: Value -> bool, data: seq<Sample>, ext: Externals)
    ensures var r := Conversion(config, pathExists, data, ext);
      r.failure == Some(MissingDataset) <==> !Truthy(Dataset(config))
    ensures var r := Conversion(config, pathExists, data, ext);
      r.failure == Some(DatasetNotFound) <==> Truthy(Dataset(config)) && !pathExists(Dataset(config))
    ensures var r := Conversion(config, pathExists, data, ext);
      r.failure.Some? && !InSample(r.failure.value) ==> r.written == []
  {
    var ds := Dataset(config);
    if Truthy(ds) && pathExists(ds) && OutputDir(config, ds).Ok? {
      var outs := Outcomes(data, ext);
      WriteAllOutcome(OutputDir(config, ds).value, outs);
    }
  }

  // ---------------------------------------------------------------------------
  // The loops of `convert_to_chat_and_qa_format`

  /** Once the collection of a prefix of the keys has failed, later keys change nothing. */
  lemma {:induction false} CollectStops(conv: Dicts.Dict<Value>, n: nat, ext: Externals)
    requires n <= |conv.keys| && Collect(conv, n, ext).Err?
    ensures Collect(conv, |conv.keys|, ext) == Collect(conv, n, ext)
    decreases |conv.keys| - n
  {
    if n < |conv.keys| {
      CollectStops(conv, n + 1, ext);
    }
  }

  /** The key loop: the sessions of the conversation, in key order. */
  method CollectSessions(conv: Dicts.Dict<Value>, ext: Externals) returns (r: Result<seq<Session>, Failure>)
    ensures r == Collect(conv, |conv.keys|, ext)
  {
    Dicts.KeysListed(conv);
    var sessions: seq<Session> := [];
    var n := 0;
    while n < |conv.keys|
      invariant n <= |conv.keys|
      invariant Collect(conv, n, ext) == Ok(sessions)
    {
      var k := conv.keys[n];
      if IsSessionKey(k) && DateKey(k) in conv.vals {
        var time := FormatDate(conv.vals[DateKey(k)], ext);
        if time.Err? {
          CollectStops(conv, n + 1, ext);
          return Err(time.error);
        }
        sessions := sessions + [Session(time.value, conv.vals[k])];
      }
      n := n + 1;
    }
    return Ok(sessions);
  }

  /** The lines of one message, the image loop included. */
  method EmitMessage(msg: Value, ext: Externals) returns (r: Lines)
    ensures r == MessageLines(msg, ext)
  {
    var speaker := Lookup(msg, "speaker");
    if speaker.Err? {
      return Err(speaker.error);
    }
    var text := Lookup(msg, "text");
    if text.Err? {
      return Err(text.error);
    }
    var line := Speech(speaker.value, text.value, ext);
    var lines := [line];
    if "img_url" in msg.fields && Truthy(msg.fields["img_url"]) {
      var caption := Caption(msg.fields, ext);
      var items := Items(msg.fields["img_url"]);
      if items.None? {
        return Err(NotIterable);
      }
      var urls := items.value;
      var u := 0;
      while u < |urls|
        invariant u <= |urls|
        invariant lines == [line] + ImageLines(urls[..u], caption, ext)
      {
        assert urls[..u + 1][..u] == urls[..u];
        lines := lines + [ImageLine(urls[u], caption, ext)];
        u := u + 1;
      }
      assert urls[..u] == urls;
    }
    return Ok(lines);
  }

  /** The parts before the first failing one all give lines. */
  lemma PrefixOk(parts: seq<Lines>, i: nat)
    requires i <= |parts| && Flatten(parts[..i]).Ok?
    ensures forall j :: 0 <= j < i ==> parts[j].Ok?
  {
    FlattenOk(parts[..i]);
    assert forall j :: 0 <= j < i ==> parts[..i][j] == parts[j];
  }

  /** One session: its date line, the message loop, then the empty line. */
  method EmitSession(s: Session, ext: Externals) returns (r: Lines)
    ensures r == SessionLines(s, ext)
  {
    var items := Items(s.dialog);
    if items.None? {
      return Err(NotIterable);
    }
    var msgs := items.value;
    ghost var parts := MessageParts(msgs, ext);
    var lines := [];
    var i := 0;
    while i < |msgs|
      invariant i <= |msgs|
      invariant Flatten(parts[..i]) == Ok(lines)
    {
      var m := EmitMessage(msgs[i], ext);
      FlattenStep(parts, i);
      if m.Err? {
        PrefixOk(parts, i);
        FlattenFirstError(parts, i);
        return Err(m.error);
      }
      lines := lines + m.value;
      i := i + 1;
    }
    assert parts[..i] == parts;
    return Ok([s.time] + lines + [""]);
  }

  /** The session loop over the sorted sessions. */
  method EmitSessions(ss: seq<Session>, ext: Externals) returns (r: Lines)
    ensures r == Flatten(SessionParts(ss, ext))
  {
    ghost var parts := SessionParts(ss, ext);
    var lines := [];
    var i := 0;
    while i < |ss|
      invariant i <= |ss|
      invariant Flatten(parts[..i]) == Ok(lines)
    {
      var m := EmitSession(ss[i], ext);
      FlattenStep(parts, i);
      if m.Err? {
        PrefixOk(parts, i);
        FlattenFirstError(parts, i);
        return Err(m.error);
      }
      lines := lines + m.value;
      i := i + 1;
    }
    assert parts[..i] == parts;
    return Ok(lines);
  }

  /** Once the QA loop has failed on a prefix, later questions change nothing. */
  lemma {:induction false} QaStops(qas: seq<Value>, n: nat, ext: Externals)
    requires n <= |qas| && Qa(qas[..n], ext).Err?
    ensures Qa(qas, ext) == Qa(qas[..n], ext)
    decreases |qas| - n
  {
    if n < |qas| {
      assert qas[..n + 1][..n] == qas[..n];
      QaStops(qas, n + 1, ext);
    } else {
      assert qas[..n] == qas;
    }
  }

  /** The QA loop: question lines and answer key entries for every question not of category 5. */
  method CollectQa(qa: Value, ext: Externals) returns (r: Result<QaSection, Failure>)
    ensures r == Questions(qa, ext)
  {
    var items := Items(qa);
    if items.None? {
      return Err(NotIterable);
    }
    var qas := items.value;
    var lines: seq<string> := [];
    var answers := Dicts.Empty();
    var idx := 0;
    while idx < |qas|
      invariant idx <= |qas|
      invariant Qa(qas[..idx], ext) == Ok(QaSection(lines, answers))
    {
      var q := qas[idx];
      assert qas[..idx + 1][..idx] == qas[..idx];
      if !q.Obj? {
        QaStops(qas, idx + 1, ext);
        return Err(NoGet);
      }
      var category := Get(q.fields, "category");
      if IsFive(category) {
        idx := idx + 1;
        continue;
      }
      var question := Lookup(q, "question");
      if question.Err? {
        QaStops(qas, idx + 1, ext);
        return Err(question.error);
      }
      var answer := Lookup(q, "answer");
      if answer.Err? {
        QaStops(qas, idx + 1, ext);
        return Err(answer.error);
      }
      var key := Text.Decimal(idx);
      lines := lines + [key + ":" + ext.StrOf(question.value)];
      answers := Dicts.Put(answers, key, AnswerEntry(category, answer.value, question.value));
      idx := idx + 1;
    }
    assert qas[..idx] == qas;
    return Ok(QaSection(lines, answers));
  }

  /** One pass of the sample loop: the output lines built step by step, the sessions sorted in place. */
  method ConvertOne(sample: Sample, ext: Externals) returns (r: Result<Converted, Failure>)
    ensures r == ConvertSample(sample, ext)
  {
    var conv := sample.conversation;
    var header := HeaderLine(conv, ext);
    if header.Err? {
      return Err(header.error);
    }
    var outputLines := [header.value];
    var collected := CollectSessions(conv, ext);
    if collected.Err? {
      return Err(collected.error);
    }
    var ss := collected.value;
    var sessions := new Session[|ss|](i requires 0 <= i < |ss| => ss[i]);
    assert sessions[..] == ss;
    SortSessions(sessions);
    var body := EmitSessions(sessions[..], ext);
    if body.Err? {
      return Err(body.error);
    }
    outputLines := outputLines + body.value + Instructions();
    var qa := CollectQa(sample.qa, ext);
    if qa.Err? {
      return Err(qa.error);
    }
    outputLines := outputLines + qa.value.lines;
    return Ok(Converted(Text.Join(outputLines, "\n"), qa.value.answers));
  }

  /** `convert_to_chat_and_qa_format` after the config is loaded: the checks, then the sample loop. */
  method Convert(config: Record, pathExists: Value -> bool, data: seq<Sample>, ext: Externals) returns (run: Run)
    ensures run == Conversion(config, pathExists, data, ext)
  {
    var ds := Dataset(config);
    if !Truthy(ds) {
      return Run([], Some(MissingDataset));
    }
    if !pathExists(ds) {
      return Run([], Some(DatasetNotFound));
    }
    var dir := OutputDir(config, ds);
    if dir.Err? {
      return Run([], Some(dir.error));
    }
    ghost var outs := Outcomes(data, ext);
    var written: seq<Written> := [];
    var i := 0;
    while i < |data|
      invariant i <= |data|
      invariant WriteAll(dir.value, outs[..i]) == Run(written, None)
    {
      var c := ConvertOne(data[i], ext);
      assert outs[..i + 1][..i] == outs[..i];
      if c.Err? {
        WriteAllStops(dir.value, outs, i + 1);
        return Run(written, Some(c.error));
      }
      written := written + [Written(SampleFile(dir.value, i), c.value.text, AnswersFile(dir.value, i), c.value.answers)];
      i := i + 1;
    }
    assert outs[..i] == outs;
    return Run(written, None);
  }
}
