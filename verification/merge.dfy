/**
 * `merge.py`: each `answers_<n>.json` is paired with the `prediction_<n>.json` of
 * the same sample number; the model's answers are read out of the first brace
 * block of each prediction's content and attached to the answer entries as
 * `response`; every entry of every paired sample, in sample-number order, is
 * numbered "0", "1", ... in the merged output.
 */
module Merge {
  import opened Wrappers
  import opened Json
  import Text
  import Dicts
  import BraceScan

  // ---------------------------------------------------------------------------
  // `extract_predictions`

  /** A backslash directly followed by a double quote starts at `i`. */
  predicate EscapedQuoteAt(s: string, i: nat)
  {
    i + 1 < |s| && s[i] == '\\' && s[i + 1] == '"'
  }

  ghost predicate NoEscapedQuote(s: string)
  {
    forall i :: 0 <= i < |s| ==> !EscapedQuoteAt(s, i)
  }

  /** `content.replace('\\"', '')`: every backslash-quote pair, scanning left to right, is dropped. */
  function RemoveEscapedQuotes(s: string): (r: string)
    ensures |r| <= |s|
    decreases |s|
  {
    if EscapedQuoteAt(s, 0) then RemoveEscapedQuotes(s[2..])
    else if s == [] then []
    else [s[0]] + RemoveEscapedQuotes(s[1..])
  }

  /** A text with no backslash-quote pair is left as it is. */
  lemma {:induction false} NoEscapedQuoteUnchanged(s: string)
    requires NoEscapedQuote(s)
    ensures RemoveEscapedQuotes(s) == s
    decreases |s|
  {
    if s != [] {
      assert !EscapedQuoteAt(s, 0);
      forall i | 0 <= i < |s[1..]| ensures !EscapedQuoteAt(s[1..], i) {
        assert !EscapedQuoteAt(s, i + 1);
      }
      NoEscapedQuoteUnchanged(s[1..]);
      assert s == [s[0]] + s[1..];
    }
  }

  /** The characters of `s` other than backslashes and double quotes, in order. */
  function Others(s: string): string
  {
    if s == [] then []
    else (if s[0] == '\\' || s[0] == '"' then [] else [s[0]]) + Others(s[1..])
  }

  /** Only backslashes and quotes are ever removed: every other character survives, in order. */
  lemma {:induction false} RemovalKeepsOthers(s: string)
    ensures Others(RemoveEscapedQuotes(s)) == Others(s)
    decreases |s|
  {
    if EscapedQuoteAt(s, 0) {
      RemovalKeepsOthers(s[2..]);
      assert s[1..][1..] == s[2..];
    } else if s != [] {
      RemovalKeepsOthers(s[1..]);
      var r := [s[0]] + RemoveEscapedQuotes(s[1..]);
      assert r[1..] == RemoveEscapedQuotes(s[1..]);
    }
  }

  /** Removal works piece by piece, unless the pieces meet in a backslash-quote pair. */
  lemma {:induction false} RemovalSplits(a: string, b: string)
    requires !(a != [] && b != [] && a[|a| - 1] == '\\' && b[0] == '"')
    ensures RemoveEscapedQuotes(a + b) == RemoveEscapedQuotes(a) + RemoveEscapedQuotes(b)
    decreases |a|
  {
    var ab := a + b;
    if a == [] {
      assert ab == b;
    } else if EscapedQuoteAt(a, 0) {
      assert EscapedQuoteAt(ab, 0) && ab[2..] == a[2..] + b;
      RemovalSplits(a[2..], b);
    } else {
      assert !EscapedQuoteAt(ab, 0) by {
        assert ab[0] == a[0];
        if |a| > 1 {
          assert ab[1] == a[1];
        }
      }
      assert ab[1..] == a[1..] + b;
      RemovalSplits(a[1..], b);
      KeptFirst(a[0], RemoveEscapedQuotes(a[1..]), RemoveEscapedQuotes(b));
    }
  }

  lemma KeptFirst(c: char, p: string, q: string)
    ensures [c] + (p + q) == ([c] + p) + q
  {
  }

  /** `extract_predictions`: the first brace block of the cleaned content, parsed; `None` when there is none or it is not JSON. */
  function ExtractPredictions(content: string, loads: string -> Option<Value>): Option<Value>
  {
    match BraceScan.FirstBraceBlock(RemoveEscapedQuotes(content))
    case None => None
    case Some(block) => loads(block)
  }

  /** A flat object wrapped in text without braces or backslash-quote pairs is what gets parsed. */
  lemma WrappedObjectExtracted(pre: string, inner: string, post: string, loads: string -> Option<Value>)
    requires BraceScan.NoBraces(pre) && BraceScan.NoBraces(post)
    requires forall k :: 0 <= k < |inner| ==> inner[k] != '}'
    requires NoEscapedQuote(pre + "{" + inner + "}" + post)
    ensures ExtractPredictions(pre + "{" + inner + "}" + post, loads) == loads("{" + inner + "}")
  {
    var block := "{" + inner + "}";
    assert pre + "{" + inner + "}" + post == pre + block + post;
    NoEscapedQuoteUnchanged(pre + block + post);
    BraceScan.BlockIgnoresBracelessEdges(pre, block, post);
    FlatBlockIsItsOwn(inner);
  }

  /** A flat object on its own is its first brace block. */
  lemma FlatBlockIsItsOwn(inner: string)
    requires forall k :: 0 <= k < |inner| ==> inner[k] != '}'
    ensures BraceScan.FirstBraceBlock("{" + inner + "}") == Some("{" + inner + "}")
  {
    var block := "{" + inner + "}";
    assert BraceScan.LeftmostSpan(block, 0, |block| - 1);
    BraceScan.BlockOfLeftmost(block, 0, |block| - 1);
    assert block[0..|block|] == block;
  }

  /** A nested object is cut at the first `}`: the outer object is never closed. */
  lemma NestedObjectTruncated(x: string, y: string, z: string)
    requires BraceScan.NoBraces(x) && forall k :: 0 <= k < |y| ==> y[k] != '}'
    ensures BraceScan.FirstBraceBlock("{" + x + "{" + y + "}" + z) == Some("{" + x + "{" + y + "}")
  {
    var s := "{" + x + "{" + y + "}" + z;
    var j := |x| + |y| + 2;
    assert s[0] == '{' && s[j] == '}';
    forall k | 0 < k < j ensures s[k] != '}' {
      if k <= |x| {
        assert s[k] == x[k - 1];
      } else if k > |x| + 1 {
        assert s[k] == y[k - |x| - 2];
      }
    }
    assert BraceScan.LeftmostSpan(s, 0, j);
    BraceScan.LeftmostSpanUnique(s, 0, j, BraceScan.FirstSpan(s).value.0, BraceScan.FirstSpan(s).value.1);
    assert s[0..j + 1] == "{" + x + "{" + y + "}";
  }

  // ---------------------------------------------------------------------------
  // `extract_number`

  predicate IsDigit(c: char)
  {
    '0' <= c <= '9'
  }

  function DigitValue(c: char): nat
    requires IsDigit(c)
  {
    c as int - '0' as int
  }

  /** `int` of a run of digits. */
  function DigitsValue(d: string): nat
    requires forall k :: 0 <= k < |d| ==> IsDigit(d[k])
  {
    if d == [] then 0 else DigitsValue(d[..|d| - 1]) * 10 + DigitValue(d[|d| - 1])
  }

  /** The position of the first digit at or after `from`. */
  function FirstDigit(s: string, from: nat): (r: Option<nat>)
    requires from <= |s|
    ensures r.Some? ==> from <= r.value < |s| && IsDigit(s[r.value])
    ensures r.Some? ==> forall k :: from <= k < r.value ==> !IsDigit(s[k])
    ensures r.None? ==> forall k :: from <= k < |s| ==> !IsDigit(s[k])
    decreases |s| - from
  {
    if from == |s| then None
    else if IsDigit(s[from]) then Some(from)
    else FirstDigit(s, from + 1)
  }

  /** `int(re.findall(r"\d+", name)[0])`: the first maximal run of digits, read as a number; `None` where there is none. */
  function ExtractNumber(name: string): Option<nat>
  {
    match FirstDigit(name, 0)
    case None => None
    case Some(i) =>
      var n := Text.LeadingRun(name[i..], IsDigit);
      assert forall k :: 0 <= k < n ==> IsDigit(name[i..][..n][k]);
      Some(DigitsValue(name[i..][..n]))
  }

  lemma DigitOfDigitChar(d: nat)
    requires d < 10
    ensures IsDigit(Text.DigitChar(d)) && DigitValue(Text.DigitChar(d)) == d
  {
    assert Text.DigitChar(d) == "0123456789"[d];
    if d == 0 {} else if d == 1 {} else if d == 2 {} else if d == 3 {} else if d == 4 {}
    else if d == 5 {} else if d == 6 {} else if d == 7 {} else if d == 8 {} else {}
  }

  /** Reading back `str(n)` gives `n`. */
  lemma {:induction false} DecimalReadsBack(n: nat)
    ensures forall k :: 0 <= k < |Text.Decimal(n)| ==> IsDigit(Text.Decimal(n)[k])
    ensures DigitsValue(Text.Decimal(n)) == n
    decreases n
  {
    var d := Text.Decimal(n);
    if n < 10 {
      DigitOfDigitChar(n);
      assert d[..0] == [];
    } else {
      DecimalReadsBack(n / 10);
      DigitOfDigitChar(n % 10);
      assert d[..|d| - 1] == Text.Decimal(n / 10);
    }
  }

  /** After a prefix without digits, the first digit is the first character that follows it. */
  lemma FirstDigitAfter(pre: string, rest: string)
    requires forall k :: 0 <= k < |pre| ==> !IsDigit(pre[k])
    requires rest != [] && IsDigit(rest[0])
    ensures FirstDigit(pre + rest, 0) == Some(|pre|)
  {
    var s := pre + rest;
    assert forall k :: 0 <= k < |pre| ==> s[k] == pre[k];
    assert s[|pre|] == rest[0];
  }

  /** A run of digits followed by text that does not start with a digit is read up to its end. */
  lemma DigitRunEnds(d: string, post: string)
    requires forall k :: 0 <= k < |d| ==> IsDigit(d[k])
    requires post == [] || !IsDigit(post[0])
    ensures Text.LeadingRun(d + post, IsDigit) == |d|
  {
    var t := d + post;
    var m := Text.LeadingRun(t, IsDigit);
    assert forall k :: 0 <= k < |d| ==> t[k] == d[k];
    assert |d| < |t| ==> t[|d|] == post[0];
  }

  /** A name made of text without digits, `str(n)`, and text not starting with a digit has number `n`. */
  lemma NumberOfName(pre: string, n: nat, post: string)
    requires forall k :: 0 <= k < |pre| ==> !IsDigit(pre[k])
    requires post == [] || !IsDigit(post[0])
    ensures ExtractNumber(pre + Text.Decimal(n) + post) == Some(n)
  {
    var d := Text.Decimal(n);
    var s := pre + d + post;
    DecimalReadsBack(n);
    assert s == pre + (d + post);
    FirstDigitAfter(pre, d + post);
    assert s[|pre|..] == d + post;
    DigitRunEnds(d, post);
    assert (d + post)[..|d|] == d;
  }

  // ---------------------------------------------------------------------------
  // Pairing files by number

  /**
   * `{extract_number(f): f for f in files}`, as the position of the file kept for
   * each number; the first name without a number raises.
   */
  function NumberMap(names: seq<string>): (r: Result<map<nat, nat>, string>)
    ensures r.Ok? ==> forall n :: n in r.value ==> r.value[n] < |names|
  {
    if names == [] then Ok(map[])
    else match NumberMap(names[..|names| - 1])
      case Err(e) => Err(e)
      case Ok(m) =>
        match ExtractNumber(names[|names| - 1])
        case None => Err(names[|names| - 1])
        case Some(n) => Ok(m[n := |names| - 1])
  }

  /** The map is built exactly when every name carries a number. */
  lemma {:induction false} NumberMapBuilt(names: seq<string>)
    ensures NumberMap(names).Ok? <==> forall j :: 0 <= j < |names| ==> ExtractNumber(names[j]).Some?
  {
    if names != [] {
      var init := names[..|names| - 1];
      NumberMapBuilt(init);
      assert forall j :: 0 <= j < |init| ==> init[j] == names[j];
    }
  }

  /** Every number in the map is carried by the name it points to, and by no later name. */
  lemma {:induction false} NumberMapLastWins(names: seq<string>, n: nat)
    requires NumberMap(names).Ok? && n in NumberMap(names).value
    ensures ExtractNumber(names[NumberMap(names).value[n]]) == Some(n)
    ensures forall j :: NumberMap(names).value[n] < j < |names| ==> ExtractNumber(names[j]) != Some(n)
  {
    var init := names[..|names| - 1];
    assert forall j :: 0 <= j < |init| ==> init[j] == names[j];
    if ExtractNumber(names[|names| - 1]) != Some(n) {
      NumberMapLastWins(init, n);
    }
  }

  /** Every number a name carries is in the map. */
  lemma {:induction false} NumberMapCovers(names: seq<string>, j: nat)
    requires NumberMap(names).Ok? && j < |names|
    ensures ExtractNumber(names[j]).Some? && ExtractNumber(names[j]).value in NumberMap(names).value
  {
    var init := names[..|names| - 1];
    if j < |names| - 1 {
      assert init[j] == names[j];
      NumberMapCovers(init, j);
    }
  }

  /** The elements of a finite set of numbers, in ascending order. */
  function SortedIds(s: set<nat>): (r: seq<nat>)
    ensures forall i, j :: 0 <= i < j < |r| ==> r[i] < r[j]
    ensures forall x :: x in r <==> x in s
    decreases s
  {
    if s == {} then []
    else
      var m := Least(s);
      [m] + SortedIds(s - {m})
  }

  /** The least element of a non-empty set of numbers. */
  function Least(s: set<nat>): (m: nat)
    requires s != {}
    ensures m in s && forall x :: x in s ==> m <= x
  {
    MinExists(s);
    var m :| m in s && forall x :: x in s ==> m <= x;
    m
  }

  lemma {:induction false} MinExists(s: set<nat>)
    requires s != {}
    ensures exists m :: m in s && forall x :: x in s ==> m <= x
    decreases s
  {
    var y :| y in s;
    var below := set x | x in s && x < y;
    if below == {} {
      forall x | x in s ensures y <= x {
        assert x !in below;
      }
    } else {
      assert y !in below;
      MinExists(below);
      var m :| m in below && forall x :: x in below ==> m <= x;
      forall x | x in s ensures m <= x {
        if x < y {
          assert x in below;
        }
      }
    }
  }

  // ---------------------------------------------------------------------------
  // Attaching responses and numbering

  /** An answers file: its name and the JSON object `json.load` reads from it, in key order. */
  datatype AnswerFile = AnswerFile(name: string, answers: Dicts.Dict<Value>)

  /**
   * A prediction file: its name and `pred_data["choices"][0]["message"]["content"]`,
   * `None` where that lookup raises or the content is not a string.
   */
  datatype PredictionFile = PredictionFile(name: string, content: Option<string>)

  datatype MergeError =
    | NoNumber(name: string)          // IndexError in `extract_number`
    | NoContent(name: string)         // the content lookup raises
    | NotADict(name: string)          // `key in predictions` on `None` or on a non-object
    | EntryNotADict(key: string)      // `entry["response"] = ...` on a non-object

  /** `if key in predictions: entry["response"] = predictions[key]`. */
  function WithResponse(entry: Value, key: string, preds: map<string, Value>): Result<Value, MergeError>
  {
    if key !in preds then Ok(entry)
    else if entry.Obj? then Ok(Obj(entry.fields["response" := preds[key]]))
    else Err(EntryNotADict(key))
  }

  /** The entry for one key: its answer entry, with the response attached, once the predictions are known to be an object. */
  function EntryFor(entry: Value, key: string, preds: Option<Value>, name: string): Result<Value, MergeError>
  {
    match preds
    case Some(Obj(p)) => WithResponse(entry, key, p)
    case _ => Err(NotADict(name))
  }

  /** The entries of one sample, in the answers file's key order, with their responses attached. */
  function SampleEntries(keys: seq<string>, answers: map<string, Value>, preds: Option<Value>, name: string): (r: Result<seq<Value>, MergeError>)
    requires forall k :: k in keys ==> k in answers
    ensures r.Ok? ==> |r.value| == |keys|
  {
    if keys == [] then Ok([])
    else match SampleEntries(keys[..|keys| - 1], answers, preds, name)
      case Err(e) => Err(e)
      case Ok(vs) =>
        var k := keys[|keys| - 1];
        match EntryFor(answers[k], k, preds, name)
        case Ok(v) => Ok(vs + [v])
        case Err(e) => Err(e)
  }

  /**
   * The entries of a sample: each is its answer entry, with `response` set to the
   * prediction under its key where there is one and untouched otherwise.
   */
  lemma {:induction false} SampleEntryAt(keys: seq<string>, answers: map<string, Value>, preds: Option<Value>, name: string, i: nat)
    requires forall k :: k in keys ==> k in answers
    requires SampleEntries(keys, answers, preds, name).Ok? && i < |keys|
    ensures preds.Some? && preds.value.Obj?
    ensures keys[i] in preds.value.fields ==> answers[keys[i]].Obj?
    ensures var e := answers[keys[i]];
      var p := preds.value.fields;
      SampleEntries(keys, answers, preds, name).value[i]
        == if keys[i] in p then Obj(e.fields["response" := p[keys[i]]]) else e
  {
    var init := keys[..|keys| - 1];
    assert forall k :: k in init ==> k in keys;
    if i < |keys| - 1 {
      SampleEntryAt(init, answers, preds, name, i);
    }
  }

  /** The answers and the predictions of a paired sample, or why the script stops there. */
  function Sample(af: AnswerFile, pf: PredictionFile, loads: string -> Option<Value>): (r: Result<seq<Value>, MergeError>)
    ensures r.Ok? ==> |r.value| == |af.answers.keys|
  {
    Dicts.KeysListed(af.answers);
    match pf.content
    case None => Err(NoContent(pf.name))
    case Some(c) => SampleEntries(af.answers.keys, af.answers.vals, ExtractPredictions(c, loads), pf.name)
  }

  /** A prediction whose content yields no object stops the script, unless its answers file is empty. */
  lemma UnreadablePredictionsFail(af: AnswerFile, pf: PredictionFile, loads: string -> Option<Value>)
    requires pf.content.Some? && ExtractPredictions(pf.content.value, loads).None?
    ensures Sample(af, pf, loads).Ok? <==> af.answers.keys == []
  {
    Dicts.KeysListed(af.answers);
  }

  /** A paired sample: the answers file and the prediction file of one number. */
  datatype Pair = Pair(answers: AnswerFile, predictions: PredictionFile)

  /** The pairs for the numbers `ids`, in that order. */
  function Pairs(ids: seq<nat>, amap: map<nat, nat>, pmap: map<nat, nat>,
                 answerFiles: seq<AnswerFile>, predFiles: seq<PredictionFile>): (ps: seq<Pair>)
    requires forall n :: n in ids ==> n in amap && amap[n] < |answerFiles| && n in pmap && pmap[n] < |predFiles|
    ensures |ps| == |ids|
    ensures forall j :: 0 <= j < |ids| ==> ps[j] == Pair(answerFiles[amap[ids[j]]], predFiles[pmap[ids[j]]])
  {
    seq(|ids|, j requires 0 <= j < |ids| => Pair(answerFiles[amap[ids[j]]], predFiles[pmap[ids[j]]]))
  }

  /** What one paired sample gives: its entries, or why the script stops there. */
  type Part = Result<seq<Value>, MergeError>

  /** The parts one after the other, stopping at the first that fails. */
  function Concat(parts: seq<Part>): Part
  {
    if parts == [] then Ok([])
    else
      match Concat(parts[..|parts| - 1])
      case Err(e) => Err(e)
      case Ok(vs) =>
        match parts[|parts| - 1]
        case Err(e) => Err(e)
        case Ok(ws) => Ok(vs + ws)
  }

  /** The sum of the first `j` sizes. */
  function SizesBefore(sizes: seq<nat>, j: nat): nat
    requires j <= |sizes|
  {
    if j == 0 then 0 else SizesBefore(sizes, j - 1) + sizes[j - 1]
  }

  /** Parts of the sizes given, where they succeed. */
  ghost predicate Sized(parts: seq<Part>, sizes: seq<nat>)
  {
    |parts| == |sizes| && forall k :: 0 <= k < |parts| && parts[k].Ok? ==> |parts[k].value| == sizes[k]
  }

  lemma {:induction false} SizesOfPrefix(sizes: seq<nat>, j: nat)
    requires j <= |sizes| - 1
    ensures SizesBefore(sizes[..|sizes| - 1], j) == SizesBefore(sizes, j)
  {
    if j > 0 {
      SizesOfPrefix(sizes, j - 1);
    }
  }

  /** A concatenation that succeeds is as long as all the sizes together. */
  lemma {:induction false} ConcatCount(parts: seq<Part>, sizes: seq<nat>)
    requires Sized(parts, sizes)
    ensures Concat(parts).Ok? ==> |Concat(parts).value| == SizesBefore(sizes, |sizes|)
  {
    if parts != [] {
      var n := |parts| - 1;
      assert Sized(parts[..n], sizes[..n]);
      ConcatCount(parts[..n], sizes[..n]);
      SizesOfPrefix(sizes, n);
    }
  }

  /** A concatenation succeeds only when every part does, and holds part `j` from `SizesBefore(j)` on. */
  lemma {:induction false} ConcatLayout(parts: seq<Part>, sizes: seq<nat>, j: nat)
    requires Sized(parts, sizes) && j < |parts| && Concat(parts).Ok?
    ensures parts[j].Ok?
    ensures var off := SizesBefore(sizes, j);
      off + |parts[j].value| <= |Concat(parts).value| && Concat(parts).value[off..off + |parts[j].value|] == parts[j].value
  {
    var n := |parts| - 1;
    var before := Concat(parts[..n]).value;
    var all := Concat(parts).value;
    assert all == before + parts[n].value;
    assert Sized(parts[..n], sizes[..n]);
    if j < n {
      ConcatLayout(parts[..n], sizes[..n], j);
      SizesOfPrefix(sizes, j);
      assert parts[..n][j] == parts[j];
      var off := SizesBefore(sizes, j);
      assert all[off..off + |parts[j].value|] == before[off..off + |parts[j].value|];
    } else {
      ConcatCount(parts[..n], sizes[..n]);
      SizesOfPrefix(sizes, n);
      assert all[|before|..|before| + |parts[n].value|] == parts[n].value;
    }
  }

  /** Element `i` of part `j` sits at `SizesBefore(j) + i` in a concatenation that succeeds. */
  lemma ConcatAt(parts: seq<Part>, sizes: seq<nat>, j: nat, i: nat)
    requires Sized(parts, sizes) && j < |parts| && Concat(parts).Ok?
    requires parts[j].Ok? && i < |parts[j].value|
    ensures SizesBefore(sizes, j) + i < |Concat(parts).value|
    ensures Concat(parts).value[SizesBefore(sizes, j) + i] == parts[j].value[i]
  {
    ConcatLayout(parts, sizes, j);
    var off := SizesBefore(sizes, j);
    assert Concat(parts).value[off..off + |parts[j].value|][i] == parts[j].value[i];
  }

  /** The part of each pair. */
  function SampleParts(ps: seq<Pair>, loads: string -> Option<Value>): (parts: seq<Part>)
    ensures |parts| == |ps|
  {
    seq(|ps|, j requires 0 <= j < |ps| => Sample(ps[j].answers, ps[j].predictions, loads))
  }

  /** The number of entries of each pair's answers file. */
  function EntryCounts(ps: seq<Pair>): (sizes: seq<nat>)
    ensures |sizes| == |ps|
  {
    seq(|ps|, j requires 0 <= j < |ps| => |ps[j].answers.answers.keys|)
  }

  lemma SamplePartsSized(ps: seq<Pair>, loads: string -> Option<Value>)
    ensures Sized(SampleParts(ps, loads), EntryCounts(ps))
  {
  }

  /** The answer entry `i` of a paired sample is what the predictions make of it. */
  ghost predicate EntryMerged(af: AnswerFile, pf: PredictionFile, loads: string -> Option<Value>, i: nat, v: Value)
  {
    && i < |af.answers.keys|
    && pf.content.Some?
    && var preds := ExtractPredictions(pf.content.value, loads);
       var key := af.answers.keys[i];
       && preds.Some? && preds.value.Obj?
       && key in af.answers.vals
       && (key in preds.value.fields ==> af.answers.vals[key].Obj?)
       && v == if key in preds.value.fields then Obj(af.answers.vals[key].fields["response" := preds.value.fields[key]])
               else af.answers.vals[key]
  }

  /** Entry `i` of a sample that succeeds gets `response` set to the prediction under its key, where there is one. */
  lemma SampleEntryMerged(af: AnswerFile, pf: PredictionFile, loads: string -> Option<Value>, i: nat)
    requires Sample(af, pf, loads).Ok? && i < |af.answers.keys|
    ensures EntryMerged(af, pf, loads, i, Sample(af, pf, loads).value[i])
  {
    Dicts.KeysListed(af.answers);
    SampleEntryAt(af.answers.keys, af.answers.vals, ExtractPredictions(pf.content.value, loads), pf.name, i);
  }

  /** A merge that succeeds holds entry `i` of pair `j` after the entries of the pairs before it, with its response attached. */
  lemma MergedEntryAt(ps: seq<Pair>, loads: string -> Option<Value>, j: nat, i: nat)
    requires j < |ps| && Concat(SampleParts(ps, loads)).Ok?
    requires i < |ps[j].answers.answers.keys|
    ensures SizesBefore(EntryCounts(ps), j) + i < |Concat(SampleParts(ps, loads)).value|
    ensures EntryMerged(ps[j].answers, ps[j].predictions, loads, i,
                        Concat(SampleParts(ps, loads)).value[SizesBefore(EntryCounts(ps), j) + i])
  {
    var parts := SampleParts(ps, loads);
    SamplePartsSized(ps, loads);
    ConcatLayout(parts, EntryCounts(ps), j);
    ConcatAt(parts, EntryCounts(ps), j, i);
    SampleEntryMerged(ps[j].answers, ps[j].predictions, loads, i);
  }

  /** The keys "0", "1", ..., "n-1". */
  function Indices(n: nat): (r: seq<string>)
    ensures |r| == n
    ensures forall i :: 0 <= i < n ==> r[i] == Text.Decimal(i)
  {
    if n == 0 then [] else Indices(n - 1) + [Text.Decimal(n - 1)]
  }

  /** `merged_all[str(global_idx)] = entry` for each entry in turn, from an empty dict. */
  function Numbered(vs: seq<Value>): Dicts.Dict<Value>
    decreases |vs|, 0
  {
    if vs == [] then Dicts.Empty()
    else
      var init := vs[..|vs| - 1];
      var n := |vs| - 1;
      assert Text.Decimal(n) !in Numbered(init).vals by {
        NumberedFresh(init);
      }
      Dicts.Put(Numbered(init), Text.Decimal(n), vs[n])
  }

  /** The next number is not yet a key. */
  lemma NumberedFresh(vs: seq<Value>)
    ensures Text.Decimal(|vs|) !in Numbered(vs).vals
    decreases |vs|, 2
  {
    var d := Numbered(vs);
    NumberedKeys(vs);
    if Text.Decimal(|vs|) in d.vals {
      var i := Dicts.KeyIndex(d, Text.Decimal(|vs|));
      Text.DecimalInjective(i, |vs|);
    }
  }

  /** The keys are "0", "1", ... in order. */
  lemma {:induction false} NumberedKeys(vs: seq<Value>)
    ensures Numbered(vs).keys == Indices(|vs|)
    decreases |vs|, 1
  {
    if vs != [] {
      var init := vs[..|vs| - 1];
      NumberedKeys(init);
      NumberedFresh(init);
    }
  }

  /** Entry `i` is stored under `str(i)`. */
  lemma {:induction false} NumberedAt(vs: seq<Value>, i: nat)
    requires i < |vs|
    ensures Text.Decimal(i) in Numbered(vs).vals && Numbered(vs).vals[Text.Decimal(i)] == vs[i]
  {
    var n := |vs| - 1;
    if i < n {
      var init := vs[..n];
      NumberedAt(init, i);
      if Text.Decimal(i) == Text.Decimal(n) {
        Text.DecimalInjective(i, n);
      }
      assert init[i] == vs[i];
    }
  }

  /** What a successful merge leaves: the merged dict and the final `global_idx`. */
  datatype Merged = Merged(merged: Dicts.Dict<Value>, count: nat)

  function AnswerNames(fs: seq<AnswerFile>): (names: seq<string>)
    ensures |names| == |fs| && forall i :: 0 <= i < |fs| ==> names[i] == fs[i].name
  {
    seq(|fs|, i requires 0 <= i < |fs| => fs[i].name)
  }

  function PredictionNames(fs: seq<PredictionFile>): (names: seq<string>)
    ensures |names| == |fs| && forall i :: 0 <= i < |fs| ==> names[i] == fs[i].name
  {
    seq(|fs|, i requires 0 <= i < |fs| => fs[i].name)
  }

  /** `answer_map` and `prediction_map`, then the numbers both have in ascending order, as pairs of files. */
  function Paired(answerFiles: seq<AnswerFile>, predFiles: seq<PredictionFile>): Result<seq<Pair>, MergeError>
  {
    match NumberMap(AnswerNames(answerFiles))
    case Err(name) => Err(NoNumber(name))
    case Ok(amap) =>
      match NumberMap(PredictionNames(predFiles))
      case Err(name) => Err(NoNumber(name))
      case Ok(pmap) => Ok(Pairs(SortedIds(amap.Keys * pmap.Keys), amap, pmap, answerFiles, predFiles))
  }

  /** Pairing fails exactly when some file name has no number. */
  lemma PairedWhenNumbered(answerFiles: seq<AnswerFile>, predFiles: seq<PredictionFile>)
    ensures Paired(answerFiles, predFiles).Ok? <==>
      (forall i :: 0 <= i < |answerFiles| ==> ExtractNumber(answerFiles[i].name).Some?)
      && (forall i :: 0 <= i < |predFiles| ==> ExtractNumber(predFiles[i].name).Some?)
  {
    NumberMapBuilt(AnswerNames(answerFiles));
    NumberMapBuilt(PredictionNames(predFiles));
  }

  /** The sample number of a pair, read from its answers file's name. */
  function PairNumber(p: Pair): Option<nat>
  {
    ExtractNumber(p.answers.name)
  }

  /** The numbers paired, in ascending order. */
  function PairedNumbers(answerFiles: seq<AnswerFile>, predFiles: seq<PredictionFile>): (ids: seq<nat>)
    requires Paired(answerFiles, predFiles).Ok?
    ensures |ids| == |Paired(answerFiles, predFiles).value|
    ensures forall j, j' :: 0 <= j < j' < |ids| ==> ids[j] < ids[j']
  {
    var amap := NumberMap(AnswerNames(answerFiles)).value;
    var pmap := NumberMap(PredictionNames(predFiles)).value;
    SortedIds(amap.Keys * pmap.Keys)
  }

  /** Pair `j` joins the last answers file and the last prediction file in order that carry the `j`-th paired number. */
  lemma PairedFiles(answerFiles: seq<AnswerFile>, predFiles: seq<PredictionFile>, ps: seq<Pair>, j: nat)
    requires Paired(answerFiles, predFiles) == Ok(ps) && j < |ps|
    ensures PairNumber(ps[j]) == Some(PairedNumbers(answerFiles, predFiles)[j])
    ensures ExtractNumber(ps[j].predictions.name) == Some(PairedNumbers(answerFiles, predFiles)[j])
    ensures exists a ::
      && 0 <= a < |answerFiles| && answerFiles[a] == ps[j].answers
      && forall i :: a < i < |answerFiles| ==>
           ExtractNumber(answerFiles[i].name) != Some(PairedNumbers(answerFiles, predFiles)[j])
    ensures exists b ::
      && 0 <= b < |predFiles| && predFiles[b] == ps[j].predictions
      && forall i :: b < i < |predFiles| ==>
           ExtractNumber(predFiles[i].name) != Some(PairedNumbers(answerFiles, predFiles)[j])
  {
    var an, pn := AnswerNames(answerFiles), PredictionNames(predFiles);
    var amap, pmap := NumberMap(an).value, NumberMap(pn).value;
    var ids := SortedIds(amap.Keys * pmap.Keys);
    assert ps == Pairs(ids, amap, pmap, answerFiles, predFiles);
    var n := ids[j];
    assert n in amap.Keys * pmap.Keys;
    NumberMapLastWins(an, n);
    NumberMapLastWins(pn, n);
    var a, b := amap[n], pmap[n];
    assert answerFiles[a] == ps[j].answers && predFiles[b] == ps[j].predictions;
    assert an[a] == answerFiles[a].name && pn[b] == predFiles[b].name;
  }

  /** Exactly the numbers that some answers file and some prediction file both carry are paired. */
  lemma PairedCovers(answerFiles: seq<AnswerFile>, predFiles: seq<PredictionFile>, a: nat, b: nat)
    requires Paired(answerFiles, predFiles).Ok?
    requires a < |answerFiles| && b < |predFiles|
    ensures ExtractNumber(answerFiles[a].name) == ExtractNumber(predFiles[b].name) ==>
      ExtractNumber(answerFiles[a].name).Some?
      && ExtractNumber(answerFiles[a].name).value in PairedNumbers(answerFiles, predFiles)
  {
    var an, pn := AnswerNames(answerFiles), PredictionNames(predFiles);
    NumberMapCovers(an, a);
    NumberMapCovers(pn, b);
  }

  /** Every paired number is carried by some answers file and some prediction file. */
  lemma PairedOnlyCommon(answerFiles: seq<AnswerFile>, predFiles: seq<PredictionFile>, ps: seq<Pair>, j: nat)
    requires Paired(answerFiles, predFiles) == Ok(ps) && j < |ps|
    ensures exists a, b ::
      && 0 <= a < |answerFiles| && 0 <= b < |predFiles|
      && ExtractNumber(answerFiles[a].name) == Some(PairedNumbers(answerFiles, predFiles)[j])
      && ExtractNumber(predFiles[b].name) == Some(PairedNumbers(answerFiles, predFiles)[j])
  {
    PairedFiles(answerFiles, predFiles, ps, j);
  }

  /** `main` on the answers and prediction files, each list in `sorted` order. */
  function Merge(answerFiles: seq<AnswerFile>, predFiles: seq<PredictionFile>, loads: string -> Option<Value>): Result<Merged, MergeError>
  {
    match Paired(answerFiles, predFiles)
    case Err(e) => Err(e)
    case Ok(ps) =>
      match Concat(SampleParts(ps, loads))
      case Err(e) => Err(e)
      case Ok(vs) => Ok(Merged(Numbered(vs), |vs|))
  }

  /**
   * The merged output holds exactly the keys "0" to "n-1", where `n` is the
   * number of entries of the paired answers files, and `global_idx` ends at `n`.
   */
  lemma MergedKeysContiguous(answerFiles: seq<AnswerFile>, predFiles: seq<PredictionFile>, loads: string -> Option<Value>)
    requires Merge(answerFiles, predFiles, loads).Ok?
    ensures Paired(answerFiles, predFiles).Ok?
    ensures var ps := Paired(answerFiles, predFiles).value;
      var out := Merge(answerFiles, predFiles, loads).value;
      && out.count == SizesBefore(EntryCounts(ps), |ps|)
      && out.merged.keys == Indices(out.count)
  {
    var ps := Paired(answerFiles, predFiles).value;
    SamplePartsSized(ps, loads);
    ConcatCount(SampleParts(ps, loads), EntryCounts(ps));
    NumberedKeys(Concat(SampleParts(ps, loads)).value);
  }

  /**
   * Entry `i` of the `j`-th paired sample is stored under `str` of the number of
   * entries before it, with `response` set where the predictions have its key.
   */
  lemma MergedEntryPlaced(answerFiles: seq<AnswerFile>, predFiles: seq<PredictionFile>, loads: string -> Option<Value>,
                           ps: seq<Pair>, j: nat, i: nat)
    requires Paired(answerFiles, predFiles) == Ok(ps) && Merge(answerFiles, predFiles, loads).Ok?
    requires j < |ps| && i < |ps[j].answers.answers.keys|
    ensures var out := Merge(answerFiles, predFiles, loads).value.merged;
      var key := Text.Decimal(SizesBefore(EntryCounts(ps), j) + i);
      key in out.vals && EntryMerged(ps[j].answers, ps[j].predictions, loads, i, out.vals[key])
  {
    MergedEntryAt(ps, loads, j, i);
    NumberedAt(Concat(SampleParts(ps, loads)).value, SizesBefore(EntryCounts(ps), j) + i);
  }

  /** A paired prediction whose content yields no object makes the merge fail, unless its answers file is empty. */
  lemma UnreadablePredictionsStopMerge(answerFiles: seq<AnswerFile>, predFiles: seq<PredictionFile>, loads: string -> Option<Value>,
                                       ps: seq<Pair>, j: nat)
    requires Paired(answerFiles, predFiles) == Ok(ps) && j < |ps|
    requires ps[j].answers.answers.keys != [] && ps[j].predictions.content.Some?
    requires ExtractPredictions(ps[j].predictions.content.value, loads).None?
    ensures Merge(answerFiles, predFiles, loads).Err?
  {
    UnreadablePredictionsFail(ps[j].answers, ps[j].predictions, loads);
    if Concat(SampleParts(ps, loads)).Ok? {
      SamplePartsSized(ps, loads);
      ConcatLayout(SampleParts(ps, loads), EntryCounts(ps), j);
    }
  }

  // ---------------------------------------------------------------------------
  // `main`, statement by statement

  /** Running into a failing part stops the concatenation with that part's error. */
  lemma ConcatStopsAt(parts: seq<Part>, j: nat)
    requires j < |parts| && Concat(parts[..j]).Ok? && parts[j].Err?
    ensures Concat(parts) == parts[j]
  {
    if j < |parts| - 1 {
      assert parts[..|parts| - 1][..j] == parts[..j];
      assert parts[..|parts| - 1][j] == parts[j];
      ConcatStopsAt(parts[..|parts| - 1], j);
    } else {
      assert parts[..|parts| - 1] == parts[..j];
    }
  }

  lemma ConcatSnoc(parts: seq<Part>, j: nat)
    requires j < |parts|
    ensures Concat(parts[..j + 1]) == match Concat(parts[..j])
      case Err(e) => Err(e)
      case Ok(vs) => (match parts[j] case Err(e) => Err(e) case Ok(ws) => Ok(vs + ws))
  {
    assert parts[..j + 1][..j] == parts[..j];
  }

  lemma SampleEntriesSnoc(keys: seq<string>, answers: map<string, Value>, preds: Option<Value>, name: string, i: nat)
    requires forall k :: k in keys ==> k in answers
    requires i < |keys|
    ensures forall k :: k in keys[..i + 1] ==> k in answers
    ensures SampleEntries(keys[..i + 1], answers, preds, name) == match SampleEntries(keys[..i], answers, preds, name)
      case Err(e) => Err(e)
      case Ok(vs) =>
        (match EntryFor(answers[keys[i]], keys[i], preds, name) case Ok(v) => Ok(vs + [v]) case Err(e) => Err(e))
  {
    assert forall k :: k in keys[..i + 1] ==> k in keys;
    assert keys[..i + 1][..i] == keys[..i];
  }

  lemma SampleEntriesStopsAt(keys: seq<string>, answers: map<string, Value>, preds: Option<Value>, name: string, i: nat)
    requires forall k :: k in keys ==> k in answers
    requires i < |keys|
    requires SampleEntries(keys[..i + 1], answers, preds, name).Err?
    ensures SampleEntries(keys, answers, preds, name) == SampleEntries(keys[..i + 1], answers, preds, name)
    decreases |keys|
  {
    if i + 1 < |keys| {
      var init := keys[..|keys| - 1];
      assert forall k :: k in init ==> k in keys;
      assert init[..i + 1] == keys[..i + 1];
      SampleEntriesStopsAt(init, answers, preds, name, i);
    } else {
      assert keys[..i + 1] == keys;
    }
  }

  /** One more key whose entry is built extends the entries by that entry. */
  lemma SampleEntriesStep(keys: seq<string>, answers: map<string, Value>, preds: Option<Value>, name: string,
                          i: nat, ws: seq<Value>, entry: Value)
    requires forall k :: k in keys ==> k in answers
    requires i < |keys| && SampleEntries(keys[..i], answers, preds, name) == Ok(ws)
    requires EntryFor(answers[keys[i]], keys[i], preds, name) == Ok(entry)
    ensures forall k :: k in keys[..i + 1] ==> k in answers
    ensures SampleEntries(keys[..i + 1], answers, preds, name) == Ok(ws + [entry])
  {
    SampleEntriesSnoc(keys, answers, preds, name, i);
  }

  /** One more key whose entry cannot be built stops the sample with that error. */
  lemma SampleEntriesFail(keys: seq<string>, answers: map<string, Value>, preds: Option<Value>, name: string,
                          i: nat, ws: seq<Value>, e: MergeError)
    requires forall k :: k in keys ==> k in answers
    requires i < |keys| && SampleEntries(keys[..i], answers, preds, name) == Ok(ws)
    requires EntryFor(answers[keys[i]], keys[i], preds, name) == Err(e)
    ensures SampleEntries(keys, answers, preds, name) == Err(e)
  {
    SampleEntriesSnoc(keys, answers, preds, name, i);
    SampleEntriesStopsAt(keys, answers, preds, name, i);
  }

  /** Numbering on one more entry after those of the files before and the keys so far. */
  lemma NumberedStep(prev: seq<Value>, ws: seq<Value>, out: Dicts.Dict<Value>, entry: Value)
    requires out == Numbered(prev + ws)
    ensures Dicts.Put(out, Text.Decimal(|prev + ws|), entry) == Numbered(prev + (ws + [entry]))
  {
    AppendEntry(prev, ws, entry);
    NumberedSnoc(prev + ws, entry);
  }

  lemma AppendNothing(prev: seq<Value>)
    ensures prev + [] == prev
  {
  }

  lemma AppendEntry(prev: seq<Value>, ws: seq<Value>, entry: Value)
    ensures prev + ws + [entry] == prev + (ws + [entry])
  {
  }

  lemma NumberedSnoc(vs: seq<Value>, v: Value)
    ensures Numbered(vs + [v]) == Dicts.Put(Numbered(vs), Text.Decimal(|vs|), v)
  {
    assert (vs + [v])[..|vs|] == vs;
  }

  /** What the merge holds after numbering on a part's entries from those before, or the part's error. */
  function Extended(prev: seq<Value>, part: Part): Result<(Dicts.Dict<Value>, nat), MergeError>
  {
    match part
    case Err(e) => Err(e)
    case Ok(ws) => Ok((Numbered(prev + ws), |prev + ws|))
  }

  /**
   * The body of the inner loop for one key: the answer entry, with `response`
   * set from the predictions where they have the key, stored under `str(global_idx)`.
   */
  method AddEntry(key: string, answers: map<string, Value>, predictions: Option<Value>, name: string,
                  merged: Dicts.Dict<Value>, globalIdx: nat, ghost all: seq<Value>)
    returns (r: Result<(Dicts.Dict<Value>, nat), MergeError>)
    requires key in answers
    requires merged == Numbered(all) && globalIdx == |all|
    ensures r == Extended(all, match EntryFor(answers[key], key, predictions, name)
                                 case Ok(v) => Ok([v]) case Err(e) => Err(e))
  {
    var entry := answers[key];
    if !(predictions.Some? && predictions.value.Obj?) {
      return Err(NotADict(name));
    }
    if key in predictions.value.fields {
      if !entry.Obj? {
        return Err(EntryNotADict(key));
      }
      entry := Obj(entry.fields["response" := predictions.value.fields[key]]);
    }
    NumberedSnoc(all, entry);
    return Ok((Dicts.Put(merged, Text.Decimal(globalIdx), entry), globalIdx + 1));
  }

  /** The state of the key loop after `i` keys: their entries `ws`, numbered on after `prev`. */
  ghost predicate EntriesAt(keys: seq<string>, answers: map<string, Value>, preds: Option<Value>, name: string,
                            prev: seq<Value>, i: nat, ws: seq<Value>, out: Dicts.Dict<Value>, idx: nat)
    requires forall k :: k in keys ==> k in answers
  {
    && i <= |keys|
    && SampleEntries(keys[..i], answers, preds, name) == Ok(ws)
    && out == Numbered(prev + ws) && idx == |prev + ws|
  }

  /** A key whose entry is built moves the key loop one key on. */
  lemma EntriesAdvance(keys: seq<string>, answers: map<string, Value>, preds: Option<Value>, name: string,
                       prev: seq<Value>, i: nat, ws: seq<Value>, out: Dicts.Dict<Value>, idx: nat,
                       step: Result<(Dicts.Dict<Value>, nat), MergeError>)
    requires forall k :: k in keys ==> k in answers
    requires i < |keys| && EntriesAt(keys, answers, preds, name, prev, i, ws, out, idx)
    requires step == Extended(prev + ws, match EntryFor(answers[keys[i]], keys[i], preds, name)
                                         case Ok(v) => Ok([v]) case Err(e) => Err(e))
    requires step.Ok?
    ensures EntryFor(answers[keys[i]], keys[i], preds, name).Ok?
    ensures EntriesAt(keys, answers, preds, name, prev, i + 1,
                      ws + [EntryFor(answers[keys[i]], keys[i], preds, name).value], step.value.0, step.value.1)
  {
    var entry := EntryFor(answers[keys[i]], keys[i], preds, name).value;
    SampleEntriesStep(keys, answers, preds, name, i, ws, entry);
    AppendEntry(prev, ws, entry);
  }

  /** A key whose entry fails ends the sample with that error. */
  lemma EntriesStop(keys: seq<string>, answers: map<string, Value>, preds: Option<Value>, name: string,
                    prev: seq<Value>, i: nat, ws: seq<Value>, out: Dicts.Dict<Value>, idx: nat,
                    step: Result<(Dicts.Dict<Value>, nat), MergeError>)
    requires forall k :: k in keys ==> k in answers
    requires i < |keys| && EntriesAt(keys, answers, preds, name, prev, i, ws, out, idx)
    requires step == Extended(prev + ws, match EntryFor(answers[keys[i]], keys[i], preds, name)
                                         case Ok(v) => Ok([v]) case Err(e) => Err(e))
    requires step.Err?
    ensures Extended(prev, SampleEntries(keys, answers, preds, name)) == Err(step.error)
  {
    SampleEntriesFail(keys, answers, preds, name, i, ws, step.error);
  }

  /** After the last key the merge holds the sample's entries numbered on after `prev`. */
  lemma EntriesDone(keys: seq<string>, answers: map<string, Value>, preds: Option<Value>, name: string,
                    prev: seq<Value>, ws: seq<Value>, out: Dicts.Dict<Value>, idx: nat)
    requires forall k :: k in keys ==> k in answers
    requires EntriesAt(keys, answers, preds, name, prev, |keys|, ws, out, idx)
    ensures Extended(prev, SampleEntries(keys, answers, preds, name)) == Ok((out, idx))
  {
    assert keys[..|keys|] == keys;
  }

  /** The loop over one answers file's keys, numbering each entry on from `globalIdx`. */
  method MergeEntries(keys: seq<string>, answers: map<string, Value>, predictions: Option<Value>, name: string,
                      merged: Dicts.Dict<Value>, globalIdx: nat, ghost prev: seq<Value>)
    returns (r: Result<(Dicts.Dict<Value>, nat), MergeError>)
    requires forall k :: k in keys ==> k in answers
    requires merged == Numbered(prev) && globalIdx == |prev|
    ensures r == Extended(prev, SampleEntries(keys, answers, predictions, name))
  {
    var out, idx := merged, globalIdx;
    ghost var ws: seq<Value> := [];
    AppendNothing(prev);
    var i := 0;
    while i < |keys|
      invariant EntriesAt(keys, answers, predictions, name, prev, i, ws, out, idx)
    {
      var step := AddEntry(keys[i], answers, predictions, name, out, idx, prev + ws);
      if step.Err? {
        EntriesStop(keys, answers, predictions, name, prev, i, ws, out, idx, step);
        return Err(step.error);
      }
      EntriesAdvance(keys, answers, predictions, name, prev, i, ws, out, idx, step);
      ws := ws + [EntryFor(answers[keys[i]], keys[i], predictions, name).value];
      out, idx := step.value.0, step.value.1;
      i := i + 1;
    }
    EntriesDone(keys, answers, predictions, name, prev, ws, out, idx);
    return Ok((out, idx));
  }

  /** The inner loop of `main`: the entries of one paired sample, numbered on from `globalIdx`. */
  method MergeSample(af: AnswerFile, pf: PredictionFile, loads: string -> Option<Value>,
                     merged: Dicts.Dict<Value>, globalIdx: nat, ghost prev: seq<Value>)
    returns (r: Result<(Dicts.Dict<Value>, nat), MergeError>)
    requires merged == Numbered(prev) && globalIdx == |prev|
    ensures r == Extended(prev, Sample(af, pf, loads))
  {
    Dicts.KeysListed(af.answers);
    if pf.content.None? {
      return Err(NoContent(pf.name));
    }
    var predictions := ExtractPredictions(pf.content.value, loads);
    r := MergeEntries(af.answers.keys, af.answers.vals, predictions, pf.name, merged, globalIdx, prev);
  }

  /** `main`: pair the files by number, then merge the pairs in order. */
  method MergeFiles(answerFiles: seq<AnswerFile>, predFiles: seq<PredictionFile>, loads: string -> Option<Value>)
    returns (r: Result<Merged, MergeError>)
    ensures r == Merge(answerFiles, predFiles, loads)
  {
    var paired := Paired(answerFiles, predFiles);
    if paired.Err? {
      return Err(paired.error);
    }
    var ps := paired.value;
    ghost var parts := SampleParts(ps, loads);
    var merged: Dicts.Dict<Value> := Dicts.Empty();
    var globalIdx: nat := 0;
    var j := 0;
    while j < |ps|
      invariant 0 <= j <= |ps|
      invariant Concat(parts[..j]).Ok?
      invariant merged == Numbered(Concat(parts[..j]).value) && globalIdx == |Concat(parts[..j]).value|
    {
      ghost var prev := Concat(parts[..j]).value;
      ConcatSnoc(parts, j);
      assert parts[j] == Sample(ps[j].answers, ps[j].predictions, loads);
      var step := MergeSample(ps[j].answers, ps[j].predictions, loads, merged, globalIdx, prev);
      if step.Err? {
        ConcatStopsAt(parts, j);
        return Err(step.error);
      }
      merged, globalIdx := step.value.0, step.value.1;
      j := j + 1;
    }
    assert parts[..|ps|] == parts;
    return Ok(Merged(merged, globalIdx));
  }
}
