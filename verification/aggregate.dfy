/**
 * The report both scoring scripts compute with pandas at the end of a run:
 * `df.groupby("category")` means of `bleu_score`, `f1_score` and `llm_score`, the
 * group sizes, and the overall means of the three columns. Means are kept as a
 * sum and a number of numeric cells; the division and rounding are left to `Mean`.
 */
module Aggregate {
  import opened Wrappers
  import opened Json
  import Dicts

  /** How pandas reads one cell: a number, a missing value (NaN, skipped by `mean`), or neither. */
  datatype Cell = Num(x: real) | Missing | NotNumeric

  /** The running sum and count of the numeric cells of one column. */
  datatype Column = Column(sum: real, n: nat)

  /** What the report holds for a set of rows: their number and the three columns. */
  datatype Stats = Stats(count: nat, bleu: Column, f1: Column, llm: Column)

  datatype Report = Report(groups: map<real, Stats>, overall: Stats)

  datatype AggError =
    | MissingColumn(name: string)     // KeyError: no record has the field
    | CategoryNotNumeric              // ValueError from pd.to_numeric
    | ScoreNotNumeric(name: string)   // TypeError from mean over an object column

  const ScoreFields: seq<string> := ["bleu_score", "f1_score", "llm_score"]

  /** `pd.to_numeric` on a category value; `parseFloat` reads a numeric string. */
  function CategoryCell(rec: Record, parseFloat: string -> Option<real>): Cell
  {
    if "category" !in rec then Missing
    else match rec["category"]
      case Null => Missing
      case Bool(b) => Num(if b then 1.0 else 0.0)
      case Int(i) => Num(i as real)
      case Real(x) => Num(x)
      case Str(s) => (match parseFloat(s) case Some(x) => Num(x) case None => NotNumeric)
      case _ => NotNumeric
  }

  /** A score cell as `mean` reads it: numbers count, `None` and absent fields are skipped. */
  function ScoreCell(rec: Record, field: string): Cell
  {
    if field !in rec then Missing
    else match rec[field]
      case Null => Missing
      case Bool(b) => Num(if b then 1.0 else 0.0)
      case Int(i) => Num(i as real)
      case Real(x) => Num(x)
      case _ => NotNumeric
  }

  function AddCell(c: Column, cell: Cell): Column
  {
    if cell.Num? then Column(c.sum + cell.x, c.n + 1) else c
  }

  const NoRows: Stats := Stats(0, Column(0.0, 0), Column(0.0, 0), Column(0.0, 0))

  function AddRow(st: Stats, rec: Record): Stats
  {
    Stats(st.count + 1,
          AddCell(st.bleu, ScoreCell(rec, "bleu_score")),
          AddCell(st.f1, ScoreCell(rec, "f1_score")),
          AddCell(st.llm, ScoreCell(rec, "llm_score")))
  }

  /** The statistics of a list of rows, each row counted once. */
  function Tally(recs: seq<Record>): (st: Stats)
    ensures st.count == |recs|
    ensures st.bleu.n <= |recs| && st.f1.n <= |recs| && st.llm.n <= |recs|
  {
    if recs == [] then NoRows else AddRow(Tally(recs[..|recs| - 1]), recs[|recs| - 1])
  }

  /** The rows whose category reads as the number `c`. */
  function InCategory(recs: seq<Record>, c: real, parseFloat: string -> Option<real>): (rs: seq<Record>)
    ensures |rs| <= |recs|
  {
    if recs == [] then []
    else
      var rest := InCategory(recs[..|recs| - 1], c, parseFloat);
      var r := recs[|recs| - 1];
      if CategoryCell(r, parseFloat) == Num(c) then rest + [r] else rest
  }

  /** `groupby("category")`, one pass over the rows; rows with a missing category form no group. */
  function Groups(recs: seq<Record>, parseFloat: string -> Option<real>): map<real, Stats>
  {
    if recs == [] then map[]
    else
      var g := Groups(recs[..|recs| - 1], parseFloat);
      var r := recs[|recs| - 1];
      match CategoryCell(r, parseFloat)
      case Num(c) => g[c := AddRow(if c in g then g[c] else NoRows, r)]
      case _ => g
  }

  /** Each group holds exactly the statistics of the rows of its category. */
  lemma {:induction false} GroupIsTallyOfCategory(recs: seq<Record>, c: real, parseFloat: string -> Option<real>)
    ensures c in Groups(recs, parseFloat) <==> InCategory(recs, c, parseFloat) != []
    ensures c in Groups(recs, parseFloat) ==>
      Groups(recs, parseFloat)[c] == Tally(InCategory(recs, c, parseFloat))
  {
    if recs != [] {
      var init := recs[..|recs| - 1];
      GroupIsTallyOfCategory(init, c, parseFloat);
      var rest := InCategory(init, c, parseFloat);
      if CategoryCell(recs[|recs| - 1], parseFloat) == Num(c) {
        assert (rest + [recs[|recs| - 1]])[..|rest|] == rest;
      }
    }
  }

  predicate AnyHas(recs: seq<Record>, field: string)
  {
    exists i :: 0 <= i < |recs| && field in recs[i]
  }

  function FindMissingColumn(recs: seq<Record>, fields: seq<string>): (r: Option<string>)
    ensures r.Some? ==> r.value in fields && !AnyHas(recs, r.value)
    ensures r.None? ==> forall f :: f in fields ==> AnyHas(recs, f)
  {
    if fields == [] then None
    else if exists i :: 0 <= i < |recs| && fields[0] in recs[i] then FindMissingColumn(recs, fields[1..])
    else Some(fields[0])
  }

  function FirstNotNumericScore(recs: seq<Record>, fields: seq<string>): (r: Option<string>)
    ensures r.Some? ==> r.value in fields && exists i :: 0 <= i < |recs| && ScoreCell(recs[i], r.value) == NotNumeric
    ensures r.None? ==> forall f, i :: f in fields && 0 <= i < |recs| ==> ScoreCell(recs[i], f) != NotNumeric
  {
    if fields == [] then None
    else if exists i :: 0 <= i < |recs| && ScoreCell(recs[i], fields[0]) == NotNumeric then Some(fields[0])
    else
      assert forall f :: f in fields ==> f == fields[0] || f in fields[1..];
      FirstNotNumericScore(recs, fields[1..])
  }

  /**
   * The report over `list(local_results.values())`, with the errors in the order
   * pandas raises them: no `category` column (`df["category"]`), a category
   * `to_numeric` rejects, a score column no row has (`agg`), then a score column
   * holding text (`mean`).
   */
  function AggregateRows(recs: seq<Record>, parseFloat: string -> Option<real>): (r: Result<Report, AggError>)
    ensures r.Ok? ==> r.value.overall == Tally(recs) && r.value.groups == Groups(recs, parseFloat)
    ensures r.Ok? ==> forall c :: c in r.value.groups ==> r.value.groups[c] == Tally(InCategory(recs, c, parseFloat))
    ensures r.Ok? <==> (forall f :: f in ["category"] + ScoreFields ==> AnyHas(recs, f))
                       && (forall i :: 0 <= i < |recs| ==> CategoryCell(recs[i], parseFloat) != NotNumeric)
                       && (forall f, i :: f in ScoreFields && 0 <= i < |recs| ==> ScoreCell(recs[i], f) != NotNumeric)
  {
    if !AnyHas(recs, "category") then Err(MissingColumn("category"))
    else if exists i :: 0 <= i < |recs| && CategoryCell(recs[i], parseFloat) == NotNumeric then Err(CategoryNotNumeric)
    else match FindMissingColumn(recs, ScoreFields)
      case Some(f) => Err(MissingColumn(f))
      case None =>
        assert forall f :: f in ["category"] + ScoreFields ==> f == "category" || f in ScoreFields;
        match FirstNotNumericScore(recs, ScoreFields)
        case Some(f) => Err(ScoreNotNumeric(f))
        case None =>
          var rep := Report(Groups(recs, parseFloat), Tally(recs));
          assert forall c :: c in rep.groups ==> rep.groups[c] == Tally(InCategory(recs, c, parseFloat)) by {
            forall c | c in rep.groups ensures rep.groups[c] == Tally(InCategory(recs, c, parseFloat)) {
              GroupIsTallyOfCategory(recs, c, parseFloat);
            }
          }
          Ok(rep)
  }

  /**
   * `pd.to_numeric(df["category"])` runs before `agg`: a category it rejects is the
   * error whenever the rows have a `category` column, whatever the score columns.
   */
  lemma CategoryCheckedFirst(recs: seq<Record>, parseFloat: string -> Option<real>)
    ensures AggregateRows(recs, parseFloat) == Err(CategoryNotNumeric) <==>
      AnyHas(recs, "category") && exists i :: 0 <= i < |recs| && CategoryCell(recs[i], parseFloat) == NotNumeric
    ensures AggregateRows(recs, parseFloat) == Err(MissingColumn("category")) <==> !AnyHas(recs, "category")
  {
  }

  /** The report fails on a score column only where some row has a cell of it that is not numeric. */
  lemma ScoreErrorHasCell(recs: seq<Record>, parseFloat: string -> Option<real>, f: string)
    requires AggregateRows(recs, parseFloat) == Err(ScoreNotNumeric(f))
    ensures exists i :: 0 <= i < |recs| && ScoreCell(recs[i], f) == NotNumeric
  {
  }

  /** A row with a score cell that is not numeric makes the report fail. */
  lemma NotNumericCellFails(recs: seq<Record>, parseFloat: string -> Option<real>, f: string, i: nat)
    requires f in ScoreFields && i < |recs| && ScoreCell(recs[i], f) == NotNumeric
    ensures AggregateRows(recs, parseFloat).Err?
  {
  }

  /** A mean as pandas reports it before rounding; `None` for NaN (no numeric cell). */
  function Mean(c: Column): Option<real>
  {
    if c.n == 0 then None else Some(c.sum / c.n as real)
  }

  /** The keys of the store whose record falls in category `c`. */
  ghost function CategoryKeys(store: Dicts.Dict<Record>, c: real, parseFloat: string -> Option<real>): set<string>
  {
    set k | k in store.vals && CategoryCell(store.vals[k], parseFloat) == Num(c)
  }

  /** The keys of `keys` whose record falls in category `c`. */
  ghost function KeysInCategory(keys: seq<string>, vals: map<string, Record>, c: real, parseFloat: string -> Option<real>): set<string>
    requires forall k :: k in keys ==> k in vals
  {
    set k | k in keys && CategoryCell(vals[k], parseFloat) == Num(c)
  }

  /** Adding a key not seen before adds it to its category's keys and to no other. */
  lemma KeysInCategorySnoc(keys: seq<string>, vals: map<string, Record>, c: real, parseFloat: string -> Option<real>)
    requires Dicts.Distinct(keys) && keys != []
    requires forall k :: k in keys ==> k in vals
    ensures forall k :: k in keys[..|keys| - 1] ==> k in vals
    ensures |KeysInCategory(keys, vals, c, parseFloat)|
            == |KeysInCategory(keys[..|keys| - 1], vals, c, parseFloat)|
               + (if CategoryCell(vals[keys[|keys| - 1]], parseFloat) == Num(c) then 1 else 0)
  {
    var init := keys[..|keys| - 1];
    var last := keys[|keys| - 1];
    assert forall k :: k in init ==> k in keys;
    Dicts.DistinctAt(keys, |keys| - 1);
    var before := KeysInCategory(init, vals, c, parseFloat);
    var after := KeysInCategory(keys, vals, c, parseFloat);
    assert keys == init + [last];
    if CategoryCell(vals[last], parseFloat) == Num(c) {
      assert after == before + {last};
    } else {
      assert after == before;
    }
  }

  lemma {:induction false} CountOverKeys(keys: seq<string>, vals: map<string, Record>, c: real, parseFloat: string -> Option<real>)
    requires Dicts.Distinct(keys)
    requires forall k :: k in keys ==> k in vals
    ensures |InCategory(Dicts.ValuesAt(keys, vals), c, parseFloat)| == |KeysInCategory(keys, vals, c, parseFloat)|
  {
    if keys != [] {
      var init := keys[..|keys| - 1];
      var recs := Dicts.ValuesAt(keys, vals);
      assert recs[..|recs| - 1] == Dicts.ValuesAt(init, vals);
      assert Dicts.Distinct(init);
      KeysInCategorySnoc(keys, vals, c, parseFloat);
      CountOverKeys(init, vals, c, parseFloat);
    }
  }

  /** Over a store, the keys listed in a category are the stored keys in that category. */
  lemma StoreKeysInCategory(store: Dicts.Dict<Record>, c: real, parseFloat: string -> Option<real>)
    ensures forall k :: k in store.keys ==> k in store.vals
    ensures KeysInCategory(store.keys, store.vals, c, parseFloat) == CategoryKeys(store, c, parseFloat)
  {
    Dicts.KeysListed(store);
  }

  /** `count` per category is the number of stored records with that category. */
  lemma CountIsRecordsInCategory(store: Dicts.Dict<Record>, c: real, parseFloat: string -> Option<real>)
    ensures var groups := Groups(Dicts.Values(store), parseFloat);
            (c in groups <==> CategoryKeys(store, c, parseFloat) != {})
            && (c in groups ==> groups[c].count == |CategoryKeys(store, c, parseFloat)|)
  {
    var recs := Dicts.Values(store);
    StoreKeysInCategory(store, c, parseFloat);
    CountOverKeys(store.keys, store.vals, c, parseFloat);
    GroupIsTallyOfCategory(recs, c, parseFloat);
    var keys := CategoryKeys(store, c, parseFloat);
    assert |InCategory(recs, c, parseFloat)| == |keys|;
    assert keys != {} <==> |keys| > 0;
  }

  /** The overall row counts every stored record once. */
  lemma OverallCountsEveryRecord(store: Dicts.Dict<Record>)
    ensures Tally(Dicts.Values(store)).count == |store.vals|
  {
    assert |store.vals| == |store.vals.Keys|;
    assert store.vals.Keys == set k | k in store.keys;
    Dicts.DistinctCard(store.keys);
  }
}
