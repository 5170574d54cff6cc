/** The statistics aggregator: folds the provider's time-bucketed records
    into totals of the shape category -> sub-key -> count (index.js:29-60). */
module Stats {
  import opened Assoc
  import Decimal

  /** A leaf of a provider record. `Int` is an integer-valued number; `Text`
      is a string, the one non-integer value the model carries. */
  datatype Value = Int(n: int) | Text(s: string)

  /** One category's counters: sub-key -> value, in insertion order. */
  type SubMap = seq<(string, Value)>

  /** The aggregation result: category -> counters, in insertion order. */
  type Totals = seq<(string, SubMap)>

  /** The value of one field of a record. `Stamp` is the timestamp; `Counts`
      an ordinary category's counters; `Split` the nested `failed` value with
      its `temporary` and `permanent` counters (an absent one is empty). */
  datatype FieldValue =
    | Stamp(text: string)
    | Counts(counts: SubMap)
    | Split(temporary: SubMap, permanent: SubMap)

  /** One record of the provider's time series: field name -> value. */
  type StatRecord = seq<(string, FieldValue)>

  const TimeKey := "time"
  const FailedKey := "failed"
  const TemporaryKey := "temporary"
  const PermanentKey := "permanent"

  /** `x += v` where `x` holds the integer `a`: integer addition, or string
      concatenation when `v` is a string. */
  function Plus(a: int, v: Value): (r: Value)
    ensures r.Int? <==> v.Int?
    ensures v.Int? ==> r.n - a == v.n
  {
    match v
    case Int(b) => Int(a + b)
    case Text(s) => Text(Decimal.Show(a) + s)
  }

  /** The counters merged from a `failed` value into `temporary`. */
  function TemporaryOf(v: FieldValue): SubMap
  {
    if v.Split? then v.temporary else []
  }

  /** The counters merged from a `failed` value into `permanent`. */
  function PermanentOf(v: FieldValue): SubMap
  {
    if v.Split? then v.permanent else []
  }

  /** The counters merged from an ordinary field. */
  function CountsOf(v: FieldValue): SubMap
  {
    if v.Counts? then v.counts else []
  }

  /** The counters already held for category `c`, or `{}` (`clone(mainAcc[fieldKey]) || {}`). */
  function Existing(acc: Totals, c: string): SubMap
  {
    match Lookup(acc, c)
    case Some(m) => m
    case None => []
  }

  /** One step of `reduceField`'s loop: add to an integer, set an absent
      sub-key, leave any other existing value alone. */
  function MergeEntry(root: SubMap, k: string, v: Value): (r: SubMap)
    ensures Keys(r) == AddKey(Keys(root), k)
    ensures forall j :: j != k ==> Lookup(r, j) == Lookup(root, j)
    ensures Lookup(root, k).None? ==> Lookup(r, k) == Some(v)
    ensures Lookup(root, k).Some? && Lookup(root, k).value.Text? ==> r == root
    ensures Lookup(root, k).Some? && Lookup(root, k).value.Int? ==>
              Lookup(r, k) == Some(Plus(Lookup(root, k).value.n, v))
  {
    var cur: Option<Value> := Lookup(root, k);
    match cur
    case Some(Int(n)) => Put(root, k, Plus(n, v))
    case Some(Text(_)) => root
    case None => Put(root, k, v)
  }

  /** `reduceField`'s loop over a sub-map, entry by entry in order. */
  function MergeSub(root: SubMap, sub: SubMap): (r: SubMap)
    ensures Keys(r) == AddAll(Keys(root), Keys(sub))
    ensures forall j :: j !in Keys(sub) ==> Lookup(r, j) == Lookup(root, j)
    ensures forall j :: Lookup(root, j).Some? && Lookup(root, j).value.Text? ==>
              Lookup(r, j) == Lookup(root, j)
    decreases |sub|
  {
    if |sub| == 0 then root
    else
      var r := MergeSub(MergeEntry(root, sub[0].0, sub[0].1), sub[1..]);
      assert Keys(sub) == [sub[0].0] + Keys(sub[1..]);
      r
  }

  /** `reduceField(acc, sub, c)`: a fresh copy of the counters for `c` with
      `sub` merged in. */
  function ReduceField(acc: Totals, sub: SubMap, c: string): (r: SubMap)
    ensures Keys(r) == AddAll(Keys(Existing(acc, c)), Keys(sub))
    ensures forall j :: j !in Keys(sub) ==> Lookup(r, j) == Lookup(Existing(acc, c), j)
    ensures forall j :: Lookup(Existing(acc, c), j).Some? && Lookup(Existing(acc, c), j).value.Text? ==>
              Lookup(r, j) == Lookup(Existing(acc, c), j)
  {
    MergeSub(Existing(acc, c), sub)
  }

  /** `acc[c] = reduceField(acc, sub, c)`. Only category `c` changes, it
      gains no sub-key that `sub` lacks, and a non-integer counter in it
      stays as it was. */
  function MergeInto(acc: Totals, c: string, sub: SubMap): (r: Totals)
    ensures Keys(r) == AddKey(Keys(acc), c)
    ensures forall d :: d != c ==> Lookup(r, d) == Lookup(acc, d)
    ensures Lookup(r, c).Some?
    ensures forall j :: j !in Keys(sub) ==>
              Lookup(Existing(r, c), j) == Lookup(Existing(acc, c), j)
    ensures forall j :: Lookup(Existing(acc, c), j).Some? && Lookup(Existing(acc, c), j).value.Text? ==>
              Lookup(Existing(r, c), j) == Lookup(Existing(acc, c), j)
    ensures forall j :: j in Keys(Existing(r, c)) <==> j in Keys(Existing(acc, c)) || j in Keys(sub)
  {
    var merged := ReduceField(acc, sub, c);
    AddAllMembers(Keys(Existing(acc, c)), Keys(sub));
    Put(acc, c, merged)
  }

  /** The body of `aggregateTotals`' inner loop for one field: `time` is
      skipped, `failed` is merged into `temporary` and `permanent`, any
      other field into its own category. No other category changes and
      none is removed. */
  function AggregateField(acc: Totals, key: string, v: FieldValue): (r: Totals)
    ensures key == TimeKey ==> r == acc
    ensures key != TimeKey && key != FailedKey ==> Lookup(r, key).Some?
    ensures key == FailedKey ==> Lookup(r, TemporaryKey).Some? && Lookup(r, PermanentKey).Some?
    ensures forall d :: d != key && d != TemporaryKey && d != PermanentKey ==> Lookup(r, d) == Lookup(acc, d)
    ensures key != FailedKey ==> forall d :: d != key ==> Lookup(r, d) == Lookup(acc, d)
    ensures forall d :: Lookup(acc, d).Some? ==> Lookup(r, d).Some?
    ensures Lookup(acc, FailedKey).None? ==> Lookup(r, FailedKey).None?
    ensures Lookup(acc, TimeKey).None? ==> Lookup(r, TimeKey).None?
  {
    if key == TimeKey then acc
    else if key == FailedKey then
      assert FailedKey != TemporaryKey && FailedKey != PermanentKey;
      assert TimeKey != TemporaryKey && TimeKey != PermanentKey;
      MergeInto(MergeInto(acc, TemporaryKey, TemporaryOf(v)), PermanentKey, PermanentOf(v))
    else MergeInto(acc, key, CountsOf(v))
  }

  /** All fields of one record, in order. */
  function AggregateRecord(acc: Totals, rec: StatRecord): (r: Totals)
    ensures forall d :: Lookup(acc, d).Some? ==> Lookup(r, d).Some?
    ensures Lookup(acc, FailedKey).None? ==> Lookup(r, FailedKey).None?
    ensures Lookup(acc, TimeKey).None? ==> Lookup(r, TimeKey).None?
    decreases |rec|
  {
    if |rec| == 0 then acc
    else AggregateRecord(AggregateField(acc, rec[0].0, rec[0].1), rec[1..])
  }

  /** The `reduce` over records, from a given accumulator: a category once
      created is never removed, and `failed` and `time` are never created. */
  function AggregateFrom(acc: Totals, rs: seq<StatRecord>): (r: Totals)
    ensures forall d :: Lookup(acc, d).Some? ==> Lookup(r, d).Some?
    ensures Lookup(acc, FailedKey).None? ==> Lookup(r, FailedKey).None?
    ensures Lookup(acc, TimeKey).None? ==> Lookup(r, TimeKey).None?
    decreases |rs|
  {
    if |rs| == 0 then acc else AggregateFrom(AggregateRecord(acc, rs[0]), rs[1..])
  }

  /** `aggregateTotals(stats)`: no record gives no categories, and neither
      `time` nor `failed` ever becomes a category. */
  function AggregateTotals(rs: seq<StatRecord>): (r: Totals)
    ensures |rs| == 0 ==> r == []
    ensures Lookup(r, FailedKey).None?
    ensures Lookup(r, TimeKey).None?
  {
    AggregateFrom([], rs)
  }
}
