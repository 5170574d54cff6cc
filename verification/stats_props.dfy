/** What `aggregateTotals` computes, stated against definitions written
    directly over the input records: which categories appear and in what
    order, which sub-keys appear, and what every count adds up to. */
module StatsProps {
  import opened Assoc
  import opened Stats

  // ---------------------------------------------------------------------
  // Routing: the merges a record asks for
  // ---------------------------------------------------------------------

  /** The (category, counters) merges one field asks for, in order: none for
      `time`, `temporary` then `permanent` for `failed`, its own name otherwise. */
  function FieldMerges(key: string, v: FieldValue): seq<(string, SubMap)>
  {
    if key == TimeKey then []
    else if key == FailedKey then [(TemporaryKey, TemporaryOf(v)), (PermanentKey, PermanentOf(v))]
    else [(key, CountsOf(v))]
  }

  function RecordMerges(rec: StatRecord): seq<(string, SubMap)>
    decreases |rec|
  {
    if |rec| == 0 then [] else FieldMerges(rec[0].0, rec[0].1) + RecordMerges(rec[1..])
  }

  function Merges(rs: seq<StatRecord>): seq<(string, SubMap)>
    decreases |rs|
  {
    if |rs| == 0 then [] else RecordMerges(rs[0]) + Merges(rs[1..])
  }

  /** Merge every (category, counters) pair into the totals in turn. */
  function ApplyMerges(acc: Totals, ms: seq<(string, SubMap)>): Totals
    decreases |ms|
  {
    if |ms| == 0 then acc else ApplyMerges(MergeInto(acc, ms[0].0, ms[0].1), ms[1..])
  }

  lemma {:induction false} ApplyMergesConcat(acc: Totals, a: seq<(string, SubMap)>, b: seq<(string, SubMap)>)
    ensures ApplyMerges(acc, a + b) == ApplyMerges(ApplyMerges(acc, a), b)
    decreases |a|
  {
    if |a| == 0 {
      assert a + b == b;
    } else {
      assert (a + b)[1..] == a[1..] + b;
      ApplyMergesConcat(MergeInto(acc, a[0].0, a[0].1), a[1..], b);
    }
  }

  lemma {:induction false} AggregateRecordIsApply(acc: Totals, rec: StatRecord)
    ensures AggregateRecord(acc, rec) == ApplyMerges(acc, RecordMerges(rec))
    decreases |rec|
  {
    if |rec| > 0 {
      var key, v := rec[0].0, rec[0].1;
      var fm := FieldMerges(key, v);
      assert AggregateField(acc, key, v) == ApplyMerges(acc, fm) by {
        if key == TimeKey {
        } else if key == FailedKey {
          var a1 := MergeInto(acc, TemporaryKey, TemporaryOf(v));
          var a2 := MergeInto(a1, PermanentKey, PermanentOf(v));
          assert ApplyMerges(acc, fm) == ApplyMerges(a1, fm[1..]);
          assert ApplyMerges(a1, fm[1..]) == ApplyMerges(a2, fm[1..][1..]);
          assert fm[1..][1..] == [];
        } else {
          assert ApplyMerges(acc, fm) == ApplyMerges(MergeInto(acc, key, CountsOf(v)), fm[1..]);
          assert fm[1..] == [];
        }
      }
      AggregateRecordIsApply(AggregateField(acc, key, v), rec[1..]);
      ApplyMergesConcat(acc, fm, RecordMerges(rec[1..]));
    }
  }

  /** Aggregation is the routing of every field followed by the merges. */
  lemma {:induction false} AggregateFromIsApply(acc: Totals, rs: seq<StatRecord>)
    ensures AggregateFrom(acc, rs) == ApplyMerges(acc, Merges(rs))
    decreases |rs|
  {
    if |rs| > 0 {
      AggregateRecordIsApply(acc, rs[0]);
      AggregateFromIsApply(AggregateRecord(acc, rs[0]), rs[1..]);
      ApplyMergesConcat(acc, RecordMerges(rs[0]), Merges(rs[1..]));
    }
  }

  // ---------------------------------------------------------------------
  // Categories and their order
  // ---------------------------------------------------------------------

  lemma {:induction false} ApplyMergesKeys(acc: Totals, ms: seq<(string, SubMap)>)
    ensures Keys(ApplyMerges(acc, ms)) == AddAll(Keys(acc), Keys(ms))
    decreases |ms|
  {
    if |ms| > 0 {
      ApplyMergesKeys(MergeInto(acc, ms[0].0, ms[0].1), ms[1..]);
      assert Keys(ms)[1..] == Keys(ms[1..]);
    }
  }

  /** Field `key` of a record makes `c` a category. */
  predicate FieldCreates(key: string, c: string)
  {
    key != TimeKey &&
    if key == FailedKey then c == TemporaryKey || c == PermanentKey else c == key
  }

  /** Some field of some record makes `c` a category. */
  predicate Creates(rs: seq<StatRecord>, c: string)
  {
    exists i, j :: 0 <= i < |rs| && 0 <= j < |rs[i]| && FieldCreates(rs[i][j].0, c)
  }

  lemma {:induction false} RecordMergesKeys(rec: StatRecord, c: string)
    ensures c in Keys(RecordMerges(rec)) <==> exists j :: 0 <= j < |rec| && FieldCreates(rec[j].0, c)
    decreases |rec|
  {
    if |rec| > 0 {
      RecordMergesKeys(rec[1..], c);
      KeysConcat(FieldMerges(rec[0].0, rec[0].1), RecordMerges(rec[1..]));
      if exists j :: 0 <= j < |rec| && FieldCreates(rec[j].0, c) {
        var j :| 0 <= j < |rec| && FieldCreates(rec[j].0, c);
        if j > 0 {
          assert rec[1..][j - 1] == rec[j];
        }
      }
      if exists j :: 0 <= j < |rec[1..]| && FieldCreates(rec[1..][j].0, c) {
        var j :| 0 <= j < |rec[1..]| && FieldCreates(rec[1..][j].0, c);
        assert rec[j + 1] == rec[1..][j];
      }
    }
  }

  lemma {:induction false} MergesKeys(rs: seq<StatRecord>, c: string)
    ensures c in Keys(Merges(rs)) <==> Creates(rs, c)
    decreases |rs|
  {
    if |rs| > 0 {
      MergesKeys(rs[1..], c);
      RecordMergesKeys(rs[0], c);
      KeysConcat(RecordMerges(rs[0]), Merges(rs[1..]));
      if Creates(rs, c) {
        var i, j :| 0 <= i < |rs| && 0 <= j < |rs[i]| && FieldCreates(rs[i][j].0, c);
        if i > 0 {
          assert rs[1..][i - 1] == rs[i];
        }
      }
      if Creates(rs[1..], c) {
        var i, j :| 0 <= i < |rs[1..]| && 0 <= j < |rs[1..][i]| && FieldCreates(rs[1..][i][j].0, c);
        assert rs[i + 1] == rs[1..][i];
      }
    }
  }

  /** The categories of the totals are listed in the order their first
      merge is met, `failed` contributing `temporary` then `permanent`. */
  lemma AggregateOrder(rs: seq<StatRecord>)
    ensures Keys(AggregateTotals(rs)) == AddAll([], Keys(Merges(rs)))
  {
    AggregateFromIsApply([], rs);
    ApplyMergesKeys([], Merges(rs));
  }

  lemma {:induction false} MergesConcat(a: seq<StatRecord>, b: seq<StatRecord>)
    ensures Merges(a + b) == Merges(a) + Merges(b)
    decreases |a|
  {
    if |a| == 0 {
      assert a + b == b;
    } else {
      assert (a + b)[0] == a[0] && (a + b)[1..] == a[1..] + b;
      MergesConcat(a[1..], b);
    }
  }

  /** Later records never move a category: the categories of a prefix of the
      records keep their positions at the head of the totals, and later
      records only append new ones. */
  lemma CategoriesKeepPosition(a: seq<StatRecord>, b: seq<StatRecord>)
    ensures Keys(AggregateTotals(a)) <= Keys(AggregateTotals(a + b))
    ensures Keys(AggregateTotals(a + b)) == AddAll(Keys(AggregateTotals(a)), Keys(Merges(b)))
  {
    AggregateOrder(a);
    AggregateOrder(a + b);
    MergesConcat(a, b);
    KeysConcat(Merges(a), Merges(b));
    AddAllConcat([], Keys(Merges(a)), Keys(Merges(b)));
    AddAllPrefix(Keys(AggregateTotals(a)), Keys(Merges(b)));
  }

  /** `c` is a category of the totals exactly when some field creates it. */
  lemma AggregateCategories(rs: seq<StatRecord>, c: string)
    ensures Lookup(AggregateTotals(rs), c).Some? <==> Creates(rs, c)
  {
    AggregateOrder(rs);
    AddAllMembers([], Keys(Merges(rs)));
    MergesKeys(rs, c);
  }

  /** Any record with a `failed` field promotes both halves to categories. */
  lemma FailedPromotesBoth(rs: seq<StatRecord>, i: nat, j: nat)
    requires i < |rs| && j < |rs[i]| && rs[i][j].0 == FailedKey
    ensures Lookup(AggregateTotals(rs), TemporaryKey).Some?
    ensures Lookup(AggregateTotals(rs), PermanentKey).Some?
    ensures Lookup(AggregateTotals(rs), FailedKey).None?
  {
    assert FieldCreates(rs[i][j].0, TemporaryKey) && FieldCreates(rs[i][j].0, PermanentKey);
    AggregateCategories(rs, TemporaryKey);
    AggregateCategories(rs, PermanentKey);
  }

  // ---------------------------------------------------------------------
  // The timestamp
  // ---------------------------------------------------------------------

  /** A record with its `time` fields removed. */
  function WithoutTime(rec: StatRecord): (r: StatRecord)
    ensures forall p :: p in r ==> p in rec && p.0 != TimeKey
    ensures forall p :: p in rec && p.0 != TimeKey ==> p in r
    decreases |rec|
  {
    if |rec| == 0 then []
    else if rec[0].0 == TimeKey then WithoutTime(rec[1..])
    else [rec[0]] + WithoutTime(rec[1..])
  }

  function AllWithoutTime(rs: seq<StatRecord>): (r: seq<StatRecord>)
    ensures |r| == |rs|
    decreases |rs|
  {
    if |rs| == 0 then [] else [WithoutTime(rs[0])] + AllWithoutTime(rs[1..])
  }

  lemma {:induction false} WithoutTimeMerges(rec: StatRecord)
    ensures RecordMerges(WithoutTime(rec)) == RecordMerges(rec)
    decreases |rec|
  {
    if |rec| > 0 {
      WithoutTimeMerges(rec[1..]);
      if rec[0].0 != TimeKey {
        var w := [rec[0]] + WithoutTime(rec[1..]);
        assert w[0] == rec[0] && w[1..] == WithoutTime(rec[1..]);
      }
    }
  }

  lemma {:induction false} AllWithoutTimeMerges(rs: seq<StatRecord>)
    ensures Merges(AllWithoutTime(rs)) == Merges(rs)
    decreases |rs|
  {
    if |rs| > 0 {
      var w := AllWithoutTime(rs);
      assert w[0] == WithoutTime(rs[0]) && w[1..] == AllWithoutTime(rs[1..]);
      WithoutTimeMerges(rs[0]);
      AllWithoutTimeMerges(rs[1..]);
    }
  }

  /** The `time` field contributes nothing: removing it from every record
      leaves the totals exactly as they were. */
  lemma TimeIgnored(rs: seq<StatRecord>)
    ensures AggregateTotals(AllWithoutTime(rs)) == AggregateTotals(rs)
  {
    AggregateFromIsApply([], rs);
    AggregateFromIsApply([], AllWithoutTime(rs));
    AllWithoutTimeMerges(rs);
  }

  // ---------------------------------------------------------------------
  // Shape of the totals
  // ---------------------------------------------------------------------

  /** No category and no sub-key within a category is listed twice, as in
      a JavaScript object. */
  predicate WellFormed(t: Totals)
  {
    Distinct(Keys(t)) && forall p :: p in t ==> Distinct(Keys(p.1))
  }

  lemma MergeIntoWellFormed(acc: Totals, c: string, sub: SubMap)
    requires WellFormed(acc)
    ensures WellFormed(MergeInto(acc, c, sub))
  {
    var root := Existing(acc, c);
    var cur: Option<SubMap> := Lookup(acc, c);
    if cur.Some? {
      assert (c, cur.value) in acc;
    }
    assert Distinct(Keys(root));
    AddAllDistinct(Keys(root), Keys(sub));
    PutDistinct(acc, c, MergeSub(root, sub));
  }

  lemma {:induction false} ApplyMergesWellFormed(acc: Totals, ms: seq<(string, SubMap)>)
    requires WellFormed(acc)
    ensures WellFormed(ApplyMerges(acc, ms))
    decreases |ms|
  {
    if |ms| > 0 {
      MergeIntoWellFormed(acc, ms[0].0, ms[0].1);
      ApplyMergesWellFormed(MergeInto(acc, ms[0].0, ms[0].1), ms[1..]);
    }
  }

  /** The totals never list a category or a sub-key twice, whatever the
      records repeat. */
  lemma AggregateWellFormed(rs: seq<StatRecord>)
    ensures WellFormed(AggregateTotals(rs))
  {
    AggregateFromIsApply([], rs);
    ApplyMergesWellFormed([], Merges(rs));
  }

  // ---------------------------------------------------------------------
  // A worked example
  // ---------------------------------------------------------------------

  /** A `failed` value without a `temporary` half still creates an empty
      `temporary` category, ahead of `permanent`. */
  lemma FailedWithoutTemporary()
    ensures AggregateTotals([[(FailedKey, Split([], [("x", Int(1))]))]]) ==
            [(TemporaryKey, []), (PermanentKey, [("x", Int(1))])]
  {
    var rec: StatRecord := [(FailedKey, Split([], [("x", Int(1))]))];
    var a1 := MergeInto([], TemporaryKey, []);
    assert a1 == [(TemporaryKey, [])];
    var a2 := MergeInto(a1, PermanentKey, [("x", Int(1))]);
    assert a2 == [(TemporaryKey, []), (PermanentKey, [("x", Int(1))])];
    assert AggregateField([], rec[0].0, rec[0].1) == a2;
    assert AggregateRecord([], rec) == a2 by {
      assert rec[1..] == [];
    }
    var rs := [rec];
    assert rs[0] == rec && rs[1..] == [];
    assert AggregateFrom([], rs) == AggregateFrom(AggregateRecord([], rec), []);
  }
}
