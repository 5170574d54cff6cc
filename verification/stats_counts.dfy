/** Sub-keys and counts of the totals: a sub-key appears exactly when some
    field routes it to the category, and with integer inputs its count is
    the sum of every routed count, independent of record order. */
module StatsCounts {
  import opened Assoc
  import opened Stats
  import opened StatsProps

  // ---------------------------------------------------------------------
  // Reference definitions over the input records
  // ---------------------------------------------------------------------

  /** Field `key` routes sub-key `k` to category `c`. */
  predicate FieldMentions(key: string, v: FieldValue, c: string, k: string)
  {
    if key == TimeKey then false
    else if key == FailedKey then
      (c == TemporaryKey && k in Keys(TemporaryOf(v))) || (c == PermanentKey && k in Keys(PermanentOf(v)))
    else key == c && k in Keys(CountsOf(v))
  }

  /** Some field of some record routes sub-key `k` to category `c`. */
  predicate Mentions(rs: seq<StatRecord>, c: string, k: string)
  {
    exists i, j :: 0 <= i < |rs| && 0 <= j < |rs[i]| && FieldMentions(rs[i][j].0, rs[i][j].1, c, k)
  }

  /** The sum of the integer counts under sub-key `k` in one sub-map. */
  function SumKey(sub: SubMap, k: string): int
    decreases |sub|
  {
    if |sub| == 0 then 0
    else (if sub[0].0 == k && sub[0].1.Int? then sub[0].1.n else 0) + SumKey(sub[1..], k)
  }

  /** What field `key` contributes to the count of `k` in category `c`. */
  function FieldCount(key: string, v: FieldValue, c: string, k: string): int
  {
    if key == TimeKey then 0
    else if key == FailedKey then
      (if c == TemporaryKey then SumKey(TemporaryOf(v), k) else 0) +
      (if c == PermanentKey then SumKey(PermanentOf(v), k) else 0)
    else if key == c then SumKey(CountsOf(v), k)
    else 0
  }

  function RecordCount(rec: StatRecord, c: string, k: string): int
    decreases |rec|
  {
    if |rec| == 0 then 0 else FieldCount(rec[0].0, rec[0].1, c, k) + RecordCount(rec[1..], c, k)
  }

  /** The expected total of `k` in category `c` over all records. */
  function Total(rs: seq<StatRecord>, c: string, k: string): int
    decreases |rs|
  {
    if |rs| == 0 then 0 else RecordCount(rs[0], c, k) + Total(rs[1..], c, k)
  }

  /** Every counter in a sub-map is an integer. */
  predicate IntSub(s: SubMap)
  {
    forall p :: p in s ==> p.1.Int?
  }

  /** Every counter of every category is an integer. */
  predicate IntTotals(t: seq<(string, SubMap)>)
  {
    forall p :: p in t ==> IntSub(p.1)
  }

  predicate IntField(v: FieldValue)
  {
    match v
    case Stamp(_) => true
    case Counts(s) => IntSub(s)
    case Split(t, p) => IntSub(t) && IntSub(p)
  }

  /** Every counter in every record is an integer. */
  predicate IntRecords(rs: seq<StatRecord>)
  {
    forall i, j :: 0 <= i < |rs| && 0 <= j < |rs[i]| ==> IntField(rs[i][j].1)
  }

  /** The integer count held for `k` in a sub-map, zero when absent. */
  function SubCount(s: SubMap, k: string): int
  {
    var cur: Option<Value> := Lookup(s, k);
    match cur
    case Some(Int(n)) => n
    case _ => 0
  }

  /** The integer count held for `k` in category `c`, zero when absent. */
  function Count(t: Totals, c: string, k: string): int
  {
    SubCount(Existing(t, c), k)
  }

  // ---------------------------------------------------------------------
  // Sub-keys
  // ---------------------------------------------------------------------

  /** Some merge in `ms` routes `k` to `c`. */
  predicate MentionedIn(ms: seq<(string, SubMap)>, c: string, k: string)
  {
    exists i :: 0 <= i < |ms| && ms[i].0 == c && k in Keys(ms[i].1)
  }

  lemma {:induction false} ApplyMergesSubKeys(acc: Totals, ms: seq<(string, SubMap)>, c: string, k: string)
    ensures k in Keys(Existing(ApplyMerges(acc, ms), c)) <==>
            k in Keys(Existing(acc, c)) || MentionedIn(ms, c, k)
    decreases |ms|
  {
    if |ms| > 0 {
      var next := MergeInto(acc, ms[0].0, ms[0].1);
      ApplyMergesSubKeys(next, ms[1..], c, k);
      if ms[0].0 != c {
        assert Existing(next, c) == Existing(acc, c);
      }
      if MentionedIn(ms, c, k) {
        var i :| 0 <= i < |ms| && ms[i].0 == c && k in Keys(ms[i].1);
        if i > 0 {
          assert ms[1..][i - 1] == ms[i];
        }
      }
      if MentionedIn(ms[1..], c, k) {
        var i :| 0 <= i < |ms[1..]| && ms[1..][i].0 == c && k in Keys(ms[1..][i].1);
        assert ms[i + 1] == ms[1..][i];
      }
    }
  }

  lemma MentionedInConcat(a: seq<(string, SubMap)>, b: seq<(string, SubMap)>, c: string, k: string)
    ensures MentionedIn(a + b, c, k) <==> MentionedIn(a, c, k) || MentionedIn(b, c, k)
  {
    var all := a + b;
    if MentionedIn(all, c, k) {
      var i :| 0 <= i < |all| && all[i].0 == c && k in Keys(all[i].1);
      if i >= |a| {
        assert b[i - |a|] == all[i];
      }
    }
    if MentionedIn(b, c, k) {
      var i :| 0 <= i < |b| && b[i].0 == c && k in Keys(b[i].1);
      assert all[i + |a|] == b[i];
    }
    if MentionedIn(a, c, k) {
      var i :| 0 <= i < |a| && a[i].0 == c && k in Keys(a[i].1);
      assert all[i] == a[i];
    }
  }

  lemma FieldMergesMentioned(key: string, v: FieldValue, c: string, k: string)
    ensures MentionedIn(FieldMerges(key, v), c, k) <==> FieldMentions(key, v, c, k)
  {
    var fm := FieldMerges(key, v);
    if key == FailedKey {
      assert fm[0] == (TemporaryKey, TemporaryOf(v)) && fm[1] == (PermanentKey, PermanentOf(v));
    } else if key != TimeKey {
      assert fm[0] == (key, CountsOf(v));
    }
  }

  /** Some field of `rec` routes `k` to `c`. */
  predicate RecordMentions(rec: StatRecord, c: string, k: string)
  {
    exists j :: 0 <= j < |rec| && FieldMentions(rec[j].0, rec[j].1, c, k)
  }

  lemma RecordMentionsUnfold(rec: StatRecord, c: string, k: string)
    requires |rec| > 0
    ensures RecordMentions(rec, c, k) <==>
            FieldMentions(rec[0].0, rec[0].1, c, k) || RecordMentions(rec[1..], c, k)
  {
    if RecordMentions(rec, c, k) {
      var j :| 0 <= j < |rec| && FieldMentions(rec[j].0, rec[j].1, c, k);
      if j > 0 {
        assert rec[1..][j - 1] == rec[j];
      }
    }
    if RecordMentions(rec[1..], c, k) {
      var j :| 0 <= j < |rec[1..]| && FieldMentions(rec[1..][j].0, rec[1..][j].1, c, k);
      assert rec[j + 1] == rec[1..][j];
    }
  }

  lemma MentionsUnfold(rs: seq<StatRecord>, c: string, k: string)
    requires |rs| > 0
    ensures Mentions(rs, c, k) <==> RecordMentions(rs[0], c, k) || Mentions(rs[1..], c, k)
  {
    if Mentions(rs, c, k) {
      var i, j :| 0 <= i < |rs| && 0 <= j < |rs[i]| && FieldMentions(rs[i][j].0, rs[i][j].1, c, k);
      if i > 0 {
        assert rs[1..][i - 1] == rs[i];
      }
    }
    if Mentions(rs[1..], c, k) {
      var i, j :| 0 <= i < |rs[1..]| && 0 <= j < |rs[1..][i]| && FieldMentions(rs[1..][i][j].0, rs[1..][i][j].1, c, k);
      assert rs[i + 1] == rs[1..][i];
    }
    if RecordMentions(rs[0], c, k) {
      var j :| 0 <= j < |rs[0]| && FieldMentions(rs[0][j].0, rs[0][j].1, c, k);
      assert 0 <= 0 < |rs| && 0 <= j < |rs[0]| && FieldMentions(rs[0][j].0, rs[0][j].1, c, k);
    }
  }

  lemma {:induction false} RecordMergesMentioned(rec: StatRecord, c: string, k: string)
    ensures MentionedIn(RecordMerges(rec), c, k) <==> RecordMentions(rec, c, k)
    decreases |rec|
  {
    if |rec| > 0 {
      RecordMergesMentioned(rec[1..], c, k);
      FieldMergesMentioned(rec[0].0, rec[0].1, c, k);
      MentionedInConcat(FieldMerges(rec[0].0, rec[0].1), RecordMerges(rec[1..]), c, k);
      RecordMentionsUnfold(rec, c, k);
    }
  }

  lemma {:induction false} MergesMentioned(rs: seq<StatRecord>, c: string, k: string)
    ensures MentionedIn(Merges(rs), c, k) <==> Mentions(rs, c, k)
    decreases |rs|
  {
    if |rs| > 0 {
      MergesMentioned(rs[1..], c, k);
      RecordMergesMentioned(rs[0], c, k);
      MentionedInConcat(RecordMerges(rs[0]), Merges(rs[1..]), c, k);
      MentionsUnfold(rs, c, k);
    }
  }

  /** A sub-key appears under a category exactly when some field routes it
      there: nothing is zero-filled and nothing is dropped. */
  lemma AggregateSubKeys(rs: seq<StatRecord>, c: string, k: string)
    ensures k in Keys(Existing(AggregateTotals(rs), c)) <==> Mentions(rs, c, k)
  {
    AggregateFromIsApply([], rs);
    ApplyMergesSubKeys([], Merges(rs), c, k);
    MergesMentioned(rs, c, k);
  }

  // ---------------------------------------------------------------------
  // Counts
  // ---------------------------------------------------------------------

  lemma MergeEntryCount(root: SubMap, k: string, v: Value, j: string)
    requires IntSub(root) && v.Int?
    ensures IntSub(MergeEntry(root, k, v))
    ensures SubCount(MergeEntry(root, k, v), j) == SubCount(root, j) + (if j == k then v.n else 0)
  {
    var cur: Option<Value> := Lookup(root, k);
    if cur.Some? {
      assert (k, cur.value) in root;
    }
  }

  lemma {:induction false} MergeSubCount(root: SubMap, sub: SubMap, j: string)
    requires IntSub(root) && IntSub(sub)
    ensures IntSub(MergeSub(root, sub))
    ensures SubCount(MergeSub(root, sub), j) == SubCount(root, j) + SumKey(sub, j)
    decreases |sub|
  {
    if |sub| > 0 {
      assert sub[0] in sub;
      assert forall p :: p in sub[1..] ==> p in sub;
      var next := MergeEntry(root, sub[0].0, sub[0].1);
      MergeEntryCount(root, sub[0].0, sub[0].1, j);
      MergeSubCount(next, sub[1..], j);
    }
  }

  lemma ExistingInt(t: Totals, c: string)
    requires IntTotals(t)
    ensures IntSub(Existing(t, c))
  {
    var cur: Option<SubMap> := Lookup(t, c);
    if cur.Some? {
      assert (c, cur.value) in t;
    }
  }

  lemma MergeIntoCount(acc: Totals, c: string, sub: SubMap, d: string, k: string)
    requires IntTotals(acc) && IntSub(sub)
    ensures IntTotals(MergeInto(acc, c, sub))
    ensures Count(MergeInto(acc, c, sub), d, k) == Count(acc, d, k) + (if d == c then SumKey(sub, k) else 0)
  {
    ExistingInt(acc, c);
    MergeSubCount(Existing(acc, c), sub, k);
    var r := MergeInto(acc, c, sub);
    assert Existing(r, c) == MergeSub(Existing(acc, c), sub);
    if d != c {
      assert Existing(r, d) == Existing(acc, d);
    }
  }

  /** The sum over the merges into `c` of the counts under `k`. */
  function SumFor(ms: seq<(string, SubMap)>, c: string, k: string): int
    decreases |ms|
  {
    if |ms| == 0 then 0
    else (if ms[0].0 == c then SumKey(ms[0].1, k) else 0) + SumFor(ms[1..], c, k)
  }

  lemma {:induction false} ApplyMergesCount(acc: Totals, ms: seq<(string, SubMap)>, c: string, k: string)
    requires IntTotals(acc) && IntTotals(ms)
    ensures IntTotals(ApplyMerges(acc, ms))
    ensures Count(ApplyMerges(acc, ms), c, k) == Count(acc, c, k) + SumFor(ms, c, k)
    decreases |ms|
  {
    if |ms| > 0 {
      assert ms[0] in ms;
      assert forall p :: p in ms[1..] ==> p in ms;
      MergeIntoCount(acc, ms[0].0, ms[0].1, c, k);
      ApplyMergesCount(MergeInto(acc, ms[0].0, ms[0].1), ms[1..], c, k);
    }
  }

  lemma {:induction false} SumForConcat(a: seq<(string, SubMap)>, b: seq<(string, SubMap)>, c: string, k: string)
    ensures SumFor(a + b, c, k) == SumFor(a, c, k) + SumFor(b, c, k)
    decreases |a|
  {
    if |a| == 0 {
      assert a + b == b;
    } else {
      assert (a + b)[1..] == a[1..] + b;
      SumForConcat(a[1..], b, c, k);
    }
  }

  lemma FieldMergesSum(key: string, v: FieldValue, c: string, k: string)
    ensures SumFor(FieldMerges(key, v), c, k) == FieldCount(key, v, c, k)
  {
    var fm := FieldMerges(key, v);
    if key == FailedKey {
      assert fm[0] == (TemporaryKey, TemporaryOf(v)) && fm[1] == (PermanentKey, PermanentOf(v));
      assert fm[1..][0] == fm[1] && fm[1..][1..] == [];
      assert SumFor(fm[1..], c, k) == (if PermanentKey == c then SumKey(PermanentOf(v), k) else 0);
    } else if key != TimeKey {
      assert fm[1..] == [];
    }
  }

  lemma {:induction false} RecordMergesSum(rec: StatRecord, c: string, k: string)
    ensures SumFor(RecordMerges(rec), c, k) == RecordCount(rec, c, k)
    decreases |rec|
  {
    if |rec| > 0 {
      RecordMergesSum(rec[1..], c, k);
      FieldMergesSum(rec[0].0, rec[0].1, c, k);
      SumForConcat(FieldMerges(rec[0].0, rec[0].1), RecordMerges(rec[1..]), c, k);
    }
  }

  lemma {:induction false} MergesSum(rs: seq<StatRecord>, c: string, k: string)
    ensures SumFor(Merges(rs), c, k) == Total(rs, c, k)
    decreases |rs|
  {
    if |rs| > 0 {
      MergesSum(rs[1..], c, k);
      RecordMergesSum(rs[0], c, k);
      SumForConcat(RecordMerges(rs[0]), Merges(rs[1..]), c, k);
    }
  }

  lemma {:induction false} RecordMergesInt(rec: StatRecord)
    requires forall j :: 0 <= j < |rec| ==> IntField(rec[j].1)
    ensures IntTotals(RecordMerges(rec))
    decreases |rec|
  {
    if |rec| > 0 {
      assert forall j :: 0 <= j < |rec[1..]| ==> rec[1..][j] == rec[j + 1];
      RecordMergesInt(rec[1..]);
      assert IntField(rec[0].1);
      assert IntTotals(FieldMerges(rec[0].0, rec[0].1));
    }
  }

  lemma {:induction false} MergesInt(rs: seq<StatRecord>)
    requires IntRecords(rs)
    ensures IntTotals(Merges(rs))
    decreases |rs|
  {
    if |rs| > 0 {
      assert forall i :: 0 <= i < |rs[1..]| ==> rs[1..][i] == rs[i + 1];
      MergesInt(rs[1..]);
      RecordMergesInt(rs[0]);
    }
  }

  /** With integer counters throughout, every sub-key present under a
      category holds the sum of every count routed to it, and a sub-key
      routed nowhere is absent. */
  lemma AggregateCounts(rs: seq<StatRecord>, c: string, k: string)
    requires IntRecords(rs)
    ensures Lookup(Existing(AggregateTotals(rs), c), k) ==
            if Mentions(rs, c, k) then Some(Int(Total(rs, c, k))) else None
  {
    AggregateFromIsApply([], rs);
    MergesInt(rs);
    ApplyMergesCount([], Merges(rs), c, k);
    MergesSum(rs, c, k);
    AggregateSubKeys(rs, c, k);
    var t := AggregateTotals(rs);
    ExistingInt(t, c);
    var cur: Option<Value> := Lookup(Existing(t, c), k);
    if cur.Some? {
      assert (k, cur.value) in Existing(t, c);
    }
  }

  // ---------------------------------------------------------------------
  // Record order
  // ---------------------------------------------------------------------

  lemma {:induction false} TotalConcat(a: seq<StatRecord>, b: seq<StatRecord>, c: string, k: string)
    ensures Total(a + b, c, k) == Total(a, c, k) + Total(b, c, k)
    decreases |a|
  {
    if |a| == 0 {
      assert a + b == b;
    } else {
      assert (a + b)[1..] == a[1..] + b;
      TotalConcat(a[1..], b, c, k);
    }
  }

  lemma MentionsConcat(a: seq<StatRecord>, b: seq<StatRecord>, c: string, k: string)
    ensures Mentions(a + b, c, k) <==> Mentions(a, c, k) || Mentions(b, c, k)
  {
    var all := a + b;
    if Mentions(all, c, k) {
      var i, j :| 0 <= i < |all| && 0 <= j < |all[i]| && FieldMentions(all[i][j].0, all[i][j].1, c, k);
      if i >= |a| {
        assert b[i - |a|] == all[i];
      } else {
        assert a[i] == all[i];
      }
    }
    if Mentions(a, c, k) {
      var i, j :| 0 <= i < |a| && 0 <= j < |a[i]| && FieldMentions(a[i][j].0, a[i][j].1, c, k);
      assert all[i] == a[i];
    }
    if Mentions(b, c, k) {
      var i, j :| 0 <= i < |b| && 0 <= j < |b[i]| && FieldMentions(b[i][j].0, b[i][j].1, c, k);
      assert all[i + |a|] == b[i];
    }
  }

  lemma CreatesConcat(a: seq<StatRecord>, b: seq<StatRecord>, c: string)
    ensures Creates(a + b, c) <==> Creates(a, c) || Creates(b, c)
  {
    var all := a + b;
    if Creates(all, c) {
      var i, j :| 0 <= i < |all| && 0 <= j < |all[i]| && FieldCreates(all[i][j].0, c);
      if i >= |a| {
        assert b[i - |a|] == all[i];
      } else {
        assert a[i] == all[i];
      }
    }
    if Creates(a, c) {
      var i, j :| 0 <= i < |a| && 0 <= j < |a[i]| && FieldCreates(a[i][j].0, c);
      assert all[i] == a[i];
    }
    if Creates(b, c) {
      var i, j :| 0 <= i < |b| && 0 <= j < |b[i]| && FieldCreates(b[i][j].0, c);
      assert all[i + |a|] == b[i];
    }
  }

  /** Where the first record of `rs1` sits in its permutation `rs2`, and
      what is left of `rs2` without it. */
  lemma PickFirst(rs1: seq<StatRecord>, rs2: seq<StatRecord>) returns (i: nat)
    requires |rs1| > 0 && multiset(rs1) == multiset(rs2)
    ensures i < |rs2| && rs2[i] == rs1[0]
    ensures rs2 == rs2[..i] + [rs1[0]] + rs2[i + 1..]
    ensures multiset(rs1[1..]) == multiset(rs2[..i] + rs2[i + 1..])
  {
    assert rs1 == [rs1[0]] + rs1[1..];
    assert rs1[0] in multiset(rs2);
    i :| 0 <= i < |rs2| && rs2[i] == rs1[0];
    assert rs2 == rs2[..i] + [rs1[0]] + rs2[i + 1..];
    calc {
      multiset(rs1[1..]);
      multiset(rs1) - multiset{rs1[0]};
      multiset(rs2) - multiset{rs1[0]};
      multiset(rs2[..i]) + multiset(rs2[i + 1..]);
      multiset(rs2[..i] + rs2[i + 1..]);
    }
  }

  /** The expected totals do not depend on the order of the records. */
  lemma {:induction false} TotalPermutation(rs1: seq<StatRecord>, rs2: seq<StatRecord>, c: string, k: string)
    requires multiset(rs1) == multiset(rs2)
    ensures Total(rs1, c, k) == Total(rs2, c, k)
    decreases |rs1|
  {
    if |rs1| == 0 {
      assert |rs2| == |multiset(rs2)| == 0;
    } else {
      var i := PickFirst(rs1, rs2);
      var x, pre, post := rs1[0], rs2[..i], rs2[i + 1..];
      TotalPermutation(rs1[1..], pre + post, c, k);
      TotalConcat(pre, post, c, k);
      TotalConcat(pre + [x], post, c, k);
      TotalConcat(pre, [x], c, k);
      assert Total([x], c, k) == RecordCount(x, c, k);
    }
  }

  lemma MentionsSingle(x: StatRecord, rest: seq<StatRecord>, c: string, k: string)
    ensures Mentions([x] + rest, c, k) <==> Mentions([x], c, k) || Mentions(rest, c, k)
  {
    MentionsConcat([x], rest, c, k);
  }

  /** Whether a sub-key is routed to a category does not depend on the order
      of the records. */
  lemma {:induction false} MentionsPermutation(rs1: seq<StatRecord>, rs2: seq<StatRecord>, c: string, k: string)
    requires multiset(rs1) == multiset(rs2)
    ensures Mentions(rs1, c, k) <==> Mentions(rs2, c, k)
    decreases |rs1|
  {
    if |rs1| == 0 {
      assert |rs2| == |multiset(rs2)| == 0;
    } else {
      var i := PickFirst(rs1, rs2);
      var x, pre, post := rs1[0], rs2[..i], rs2[i + 1..];
      MentionsPermutation(rs1[1..], pre + post, c, k);
      assert rs1 == [x] + rs1[1..];
      MentionsSingle(x, rs1[1..], c, k);
      MentionsConcat(pre, post, c, k);
      MentionsConcat(pre + [x], post, c, k);
      MentionsConcat(pre, [x], c, k);
    }
  }

  /** Whether a category is created does not depend on the order of the
      records. */
  lemma {:induction false} CreatesPermutation(rs1: seq<StatRecord>, rs2: seq<StatRecord>, c: string)
    requires multiset(rs1) == multiset(rs2)
    ensures Creates(rs1, c) <==> Creates(rs2, c)
    decreases |rs1|
  {
    if |rs1| == 0 {
      assert |rs2| == |multiset(rs2)| == 0;
    } else {
      var i := PickFirst(rs1, rs2);
      var x, pre, post := rs1[0], rs2[..i], rs2[i + 1..];
      CreatesPermutation(rs1[1..], pre + post, c);
      assert rs1 == [x] + rs1[1..];
      CreatesConcat([x], rs1[1..], c);
      CreatesConcat(pre, post, c);
      CreatesConcat(pre + [x], post, c);
      CreatesConcat(pre, [x], c);
    }
  }

  /** Reordering the records in any way changes no category's presence. */
  lemma CategoriesOrderIndependent(rs1: seq<StatRecord>, rs2: seq<StatRecord>, c: string)
    requires multiset(rs1) == multiset(rs2)
    ensures Lookup(AggregateTotals(rs1), c).Some? <==> Lookup(AggregateTotals(rs2), c).Some?
  {
    AggregateCategories(rs1, c);
    AggregateCategories(rs2, c);
    CreatesPermutation(rs1, rs2, c);
  }

  /** Every record of a permutation comes from the original. */
  lemma IntRecordsPermutation(rs1: seq<StatRecord>, rs2: seq<StatRecord>)
    requires multiset(rs1) == multiset(rs2) && IntRecords(rs1)
    ensures IntRecords(rs2)
  {
    forall i, j | 0 <= i < |rs2| && 0 <= j < |rs2[i]|
      ensures IntField(rs2[i][j].1)
    {
      assert rs2[i] in multiset(rs1);
      var i1 :| 0 <= i1 < |rs1| && rs1[i1] == rs2[i];
    }
  }

  /** With integer counters, reordering the records in any way changes no
      count and no sub-key's presence: only the order of entries can differ. */
  lemma CountsOrderIndependent(rs1: seq<StatRecord>, rs2: seq<StatRecord>, c: string, k: string)
    requires multiset(rs1) == multiset(rs2) && IntRecords(rs1)
    ensures Lookup(Existing(AggregateTotals(rs1), c), k) == Lookup(Existing(AggregateTotals(rs2), c), k)
  {
    TotalPermutation(rs1, rs2, c, k);
    MentionsPermutation(rs1, rs2, c, k);
    IntRecordsPermutation(rs1, rs2);
    AggregateCounts(rs1, c, k);
    AggregateCounts(rs2, c, k);
  }
}
