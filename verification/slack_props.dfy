/** What the formatted message says about the totals: colours identify the
    known categories, bodies list every counter line by line, the summary
    tells a single point from a range, and the attachments are exactly the
    aggregated categories. */
module SlackProps {
  import opened Assoc
  import opened Stats
  import opened StatsProps
  import opened Slack
  import Decimal

  // ---------------------------------------------------------------------
  // Colours
  // ---------------------------------------------------------------------

  /** The category a table colour stands for. */
  const ColorNames: map<string, string> := map[
    "#9bc0ab" := "accepted",
    "#629976" := "delivered",
    "#d9a8aa" := "temporary",
    "#b85555" := "permanent",
    "#aa2d2c" := "complained",
    "#373f41" := "unsubscribed",
    "#bedafc" := "stored",
    "#ea912e" := "clicked",
    "#3770df" := "opened"
  ]

  /** Reading a known category's colour back gives the category. */
  lemma ColorNamesInvert(n: string)
    requires n in KeyColors
    ensures ColorFor(n) in ColorNames && ColorNames[ColorFor(n)] == n
  {
    if n == "accepted" {
    } else if n == "delivered" {
    } else if n == "temporary" {
    } else if n == "permanent" {
    } else if n == "complained" {
    } else if n == "unsubscribed" {
    } else if n == "stored" {
    } else if n == "clicked" {
    } else {
    }
  }

  /** No two categories share a known category's colour. */
  lemma ColorIdentifiesKnown(a: string, b: string)
    requires a in KeyColors
    requires ColorFor(a) == ColorFor(b)
    ensures a == b
  {
    ColorNamesInvert(a);
    if b in KeyColors {
      ColorNamesInvert(b);
    }
  }

  // ---------------------------------------------------------------------
  // Bodies
  // ---------------------------------------------------------------------

  lemma {:induction false} BodyFromAcc(acc: string, sub: SubMap)
    ensures BodyFrom(acc, sub) == acc + Body(sub)
    decreases |sub|
  {
    if |sub| > 0 {
      var line := Line(sub[0].0, sub[0].1);
      BodyFromAcc(acc + line, sub[1..]);
      BodyFromAcc(line, sub[1..]);
      assert "" + line == line;
    } else {
      assert acc + "" == acc;
    }
  }

  /** A body is the first line followed by the body of the rest. */
  lemma BodyCons(sub: SubMap)
    requires |sub| > 0
    ensures Body(sub) == Line(sub[0].0, sub[0].1) + Body(sub[1..])
  {
    assert "" + Line(sub[0].0, sub[0].1) == Line(sub[0].0, sub[0].1);
    BodyFromAcc(Line(sub[0].0, sub[0].1), sub[1..]);
  }

  /** Bodies concatenate: the lines appear in sub-map order, none dropped. */
  lemma {:induction false} BodyConcat(a: SubMap, b: SubMap)
    ensures Body(a + b) == Body(a) + Body(b)
    decreases |a|
  {
    if |a| == 0 {
      assert a + b == b;
    } else {
      assert (a + b)[0] == a[0] && (a + b)[1..] == a[1..] + b;
      BodyCons(a + b);
      BodyCons(a);
      BodyConcat(a[1..], b);
    }
  }

  /** The occurrences of `ch` in `s`. */
  function Occurrences(s: string, ch: char): nat
    decreases |s|
  {
    if |s| == 0 then 0 else (if s[0] == ch then 1 else 0) + Occurrences(s[1..], ch)
  }

  lemma {:induction false} OccurrencesConcat(a: string, b: string, ch: char)
    ensures Occurrences(a + b, ch) == Occurrences(a, ch) + Occurrences(b, ch)
    decreases |a|
  {
    if |a| == 0 {
      assert a + b == b;
    } else {
      assert (a + b)[1..] == a[1..] + b;
      OccurrencesConcat(a[1..], b, ch);
    }
  }

  lemma {:induction false} NoOccurrences(s: string, ch: char)
    requires ch !in s
    ensures Occurrences(s, ch) == 0
    decreases |s|
  {
    if |s| > 0 {
      NoOccurrences(s[1..], ch);
    }
  }

  /** A counter line holds no newline besides its final one. */
  predicate PlainEntry(p: (string, Value))
  {
    '\n' !in p.0 && (p.1.Text? ==> '\n' !in p.1.s)
  }

  lemma LineNewlines(k: string, v: Value)
    requires PlainEntry((k, v))
    ensures Occurrences(Line(k, v), '\n') == 1
  {
    var r := Render(v);
    assert '\n' !in r by {
      if v.Int? {
        var d := Decimal.Show(v.n);
        forall i | 0 <= i < |d|
          ensures d[i] != '\n'
        {
          if v.n < 0 && i > 0 {
            assert d[i] == d[1..][i - 1];
          }
        }
      }
    }
    var line := "_" + k + ":_ " + r + "\n";
    OccurrencesConcat("_" + k + ":_ " + r, "\n", '\n');
    OccurrencesConcat("_" + k + ":_ ", r, '\n');
    OccurrencesConcat("_" + k, ":_ ", '\n');
    OccurrencesConcat("_", k, '\n');
    NoOccurrences(k, '\n');
    NoOccurrences(r, '\n');
  }

  /** When no key or string counter holds a newline, a body has exactly one
      line per counter. */
  lemma {:induction false} BodyNewlines(sub: SubMap)
    requires forall p :: p in sub ==> PlainEntry(p)
    ensures Occurrences(Body(sub), '\n') == |sub|
    decreases |sub|
  {
    if |sub| > 0 {
      assert sub[0] in sub;
      BodyCons(sub);
      LineNewlines(sub[0].0, sub[0].1);
      OccurrencesConcat(Line(sub[0].0, sub[0].1), Body(sub[1..]), '\n');
      assert forall p :: p in sub[1..] ==> p in sub;
      BodyNewlines(sub[1..]);
    }
  }

  // ---------------------------------------------------------------------
  // Summary and attachments
  // ---------------------------------------------------------------------

  lemma HeadingCancels(x: string, y: string)
    ensures Heading + x == Heading + y <==> x == y
  {
    if Heading + x == Heading + y {
      assert x == (Heading + x)[|Heading|..];
      assert y == (Heading + y)[|Heading|..];
    }
  }

  /** The summary says `for` exactly when the range is a single point, and a
      single-point summary names its point. */
  lemma SummaryTellsRange(r1: StatsResponse, r2: StatsResponse)
    requires r1.start == r1.end
    ensures FormatSlackMessage(r2).text == FormatSlackMessage(r1).text <==>
            r2.start == r1.start && r2.end == r1.start
  {
    HeadingCancels(Range(r2.start, r2.end), Range(r1.start, r1.end));
    var x1 := Range(r1.start, r1.end);
    var x2 := Range(r2.start, r2.end);
    assert x1[1] == 'o';
    if r2.start != r2.end {
      assert x2[1] == 'r';
    } else if x1 == x2 {
      assert r2.start == x2[4..] && r1.start == x1[4..];
    }
  }

  /** The summary names the point of a single-point range, and both ends of
      any other; the attachments are those of the aggregated totals. */
  lemma MessageSummary(resp: StatsResponse)
    ensures resp.start == resp.end ==>
              FormatSlackMessage(resp).text == "Mailgun totals for " + resp.start
    ensures resp.start != resp.end ==>
              FormatSlackMessage(resp).text == "Mailgun totals from " + resp.start + " to " + resp.end
    ensures FormatSlackMessage(resp).attachments == GenerateAttachments(AggregateTotals(resp.stats))
  {
    var text := FormatSlackMessage(resp).text;
    assert text == Heading + Range(resp.start, resp.end);
    if resp.start == resp.end {
      HeadingFor(resp.start);
    } else {
      HeadingFrom(resp.start, resp.end);
    }
  }

  lemma HeadingFor(x: string)
    ensures Heading + ("for " + x) == "Mailgun totals for " + x
  {
    assert Heading + "for " == "Mailgun totals for ";
  }

  lemma HeadingFrom(x: string, y: string)
    ensures Heading + ("from " + x + " to " + y) == "Mailgun totals from " + x + " to " + y
  {
    assert Heading + "from " == "Mailgun totals from ";
  }

  /** The attachment titles, in order. */
  function Titles(atts: seq<Attachment>): (ts: seq<string>)
    ensures |ts| == |atts|
    ensures forall i :: 0 <= i < |atts| ==> ts[i] == atts[i].title
  {
    seq(|atts|, i requires 0 <= i < |atts| => atts[i].title)
  }

  /** Attachments follow the categories: one per category, same order. */
  lemma AttachmentTitles(t: Totals)
    ensures Titles(GenerateAttachments(t)) == Keys(t)
  {
  }

  /** The attachments are titled by the aggregated categories in first-seen
      order, `failed` standing for `temporary` then `permanent`. */
  lemma MessageTitles(resp: StatsResponse)
    ensures Titles(FormatSlackMessage(resp).attachments) == AddAll([], Keys(Merges(resp.stats)))
  {
    AttachmentTitles(AggregateTotals(resp.stats));
    AggregateOrder(resp.stats);
  }

  /** A category has an attachment exactly when some field creates it;
      neither `time` nor `failed` ever has one, and none has two. */
  lemma MessageCategories(resp: StatsResponse, c: string)
    ensures c in Titles(FormatSlackMessage(resp).attachments) <==> Creates(resp.stats, c)
    ensures Distinct(Titles(FormatSlackMessage(resp).attachments))
    ensures c == FailedKey || c == TimeKey ==> c !in Titles(FormatSlackMessage(resp).attachments)
  {
    var t := AggregateTotals(resp.stats);
    AttachmentTitles(t);
    AggregateCategories(resp.stats, c);
    AggregateWellFormed(resp.stats);
  }

  // ---------------------------------------------------------------------
  // A worked example
  // ---------------------------------------------------------------------

  /** One record with a timestamp, `accepted: {a: 2}` and `delivered: {b: 3}`. */
  const ExampleRecord: StatRecord := [
    ("time", Stamp("Wed, 01 Jan 2020 00:00:00 UTC")),
    ("accepted", Counts([("a", Int(2))])),
    ("delivered", Counts([("b", Int(3))]))
  ]

  lemma ExampleTotals()
    ensures AggregateTotals([ExampleRecord]) ==
            [("accepted", [("a", Int(2))]), ("delivered", [("b", Int(3))])]
  {
    var rec := ExampleRecord;
    var a1 := AggregateField([], rec[0].0, rec[0].1);
    assert a1 == [];
    var a2 := AggregateField(a1, rec[1].0, rec[1].1);
    assert a2 == [("accepted", [("a", Int(2))])];
    var a3 := AggregateField(a2, rec[2].0, rec[2].1);
    assert a3 == [("accepted", [("a", Int(2))]), ("delivered", [("b", Int(3))])];
    assert AggregateRecord([], rec) == a3 by {
      assert rec[1..][1..][1..] == [];
    }
    var rs := [rec];
    assert rs[0] == rec && rs[1..] == [];
    assert AggregateFrom([], rs) == AggregateFrom(AggregateRecord([], rec), []);
  }

  lemma ExampleBodies()
    ensures Body([("a", Int(2))]) == "_a:_ 2\n"
    ensures Body([("b", Int(3))]) == "_b:_ 3\n"
  {
    assert Decimal.Show(2) == "2" && Decimal.Show(3) == "3";
  }

  /** The attachments of the example's totals: the table colours and one
      line each. */
  lemma ExampleGenerate()
    ensures GenerateAttachments([("accepted", [("a", Int(2))]), ("delivered", [("b", Int(3))])]) ==
            [Attachment("#9bc0ab", "accepted", "_a:_ 2\n"),
             Attachment("#629976", "delivered", "_b:_ 3\n")]
  {
    ExampleBodies();
  }

  lemma ExampleRange()
    ensures Heading + Range("2020-01-01", "2020-01-01") == "Mailgun totals for 2020-01-01"
  {
    assert Range("2020-01-01", "2020-01-01") == "for 2020-01-01";
  }

  /** For a single day the summary names the day, and the two attachments
      carry the table colours and one line each. */
  lemma SingleDayExample()
    ensures var m := FormatSlackMessage(StatsResponse([ExampleRecord], "2020-01-01", "2020-01-01"));
            && m.text == "Mailgun totals for 2020-01-01"
            && m.attachments == [Attachment("#9bc0ab", "accepted", "_a:_ 2\n"),
                                 Attachment("#629976", "delivered", "_b:_ 3\n")]
  {
    ExampleTotals();
    ExampleGenerate();
    ExampleRange();
  }

  /** For two distinct days the summary names both. */
  lemma RangeExample()
    ensures Heading + Range("2020-01-01", "2020-01-02") == "Mailgun totals from 2020-01-01 to 2020-01-02"
  {
    assert Range("2020-01-01", "2020-01-02") == "from 2020-01-01 to 2020-01-02";
  }

  /** A category outside the table is drawn in the fallback colour. */
  lemma UnknownCategoryExample()
    ensures ColorFor("bounced") == "#3367d6"
  {
  }
}
