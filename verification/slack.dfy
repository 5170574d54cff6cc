/** The message formatter: totals become one Slack attachment per category,
    under a summary line naming the requested range (index.js:9-27, 68-82). */
module Slack {
  import opened Assoc
  import opened Stats
  import Decimal

  /** The colour of a category outside the table. */
  const FallbackColor := "#3367d6"

  /** `keyColors`: the fixed colour of each known category. */
  const KeyColors: map<string, string> := map[
    "accepted" := "#9bc0ab",
    "delivered" := "#629976",
    "temporary" := "#d9a8aa",
    "permanent" := "#b85555",
    "complained" := "#aa2d2c",
    "unsubscribed" := "#373f41",
    "stored" := "#bedafc",
    "clicked" := "#ea912e",
    "opened" := "#3770df"
  ]

  /** `keyColors[key] || '#3367d6'`: the table colour of a known category,
      the fallback colour of any other. */
  function ColorFor(name: string): (color: string)
    ensures color == FallbackColor <==> name !in KeyColors
    ensures |color| == 7 && color[0] == '#'
  {
    if name in KeyColors then KeyColors[name] else FallbackColor
  }

  /** A rendered counter: digits for an integer, the string itself otherwise. */
  function Render(v: Value): string
  {
    match v
    case Int(n) => Decimal.Show(n)
    case Text(s) => s
  }

  /** One line of an attachment body: `_{key}:_ {count}` and a newline. */
  function Line(k: string, v: Value): (line: string)
    ensures |line| >= 5 && line[0] == '_' && line[|line| - 1] == '\n'
  {
    "_" + k + ":_ " + Render(v) + "\n"
  }

  /** The `reduce` building an attachment body, left to right from `acc`. */
  function BodyFrom(acc: string, sub: SubMap): string
    decreases |sub|
  {
    if |sub| == 0 then acc else BodyFrom(acc + Line(sub[0].0, sub[0].1), sub[1..])
  }

  /** An attachment body, starting from the empty string: empty exactly
      for no counters, otherwise starting with a line's `_` and ending with
      its newline. */
  function Body(sub: SubMap): (b: string)
    ensures b == "" <==> |sub| == 0
    ensures |sub| > 0 ==> b[0] == '_' && b[|b| - 1] == '\n'
  {
    if |sub| == 0 then BodyFrom("", sub)
    else
      var line := Line(sub[0].0, sub[0].1);
      assert "" + line == line;
      BodyFromGrows(line, sub[1..]);
      BodyFrom("", sub)
  }

  /** The fold only appends, and after a line its text ends in a newline. */
  lemma {:induction false} BodyFromGrows(acc: string, sub: SubMap)
    ensures acc <= BodyFrom(acc, sub)
    ensures |acc| > 0 && acc[|acc| - 1] == '\n' ==> BodyFrom(acc, sub)[|BodyFrom(acc, sub)| - 1] == '\n'
    decreases |sub|
  {
    if |sub| > 0 {
      var next := acc + Line(sub[0].0, sub[0].1);
      BodyFromGrows(next, sub[1..]);
      assert acc <= next;
    }
  }

  datatype Attachment = Attachment(color: string, title: string, text: string)

  /** `generateAttachments(totals)`: one attachment per category in totals
      order, titled by the category, coloured by the table, its text the
      category's counters. */
  function GenerateAttachments(t: Totals): (atts: seq<Attachment>)
    ensures |atts| == |t|
    ensures forall i :: 0 <= i < |t| ==>
              atts[i] == Attachment(ColorFor(t[i].0), t[i].0, Body(t[i].1))
  {
    seq(|t|, i requires 0 <= i < |t| => Attachment(ColorFor(t[i].0), t[i].0, Body(t[i].1)))
  }

  /** The fields of the provider's stats response the formatter reads. */
  datatype StatsResponse = StatsResponse(stats: seq<StatRecord>, start: string, end: string)

  datatype Message = Message(responseType: string, text: string, attachments: seq<Attachment>)

  const InChannel := "in_channel"

  /** The words every summary starts with. */
  const Heading := "Mailgun totals "

  /** The range text: `for {start}` for a single point, `from {start} to
      {end}` otherwise. */
  function Range(start: string, end: string): (r: string)
    ensures start == end ==> r == "for " + start
    ensures start != end ==> r == "from " + start + " to " + end
    ensures start == end ==> |r| == 4 + |start|
    ensures start != end ==> |r| == 9 + |start| + |end|
    ensures r[1] == 'o' <==> start == end
    ensures start == end ==> r[4..] == start
    ensures start != end ==> r[5..5 + |start|] == start && r[|r| - |end|..] == end
  {
    if start == end then "for " + start else "from " + start + " to " + end
  }

  /** `formatSlackMessage(response)`: visible to the whole channel, the
      summary of the range, one attachment per aggregated category. */
  function FormatSlackMessage(resp: StatsResponse): (m: Message)
    ensures m.responseType == InChannel
    ensures Heading <= m.text
    ensures |m.attachments| == |AggregateTotals(resp.stats)|
  {
    var totals := AggregateTotals(resp.stats);
    Message(InChannel, Heading + Range(resp.start, resp.end), GenerateAttachments(totals))
  }
}
