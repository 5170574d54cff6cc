/** The slash-command text: a duration and a comma-separated event list
    separated by a space, each with a default (index.js:113-121). */
module Command {

  /** `s.split(sep)` with a one-character separator: the maximal runs
      between separators, empty ones included; never an empty list. */
  function Split(s: string, sep: char): (parts: seq<string>)
    ensures |parts| >= 1
    ensures forall i :: 0 <= i < |parts| ==> sep !in parts[i]
    ensures Join(parts, sep) == s
    decreases |s|
  {
    if |s| == 0 then [""]
    else
      var rest := Split(s[1..], sep);
      if s[0] == sep then
        assert s == [sep] + s[1..];
        [""] + rest
      else
        var parts := [[s[0]] + rest[0]] + rest[1..];
        assert parts[1..] == rest[1..];
        assert s == [s[0]] + s[1..];
        parts
  }

  /** `parts.join(sep)`. */
  function Join(parts: seq<string>, sep: char): string
    requires |parts| >= 1
    decreases |parts|
  {
    if |parts| == 1 then parts[0] else parts[0] + [sep] + Join(parts[1..], sep)
  }

  /** Splitting text that starts with a separator-free run `a`: `a` is the
      first part, and the rest comes from what follows the next separator. */
  lemma {:induction false} SplitHead(a: string, b: string, sep: char)
    requires sep !in a
    requires |b| == 0 || b[0] == sep
    ensures |b| == 0 ==> Split(a + b, sep) == [a]
    ensures |b| > 0 ==> Split(a + b, sep) == [a] + Split(b[1..], sep)
    decreases |a|
  {
    if |a| == 0 {
      assert a + b == b;
    } else {
      assert a[0] in a;
      assert (a + b)[1..] == a[1..] + b;
      SplitHead(a[1..], b, sep);
      assert [a[0]] + a[1..] == a;
    }
  }

  /** Splitting a joined list gives the list back, when no part holds the
      separator. */
  lemma {:induction false} SplitJoin(parts: seq<string>, sep: char)
    requires |parts| >= 1
    requires forall i :: 0 <= i < |parts| ==> sep !in parts[i]
    ensures Split(Join(parts, sep), sep) == parts
    decreases |parts|
  {
    if |parts| == 1 {
      SplitHead(parts[0], "", sep);
      assert parts[0] + "" == parts[0];
    } else {
      var tail := [sep] + Join(parts[1..], sep);
      assert Join(parts, sep) == parts[0] + tail;
      SplitHead(parts[0], tail, sep);
      assert tail[1..] == Join(parts[1..], sep);
      assert forall i :: 0 <= i < |parts[1..]| ==> parts[1..][i] == parts[i + 1];
      SplitJoin(parts[1..], sep);
      assert parts == [parts[0]] + parts[1..];
    }
  }

  /** What is sent to the provider. */
  datatype Payload = Payload(duration: string, events: seq<string>)

  const DefaultDuration := "24h"
  const DefaultEvents := ["accepted", "delivered", "failed"]

  /** The parse at the head of `fetchStats`: the first space-separated token
      is the duration unless it is empty, the second split on commas is the
      event list unless it is missing; later tokens are ignored. The
      duration is never empty and is the start of the text unless defaulted;
      text without a space gets the default event list. */
  function ParseCommand(text: string): (p: Payload)
    ensures p.duration != "" && ' ' !in p.duration
    ensures p.duration == DefaultDuration || p.duration <= text
    ensures ' ' !in text ==> p.events == DefaultEvents
    ensures |p.events| >= 1
  {
    var tokens := Split(text, ' ');
    var duration := if tokens[0] == "" then DefaultDuration else tokens[0];
    var events := if |tokens| >= 2 then Split(tokens[1], ',') else DefaultEvents;
    assert ' ' !in text ==> tokens == [text] by {
      if ' ' !in text {
        SplitHead(text, "", ' ');
        assert text + "" == text;
      }
    }
    assert tokens[0] <= text by {
      SplitPrefix(text, ' ');
    }
    Payload(duration, events)
  }

  /** The first part of a split is a prefix of the text. */
  lemma {:induction false} SplitPrefix(s: string, sep: char)
    ensures Split(s, sep)[0] <= s
    decreases |s|
  {
    if |s| > 0 && s[0] != sep {
      SplitPrefix(s[1..], sep);
      assert s == [s[0]] + s[1..];
    }
  }

  /** The space-separated tokens of such a text start with `d` and `e`. */
  lemma TwoTokensSplit(d: string, e: string, rest: string)
    requires ' ' !in d && ' ' !in e
    requires |rest| == 0 || rest[0] == ' '
    ensures var tokens := Split(d + " " + e + rest, ' ');
            |tokens| >= 2 && tokens[0] == d && tokens[1] == e
  {
    var tail := [' '] + (e + rest);
    assert d + " " + e + rest == d + tail;
    assert tail[1..] == e + rest;
    SplitHead(d, tail, ' ');
    SplitHead(e, rest, ' ');
  }

  /** A duration token and an event token, then anything that starts with a
      space: the duration (defaulted when empty) and the event token split
      on commas; whatever follows is ignored. */
  lemma TwoTokens(d: string, e: string, rest: string)
    requires ' ' !in d && ' ' !in e
    requires |rest| == 0 || rest[0] == ' '
    ensures ParseCommand(d + " " + e + rest) ==
            Payload(if d == "" then DefaultDuration else d, Split(e, ','))
  {
    TwoTokensSplit(d, e, rest);
  }

  /** Text with no space is the duration alone (defaulted when empty), and
      the event list is the default one. */
  lemma OneToken(d: string)
    requires ' ' !in d
    ensures ParseCommand(d) == Payload(if d == "" then DefaultDuration else d, DefaultEvents)
  {
    SplitHead(d, "", ' ');
    assert d + "" == d;
  }

  /** A present but empty event token gives `[""]`, not the default list. */
  lemma EmptyEventToken(d: string)
    requires ' ' !in d
    ensures ParseCommand(d + " ").events == [""]
  {
    TwoTokens(d, "", "");
    assert d + " " + "" + "" == d + " ";
  }

  /** Writing a duration and an event list as command text and parsing it
      gives them back. */
  lemma ParseRoundTrip(d: string, events: seq<string>)
    requires d != "" && ' ' !in d
    requires |events| >= 1
    requires forall i :: 0 <= i < |events| ==> ' ' !in events[i] && ',' !in events[i]
    ensures ParseCommand(d + " " + Join(events, ',')) == Payload(d, events)
  {
    var e := Join(events, ',');
    assert ' ' !in e by {
      JoinAvoids(events, ',', ' ');
    }
    TwoTokens(d, e, "");
    assert d + " " + e + "" == d + " " + e;
    SplitJoin(events, ',');
  }

  /** A join holds no character that no part holds, other than the separator. */
  lemma {:induction false} JoinAvoids(parts: seq<string>, sep: char, ch: char)
    requires |parts| >= 1 && ch != sep
    requires forall i :: 0 <= i < |parts| ==> ch !in parts[i]
    ensures ch !in Join(parts, sep)
    decreases |parts|
  {
    if |parts| > 1 {
      assert forall i :: 0 <= i < |parts[1..]| ==> parts[1..][i] == parts[i + 1];
      JoinAvoids(parts[1..], sep, ch);
    }
  }
}
