# Mailgun stats for Slack: a Dafny model

The repository is a small cloud function behind a Slack slash command. It
asks Mailgun for delivery statistics and answers with a Slack message. Its
only real logic is in `index.js` and is pure:

- **Aggregation** (`reduceField`, `aggregateTotals`): the provider returns
  one record per time bucket. A record maps a category (`accepted`,
  `delivered`, …) to counters (sub-key → count), carries a `time` stamp,
  and carries a nested `failed` value split into `temporary` and
  `permanent`. The records are folded into totals of the form category →
  sub-key → count.
- **Formatting** (`keyColors`, `generateAttachments`, `formatSlackMessage`):
  each category becomes one attachment. The attachment has a fixed colour
  (or a fallback colour), the category as its title, and one
  `_key:_ count` line per counter. A summary line names the requested
  range.
- **Command parsing** (the head of `fetchStats`): the command text holds a
  duration and a comma-separated event list, separated by a space. Each
  has a default.
- **Dispatch** (`stats`, `verifyWebhook`): 405 for any method but POST,
  checked before the 401 token check. The provider call comes after both.

JavaScript objects are modelled as ordered association lists
(`seq<(string, V)>`). Assigning to a key updates it in place when the key
is present, and appends it otherwise. This is how a JavaScript object
keeps insertion order for string keys.

A counter value is `Int(n)` or `Text(s)`. `Text` stands for the non-integer
values the source guards against with `isInteger`. Adding a string to an
integer concatenates, as JavaScript's `+=` does.

The modules:

- `Assoc`: association lists, with `Lookup`, `Put` and key order.
- `Decimal`: the rendering `${n}` of an integer, and its inverse.
- `Stats`: the aggregation, with `StatsProps` and `StatsCounts` holding its
  properties. They are stated against reference definitions written
  directly over the input records:
  - `Creates`: some field creates a category.
  - `Mentions`: some field routes a sub-key to a category.
  - `Total`: the sum of every count routed to a sub-key.
- `Slack`: the formatter, with `SlackProps` holding its properties.
- `Command`: the command-text parse, and `Split`/`Join` on one character.
- `Handler`: the request decision. The configured token and the provider
  call are parameters.

## Model

| member | source | states |
|---|---|---|
| Assoc.Put | index.js:54 | Assigning a key gives it the new value and leaves every other key's value alone. An existing key keeps its place and a new key is appended. |
| Assoc.PutDistinct | index.js:51-54 | Assignment never lists a key twice. |
| Stats.MergeEntry | index.js:33-37 | One counter merge: an integer counter is added to, an absent sub-key is set, a non-integer counter is left alone. No other sub-key changes. |
| Stats.MergeSub | index.js:32-38 | Merging a sub-map appends its new sub-keys in order. Sub-keys it lacks are unchanged, and so is every non-integer counter. |
| Stats.Plus | index.js:34 | `+=` on an integer counter adds when the merged value is an integer, and otherwise produces a string. |
| Stats.ReduceField | index.js:29-41 | The counters for a category are its existing ones (none when absent) with the merged sub-map's new sub-keys appended in order. Other sub-keys and every non-integer counter are unchanged. |
| Stats.MergeInto | index.js:29-41 | Merging into category `c` changes only `c` and creates it if absent (possibly empty). It adds no sub-key the merged sub-map lacks and leaves non-integer counters unchanged. |
| Stats.AggregateField | index.js:45-55 | A `time` field changes nothing. A `failed` field creates `temporary` and `permanent`, and any other field creates its own category. No other category changes and none is removed. |
| Stats.AggregateRecord | index.js:45-56 | Folding one record never creates a `failed` or `time` category. |
| Stats.AggregateFrom | index.js:44-59 | Folding further records never removes a category and never creates `failed` or `time`. |
| Stats.AggregateTotals | index.js:43-60 | No records give empty totals; `failed` and `time` never become categories. |
| StatsProps.AggregateFromIsApply | index.js:43-59 | Aggregation equals applying, in order, the merges each field asks for: none for `time`, `temporary` then `permanent` for `failed`, its own name otherwise. |
| StatsProps.AggregateOrder | index.js:43-59 | The categories appear in the order their first merge is met. |
| StatsProps.CategoriesKeepPosition | index.js:44-59 | The categories of earlier records keep their positions at the head of the totals. Later records only append the categories they create first. |
| StatsProps.AggregateCategories | index.js:43-59 | A category is present exactly when some field of some record creates it. |
| StatsProps.FailedPromotesBoth | index.js:50-52 | A `failed` field makes both `temporary` and `permanent` categories, and `failed` itself is never one. |
| StatsProps.FailedWithoutTemporary | index.js:30 | Worked example: a single record whose `failed` value has no `temporary` half gives an empty `temporary` category, listed before `permanent`. |
| StatsProps.TimeIgnored | index.js:46-48 | Removing every `time` field from the records leaves the totals exactly as they were. |
| StatsProps.AggregateWellFormed | index.js:43-59 | The totals never list a category twice, nor a sub-key twice within a category. |
| StatsCounts.AggregateSubKeys | index.js:29-59 | A sub-key appears under a category exactly when some field routes it there. Nothing is zero-filled, and no sub-key is dropped except those named after `Object.prototype` members (see Left out). |
| StatsCounts.AggregateCounts | index.js:29-59 | With integer counters, every sub-key's count is the sum of all counts routed to it. `failed.temporary` and `failed.permanent` count toward `temporary` and `permanent`. |
| StatsCounts.TotalPermutation | index.js:29-59 | The expected total of a sub-key is the same for any reordering of the records. |
| StatsCounts.MentionsPermutation | index.js:29-59 | Whether a sub-key is routed to a category is the same for any reordering of the records. |
| StatsCounts.CreatesPermutation | index.js:43-59 | Whether a category is created is the same for any reordering of the records. |
| StatsCounts.CategoriesOrderIndependent | index.js:43-59 | Any reordering of the records (equal multisets) changes no category's presence. |
| StatsCounts.CountsOrderIndependent | index.js:29-59 | With integer counters, any reordering of the records (equal multisets) changes no count and no sub-key's presence. |
| Decimal.Show | index.js:25 | An integer renders as at least one digit, with a leading `-` exactly when it is negative. The same rendering appears when `+=` joins an integer to a string (index.js:34). |
| Decimal.ParseShow | index.js:25 | Reading back an integer's decimal rendering gives the integer. |
| Decimal.ShowInjective | index.js:25 | Distinct counts render differently. |
| Slack.ColorFor | index.js:9-23 | A name gets the fallback colour `#3367d6` exactly when it is outside the nine-entry table. Every colour is a `#` and six characters. |
| Slack.Body | index.js:25 | A body is empty exactly when the category has no counters. Otherwise it starts with a line's `_` and ends with its newline. |
| Slack.Range | index.js:71 | The range is `for {start}` when start equals end and `from {start} to {end}` otherwise. Its second character tells the two apart, and the point or both ends can be read back from it. |
| Slack.Line | index.js:25 | A counter line starts with `_` and ends with a newline. |
| Slack.GenerateAttachments | index.js:21-27 | One attachment per category, in totals order. Each is titled by the category, coloured by the table, and holds the category's counters as its text. |
| Slack.FormatSlackMessage | index.js:68-82 | The message is `in_channel`, its text starts with `Mailgun totals `, and it has one attachment per aggregated category. |
| SlackProps.ColorIdentifiesKnown | index.js:9-19 | No other name shares a known category's colour. |
| SlackProps.BodyCons | index.js:25 | A body is the first counter's line followed by the body of the rest. |
| SlackProps.BodyConcat | index.js:25 | Bodies concatenate: the lines appear in sub-map order and none is dropped. |
| SlackProps.BodyNewlines | index.js:25 | When no key or string counter holds a newline, a body holds exactly one newline per counter. |
| SlackProps.MessageSummary | index.js:71-79 | The text is `Mailgun totals for {start}` when start equals end, and `Mailgun totals from {start} to {end}` otherwise. The attachments are those of the aggregated totals. |
| SlackProps.RangeExample | index.js:71-77 | Worked example: the range 2020-01-01 to 2020-01-02 gives `Mailgun totals from 2020-01-01 to 2020-01-02`. |
| SlackProps.SummaryTellsRange | index.js:71-77 | Two summaries of a single-point range agree exactly when they name the same point. No multi-point range reads as a single point. |
| SlackProps.AttachmentTitles | index.js:21-26 | The attachment titles are the totals' categories, in order. |
| SlackProps.MessageTitles | index.js:68-70 | The message's titles are the categories in first-merge order. |
| SlackProps.MessageCategories | index.js:68-70 | A category has an attachment exactly when some field creates it. None has two, and `failed` and `time` have none. |
| SlackProps.SingleDayExample | index.js:68-82 | One record with a timestamp, `accepted: {a: 2}` and `delivered: {b: 3}`, for a single day, gives the exact summary and the two attachments with their table colours and lines. |
| SlackProps.UnknownCategoryExample | index.js:23 | `bounced` gets the fallback colour. |
| Command.Split | index.js:113 | A split returns at least one part, no part holds the separator, and joining the parts gives the text back. |
| Command.SplitJoin | index.js:116 | Splitting a join of separator-free parts gives the parts back. |
| Command.ParseCommand | index.js:113-121 | The duration is never empty and holds no space. It is the default or a prefix of the text. Text with no space gets the default event list. |
| Command.OneToken | index.js:113-121 | A text with no space is the duration alone (`24h` when empty), with the default event list. |
| Command.TwoTokens | index.js:113-121 | The first token is the duration (`24h` when empty) and the second split on commas is the event list. Later tokens are ignored. |
| Command.EmptyEventToken | index.js:116-120 | A present but empty event token gives `[""]`, not the default list. |
| Command.ParseRoundTrip | index.js:113-121 | Writing a duration and an event list as command text, then parsing it, gives them back. |
| Handler.Verified | index.js:90-96 | The token check passes only for a body whose token is strictly equal to the configured one. A configured token admits only that string, an unset one admits only a body without a token, and a non-string token never passes. |
| Handler.Handle | index.js:150-174 | A non-POST request gets 405 before the token is checked. A POST whose token fails the strict-equality check gets 401. A missing token fails it unless no token is configured, and a non-string token always fails it. A message is returned exactly when both checks pass, the text is a string, and the provider call succeeds. That message is the formatted provider response. A text that is not a string gets 500. A failed provider call gets the error's code (`err.code || 500`), or 500 when it has none. |
| Handler.RejectedBeforeFetch | index.js:153-160 | A request rejected with 405 or 401 is answered the same whatever the provider would do. |
| Handler.UnsetTokenAdmitsTokenless | index.js:90-96 | With no token configured, a body without a token passes the token check. |
| Handler.NonStringTokenRejected | index.js:91 | A `null` or numeric token is answered with 401, whether or not a token is configured. |

## Left out

- The Mailgun client, the Promise and callback wiring, and `res.json` / `res.status().send`. These are network and HTTP I/O. The provider call is the `fetch` parameter of `Handler.Handle`.
- `process.env`: `SLACK_TOKEN` is an `Option<string>` parameter, `None` standing for an unset variable. The Mailgun domain and key are not used by the modelled logic.
- `console.error` logging. It has no effect on the response.
- The mutation of the accumulator in place. Each merge builds a new value, so the clone in `reduceField` cannot be observed. That the previous entry for a category is not mutated holds by construction.
- JavaScript key order for integer-like keys, which iterate before string keys. Keys are plain strings in insertion order.
- Names of `Object.prototype` members (`constructor`, `toString`, `valueOf`, `hasOwnProperty`, `__proto__` and the rest). Keys are plain strings with no inherited values. `keyColors[key]` is truthy for such a name, so it gets no fallback colour. Such a sub-key is never set by `reduceField` (index.js:33-35), because its inherited value is neither an integer nor undefined. Assigning a category named `__proto__` (index.js:54) replaces the prototype instead of adding an own key.
- Stats.MergeEntry: sets a sub-key named after an `Object.prototype` member, where the source leaves it unset. The model has no inherited values.
- StatsCounts.AggregateSubKeys: "no sub-key is dropped" does not hold in the source for sub-keys named after `Object.prototype` members, nor for a category named `__proto__`.
- StatsCounts.AggregateCounts: does not cover sub-keys named after `Object.prototype` members, for which the source keeps no count.
- Floating-point counts, `null`, booleans and nested objects as counter values. Counters are integers or strings only.
- The exponent notation JavaScript uses for integers of 1e21 and above, and precision loss above 2^53. `Decimal.Show` prints every digit of an unbounded integer.
- Ill-shaped fields. A timestamp or a `failed`-shaped value under an ordinary key, or plain counters under `failed`, merge nothing here. In JavaScript, lodash would iterate a string's characters or store nested objects.
- lodash's treatment of an object that has a numeric `length` property as array-like when iterating.
- A throw inside the provider callback (index.js:128). An example is a callback that gets neither an error nor a response, where destructuring `undefined` (index.js:68) fails. The throw happens outside the promise executor, so the `.catch` at index.js:169 never sees it and no response is written. A response without `stats` does not throw: lodash's `reduce` over `undefined` returns its `{}` seed, giving a message with no attachments, as `stats == []` does here.
- A body whose `text` is not a string is modelled as `None` and answered with 500, the status of the TypeError `split` would throw. The different messages of the thrown errors are not modelled.
- Non-numeric error codes. `err.code || 500` (index.js:171) passes any truthy code through, a string included. The model carries only integer codes, 0 standing for none.
