# yeelight client core, modelled in Dafny

This project models the core of `yeelight`, a Rust client library for
Yeelight smart bulbs. The client talks to a bulb over one TCP connection
using the bulb's line protocol. Each request is one JSON line:

    {"id":<n>,"method":"<name>","params":[<params>]}\r\n

The bulb answers each request with a line that carries the same id. It
also pushes notification lines at any time. The modelled parts are:

- `wrappers.dfy`: `Option` and `Result`.
- `text.dfy`: the Rust standard library behaviour the core relies on.
  - `str::split`, `join` and `trim_start_matches`.
  - `eq_ignore_ascii_case`.
  - The decimal and hexadecimal rendering of integers.
  - `from_str_radix` and `parse`: a leading `+` or `-`, then digits, with
    the overflow checks of each integer width.
- `wire.dfy`: how `src/lib.rs` encodes the parameters of a request.
  - The `Stringify` encodings.
  - The enumerations of `enum_str!`: their wire literal, their
    case-insensitive `FromStr`, and `variants()`.
  - Flow tuples and flow expressions, in both directions.
  - `Properties` and the `params!` join.
  - Every command of `gen_func!`, with the method name and the parameter
    text it sends. The one exception is an empty flow expression, which is
    sent with its corrected text (see Findings).
  - The fixed choices of `on`, `off`, `bg_on`, `bg_off` and `cron_get`.
- `reader.dfy`: the reader side (`src/reader.rs`).
  - The three shapes a decoded line has (result, error, notification).
  - `BulbError` and its `Display`.
  - The table of requests awaiting a reply and the optional notification
    channel.
  - The read loop that routes each line. It exists twice: as pure functions
    on a value (`Dispatched`, `Run`), and as a `Reader` class that updates
    the shared `Table` and `NotifyChan` objects in place. The class methods
    are proved equal to the pure functions.
- `writer.dfy`: the writer side (`src/writer.rs`).
  - A `Writer` class with its message counter, its "wait for reply" flag,
    the lines written so far, and the shared table.
  - The request line and a parser that reads it back.
  - What a caller of `send` ends up receiving.
- `connection.dfy`: `Bulb` from `src/lib.rs`.
  - A writer and a reader that share one table, plus the notification
    channel.
  - The toggles `no_response` / `get_response`, and `set_notify` /
    `get_notify`.
  - The command methods and the switch shortcuts.
  - The five exchanges of the library's own tests, replayed on the model.
- `discover.dfy`: discovery (`src/discover.rs`).
  - `parse` of a bulb's answer to the discovery search: status line,
    `key: value` headers, and a hexadecimal `id`.
  - The connect address taken from `Location`.
  - Bulb identity by `uid`, and the set of found bulbs with one entry per
    bulb.

Sockets are replaced by values:
- A write either succeeds, appending the line to `written`, or fails with a
  given error text.
- The bulb's side of the stream is a sequence of already-decoded lines,
  lines that do not decode, and read errors.
- A discovery answer is the text its bytes decode to, or `None` when they
  are not UTF-8.

## Model

| member | source | states |
|---|---|---|
| `Text.SplitOn` | src/discover.rs:59 | the pieces join back to the input with the separator, there is at least one piece, and no piece holds the separator |
| `Text.SplitJoin` | src/lib.rs:507 | splitting pieces joined with a non-empty separator gives back the pieces, when no piece but the last holds the separator's first character and the last holds no separator (for a one-character separator such as `,`: no piece holds it) |
| `Text.TrimStartMatches` | src/discover.rs:78 | the result is a suffix of the input and does not itself start with the pattern |
| `Text.TrimStartRemovesCopies` | src/discover.rs:78 | the input is some number of copies of the pattern followed by the result, so only whole leading copies are removed |
| `Text.TrimStartOfRepeat` | src/discover.rs:28 | any number of leading copies is removed from a text that does not itself start with the pattern |
| `Text.EqIgnoreAsciiCaseLower` | src/lib.rs:256 | two texts are equal ignoring ASCII case exactly when their ASCII-lowercased forms are equal |
| `Text.ParseInt` | src/discover.rs:79 | a successful parse lies in the range of the integer type, and the empty text is the `Empty` error |
| `Text.DigitsRoundTrip` | src/discover.rs:79 | the decimal or hexadecimal digits of every number in range parse back to that number |
| `Text.DigitsOverflow` | src/discover.rs:79 | the digits of a number above the top of the type's range fail to parse with `PosOverflow` |
| `Text.ParseIntRejects` | src/discover.rs:79 | a text holding a character that is no digit of the base fails to parse, unless that character is the one sign accepted in front |
| `Text.IntTextRoundTrip` | src/lib.rs:508-522 | `to_string` then `parse` is the identity for every integer in the range of the type |
| `Text.IntTextInjective` | src/lib.rs:211-223 | distinct integers are written as distinct texts |
| `Wire.QuoteRoundTrip` | src/lib.rs:205-209 | a quoted text unquotes to itself, whatever it holds |
| `Wire.LiteralTextInjective` | src/lib.rs:235-247 | distinct wire literals (quoted names or bare codes) are written as distinct texts |
| `Wire.FirstMatch` | src/lib.rs:254-256 | the index found names a match ignoring ASCII case and no earlier name matches; with no index, no name matches |
| `Wire.EnumFromStr` | src/lib.rs:250-268 | `from_str` succeeds exactly when some variant name matches ignoring ASCII case, gives a variant with such a name, and otherwise fails with the message listing every name |
| `Wire.EnumFromStrOfName` | src/lib.rs:254-256 | when names are distinct ignoring case, any casing of a variant's name gives that variant |
| `Wire.EnumFromStrIgnoresCase` | src/lib.rs:256 | two texts equal ignoring ASCII case parse the same way |
| `Wire.PropertyFromStrNames` | src/lib.rs:283-307 | `Property::from_str` gives the named variant for any casing of its name |
| `Wire.PropertyVariantsComplete` | src/lib.rs:283-307 | every `Property` is in `variants()`, and distinct properties have distinct wire literals |
| `Wire.PropertyOfWireInverse` | src/lib.rs:283-307 | each property is recovered from its wire text |
| `Wire.PowerFromStrNames` | src/lib.rs:309-314 | `Power::from_str` gives the named variant for any casing of its name |
| `Wire.PowerVariantsComplete` | src/lib.rs:309-314 | every `Power` is in `variants()`, with distinct literals for distinct variants |
| `Wire.EffectFromStrNames` | src/lib.rs:315-325 | `Effect::from_str` gives the named variant for any casing of its name |
| `Wire.EffectVariantsComplete` | src/lib.rs:315-325 | every `Effect` is in `variants()`, with distinct literals for distinct variants |
| `Wire.PropFromStrNames` | src/lib.rs:326-330 | `Prop::from_str` gives the named variant for any casing of its name |
| `Wire.PropVariantsComplete` | src/lib.rs:326-330 | every `Prop` is in `variants()`, with distinct literals for distinct variants |
| `Wire.ClassFromStrNames` | src/lib.rs:331-337 | `Class::from_str` gives the named variant for any casing of its name |
| `Wire.ClassVariantsComplete` | src/lib.rs:331-337 | every `Class` is in `variants()`, with distinct literals for distinct variants |
| `Wire.ModeFromStrNames` | src/lib.rs:338-345 | `Mode::from_str` gives the named variant for any casing of its name |
| `Wire.ModeVariantsComplete` | src/lib.rs:338-345 | every `Mode` is in `variants()`, with distinct numeric codes for distinct variants |
| `Wire.CronTypeFromStrNames` | src/lib.rs:346-348 | `CronType::from_str` accepts `Off` in any casing |
| `Wire.CronTypeVariantsComplete` | src/lib.rs:346-348 | the one `CronType` is in `variants()` |
| `Wire.CfActionFromStrNames` | src/lib.rs:349-353 | `CfAction::from_str` gives the named variant for any casing of its name |
| `Wire.CfActionVariantsComplete` | src/lib.rs:349-353 | every `CfAction` is in `variants()`, with distinct codes for distinct variants |
| `Wire.AdjustActionFromStrNames` | src/lib.rs:354-358 | `AdjustAction::from_str` gives the named variant for any casing of its name |
| `Wire.AdjustActionVariantsComplete` | src/lib.rs:354-358 | every `AdjustAction` is in `variants()`, with distinct literals for distinct variants |
| `Wire.MusicActionFromStrNames` | src/lib.rs:359-362 | `MusicAction::from_str` gives the named variant for any casing of its name |
| `Wire.MusicActionVariantsComplete` | src/lib.rs:359-362 | every `MusicAction` is in `variants()`, with distinct codes for distinct variants |
| `Wire.FlowModeFromStrNames` | src/lib.rs:363-367 | `FlowMode::from_str` gives the named variant for any casing of its name |
| `Wire.FlowModeVariantsComplete` | src/lib.rs:363-367 | every `FlowMode` is in `variants()`, with distinct codes for distinct variants |
| `Wire.TupleConstructorsText` | src/lib.rs:407-458 | `rgb`, `ct` and `sleep` tuples are written as `ms,1,value,brightness`, `ms,2,value,brightness` and `ms,7,0,-1` |
| `Wire.StringifyFlowAsWritten` | src/lib.rs:489-500 | the push/pop loop gives the quoted, comma-joined tuples for a non-empty expression, and a lone `"` for an empty one |
| `Wire.EmptyFlowAsWrittenUnbalanced` | src/lib.rs:491-497 | the lone `"` written for an empty expression is no quoted text at all, whereas the intended parameter is `""` |
| `Wire.FlowParam` | src/lib.rs:489-500 | the corrected flow parameter, which the model's commands send: it unquotes to the tuples joined with commas, the empty expression included |
| `Wire.ParseFlowMode` | src/lib.rs:510-521 | a mode field is accepted exactly when it is a `FlowMode` name in any case or one of `1`, `2`, `7`; anything else fails with the source's message |
| `Wire.ParseFlowModeCode` | src/lib.rs:510-521 | the code each mode is written as reads back as that mode |
| `Wire.ParseTupleFields` | src/lib.rs:507-528 | the four fields of a tuple parse back to the tuple |
| `Wire.ParseFlow` | src/lib.rs:505-531 | the loop that parses groups of four and pushes each tuple returns what `from_str` specifies, stopping at the first error |
| `Wire.ParseGroupsDropsPartialGroup` | src/lib.rs:507 | fewer than four pieces left after whole groups are ignored |
| `Wire.FlowRoundTrip` | src/lib.rs:449-531 | `from_str` of the comma-joined tuple texts gives back the tuples (at millisecond resolution) |
| `Wire.FlowParamRoundTrip` | src/lib.rs:489-531 | the quoted flow parameter holds a text that parses back to the same tuples |
| `Wire.PropertiesTextSplit` | src/lib.rs:552-560 | the text of a property list splits on commas into each property's literal, in order |
| `Wire.MethodName` | src/lib.rs:577-598 | the method name sent never holds a double quote, and starts with `bg_` exactly when the background light is addressed |
| `Wire.SwitchCommandText` | src/lib.rs:659-694 | the switch shortcuts send `set_power` or `bg_set_power` with the power literal, `"sudden"`, 0 ms and mode 0 |
| `Wire.CronGetText` | src/lib.rs:832-834 | `cron_get` sends `get_prop` with `"delayoff"` |
| `Wire.SetPowerParamsExample` | src/lib.rs:896-911 | `set_power(On, Smooth, 500 ms, Normal)` sends the parameters `"on","smooth",500,0` |
| `Wire.GetPropParamsExample` | src/lib.rs:879-886 | `get_prop([Name, Power])` sends the parameters `"name","power"` |
| `Reader.ErrResponseTextInjective` | src/reader.rs:94-96 | the display of an error response determines its code and its message |
| `Reader.UnsupportedErrorText` | src/lib.rs:940-944 | error -1 "unsupported method" displays as `Bulb response error: unsupported method (code -1)` |
| `Reader.Dispatched` | src/reader.rs:45-72 | routing a line neither adds nor forgets an id, only shrinks the waiting set, and keeps waiting and answered ids apart |
| `Reader.DispatchReply` | src/reader.rs:46-65 | a reply to a waiting id removes that id and delivers `Ok(result)` or `ErrResponse(code, message)` to it, changing nothing else; a reply to any other id changes nothing |
| `Reader.AnswerIsFinal` | src/reader.rs:47-57 | an answered id keeps its answer whatever lines come later, so each request is answered at most once |
| `Reader.FirstReplyWins` | src/reader.rs:47-57 | the first reply to a waiting id is the one its request receives |
| `Reader.NotificationsDelivered` | src/reader.rs:66-72 | with a channel set, every notification reaches it in arrival order; without one, all are dropped |
| `Reader.TableIgnoresNotifications` | src/reader.rs:66-72 | the table ends as if the notifications had not been there |
| `Reader.RepliesCommute` | src/reader.rs:45-65 | replies to different ids have the same effect in either order |
| `Reader.EachRequestGetsItsReply` | src/reader.rs:45-65 | replies to distinct waiting ids, in any order of arrival: each request receives its own reply, those ids stop waiting, and no other id does |
| `Reader.RunAllDecoded` | src/reader.rs:42-75 | when every line decodes, all are routed in order and the loop ends with the stream |
| `Reader.RunStopsAtFailure` | src/reader.rs:42-44 | nothing after the first line that fails to read or decode is routed |
| `Reader.RunKeepsIds` | src/reader.rs:39-76 | the read loop keeps the set of known ids and the table's consistency |
| `Reader.Table.constructor` | src/lib.rs:108-109 | the table starts empty |
| `Reader.NotifyChan.constructor` | src/lib.rs:110 | no notification channel is set at first |
| `Reader.Reader.constructor` | src/reader.rs:32-37 | the reader keeps the table and the channel it is given |
| `Reader.Reader.Dispatch` | src/reader.rs:45-72 | routing one line in place updates the table and the channel exactly as `Dispatched` specifies |
| `Reader.Reader.Start` | src/reader.rs:39-76 | the loop leaves the table and channel, and exits, exactly as `Run` specifies |
| `Writer.RequestLineRoundTrip` | src/writer.rs:56-65 | a request line reads back as its id, method name and parameters (method names without a double quote, ids within `u64`) |
| `Writer.RequestLineExample` | src/lib.rs:898 | message 1 of `set_power` is the line the library's test expects |
| `Writer.Awaited` | src/writer.rs:49 | a caller waits while its id is unanswered, gets `Ok(Some(result))` for a result and the error unchanged for an error |
| `Writer.DispatchedKeepsIssued` | src/reader.rs:45-72 | routing a line keeps every id in the table among those the counter issued |
| `Writer.Writer.constructor` | src/writer.rs:18-25 | the counter starts at 0, replies are awaited, nothing is written yet; the table invariant holds exactly when the table given is empty |
| `Writer.Writer.NextId` | src/writer.rs:27-30 | the id is one more than the previous counter, and the counter becomes it; every id in the table stays among those issued |
| `Writer.Writer.SetGetResponse` | src/writer.rs:32-34 | only the reply flag changes, and the table invariant is kept |
| `Writer.Writer.CraftMessage` | src/writer.rs:56-65 | the next id is taken and the request line for it is made, keeping the table invariant |
| `Writer.Writer.Send` | src/writer.rs:36-54 | every call uses up an id, in both modes. In reply mode the id enters the table before the write and stays there if the write fails. The line is written exactly when the write succeeds. A failed write returns `Io`; otherwise the caller awaits the id, or gets `Ok(None)` in no-response mode. Answers already delivered stay as they are. Every id in the table was issued by the counter |
| `Connection.ConnectPort` | src/lib.rs:58-61 | port 0 means 55443, and any other port is kept |
| `Connection.Bulb.Attach` | src/lib.rs:94-116 | a new writer and reader share one empty table; no notification channel; replies awaited |
| `Connection.Bulb.NoResponse` | src/lib.rs:135-138 | later commands do not wait for a reply, and nothing else changes |
| `Connection.Bulb.GetResponse` | src/lib.rs:143-146 | later commands wait for their reply again |
| `Connection.Bulb.SetNotify` | src/lib.rs:165-167 | notifications now go to the given channel |
| `Connection.Bulb.GetNotify` | src/lib.rs:154-158 | a new, empty channel replaces the current one |
| `Connection.Bulb.Invoke` | src/lib.rs:577-586 | a command method sends its Rust name and its parameter text through `send`, with the effect `Writer.Writer.Sends` states |
| `Connection.Bulb.On` | src/lib.rs:659-667 | `on` sends `set_power` with `"on","sudden",0,0`, whatever the cron type |
| `Connection.Bulb.Off` | src/lib.rs:668-676 | `off` sends `set_power` with `"off","sudden",0,0` |
| `Connection.Bulb.BgOn` | src/lib.rs:677-685 | `bg_on` sends `bg_set_power` with `"on","sudden",0,0` |
| `Connection.Bulb.BgOff` | src/lib.rs:686-694 | `bg_off` sends `bg_set_power` with `"off","sudden",0,0` |
| `Connection.Bulb.CronGet` | src/lib.rs:832-834 | `cron_get` sends `get_prop` with `"delayoff"` |
| `Connection.Bulb.Receive` | src/reader.rs:45-72 | one line routed by the reader updates the shared state as `Dispatched` specifies, and leaves the counter alone |
| `Connection.Bulb.Listen` | src/reader.rs:39-76 | the reader task over the bulb's lines updates the shared state and exits as `Run` specifies |
| `Connection.GetPropExchange` | src/lib.rs:877-894 | the `get_prop` test: the expected line is written and the caller receives `["bulb_name", "on"]` |
| `Connection.SetPowerExchange` | src/lib.rs:896-919 | the `set_power` test: the expected line is written and the caller receives `["ok"]` |
| `Connection.UnsupportedExchange` | src/lib.rs:921-952 | the `unsupported` test: the caller receives error -1 "unsupported method", displayed as the test expects |
| `Connection.NoResponseExchange` | src/lib.rs:954-974 | the `no_response` test: the line is still written, `send` returns `Ok(None)`, and the bulb's undecodable answer ends the reader |
| `Connection.NotifyExchange` | src/lib.rs:976-1008 | the `notify` test: a notification before the reply reaches the channel and the caller still receives `["ok"]` |
| `Discover.ParseUid` | src/discover.rs:78-79 | an id read is a 64-bit number |
| `Discover.ParseUidOverflow` | src/discover.rs:78-79 | an id too large for 64 bits makes `parse` give nothing, however it is padded |
| `Discover.ParseUidRejectsNonHex` | src/discover.rs:78-79 | an id that holds a non-hexadecimal character after its leading `0x` copies are trimmed makes `parse` give nothing; only one leading `+` is let through |
| `Discover.Announced` | src/discover.rs:55-84 | an accepted answer starts with the exact status line, and its headers hold an `id` that reads as the returned uid |
| `Discover.StatusLineLeads` | src/discover.rs:61-66 | an answer whose first line is the status line is that line alone, or starts with it and a line break |
| `Discover.Parse` | src/discover.rs:55-84 | the line-by-line header loop returns what `Announced` specifies |
| `Discover.CollectLastWins` | src/discover.rs:68-75 | a name is in the header table exactly when some line names it, and then holds the value of the last such line |
| `Discover.HeaderLineSplit` | src/discover.rs:69-73 | a header line `name: value` reads back as that name and value |
| `Discover.CollectHeaderLines` | src/discover.rs:68-75 | the header lines of an answer fill the table with its headers, a later header overriding an earlier one |
| `Discover.ParseUidOfText` | src/discover.rs:77-80 | `0x`, any number of zeros and the hexadecimal digits of a 64-bit number read back as that number |
| `Discover.AnnouncedRoundTrip` | src/discover.rs:55-84 | an answer written the way bulbs write it reads back as its id and the table of all its headers |
| `Discover.ConnectAddress` | src/discover.rs:26-28 | there is an address exactly when `Location` is present, and it does not start with `yeelight://` |
| `Discover.ConnectAddressOf` | src/discover.rs:27-28 | a `Location` of `yeelight://host:port` connects to `host:port` |
| `Discover.FindBulbs` | src/discover.rs:120-128 | the search loop keeps what `Deduplicated` specifies: an arrival is skipped when a bulb with its id was already found |
| `Discover.DeduplicatedFindsEachBulbOnce` | src/discover.rs:36-50 | with bulbs equal by id, the bulbs found have distinct ids, every bulb that answered is found, and each is kept as its first answer |

## Left out

- Sockets, the spawned reader task and concurrency are not modelled. This covers the TCP connect, attach and split, `spawn`, `BufReader::lines`, `write_all`, the `Arc<Mutex<…>>` locks and the oneshot and mpsc channels. The writer and the reader act on plain shared objects, one call at a time, so interleavings are the orders in which a scenario calls them.
- The capacity of 10 of the channel `get_notify` makes, and the reader waiting on a full channel, are not modelled: a set channel takes every notification.
- JSON decoding by serde is not modelled. The reader takes lines that are already decoded as a result, an error or a notification. A notification's values are kept as texts.
- `BulbError::Recv` is never produced. Nothing in the code removes a reply channel from the table without sending on it, so the model's table never drops one.
- An I/O error keeps only its text.
- Writer.Writer.NextId: the counter is an unbounded natural number; the `u64` overflow after 2^64 - 1 messages is not modelled.
- `Duration` is kept in whole milliseconds, the unit in which it is written and read; sub-millisecond parts are not modelled.
- `set_name` and `set_music` quote the name and host without escaping, as the source does. A double quote in them is not given any meaning.
- Connection.Bulb.Invoke: `start_cf` and `bg_start_cf` with an empty flow expression send the corrected parameter `""` (`Wire.FlowParam`), not the lone `"` the source writes; the as-written text is modelled by `Wire.StringifyFlowAsWritten` (see Findings).
- Writer.RequestLineRoundTrip: holds only for method names without a double quote. Every method name the library sends has none (`Wire.MethodName`).
- `start_music` is not modelled: it opens a listening socket, then calls `set_music` and `no_response`, which are modelled.
- `connect` and `attach` are modelled by `Connection.Bulb.Attach` and `Connection.ConnectPort`; opening the stream is not.
- Discover.Announced: the UTF-8 decoding of the datagram is a parameter (`None` for bytes that are not UTF-8).
- Discover.ConnectAddress: the source panics when `Location` is missing; the model gives no address instead.
- The discovery search itself is not modelled: the UDP socket, `send_payload`, `relay` and the timeout of `find_bulbs_timeout`. The bulbs that arrive before the timeout are the input of `Discover.FindBulbs`.
- Discover.FindBulbs: the found bulbs are kept in arrival order; the source returns them in the iteration order of a `HashSet`, which is not modelled.
- Logging, the command-line programs and the examples are not modelled.

## Findings

| source | as written | input that shows it | evidently intended | confidence | as-written member | corrected member |
|---|---|---|---|---|---|---|
| src/lib.rs:489-500 | `FlowExpresion::stringify` pushes `"`, then each tuple and a comma, then pops the last character and pushes `"`. For an empty expression the pop removes the opening quote. | `FlowExpresion(vec![])` is written as a lone `"`, which leaves the request's `params` unbalanced. | `""`, the quoted empty text; non-empty expressions are unchanged | not executed | `Wire.StringifyFlowAsWritten` | `Wire.FlowParam` |
