/**
 * The receiving side of a connection (src/reader.rs): the decoded lines a
 * bulb sends, the error type of every request, the table of requests
 * awaiting a reply shared with the writer, the optional notification
 * channel, and the read loop that routes each line.
 *
 * The shared state is described twice: as the value `Link` with the pure
 * functions `Dispatched` and `Run` that specify routing, and as the objects
 * `Table` and `NotifyChan` that the `Reader` updates in place.
 */
module Reader {
  import opened Wrappers
  import opened Text

  /** `Response`: the strings of a `result` array. */
  type Response = seq<string>

  /** `Notification`: the `params` object of a notification, each value kept as a text. */
  datatype Notification = Notification(params: map<string, string>)

  /** `JsonResponse`: one line from the bulb once decoded. */
  datatype Message =
    | ResultMsg(id: U64, result: Response)
    | ErrorMsg(id: U64, code: I32, message: string)
    | NotificationMsg(name: string, params: map<string, string>)

  /** `BulbError`. An I/O error keeps only its text. */
  datatype BulbError =
    | Io(description: string)
    | ErrResponse(code: I32, message: string)
    | Recv

  /** `Display for BulbError`. */
  function ErrorText(e: BulbError): string
  {
    match e
    case Io(description) => description
    case ErrResponse(code, message) => "Bulb response error: " + message + " (code " + IntText(code) + ")"
    case Recv => "channel closed"
  }

  /** A character an integer's text is made of. */
  predicate NumChar(c: char)
  {
    '0' <= c <= '9' || c == '-'
  }

  /** The length of the longest run of integer characters that ends `s`. */
  function NumRun(s: string): nat
  {
    if |s| > 0 && NumChar(s[|s| - 1]) then 1 + NumRun(s[..|s| - 1]) else 0
  }

  lemma {:induction false} NumRunOf(p: string, t: string)
    requires |p| > 0 && !NumChar(p[|p| - 1])
    requires forall k :: 0 <= k < |t| ==> NumChar(t[k])
    ensures NumRun(p + t) == |t|
    decreases |t|
  {
    if t == [] {
      assert p + t == p;
    } else {
      assert (p + t)[..|p + t| - 1] == p + t[..|t| - 1];
      NumRunOf(p, t[..|t| - 1]);
    }
  }

  /** The text of an error response names its message and its code; no two responses share a text. */
  lemma ErrResponseTextInjective(c1: I32, m1: string, c2: I32, m2: string)
    requires ErrorText(ErrResponse(c1, m1)) == ErrorText(ErrResponse(c2, m2))
    ensures c1 == c2 && m1 == m2
  {
    var s := ErrorText(ErrResponse(c1, m1));
    var t1, t2 := IntText(c1), IntText(c2);
    var n := |s|;
    IntTextAlphabet(c1);
    IntTextAlphabet(c2);
    var p1 := "Bulb response error: " + m1 + " (code ";
    var p2 := "Bulb response error: " + m2 + " (code ";
    assert s == p1 + t1 + ")" && s == p2 + t2 + ")";
    assert s[..n - 1] == p1 + t1 && s[..n - 1] == p2 + t2;
    NumRunOf(p1, t1);
    NumRunOf(p2, t2);
    assert t1 == s[n - |t1| - 1..n - 1] == t2;
    IntTextInjective(c1, c2);
    assert p1 == s[..n - |t1| - 1] == p2;
    assert m1 == p1[21..|p1| - 7] == m2;
  }

  /** The error text of the library's own test of an unsupported method. */
  lemma UnsupportedErrorText()
    ensures ErrorText(ErrResponse(-1, "unsupported method")) == "Bulb response error: unsupported method (code -1)"
  {
    assert NatText(1) == "1" by { assert DigitChar(1) == '1'; }
    assert IntText(-1) == "-1";
    var a := "Bulb response error: " + "unsupported method";
    assert a == "Bulb response error: unsupported method";
    var b := a + " (code ";
    assert b == "Bulb response error: unsupported method (code ";
    var c := b + "-1";
    assert c == "Bulb response error: unsupported method (code -1";
    assert ErrorText(ErrResponse(-1, "unsupported method")) == c + ")";
  }

  // ---------------------------------------------------------------------
  // The shared state, as a value

  /**
   * The state the reader and writer share: the ids with a reply channel in
   * the table (`waiting`), what was sent through the channel of each id
   * already answered (`delivered`), and the notifications pushed into the
   * current notification channel, if one is set (`sink`).
   */
  datatype Link = Link(waiting: set<nat>, delivered: map<nat, Result<Response, BulbError>>, sink: Option<seq<Notification>>)

  /** No id is both awaiting a reply and answered. */
  predicate LinkValid(l: Link)
  {
    l.waiting !! l.delivered.Keys
  }

  /** Every id the link knows of, answered or not. */
  function Ids(l: Link): set<nat>
  {
    l.waiting + l.delivered.Keys
  }

  /** Take the channel of `id` out of the table and send `outcome` through it; an unknown id is ignored. */
  function Resolve(l: Link, id: nat, outcome: Result<Response, BulbError>): Link
  {
    if id in l.waiting then l.(waiting := l.waiting - {id}, delivered := l.delivered[id := outcome]) else l
  }

  /** The routing of one decoded line (the body of the loop in `Reader::start`). */
  function Dispatched(l: Link, m: Message): (r: Link)
    ensures LinkValid(l) ==> LinkValid(r)
    ensures Ids(r) == Ids(l) && r.waiting <= l.waiting
  {
    match m
    case ResultMsg(id, result) => Resolve(l, id, Ok(result))
    case ErrorMsg(id, code, message) => Resolve(l, id, Err(ErrResponse(code, message)))
    case NotificationMsg(_, params) =>
      match l.sink
      case None => l
      case Some(q) => l.(sink := Some(q + [Notification(params)]))
  }

  /** The reply a message carries for its id, if it is a reply. */
  function ReplyOutcome(m: Message): Option<Result<Response, BulbError>>
  {
    match m
    case ResultMsg(_, result) => Some(Ok(result))
    case ErrorMsg(_, code, message) => Some(Err(ErrResponse(code, message)))
    case NotificationMsg(_, _) => None
  }

  /**
   * A reply to an id in the table answers it with what it carries and
   * touches nothing else; a reply to any other id changes nothing.
   */
  lemma DispatchReply(l: Link, m: Message)
    requires !m.NotificationMsg?
    ensures m.id in l.waiting ==> Dispatched(l, m) == l.(waiting := l.waiting - {m.id}, delivered := l.delivered[m.id := ReplyOutcome(m).value])
    ensures m.id !in l.waiting ==> Dispatched(l, m) == l
  {
  }

  /** Messages routed in order. */
  function DispatchAll(l: Link, ms: seq<Message>): Link
  {
    if ms == [] then l else Dispatched(DispatchAll(l, ms[..|ms| - 1]), ms[|ms| - 1])
  }

  /** An answered id keeps its answer whatever arrives later: each request is answered at most once. */
  lemma {:induction false} AnswerIsFinal(l: Link, ms: seq<Message>, id: nat)
    requires LinkValid(l) && id in l.delivered
    ensures LinkValid(DispatchAll(l, ms))
    ensures id in DispatchAll(l, ms).delivered && DispatchAll(l, ms).delivered[id] == l.delivered[id]
  {
    if ms != [] {
      AnswerIsFinal(l, ms[..|ms| - 1], id);
    }
  }

  /** The first reply carrying an id in the table is the one its request receives. */
  lemma FirstReplyWins(l: Link, m: Message, later: seq<Message>)
    requires LinkValid(l) && !m.NotificationMsg? && m.id in l.waiting
    ensures m.id in DispatchAll(Dispatched(l, m), later).delivered
    ensures DispatchAll(Dispatched(l, m), later).delivered[m.id] == ReplyOutcome(m).value
  {
    AnswerIsFinal(Dispatched(l, m), later, m.id);
  }

  /** The notifications among some messages, in order. */
  function NotificationsOf(ms: seq<Message>): seq<Notification>
  {
    if ms == [] then []
    else NotificationsOf(ms[..|ms| - 1]) + (if ms[|ms| - 1].NotificationMsg? then [Notification(ms[|ms| - 1].params)] else [])
  }

  /** The replies among some messages, in order. */
  function RepliesOf(ms: seq<Message>): seq<Message>
  {
    if ms == [] then []
    else RepliesOf(ms[..|ms| - 1]) + (if ms[|ms| - 1].NotificationMsg? then [] else [ms[|ms| - 1]])
  }

  /**
   * With a channel set, every notification reaches it, in the order
   * received; without one, all are dropped.
   */
  lemma {:induction false} NotificationsDelivered(l: Link, ms: seq<Message>)
    ensures DispatchAll(l, ms).sink == (if l.sink.Some? then Some(l.sink.value + NotificationsOf(ms)) else None)
  {
    if ms != [] {
      var init, last := ms[..|ms| - 1], ms[|ms| - 1];
      NotificationsDelivered(l, init);
      var before := DispatchAll(l, init);
      assert DispatchAll(l, ms) == Dispatched(before, last);
      if last.NotificationMsg? {
        assert NotificationsOf(ms) == NotificationsOf(init) + [Notification(last.params)];
        if l.sink.Some? {
          assert l.sink.value + NotificationsOf(init) + [Notification(last.params)] == l.sink.value + NotificationsOf(ms);
        }
      } else {
        assert NotificationsOf(ms) == NotificationsOf(init) + [] == NotificationsOf(init);
      }
    } else if l.sink.Some? {
      assert l.sink.value + [] == l.sink.value;
    }
  }

  /** The table ends as if the notifications among the messages had not been there. */
  lemma {:induction false} TableIgnoresNotifications(l: Link, ms: seq<Message>)
    ensures DispatchAll(l, ms).waiting == DispatchAll(l, RepliesOf(ms)).waiting
    ensures DispatchAll(l, ms).delivered == DispatchAll(l, RepliesOf(ms)).delivered
  {
    if ms != [] {
      var init, last := ms[..|ms| - 1], ms[|ms| - 1];
      TableIgnoresNotifications(l, init);
      var before := DispatchAll(l, init);
      assert DispatchAll(l, ms) == Dispatched(before, last);
      if last.NotificationMsg? {
        assert RepliesOf(ms) == RepliesOf(init) + [] == RepliesOf(init);
        assert Dispatched(before, last).waiting == before.waiting;
        assert Dispatched(before, last).delivered == before.delivered;
      } else {
        var rs := RepliesOf(ms);
        assert rs == RepliesOf(init) + [last];
        assert rs[..|rs| - 1] == RepliesOf(init) && rs[|rs| - 1] == last;
        assert DispatchAll(l, rs) == Dispatched(DispatchAll(l, RepliesOf(init)), last);
      }
    }
  }

  /** Two replies to different ids may arrive in either order with the same effect. */
  lemma RepliesCommute(l: Link, m1: Message, m2: Message)
    requires !m1.NotificationMsg? && !m2.NotificationMsg? && m1.id != m2.id
    ensures Dispatched(Dispatched(l, m1), m2) == Dispatched(Dispatched(l, m2), m1)
  {
    var a, b := Dispatched(Dispatched(l, m1), m2), Dispatched(Dispatched(l, m2), m1);
    assert a.delivered == b.delivered;
  }

  /** The ids the replies among some messages answer. */
  function RepliedIds(ms: seq<Message>): set<nat>
  {
    set k | 0 <= k < |ms| && !ms[k].NotificationMsg? :: ms[k].id
  }

  /**
   * Replies to distinct waiting ids, arriving in any order: each request
   * receives its own reply, those ids stop waiting and no other does.
   */
  lemma {:induction false} EachRequestGetsItsReply(l: Link, ms: seq<Message>)
    requires LinkValid(l)
    requires forall k :: 0 <= k < |ms| ==> !ms[k].NotificationMsg? && ms[k].id in l.waiting
    requires forall j, k :: 0 <= j < k < |ms| ==> ms[j].id != ms[k].id
    ensures forall k :: 0 <= k < |ms| ==> ms[k].id in DispatchAll(l, ms).delivered && DispatchAll(l, ms).delivered[ms[k].id] == ReplyOutcome(ms[k]).value
    ensures DispatchAll(l, ms).waiting == l.waiting - RepliedIds(ms)
  {
    if ms != [] {
      var init, last := ms[..|ms| - 1], ms[|ms| - 1];
      EachRequestGetsItsReply(l, init);
      var before := DispatchAll(l, init);
      assert RepliedIds(ms) == RepliedIds(init) + {last.id} by {
        forall id | id in RepliedIds(ms) ensures id in RepliedIds(init) + {last.id} {
          var k :| 0 <= k < |ms| && !ms[k].NotificationMsg? && ms[k].id == id;
          if k < |ms| - 1 {
            assert init[k] == ms[k];
          }
        }
      }
      assert last.id !in RepliedIds(init);
      assert last.id in before.waiting;
      DispatchReply(before, last);
      forall k | 0 <= k < |ms| - 1
        ensures ms[k].id in DispatchAll(l, ms).delivered && DispatchAll(l, ms).delivered[ms[k].id] == ReplyOutcome(ms[k]).value
      {
        assert init[k] == ms[k];
      }
    }
  }

  // ---------------------------------------------------------------------
  // The read loop, as a value

  /** What reading the next line yields: a decoded line, a line that does not decode, or a read error. */
  datatype Inbound = Line(message: Message) | Undecodable(text: string) | ReadFailed(description: string)

  /** How `Reader::start` ends: at the end of the stream (`Ok(())`), or with the error that stopped it. */
  datatype Exit = EndOfStream | DecodeError(text: string) | ReadError(description: string)

  /** `Reader::start` on the lines the connection delivers: route each line, stop at the first failure. */
  function Run(l: Link, input: seq<Inbound>): (Link, Exit)
    decreases |input|
  {
    if input == [] then (l, EndOfStream)
    else match input[0]
      case Line(m) => Run(Dispatched(l, m), input[1..])
      case Undecodable(text) => (l, DecodeError(text))
      case ReadFailed(description) => (l, ReadError(description))
  }

  predicate AllDecoded(input: seq<Inbound>)
  {
    forall k :: 0 <= k < |input| ==> input[k].Line?
  }

  function MessagesOf(input: seq<Inbound>): seq<Message>
    requires AllDecoded(input)
  {
    seq(|input|, k requires 0 <= k < |input| => input[k].message)
  }

  lemma {:induction false} DispatchAllSnocFront(l: Link, m: Message, ms: seq<Message>)
    ensures DispatchAll(l, [m] + ms) == DispatchAll(Dispatched(l, m), ms)
    decreases |ms|
  {
    if ms != [] {
      DispatchAllSnocFront(l, m, ms[..|ms| - 1]);
      assert ([m] + ms)[..|ms|] == [m] + ms[..|ms| - 1];
    } else {
      assert [m] + ms == [m];
      assert [m][..0] == [];
    }
  }

  /** Lines that all decode are all routed, in order, and the loop ends with the stream. */
  lemma {:induction false} RunAllDecoded(l: Link, input: seq<Inbound>)
    requires AllDecoded(input)
    ensures Run(l, input) == (DispatchAll(l, MessagesOf(input)), EndOfStream)
    decreases |input|
  {
    if input != [] {
      RunAllDecoded(Dispatched(l, input[0].message), input[1..]);
      assert MessagesOf(input) == [input[0].message] + MessagesOf(input[1..]);
      DispatchAllSnocFront(l, input[0].message, MessagesOf(input[1..]));
    }
  }

  /** Nothing after the first line that fails to read or decode is routed. */
  lemma {:induction false} RunStopsAtFailure(l: Link, input: seq<Inbound>, k: nat, more: seq<Inbound>)
    requires k < |input| && !input[k].Line?
    ensures Run(l, input + more) == Run(l, input)
    decreases k
  {
    if k > 0 && input[0].Line? {
      assert (input + more)[1..] == input[1..] + more;
      RunStopsAtFailure(Dispatched(l, input[0].message), input[1..], k - 1, more);
    }
  }

  /** The read loop only ever resolves ids: it neither adds nor forgets one, and keeps the table consistent. */
  lemma {:induction false} RunKeepsIds(l: Link, input: seq<Inbound>)
    requires LinkValid(l)
    ensures LinkValid(Run(l, input).0) && Ids(Run(l, input).0) == Ids(l)
    decreases |input|
  {
    if input != [] && input[0].Line? {
      RunKeepsIds(Dispatched(l, input[0].message), input[1..]);
    }
  }

  // ---------------------------------------------------------------------
  // The shared state, as objects

  /** `RespChan`: the table of reply channels, by message id. */
  class Table {
    var waiting: set<nat>
    var delivered: map<nat, Result<Response, BulbError>>

    constructor()
      ensures waiting == {} && delivered == map[]
    {
      waiting := {};
      delivered := map[];
    }
  }

  /** `NotifyChan`: the notification channel, if one is set, with what was pushed into it. */
  class NotifyChan {
    var sink: Option<seq<Notification>>

    constructor()
      ensures sink == None
    {
      sink := None;
    }
  }

  function LinkOf(table: Table, notify: NotifyChan): Link
    reads table, notify
  {
    Link(table.waiting, table.delivered, notify.sink)
  }

  /** `Reader`: the task that reads the bulb's lines and routes them. */
  class Reader {
    const table: Table
    const notify: NotifyChan

    constructor(table: Table, notify: NotifyChan)
      ensures this.table == table && this.notify == notify
    {
      this.table := table;
      this.notify := notify;
    }

    /** Route one decoded line. */
    method Dispatch(m: Message)
      modifies table, notify
      ensures LinkOf(table, notify) == Dispatched(old(LinkOf(table, notify)), m)
    {
      match m
      case ResultMsg(id, result) =>
        if id in table.waiting {
          table.waiting := table.waiting - {id};
          table.delivered := table.delivered[id := Ok(result)];
        }
      case ErrorMsg(id, code, message) =>
        if id in table.waiting {
          table.waiting := table.waiting - {id};
          table.delivered := table.delivered[id := Err(ErrResponse(code, message))];
        }
      case NotificationMsg(_, params) =>
        if notify.sink.Some? {
          notify.sink := Some(notify.sink.value + [Notification(params)]);
        }
    }

    /** `Reader::start`: route lines until the stream ends or a line fails. */
    method Start(input: seq<Inbound>) returns (exit: Exit)
      modifies table, notify
      ensures (LinkOf(table, notify), exit) == Run(old(LinkOf(table, notify)), input)
    {
      var i := 0;
      while i < |input|
        invariant 0 <= i <= |input|
        invariant Run(old(LinkOf(table, notify)), input) == Run(LinkOf(table, notify), input[i..])
      {
        assert input[i..][0] == input[i] && input[i..][1..] == input[i + 1..];
        match input[i] {
          case Line(m) =>
            Dispatch(m);
          case Undecodable(text) =>
            return DecodeError(text);
          case ReadFailed(description) =>
            return ReadError(description);
        }
        i := i + 1;
      }
      return EndOfStream;
    }
  }
}
