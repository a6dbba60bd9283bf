/**
 * A connection to one bulb (`Bulb` in src/lib.rs): the writer that sends
 * commands, the reader task that routes the bulb's lines, the table of
 * reply channels they share, and the notification channel.
 */
module Connection {
  import opened Wrappers
  import opened Text
  import opened Wire
  import Reader
  import Writer

  /** The port `connect` uses when given port 0. */
  const DefaultPort: U16 := 55443

  /** `connect`'s port: 0 stands for the default, any other port is kept. */
  function ConnectPort(port: U16): (r: U16)
    ensures r != 0
    ensures port != 0 ==> r == port
    ensures port == 0 ==> r == DefaultPort
  {
    if port == 0 then DefaultPort else port
  }

  /** `Bulb`. */
  class Bulb {
    const writer: Writer.Writer
    const notify: Reader.NotifyChan
    const reader: Reader.Reader

    /** The reader routes into the same table the writer registers in, and to this bulb's channel. */
    ghost predicate Valid()
      reads this, writer, writer.table, notify, reader
    {
      reader.table == writer.table && reader.notify == notify && writer.Valid()
    }

    /** The table and the channel as the value the reader's routing is stated on. */
    ghost function Link(): Reader.Link
      reads this, writer, writer.table, notify
    {
      Reader.LinkOf(writer.table, notify)
    }

    /**
     * `attach_tokio` (and `connect`, once the socket is open): an empty
     * table shared by a new writer and a new reader, no notification
     * channel, replies awaited.
     */
    constructor Attach()
      ensures Valid() && fresh(writer) && fresh(writer.table) && fresh(notify) && fresh(reader)
      ensures writer.counter == 0 && writer.getResponse && writer.written == []
      ensures writer.table.waiting == {} && writer.table.delivered == map[] && notify.sink == None
    {
      var table := new Reader.Table();
      var notify := new Reader.NotifyChan();
      this.notify := notify;
      writer := new Writer.Writer(table);
      reader := new Reader.Reader(table, notify);
    }

    /** `no_response`: later commands do not wait for a reply. */
    method NoResponse()
      requires Valid()
      modifies writer
      ensures Valid() && !writer.getResponse
      ensures writer.counter == old(writer.counter) && writer.written == old(writer.written)
    {
      writer.SetGetResponse(false);
    }

    /** `get_response`: later commands wait for their reply again. */
    method GetResponse()
      requires Valid()
      modifies writer
      ensures Valid() && writer.getResponse
      ensures writer.counter == old(writer.counter) && writer.written == old(writer.written)
    {
      writer.SetGetResponse(true);
    }

    /**
     * `set_notify`: notifications now go to the given channel, which
     * already holds `pending`; the previous channel gets nothing more.
     */
    method SetNotify(pending: seq<Reader.Notification>)
      modifies notify
      ensures notify.sink == Some(pending)
    {
      notify.sink := Some(pending);
    }

    /** `get_notify`: a new, empty channel replaces the current one. */
    method GetNotify()
      modifies notify
      ensures notify.sink == Some([])
    {
      SetNotify([]);
    }

    /** A command method made by `gen_func!`: send the command's Rust name and its parameters. */
    method Invoke(c: Command, failure: Option<string>) returns (sent: Writer.Sent)
      requires Valid()
      modifies writer, writer.table
      ensures Valid()
      ensures writer.Sends(MethodName(c), Params(c), failure, sent)
    {
      sent := writer.Send(MethodName(c), Params(c), failure);
    }

    /** `on`: `set_power("on", "sudden", 0, 0)`; the cron type is not sent. */
    method On(cronType: CronType, failure: Option<string>) returns (sent: Writer.Sent)
      requires Valid()
      modifies writer, writer.table
      ensures Valid()
      ensures writer.Sends("set_power", "\"on\",\"sudden\",0,0", failure, sent)
    {
      SwitchOnText(Light.Main);
      sent := Invoke(SwitchCommand(Light.Main, Power.On), failure);
    }

    /** `off`: `set_power("off", "sudden", 0, 0)`; the cron type is not sent. */
    method Off(cronType: CronType, failure: Option<string>) returns (sent: Writer.Sent)
      requires Valid()
      modifies writer, writer.table
      ensures Valid()
      ensures writer.Sends("set_power", "\"off\",\"sudden\",0,0", failure, sent)
    {
      SwitchOffText(Light.Main);
      sent := Invoke(SwitchCommand(Light.Main, Power.Off), failure);
    }

    /** `bg_on`: `bg_set_power("on", "sudden", 0, 0)`; the cron type is not sent. */
    method BgOn(cronType: CronType, failure: Option<string>) returns (sent: Writer.Sent)
      requires Valid()
      modifies writer, writer.table
      ensures Valid()
      ensures writer.Sends("bg_set_power", "\"on\",\"sudden\",0,0", failure, sent)
    {
      SwitchOnText(Light.Background);
      sent := Invoke(SwitchCommand(Light.Background, Power.On), failure);
    }

    /** `bg_off`: `bg_set_power("off", "sudden", 0, 0)`; the cron type is not sent. */
    method BgOff(cronType: CronType, failure: Option<string>) returns (sent: Writer.Sent)
      requires Valid()
      modifies writer, writer.table
      ensures Valid()
      ensures writer.Sends("bg_set_power", "\"off\",\"sudden\",0,0", failure, sent)
    {
      SwitchOffText(Light.Background);
      sent := Invoke(SwitchCommand(Light.Background, Power.Off), failure);
    }

    /** `cron_get`: asks for the `delayoff` property; the cron type is not sent. */
    method CronGet(cronType: CronType, failure: Option<string>) returns (sent: Writer.Sent)
      requires Valid()
      modifies writer, writer.table
      ensures Valid()
      ensures writer.Sends("get_prop", "\"delayoff\"", failure, sent)
    {
      CronGetText();
      sent := Invoke(CronGetCommand, failure);
    }

    /** One decoded line from the bulb, routed by the reader task. */
    method Receive(m: Reader.Message)
      requires Valid()
      modifies writer.table, notify
      ensures Valid() && writer.counter == old(writer.counter)
      ensures Link() == Reader.Dispatched(old(Link()), m)
    {
      reader.Dispatch(m);
      assert Reader.Ids(Link()) == Reader.Ids(old(Link()));
    }

    /** The reader task over what the bulb sends, until the stream ends or a line fails. */
    method Listen(input: seq<Reader.Inbound>) returns (exit: Reader.Exit)
      requires Valid()
      modifies writer.table, notify
      ensures Valid() && writer.counter == old(writer.counter)
      ensures (Link(), exit) == Reader.Run(old(Link()), input)
    {
      Reader.RunKeepsIds(Link(), input);
      exit := reader.Start(input);
      assert Reader.Ids(Link()) == Reader.Ids(old(Link()));
    }

    /** What awaiting the reply channel of `id` gives at this point. */
    function Outcome(id: nat): Option<Result<Option<Reader.Response>, Reader.BulbError>>
      reads this, writer, writer.table
    {
      Writer.Awaited(writer.table.delivered, id)
    }
  }

  lemma PowerParamText(power: Power)
    ensures LiteralText(power.Wire()) + ",\"sudden\",0,0" == if power == Power.On then "\"on\",\"sudden\",0,0" else "\"off\",\"sudden\",0,0"
  {
    var w := LiteralText(power.Wire());
    if power == Power.On {
      assert w == Quote("on") == "\"on\"";
    } else {
      assert w == Quote("off") == "\"off\"";
    }
  }

  /** The method name and parameters `on` and `bg_on` send, spelled out. */
  lemma SwitchOnText(light: Light)
    ensures MethodName(SwitchCommand(light, Power.On)) == if light == Light.Main then "set_power" else "bg_set_power"
    ensures Params(SwitchCommand(light, Power.On)) == "\"on\",\"sudden\",0,0"
  {
    SwitchCommandText(light, Power.On);
    PowerParamText(Power.On);
  }

  /** The method name and parameters `off` and `bg_off` send, spelled out. */
  lemma SwitchOffText(light: Light)
    ensures MethodName(SwitchCommand(light, Power.Off)) == if light == Light.Main then "set_power" else "bg_set_power"
    ensures Params(SwitchCommand(light, Power.Off)) == "\"off\",\"sudden\",0,0"
  {
    SwitchCommandText(light, Power.Off);
    PowerParamText(Power.Off);
  }

  // ---------------------------------------------------------------------
  // The library's own exchanges with a fake bulb

  /** The line the `get_prop` exchange expects. */
  lemma GetPropLine()
    ensures Writer.RequestLine(1, "get_prop", "\"name\",\"power\"")
      == "{\"id\":1,\"method\":\"get_prop\",\"params\":[\"name\",\"power\"]}\r\n"
  {
    Writer.OneText();
    var a := "{\"id\":" + "1";
    assert a == "{\"id\":1";
    var b := a + ",\"method\":\"";
    assert b == "{\"id\":1,\"method\":\"";
    var c := b + "get_prop";
    assert c == "{\"id\":1,\"method\":\"get_prop";
    var d := c + "\",\"params\":[";
    assert d == "{\"id\":1,\"method\":\"get_prop\",\"params\":[";
    var e := d + "\"name\",\"power\"";
    assert e == "{\"id\":1,\"method\":\"get_prop\",\"params\":[\"name\",\"power\"";
    assert Writer.RequestLine(1, "get_prop", "\"name\",\"power\"") == e + "]}\r\n";
  }

  /** The first request of a fresh connection, for the `set_power` command of the exchanges below. */
  lemma SetPowerRequest()
    ensures Writer.RequestLine(1, MethodName(SetPower(Light.Main, Power.On, Effect.Smooth, 500, Mode.Normal)), Params(SetPower(Light.Main, Power.On, Effect.Smooth, 500, Mode.Normal)))
      == "{\"id\":1,\"method\":\"set_power\",\"params\":[\"on\",\"smooth\",500,0]}\r\n"
  {
    SetPowerParamsExample();
    Writer.RequestLineExample();
  }

  /** The first request of a fresh connection, for the `get_prop` command of the exchange below. */
  lemma GetPropRequest()
    ensures Writer.RequestLine(1, MethodName(GetProp([Property.Name, Property.Power])), Params(GetProp([Property.Name, Property.Power])))
      == "{\"id\":1,\"method\":\"get_prop\",\"params\":[\"name\",\"power\"]}\r\n"
  {
    GetPropParamsExample();
    GetPropLine();
  }

  /** A reply to the only request awaited reaches that request's caller. */
  lemma AnswerDelivered(l: Reader.Link, m: Reader.Message)
    requires l.waiting == {1} && l.delivered == map[] && !m.NotificationMsg? && m.id == 1
    ensures Reader.Run(l, [Reader.Line(m)]).0.delivered == map[1 := Reader.ReplyOutcome(m).value]
    ensures Reader.Run(l, [Reader.Line(m)]).1 == Reader.EndOfStream
  {
    assert [Reader.Line(m)][1..] == [];
  }

  /** `get_prop(name, power)` answered with `["bulb_name", "on"]`. */
  method GetPropExchange() returns (line: string, outcome: Option<Result<Option<Reader.Response>, Reader.BulbError>>)
    ensures line == "{\"id\":1,\"method\":\"get_prop\",\"params\":[\"name\",\"power\"]}\r\n"
    ensures outcome == Some(Ok(Some(["bulb_name", "on"])))
  {
    var bulb := new Bulb.Attach();
    var c := GetProp([Property.Name, Property.Power]);
    var sent := bulb.Invoke(c, None);
    line := bulb.writer.written[0];
    assert line == Writer.RequestLine(1, MethodName(c), Params(c));
    GetPropRequest();
    AnswerDelivered(bulb.Link(), Reader.ResultMsg(1, ["bulb_name", "on"]));
    var exit := bulb.Listen([Reader.Line(Reader.ResultMsg(1, ["bulb_name", "on"]))]);
    outcome := bulb.Outcome(1);
  }

  /** `set_power(on, smooth, 500 ms, normal)` answered with `["ok"]`. */
  method SetPowerExchange() returns (line: string, outcome: Option<Result<Option<Reader.Response>, Reader.BulbError>>)
    ensures line == "{\"id\":1,\"method\":\"set_power\",\"params\":[\"on\",\"smooth\",500,0]}\r\n"
    ensures outcome == Some(Ok(Some(["ok"])))
  {
    var bulb := new Bulb.Attach();
    var c := SetPower(Light.Main, Power.On, Effect.Smooth, 500, Mode.Normal);
    var sent := bulb.Invoke(c, None);
    line := bulb.writer.written[0];
    assert line == Writer.RequestLine(1, MethodName(c), Params(c));
    SetPowerRequest();
    AnswerDelivered(bulb.Link(), Reader.ResultMsg(1, ["ok"]));
    var exit := bulb.Listen([Reader.Line(Reader.ResultMsg(1, ["ok"]))]);
    outcome := bulb.Outcome(1);
  }

  /** The same request answered with error -1, "unsupported method". */
  method UnsupportedExchange() returns (outcome: Option<Result<Option<Reader.Response>, Reader.BulbError>>, text: string)
    ensures outcome == Some(Err(Reader.ErrResponse(-1, "unsupported method")))
    ensures text == "Bulb response error: unsupported method (code -1)"
  {
    var bulb := new Bulb.Attach();
    var sent := bulb.Invoke(SetPower(Light.Main, Power.On, Effect.Smooth, 500, Mode.Normal), None);
    AnswerDelivered(bulb.Link(), Reader.ErrorMsg(1, -1, "unsupported method"));
    var exit := bulb.Listen([Reader.Line(Reader.ErrorMsg(1, -1, "unsupported method"))]);
    outcome := bulb.Outcome(1);
    Reader.UnsupportedErrorText();
    text := Reader.ErrorText(outcome.value.error);
  }

  /**
   * `get_response().no_response()`: the request is still written, `send`
   * returns `Ok(None)` at once, and the bulb's undecodable answer ends the
   * reader task.
   */
  method NoResponseExchange() returns (line: string, sent: Writer.Sent, exit: Reader.Exit)
    ensures line == "{\"id\":1,\"method\":\"set_power\",\"params\":[\"on\",\"smooth\",500,0]}\r\n"
    ensures sent == Writer.Returned(Ok(None))
    ensures exit == Reader.DecodeError("{\"empty\"}")
  {
    var bulb := new Bulb.Attach();
    bulb.GetResponse();
    bulb.NoResponse();
    var c := SetPower(Light.Main, Power.On, Effect.Smooth, 500, Mode.Normal);
    sent := bulb.Invoke(c, None);
    line := bulb.writer.written[0];
    assert line == Writer.RequestLine(1, MethodName(c), Params(c));
    SetPowerRequest();
    exit := bulb.Listen([Reader.Undecodable("{\"empty\"}")]);
  }

  /** A notification, then a reply: the routing the `notify` exchange below goes through. */
  lemma NotificationThenAnswer(l: Reader.Link, params: map<string, string>, response: Reader.Response)
    requires l.waiting == {1} && l.delivered == map[] && l.sink == Some([])
    ensures Reader.Run(l, [Reader.Line(Reader.NotificationMsg("props", params)), Reader.Line(Reader.ResultMsg(1, response))]).0
      == Reader.Link({}, map[1 := Ok(response)], Some([Reader.Notification(params)]))
  {
    var input := [Reader.Line(Reader.NotificationMsg("props", params)), Reader.Line(Reader.ResultMsg(1, response))];
    var l1 := Reader.Dispatched(l, Reader.NotificationMsg("props", params));
    assert [] + [Reader.Notification(params)] == [Reader.Notification(params)];
    assert l1 == l.(sink := Some([Reader.Notification(params)]));
    assert input[1..] == [Reader.Line(Reader.ResultMsg(1, response))];
    assert input[1..][1..] == [];
    assert Reader.Run(l, input) == Reader.Run(l1, input[1..]);
    var l2 := Reader.Dispatched(l1, Reader.ResultMsg(1, response));
    assert l2.waiting == {} && l2.delivered == map[1 := Ok(response)];
    assert Reader.Run(l1, input[1..]) == (l2, Reader.EndOfStream);
  }

  /** A `props` notification arriving before the reply: both reach their receivers. */
  method NotifyExchange() returns (outcome: Option<Result<Option<Reader.Response>, Reader.BulbError>>, received: Option<seq<Reader.Notification>>)
    ensures outcome == Some(Ok(Some(["ok"])))
    ensures received == Some([Reader.Notification(map["power" := "on", "bright" := "10"])])
  {
    var bulb := new Bulb.Attach();
    bulb.GetNotify();
    var sent := bulb.Invoke(SetPower(Light.Main, Power.On, Effect.Smooth, 500, Mode.Normal), None);
    var props := map["power" := "on", "bright" := "10"];
    NotificationThenAnswer(bulb.Link(), props, ["ok"]);
    var exit := bulb.Listen([Reader.Line(Reader.NotificationMsg("props", props)), Reader.Line(Reader.ResultMsg(1, ["ok"]))]);
    outcome := bulb.Outcome(1);
    received := bulb.notify.sink;
  }
}
