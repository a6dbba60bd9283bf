/**
 * The sending side of a connection (src/writer.rs): the request line each
 * message becomes, the counter that numbers messages, and `send`, which
 * registers a reply channel for the message's id before writing it when
 * replies are awaited.
 */
module Writer {
  import opened Wrappers
  import opened Text
  import opened Reader

  /** The line `craft_message` writes for message `id`. */
  function RequestLine(id: nat, name: string, params: string): string
  {
    "{\"id\":" + NatText(id) + ",\"method\":\"" + name + "\",\"params\":[" + params + "]}\r\n"
  }

  /** What a request line carries. */
  datatype Request = Request(id: nat, name: string, params: string)

  /** The index of the first `c` in `s`, or `|s|` when there is none. */
  function FindChar(s: string, c: char): (r: nat)
    ensures r <= |s| && (r < |s| ==> s[r] == c)
    ensures forall k :: 0 <= k < r ==> s[k] != c
  {
    if s == [] then 0 else if s[0] == c then 0 else 1 + FindChar(s[1..], c)
  }

  lemma {:induction false} FindCharAfter(a: string, c: char, b: string)
    requires c !in a
    ensures FindChar(a + [c] + b, c) == |a|
  {
    var s := a + [c] + b;
    assert s[|a|] == c;
    assert forall k :: 0 <= k < |a| ==> s[k] == a[k];
  }

  /** `s` without its leading `p`, if it starts with `p`. */
  function StripPrefix(s: string, p: string): Option<string>
  {
    if |p| <= |s| && s[..|p|] == p then Some(s[|p|..]) else None
  }

  lemma StripPrefixOf(p: string, t: string)
    ensures StripPrefix(p + t, p) == Some(t)
  {
    assert (p + t)[..|p|] == p;
    assert (p + t)[|p|..] == t;
  }

  /** Reads a request line back: the inverse of `RequestLine` for method names without a double quote. */
  function ParseRequestLine(line: string): Option<Request>
  {
    match StripPrefix(line, "{\"id\":")
    case None => None
    case Some(rest) => ParseFromId(rest)
  }

  /** The id, up to the first comma, and what follows it. */
  function ParseFromId(rest: string): Option<Request>
  {
    var k := FindChar(rest, ',');
    if k == |rest| then None
    else match ParseInt(rest[..k], 10, 0, U64_MAX)
      case Err(_) => None
      case Ok(id) =>
        match StripPrefix(rest[k + 1..], "\"method\":\"")
        case None => None
        case Some(tail) => ParseFromMethod(id, tail)
  }

  /** The method name, up to the first double quote, and what follows it. */
  function ParseFromMethod(id: nat, tail: string): Option<Request>
  {
    var j := FindChar(tail, '"');
    match StripPrefix(tail[j..], "\",\"params\":[")
    case None => None
    case Some(rest) => ParseParams(id, tail[..j], rest)
  }

  /** The parameters, up to the closing `]}` and line end. */
  function ParseParams(id: nat, name: string, rest: string): Option<Request>
  {
    if |rest| >= 4 && rest[|rest| - 4..] == "]}\r\n" then Some(Request(id, name, rest[..|rest| - 4]))
    else None
  }

  lemma ParseParamsOf(id: nat, name: string, params: string)
    ensures ParseParams(id, name, params + "]}\r\n") == Some(Request(id, name, params))
  {
    var rest := params + "]}\r\n";
    assert rest[|rest| - 4..] == "]}\r\n" && rest[..|rest| - 4] == params;
  }

  lemma ParseFromMethodOf(id: nat, name: string, params: string)
    requires '"' !in name
    ensures ParseFromMethod(id, name + "\",\"params\":[" + params + "]}\r\n") == Some(Request(id, name, params))
  {
    var rest := params + "]}\r\n";
    var after := ",\"params\":[" + rest;
    var tail := name + ['"'] + after;
    assert name + "\",\"params\":[" + params + "]}\r\n" == tail;
    FindCharAfter(name, '"', after);
    assert tail[..|name|] == name;
    assert tail[|name|..] == "\",\"params\":[" + rest;
    StripPrefixOf("\",\"params\":[", rest);
    ParseParamsOf(id, name, params);
  }

  lemma ParseFromIdOf(id: nat, tail: string)
    requires id <= U64_MAX
    ensures ParseFromId(NatText(id) + ",\"method\":\"" + tail) == ParseFromMethod(id, tail)
  {
    var digits := NatText(id);
    var after := "\"method\":\"" + tail;
    var rest := digits + [','] + after;
    assert NatText(id) + ",\"method\":\"" + tail == rest;
    IntTextAlphabet(id);
    assert IntText(id) == digits;
    assert ',' !in digits;
    FindCharAfter(digits, ',', after);
    assert rest[..|digits|] == digits && rest[|digits| + 1..] == after;
    IntTextRoundTrip(id, 0, U64_MAX);
    StripPrefixOf("\"method\":\"", tail);
  }

  /** A request line names its id, method and parameters unambiguously. */
  lemma RequestLineRoundTrip(id: nat, name: string, params: string)
    requires id <= U64_MAX && '"' !in name
    ensures ParseRequestLine(RequestLine(id, name, params)) == Some(Request(id, name, params))
  {
    var tail := name + "\",\"params\":[" + params + "]}\r\n";
    var rest := NatText(id) + ",\"method\":\"" + tail;
    assert RequestLine(id, name, params) == "{\"id\":" + rest;
    StripPrefixOf("{\"id\":", rest);
    ParseFromIdOf(id, tail);
    ParseFromMethodOf(id, name, params);
  }

  /** The line of the library's own `set_power` test. */
  lemma RequestLineExample()
    ensures RequestLine(1, "set_power", "\"on\",\"smooth\",500,0")
      == "{\"id\":1,\"method\":\"set_power\",\"params\":[\"on\",\"smooth\",500,0]}\r\n"
  {
    SetPowerLineHead();
    SetPowerLineTail();
  }

  lemma SetPowerLineHead()
    ensures "{\"id\":" + NatText(1) + ",\"method\":\"" + "set_power" == "{\"id\":1,\"method\":\"set_power"
  {
    OneText();
    var a := "{\"id\":" + "1";
    assert a == "{\"id\":1";
    var b := a + ",\"method\":\"";
    assert b == "{\"id\":1,\"method\":\"";
  }

  lemma SetPowerLineTail()
    ensures "{\"id\":1,\"method\":\"set_power" + "\",\"params\":[" + "\"on\",\"smooth\",500,0" + "]}\r\n"
      == "{\"id\":1,\"method\":\"set_power\",\"params\":[\"on\",\"smooth\",500,0]}\r\n"
  {
    var d := "{\"id\":1,\"method\":\"set_power" + "\",\"params\":[";
    assert d == "{\"id\":1,\"method\":\"set_power\",\"params\":[";
    var e := d + "\"on\",\"smooth\",500,0";
    assert e == "{\"id\":1,\"method\":\"set_power\",\"params\":[\"on\",\"smooth\",500,0";
  }

  lemma OneText()
    ensures NatText(1) == "1"
  {
    assert DigitChar(1) == '1';
  }

  /**
   * What `send` gives back before the reply arrives: either the id whose
   * reply channel the caller now awaits, or its final result.
   */
  datatype Sent = Awaiting(id: nat) | Returned(result: Result<Option<Response>, BulbError>)

  /**
   * `receiver.await??` on the channel of `id`: nothing yet while no reply
   * came, else the result sent through the channel.
   */
  function Awaited(delivered: map<nat, Result<Response, BulbError>>, id: nat): (r: Option<Result<Option<Response>, BulbError>>)
    ensures r.None? <==> id !in delivered
    ensures r.Some? ==> (r.value.Ok? <==> delivered[id].Ok?)
    ensures r.Some? && r.value.Ok? ==> r.value.value == Some(delivered[id].value)
    ensures r.Some? && r.value.Err? ==> r.value.error == delivered[id].error
  {
    if id !in delivered then None
    else match delivered[id]
      case Ok(response) => Some(Ok(Some(response)))
      case Err(e) => Some(Err(e))
  }

  /** Every id in the table was handed out by a counter now at `counter`, and none is both waiting and answered. */
  predicate IssuedBy(l: Link, counter: nat)
  {
    LinkValid(l) && forall id :: id in Ids(l) ==> 1 <= id <= counter
  }

  /** Routing a line keeps the ids the table holds issued. */
  lemma DispatchedKeepsIssued(l: Link, m: Message, counter: nat)
    requires IssuedBy(l, counter)
    ensures IssuedBy(Dispatched(l, m), counter)
  {
  }

  /** `Writer`: numbers, formats and writes messages. */
  class Writer {
    var counter: nat
    var getResponse: bool
    /** The lines written to the connection, oldest first. */
    var written: seq<string>
    const table: Table

    ghost predicate Valid()
      reads this, table
    {
      table.waiting !! table.delivered.Keys
      && forall id :: id in table.waiting || id in table.delivered ==> 1 <= id <= counter
    }

    /** `Writer::new`: counter at 0, awaiting replies. */
    constructor(table: Table)
      ensures counter == 0 && getResponse && written == [] && this.table == table
      ensures Valid() <==> table.waiting == {} && table.delivered == map[]
    {
      counter := 0;
      getResponse := true;
      written := [];
      this.table := table;
    }

    /** `get_message_id`: the next id, one more than the last. */
    method NextId() returns (id: nat)
      modifies this
      ensures id == old(counter) + 1 && counter == id
      ensures getResponse == old(getResponse) && written == old(written)
      ensures old(Valid()) ==> Valid()
    {
      counter := counter + 1;
      id := counter;
    }

    /** `set_get_response`. */
    method SetGetResponse(getResponse: bool)
      modifies this
      ensures this.getResponse == getResponse
      ensures counter == old(counter) && written == old(written)
      ensures old(Valid()) ==> Valid()
    {
      this.getResponse := getResponse;
    }

    /** `craft_message`: take the next id and format the request line. */
    method CraftMessage(name: string, params: string) returns (id: nat, content: string)
      modifies this
      ensures id == old(counter) + 1 && counter == id
      ensures content == RequestLine(id, name, params)
      ensures getResponse == old(getResponse) && written == old(written)
      ensures old(Valid()) ==> Valid()
    {
      id := NextId();
      content := RequestLine(id, name, params);
    }

    /**
     * What one call of `send` with this method name, parameters and write
     * failure does: the id is used up whatever happens, the line is written
     * unless writing fails, the id waits in the table whenever replies are
     * awaited, answers already delivered stay, and the caller gets the id
     * to await, the write error, or nothing in no-response mode.
     */
    twostate predicate Sends(name: string, params: string, failure: Option<string>, sent: Sent)
      reads this, table
    {
      counter == old(counter) + 1 && getResponse == old(getResponse)
      && written == (if failure.None? then old(written) + [RequestLine(counter, name, params)] else old(written))
      && table.waiting == (if getResponse then old(table.waiting) + {counter} else old(table.waiting))
      && table.delivered == old(table.delivered)
      && sent == (if failure.Some? then Returned(Err(Io(failure.value)))
                  else if getResponse then Awaiting(counter)
                  else Returned(Ok(None)))
    }

    /**
     * `send`. Every call uses up an id. When replies are awaited, the id's
     * channel is put in the table before the line is written, and stays
     * there if writing fails. `failure` is the error writing to the
     * connection meets, if any.
     */
    method Send(name: string, params: string, failure: Option<string>) returns (sent: Sent)
      requires Valid()
      modifies this, table
      ensures Valid()
      ensures Sends(name, params, failure, sent)
    {
      var id, content := CraftMessage(name, params);
      if getResponse {
        table.waiting := table.waiting + {id};
        if failure.Some? {
          return Returned(Err(Io(failure.value)));
        }
        written := written + [content];
        sent := Awaiting(id);
      } else {
        if failure.Some? {
          return Returned(Err(Io(failure.value)));
        }
        written := written + [content];
        sent := Returned(Ok(None));
      }
    }
  }
}
