/**
 * Finding bulbs on the local network (src/discover.rs): reading the answer
 * a bulb sends to the discovery search, the address a found bulb is
 * reached at, and keeping one entry per bulb.
 */
module Discover {
  import opened Wrappers
  import opened Text

  /** The first line of every answer that is accepted. */
  const StatusLine: string := "HTTP/1.1 200 OK"
  const LineBreak: string := "\r\n"
  /** What separates a header's name from its value. */
  const KeySep: string := ": "
  const UidPrefix: string := "0x"
  const LocationScheme: string := "yeelight://"

  /** The headers of an answer, by name. */
  type Headers = map<string, string>

  // ---------------------------------------------------------------------
  // Reading one answer (`parse`)

  /**
   * `line.split(": ")`: the first piece names the header and the second,
   * when there is one, is its value; anything after a second `": "` is
   * dropped, and a line without `": "` is no header.
   */
  function HeaderOf(line: string): Option<(string, string)>
  {
    var pieces := SplitOn(line, KeySep);
    if |pieces| >= 2 then Some((pieces[0], pieces[1])) else None
  }

  /** One turn of the header loop: a header line overwrites any earlier value of its name. */
  function Insert(hs: Headers, line: string): Headers
  {
    match HeaderOf(line)
    case None => hs
    case Some(h) => hs[h.0 := h.1]
  }

  /** The header loop over `lines`, starting from `hs`. */
  function Collect(hs: Headers, lines: seq<string>): Headers
    decreases |lines|
  {
    if lines == [] then hs else Collect(Insert(hs, lines[0]), lines[1..])
  }

  /** `u64::from_str_radix(text.trim_start_matches("0x"), 16).ok()`. */
  function ParseUid(text: string): (r: Option<nat>)
    ensures r.Some? ==> r.value <= U64_MAX
  {
    match ParseInt(TrimStartMatches(text, UidPrefix), 16, 0, U64_MAX)
    case Ok(n) => Some(n)
    case Err(_) => None
  }

  /** What `parse` returns: the bulb's id and all the headers. */
  datatype Announcement = Announcement(uid: nat, headers: Headers)

  /**
   * `parse` on a datagram whose bytes decode as UTF-8 to `text`
   * (`None` when they do not): the first line must be exactly the status
   * line and the `id` header must hold a hexadecimal 64-bit number.
   */
  function Announced(text: Option<string>): (r: Option<Announcement>)
    ensures r.Some? ==> text.Some? && (text.value == StatusLine || StatusLine + LineBreak <= text.value)
    ensures r.Some? ==> "id" in r.value.headers && ParseUid(r.value.headers["id"]) == Some(r.value.uid)
  {
    match text
    case None => None
    case Some(s) =>
      var lines := SplitOn(s, LineBreak);
      if lines[0] != StatusLine then None
      else
        var hs := Collect(map[], lines[1..]);
        if "id" !in hs then None
        else match ParseUid(hs["id"])
          case None => None
          case Some(uid) =>
            StatusLineLeads(s, lines);
            Some(Announcement(uid, hs))
  }

  lemma StatusLineLeads(s: string, lines: seq<string>)
    requires lines == SplitOn(s, LineBreak) && lines[0] == StatusLine
    ensures s == StatusLine || StatusLine + LineBreak <= s
  {
    if |lines| > 1 {
      assert s == lines[0] + LineBreak + Join(lines[1..], LineBreak);
    }
  }

  /** `parse`: split into lines, check the status line, fill the header table line by line, then read the id. */
  method Parse(text: Option<string>) returns (r: Option<Announcement>)
    ensures r == Announced(text)
  {
    if text.None? {
      return None;
    }
    var lines := SplitOn(text.value, LineBreak);
    if lines[0] != StatusLine {
      return None;
    }
    var hs: Headers := map[];
    var i := 1;
    while i < |lines|
      invariant 1 <= i <= |lines|
      invariant Collect(hs, lines[i..]) == Collect(map[], lines[1..])
    {
      assert lines[i..][1..] == lines[i + 1..];
      var pieces := SplitOn(lines[i], KeySep);
      if |pieces| >= 2 {
        hs := hs[pieces[0] := pieces[1]];
      }
      i := i + 1;
    }
    assert lines[i..] == [];
    if "id" !in hs {
      return None;
    }
    var uid := ParseUid(hs["id"]);
    if uid.None? {
      return None;
    }
    r := Some(Announcement(uid.value, hs));
  }

  // ---------------------------------------------------------------------
  // What the header table holds

  /** The value of the last header line named `key`, if any. */
  function LastValue(lines: seq<string>, key: string): Option<string>
    decreases |lines|
  {
    if lines == [] then None
    else
      var h := HeaderOf(lines[|lines| - 1]);
      if h.Some? && h.value.0 == key then Some(h.value.1) else LastValue(lines[..|lines| - 1], key)
  }

  lemma {:induction false} CollectSnoc(hs: Headers, lines: seq<string>, line: string)
    ensures Collect(hs, lines + [line]) == Insert(Collect(hs, lines), line)
    decreases |lines|
  {
    if lines == [] {
      assert [line][1..] == [];
    } else {
      assert (lines + [line])[1..] == lines[1..] + [line];
      CollectSnoc(Insert(hs, lines[0]), lines[1..], line);
    }
  }

  /** A name is in the table exactly when some line names it, and then with the value of the last such line. */
  lemma {:induction false} CollectLastWins(lines: seq<string>, key: string)
    ensures key in Collect(map[], lines) <==> LastValue(lines, key).Some?
    ensures key in Collect(map[], lines) ==> Collect(map[], lines)[key] == LastValue(lines, key).value
    decreases |lines|
  {
    if lines != [] {
      var init, last := lines[..|lines| - 1], lines[|lines| - 1];
      assert lines == init + [last];
      CollectSnoc(map[], init, last);
      CollectLastWins(init, key);
    }
  }

  /** A header line as a bulb writes it. */
  function HeaderLine(h: (string, string)): string
  {
    h.0 + KeySep + h.1
  }

  function HeaderLines(headers: seq<(string, string)>): seq<string>
  {
    seq(|headers|, i requires 0 <= i < |headers| => HeaderLine(headers[i]))
  }

  /** An answer: the status line, then one line per header. */
  function ResponseText(headers: seq<(string, string)>): string
  {
    Join([StatusLine] + HeaderLines(headers), LineBreak)
  }

  /** A header that reads back as written: no colon in the name, no line break, and no `": "` in the value. */
  predicate PlainHeader(h: (string, string))
  {
    ':' !in h.0 && '\r' !in h.0 && '\r' !in h.1 && Free(h.1, KeySep)
  }

  /** The headers as a table, a later header overriding an earlier one of the same name. */
  function HeadersMap(headers: seq<(string, string)>): Headers
    decreases |headers|
  {
    if headers == [] then map[]
    else HeadersMap(headers[..|headers| - 1])[headers[|headers| - 1].0 := headers[|headers| - 1].1]
  }

  lemma HeaderLineSplit(h: (string, string))
    requires PlainHeader(h)
    ensures HeaderOf(HeaderLine(h)) == Some(h)
  {
    assert Join([h.0, h.1], KeySep) == HeaderLine(h);
    SplitJoin([h.0, h.1], KeySep);
  }

  lemma {:induction false} CollectHeaderLines(headers: seq<(string, string)>)
    requires forall k :: 0 <= k < |headers| ==> PlainHeader(headers[k])
    ensures Collect(map[], HeaderLines(headers)) == HeadersMap(headers)
    decreases |headers|
  {
    if headers != [] {
      var init, last := headers[..|headers| - 1], headers[|headers| - 1];
      CollectHeaderLines(init);
      assert HeaderLines(headers) == HeaderLines(init) + [HeaderLine(last)];
      CollectSnoc(map[], HeaderLines(init), HeaderLine(last));
      HeaderLineSplit(last);
    }
  }

  lemma ResponseLines(headers: seq<(string, string)>)
    requires forall k :: 0 <= k < |headers| ==> PlainHeader(headers[k])
    ensures SplitOn(ResponseText(headers), LineBreak) == [StatusLine] + HeaderLines(headers)
  {
    var lines := [StatusLine] + HeaderLines(headers);
    forall k | 0 <= k < |lines|
      ensures '\r' !in lines[k]
    {
      if k > 0 {
        var h := headers[k - 1];
        assert lines[k] == h.0 + KeySep + h.1;
      }
    }
    LeadFree(lines[|lines| - 1], LineBreak);
    SplitJoin(lines, LineBreak);
  }

  /** The id as bulbs write it: `0x`, some zeros, then the hexadecimal digits. */
  function UidText(uid: nat, zeros: nat): string
  {
    UidPrefix + Repeat("0", zeros) + Digits(uid, 16)
  }

  /** Leading zeros add nothing to an unsigned hexadecimal number. */
  lemma {:induction false} LeadingZeros(zeros: nat, t: string)
    ensures Accumulate(Repeat("0", zeros) + t, 16, false, 0, U64_MAX, 0) == Accumulate(t, 16, false, 0, U64_MAX, 0)
  {
    if zeros > 0 {
      var rest := Repeat("0", zeros - 1) + t;
      var s := Repeat("0", zeros) + t;
      assert s == "0" + rest;
      assert s[0] == '0' && s[1..] == rest;
      assert Step(0, '0', 16, false, 0, U64_MAX) == Ok(0);
      assert Accumulate(s, 16, false, 0, U64_MAX, 0) == Accumulate(rest, 16, false, 0, U64_MAX, 0);
      LeadingZeros(zeros - 1, t);
    } else {
      assert Repeat("0", zeros) + t == t;
    }
  }

  /** The hexadecimal part of an id starts with a digit and not with another `0x`. */
  lemma UidDigitsLead(uid: nat, zeros: nat)
    ensures var t := Repeat("0", zeros) + Digits(uid, 16);
      |t| > 0 && t[0] != '+' && t[0] != '-' && !(|UidPrefix| <= |t| && t[..|UidPrefix|] == UidPrefix)
  {
    var digits := Digits(uid, 16);
    var t := Repeat("0", zeros) + digits;
    DigitsStartWithDigit(uid, 16);
    DigitsAlphabet(uid, 16);
    if zeros > 0 {
      assert t == "0" + (Repeat("0", zeros - 1) + digits);
    } else {
      assert t == digits;
    }
    if |t| >= 2 {
      if zeros >= 2 {
        assert Repeat("0", zeros - 1) == "0" + Repeat("0", zeros - 2);
        assert t[1] == '0';
      } else {
        assert t[1] == digits[1 - zeros];
        assert DigitValue(digits[1 - zeros], 16).Some?;
      }
    }
  }

  lemma UidTrim(uid: nat, zeros: nat)
    ensures TrimStartMatches(UidText(uid, zeros), UidPrefix) == Repeat("0", zeros) + Digits(uid, 16)
  {
    var t := Repeat("0", zeros) + Digits(uid, 16);
    assert UidText(uid, zeros) == UidPrefix + t;
    TrimStartStep(UidPrefix, t);
    UidDigitsLead(uid, zeros);
  }

  lemma UidDigitsValue(uid: nat, zeros: nat)
    requires uid <= U64_MAX
    ensures ParseInt(Repeat("0", zeros) + Digits(uid, 16), 16, 0, U64_MAX) == Ok(uid)
  {
    var digits := Digits(uid, 16);
    UidDigitsLead(uid, zeros);
    UidDigitsLead(uid, 0);
    assert Repeat("0", 0) + digits == digits;
    LeadingZeros(zeros, digits);
    DigitsRoundTrip(uid, 16, 0, U64_MAX);
  }

  /** Every id a bulb can write, however many leading zeros it pads with, reads back as the same number. */
  lemma ParseUidOfText(uid: nat, zeros: nat)
    requires uid <= U64_MAX
    ensures ParseUid(UidText(uid, zeros)) == Some(uid)
  {
    UidTrim(uid, zeros);
    UidDigitsValue(uid, zeros);
  }

  /** An id too large for 64 bits is refused, however it is padded. */
  lemma ParseUidOverflow(uid: nat, zeros: nat)
    requires uid > U64_MAX
    ensures ParseUid(UidText(uid, zeros)) == None
  {
    var digits := Digits(uid, 16);
    UidTrim(uid, zeros);
    UidDigitsLead(uid, zeros);
    UidDigitsLead(uid, 0);
    assert Repeat("0", 0) + digits == digits;
    LeadingZeros(zeros, digits);
    DigitsOverflow(uid, 16, 0, U64_MAX);
  }

  /**
   * An id that, once its leading `0x` copies are trimmed, holds a character
   * that is no hexadecimal digit is refused; only one `+` in front is let
   * through.
   */
  lemma ParseUidRejectsNonHex(text: string, i: nat)
    requires var t := TrimStartMatches(text, UidPrefix);
      i < |t| && DigitValue(t[i], 16).None? && (i == 0 ==> t[0] != '+')
    ensures ParseUid(text) == None
  {
    ParseIntRejects(TrimStartMatches(text, UidPrefix), i, 16, 0, U64_MAX);
  }

  /**
   * An answer written the way bulbs write it reads back as its id and the
   * table of its headers, the last value of a repeated header winning.
   */
  lemma AnnouncedRoundTrip(headers: seq<(string, string)>, uid: nat, zeros: nat)
    requires forall k :: 0 <= k < |headers| ==> PlainHeader(headers[k])
    requires uid <= U64_MAX && "id" in HeadersMap(headers) && HeadersMap(headers)["id"] == UidText(uid, zeros)
    ensures Announced(Some(ResponseText(headers))) == Some(Announcement(uid, HeadersMap(headers)))
  {
    ResponseLines(headers);
    var lines := [StatusLine] + HeaderLines(headers);
    assert lines[1..] == HeaderLines(headers);
    CollectHeaderLines(headers);
    ParseUidOfText(uid, zeros);
  }

  // ---------------------------------------------------------------------
  // Found bulbs

  /** `DiscoveredBulb`: what one answer tells about one bulb. */
  datatype DiscoveredBulb = DiscoveredBulb(uid: nat, responseAddress: string, properties: Headers)

  /** `PartialEq` and `Hash` for `DiscoveredBulb`: two answers are the same bulb when their ids are equal. */
  predicate SameBulb(a: DiscoveredBulb, b: DiscoveredBulb)
  {
    a.uid == b.uid
  }

  /**
   * `connect`: the `Location` header without its leading `yeelight://`
   * (every leading copy of it). Without a `Location` header the source
   * panics; here there is no address.
   */
  function ConnectAddress(b: DiscoveredBulb): (r: Option<string>)
    ensures r.Some? <==> "Location" in b.properties
    ensures r.Some? ==> !(|LocationScheme| <= |r.value| && r.value[..|LocationScheme|] == LocationScheme)
  {
    if "Location" in b.properties then Some(TrimStartMatches(b.properties["Location"], LocationScheme)) else None
  }

  /** A `Location` of `yeelight://host:port` connects to `host:port`. */
  lemma ConnectAddressOf(b: DiscoveredBulb, address: string)
    requires "Location" in b.properties && b.properties["Location"] == LocationScheme + address
    requires !(|LocationScheme| <= |address| && address[..|LocationScheme|] == LocationScheme)
    ensures ConnectAddress(b) == Some(address)
  {
    TrimStartStep(LocationScheme, address);
  }

  /** The ids of some bulbs. */
  function Uids(bulbs: seq<DiscoveredBulb>): set<nat>
  {
    set b | b in bulbs :: b.uid
  }

  /** The first arrival with id `uid`, if any. */
  function FirstArrival(arrivals: seq<DiscoveredBulb>, uid: nat): Option<DiscoveredBulb>
    decreases |arrivals|
  {
    if arrivals == [] then None
    else if arrivals[0].uid == uid then Some(arrivals[0])
    else FirstArrival(arrivals[1..], uid)
  }

  /** The bulbs of `arrivals`, an arrival being skipped when a bulb with its id was already kept. */
  function Deduplicated(arrivals: seq<DiscoveredBulb>): seq<DiscoveredBulb>
    decreases |arrivals|
  {
    if arrivals == [] then []
    else
      var kept := Deduplicated(arrivals[..|arrivals| - 1]);
      var last := arrivals[|arrivals| - 1];
      if last.uid in Uids(kept) then kept else kept + [last]
  }

  /**
   * The search of `find_bulbs_timeout` over the bulbs that arrive before
   * the timeout: a bulb equal (by id) to one already found is skipped.
   */
  method FindBulbs(arrivals: seq<DiscoveredBulb>) returns (found: seq<DiscoveredBulb>)
    ensures found == Deduplicated(arrivals)
  {
    found := [];
    var i := 0;
    while i < |arrivals|
      invariant 0 <= i <= |arrivals|
      invariant found == Deduplicated(arrivals[..i])
    {
      assert arrivals[..i + 1][..i] == arrivals[..i];
      var bulb := arrivals[i];
      if bulb.uid in Uids(found) {
        i := i + 1;
        continue;
      }
      found := found + [bulb];
      i := i + 1;
    }
    assert arrivals[..i] == arrivals;
  }

  lemma FirstArrivalSnoc(arrivals: seq<DiscoveredBulb>, b: DiscoveredBulb, uid: nat)
    ensures FirstArrival(arrivals + [b], uid) ==
      if FirstArrival(arrivals, uid).Some? then FirstArrival(arrivals, uid)
      else if b.uid == uid then Some(b) else None
    decreases |arrivals|
  {
    if arrivals != [] {
      assert (arrivals + [b])[1..] == arrivals[1..] + [b];
      FirstArrivalSnoc(arrivals[1..], b, uid);
    } else {
      assert [b][1..] == [];
    }
  }

  lemma FirstArrivalFound(arrivals: seq<DiscoveredBulb>, uid: nat)
    ensures FirstArrival(arrivals, uid).Some? <==> uid in Uids(arrivals)
    ensures FirstArrival(arrivals, uid).Some? ==> FirstArrival(arrivals, uid).value.uid == uid
    decreases |arrivals|
  {
    if arrivals != [] {
      FirstArrivalFound(arrivals[1..], uid);
      assert Uids(arrivals) == {arrivals[0].uid} + Uids(arrivals[1..]);
    }
  }

  /**
   * What the search finds: one entry per bulb (no two with the same id),
   * every bulb that answered, and for each bulb the first answer that
   * arrived from it.
   */
  lemma {:induction false} DeduplicatedFindsEachBulbOnce(arrivals: seq<DiscoveredBulb>)
    ensures forall i, j :: 0 <= i < j < |Deduplicated(arrivals)| ==> Deduplicated(arrivals)[i].uid != Deduplicated(arrivals)[j].uid
    ensures Uids(Deduplicated(arrivals)) == Uids(arrivals)
    ensures forall i :: 0 <= i < |Deduplicated(arrivals)| ==> FirstArrival(arrivals, Deduplicated(arrivals)[i].uid) == Some(Deduplicated(arrivals)[i])
    decreases |arrivals|
  {
    if arrivals != [] {
      var init, last := arrivals[..|arrivals| - 1], arrivals[|arrivals| - 1];
      assert arrivals == init + [last];
      DeduplicatedFindsEachBulbOnce(init);
      var kept := Deduplicated(init);
      assert Uids(arrivals) == Uids(init) + {last.uid};
      forall i | 0 <= i < |Deduplicated(arrivals)|
        ensures FirstArrival(arrivals, Deduplicated(arrivals)[i].uid) == Some(Deduplicated(arrivals)[i])
      {
        var b := Deduplicated(arrivals)[i];
        FirstArrivalSnoc(init, last, b.uid);
        if i < |kept| {
          assert b == kept[i];
        } else {
          assert b == last && last.uid !in Uids(kept);
          FirstArrivalFound(init, b.uid);
        }
      }
      if last.uid !in Uids(kept) {
        assert Uids(kept + [last]) == Uids(kept) + {last.uid};
        forall i | 0 <= i < |kept|
          ensures kept[i].uid != last.uid
        {
          assert kept[i] in kept;
        }
      }
    }
  }
}
