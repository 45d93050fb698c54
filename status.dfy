/**
 * `parse_status_response`: the device's `/status.xml` answer, reduced to one record per named
 * channel whose `outletStat<i>` element is present. The XML parser itself is abstracted: a
 * document is either the text of its elements by name, or the parser's error message.
 */
module Status {
  import opened PduTypes
  import opened CaseInsensitive
  import opened Text
  import opened Registry

  /** What the XML parser makes of a response body. */
  datatype StatusDoc = Document(elements: map<string, string>) | Unparsable(what: string)

  /** `channel_status`: a channel, its rendered name and whether it is switched on. */
  datatype ChannelStatus = ChannelStatus(channel: Channel, name: string, state: bool)

  /** The element reporting channel `c`: "outletStat" followed by the zero-based index. */
  function ElementName(c: Channel): (e: string)
    ensures |e| == 11 && e[..10] == "outletStat" && e[10] == Digit(c)
  {
    "outletStat" + [Digit(c)]
  }

  lemma ElementNameInjective(a: Channel, b: Channel)
    ensures ElementName(a) == ElementName(b) ==> a == b
  {
    if ElementName(a) == ElementName(b) {
      assert ElementName(a)[10] == ElementName(b)[10];
    }
  }

  /** The record the loop adds for channel `c`, if any. */
  function Entry(names: seq<(string, Channel)>, elements: map<string, string>, c: Channel): seq<ChannelStatus>
  {
    var inv := Inverted(names);
    if ElementName(c) in elements && c in inv
    then [ChannelStatus(c, inv[c], IEquals(elements[ElementName(c)], "on"))]
    else []
  }

  /** The records for channels below `n`, in the order the loop appends them. */
  function StatusesBelow(names: seq<(string, Channel)>, elements: map<string, string>, n: nat): seq<ChannelStatus>
    requires n <= 8
  {
    if n == 0 then [] else StatusesBelow(names, elements, n - 1) + Entry(names, elements, (n - 1) as Channel)
  }

  /** The result of `parse_status_response`, or the message of the exception it lets escape. */
  function ParseStatus(names: seq<(string, Channel)>, doc: StatusDoc): Result<seq<ChannelStatus>, string>
  {
    match doc
    case Unparsable(what) => Err(what)
    case Document(elements) => Ok(StatusesBelow(names, elements, 8))
  }

  /** `parse_status_response`: the `for (int ch = 0; ch < 8; ch++)` loop with its two `continue`s. */
  method ParseStatusResponse(names: seq<(string, Channel)>, inv: map<Channel, string>, doc: StatusDoc)
    returns (r: Result<seq<ChannelStatus>, string>)
    requires inv == Inverted(names)
    ensures r == ParseStatus(names, doc)
  {
    if doc.Unparsable? {
      return Err(doc.what);
    }
    var ret: seq<ChannelStatus> := [];
    var ch := 0;
    while ch < 8
      invariant ch <= 8
      invariant ret == StatusesBelow(names, doc.elements, ch)
    {
      var c := ch as Channel;
      var element := ElementName(c);
      if element !in doc.elements {
        ch := ch + 1;
        continue;
      }
      if c !in inv {
        ch := ch + 1;
        continue;
      }
      ret := ret + [ChannelStatus(c, inv[c], IEquals(doc.elements[element], "on"))];
      ch := ch + 1;
    }
    return Ok(ret);
  }

  ghost predicate AscendingChannels(r: seq<ChannelStatus>)
  {
    forall i, j :: 0 <= i < j < |r| ==> r[i].channel < r[j].channel
  }

  /** A record reports a named channel whose element is present, with its name and state. */
  ghost predicate Describes(names: seq<(string, Channel)>, elements: map<string, string>, st: ChannelStatus)
  {
    && ElementName(st.channel) in elements
    && st.channel in Named(names)
    && st.name == ChannelName(names, st.channel)
    && (st.state <==> IEquals(elements[ElementName(st.channel)], "on"))
  }

  /** Every named channel below `n` whose element is present has a record. */
  ghost predicate Covers(names: seq<(string, Channel)>, elements: map<string, string>, r: seq<ChannelStatus>, n: nat)
  {
    forall c: Channel :: c < n && ElementName(c) in elements && c in Named(names) ==>
      exists i :: 0 <= i < |r| && r[i].channel == c
  }

  lemma EntrySpec(names: seq<(string, Channel)>, elements: map<string, string>, c: Channel)
    ensures |Entry(names, elements, c)| <= 1
    ensures |Entry(names, elements, c)| == 1 <==> ElementName(c) in elements && c in Named(names)
    ensures |Entry(names, elements, c)| == 1 ==>
      Entry(names, elements, c)[0].channel == c && Describes(names, elements, Entry(names, elements, c)[0])
  {
    InvertedAt(names, c);
  }

  /** The records below `n`: ascending, each describing its channel, one for every reportable channel. */
  lemma StatusesBelowSpec(names: seq<(string, Channel)>, elements: map<string, string>, n: nat)
    requires n <= 8
    ensures AscendingChannels(StatusesBelow(names, elements, n))
    ensures forall i :: 0 <= i < |StatusesBelow(names, elements, n)| ==> StatusesBelow(names, elements, n)[i].channel < n
    ensures forall i :: 0 <= i < |StatusesBelow(names, elements, n)| ==>
      Describes(names, elements, StatusesBelow(names, elements, n)[i])
    ensures Covers(names, elements, StatusesBelow(names, elements, n), n)
  {
    StatusesBelowOrdered(names, elements, n);
    StatusesBelowDescribe(names, elements, n);
    StatusesBelowCover(names, elements, n);
  }

  lemma {:induction false} StatusesBelowOrdered(names: seq<(string, Channel)>, elements: map<string, string>, n: nat)
    requires n <= 8
    ensures AscendingChannels(StatusesBelow(names, elements, n))
    ensures forall i :: 0 <= i < |StatusesBelow(names, elements, n)| ==> StatusesBelow(names, elements, n)[i].channel < n
  {
    if n > 0 {
      StatusesBelowOrdered(names, elements, n - 1);
      var c := (n - 1) as Channel;
      EntrySpec(names, elements, c);
      var prev := StatusesBelow(names, elements, n - 1);
      var r := StatusesBelow(names, elements, n);
      assert r == prev + Entry(names, elements, c);
      assert forall i :: 0 <= i < |prev| ==> r[i] == prev[i];
    }
  }

  lemma {:induction false} StatusesBelowDescribe(names: seq<(string, Channel)>, elements: map<string, string>, n: nat)
    requires n <= 8
    ensures forall i :: 0 <= i < |StatusesBelow(names, elements, n)| ==>
      Describes(names, elements, StatusesBelow(names, elements, n)[i])
  {
    if n > 0 {
      StatusesBelowDescribe(names, elements, n - 1);
      var c := (n - 1) as Channel;
      EntrySpec(names, elements, c);
      var prev := StatusesBelow(names, elements, n - 1);
      var r := StatusesBelow(names, elements, n);
      assert r == prev + Entry(names, elements, c);
      assert forall i :: 0 <= i < |prev| ==> r[i] == prev[i];
    }
  }

  lemma {:induction false} StatusesBelowCover(names: seq<(string, Channel)>, elements: map<string, string>, n: nat)
    requires n <= 8
    ensures Covers(names, elements, StatusesBelow(names, elements, n), n)
  {
    if n > 0 {
      StatusesBelowCover(names, elements, n - 1);
      var c := (n - 1) as Channel;
      EntrySpec(names, elements, c);
      var prev := StatusesBelow(names, elements, n - 1);
      var r := StatusesBelow(names, elements, n);
      assert r == prev + Entry(names, elements, c);
      forall d: Channel | d < n && ElementName(d) in elements && d in Named(names)
        ensures exists i :: 0 <= i < |r| && r[i].channel == d
      {
        if d < n - 1 {
          var i :| 0 <= i < |prev| && prev[i].channel == d;
          assert r[i] == prev[i];
        } else {
          assert r[|prev|].channel == d;
        }
      }
    }
  }

  /** A record's channel is reportable: a named channel whose element is present. */
  lemma StatusesReportable(names: seq<(string, Channel)>, elements: map<string, string>, c: Channel)
    ensures (exists i :: 0 <= i < |StatusesBelow(names, elements, 8)| && StatusesBelow(names, elements, 8)[i].channel == c)
      <==> ElementName(c) in elements && c in Named(names)
  {
    StatusesBelowSpec(names, elements, 8);
  }

  /**
   * For a parsable document: records in strictly ascending channel order, exactly for the named
   * channels whose element is present, each with the channel's name and "on" ignoring case.
   */
  lemma ParseStatusSpec(names: seq<(string, Channel)>, elements: map<string, string>)
    ensures ParseStatus(names, Document(elements)).Ok?
    ensures AscendingChannels(ParseStatus(names, Document(elements)).value)
    ensures forall i :: 0 <= i < |ParseStatus(names, Document(elements)).value| ==>
      Describes(names, elements, ParseStatus(names, Document(elements)).value[i])
    ensures forall c: Channel ::
      (exists i :: 0 <= i < |ParseStatus(names, Document(elements)).value| &&
         ParseStatus(names, Document(elements)).value[i].channel == c)
      <==> ElementName(c) in elements && c in Named(names)
  {
    StatusesBelowSpec(names, elements, 8);
    assert ParseStatus(names, Document(elements)).value == StatusesBelow(names, elements, 8);
    forall c: Channel ensures
      (exists i :: 0 <= i < |ParseStatus(names, Document(elements)).value| &&
         ParseStatus(names, Document(elements)).value[i].channel == c)
      <==> ElementName(c) in elements && c in Named(names)
    {
      StatusesReportable(names, elements, c);
    }
  }
}
