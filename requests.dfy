/** The two upstream request targets: `swith_request` (switch outlets) and `status_request`. */
module Requests {
  import opened PduTypes
  import opened Text
  import opened Registry

  const ControlPrefix := "/control_outlet.htm?"

  /** `status_request()`: the target of the status query. */
  const StatusTarget := "/status.xml"

  /** One `outlet<i>=1&` parameter, `i` the zero-based channel index. */
  function OutletParam(c: Channel): string
  {
    "outlet" + [Digit(c)] + "=1&"
  }

  function OutletParams(cs: seq<Channel>): string
  {
    if cs == [] then "" else OutletParam(cs[0]) + OutletParams(cs[1..])
  }

  /** The switch request's target: one parameter per channel in ascending order, then `op=`. */
  function SwitchTarget(channels: set<Channel>, op: Op): string
  {
    ControlPrefix + OutletParams(Ascending(channels)) + "op=" + [Digit(OpCode(op))]
  }

  lemma {:induction false} OutletParamsSnoc(cs: seq<Channel>, c: Channel)
    ensures OutletParams(cs + [c]) == OutletParams(cs) + OutletParam(c)
  {
    if cs == [] {
      assert [c][1..] == [];
    } else {
      assert (cs + [c])[1..] == cs[1..] + [c];
      OutletParamsSnoc(cs[1..], c);
    }
  }

  /** `swith_request(channels, op)`: the loop writing into an `ostringstream`. */
  method SwitchRequest(channels: set<Channel>, op: Op) returns (target: string)
    ensures target == SwitchTarget(channels, op)
  {
    var cs := Ascending(channels);
    SwitchTargetOf(channels, op, cs);
    target := ControlPrefix;
    var i := 0;
    while i < |cs|
      invariant i <= |cs|
      invariant target == ControlPrefix + OutletParams(cs[..i])
    {
      SwitchRequestStep(cs, i);
      target := target + "outlet" + [Digit(cs[i])] + "=1&";
      i := i + 1;
    }
    assert cs[..i] == cs;
    target := target + "op=" + [Digit(OpCode(op))];
  }

  lemma SwitchTargetOf(channels: set<Channel>, op: Op, cs: seq<Channel>)
    requires cs == Ascending(channels)
    ensures SwitchTarget(channels, op) == ControlPrefix + OutletParams(cs) + "op=" + [Digit(OpCode(op))]
  {
  }

  lemma SwitchRequestStep(cs: seq<Channel>, i: nat)
    requires i < |cs|
    ensures ControlPrefix + OutletParams(cs[..i + 1])
         == ControlPrefix + OutletParams(cs[..i]) + "outlet" + [Digit(cs[i])] + "=1&"
  {
    assert cs[..i + 1] == cs[..i] + [cs[i]];
    OutletParamsSnoc(cs[..i], cs[i]);
  }

  /** Reads back the `outlet<i>=1&` parameters at the front of `s`. */
  function ParseOutlets(s: string): (set<Channel>, string)
    decreases |s|
  {
    if |s| >= 10 && s[..6] == "outlet" && '0' <= s[6] <= '7' && s[7..10] == "=1&" then
      var r := ParseOutlets(s[10..]);
      ({(s[6] as int - '0' as int) as Channel} + r.0, r.1)
    else
      ({}, s)
  }

  /** Reads a switch target back into the channel set and the operation it requests. */
  function ParseSwitchTarget(t: string): Option<(set<Channel>, Op)>
  {
    if |t| >= |ControlPrefix| && t[..|ControlPrefix|] == ControlPrefix then
      var r := ParseOutlets(t[|ControlPrefix|..]);
      var rest := r.1;
      if |rest| == 4 && rest[..3] == "op=" && OpOfCode(rest[3] as int - '0' as int).Some? then
        Some((r.0, OpOfCode(rest[3] as int - '0' as int).value))
      else None
    else None
  }

  lemma {:induction false} ParseOutletParams(cs: seq<Channel>, tail: string)
    requires |tail| < 10
    ensures ParseOutlets(OutletParams(cs) + tail) == ((set c: Channel | c in cs), tail)
  {
    if cs != [] {
      var s := OutletParams(cs) + tail;
      assert s == OutletParam(cs[0]) + (OutletParams(cs[1..]) + tail);
      assert s[..6] == "outlet" && s[6] == Digit(cs[0]) && s[7..10] == "=1&";
      assert s[10..] == OutletParams(cs[1..]) + tail;
      assert (s[6] as int - '0' as int) as Channel == cs[0] && '0' <= s[6] <= '7';
      ParseOutletParams(cs[1..], tail);
      assert (set c: Channel | c in cs) == {cs[0]} + set c: Channel | c in cs[1..];
    } else {
      assert OutletParams(cs) + tail == tail;
      assert (set c: Channel | c in cs) == {};
    }
  }

  /** The switch target determines its channel set and operation: parsing it gives them back. */
  lemma SwitchTargetRoundTrip(channels: set<Channel>, op: Op)
    ensures ParseSwitchTarget(SwitchTarget(channels, op)) == Some((channels, op))
  {
    var cs := Ascending(channels);
    var tail := "op=" + [Digit(OpCode(op))];
    SwitchTargetParts(channels, op);
    ParseOutletParams(cs, tail);
    AscendingSet(channels);
    assert tail[3] as int - '0' as int == OpCode(op);
  }

  /** A switch target is the control prefix, the outlet parameters and the operation parameter. */
  lemma SwitchTargetParts(channels: set<Channel>, op: Op)
    ensures SwitchTarget(channels, op)[..|ControlPrefix|] == ControlPrefix
    ensures SwitchTarget(channels, op)[|ControlPrefix|..]
         == OutletParams(Ascending(channels)) + ("op=" + [Digit(OpCode(op))])
  {
    var t := SwitchTarget(channels, op);
    var rest := OutletParams(Ascending(channels)) + ("op=" + [Digit(OpCode(op))]);
    assert t == ControlPrefix + rest;
  }

  /** The channels of a set's iteration are the set's own. */
  lemma AscendingSet(channels: set<Channel>)
    ensures (set c: Channel | c in Ascending(channels)) == channels
  {
    AscendingSpec(channels);
  }

  /** The status request is not a switch request. */
  lemma StatusTargetNotSwitch(channels: set<Channel>, op: Op)
    ensures SwitchTarget(channels, op) != StatusTarget
  {
    SwitchTargetRoundTrip(channels, op);
    assert |StatusTarget| < |ControlPrefix|;
  }

  /** Distinct channel sets or operations never share a switch target. */
  lemma SwitchTargetInjective(a: set<Channel>, opA: Op, b: set<Channel>, opB: Op)
    requires SwitchTarget(a, opA) == SwitchTarget(b, opB)
    ensures a == b && opA == opB
  {
    SwitchTargetRoundTrip(a, opA);
    SwitchTargetRoundTrip(b, opB);
  }

  lemma AscendingExample()
    ensures Ascending({Ch1, Ch3}) == [Ch1, Ch3]
  {
    var s: set<Channel> := {Ch1, Ch3};
    assert AscendingFrom(s, 3) == [] by {
      assert AscendingFrom(s, 8) == [];
      assert AscendingFrom(s, 7) == [];
      assert AscendingFrom(s, 6) == [];
      assert AscendingFrom(s, 5) == [];
      assert AscendingFrom(s, 4) == [];
    }
    assert AscendingFrom(s, 1) == [Ch3];
  }

  /** Turning off ch1 and ch3 sends `outlet0` and `outlet2`, ascending, with `op=1`. */
  lemma SwitchTargetExample(channels: set<Channel>)
    requires channels == {Ch1, Ch3}
    ensures SwitchTarget(channels, Off) == "/control_outlet.htm?outlet0=1&outlet2=1&op=1"
  {
    AscendingExample();
    OutletParamsExample();
    var params := OutletParams(Ascending(channels));
    assert params == "outlet0=1&outlet2=1&";
    var code := [Digit(OpCode(Off))];
    assert code == "1";
    assert SwitchTarget(channels, Off) == ControlPrefix + params + "op=" + code;
  }

  lemma OutletParamsExample()
    ensures OutletParams([Ch1, Ch3]) == "outlet0=1&outlet2=1&"
  {
    var cs := [Ch1, Ch3];
    assert cs[1..] == [Ch3];
    var p0, p2 := OutletParam(Ch1), OutletParam(Ch3);
    assert p0 == "outlet0=1&" && p2 == "outlet2=1&";
    assert OutletParams(cs[1..]) == p2 + OutletParams([]);
  }

  /** An empty channel set still yields a request, carrying only the operation. */
  lemma SwitchTargetEmpty(op: Op)
    ensures SwitchTarget({}, op) == ControlPrefix + "op=" + [Digit(OpCode(op))]
  {
    AscendingSpec({});
    assert Ascending({}) == [];
  }
}
