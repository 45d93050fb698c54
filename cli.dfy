/**
 * The command-line front end: the channel-argument parser (`parse_channel_list`,
 * `parse_channels`) and `set_scene`, which switches scenes one after the other with synchronous
 * transactions and stops at the first unknown scene or failed transaction.
 */
module Cli {
  import opened PduTypes
  import opened CaseInsensitive
  import opened Registry
  import opened Upstream

  /** A channel digit: '1' .. '8'. */
  predicate IsChannelDigit(ch: char)
  {
    '1' <= ch <= '8'
  }

  /** The channel a digit names: '1' is ch1, the zero-based channel 0. */
  function DigitChannel(ch: char): (c: Channel)
    requires IsChannelDigit(ch)
    ensures c as int + 1 == ch as int - '0' as int
  {
    (ch as int - '1' as int) as Channel
  }

  /** The number of leading channel digits of `list`. */
  function DigitPrefix(list: string): (k: nat)
    ensures k <= |list|
    ensures forall i :: 0 <= i < k ==> IsChannelDigit(list[i])
    ensures k < |list| ==> !IsChannelDigit(list[k])
  {
    if |list| == 0 || !IsChannelDigit(list[0]) then 0 else 1 + DigitPrefix(list[1..])
  }

  /** The channels the digits `list[..k]` name. */
  function DigitChannels(list: string, k: nat): set<Channel>
    requires k <= |list| && forall i :: 0 <= i < k ==> IsChannelDigit(list[i])
  {
    set i | 0 <= i < k :: DigitChannel(list[i])
  }

  /**
   * `parse_channel_list(list, channels)`: inserts the channel of each digit until the first
   * character that is not '1' .. '8', and reports whether there was none. Insertions made before
   * that character stay in the set.
   */
  method ParseChannelList(list: string, channels: set<Channel>) returns (ok: bool, r: set<Channel>)
    ensures ok <==> DigitPrefix(list) == |list|
    ensures r == channels + DigitChannels(list, DigitPrefix(list))
  {
    r := channels;
    var i := 0;
    while i < |list|
      invariant i <= DigitPrefix(list)
      invariant r == channels + DigitChannels(list, i)
    {
      var ch := list[i];
      if IsChannelDigit(ch) {
        r := r + {DigitChannel(ch)};
        i := i + 1;
      } else {
        return false, r;
      }
    }
    return true, r;
  }

  /** One argument's effect on the set being built: a name, "all", or a digit list. */
  function Step(names: seq<(string, Channel)>, acc: set<Channel>, arg: string): set<Channel>
  {
    match Find(names, arg)
    case Some(c) => acc + {c}
    case None =>
      if IEquals(arg, "all") then Named(names)
      else acc + DigitChannels(arg, DigitPrefix(arg))
  }

  /** An argument the program reports as "unknown channel". */
  predicate Unknown(names: seq<(string, Channel)>, arg: string)
  {
    Find(names, arg).None? && !IEquals(arg, "all") && DigitPrefix(arg) < |arg|
  }

  /** The set `parse_channels` returns for `args`, applying each argument in turn. */
  function Channels(names: seq<(string, Channel)>, args: seq<string>): set<Channel>
  {
    if args == [] then {}
    else Step(names, Channels(names, args[..|args| - 1]), args[|args| - 1])
  }

  /** The arguments reported as unknown, in order. */
  function UnknownArgs(names: seq<(string, Channel)>, args: seq<string>): seq<string>
  {
    if args == [] then []
    else UnknownArgs(names, args[..|args| - 1]) + (if Unknown(names, args[|args| - 1]) then [args[|args| - 1]] else [])
  }

  /**
   * `parse_channels(argc, argv)`: a fresh set; each argument is looked up as a channel name
   * first, then compared with "all" (which replaces the set by every named channel), and
   * otherwise parsed as a digit list, complaining about it if the list is bad.
   */
  method ParseChannels(names: seq<(string, Channel)>, args: seq<string>) returns (r: set<Channel>, unknown: seq<string>)
    ensures r == Channels(names, args)
    ensures unknown == UnknownArgs(names, args)
  {
    r := {};
    unknown := [];
    var i := 0;
    while i < |args|
      invariant i <= |args|
      invariant r == Channels(names, args[..i])
      invariant unknown == UnknownArgs(names, args[..i])
    {
      var arg := args[i];
      assert args[..i + 1][..i] == args[..i];
      var found := Find(names, arg);
      if found.Some? {
        r := r + {found.value};
      } else if IEquals(arg, "all") {
        r := AllChannels(names);
      } else {
        var ok;
        ok, r := ParseChannelList(arg, r);
        if !ok {
          unknown := unknown + [arg];
        }
      }
      i := i + 1;
    }
    assert args[..i] == args;
  }

  /** A found name's channel is a named channel. */
  lemma FindNamed(names: seq<(string, Channel)>, arg: string)
    ensures Find(names, arg).Some? ==> Find(names, arg).value in Named(names)
  {
  }

  /**
   * Every argument that is a channel name contributes its channel, whatever follows it: later
   * arguments only add channels, and "all" replaces the set by one that holds every name.
   */
  lemma {:induction false} NamedArgumentsIncluded(names: seq<(string, Channel)>, args: seq<string>, i: nat)
    requires i < |args| && Find(names, args[i]).Some?
    ensures Find(names, args[i]).value in Channels(names, args)
  {
    var last := |args| - 1;
    FindNamed(names, args[i]);
    if i < last {
      assert args[..last][i] == args[i];
      NamedArgumentsIncluded(names, args[..last], i);
    }
  }

  /** A trailing "all" that is not a channel name yields exactly the named channels. */
  lemma AllResets(names: seq<(string, Channel)>, args: seq<string>, arg: string)
    requires IEquals(arg, "all") && Find(names, arg).None?
    ensures Channels(names, args + [arg]) == Named(names)
  {
    assert (args + [arg])[..|args|] == args;
  }

  /** Digit lists alone: the channels of all their leading digits, e.g. "153" is ch1, ch3, ch5. */
  lemma DigitListExample(names: seq<(string, Channel)>)
    requires Find(names, "153").None?
    ensures Channels(names, ["153"]) == {Ch1, Ch3, Ch5}
    ensures UnknownArgs(names, ["153"]) == []
  {
    var arg := "153";
    assert !IEquals(arg, "all");
    assert DigitPrefix(arg) == 3;
    assert DigitChannels(arg, 3) == {Ch1, Ch3, Ch5} by {
      assert DigitChannel(arg[0]) == Ch1 && DigitChannel(arg[1]) == Ch5 && DigitChannel(arg[2]) == Ch3;
    }
    assert ["153"][..0] == [];
  }

  /** A bad list keeps the channels of the digits before the bad character and is reported. */
  lemma PartialListExample(names: seq<(string, Channel)>)
    requires Find(names, "2x4").None?
    ensures Channels(names, ["2x4"]) == {Ch2}
    ensures UnknownArgs(names, ["2x4"]) == ["2x4"]
  {
    var arg := "2x4";
    assert !IEquals(arg, "all");
    assert DigitPrefix(arg) == 1;
    assert DigitChannels(arg, 1) == {Ch2} by {
      assert DigitChannel(arg[0]) == Ch2;
    }
    assert ["2x4"][..0] == [];
  }

  /** The scene each argument names, if any: `scenes.find(argv[i])`. */
  function Resolve(scenes: seq<(string, Scene)>, args: seq<string>): (found: seq<Option<Scene>>)
    ensures |found| == |args|
  {
    seq(|args|, i requires 0 <= i < |args| => Find(scenes, args[i]))
  }

  /** The requests the looked-up scenes call for, up to the first unknown one. */
  function Planned(found: seq<Option<Scene>>): seq<Call>
  {
    if found == [] then []
    else match found[0]
      case None => []
      case Some(scene) => SceneCalls(scene) + Planned(found[1..])
  }

  /** What `set_scene` returns and which requests it issued. */
  datatype Run = Run(ret: int, issued: seq<Call>)

  /**
   * The loop of `set_scene` over the looked-up scenes, `replies[k]` the outcome of the k-th
   * transaction: each scene's off request, then its on request, each only if that set is
   * non-empty; -1 at the first unknown scene or failed transaction, 0 when every scene was
   * applied. The requests issued are a prefix of the planned ones, and all of them on success.
   */
  function RunScenes(found: seq<Option<Scene>>, replies: seq<Reply>): (r: Run)
    requires |replies| >= 2 * |found|
  {
    if found == [] then Run(0, [])
    else match found[0]
      case None => Run(-1, [])
      case Some(scene) =>
        var offCalls := if scene.off != {} then [SwitchCall(scene.off, Off)] else [];
        if scene.off != {} && !Accepted(replies[0], StatusOk) then Run(-1, offCalls)
        else if scene.on != {} && !Accepted(replies[|offCalls|], StatusOk) then
          Run(-1, offCalls + [SwitchCall(scene.on, On)])
        else
          var ts := SceneCalls(scene);
          var rest := RunScenes(found[1..], replies[|ts|..]);
          Run(rest.ret, ts + rest.issued)
  }

  /** `set_scene(argc, argv)`: the scenes named by `args` applied in turn. */
  /** The run ends with 0 or -1, after at most two requests per scene. */
  lemma {:induction false} RunScenesBounds(found: seq<Option<Scene>>, replies: seq<Reply>)
    requires |replies| >= 2 * |found|
    ensures RunScenes(found, replies).ret == 0 || RunScenes(found, replies).ret == -1
    ensures |RunScenes(found, replies).issued| <= 2 * |found|
  {
    if found != [] && found[0].Some? {
      var ts := SceneCalls(found[0].value);
      RunScenesBounds(found[1..], replies[|ts|..]);
    }
  }

  function SetScenes(scenes: seq<(string, Scene)>, args: seq<string>, replies: seq<Reply>): Run
    requires |replies| >= 2 * |args|
  {
    RunScenes(Resolve(scenes, args), replies)
  }

  /** The requests issued are a prefix of the planned ones, and all of them on success. */
  lemma {:induction false} RunScenesFollowsPlan(found: seq<Option<Scene>>, replies: seq<Reply>)
    requires |replies| >= 2 * |found|
    ensures |RunScenes(found, replies).issued| <= |Planned(found)|
    ensures RunScenes(found, replies).issued == Planned(found)[..|RunScenes(found, replies).issued|]
    ensures RunScenes(found, replies).ret == 0 ==> RunScenes(found, replies).issued == Planned(found)
  {
    if found != [] && found[0].Some? {
      var ts := SceneCalls(found[0].value);
      assert Planned(found) == ts + Planned(found[1..]);
      if forall k :: 0 <= k < |ts| ==> Accepted(replies[k], StatusOk) {
        RunScenesNext(found, replies);
        RunScenesFollowsPlan(found[1..], replies[|ts|..]);
      }
    }
  }

  /**
   * Every issued request but the last succeeded: a request followed by another one in the run
   * was accepted, so nothing is issued after a failure.
   */
  lemma {:induction false} RunScenesStopsAtFailure(found: seq<Option<Scene>>, replies: seq<Reply>, k: nat)
    requires |replies| >= 2 * |found|
    requires k + 1 < |RunScenes(found, replies).issued|
    ensures k < |replies| && Accepted(replies[k], StatusOk)
    decreases |found|
  {
    var scene := found[0].value;
    var ts := SceneCalls(scene);
    if forall j :: 0 <= j < |ts| ==> Accepted(replies[j], StatusOk) {
      if k >= |ts| {
        var tail := replies[|ts|..];
        RunScenesNext(found, replies);
        RunScenesStopsAtFailure(found[1..], tail, k - |ts|);
        assert replies[k] == tail[k - |ts|];
      }
    }
  }

  /** A known scene whose requests all succeed is followed by the run of the remaining ones. */
  lemma RunScenesNext(found: seq<Option<Scene>>, replies: seq<Reply>)
    requires |replies| >= 2 * |found| && found != [] && found[0].Some?
    requires forall k :: 0 <= k < |SceneCalls(found[0].value)| ==> Accepted(replies[k], StatusOk)
    ensures RunScenes(found, replies) ==
      Resume(SceneCalls(found[0].value), RunScenes(found[1..], replies[|SceneCalls(found[0].value)|..]))
  {
  }

  lemma AllKnownTail(found: seq<Option<Scene>>)
    requires found != [] && found[0].Some?
    ensures (forall i :: 0 <= i < |found| ==> found[i].Some?) <==>
      (forall i :: 0 <= i < |found[1..]| ==> found[1..][i].Some?)
  {
    if forall i :: 0 <= i < |found[1..]| ==> found[1..][i].Some? {
      forall i | 0 <= i < |found| ensures found[i].Some? {
        if i > 0 { assert found[i] == found[1..][i - 1]; }
      }
    }
  }

  /** The result is 0 exactly when every scene is known and every request issued succeeded. */
  lemma {:induction false} RunScenesSucceedsIff(found: seq<Option<Scene>>, replies: seq<Reply>)
    requires |replies| >= 2 * |found|
    ensures RunScenes(found, replies).ret == 0 <==>
      (forall i :: 0 <= i < |found| ==> found[i].Some?) &&
      forall k :: 0 <= k < |RunScenes(found, replies).issued| ==> k < |replies| && Accepted(replies[k], StatusOk)
  {
    if found != [] && found[0].Some? {
      var ts := SceneCalls(found[0].value);
      if forall k :: 0 <= k < |ts| ==> Accepted(replies[k], StatusOk) {
        var tail := replies[|ts|..];
        RunScenesNext(found, replies);
        RunScenesSucceedsIff(found[1..], tail);
        RunScenesBounds(found, replies);
        AllKnownTail(found);
        var r := RunScenes(found, replies);
        var rest := RunScenes(found[1..], tail);
        assert forall k :: |ts| <= k < |r.issued| ==> replies[k] == tail[k - |ts|];
        if rest.ret != 0 && forall i :: 0 <= i < |found[1..]| ==> found[1..][i].Some? {
          var k :| 0 <= k < |rest.issued| && !Accepted(tail[k], StatusOk);
          assert !Accepted(replies[|ts| + k], StatusOk);
        }
      }
    }
  }

  /** The off request of a scene precedes its on request; a failed off request leaves the on one out. */
  lemma SceneOffBeforeOn(scene: Scene, replies: seq<Reply>)
    requires |replies| >= 2 && scene.off != {} && scene.on != {}
    ensures Accepted(replies[0], StatusOk) && Accepted(replies[1], StatusOk) ==>
      RunScenes([Some(scene)], replies) == Run(0, [SwitchCall(scene.off, Off), SwitchCall(scene.on, On)])
    ensures !Accepted(replies[0], StatusOk) ==>
      RunScenes([Some(scene)], replies) == Run(-1, [SwitchCall(scene.off, Off)])
    ensures Accepted(replies[0], StatusOk) && !Accepted(replies[1], StatusOk) ==>
      RunScenes([Some(scene)], replies) == Run(-1, [SwitchCall(scene.off, Off), SwitchCall(scene.on, On)])
  {
    assert [Some(scene)][1..] == [];
  }

  /**
   * An unknown scene ends the run: when every scene before the `k`-th is known and all their
   * requests succeed, an unknown `k`-th scene gives -1 after exactly the requests of those before it.
   */
  lemma {:induction false} UnknownSceneStops(found: seq<Option<Scene>>, replies: seq<Reply>, k: nat)
    requires |replies| >= 2 * |found| && k < |found| && found[k].None?
    requires forall i :: 0 <= i < k ==> found[i].Some?
    requires forall j :: 0 <= j < |Planned(found[..k])| && j < |replies| ==> Accepted(replies[j], StatusOk)
    ensures RunScenes(found, replies) == Run(-1, Planned(found[..k]))
    decreases k
  {
    if k == 0 {
      assert found[..0] == [];
    } else {
      var ts := SceneCalls(found[0].value);
      var rest := found[1..];
      assert found[..k][1..] == rest[..k - 1];
      assert Planned(found[..k]) == ts + Planned(rest[..k - 1]);
      var tail := replies[|ts|..];
      forall j | 0 <= j < |Planned(rest[..k - 1])| && j < |tail| ensures Accepted(tail[j], StatusOk) {
        var m := |ts| + j;
        assert m < |Planned(found[..k])| && m < |replies|;
        assert tail[j] == replies[m];
      }
      forall j | 0 <= j < |ts| ensures Accepted(replies[j], StatusOk) {
        assert j < |Planned(found[..k])|;
      }
      RunScenesNext(found, replies);
      assert rest[k - 1] == found[k];
      assert forall i :: 0 <= i < k - 1 ==> rest[i] == found[i + 1];
      UnknownSceneStops(rest, tail, k - 1);
    }
  }

  /**
   * `set_scene(argc, argv)`: the loop looking up each scene and issuing its requests through
   * `set_switch`; `replies[k]` is the outcome of the k-th transaction.
   */
  method CliSetScene(scenes: seq<(string, Scene)>, args: seq<string>, replies: seq<Reply>)
    returns (ret: int, issued: seq<Call>)
    requires |replies| >= 2 * |args|
    ensures Run(ret, issued) == SetScenes(scenes, args, replies)
  {
    ghost var found := Resolve(scenes, args);
    issued := [];
    var i, j := 0, 0;
    while i < |args|
      invariant i <= |found| && 0 <= j <= 2 * i
      invariant RunScenes(found, replies) == Resume(issued, RunScenes(found[i..], replies[j..]))
    {
      var scene := Find(scenes, args[i]);
      if scene.None? {
        UnknownStep(found, replies, i, j, issued);
        return -1, issued;
      }
      var ok, calls := ApplyScene(scene.value, replies[j..]);
      if !ok {
        FailedStep(found, replies, i, j, issued, calls);
        return -1, issued + calls;
      }
      AppliedStep(found, replies, i, j, issued);
      issued := issued + calls;
      i, j := i + 1, j + |calls|;
    }
    return 0, issued;
  }

  /** One scene: its off request, then its on request, stopping at the first failure. */
  method ApplyScene(scene: Scene, replies: seq<Reply>) returns (ok: bool, calls: seq<Call>)
    requires |replies| >= 2
    ensures ok <==> forall k :: 0 <= k < |SceneCalls(scene)| ==> Accepted(replies[k], StatusOk)
    ensures ok ==> calls == SceneCalls(scene)
    ensures !ok ==>
      && 0 < |calls| <= |SceneCalls(scene)| && calls == SceneCalls(scene)[..|calls|]
      && !Accepted(replies[|calls| - 1], StatusOk)
      && forall k :: 0 <= k < |calls| - 1 ==> Accepted(replies[k], StatusOk)
  {
    calls := [];
    if scene.off != {} {
      calls := calls + [SwitchCall(scene.off, Off)];
      if !Accepted(replies[0], StatusOk) {
        return false, calls;
      }
    }
    if scene.on != {} {
      calls := calls + [SwitchCall(scene.on, On)];
      if !Accepted(replies[|calls| - 1], StatusOk) {
        return false, calls;
      }
    }
    return true, calls;
  }

  /** A known scene whose `n`-th request fails ends the run with -1 after its first `n` requests. */
  lemma RunScenesFailsAt(found: seq<Option<Scene>>, replies: seq<Reply>, n: nat)
    requires |replies| >= 2 * |found| && found != [] && found[0].Some?
    requires 0 < n <= |SceneCalls(found[0].value)| && !Accepted(replies[n - 1], StatusOk)
    requires forall k :: 0 <= k < n - 1 ==> Accepted(replies[k], StatusOk)
    ensures RunScenes(found, replies) == Run(-1, SceneCalls(found[0].value)[..n])
  {
  }

  /** The loop of `CliSetScene` stops at an unknown scene with what it has issued so far. */
  lemma UnknownStep(found: seq<Option<Scene>>, replies: seq<Reply>, i: nat, j: nat, issued: seq<Call>)
    requires |replies| >= 2 * |found| && i < |found| && j <= 2 * i && found[i].None?
    ensures Resume(issued, RunScenes(found[i..], replies[j..])) == Run(-1, issued)
  {
    assert found[i..][0] == found[i];
  }

  /** The loop of `CliSetScene` stops at a scene's failed request, with that scene's requests so far. */
  lemma FailedStep(found: seq<Option<Scene>>, replies: seq<Reply>, i: nat, j: nat, issued: seq<Call>,
                   calls: seq<Call>)
    requires |replies| >= 2 * |found| && i < |found| && j <= 2 * i && found[i].Some?
    requires 0 < |calls| <= |SceneCalls(found[i].value)| && calls == SceneCalls(found[i].value)[..|calls|]
    requires !Accepted(replies[j..][|calls| - 1], StatusOk)
    requires forall k :: 0 <= k < |calls| - 1 ==> Accepted(replies[j..][k], StatusOk)
    ensures Resume(issued, RunScenes(found[i..], replies[j..])) == Run(-1, issued + calls)
  {
    assert found[i..][0] == found[i];
    RunScenesFailsAt(found[i..], replies[j..], |calls|);
  }

  /** The loop of `CliSetScene` goes on after a scene whose requests all succeeded. */
  lemma AppliedStep(found: seq<Option<Scene>>, replies: seq<Reply>, i: nat, j: nat, issued: seq<Call>)
    requires |replies| >= 2 * |found| && i < |found| && j <= 2 * i && found[i].Some?
    requires forall k :: 0 <= k < |SceneCalls(found[i].value)| ==> Accepted(replies[j..][k], StatusOk)
    ensures var calls := SceneCalls(found[i].value);
      Resume(issued, RunScenes(found[i..], replies[j..]))
        == Resume(issued + calls, RunScenes(found[i + 1..], replies[j + |calls|..]))
  {
    var calls := SceneCalls(found[i].value);
    assert found[i..][0] == found[i];
    RunScenesNext(found[i..], replies[j..]);
    assert found[i..][1..] == found[i + 1..];
    assert replies[j..][|calls|..] == replies[j + |calls|..];
    ResumeAssoc(issued, calls, RunScenes(found[i + 1..], replies[j + |calls|..]));
  }

  lemma ResumeAssoc(a: seq<Call>, b: seq<Call>, r: Run)
    ensures Resume(a, Resume(b, r)) == Resume(a + b, r)
  {
    assert a + (b + r.issued) == (a + b) + r.issued;
  }

  /** A run continued after the requests already `issued`. */
  function Resume(issued: seq<Call>, r: Run): Run
  {
    Run(r.ret, issued + r.issued)
  }
}
