/** Requests to a proxy configured with the shipped template, followed through routing and the session. */
module Scenarios {
  import opened PduTypes
  import opened CaseInsensitive
  import opened Registry
  import opened Status
  import opened Upstream
  import opened Router
  import opened Protocol
  import opened Config

  /** "/ch1?on" switches channel ch1 on. */
  lemma ChannelRoute()
    ensures RouteRequest(ChannelNames, Get, "/ch1?on") == SetChannels({Ch1}, "on")
  {
    var path, query := "/ch1", "on";
    assert path + "?" + query == "/ch1?on";
    RouteTarget(ChannelNames, path, query);
    var r1 := RoutePath(ChannelNames, path, query);
    RoutePathChecks(ChannelNames, path, query);
    var p := path[1..];
    assert p == "ch1";
    assert r1 == RouteName(ChannelNames, p, query);
    ChannelLookup();
    assert !IEquals(p, "show") by { IEqualsLength(p, "show"); }
    assert !IEquals(p, "all") by { assert ToLower(p[0]) != ToLower('a'); }
  }

  lemma ChannelLookup()
    ensures Find(ChannelNames, "ch1") == Some(Ch1)
  {
    TemplateNames(Ch1);
    assert ChannelName(ChannelNames, Ch1) == "ch1";
  }

  /** "/set/scene1" applies scene1. */
  lemma SceneRoute()
    ensures RouteRequest(ChannelNames, Get, "/set/scene1") == SetScene("scene1")
  {
    var path := "/set/scene1";
    RouteTarget(ChannelNames, path, "");
    RoutePathChecks(ChannelNames, path, "");
    var p := path[1..];
    assert p == "set/scene1";
    assert RoutePath(ChannelNames, path, "") == RouteName(ChannelNames, p, "");
    IEqualsLength(p, "show");
    IEqualsLength(p, "all");
    SceneTextNulFree(p);
    NoChannelNamed(p);
    SetPrefix(p);
  }

  /** Scene1 switches ch2 off, then ch1 on. */
  lemma ScenePlan()
    ensures Plan(Template, SetScene("scene1")) == [Request(SwitchCall({Ch2}, Off)), Request(SwitchCall({Ch1}, On))]
  {
    SceneLookup();
    var calls := SceneCalls(Scene({Ch2}, {Ch1}));
    assert calls == [SwitchCall({Ch2}, Off), SwitchCall({Ch1}, On)];
  }

  lemma NoChannelNamed(p: string)
    requires |p| > 3 && NulFree(p)
    ensures Find(ChannelNames, p).None?
  {
    FindSpec(ChannelNames, p);
    TemplateKeysNulFree();
    forall i | 0 <= i < |ChannelNames| ensures !Equivalent(p, ChannelNames[i].0) {
      var key := ChannelNames[i].0;
      ChannelNameLengths(i);
      EquivalentIffIEquals(p, key);
      IEqualsLength(p, key);
    }
  }

  lemma SceneTextNulFree(p: string)
    requires p == "set/scene1"
    ensures NulFree(p)
  {
    forall i | 0 <= i < |p| ensures p[i] != '\0' {
      assert p[i] in "set/scn1";
    }
  }

  lemma SetPrefix(p: string)
    requires p == "set/scene1"
    ensures StripSpec(p) == ("set", "scene1")
  {
    assert p[0] == 's';
    assert TrimSlashes(p) == p;
    assert p[3] == '/' && '/' !in p[..3];
    var r := IndexOf(p, '/');
    assert r.Some? && r.value <= 3;
    assert r.value == 3;
    assert p[..3] == "set" && p[4..] == "scene1";
    assert TrimSlashes("scene1") == "scene1";
  }

  lemma SceneLookup()
    ensures Find(Scenes, "scene1") == Some(Scene({Ch2}, {Ch1}))
  {
    TemplateOrdered();
    TemplateKeysNulFree();
    FindOwnKey(Scenes, 1);
  }

  /**
   * As written, "/ch1?on" answered by the device with 401 gets two responses, a 500 and a 200;
   * corrected, only the 500.
   */
  lemma RefusedSwitch(reason: string, body: StatusDoc)
    ensures |Run(Template, AsWritten, Get, "/ch1?on", [UpstreamReply(Answered(401, reason, body))]).responses| == 2
    ensures Run(Template, AsWritten, Get, "/ch1?on", [UpstreamReply(Answered(401, reason, body))]).responses[1].status == 200
    ensures Run(Template, Corrected, Get, "/ch1?on", [UpstreamReply(Answered(401, reason, body))]).responses
         == [InternalError("http-transaction", Some(reason))]
  {
    ChannelRoute();
    assert OpName(On) == "on";
    var events := [UpstreamReply(Answered(401, reason, body))];
    assert events[..0] == [];
    AsWrittenAnswersTwice(Template, {Ch1}, On, 401, reason, body);
    CorrectedAnswersOnce(Template, {Ch1}, On, 401, reason, body);
  }

  /** "/CH3?On" is handled exactly as "/ch3?on", whatever the device answers. */
  lemma UpperCaseRequest(sem: Semantics, events: seq<Event>)
    ensures Run(Template, sem, Get, "/CH3?On", events) == Run(Template, sem, Get, "/ch3?on", events)
  {
    TemplateKeysNulFree();
    var t, u := "/CH3?On", "/ch3?on";
    forall i | 0 <= i < |t| ensures t[i] != '\0' && u[i] != '\0' && ToLower(t[i]) == ToLower(u[i]) {
      assert t[i] in "/CH3?On" && u[i] in "/ch3?on";
    }
    RequestIgnoresCase(Template, sem, Get, t, u, events);
  }
}
