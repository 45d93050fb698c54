/** The shipped configuration template: eight channels named ch1..ch8 and three scenes. */
module Config {
  import opened PduTypes
  import opened CaseInsensitive
  import opened Registry

  const ChannelNames: seq<(string, Channel)> := [
    ("ch1", Ch1), ("ch2", Ch2), ("ch3", Ch3), ("ch4", Ch4),
    ("ch5", Ch5), ("ch6", Ch6), ("ch7", Ch7), ("ch8", Ch8)
  ]

  /** Each scene as `{ off, on }`, in the order the template writes them. */
  const Scenes: seq<(string, Scene)> := [
    ("scene0", Scene({Ch1, Ch2}, {})),
    ("scene1", Scene({Ch2}, {Ch1})),
    ("scene2", Scene({Ch1}, {Ch2}))
  ]

  const Template := Config(ChannelNames, Scenes)

  /** Both tables are in the comparator's order, as `std::map` iterates them. */
  lemma TemplateOrdered()
    ensures Ordered(ChannelNames) && Ordered(Scenes)
  {
    forall i | 0 <= i < |ChannelNames| - 1 ensures Less(ChannelNames[i].0, ChannelNames[i + 1].0) {
      assert LessFrom(ChannelNames[i].0, ChannelNames[i + 1].0, 2);
    }
    OrderedFromAdjacent(ChannelNames);
    forall i | 0 <= i < |Scenes| - 1 ensures Less(Scenes[i].0, Scenes[i + 1].0) {
      assert LessFrom(Scenes[i].0, Scenes[i + 1].0, 5);
    }
    OrderedFromAdjacent(Scenes);
  }

  lemma TemplateInjective()
    ensures Injective(ChannelNames)
  {
  }

  /** Every channel name of the template has three characters. */
  lemma ChannelNameLengths(i: nat)
    requires i < |ChannelNames|
    ensures |ChannelNames[i].0| == 3
  {
  }

  lemma TemplateKeysNulFree()
    ensures KeysNulFree(ChannelNames) && KeysNulFree(Scenes)
  {
  }

  /** `all_channels()` over the template is every channel. */
  lemma TemplateNamesEveryChannel()
    ensures Named(ChannelNames) == {Ch1, Ch2, Ch3, Ch4, Ch5, Ch6, Ch7, Ch8}
  {
    forall c: Channel ensures c in Named(ChannelNames) {
      assert ChannelNames[c].1 == c;
    }
  }

  /** Channel `c` is named "ch" followed by the digit `c + 1`, and that name finds `c` again. */
  lemma TemplateNames(c: Channel)
    ensures ChannelName(ChannelNames, c) == "ch" + [('1' as int + c) as char]
    ensures Find(ChannelNames, ChannelName(ChannelNames, c)) == Some(c)
  {
    TemplateOrdered();
    TemplateInjective();
    ChannelNameSpec(ChannelNames, c);
    assert ChannelNames[c] == ("ch" + [('1' as int + c) as char], c) by {
      var d := [('1' as int + c) as char];
      assert |"ch" + d| == 3 && ("ch" + d)[2] == ('1' as int + c) as char;
      assert ChannelNames[c].0 == "ch" + d by {
        if c == 0 { assert d == ['1']; } else if c == 1 { assert d == ['2']; }
        else if c == 2 { assert d == ['3']; } else if c == 3 { assert d == ['4']; }
        else if c == 4 { assert d == ['5']; } else if c == 5 { assert d == ['6']; }
        else if c == 6 { assert d == ['7']; } else { assert d == ['8']; }
      }
    }
    TemplateNamesEveryChannel();
    NameRoundTrip(ChannelNames, c);
  }

  /** Lookups ignore case: "CH3" finds ch3 and "Scene1" finds scene1. */
  lemma TemplateLookupIgnoresCase()
    ensures Find(ChannelNames, "CH3") == Some(Ch3)
    ensures Find(Scenes, "Scene1") == Some(Scenes[1].1)
  {
    TemplateOrdered();
    TemplateKeysNulFree();
    var ch3, scene1 := "ch3", "scene1";
    assert ChannelNames[2].0 == ch3 && Scenes[1].0 == scene1;
    assert NulFree("CH3") && IEquals("CH3", ch3);
    assert NulFree("Scene1") && IEquals("Scene1", scene1);
    FindOwnKey(ChannelNames, 2);
    FindIgnoresCase(ChannelNames, "CH3", ch3);
    FindOwnKey(Scenes, 1);
    FindIgnoresCase(Scenes, "Scene1", scene1);
  }

  /** scene0 only switches off; scene1 and scene2 switch disjoint sets off and on. */
  lemma TemplateScenes()
    ensures Scenes[0].1.off == {Ch1, Ch2} && Scenes[0].1.on == {}
    ensures Scenes[1].1.off !! Scenes[1].1.on && Scenes[2].1.off !! Scenes[2].1.on
  {
  }
}
