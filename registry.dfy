/**
 * The channel-name and scene tables as the program uses them: `std::map` lookups with the
 * `case_insensitive` comparator, `all_channels`, `invert_map` and the rendering of channels,
 * channel sets and operations (`operator<<`, `to_string`).
 */
module Registry {
  import opened PduTypes
  import opened CaseInsensitive
  import opened Text

  /**
   * The static configuration: the channel-name table and the scene table, each as the sequence
   * of its entries in the map's iteration order.
   */
  datatype Config = Config(names: seq<(string, Channel)>, scenes: seq<(string, Scene)>)

  /** What every `std::map` guarantees: its keys ascend strictly under the comparator. */
  ghost predicate Ordered<V>(table: seq<(string, V)>)
  {
    forall i, j :: 0 <= i < j < |table| ==> Less(table[i].0, table[j].0)
  }

  /** No channel has two names (true of the shipped table, not of every configuration). */
  ghost predicate Injective(table: seq<(string, Channel)>)
  {
    forall i, j :: 0 <= i < j < |table| ==> table[i].1 != table[j].1
  }

  ghost predicate KeysNulFree<V>(table: seq<(string, V)>)
  {
    forall i :: 0 <= i < |table| ==> NulFree(table[i].0)
  }

  /** `table.find(key)`: the value of the first entry the comparator cannot tell from `key`. */
  function Find<V>(table: seq<(string, V)>, key: string): Option<V>
  {
    if |table| == 0 then None
    else if Equivalent(key, table[0].0) then Some(table[0].1)
    else Find(table[1..], key)
  }

  /** A lookup fails exactly when no key is equivalent, and otherwise yields an equivalent key's value. */
  lemma {:induction false} FindSpec<V>(table: seq<(string, V)>, key: string)
    ensures Find(table, key).None? <==> forall i :: 0 <= i < |table| ==> !Equivalent(key, table[i].0)
    ensures Find(table, key).Some? ==>
      exists i :: 0 <= i < |table| && Equivalent(key, table[i].0) && Find(table, key).value == table[i].1
  {
    if |table| > 0 && !Equivalent(key, table[0].0) {
      FindSpec(table[1..], key);
      assert forall i :: 1 <= i < |table| ==> table[1..][i - 1] == table[i];
      if Find(table, key).Some? {
        var i :| 0 <= i < |table[1..]| && Equivalent(key, table[1..][i].0) && Find(table, key).value == table[1..][i].1;
        assert table[1..][i] == table[i + 1];
      }
    }
  }

  lemma OrderedFromAdjacent<V>(table: seq<(string, V)>)
    requires forall i :: 0 <= i < |table| - 1 ==> Less(table[i].0, table[i + 1].0)
    ensures Ordered(table)
  {
    forall i, j | 0 <= i < j < |table| ensures Less(table[i].0, table[j].0) {
      AdjacentChain(table, i, j);
    }
  }

  lemma {:induction false} AdjacentChain<V>(table: seq<(string, V)>, i: nat, j: nat)
    requires forall k :: 0 <= k < |table| - 1 ==> Less(table[k].0, table[k + 1].0)
    requires i < j < |table|
    ensures Less(table[i].0, table[j].0)
    decreases j - i
  {
    if i + 1 < j {
      AdjacentChain(table, i + 1, j);
      LessStrictOrder(table[i].0, table[i + 1].0, table[j].0);
    }
  }

  /** Every key of a `std::map` finds its own entry. */
  lemma {:induction false} FindOwnKey<V>(table: seq<(string, V)>, i: nat)
    requires Ordered(table) && i < |table|
    ensures Find(table, table[i].0) == Some(table[i].1)
  {
    LessStrictOrder(table[i].0, table[i].0, table[i].0);
    if i > 0 {
      LessStrictOrder(table[0].0, table[i].0, table[i].0);
      assert !Equivalent(table[i].0, table[0].0);
      assert Ordered(table[1..]) by {
        forall a, b | 0 <= a < b < |table[1..]| ensures Less(table[1..][a].0, table[1..][b].0) {
          assert table[1..][a] == table[a + 1] && table[1..][b] == table[b + 1];
        }
      }
      FindOwnKey(table[1..], i - 1);
    }
  }

  /** Lookups ignore case: keys that agree case-insensitively find the same entry. */
  lemma {:induction false} FindIgnoresCase<V>(table: seq<(string, V)>, a: string, b: string)
    requires KeysNulFree(table) && NulFree(a) && NulFree(b) && IEquals(a, b)
    ensures Find(table, a) == Find(table, b)
  {
    if |table| > 0 {
      EquivalentIffIEquals(a, table[0].0);
      EquivalentIffIEquals(b, table[0].0);
      IEqualsEquivalence(a, b, table[0].0);
      IEqualsEquivalence(b, a, table[0].0);
      assert KeysNulFree(table[1..]) by {
        forall k | 0 <= k < |table[1..]| ensures NulFree(table[1..][k].0) {
          assert table[1..][k] == table[k + 1];
        }
      }
      FindIgnoresCase(table[1..], a, b);
    }
  }

  /** The set of every channel that has a name. */
  function Named(names: seq<(string, Channel)>): set<Channel>
  {
    set i | 0 <= i < |names| :: names[i].1
  }

  /** `all_channels()`: the loop inserting every table entry's channel into a fresh set. */
  method AllChannels(names: seq<(string, Channel)>) returns (r: set<Channel>)
    ensures r == Named(names)
  {
    r := {};
    var i := 0;
    while i < |names|
      invariant i <= |names|
      invariant r == set k | 0 <= k < i :: names[k].1
    {
      r := r + {names[i].1};
      i := i + 1;
    }
  }

  /** The map `invert_map` builds: each channel to the name of its last entry in iteration order. */
  function Inverted(names: seq<(string, Channel)>): map<Channel, string>
  {
    if names == [] then map[]
    else Inverted(names[..|names| - 1])[names[|names| - 1].1 := names[|names| - 1].0]
  }

  /** `invert_map(map_channel_name_to_index)`: `ret[item.second] = item.first` for every entry. */
  method InvertMap(names: seq<(string, Channel)>) returns (inv: map<Channel, string>)
    ensures inv == Inverted(names)
  {
    inv := map[];
    var i := 0;
    while i < |names|
      invariant i <= |names|
      invariant inv == Inverted(names[..i])
    {
      assert names[..i + 1][..i] == names[..i];
      inv := inv[names[i].1 := names[i].0];
      i := i + 1;
    }
    assert names[..|names|] == names;
  }

  /** The inverted map has an entry for exactly the named channels, holding the last name given. */
  lemma {:induction false} InvertedAt(names: seq<(string, Channel)>, c: Channel)
    ensures c in Inverted(names) <==> c in Named(names)
    ensures c in Inverted(names) ==>
      exists i :: 0 <= i < |names| && names[i].1 == c && Inverted(names)[c] == names[i].0
        && forall j :: i < j < |names| ==> names[j].1 != c
  {
    if names != [] {
      var init := names[..|names| - 1];
      InvertedAt(init, c);
      assert Named(names) == Named(init) + {names[|names| - 1].1} by {
        forall x ensures x in Named(names) <==> x in Named(init) + {names[|names| - 1].1} {
          if x in Named(names) {
            var k :| 0 <= k < |names| && names[k].1 == x;
            if k < |names| - 1 { assert init[k] == names[k]; }
          }
          if x in Named(init) {
            var k :| 0 <= k < |init| && init[k].1 == x;
            assert names[k] == init[k];
          }
        }
      }
      if c != names[|names| - 1].1 && c in Inverted(init) {
        var i :| 0 <= i < |init| && init[i].1 == c && Inverted(init)[c] == init[i].0
          && forall j :: i < j < |init| ==> init[j].1 != c;
        assert names[i] == init[i];
        assert forall j :: i < j < |names| ==> names[j].1 != c by {
          forall j | i < j < |names| ensures names[j].1 != c {
            if j < |names| - 1 { assert names[j] == init[j]; }
          }
        }
      }
    }
  }

  /** In a table where no channel has two names, inverting recovers each entry's name. */
  lemma InvertedInjective(names: seq<(string, Channel)>, i: nat)
    requires Injective(names) && i < |names|
    ensures names[i].1 in Inverted(names) && Inverted(names)[names[i].1] == names[i].0
  {
    assert names[i].1 in Named(names);
    InvertedAt(names, names[i].1);
  }

  /** `operator<<(ostream&, channel)`: the channel's name, or nothing if it has none. */
  function ChannelName(names: seq<(string, Channel)>, c: Channel): string
  {
    var inv := Inverted(names);
    if c in inv then inv[c] else ""
  }

  /** A channel renders as its name and an unnamed channel as the empty string. */
  lemma ChannelNameSpec(names: seq<(string, Channel)>, c: Channel)
    requires Injective(names)
    ensures c !in Named(names) ==> ChannelName(names, c) == ""
    ensures forall i :: 0 <= i < |names| && names[i].1 == c ==> ChannelName(names, c) == names[i].0
  {
    InvertedAt(names, c);
    forall i | 0 <= i < |names| && names[i].1 == c ensures ChannelName(names, c) == names[i].0 {
      InvertedInjective(names, i);
    }
  }

  /** Name and channel round trip: looking up a channel's rendered name finds that channel. */
  lemma NameRoundTrip(names: seq<(string, Channel)>, c: Channel)
    requires Ordered(names) && Injective(names) && c in Named(names)
    ensures Find(names, ChannelName(names, c)) == Some(c)
  {
    var i :| 0 <= i < |names| && names[i].1 == c;
    ChannelNameSpec(names, c);
    FindOwnKey(names, i);
  }

  /** The elements of `s` from `from` on, in ascending order: the iteration order of a `std::set`. */
  function AscendingFrom(s: set<Channel>, from: nat): seq<Channel>
    decreases 8 - from
  {
    if from >= 8 then []
    else (if from as Channel in s then [from as Channel] else []) + AscendingFrom(s, from + 1)
  }

  /** The iteration order of a `std::set<channel>`: each element once, strictly ascending. */
  function Ascending(s: set<Channel>): seq<Channel>
  {
    AscendingFrom(s, 0)
  }

  lemma AscendingSpec(s: set<Channel>)
    ensures forall i, j :: 0 <= i < j < |Ascending(s)| ==> Ascending(s)[i] < Ascending(s)[j]
    ensures forall c :: c in Ascending(s) <==> c in s
  {
    AscendingFromSpec(s, 0);
  }

  lemma {:induction false} AscendingFromSpec(s: set<Channel>, from: nat)
    ensures forall i :: 0 <= i < |AscendingFrom(s, from)| ==> AscendingFrom(s, from)[i] >= from
    ensures forall i, j :: 0 <= i < j < |AscendingFrom(s, from)| ==>
      AscendingFrom(s, from)[i] < AscendingFrom(s, from)[j]
    ensures forall c :: c in AscendingFrom(s, from) <==> c in s && c >= from
  {
    AscendingFromBound(s, from);
    AscendingFromSorted(s, from);
    AscendingFromMembers(s, from);
  }

  lemma {:induction false} AscendingFromBound(s: set<Channel>, from: nat)
    ensures forall i :: 0 <= i < |AscendingFrom(s, from)| ==> AscendingFrom(s, from)[i] >= from
    decreases 8 - from
  {
    if from < 8 {
      AscendingFromBound(s, from + 1);
    }
  }

  lemma {:induction false} AscendingFromSorted(s: set<Channel>, from: nat)
    ensures forall i, j :: 0 <= i < j < |AscendingFrom(s, from)| ==>
      AscendingFrom(s, from)[i] < AscendingFrom(s, from)[j]
    decreases 8 - from
  {
    if from < 8 {
      AscendingFromBound(s, from + 1);
      AscendingFromSorted(s, from + 1);
    }
  }

  lemma AscendingFromMembers(s: set<Channel>, from: nat)
    ensures forall c :: c in AscendingFrom(s, from) <==> c in s && c >= from
  {
    forall c: Channel ensures c in AscendingFrom(s, from) <==> c in s && c >= from {
      AscendingFromHas(s, from, c);
    }
  }

  lemma {:induction false} AscendingFromHas(s: set<Channel>, from: nat, c: Channel)
    ensures c in AscendingFrom(s, from) <==> c in s && c >= from
    decreases 8 - from
  {
    if from < 8 {
      AscendingFromHas(s, from + 1, c);
    }
  }

  /** The names of the channels of `cs`, in order. */
  function NamesOf(names: seq<(string, Channel)>, cs: seq<Channel>): seq<string>
  {
    seq(|cs|, i requires 0 <= i < |cs| => ChannelName(names, cs[i]))
  }

  lemma NamesOfSnoc(names: seq<(string, Channel)>, cs: seq<Channel>, i: nat)
    requires i < |cs|
    ensures NamesOf(names, cs[..i + 1]) == NamesOf(names, cs[..i]) + [ChannelName(names, cs[i])]
  {
  }

  /** `to_string(const std::set<channel>&)`: the names in ascending channel order, joined by ", ". */
  function SetText(names: seq<(string, Channel)>, s: set<Channel>): string
  {
    Join(NamesOf(names, Ascending(s)), ", ")
  }

  /** `operator<<(ostream&, const std::set<channel>&)`: the loop with its `first` flag. */
  method RenderSet(names: seq<(string, Channel)>, inv: map<Channel, string>, s: set<Channel>)
    returns (text: string)
    requires inv == Inverted(names)
    ensures text == SetText(names, s)
  {
    var cs := Ascending(s);
    SetTextOf(names, s, cs);
    var first := true;
    text := "";
    var i := 0;
    RenderStart(names, cs);
    while i < |cs|
      invariant i <= |cs|
      invariant first <==> i == 0
      invariant text == Join(NamesOf(names, cs[..i]), ", ")
    {
      var name := if cs[i] in inv then inv[cs[i]] else "";
      var sep := if first then "" else ", ";
      RenderStep(names, inv, cs, i, text, sep, name);
      first := false;
      text := text + sep + name;
      i := i + 1;
    }
    assert cs[..i] == cs;
  }

  lemma RenderStart(names: seq<(string, Channel)>, cs: seq<Channel>)
    ensures Join(NamesOf(names, cs[..0]), ", ") == ""
  {
    assert NamesOf(names, cs[..0]) == [];
  }

  lemma SetTextOf(names: seq<(string, Channel)>, s: set<Channel>, cs: seq<Channel>)
    requires cs == Ascending(s)
    ensures SetText(names, s) == Join(NamesOf(names, cs), ", ")
  {
  }

  /** One round of the rendering loop appends the separator and the next name. */
  lemma RenderStep(names: seq<(string, Channel)>, inv: map<Channel, string>, cs: seq<Channel>,
                   i: nat, text: string, sep: string, name: string)
    requires inv == Inverted(names) && i < |cs|
    requires name == if cs[i] in inv then inv[cs[i]] else ""
    requires text == Join(NamesOf(names, cs[..i]), ", ")
    requires sep == if i == 0 then "" else ", "
    ensures text + sep + name == Join(NamesOf(names, cs[..i + 1]), ", ")
  {
    NamesOfSnoc(names, cs, i);
    JoinSnoc(NamesOf(names, cs[..i]), ChannelName(names, cs[i]), ", ");
  }

  /** `to_string(op_t)`. */
  function OpName(op: Op): (s: string)
    ensures s == "on" <==> op == On
    ensures s == "off" <==> op == Off
  {
    match op
    case On => "on"
    case Off => "off"
  }
}
