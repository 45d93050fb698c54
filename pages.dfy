/**
 * The bodies the proxy answers with: the 500 page of `internal_server_error`, the plain-text
 * channel list of `show`, and the repeated parts of the HTML page of `root_document`.
 */
module Pages {
  import opened PduTypes
  import opened Text
  import opened Status

  const ErrorHead := "<html><head><title>internal server error</title></head><body><h1>internal server error</h1><p>"
  const ErrorTail := "</p></body></html>"

  /** `internal_server_error(operation, ec)`: the operation, then " failed: " and the message if `ec` is set. */
  function ErrorBody(operation: string, error: Option<string>): string
  {
    ErrorHead + operation + (if error.Some? then " failed: " + error.value else "") + ErrorTail
  }

  /** The page names the operation, and the error's message right after it. */
  lemma ErrorBodyShape(operation: string, error: Option<string>)
    ensures var body := ErrorBody(operation, error);
      && body[..|ErrorHead|] == ErrorHead
      && body[|ErrorHead|..|ErrorHead| + |operation|] == operation
      && (error.None? ==> body[|ErrorHead| + |operation|..] == ErrorTail)
      && (error.Some? ==> body[|ErrorHead| + |operation|..] == " failed: " + error.value + ErrorTail)
  {
    var body := ErrorBody(operation, error);
    var suffix := (if error.Some? then " failed: " + error.value else "") + ErrorTail;
    assert body == ErrorHead + operation + suffix;
  }

  /** A failed step is recognisable from the page: the three steps of a power cycle give different pages. */
  lemma ErrorBodiesDistinct(m1: string, m2: string)
    ensures ErrorBody("http-transaction off", Some(m1)) != ErrorBody("wait", Some(m2))
    ensures ErrorBody("wait", Some(m1)) != ErrorBody("http-transaction on", Some(m2))
    ensures ErrorBody("http-transaction off", Some(m1)) != ErrorBody("http-transaction on", Some(m2))
  {
    var h := |ErrorHead|;
    ErrorBodyShape("http-transaction off", Some(m1));
    ErrorBodyShape("http-transaction on", Some(m2));
    ErrorBodyShape("wait", Some(m1));
    ErrorBodyShape("wait", Some(m2));
    assert ErrorBody("http-transaction off", Some(m1))[h] == 'h';
    assert ErrorBody("wait", Some(m2))[h] == 'w';
    assert ErrorBody("wait", Some(m1))[h] == 'w';
    assert ErrorBody("http-transaction on", Some(m2))[h] == 'h';
    assert ErrorBody("http-transaction off", Some(m1))[h + 18] == 'f';
    assert ErrorBody("http-transaction on", Some(m2))[h + 18] == 'n';
  }

  function StateText(on: bool): string
  {
    if on then "on" else "off"
  }

  /** One line of the `show` answer. */
  function ShowLine(st: ChannelStatus): string
  {
    st.name + ": " + StateText(st.state) + "\n"
  }

  /** The `show` answer: one line per record, in order. */
  function ShowBody(states: seq<ChannelStatus>): string
  {
    Concat(seq(|states|, i requires 0 <= i < |states| => ShowLine(states[i])))
  }

  /** Each record adds its own line at the end. */
  lemma ShowBodySnoc(states: seq<ChannelStatus>, st: ChannelStatus)
    ensures ShowBody(states + [st]) == ShowBody(states) + ShowLine(st)
  {
    var lines := seq(|states|, i requires 0 <= i < |states| => ShowLine(states[i]));
    assert seq(|states + [st]|, i requires 0 <= i < |states + [st]| => ShowLine((states + [st])[i])) == lines + [ShowLine(st)];
    ConcatSnoc(lines, ShowLine(st));
  }

  /** The number of line breaks in `s`. */
  function Newlines(s: string): nat
  {
    if s == [] then 0 else Newlines(s[..|s| - 1]) + (if s[|s| - 1] == '\n' then 1 else 0)
  }

  /** The `show` answer holds one line break per record. */
  lemma {:induction false} ShowBodyLines(states: seq<ChannelStatus>)
    requires forall i :: 0 <= i < |states| ==> '\n' !in states[i].name
    ensures Newlines(ShowBody(states)) == |states|
  {
    if states != [] {
      var init := states[..|states| - 1];
      var last := states[|states| - 1];
      assert states == init + [last];
      ShowBodyLines(init);
      ShowBodySnoc(init, last);
      ShowLineNewlines(last);
      NewlinesAppend(ShowBody(init), ShowLine(last));
    }
  }

  lemma {:induction false} NewlinesAppend(a: string, b: string)
    ensures Newlines(a + b) == Newlines(a) + Newlines(b)
    decreases |b|
  {
    if b == [] {
      assert a + b == a;
    } else {
      var b' := b[..|b| - 1];
      assert (a + b)[..|a + b| - 1] == a + b';
      NewlinesAppend(a, b');
    }
  }

  lemma {:induction false} NewlineFree(s: string)
    requires '\n' !in s
    ensures Newlines(s) == 0
    decreases |s|
  {
    if s != [] {
      NewlineFree(s[..|s| - 1]);
    }
  }

  /** A line of the `show` answer ends in its only line break. */
  lemma ShowLineNewlines(st: ChannelStatus)
    requires '\n' !in st.name
    ensures Newlines(ShowLine(st)) == 1
  {
    var line := st.name + ": " + StateText(st.state);
    assert ShowLine(st) == line + "\n";
    NewlineFree(line);
    NewlinesAppend(line, "\n");
    assert "\n"[..0] == [];
  }

  /** The HTML page before the scene list (its head, style and script are not modelled). */
  const RootHead := "<html><head><title>power switch</title></head><body><h1>power switch</h1><h2>Scenes:</h2><ul>\n"
  /** The HTML page between the scene list and the channel rows. */
  const RootMiddle := "</ul><h2>Channels:</h2><table><tr><th>channel</th><th>state</th><th colspan='2'>command</th></tr>\n"
  /** The end of the HTML page. */
  const RootTail := "</table><div id='overlay'/></body></html>\n"

  /** The button applying a scene. */
  function SceneItem(name: string): string
  {
    "<li><button onclick='set_switch(\"set/" + name + "\")'>" + name + "</button></li>\n"
  }

  /** The table row of one channel: its name, its state and its off and on buttons. */
  function ChannelRow(st: ChannelStatus): string
  {
    "<tr class='" + st.name + "'>"
      + "<td class='channel'>" + st.name + "</td>"
      + "<td class='state " + StateText(st.state) + "'>" + StateText(st.state) + "</td>"
      + "<td class='off_button'><button onclick='set_switch(\"" + st.name + "?off\")'>off</button></td>"
      + "<td class='on_button'><button onclick='set_switch(\"" + st.name + "?on\")'>on</button></td>"
      + "</tr>\n"
  }

  /** The button of a scene table entry. */
  function SceneEntryItem(e: (string, Scene)): string
  {
    SceneItem(e.0)
  }

  /** The scene buttons, one per table entry, in table order. */
  function SceneList(scenes: seq<(string, Scene)>): string
  {
    Concat(Map(scenes, SceneEntryItem))
  }

  /** The channel rows, one per record, in order. */
  function ChannelTable(states: seq<ChannelStatus>): string
  {
    Concat(Map(states, ChannelRow))
  }

  /** The root page: the scene list, then the channel table. */
  function RootBody(scenes: seq<(string, Scene)>, states: seq<ChannelStatus>): string
  {
    RootHead + SceneList(scenes) + RootMiddle + ChannelTable(states) + RootTail
  }

  /** Each further scene adds its button at the end of the scene list. */
  lemma SceneListSnoc(scenes: seq<(string, Scene)>, e: (string, Scene))
    ensures SceneList(scenes + [e]) == SceneList(scenes) + SceneItem(e.0)
  {
    MapSnoc(scenes, e, SceneEntryItem);
  }

  /** Each further record adds its row at the end of the channel table. */
  lemma ChannelTableSnoc(states: seq<ChannelStatus>, st: ChannelStatus)
    ensures ChannelTable(states + [st]) == ChannelTable(states) + ChannelRow(st)
  {
    MapSnoc(states, st, ChannelRow);
  }

  lemma Associate(a: string, b: string, c: string, d: string, e: string, f: string, g: string)
    ensures a + (b + c + d) + e + f + g == a + b + c + d + e + f + g
    ensures a + b + c + (d + e + f) + g == a + b + c + d + e + f + g
  {
  }

  /**
   * The root page holds a button for each configured scene, in table order, inside the scene
   * list, ahead of the channel table.
   */
  lemma RootBodyScene(scenes: seq<(string, Scene)>, states: seq<ChannelStatus>, i: nat)
    requires i < |scenes|
    ensures RootBody(scenes, states) == RootHead + SceneList(scenes[..i]) + SceneItem(scenes[i].0)
      + SceneList(scenes[i + 1..]) + RootMiddle + ChannelTable(states) + RootTail
  {
    MapSplit(scenes, SceneEntryItem, i);
    Associate(RootHead, SceneList(scenes[..i]), SceneItem(scenes[i].0), SceneList(scenes[i + 1..]),
              RootMiddle, ChannelTable(states), RootTail);
  }

  /** The root page holds a row for each status record, in order, inside the channel table. */
  lemma RootBodyRow(scenes: seq<(string, Scene)>, states: seq<ChannelStatus>, j: nat)
    requires j < |states|
    ensures RootBody(scenes, states) == RootHead + SceneList(scenes) + RootMiddle
      + ChannelTable(states[..j]) + ChannelRow(states[j]) + ChannelTable(states[j + 1..]) + RootTail
  {
    MapSplit(states, ChannelRow, j);
    Associate(RootHead, SceneList(scenes), RootMiddle, ChannelTable(states[..j]), ChannelRow(states[j]),
              ChannelTable(states[j + 1..]), RootTail);
  }
}
