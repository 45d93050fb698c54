/**
 * The request router of the proxy: `strip_path_element`, the decisions `process_request`
 * takes on a request line, and the query dispatch of `set_channels(channels, query)`.
 */
module Router {
  import opened PduTypes
  import opened CaseInsensitive
  import opened Registry

  /** The position of the first `c` in `s`: `std::string_view::find`. */
  function IndexOf(s: string, c: char): (r: Option<nat>)
    ensures r.None? <==> c !in s
    ensures r.Some? ==> r.value < |s| && s[r.value] == c && c !in s[..r.value]
  {
    if |s| == 0 then None
    else if s[0] == c then Some(0)
    else
      var r := IndexOf(s[1..], c);
      if r.None? then None
      else
        assert s[..r.value + 1] == [s[0]] + s[1..][..r.value];
        Some(r.value + 1)
  }

  /** `path` without its leading '/' characters. */
  function TrimSlashes(path: string): (r: string)
    ensures |r| <= |path|
    ensures r == [] || r[0] != '/'
  {
    if |path| > 0 && path[0] == '/' then TrimSlashes(path[1..]) else path
  }

  /**
   * What `strip_path_element(path)` returns and leaves in `path`: after the leading slashes,
   * the text up to the next '/' and whatever follows it with its own leading slashes removed;
   * or, with no further '/', the whole remaining text and an empty path.
   */
  function StripSpec(path: string): (string, string)
  {
    var p := TrimSlashes(path);
    match IndexOf(p, '/')
    case None => (p, "")
    case Some(n) => (p[..n], TrimSlashes(p[n + 1..]))
  }

  /** `strip_path_element(path)`: the two `while` loops dropping slashes, `path` passed by reference. */
  method StripPathElement(path: string) returns (segment: string, rest: string)
    ensures (segment, rest) == StripSpec(path)
  {
    var p := path;
    var n := IndexOf(p, '/');
    while n == Some(0)
      invariant TrimSlashes(p) == TrimSlashes(path) && n == IndexOf(p, '/')
      decreases |p|
    {
      p := p[1..];
      n := IndexOf(p, '/');
    }
    TrimmedFixed(p);
    if n.None? {
      segment := p;
      rest := "";
    } else {
      segment := p[..n.value];
      p := p[n.value + 1..];
      ghost var after := p;
      n := IndexOf(p, '/');
      while n == Some(0)
        invariant TrimSlashes(p) == TrimSlashes(after) && n == IndexOf(p, '/')
        decreases |p|
      {
        p := p[1..];
        n := IndexOf(p, '/');
      }
      TrimmedFixed(p);
      rest := p;
    }
  }

  /** A path whose first character is not '/' has no leading slashes to trim. */
  lemma TrimmedFixed(p: string)
    requires IndexOf(p, '/') != Some(0)
    ensures TrimSlashes(p) == p
  {
  }

  /**
   * The segment holds no '/', the remaining path does not start with '/', and a path with no
   * '/' after its leading slashes is consumed whole.
   */
  lemma StripSpecProperties(path: string)
    ensures '/' !in StripSpec(path).0
    ensures StripSpec(path).1 == [] || StripSpec(path).1[0] != '/'
    ensures '/' !in TrimSlashes(path) ==> StripSpec(path) == (TrimSlashes(path), "")
  {
  }

  /** `path` is its leading slashes followed by the trimmed rest. */
  lemma {:induction false} TrimSlashesSplit(path: string)
    ensures path == Slashes(|path| - |TrimSlashes(path)|) + TrimSlashes(path)
  {
    if |path| > 0 && path[0] == '/' {
      TrimSlashesSplit(path[1..]);
      assert path == "/" + path[1..];
    }
  }

  /** Nothing is lost but slashes: the path is slashes, the segment, slashes, then the rest. */
  lemma StripSpecReassembles(path: string) returns (a: nat, b: nat)
    ensures path == Slashes(a) + StripSpec(path).0 + Slashes(b) + StripSpec(path).1
    ensures StripSpec(path).1 != "" ==> b > 0
  {
    var p := TrimSlashes(path);
    a := |path| - |p|;
    TrimSlashesSplit(path);
    if IndexOf(p, '/').None? {
      b := 0;
      assert StripSpec(path) == (p, "");
      assert Slashes(0) + "" == "";
    } else {
      var n := IndexOf(p, '/').value;
      b := SplitAtSlash(p, n);
      assert StripSpec(path) == (p[..n], TrimSlashes(p[n + 1..]));
      Associate(Slashes(a), p[..n], Slashes(b), TrimSlashes(p[n + 1..]));
    }
  }

  lemma Associate(w: string, x: string, y: string, z: string)
    ensures w + (x + y + z) == w + x + y + z
  {
  }

  /** The text after the first '/' is more slashes (`b - 1` of them) and the trimmed rest. */
  lemma SplitAtSlash(p: string, n: nat) returns (b: nat)
    requires n < |p| && p[n] == '/'
    ensures b > 0 && p == p[..n] + Slashes(b) + TrimSlashes(p[n + 1..])
  {
    var q := p[n + 1..];
    TrimSlashesSplit(q);
    b := |q| - |TrimSlashes(q)| + 1;
    assert p == p[..n] + "/" + q;
    assert Slashes(b) == "/" + Slashes(b - 1);
  }

  /** `k` slashes. */
  function Slashes(k: nat): (s: string)
    ensures |s| == k && ('/' in s <==> k > 0)
  {
    if k == 0 then "" else "/" + Slashes(k - 1)
  }

  /** The request target split at the first '?': the path before it and the query after it. */
  function SplitTarget(target: string): (parts: (string, string))
    ensures '?' !in parts.0
    ensures '?' in target ==> target == parts.0 + "?" + parts.1
    ensures '?' !in target ==> parts == (target, "")
  {
    match IndexOf(target, '?')
    case None => (target, "")
    case Some(n) =>
      assert target == target[..n] + "?" + target[n + 1..];
      (target[..n], target[n + 1..])
  }

  datatype Verb = Get | OtherVerb

  /** Where `process_request` sends a request. */
  datatype Route =
    | Ignored
    | BadRequest(why: string)
    | RootDocument
    | ShowStatus
    | SetChannels(channels: set<Channel>, query: string)
    | SetScene(name: string)
    | NotFound

  /**
   * `process_request`: non-GET requests are dropped; the path must be non-empty and absolute;
   * then, in this order, the root, "show", "all", a channel name, "set/<scene>", and 404.
   */
  function RouteRequest(names: seq<(string, Channel)>, verb: Verb, target: string): Route
  {
    if verb != Get then Ignored
    else RoutePath(names, SplitTarget(target).0, SplitTarget(target).1)
  }

  /** The checks on the path: non-empty and absolute, then the route of what follows the '/'. */
  function RoutePath(names: seq<(string, Channel)>, path: string, query: string): Route
  {
    if path == "" then BadRequest("request error: path is empty")
    else if path[0] != '/' then BadRequest("request error: path is not absolute")
    else RouteName(names, path[1..], query)
  }

  /** The route of the path after its leading '/'. */
  function RouteName(names: seq<(string, Channel)>, p: string, query: string): Route
  {
    if p == "" then RootDocument
    else if IEquals(p, "show") then ShowStatus
    else if IEquals(p, "all") then SetChannels(Named(names), query)
    else match Find(names, p)
      case Some(c) => SetChannels({c}, query)
      case None => if IEquals(StripSpec(p).0, "set") then SetScene(StripSpec(p).1) else NotFound
  }

  /** What `set_channels(channels, query)` does with the query. */
  datatype Action = Switch(op: Op) | Cycle | Illegal

  /** `set_channels(channels, query)`: "on", "off" or "cycle", ignoring case; anything else is illegal. */
  function Dispatch(query: string): (a: Action)
    ensures a == Switch(On) <==> IEquals(query, "on")
    ensures a == Switch(Off) <==> IEquals(query, "off")
    ensures a == Cycle <==> IEquals(query, "cycle")
    ensures a == Illegal <==> !IEquals(query, "on") && !IEquals(query, "off") && !IEquals(query, "cycle")
  {
    if IEquals(query, "on") then Switch(On)
    else if IEquals(query, "off") then Switch(Off)
    else if IEquals(query, "cycle") then Cycle
    else Illegal
  }

  /** The rendered operation names dispatch back to their operation. */
  lemma DispatchOpName(op: Op)
    ensures Dispatch(OpName(op)) == Switch(op)
  {
    IEqualsEquivalence(OpName(op), OpName(op), OpName(op));
  }

  /** A GET request is routed by the path before the first '?', with the rest as its query. */
  lemma RouteTarget(names: seq<(string, Channel)>, path: string, query: string)
    requires '?' !in path
    ensures RouteRequest(names, Get, path + "?" + query) == RoutePath(names, path, query)
    ensures RouteRequest(names, Get, path) == RoutePath(names, path, "")
  {
    var t := path + "?" + query;
    assert t[..|path|] == path && t[|path|] == '?';
  }

  /** Empty and relative paths are bad requests; an absolute one is routed by what follows the '/'. */
  lemma RoutePathChecks(names: seq<(string, Channel)>, path: string, query: string)
    ensures path == "" ==> RoutePath(names, path, query) == BadRequest("request error: path is empty")
    ensures path != "" && path[0] != '/' ==>
      RoutePath(names, path, query) == BadRequest("request error: path is not absolute")
    ensures path != "" && path[0] == '/' ==> RoutePath(names, path, query) == RouteName(names, path[1..], query)
    ensures RoutePath(names, path, query).BadRequest? <==> path == "" || path[0] != '/'
  {
    if path != "" && path[0] == '/' {
      assert !RouteName(names, path[1..], query).BadRequest?;
    }
  }

  /** A channel registered under the name "show" can never be switched through the proxy. */
  lemma ShowShadowsChannel(names: seq<(string, Channel)>, query: string)
    requires Find(names, "show").Some?
    ensures RouteName(names, "show", query) == ShowStatus
  {
    IEqualsEquivalence("show", "show", "show");
  }

  /** `iequals` queries select the same action: "CYCLE" power-cycles like "cycle". */
  lemma DispatchIgnoresCase(a: string, b: string)
    requires IEquals(a, b)
    ensures Dispatch(a) == Dispatch(b)
  {
    IEqualsEquivalence(a, b, "on");
    IEqualsEquivalence(b, a, "on");
    IEqualsEquivalence(a, b, "off");
    IEqualsEquivalence(b, a, "off");
    IEqualsEquivalence(a, b, "cycle");
    IEqualsEquivalence(b, a, "cycle");
  }

  /** Lower-casing changes only 'A'..'Z', so '/' and '?' agree case-insensitively only with themselves. */
  lemma Separator(c: char, d: char)
    requires ToLower(c) == ToLower(d)
    ensures c == '/' <==> d == '/'
    ensures c == '?' <==> d == '?'
  {
  }

  /** Strings that agree case-insensitively have their first '/' (or '?') at the same place. */
  lemma IndexOfIgnoresCase(a: string, b: string, c: char)
    requires IEquals(a, b) && (c == '/' || c == '?')
    ensures IndexOf(a, c) == IndexOf(b, c)
  {
    forall i | 0 <= i < |a| ensures a[i] == c <==> b[i] == c {
      Separator(a[i], b[i]);
    }
  }

  lemma {:induction false} TrimSlashesIgnoresCase(a: string, b: string)
    requires IEquals(a, b)
    ensures IEquals(TrimSlashes(a), TrimSlashes(b))
    decreases |a|
  {
    if |a| > 0 {
      Separator(a[0], b[0]);
      if a[0] == '/' {
        IEqualsSlice(a, b, 1, |a|);
        assert a[1..|a|] == a[1..] && b[1..|b|] == b[1..];
        TrimSlashesIgnoresCase(a[1..], b[1..]);
      }
    }
  }

  lemma {:induction false} TrimSlashesNulFree(a: string)
    requires NulFree(a)
    ensures NulFree(TrimSlashes(a))
    decreases |a|
  {
    if |a| > 0 && a[0] == '/' {
      TrimSlashesNulFree(a[1..]);
    }
  }

  /** `strip_path_element` takes paths that agree case-insensitively apart at the same places. */
  lemma StripSpecIgnoresCase(p: string, q: string)
    requires IEquals(p, q)
    ensures IEquals(StripSpec(p).0, StripSpec(q).0) && IEquals(StripSpec(p).1, StripSpec(q).1)
  {
    TrimSlashesIgnoresCase(p, q);
    var a, b := TrimSlashes(p), TrimSlashes(q);
    IndexOfIgnoresCase(a, b, '/');
    if IndexOf(a, '/').Some? {
      var n := IndexOf(a, '/').value;
      IEqualsSlice(a, b, 0, n);
      IEqualsSlice(a, b, n + 1, |a|);
      assert a[n + 1..|a|] == a[n + 1..] && b[n + 1..|b|] == b[n + 1..];
      TrimSlashesIgnoresCase(a[n + 1..], b[n + 1..]);
    }
  }

  lemma StripSpecNulFree(p: string)
    requires NulFree(p)
    ensures NulFree(StripSpec(p).1)
  {
    TrimSlashesNulFree(p);
    var a := TrimSlashes(p);
    if IndexOf(a, '/').Some? {
      TrimSlashesNulFree(a[IndexOf(a, '/').value + 1..]);
    }
  }

  /**
   * Routes the handlers treat alike: the same route, the same channels with queries that agree
   * case-insensitively, or scene names that agree case-insensitively.
   */
  ghost predicate Alike(a: Route, b: Route)
  {
    match a
    case SetChannels(channels, query) => b.SetChannels? && b.channels == channels && IEquals(query, b.query)
    case SetScene(name) => b.SetScene? && IEquals(name, b.name) && NulFree(name) && NulFree(b.name)
    case _ => a == b
  }

  /** The path after the leading '/' is matched without regard to case, at every step of the routing. */
  lemma RouteNameIgnoresCase(names: seq<(string, Channel)>, p: string, q: string, query: string, query': string)
    requires KeysNulFree(names) && NulFree(p) && NulFree(q) && IEquals(p, q) && IEquals(query, query')
    ensures Alike(RouteName(names, p, query), RouteName(names, q, query'))
  {
    IEqualsEquivalence(p, q, "show");
    IEqualsEquivalence(q, p, "show");
    IEqualsEquivalence(p, q, "all");
    IEqualsEquivalence(q, p, "all");
    FindIgnoresCase(names, p, q);
    StripSpecIgnoresCase(p, q);
    StripSpecNulFree(p);
    StripSpecNulFree(q);
    var s, t := StripSpec(p).0, StripSpec(q).0;
    IEqualsEquivalence(s, t, "set");
    IEqualsEquivalence(t, s, "set");
  }

  /** Targets that agree case-insensitively split at '?' into parts that do. */
  lemma SplitTargetIgnoresCase(t: string, u: string)
    requires IEquals(t, u)
    ensures IEquals(SplitTarget(t).0, SplitTarget(u).0) && IEquals(SplitTarget(t).1, SplitTarget(u).1)
  {
    IndexOfIgnoresCase(t, u, '?');
    if IndexOf(t, '?').Some? {
      var n := IndexOf(t, '?').value;
      IEqualsSlice(t, u, 0, n);
      IEqualsSlice(t, u, n + 1, |t|);
      assert t[n + 1..|t|] == t[n + 1..] && u[n + 1..|u|] == u[n + 1..];
    } else {
      IEqualsEquivalence("", "", "");
    }
  }

  lemma RoutePathIgnoresCase(names: seq<(string, Channel)>, path: string, path': string, query: string, query': string)
    requires KeysNulFree(names) && NulFree(path) && NulFree(path') && IEquals(path, path') && IEquals(query, query')
    ensures Alike(RoutePath(names, path, query), RoutePath(names, path', query'))
  {
    if path != "" {
      Separator(path[0], path'[0]);
      if path[0] == '/' {
        IEqualsSlice(path, path', 1, |path|);
        assert path[1..|path|] == path[1..] && path'[1..|path'|] == path'[1..];
        RouteNameIgnoresCase(names, path[1..], path'[1..], query, query');
      }
    }
  }

  /**
   * The request target is matched without regard to case: targets that agree case-insensitively,
   * such as "/ch3?on" and "/CH3?On", are routed alike.
   */
  lemma RouteRequestIgnoresCase(names: seq<(string, Channel)>, verb: Verb, t: string, u: string)
    requires KeysNulFree(names) && NulFree(t) && NulFree(u) && IEquals(t, u)
    ensures Alike(RouteRequest(names, verb, t), RouteRequest(names, verb, u))
  {
    if verb == Get {
      SplitTargetIgnoresCase(t, u);
      var path, path' := SplitTarget(t).0, SplitTarget(u).0;
      assert NulFree(path) && NulFree(path') by {
        if IndexOf(t, '?').Some? {
          assert path == t[..IndexOf(t, '?').value];
          assert path' == u[..IndexOf(u, '?').value];
        }
      }
      RoutePathIgnoresCase(names, path, path', SplitTarget(t).1, SplitTarget(u).1);
    }
  }
}
