/**
 * `proxy_server::session`: the object serving one client connection. Its callbacks run one at
 * a time on the I/O context; here each is a method updating the session's fields, and the
 * outside world (the client socket, the upstream transactions, the timer) is what the fields
 * record: the activities asked for and the responses sent.
 */
module Proxy {
  import opened PduTypes
  import opened CaseInsensitive
  import opened Registry
  import opened Status
  import opened Upstream
  import opened Router
  import opened Pages
  import opened Protocol

  class Session {
    const cfg: Config
    const sem: Semantics
    /** `map_channel_index_to_name`, built once from the configuration. */
    const inv: map<Channel, string>
    /** The callback the session is waiting on, if any. */
    var pending: Option<Await>
    /** The upstream requests and timer waits asked for, in order. */
    var log: seq<Activity>
    /** The responses written to the client, in order. */
    var responses: seq<Response>

    /** The session's fields as a state of the protocol. */
    function Snapshot(): State
      reads this
    {
      State(pending, log, responses)
    }

    ghost predicate Valid()
    {
      inv == Inverted(cfg.names)
    }

    constructor(cfg: Config, sem: Semantics)
      ensures this.cfg == cfg && this.sem == sem && Valid()
      ensures Snapshot() == Fresh
    {
      this.cfg := cfg;
      this.sem := sem;
      var inv := InvertMap(cfg.names);
      this.inv := inv;
      pending := None;
      log := [];
      responses := [];
    }

    /** `send_response(status, content_type, msg)`. */
    method SendResponse(r: Response)
      modifies this
      ensures Snapshot() == Send(old(Snapshot()), r)
    {
      responses := responses + [r];
      pending := None;
    }

    /** `internal_server_error(operation, ec)`. */
    method InternalServerError(operation: string, error: Option<string>)
      modifies this
      ensures Snapshot() == Send(old(Snapshot()), InternalError(operation, error))
    {
      SendResponse(Response(500, "text/html", ErrorBody(operation, error)));
    }

    /** `async_http_transaction(io_context, request, cb)`: the request goes out, the callback waits. */
    method AsyncHttpTransaction(call: Call, w: Await)
      modifies this
      ensures Snapshot() == Issue(old(Snapshot()), call, w)
    {
      log := log + [Request(call)];
      pending := Some(w);
    }

    /** `set_channels(channels, query)`: the query picks on, off or a power cycle. */
    method SetChannels(channels: set<Channel>, query: string)
      requires Snapshot() == Fresh
      modifies this
      ensures Snapshot() == Start(cfg, Router.SetChannels(channels, query))
    {
      if IEquals(query, "on") {
        AsyncHttpTransaction(SwitchCall(channels, On), SwitchDone(channels, On));
      } else if IEquals(query, "off") {
        AsyncHttpTransaction(SwitchCall(channels, Off), SwitchDone(channels, Off));
      } else if IEquals(query, "cycle") {
        AsyncHttpTransaction(SwitchCall(channels, Off), CycleOffDone(channels));
      } else {
        SendResponse(Response(400, "text/plain", "request error: illegal request"));
      }
    }

    /** The `turn_on` lambda of `set_scene`. */
    method TurnOn(scene: Scene)
      modifies this
      ensures Snapshot() == Protocol.TurnOn(old(Snapshot()), scene)
    {
      if scene.on == {} {
        SendResponse(Response(200, "text/plain", "Ok"));
      } else {
        AsyncHttpTransaction(SwitchCall(scene.on, On), SceneOnDone);
      }
    }

    /** `set_scene(name)`: 404 for an unknown scene; the off-set first unless it is empty. */
    method SetScene(name: string)
      requires Snapshot() == Fresh
      modifies this
      ensures Snapshot() == Start(cfg, Router.SetScene(name))
    {
      var found := Find(cfg.scenes, name);
      if found.None? {
        SendResponse(NotFoundResponse);
        return;
      }
      var scene := found.value;
      if scene.off == {} {
        TurnOn(scene);
        return;
      }
      AsyncHttpTransaction(SwitchCall(scene.off, Off), SceneOffDone(scene));
    }

    /** `process_request()`: routes the request read from the client. */
    method ProcessRequest(verb: Verb, target: string)
      requires Snapshot() == Fresh
      modifies this
      ensures Snapshot() == Begin(cfg, verb, target)
    {
      if verb != Get {
        return;
      }
      var n := IndexOf(target, '?');
      var query := if n.None? then "" else target[n.value + 1..];
      var path := if n.None? then target else target[..n.value];
      assert (path, query) == SplitTarget(target);
      if path == "" {
        SendResponse(Response(400, "text/plain", "request error: path is empty"));
        return;
      }
      if path[0] != '/' {
        SendResponse(Response(400, "text/plain", "request error: path is not absolute"));
        return;
      }
      assert RouteRequest(cfg.names, verb, target) == RouteName(cfg.names, path[1..], query);
      RouteStripped(path[1..], query);
    }

    /** The rest of `process_request`, once the leading '/' is stripped off the path. */
    method RouteStripped(path: string, query: string)
      requires Snapshot() == Fresh
      modifies this
      ensures Snapshot() == Start(cfg, RouteName(cfg.names, path, query))
    {
      if path == "" {
        AsyncHttpTransaction(StatusCall, StatusFor(Root));
      } else if IEquals(path, "show") {
        AsyncHttpTransaction(StatusCall, StatusFor(Show));
      } else if IEquals(path, "all") {
        var all := AllChannels(cfg.names);
        SetChannels(all, query);
      } else {
        var it := Find(cfg.names, path);
        if it.Some? {
          SetChannels({it.value}, query);
        } else {
          var root, rest := StripPathElement(path);
          if IEquals(root, "set") {
            SetScene(rest);
          } else {
            SendResponse(NotFoundResponse);
          }
        }
      }
    }

    /** The callback of `root_document` and `show`: parse the status, then render the page. */
    method StatusDone(page: Page, c: Completion)
      requires Valid()
      modifies this
      ensures Snapshot() == Complete(cfg, StatusFor(page), c, old(Snapshot()))
    {
      if c.Failed? {
        InternalServerError("http-transaction status", Some(c.message));
        return;
      }
      var parsed := ParseStatusResponse(cfg.names, inv, c.body);
      if parsed.Err? {
        InternalServerError("xml parsing failed: " + parsed.error, None);
        return;
      }
      if page == Root {
        SendResponse(Response(200, "text/html", RootBody(cfg.scenes, parsed.value)));
      } else {
        SendResponse(Response(200, "text/plain", ShowBody(parsed.value)));
      }
    }

    /** One call of the callback the session waits on as `w`. */
    method Callback(w: Await, c: Completion)
      requires Valid()
      modifies this
      ensures Snapshot() == Complete(cfg, w, c, old(Snapshot()))
    {
      if w.StatusFor? {
        StatusDone(w.page, c);
        return;
      }
      if c.Failed? {
        InternalServerError(Operation(w), Some(c.message));
        return;
      }
      match w {
        case SwitchDone(channels, op) =>
          var text := RenderSet(cfg.names, inv, channels);
          SendResponse(Response(200, "text/plain", text + ": " + OpName(op)));
        case CycleOffDone(channels) =>
          log := log + [Wait(CycleDelay)];
          pending := Some(CycleWait(channels));
        case CycleWait(channels) =>
          AsyncHttpTransaction(SwitchCall(channels, On), CycleOnDone(channels));
        case CycleOnDone(channels) =>
          var text := RenderSet(cfg.names, inv, channels);
          SendResponse(Response(200, "text/plain", text + ": power cycled"));
        case SceneOffDone(scene) =>
          TurnOn(scene);
        case SceneOnDone =>
          SendResponse(Response(200, "text/plain", "Ok"));
      }
    }

    /**
     * An upstream transaction completed: its callback is called once per completion, in order
     * (twice for a refused answer as written).
     */
    method OnUpstreamReply(reply: Reply)
      requires Valid()
      modifies this
      ensures Snapshot() == Step(cfg, sem, old(Snapshot()), UpstreamReply(reply))
    {
      if pending.None? || pending.value.CycleWait? {
        return;
      }
      var w := pending.value;
      var cs := Completions(sem, reply);
      ghost var start := Snapshot();
      var i := 0;
      while i < |cs|
        invariant i <= |cs|
        invariant CompleteAll(cfg, w, cs, start) == CompleteAll(cfg, w, cs[i..], Snapshot())
      {
        assert cs[i..][1..] == cs[i + 1..];
        Callback(w, cs[i]);
        i := i + 1;
      }
      assert cs[i..] == [];
    }

    /** The power-cycle timer fired, with an error or not. */
    method OnTimer(error: Option<string>)
      requires Valid()
      modifies this
      ensures Snapshot() == Step(cfg, sem, old(Snapshot()), TimerExpired(error))
    {
      if pending.None? || !pending.value.CycleWait? {
        return;
      }
      if error.Some? {
        InternalServerError("wait", error);
      } else {
        Callback(pending.value, Succeeded(Document(map[])));
      }
    }
  }
}
