/**
 * The single chat room of server.js as a sequential state machine.
 *
 * The server keeps one array `messages` for the life of the process. A new
 * connection is sent that array once (`loadMessages`); a `chat message`
 * payload is appended unvalidated and re-emitted to every connected socket,
 * the sender included; a `join` only logs. Node runs one handler at a time,
 * so each handler is one atomic step here. The payload type `M` is a
 * parameter: the server never looks inside a payload. The `join` handler
 * does look at its payload: it concatenates it with a string, and when the
 * conversion throws, nothing catches the exception and the process exits.
 */
module ChatRoom {
  import opened JsString
  import opened JsValue

  /** A socket.io connection id, a JavaScript string. */
  type ConnId = JsStr

  /** What the server pushes to one socket. */
  datatype Event<M> =
    | LoadMessages(msgs: seq<M>)   // the history snapshot, sent once on connection
    | ChatMessage(msg: M)          // one broadcast payload

  /**
   * The whole server state: the history log, the sockets socket.io holds
   * open, what has been pushed to each socket so far, and whether the
   * process has exited on an uncaught exception.
   */
  datatype Room<M> = Room(history: seq<M>, connected: set<ConnId>, outbox: map<ConnId, seq<Event<M>>>,
                          halted: bool)

  /** One handler run: the three socket.io events the code listens to, and a socket dropped by the library. */
  datatype Handler<M> =
    | Connect(c: ConnId)
    | Join(c: ConnId, name: Json)
    | Chat(c: ConnId, msg: M)
    | Disconnect(c: ConnId)

  /** The state at process start: `let messages = []` and no sockets. */
  function Empty<M>(): Room<M> {
    Room([], {}, map[], false)
  }

  /** `io.on("connection")`: the new socket is sent the current history and only that. */
  function OnConnect<M>(s: Room<M>, c: ConnId): (r: Room<M>)
    ensures r.history == s.history && r.connected == s.connected + {c}
    ensures r.outbox.Keys == s.outbox.Keys + {c} && r.outbox[c] == [LoadMessages(s.history)]
    ensures forall d :: d in s.outbox && d != c ==> r.outbox[d] == s.outbox[d]
  {
    s.(connected := s.connected + {c}, outbox := s.outbox[c := [LoadMessages(s.history)]])
  }

  /**
   * `socket.on("join")`: `username + " joined"` is logged. The log line is
   * left out; when the name cannot be converted to a string the concatenation
   * throws, the process exits and every socket closes with it.
   */
  function OnJoin<M>(s: Room<M>, c: ConnId, name: Json): (r: Room<M>)
    ensures ConvertsToString(name) ==> r == s
    ensures !ConvertsToString(name) ==>
              r.halted && r.connected == {} && r.history == s.history && r.outbox == s.outbox
  {
    if ConvertsToString(name) then s else s.(connected := {}, halted := true)
  }

  /** `socket.on("chat message")`: `messages.push(msg)` then `io.emit` to every connected socket. */
  function OnChatMessage<M>(s: Room<M>, c: ConnId, m: M): (r: Room<M>)
    ensures r.history == s.history + [m] && r.connected == s.connected && r.outbox.Keys == s.outbox.Keys
    ensures r.halted == s.halted
    ensures forall d :: d in s.outbox ==>
              r.outbox[d] == s.outbox[d] + (if d in s.connected then [ChatMessage(m)] else [])
  {
    s.(history := s.history + [m],
       outbox := map d | d in s.outbox :: if d in s.connected then s.outbox[d] + [ChatMessage(m)] else s.outbox[d])
  }

  /** socket.io drops the socket: it leaves the connected set, and nothing else changes. */
  function OnDisconnect<M>(s: Room<M>, c: ConnId): (r: Room<M>)
    ensures r.history == s.history && r.outbox == s.outbox
    ensures c !in r.connected && r.connected <= s.connected && r.halted == s.halted
    ensures forall d :: d in s.connected && d != c ==> d in r.connected
  {
    s.(connected := s.connected - {c})
  }

  /**
   * One handler, while the process lives; once it has exited nothing runs.
   * Only `chat message` touches the history, no outbox ever goes away, and
   * the process exits exactly on a `join` whose name does not convert.
   */
  function Step<M>(s: Room<M>, h: Handler<M>): (r: Room<M>)
    ensures r.history == s.history + (if !s.halted && h.Chat? then [h.msg] else [])
    ensures s.outbox.Keys <= r.outbox.Keys
    ensures r.halted <==> s.halted || (h.Join? && !ConvertsToString(h.name))
  {
    if s.halted then s
    else match h
    case Connect(c) => OnConnect(s, c)
    case Join(c, name) => OnJoin(s, c, name)
    case Chat(c, m) => OnChatMessage(s, c, m)
    case Disconnect(c) => OnDisconnect(s, c)
  }

  /**
   * The handlers run one after another, in order. The history is append-only:
   * what it held before the run is a prefix of what it holds after.
   */
  function Run<M>(s: Room<M>, hs: seq<Handler<M>>): (r: Room<M>)
    ensures s.history <= r.history && s.outbox.Keys <= r.outbox.Keys
    decreases |hs|
  {
    if hs == [] then s else Run(Step(s, hs[0]), hs[1..])
  }

  /**
   * The payloads of the `chat message` events of a run, in order, up to the
   * first `join` whose name does not convert: the reference for the history.
   */
  function Sent<M>(hs: seq<Handler<M>>): seq<M>
    decreases |hs|
  {
    if hs == [] then []
    else match hs[0]
      case Chat(_, m) => [m] + Sent(hs[1..])
      case Join(_, name) => if ConvertsToString(name) then Sent(hs[1..]) else []
      case _ => Sent(hs[1..])
  }

  /** Each payload as a broadcast event, in order. */
  function Broadcasts<M>(ms: seq<M>): (r: seq<Event<M>>)
    ensures |r| == |ms| && forall i :: 0 <= i < |ms| ==> r[i] == ChatMessage(ms[i])
  {
    seq(|ms|, i requires 0 <= i < |ms| => ChatMessage(ms[i]))
  }

  /**
   * What a socket holds when it connected while the history had `k`
   * entries and stayed connected until it had `j`: the snapshot of the
   * first `k`, then entries `k` to `j` one broadcast each.
   */
  function Delivered<M>(h: seq<M>, k: nat, j: nat): seq<Event<M>>
    requires k <= j <= |h|
  {
    [LoadMessages(h[..k])] + Broadcasts(h[k..j])
  }

  /** The outbox of `c` is a replay snapshot followed by exactly the messages appended while `c` was connected. */
  ghost predicate ReplayThenLive<M>(s: Room<M>, c: ConnId)
    requires c in s.outbox
  {
    exists k: nat, j: nat :: k <= j <= |s.history| && s.outbox[c] == Delivered(s.history, k, j)
                            && (c in s.connected ==> j == |s.history|)
  }

  /** The invariant every reachable state keeps. */
  ghost predicate WellFormed<M>(s: Room<M>) {
    && s.connected <= s.outbox.Keys
    && (s.halted ==> s.connected == {})
    && forall c :: c in s.outbox ==> ReplayThenLive(s, c)
  }

  /**
   * The longest prefix of `ms` whose every payload renders: the page's
   * `loadMessages` handler renders the payloads one by one and stops at the
   * first one whose rendering throws.
   */
  function RenderedPrefix<M>(renders: M -> bool, ms: seq<M>): (r: seq<M>)
    ensures r <= ms
    ensures forall i :: 0 <= i < |r| ==> renders(r[i])
    ensures |r| < |ms| ==> !renders(ms[|r|])
    decreases |ms|
  {
    if ms == [] || !renders(ms[0]) then []
    else [ms[0]] + RenderedPrefix(renders, ms[1..])
  }

  /** The payloads of `ms` that render, in order: each live `chat message` is rendered on its own. */
  function Rendered<M>(renders: M -> bool, ms: seq<M>): (r: seq<M>)
    ensures |r| <= |ms|
    ensures forall i :: 0 <= i < |r| ==> renders(r[i])
    decreases |ms|
  {
    if ms == [] then []
    else
      var last := ms[|ms| - 1];
      Rendered(renders, ms[..|ms| - 1]) + (if renders(last) then [last] else [])
  }

  /** When every payload renders, none is dropped. */
  lemma {:induction false} RenderedAllRender<M>(renders: M -> bool, ms: seq<M>)
    requires forall i :: 0 <= i < |ms| ==> renders(ms[i])
    ensures Rendered(renders, ms) == ms
    decreases |ms|
  {
    if ms != [] {
      RenderedAllRender(renders, ms[..|ms| - 1]);
    }
  }

  /** Filtering distributes over concatenation: each payload is kept or dropped on its own. */
  lemma {:induction false} RenderedConcat<M>(renders: M -> bool, a: seq<M>, b: seq<M>)
    ensures Rendered(renders, a + b) == Rendered(renders, a) + Rendered(renders, b)
    decreases |b|
  {
    if b != [] {
      var b' := b[..|b| - 1];
      assert (a + b)[..|a + b| - 1] == a + b';
      assert (a + b)[|a + b| - 1] == b[|b| - 1];
      RenderedConcat(renders, a, b');
    } else {
      assert a + b == a;
    }
  }

  /** A single payload is kept exactly when it renders. */
  lemma {:induction false} RenderedSingleton<M>(renders: M -> bool, x: M)
    ensures Rendered(renders, [x]) == if renders(x) then [x] else []
  {
    assert [x][..0] == [];
  }

  /**
   * What a client lists from the events it received. `loadMessages` clears
   * the list and renders the snapshot until a payload fails to render;
   * `chat message` adds its payload at the end when it renders. Whether a
   * payload renders is the parameter `renders`.
   */
  function Displayed<M>(renders: M -> bool, es: seq<Event<M>>): (r: seq<M>)
    ensures forall i :: 0 <= i < |r| ==> renders(r[i])
    decreases |es|
  {
    if es == [] then []
    else match es[|es| - 1]
      case LoadMessages(ms) => RenderedPrefix(renders, ms)
      case ChatMessage(m) => Displayed(renders, es[..|es| - 1]) + (if renders(m) then [m] else [])
  }

  /** Appending to the history leaves earlier deliveries as they were and extends a live one by one broadcast. */
  lemma {:induction false} DeliveredAfterAppend<M>(h: seq<M>, m: M, k: nat, j: nat)
    requires k <= j <= |h|
    ensures Delivered(h + [m], k, j) == Delivered(h, k, j)
    ensures j == |h| ==> Delivered(h + [m], k, j + 1) == Delivered(h, k, j) + [ChatMessage(m)]
  {
    assert (h + [m])[..k] == h[..k];
    assert (h + [m])[k..j] == h[k..j];
    if j == |h| {
      assert (h + [m])[k..j + 1] == h[k..j] + [m];
    }
  }

  /** The empty room is well formed. */
  lemma EmptyWellFormed<M>()
    ensures WellFormed(Empty<M>())
  {
  }

  /** A new connection to a live process keeps the invariant: its outbox is an empty-tail delivery of the whole history. */
  lemma {:induction false} ConnectPreservesWellFormed<M>(s: Room<M>, c: ConnId)
    requires WellFormed(s) && !s.halted
    ensures WellFormed(OnConnect(s, c))
  {
    var r := OnConnect(s, c);
    forall d | d in r.outbox ensures ReplayThenLive(r, d) {
      if d == c {
        assert s.history[..|s.history|] == s.history;
        assert r.outbox[d] == Delivered(r.history, |r.history|, |r.history|);
      } else {
        var k: nat, j: nat :| k <= j <= |s.history| && s.outbox[d] == Delivered(s.history, k, j)
                              && (d in s.connected ==> j == |s.history|);
        assert r.outbox[d] == Delivered(r.history, k, j);
      }
    }
  }

  /** A join keeps the invariant, whether it only logs or ends the process. */
  lemma {:induction false} JoinPreservesWellFormed<M>(s: Room<M>, c: ConnId, name: Json)
    requires WellFormed(s)
    ensures WellFormed(OnJoin(s, c, name))
  {
    var r := OnJoin(s, c, name);
    forall d | d in r.outbox ensures ReplayThenLive(r, d) {
      var k: nat, j: nat :| k <= j <= |s.history| && s.outbox[d] == Delivered(s.history, k, j)
                            && (d in s.connected ==> j == |s.history|);
      assert r.outbox[d] == Delivered(r.history, k, j);
    }
  }

  /** A chat message keeps the invariant: each connected outbox grows by exactly the new entry. */
  lemma {:induction false} ChatPreservesWellFormed<M>(s: Room<M>, c: ConnId, m: M)
    requires WellFormed(s)
    ensures WellFormed(OnChatMessage(s, c, m))
  {
    var r := OnChatMessage(s, c, m);
    forall d | d in r.outbox ensures ReplayThenLive(r, d) {
      var k: nat, j: nat :| k <= j <= |s.history| && s.outbox[d] == Delivered(s.history, k, j)
                            && (d in s.connected ==> j == |s.history|);
      DeliveredAfterAppend(s.history, m, k, j);
      if d in s.connected {
        assert r.outbox[d] == Delivered(r.history, k, j + 1);
      } else {
        assert r.outbox[d] == Delivered(r.history, k, j);
      }
    }
  }

  /** A disconnect keeps the invariant: the dropped socket's outbox stays as it was. */
  lemma {:induction false} DisconnectPreservesWellFormed<M>(s: Room<M>, c: ConnId)
    requires WellFormed(s)
    ensures WellFormed(OnDisconnect(s, c))
  {
    var r := OnDisconnect(s, c);
    forall d | d in r.outbox ensures ReplayThenLive(r, d) {
      var k: nat, j: nat :| k <= j <= |s.history| && s.outbox[d] == Delivered(s.history, k, j)
                            && (d in s.connected ==> j == |s.history|);
      assert r.outbox[d] == Delivered(r.history, k, j);
    }
  }

  /** Every handler keeps the invariant. */
  lemma {:induction false} StepPreservesWellFormed<M>(s: Room<M>, h: Handler<M>)
    requires WellFormed(s)
    ensures WellFormed(Step(s, h))
  {
    if !s.halted {
      match h
      case Connect(c) => ConnectPreservesWellFormed(s, c);
      case Join(c, name) => JoinPreservesWellFormed(s, c, name);
      case Chat(c, m) => ChatPreservesWellFormed(s, c, m);
      case Disconnect(c) => DisconnectPreservesWellFormed(s, c);
    }
  }

  /** Every run keeps the invariant. */
  lemma {:induction false} RunPreservesWellFormed<M>(s: Room<M>, hs: seq<Handler<M>>)
    requires WellFormed(s)
    ensures WellFormed(Run(s, hs))
    decreases |hs|
  {
    if hs != [] {
      StepPreservesWellFormed(s, hs[0]);
      RunPreservesWellFormed(Step(s, hs[0]), hs[1..]);
    }
  }

  /** Once the process has exited, no later handler changes anything. */
  lemma {:induction false} HaltedRunsNothing<M>(s: Room<M>, hs: seq<Handler<M>>)
    requires s.halted
    ensures Run(s, hs) == s
    decreases |hs|
  {
    if hs != [] {
      assert Step(s, hs[0]) == s;
      HaltedRunsNothing(s, hs[1..]);
    }
  }

  /** One handler of a live process adds to the history what `Sent` counts for it. */
  lemma {:induction false} HistoryStep<M>(s: Room<M>, hs: seq<Handler<M>>)
    requires !s.halted && hs != []
    ensures var r := Step(s, hs[0]);
            r.history + (if r.halted then [] else Sent(hs[1..])) == s.history + Sent(hs)
  {
    var rest := hs[1..];
    var r := Step(s, hs[0]);
    match hs[0]
    case Chat(_, m) =>
      assert r.history == s.history + [m] && !r.halted;
      assert Sent(hs) == [m] + Sent(rest);
    case Join(_, name) =>
      if ConvertsToString(name) {
        assert r.history == s.history && !r.halted;
        assert Sent(hs) == Sent(rest);
      } else {
        assert r.history == s.history && r.halted;
        assert Sent(hs) == [];
      }
    case Connect(_) =>
      assert r.history == s.history && !r.halted;
      assert Sent(hs) == Sent(rest);
    case Disconnect(_) =>
      assert r.history == s.history && !r.halted;
      assert Sent(hs) == Sent(rest);
  }

  /**
   * Total order: the history after a run is the history before it followed
   * by exactly the `chat message` payloads of the run, in the order they
   * were handled, up to a `join` that ends the process; nothing is lost,
   * duplicated or reordered.
   */
  lemma {:induction false} HistoryIsSentMessages<M>(s: Room<M>, hs: seq<Handler<M>>)
    ensures Run(s, hs).history == s.history + (if s.halted then [] else Sent(hs))
    decreases |hs|
  {
    if s.halted {
      HaltedRunsNothing(s, hs);
    } else if hs != [] {
      var r := Step(s, hs[0]);
      assert Run(s, hs) == Run(r, hs[1..]);
      HistoryIsSentMessages(r, hs[1..]);
      HistoryStep(s, hs);
    }
  }

  /** A delivery up to `j` is the delivery up to `j - 1` and one more broadcast, of entry `j - 1`. */
  lemma {:induction false} DeliveredExtend<M>(h: seq<M>, k: nat, j: nat)
    requires k < j <= |h|
    ensures h[k..j] == h[k..j - 1] + [h[j - 1]]
    ensures Delivered(h, k, j) == Delivered(h, k, j - 1) + [ChatMessage(h[j - 1])]
  {
    assert h[k..j] == h[k..j - 1] + [h[j - 1]];
  }

  /** A live `chat message` adds its payload to what the client lists exactly when it renders. */
  lemma {:induction false} DisplayedChat<M>(renders: M -> bool, es: seq<Event<M>>, m: M)
    ensures Displayed(renders, es + [ChatMessage(m)]) == Displayed(renders, es) + (if renders(m) then [m] else [])
  {
    assert (es + [ChatMessage(m)])[..|es|] == es;
  }

  /** One more live broadcast extends what the client shows by that payload exactly when it renders. */
  lemma {:induction false} DisplayedDeliveredStep<M>(renders: M -> bool, h: seq<M>, k: nat, j: nat)
    requires k < j <= |h|
    requires Displayed(renders, Delivered(h, k, j - 1)) == RenderedPrefix(renders, h[..k]) + Rendered(renders, h[k..j - 1])
    ensures Displayed(renders, Delivered(h, k, j)) == RenderedPrefix(renders, h[..k]) + Rendered(renders, h[k..j])
  {
    var x := h[j - 1];
    var p := RenderedPrefix(renders, h[..k]);
    var q := Rendered(renders, h[k..j - 1]);
    var tail := if renders(x) then [x] else [];
    DeliveredExtend(h, k, j);
    assert Displayed(renders, Delivered(h, k, j)) == (p + q) + tail by {
      DisplayedChat(renders, Delivered(h, k, j - 1), x);
    }
    assert Rendered(renders, h[k..j]) == q + tail by {
      RenderedConcat(renders, h[k..j - 1], [x]);
      RenderedSingleton(renders, x);
    }
    assert (p + q) + tail == p + (q + tail);
  }

  /**
   * A client shows the part of the snapshot before its first payload that
   * does not render, then every live message after the snapshot that renders.
   */
  lemma {:induction false} DisplayedDelivered<M>(renders: M -> bool, h: seq<M>, k: nat, j: nat)
    requires k <= j <= |h|
    ensures Displayed(renders, Delivered(h, k, j)) == RenderedPrefix(renders, h[..k]) + Rendered(renders, h[k..j])
    decreases j - k
  {
    if j == k {
      assert Delivered(h, k, j) == [LoadMessages(h[..k])];
    } else {
      DisplayedDelivered(renders, h, k, j - 1);
      DisplayedDeliveredStep(renders, h, k, j);
    }
  }

  /**
   * Replay and fan-out together: in every state a run reaches from process
   * start, each connected socket received the history snapshot taken when
   * it connected and then, once each and in history order, every message
   * appended since; so an appended message reaches it by replay or by
   * broadcast, never both and never neither.
   */
  lemma {:induction false} ConnectedOutboxIsReplayThenLive<M>(hs: seq<Handler<M>>, c: ConnId)
    requires c in Run(Empty<M>(), hs).connected
    ensures var s := Run(Empty<M>(), hs);
            && c in s.outbox
            && exists k: nat :: k <= |s.history| && s.outbox[c] == Delivered(s.history, k, |s.history|)
  {
    EmptyWellFormed<M>();
    RunPreservesWellFormed(Empty<M>(), hs);
  }

  /** When every history entry renders, a client shows exactly the entries it was delivered. */
  lemma {:induction false} DisplayedDeliveredAllRender<M>(renders: M -> bool, h: seq<M>, k: nat, j: nat)
    requires k <= j <= |h|
    requires forall i :: 0 <= i < |h| ==> renders(h[i])
    ensures Displayed(renders, Delivered(h, k, j)) == h[..j]
  {
    DisplayedDelivered(renders, h, k, j);
    var p := RenderedPrefix(renders, h[..k]);
    assert p == h[..k];
    var q := h[k..j];
    assert forall i :: 0 <= i < |q| ==> renders(q[i]) by {
      forall i | 0 <= i < |q| ensures renders(q[i]) {
        assert q[i] == h[k + i];
      }
    }
    RenderedAllRender(renders, q);
    assert h[..k] + q == h[..j];
  }

  /** In a well-formed state whose history renders, each client lists the history or, once gone, a prefix of it. */
  lemma {:induction false} WellFormedClientView<M>(renders: M -> bool, s: Room<M>, c: ConnId)
    requires WellFormed(s) && c in s.outbox
    requires forall i :: 0 <= i < |s.history| ==> renders(s.history[i])
    ensures Displayed(renders, s.outbox[c]) <= s.history
    ensures c in s.connected ==> Displayed(renders, s.outbox[c]) == s.history
  {
    var k: nat, j: nat :| k <= j <= |s.history| && s.outbox[c] == Delivered(s.history, k, j)
                          && (c in s.connected ==> j == |s.history|);
    DisplayedDeliveredAllRender(renders, s.history, k, j);
    assert s.history[..|s.history|] == s.history;
  }

  /**
   * What a socket's client shows when every payload sent in the run renders:
   * the whole history while it is connected, and a prefix of it once it has
   * gone.
   */
  lemma {:induction false} ClientsShowHistory<M>(renders: M -> bool, hs: seq<Handler<M>>, c: ConnId)
    requires forall i :: 0 <= i < |Sent(hs)| ==> renders(Sent(hs)[i])
    requires c in Run(Empty<M>(), hs).outbox
    ensures var s := Run(Empty<M>(), hs);
            && Displayed(renders, s.outbox[c]) <= s.history
            && (c in s.connected ==> Displayed(renders, s.outbox[c]) == s.history)
  {
    var s := Run(Empty<M>(), hs);
    EmptyWellFormed<M>();
    RunPreservesWellFormed(Empty<M>(), hs);
    HistoryIsSentMessages(Empty<M>(), hs);
    assert s.history == Sent(hs);
    WellFormedClientView(renders, s, c);
  }
}
