/**
 * The two websocket sessions, admin and user, one inbound frame at a time.
 * After a frame is persisted the session writes a `new_message` echo to its
 * own socket and then relays the same frame to every other open socket,
 * whoever the addressee is. A failed commit rolls back and the loop goes
 * on; teardown cancels the keepalive task and unregisters the socket on
 * every exit path.
 */
module Sessions {
  import opened Wrappers
  import opened Messages
  import opened Frames
  import opened Connections

  /** What the outside world decides while one frame is handled: the
      clock, whether the commit succeeds, whether the echo write succeeds,
      and which sockets accept the relayed write. */
  datatype Env = Env(now: nat, commitOk: bool, echoOk: bool, sendOk: SocketId -> bool)

  /** The session loop's `continue` or `break`. */
  datatype Control = Continue | Break

  /** The effect of handling one frame: loop control, the table afterwards,
      the writes attempted in order, and the `user_sent`/`admin_sent` flag. */
  datatype Transition = Transition(control: Control, rows: seq<Message>, sends: seq<Delivery>, delivered: bool)

  /** Which endpoint a session belongs to. */
  datatype Variant = AdminSession | UserSession(userId: int)

  function Decide(v: Variant, inbound: Inbound): Decision {
    match v
    case AdminSession => AdminDecide(inbound)
    case UserSession(u) => UserDecide(u, inbound)
  }

  /** The endpoint's per-frame handler, as the value the shared receive loop
      is run with. */
  function Handler(v: Variant): Inbound -> Decision {
    inbound => Decide(v, inbound)
  }

  /** The greeting each endpoint sends once the socket is accepted. */
  function Welcome(v: Variant): (f: OutFrame)
    ensures !f.NewMessage?
    ensures f.Connected? <==> v.UserSession?
    ensures v.UserSession? ==> f.userId == v.userId
  {
    match v
    case AdminSession => ConnectionEstablished
    case UserSession(u) => Connected(u)
  }

  /** One frame handled by session socket `ws` while `conns` are open. The
      echo write is inside the same `try` as the commit, so when it fails
      the row stays committed (the rollback has nothing left to undo) and
      the relay is skipped. */
  function Step(conns: seq<SocketId>, rows: seq<Message>, ws: SocketId, d: Decision, env: Env): (t: Transition)
    ensures |t.rows| == if d.Persist? && env.commitOk then |rows| + 1 else |rows|
    ensures t.sends != [] ==> t.sends[0].to == ws
  {
    match d
    case EndSession => Transition(Break, rows, [], false)
    case Ignore => Transition(Continue, rows, [], false)
    case Persist(draft, notice) =>
      if !env.commitOk then Transition(Continue, rows, [], false)
      else
        var rows' := rows + [Saved(draft, NextId(rows), env.now)];
        var echo := Delivery(ws, notice, env.echoOk);
        if !env.echoOk then Transition(Continue, rows', [echo], false)
        else
          var relay := RelayPlan(conns, ws, notice, env.sendOk);
          Transition(Continue, rows', [echo] + relay, AnyDelivered(relay))
  }

  // ---------------------------------------------------------------------
  // Properties of one step
  // ---------------------------------------------------------------------

  /** A step appends exactly one row when the frame asks to persist and the
      commit succeeds, and otherwise leaves the table as it was; it never
      alters a row already stored, and ids stay increasing. */
  lemma StepAppendsAtMostOne(conns: seq<SocketId>, rows: seq<Message>, ws: SocketId, d: Decision, env: Env)
    requires IdsIncreasing(rows)
    ensures var t := Step(conns, rows, ws, d, env);
      && (d.Persist? && env.commitOk ==> t.rows == rows + [Saved(d.draft, NextId(rows), env.now)])
      && (!(d.Persist? && env.commitOk) ==> t.rows == rows)
      && IdsIncreasing(t.rows) && t.rows[..|rows|] == rows
  {
  }

  /** Only a frame that ends the session breaks the loop; a failed commit,
      an ignored frame and a failed write all continue it. */
  lemma StepControl(conns: seq<SocketId>, rows: seq<Message>, ws: SocketId, d: Decision, env: Env)
    ensures Step(conns, rows, ws, d, env).control == Break <==> d.EndSession?
    ensures d.EndSession? || d.Ignore? || !env.commitOk ==>
      Step(conns, rows, ws, d, env).rows == rows && Step(conns, rows, ws, d, env).sends == []
  {
  }

  /** No write without a stored row: every frame a step writes announces
      the row it has just appended (same text and sender, the admin flag
      the negation of `isOwner`). */
  lemma DurabilityPrecedesDelivery(conns: seq<SocketId>, rows: seq<Message>, ws: SocketId, d: Decision, env: Env)
    requires Announces(d)
    ensures var t := Step(conns, rows, ws, d, env);
      t.sends != [] ==>
        |t.rows| == |rows| + 1 &&
        forall k :: 0 <= k < |t.sends| ==>
          var m, f := t.rows[|rows|], t.sends[k].frame;
          f.NewMessage? && f.content == m.content && f.senderId == m.senderId &&
          f.isFromAdmin == !m.isOwner
  {
  }

  /** The echo goes to the session's own socket first; every later write
      goes to another open socket, one per other socket in list order, and
      never back to the sender. */
  lemma EchoThenRelay(conns: seq<SocketId>, rows: seq<Message>, ws: SocketId, d: Decision, env: Env)
    ensures var t := Step(conns, rows, ws, d, env);
      t.sends != [] ==>
        && t.sends[0] == Delivery(ws, d.notice, env.echoOk)
        && |t.sends| - 1 == (if env.echoOk then |Others(conns, ws)| else 0)
        && forall k :: 1 <= k < |t.sends| ==>
             t.sends[k].to == Others(conns, ws)[k - 1] && t.sends[k].to != ws &&
             t.sends[k].frame == d.notice && t.sends[k].ok == env.sendOk(t.sends[k].to)
  {
    var t := Step(conns, rows, ws, d, env);
    if t.sends != [] && env.echoOk {
      var others := Others(conns, ws);
      forall k | 1 <= k < |t.sends| ensures t.sends[k].to != ws {
        assert t.sends[k].to == others[k - 1];
        assert others[k - 1] in others;
      }
    }
  }

  /** `user_sent` / `admin_sent` is true exactly when the row was committed,
      the echo went out, and some other open socket accepted the relay. */
  lemma DeliveredIff(conns: seq<SocketId>, rows: seq<Message>, ws: SocketId, d: Decision, env: Env)
    ensures Step(conns, rows, ws, d, env).delivered <==>
      d.Persist? && env.commitOk && env.echoOk &&
      exists c :: c in conns && c != ws && env.sendOk(c)
  {
    if d.Persist? {
      RelayDeliveredIff(conns, ws, d.notice, env.sendOk);
    }
  }

  // ---------------------------------------------------------------------
  // Per-variant frame rules
  // ---------------------------------------------------------------------

  /** Admin frames: a pong or an unknown type changes nothing; an
      `admin_message` without a non-zero `user_id` or without content is
      skipped; otherwise one row from the admin (id 1) to the target, with
      `isOwner` false, is appended. A decoding error is skipped too. */
  lemma AdminFrameRules(conns: seq<SocketId>, rows: seq<Message>, ws: SocketId, f: Frame, env: Env)
    ensures var t := Step(conns, rows, ws, AdminDecide(Received(f)), env);
      && t.control == Continue
      && (f.kind != Present("admin_message") ==> t == Transition(Continue, rows, [], false))
      && (!IdGiven(f.userId) || !TextGiven(f.content) ==> t == Transition(Continue, rows, [], false))
      && (f.kind == Present("admin_message") && IdGiven(f.userId) && TextGiven(f.content) && env.commitOk ==>
            t.rows == rows + [Message(NextId(rows), f.content.value, AdminId, Some(f.userId.value), false, env.now)])
    ensures Step(conns, rows, ws, AdminDecide(Undecodable), env) == Transition(Continue, rows, [], false)
  {
  }

  /** User frames: `content` defaults to empty; a pong or an unknown type
      changes nothing; an empty `message` is skipped; otherwise one row from
      the user to the admin, with `isOwner` true, is appended. A decoding
      error or a `null` content ends the loop without storing anything. */
  lemma UserFrameRules(conns: seq<SocketId>, rows: seq<Message>, ws: SocketId, userId: int, f: Frame, env: Env)
    ensures var t := Step(conns, rows, ws, UserDecide(userId, Received(f)), env);
      && (f.content.Null? ==> t == Transition(Break, rows, [], false))
      && (!f.content.Null? && f.kind != Present("message") ==> t == Transition(Continue, rows, [], false))
      && (!f.content.Null? && !TextGiven(f.content) ==> t == Transition(Continue, rows, [], false))
      && (f.kind == Present("message") && TextGiven(f.content) && env.commitOk ==>
            t.rows == rows + [Message(NextId(rows), f.content.value, userId, Some(AdminId), true, env.now)])
    ensures Step(conns, rows, ws, UserDecide(userId, Undecodable), env) == Transition(Break, rows, [], false)
  {
  }

  /** A committed user message is in that user's history and in the
      admin's, flagged as not from the admin, whether or not anyone else was
      online to receive it. */
  lemma UserMessageInHistory(conns: seq<SocketId>, rows: seq<Message>, ws: SocketId, userId: int, f: Frame, env: Env)
    requires f.kind == Present("message") && TextGiven(f.content) && env.commitOk
    ensures var t := Step(conns, rows, ws, UserDecide(userId, Received(f)), env);
      var e := EntryOf(t.rows[|rows|]);
      && e in HistoryOf(t.rows, userId) && e in HistoryOf(t.rows, AdminId)
      && e.content == f.content.value && e.senderId == userId && !e.isFromAdmin
  {
    var t := Step(conns, rows, ws, UserDecide(userId, Received(f)), env);
    var m := t.rows[|rows|];
    assert m in t.rows;
    HistoryContents(t.rows, userId);
    HistoryContents(t.rows, AdminId);
  }

  /** A committed admin message is in the target user's history, flagged
      as from the admin, whether or not the target was online. */
  lemma AdminMessageInHistory(conns: seq<SocketId>, rows: seq<Message>, ws: SocketId, f: Frame, env: Env)
    requires f.kind == Present("admin_message") && IdGiven(f.userId) && TextGiven(f.content) && env.commitOk
    ensures var t := Step(conns, rows, ws, AdminDecide(Received(f)), env);
      var e := EntryOf(t.rows[|rows|]);
      && e in HistoryOf(t.rows, f.userId.value)
      && e.content == f.content.value && e.senderId == AdminId && e.isFromAdmin
  {
    var t := Step(conns, rows, ws, AdminDecide(Received(f)), env);
    assert t.rows[|rows|] in t.rows;
    HistoryContents(t.rows, f.userId.value);
  }

  /** The admin flag is derived from `isOwner`, not from the sender: a user
      session opened with participant id 1 stores rows whose sender is the
      admin id but that history reports as not from the admin. */
  lemma FlagFollowsEndpointNotSender(rows: seq<Message>, f: Frame, now: nat)
    requires f.kind == Present("message") && TextGiven(f.content)
    ensures var d := UserDecide(AdminId, Received(f));
      var e := EntryOf(Saved(d.draft, NextId(rows), now));
      e.senderId == AdminId && !e.isFromAdmin
  {
  }

  lemma DeliveriesSnoc(targets: seq<SocketId>, c: SocketId, frame: OutFrame, sendOk: SocketId -> bool)
    ensures Deliveries(targets + [c], frame, sendOk) ==
      Deliveries(targets, frame, sendOk) + [Delivery(c, frame, sendOk(c))]
  {
  }

  lemma AnyDeliveredSnoc(ds: seq<Delivery>, d: Delivery)
    ensures AnyDelivered(ds + [d]) <==> AnyDelivered(ds) || d.ok
  {
    if AnyDelivered(ds) {
      var k :| 0 <= k < |ds| && ds[k].ok;
      assert (ds + [d])[k].ok;
    }
    if d.ok {
      assert (ds + [d])[|ds|].ok;
    }
  }

  // ---------------------------------------------------------------------
  // The imperative step
  // ---------------------------------------------------------------------

  /** The loop over the open sockets after a successful echo: every socket
      other than the session's own gets the frame; a failed write is
      swallowed; `sent` records whether any write succeeded. */
  method RelayNewMessage(conns: seq<SocketId>, ws: SocketId, notice: OutFrame, sendOk: SocketId -> bool)
    returns (sends: seq<Delivery>, sent: bool)
    ensures sends == RelayPlan(conns, ws, notice, sendOk)
    ensures sent <==> AnyDelivered(sends)
    ensures sent <==> exists c :: c in conns && c != ws && sendOk(c)
  {
    sends, sent := [], false;
    var i := 0;
    while i < |conns|
      invariant 0 <= i <= |conns|
      invariant sends == RelayPlan(conns[..i], ws, notice, sendOk)
      invariant sent <==> AnyDelivered(sends)
    {
      var connection := conns[i];
      assert conns[..i + 1][..i] == conns[..i];
      assert conns[..i + 1] == conns[..i] + [connection];
      if connection != ws {
        DeliveriesSnoc(Others(conns[..i], ws), connection, notice, sendOk);
        var d := Delivery(connection, notice, sendOk(connection));
        AnyDeliveredSnoc(sends, d);
        sends := sends + [d];
        if sendOk(connection) {
          sent := true;
        }
      }
      i := i + 1;
    }
    assert conns[..|conns|] == conns;
    RelayDeliveredIff(conns, ws, notice, sendOk);
  }

  /** Handles one decided frame against the live connection list and the
      store: commit, echo, relay. */
  method HandleFrame(manager: ConnectionManager, store: MessageStore, ws: SocketId, d: Decision, env: Env)
    returns (control: Control, sends: seq<Delivery>, delivered: bool)
    modifies store
    ensures Step(manager.activeConnections, old(store.rows), ws, d, env) ==
      Transition(control, store.rows, sends, delivered)
  {
    control, sends, delivered := Continue, [], false;
    match d
    case EndSession =>
      control := Break;
    case Ignore =>
    case Persist(draft, notice) =>
      var saved := store.Commit(draft, env.now, env.commitOk);
      if saved.Some? {
        sends := [Delivery(ws, notice, env.echoOk)];
        if env.echoOk {
          var relayed, sent := RelayNewMessage(manager.activeConnections, ws, notice, env.sendOk);
          sends := sends + relayed;
          delivered := sent;
        }
      }
  }

  // ---------------------------------------------------------------------
  // The session loop
  // ---------------------------------------------------------------------

  /** One received frame together with what the world decides while it is handled. */
  datatype Event = Event(inbound: Inbound, env: Env)

  /** The table after the loop, every write it attempted, and how many
      frames it handled before it stopped. */
  datatype LoopResult = LoopResult(rows: seq<Message>, sends: seq<Delivery>, handled: nat)

  /** The receive loop over a finite run of frames, from frame `i` on, with
      `decide` the endpoint's per-frame handler (`Handler(v)`); it stops at
      the first frame that ends the session, and running out of frames
      stands for the peer disconnecting. */
  function RunLoop(conns: seq<SocketId>, rows: seq<Message>, ws: SocketId, decide: Inbound -> Decision, events: seq<Event>, i: nat): (r: LoopResult)
    requires i <= |events|
    decreases |events| - i
  {
    if i == |events| then LoopResult(rows, [], 0)
    else
      var t := Step(conns, rows, ws, decide(events[i].inbound), events[i].env);
      if t.control == Break then LoopResult(t.rows, t.sends, 1)
      else
        var rest := RunLoop(conns, t.rows, ws, decide, events, i + 1);
        LoopResult(rest.rows, t.sends + rest.sends, rest.handled + 1)
  }

  /** The loop only appends to the table, keeps ids increasing, stores at
      most one row per frame handled, and handles no more frames than arrived. */
  lemma {:induction false} RunLoopAppendOnly(conns: seq<SocketId>, rows: seq<Message>, ws: SocketId, decide: Inbound -> Decision, events: seq<Event>, i: nat)
    requires i <= |events|
    requires IdsIncreasing(rows)
    decreases |events| - i
    ensures var r := RunLoop(conns, rows, ws, decide, events, i);
      && |rows| <= |r.rows| <= |rows| + r.handled
      && r.rows[..|rows|] == rows
      && IdsIncreasing(r.rows)
      && r.handled <= |events| - i
  {
    if i < |events| {
      var d := decide(events[i].inbound);
      var t := Step(conns, rows, ws, d, events[i].env);
      StepAppendsAtMostOne(conns, rows, ws, d, events[i].env);
      if t.control != Break {
        RunLoopAppendOnly(conns, t.rows, ws, decide, events, i + 1);
        var rest := RunLoop(conns, t.rows, ws, decide, events, i + 1);
        assert rest.rows[..|rows|] == rest.rows[..|t.rows|][..|rows|];
      }
    }
  }

  /** The loop handles at most the frames that arrived, and at least one
      when any arrived: the frame that ends it is counted as handled. */
  lemma {:induction false} RunLoopHandled(conns: seq<SocketId>, rows: seq<Message>, ws: SocketId, decide: Inbound -> Decision, events: seq<Event>, i: nat)
    requires i <= |events|
    decreases |events| - i
    ensures var r := RunLoop(conns, rows, ws, decide, events, i);
      && r.handled <= |events| - i
      && (i < |events| ==> r.handled >= 1)
  {
    if i < |events| {
      var t := Step(conns, rows, ws, decide(events[i].inbound), events[i].env);
      if t.control != Break {
        RunLoopHandled(conns, t.rows, ws, decide, events, i + 1);
      }
    }
  }

  /** One iteration of the receive loop. */
  lemma RunLoopAdvance(conns: seq<SocketId>, rows: seq<Message>, rows': seq<Message>, ws: SocketId, decide: Inbound -> Decision,
                        events: seq<Event>, i: nat, whole: LoopResult, sends: seq<Delivery>, handled: nat,
                        control: Control, frameSends: seq<Delivery>, delivered: bool)
    requires i < |events|
    requires Step(conns, rows, ws, decide(events[i].inbound), events[i].env) == Transition(control, rows', frameSends, delivered)
    requires var rest := RunLoop(conns, rows, ws, decide, events, i);
      whole == LoopResult(rest.rows, sends + rest.sends, handled + rest.handled)
    ensures control == Break ==> whole == LoopResult(rows', sends + frameSends, handled + 1)
    ensures control != Break ==>
      var rest := RunLoop(conns, rows', ws, decide, events, i + 1);
      whole == LoopResult(rest.rows, (sends + frameSends) + rest.sends, (handled + 1) + rest.handled)
  {
    if control != Break {
      var rest := RunLoop(conns, rows', ws, decide, events, i + 1);
      assert sends + (frameSends + rest.sends) == (sends + frameSends) + rest.sends;
    }
  }

  /** `while True` around the frame handler, with the socket registered
      throughout; stops at the first frame that ends the session. */
  method ReceiveLoop(manager: ConnectionManager, store: MessageStore, ws: SocketId, decide: Inbound -> Decision, events: seq<Event>)
    returns (sends: seq<Delivery>, handled: nat)
    modifies store
    ensures var r := RunLoop(manager.activeConnections, old(store.rows), ws, decide, events, 0);
      store.rows == r.rows && sends == r.sends && handled == r.handled
  {
    ghost var conns := manager.activeConnections;
    ghost var whole := RunLoop(conns, store.rows, ws, decide, events, 0);
    sends, handled := [], 0;
    var i := 0;
    while i < |events|
      invariant 0 <= i <= |events|
      invariant var rest := RunLoop(conns, store.rows, ws, decide, events, i);
        whole == LoopResult(rest.rows, sends + rest.sends, handled + rest.handled)
    {
      ghost var rowsBefore := store.rows;
      var control, frameSends, delivered := HandleFrame(manager, store, ws, decide(events[i].inbound), events[i].env);
      RunLoopAdvance(conns, rowsBefore, store.rows, ws, decide, events, i, whole, sends, handled, control, frameSends, delivered);
      sends := sends + frameSends;
      handled := handled + 1;
      if control == Break {
        return;
      }
      i := i + 1;
    }
  }

  /** The lifecycle of the keepalive task. */
  datatype PingTask = NotStarted | Running | Cancelled

  datatype SessionOutcome = SessionOutcome(welcome: Delivery, sends: seq<Delivery>, handled: nat, pingTask: PingTask)

  /** A whole websocket session: register the socket, greet, start the
      keepalive task, run the receive loop, and in `finally` cancel the task
      (if it was started) and unregister the socket. A failed greeting skips
      straight to `finally`. */
  method RunSession(manager: ConnectionManager, store: MessageStore, ws: SocketId, v: Variant,
                    welcomeOk: bool, events: seq<Event>)
    returns (out: SessionOutcome)
    modifies manager, store
    ensures manager.activeConnections == RemoveFirst(old(manager.activeConnections) + [ws], ws)
    ensures ws !in old(manager.activeConnections) ==> manager.activeConnections == old(manager.activeConnections)
    ensures out.welcome == Delivery(ws, Welcome(v), welcomeOk)
    ensures out.pingTask == if welcomeOk then Cancelled else NotStarted
    ensures welcomeOk ==>
      var r := RunLoop(old(manager.activeConnections) + [ws], old(store.rows), ws, Handler(v), events, 0);
      store.rows == r.rows && out.sends == r.sends && out.handled == r.handled
    ensures !welcomeOk ==> store.rows == old(store.rows) && out.sends == [] && out.handled == 0
    ensures IdsIncreasing(old(store.rows)) ==>
      IdsIncreasing(store.rows) && old(store.rows) <= store.rows && out.handled <= |events|
  {
    manager.Connect(ws);
    var pingTask := NotStarted;
    var sends: seq<Delivery> := [];
    var handled := 0;
    if welcomeOk {
      pingTask := Running;
      sends, handled := ReceiveLoop(manager, store, ws, Handler(v), events);
    }
    if pingTask != NotStarted {
      pingTask := Cancelled;
    }
    manager.Disconnect(ws);
    if IdsIncreasing(old(store.rows)) {
      RunLoopAppendOnly(old(manager.activeConnections) + [ws], old(store.rows), ws, Handler(v), events, 0);
    }
    if ws !in old(manager.activeConnections) {
      RemoveFirstOfAppended(old(manager.activeConnections), ws);
    }
    out := SessionOutcome(Delivery(ws, Welcome(v), welcomeOk), sends, handled, pingTask);
  }
}
