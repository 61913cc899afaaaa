/**
 * The process-wide list of open websockets. It is a plain list, not keyed
 * by participant: connecting appends, disconnecting removes the first
 * occurrence if there is one, and a broadcast tries every socket in list
 * order.
 */
module Connections {
  import opened Frames

  /** An open websocket, identified opaquely. */
  type SocketId = int

  /** One attempted write of `frame` to socket `to`; `ok` says whether it
      succeeded. */
  datatype Delivery = Delivery(to: SocketId, frame: OutFrame, ok: bool)

  /** `list.remove`: drops the first occurrence of `x`, if any. */
  function RemoveFirst(s: seq<SocketId>, x: SocketId): (r: seq<SocketId>)
    ensures x !in s ==> r == s
    ensures x in s ==> |r| == |s| - 1
  {
    if s == [] then []
    else if s[0] == x then s[1..]
    else [s[0]] + RemoveFirst(s[1..], x)
  }

  /** The position of the first occurrence of `x`. */
  function IndexOf(s: seq<SocketId>, x: SocketId): (k: nat)
    requires x in s
    ensures k < |s| && s[k] == x && x !in s[..k]
  {
    if s[0] == x then 0 else IndexOf(s[1..], x) + 1
  }

  /** Removal keeps the order of the remaining sockets: everything before
      the first occurrence, then everything after it. */
  lemma {:induction false} RemoveFirstKeepsOrder(s: seq<SocketId>, x: SocketId)
    requires x in s
    ensures RemoveFirst(s, x) == s[..IndexOf(s, x)] + s[IndexOf(s, x) + 1..]
  {
    if s[0] != x {
      var k := IndexOf(s, x);
      var tail := s[1..];
      assert IndexOf(tail, x) == k - 1;
      RemoveFirstKeepsOrder(tail, x);
      assert tail[..k - 1] == s[1..k];
      assert tail[k..] == s[k + 1..];
      assert [s[0]] + s[1..k] == s[..k];
    }
  }

  /** Removal drops exactly one copy of `x` and keeps every other socket. */
  lemma {:induction false} RemoveFirstMultiset(s: seq<SocketId>, x: SocketId)
    requires x in s
    ensures multiset(RemoveFirst(s, x)) == multiset(s) - multiset{x}
  {
    var k := IndexOf(s, x);
    var before, after := s[..k], s[k + 1..];
    RemoveFirstKeepsOrder(s, x);
    assert s == before + [x] + after;
    assert multiset(s) == multiset(before) + multiset{x} + multiset(after);
    assert multiset(RemoveFirst(s, x)) == multiset(before) + multiset(after);
  }

  /** A socket appended to a list that did not hold it is removed again
      without disturbing the rest. */
  lemma {:induction false} RemoveFirstOfAppended(s: seq<SocketId>, x: SocketId)
    requires x !in s
    ensures RemoveFirst(s + [x], x) == s
  {
    if s != [] {
      assert (s + [x])[1..] == s[1..] + [x];
      RemoveFirstOfAppended(s[1..], x);
    }
  }

  /** For a socket held at most once, removing it twice is the same as
      removing it once. */
  lemma {:induction false} RemoveFirstIdempotent(s: seq<SocketId>, x: SocketId)
    requires multiset(s)[x] <= 1
    ensures RemoveFirst(RemoveFirst(s, x), x) == RemoveFirst(s, x)
  {
    if x in s {
      RemoveFirstMultiset(s, x);
      assert x !in RemoveFirst(s, x) by {
        assert multiset(RemoveFirst(s, x))[x] == 0;
      }
    }
  }

  /** One attempt per target, in order, each with the sender's outcome. */
  function Deliveries(targets: seq<SocketId>, frame: OutFrame, sendOk: SocketId -> bool): seq<Delivery> {
    seq(|targets|, i requires 0 <= i < |targets| => Delivery(targets[i], frame, sendOk(targets[i])))
  }

  /** The list with every occurrence of `origin` dropped, order kept. */
  function Others(conns: seq<SocketId>, origin: SocketId): (r: seq<SocketId>)
    ensures forall c :: c in r <==> c in conns && c != origin
  {
    if conns == [] then []
    else
      var init, last := conns[..|conns| - 1], conns[|conns| - 1];
      assert conns == init + [last];
      Others(init, origin) + if last != origin then [last] else []
  }

  /** Every socket other than `origin` occurs in `Others` exactly as often
      as in the list. */
  lemma {:induction false} OthersMultiplicity(conns: seq<SocketId>, origin: SocketId, c: SocketId)
    ensures multiset(Others(conns, origin))[c] == if c == origin then 0 else multiset(conns)[c]
  {
    if conns != [] {
      var init, last := conns[..|conns| - 1], conns[|conns| - 1];
      assert conns == init + [last];
      OthersMultiplicity(init, origin, c);
    }
  }

  /** The writes of a relay from `origin`: one per other socket, in list order. */
  function RelayPlan(conns: seq<SocketId>, origin: SocketId, frame: OutFrame, sendOk: SocketId -> bool): seq<Delivery> {
    Deliveries(Others(conns, origin), frame, sendOk)
  }

  predicate AnyDelivered(ds: seq<Delivery>) {
    exists k :: 0 <= k < |ds| && ds[k].ok
  }

  /** A relay reaches someone exactly when some other socket accepts the write. */
  lemma RelayDeliveredIff(conns: seq<SocketId>, origin: SocketId, frame: OutFrame, sendOk: SocketId -> bool)
    ensures AnyDelivered(RelayPlan(conns, origin, frame, sendOk)) <==>
      exists c :: c in conns && c != origin && sendOk(c)
  {
    var others := Others(conns, origin);
    var plan := RelayPlan(conns, origin, frame, sendOk);
    if AnyDelivered(plan) {
      var k :| 0 <= k < |plan| && plan[k].ok;
      assert others[k] in others;
    }
    if c :| c in conns && c != origin && sendOk(c) {
      assert c in others;
      var k :| 0 <= k < |others| && others[k] == c;
      assert plan[k].ok;
    }
  }

  /** The relay never writes back to its origin and writes the same frame
      to every other socket. */
  lemma RelayPlanTargets(conns: seq<SocketId>, origin: SocketId, frame: OutFrame, sendOk: SocketId -> bool)
    ensures var plan := RelayPlan(conns, origin, frame, sendOk);
      forall k :: 0 <= k < |plan| ==>
        plan[k].to in conns && plan[k].to != origin && plan[k].frame == frame &&
        plan[k].ok == sendOk(plan[k].to)
  {
  }

  class ConnectionManager {
    var activeConnections: seq<SocketId>

    constructor ()
      ensures activeConnections == []
    {
      activeConnections := [];
    }

    /** Registers an accepted socket at the end of the list. */
    method Connect(websocket: SocketId)
      modifies this
      ensures activeConnections == old(activeConnections) + [websocket]
      ensures activeConnections[..|old(activeConnections)|] == old(activeConnections)
    {
      activeConnections := activeConnections + [websocket];
    }

    /** Unregisters a socket if it is present; otherwise does nothing. */
    method Disconnect(websocket: SocketId)
      modifies this
      ensures activeConnections == RemoveFirst(old(activeConnections), websocket)
      ensures websocket !in old(activeConnections) ==> activeConnections == old(activeConnections)
      ensures websocket in old(activeConnections) ==> |activeConnections| == |old(activeConnections)| - 1
    {
      if websocket in activeConnections {
        activeConnections := RemoveFirst(activeConnections, websocket);
      }
    }

    /** Writes `message` to every socket in list order; a failed write is
        swallowed and the remaining sockets are still tried. */
    method Broadcast(message: OutFrame, sendOk: SocketId -> bool) returns (attempts: seq<Delivery>)
      ensures attempts == Deliveries(activeConnections, message, sendOk)
    {
      attempts := [];
      var i := 0;
      while i < |activeConnections|
        invariant 0 <= i <= |activeConnections|
        invariant |attempts| == i
        invariant forall k :: 0 <= k < i ==>
          attempts[k] == Delivery(activeConnections[k], message, sendOk(activeConnections[k]))
      {
        var connection := activeConnections[i];
        attempts := attempts + [Delivery(connection, message, sendOk(connection))];
        i := i + 1;
      }
    }
  }
}
