/**
 * The frames that cross a chat websocket and the per-frame dispatch each
 * session loop performs before it touches the store: which frames are
 * ignored, which end the loop, and which become a row to persist and a
 * `new_message` notification to send.
 */
module Frames {
  import opened Messages

  /** The participant id reserved for the admin. */
  const AdminId: int := 1

  /** A field of a decoded JSON object: missing, an explicit `null`, or a
      value of the type the protocol declares for it. */
  datatype Field<T> = Absent | Null | Present(value: T)

  /** The fields of an inbound JSON object that the sessions read. */
  datatype Frame = Frame(kind: Field<string>, content: Field<string>, userId: Field<int>)

  /** What one wait for the next inbound frame yields. */
  datatype Inbound =
    | Disconnected            // the peer closed the socket
    | Undecodable             // the text is not JSON
    | NotAnObject             // JSON, but not an object, so `.get` raises
    | Received(frame: Frame)  // a JSON object

  /** Frames the server writes. */
  datatype OutFrame =
    | ConnectionEstablished   // the admin greeting
    | Connected(userId: int)  // the user greeting
    | NewMessage(userId: int, content: string, senderId: int, isFromAdmin: bool)

  /** What a session loop does with one inbound frame. */
  datatype Decision =
    | EndSession
    | Ignore
    | Persist(draft: Draft, notice: OutFrame)

  /** Python truthiness of an integer field read with `.get`. */
  predicate IdGiven(f: Field<int>) {
    f.Present? && f.value != 0
  }

  /** Python truthiness of a string field read with `.get`. */
  predicate TextGiven(f: Field<string>) {
    f.Present? && f.value != ""
  }

  /** The notification announces exactly the row the decision persists:
      same text, same sender, the admin flag the negation of `isOwner`, and
      as `userId` the end-user taking part in the exchange. */
  predicate Announces(d: Decision) {
    d.Persist? ==>
      d.notice == NewMessage(
        if d.draft.isOwner then d.draft.senderId else d.draft.receiverId,
        d.draft.content, d.draft.senderId, !d.draft.isOwner)
  }

  /** The admin session's handling of one inbound frame. The text is
      decoded by the session itself, so a decoding error skips the frame;
      an `admin_message` needs a non-zero `user_id` and non-empty `content`. */
  function AdminDecide(inbound: Inbound): (d: Decision)
    ensures d.EndSession? <==> inbound.Disconnected? || inbound.NotAnObject?
    ensures d.Persist? <==>
      inbound.Received? && inbound.frame.kind == Present("admin_message") &&
      IdGiven(inbound.frame.userId) && TextGiven(inbound.frame.content)
    ensures d.Persist? ==>
      d.draft == Draft(inbound.frame.content.value, AdminId, inbound.frame.userId.value, false)
    ensures Announces(d)
  {
    match inbound
    case Disconnected => EndSession
    case Undecodable => Ignore
    case NotAnObject => EndSession
    case Received(f) =>
      if f.kind == Present("pong") then Ignore
      else if f.kind != Present("admin_message") then Ignore
      else if !IdGiven(f.userId) || !TextGiven(f.content) then Ignore
      else
        var target, text := f.userId.value, f.content.value;
        Persist(Draft(text, AdminId, target, false), NewMessage(target, text, AdminId, true))
  }

  /** The user session's handling of one inbound frame. The framework
      decodes the text, so a decoding error ends the loop. `content`
      defaults to the empty string; it is sliced for logging before the
      type is looked at, so an explicit `null` ends the loop whatever the
      type. A `message` needs non-empty `content`. */
  function UserDecide(userId: int, inbound: Inbound): (d: Decision)
    ensures d.EndSession? <==> !inbound.Received? || inbound.frame.content.Null?
    ensures d.Persist? <==>
      inbound.Received? && inbound.frame.kind == Present("message") &&
      TextGiven(inbound.frame.content)
    ensures d.Persist? ==>
      d.draft == Draft(inbound.frame.content.value, userId, AdminId, true)
    ensures Announces(d)
  {
    match inbound
    case Disconnected => EndSession
    case Undecodable => EndSession
    case NotAnObject => EndSession
    case Received(f) =>
      if f.content.Null? then EndSession
      else
        var text := if f.content.Present? then f.content.value else "";
        if f.kind == Present("pong") then Ignore
        else if f.kind != Present("message") then Ignore
        else if text == "" then Ignore
        else Persist(Draft(text, userId, AdminId, true), NewMessage(userId, text, userId, false))
  }
}
