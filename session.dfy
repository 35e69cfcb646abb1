/// The data EventService keeps and persists: tracked events, the session that
/// holds them, the JSON text written to the storage file and posted to the
/// collector, and how a session is read back from that file.
module Session {

  datatype Option<T> = None | Some(value: T)

  /** One tracked event: its type and its data string (`EventData`). */
  datatype EventData = EventData(eventType: string, data: string)

  /** A C# `List<EventData>` reference: null, or a list of events. */
  datatype EventList = Null | List(items: seq<EventData>)

  /** `SessionData`, the object that is serialised: only the event list. */
  datatype SessionData = SessionData(events: EventList)

  /**
   * A JSON text as far as the JSON library can tell texts apart: the
   * serialisation of a session object, the literal `null`, or text it
   * cannot read (a corrupt file, or a read error).  The character-level
   * encoding is not modelled.
   */
  datatype Json = SessionObject(session: SessionData) | NullLiteral | Malformed

  /** What deserialising a text yields: an exception, or a session reference that may be null. */
  datatype Parsed = Threw | Value(session: Option<SessionData>)

  /** The storage file `eventServiceStorage.dat`: absent, or holding a text. */
  datatype Disk = NoFile | File(text: Json)

  /** `JsonConvert.SerializeObject` on a session; deserialising its result gives the session back. */
  function Serialize(s: SessionData): (j: Json)
    ensures Deserialize(j) == Value(Some(s))
    ensures j != NullLiteral && j != Malformed
  {
    SessionObject(s)
  }

  /** `JsonConvert.DeserializeObject<SessionData>`. */
  function Deserialize(j: Json): (p: Parsed)
    ensures p.Threw? <==> j == Malformed
    ensures p == Value(None) <==> j == NullLiteral
  {
    match j
    case SessionObject(s) => Value(Some(s))
    case NullLiteral => Value(None)
    case Malformed => Threw
  }

  /** The text the service writes for its pending events: `{"events": [...]}`. */
  function Snapshot(events: seq<EventData>): (j: Json)
    ensures Deserialize(j) == Value(Some(SessionData(List(events))))
  {
    Serialize(SessionData(List(events)))
  }

  /**
   * The pending events a stored text restores to.  A text that throws, the
   * literal null, and a session whose list is null all give an empty,
   * usable session; anything non-empty comes from the snapshot of exactly
   * those events.
   */
  function Load(text: Json): (events: seq<EventData>)
    ensures events != [] ==> text == Snapshot(events)
    ensures forall es :: text == Snapshot(es) ==> events == es
  {
    match Deserialize(text)
    case Value(Some(SessionData(List(items)))) => items
    case _ => []
  }

  /** `RestoreSession`: a missing file is a new, empty session; otherwise the file's text is loaded. */
  function Restore(disk: Disk): (events: seq<EventData>)
    ensures disk.NoFile? ==> events == []
    ensures events != [] ==> disk == File(Snapshot(events))
    ensures forall es :: disk == File(Snapshot(es)) ==> events == es
  {
    match disk
    case NoFile => []
    case File(text) => Load(text)
  }

  // ---------------------------------------------------------------------
  // Restoring as the source is written.  Only a null *session* is
  // replaced by a fresh one; a session object whose `events` member is
  // missing or null is kept, and its list stays null.
  // ---------------------------------------------------------------------

  /** The value `RestoreSession` leaves in `session.events` for a stored text. */
  function LoadAsWritten(text: Json): (list: EventList)
    ensures list.List? && list.items != [] ==> text == Snapshot(list.items)
    ensures list.Null? <==> text == SessionObject(SessionData(Null))
    ensures forall es :: text == Snapshot(es) ==> list == List(es)
    ensures text.Malformed? || text.NullLiteral? ==> list == List([])
  {
    match Deserialize(text)
    case Threw => List([])
    case Value(None) => List([])
    case Value(Some(s)) => s.events
  }

  /** `session.events.Add(e)`: the longer list, or None for a NullReferenceException. */
  function AddAsWritten(list: EventList, e: EventData): (r: Option<seq<EventData>>)
    ensures r.Some? <==> list.List?
    ensures r.Some? ==> r.value == list.items + [e]
  {
    match list
    case Null => None
    case List(items) => Some(items + [e])
  }

  /**
   * A stored `{"events": null}` (or `{}`) is valid JSON, so no exception is
   * raised and the restored list is null: every later `TrackEvent` throws,
   * and a store writes the same null list back, so the next start fails
   * the same way.
   */
  lemma NullListSurvivesRestore(e: EventData)
    ensures LoadAsWritten(SessionObject(SessionData(Null))) == Null
    ensures AddAsWritten(LoadAsWritten(SessionObject(SessionData(Null))), e) == None
    ensures LoadAsWritten(Serialize(SessionData(LoadAsWritten(SessionObject(SessionData(Null)))))) == Null
    ensures Load(SessionObject(SessionData(Null))) == []
  {
  }

  /** The corrected restore agrees with the source wherever the source yields a list. */
  lemma LoadAgreesWhereListRestored(text: Json)
    requires LoadAsWritten(text).List?
    ensures Load(text) == LoadAsWritten(text).items
  {
  }
}
