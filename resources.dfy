/*
 * The data model shared by the sync managers: decoded documents, local
 * records, journal entries and the per-session store with its statistics.
 */
module Resources {

  datatype Option<+T> = None | Some(value: T)

  type Uid = string

  /** The class of a local record: LocalContact, LocalGroup or LocalTask. */
  datatype Kind = Contact | Group | Task

  /** A decoded vCard: its UID, whether it describes a contact group,
      and the rest of its properties, kept abstract. */
  datatype VCard = VCard(uid: Uid, group: bool, properties: string)

  /** A decoded VTODO; its UID may be missing. */
  datatype VTodo = VTodo(uid: Option<Uid>, properties: string)

  /** The document a local record was last written from. */
  datatype Payload = Card(card: VCard) | Todo(todo: VTodo)

  /** A record of the local store: its class, its eTag (possibly unset)
      and its content. */
  datatype Record = Record(kind: Kind, eTag: Option<string>, payload: Payload)

  /** The operation carried by a journal entry. */
  datatype Action = Add | Change | Delete

  /** One journal entry, already decrypted: its action and the serialized document. */
  datatype SyncEntry = SyncEntry(action: Action, content: string)

  /** The local collection bound to a sync session (records by lookup key)
      together with the session's insert and update statistics. */
  datatype Store = Store(records: map<string, Record>, numInserts: nat, numUpdates: nat)

  /** Why replaying an entry threw instead of returning. */
  datatype Fault =
    | NullLocalRecord(uid: Uid)   // a local record that does not exist was dereferenced
    | MissingUid                  // a decoded task had no UID where one was asserted

  /** How one entry (or a whole replay) ended: the store was written,
      the entry was ignored with a warning, or the session was aborted. */
  datatype Status = Applied | Ignored | Aborted(fault: Fault)

  /** The record stored under a key, as the store's lookup returns it (or null). */
  function Lookup(records: map<string, Record>, key: string): (r: Option<Record>)
    ensures r.Some? <==> key in records
    ensures r.Some? ==> r.value == records[key]
  {
    if key in records then Some(records[key]) else None
  }

  /** Total number of store writes counted in the statistics. */
  function Writes(s: Store): nat
  {
    s.numInserts + s.numUpdates
  }
}
