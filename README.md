# Journal replay and collection discovery of a journal-based sync client

This project models the core of an Android sync client in Dafny. The client keeps local
contacts, contact groups and tasks in step with per-collection journals held on a server.

- **Entry replay.** Each sync manager applies journal operations (ADD, CHANGE, DELETE, or an
  item with a deletion flag) to a local store indexed by UID. It also counts inserts and
  updates in the session statistics. Address books apply a type-transition rule: a group
  whose UID now carries an individual contact card, or the reverse, is deleted and then
  re-created with the incoming kind.
- **Collection discovery.** The service lists an account's journals and keeps those of one
  service type, stamping each with its journal's uuid. When none match, it publishes a
  default journal. It then replaces the registry rows of that service inside one database
  transaction.

Layout (one module per file):

- `resources.dfy` (`Resources`) holds the shared data model: decoded vCards and VTODOs,
  local records with a kind tag, an eTag and a payload, journal entries, and the `Store`
  value (records plus `numInserts` and `numUpdates`).
- `contacts_sync.dfy` (`ContactsSync`) covers address-book replay, the upload-only
  short-circuit in `prepare`, and the URL/host guard of the external-resource downloader.
- `tasks_sync.dfy` (`TasksSync`) covers task replay for the item protocol and the legacy
  entry protocol.
- `sync_adapter_service.dfy` (`SyncAdapterService`) covers the Wi-Fi gating decision,
  discovery, the transactional replace of registry rows and reading the rows back.

Each sync manager is a class whose fields are the bound local collection and the counters.
Its methods follow the source branch for branch. Each method's postcondition ties the new
state to a pure function of the old state (`ApplyEntry`, `ApplyItem`, `ApplyLegacyEntry`,
...). The properties are proved about those functions, and replay of a whole entry stream
(`Replay`, `ReplayItems`, `ReplayLegacy`) is defined on them.

Decoders, the HTTP exchange, random journal uuids and the service-id lookup are parameters.
Foreign failures are left open with a nondeterministic choice inside the collaborator
classes: a transport failure of the journal service, or a storage failure of a SQL
statement.

Two behaviours of the code are easy to misread; the model follows the code:

- A contact or group record created during replay gets the UID as its file name and **no**
  eTag, because `LocalContact` and `LocalGroup` are constructed with `(uuid, null)`. The eTag
  becomes the UID only when an existing record is updated in place (`ApplyContact`).
- A contacts DELETE for a UID with no local record is not a no-op. The source dereferences
  the missing record, so the model returns `Aborted(NullLocalRecord(uid))` with the store
  unchanged, and a replay stops there with the earlier writes kept (`ApplyEntry`, `DeleteFirstAborts`,
  `AbortKeepsEarlierWrites`). The tasks
  manager does guard this case, and there the entry is `Ignored`.

## Model

| member | source | states |
|---|---|---|
| `ContactsSync.ApplyContact` | app/src/main/java/com/etesync/syncadapter/syncadapter/ContactsSyncManager.java:162-211 | Afterwards the store holds exactly one record for the UID. That record has the incoming kind and holds the card, and no other record changes. Exactly one counter rises, by one. If a record of the same kind existed, it is updated (`numUpdates`+1) and its eTag becomes the UID. Otherwise, whether the record was missing or of the other kind, a fresh record without eTag is created (`numInserts`+1). |
| `ContactsSync.ApplyEntry` | app/src/main/java/com/etesync/syncadapter/syncadapter/ContactsSyncManager.java:139-160 | An entry that decodes to zero cards is ignored and changes nothing. Only the first card is used. ADD or CHANGE applies `ApplyContact`. DELETE counts nothing and removes the record. DELETE aborts with the store unchanged exactly when no record exists (the unguarded dereference). |
| `ContactsSync.Replay` | app/src/main/java/com/etesync/syncadapter/syncadapter/ContactsSyncManager.java:139-160 | Entries are applied in stream order and the first abort ends the replay. The result is never `Ignored`, and the statistics never decrease. The split, abort and last-write lemmas below state what the order means. |
| `ContactsSync.ReplaySplit` | app/src/main/java/com/etesync/syncadapter/syncadapter/ContactsSyncManager.java:139-160 | Replaying `a + b` equals replaying `a` and then, unless `a` aborted, replaying `b` from the store `a` left. An aborted prefix ends the whole replay. |
| `ContactsSync.AbortKeepsEarlierWrites` | app/src/main/java/com/etesync/syncadapter/syncadapter/ContactsSyncManager.java:154-158 | A DELETE of an unknown UID after a completed prefix aborts with `NullLocalRecord` of that UID. The store is exactly the prefix's store, so earlier writes are not rolled back, and later entries are skipped. |
| `ContactsSync.LastWriteDecides` | app/src/main/java/com/etesync/syncadapter/syncadapter/ContactsSyncManager.java:150-155 | After a completed prefix, a final ADD or CHANGE completes and leaves its first card, with that card's kind, under the card's UID. |
| `ContactsSync.ApplyEntryPreservesValid` | app/src/main/java/com/etesync/syncadapter/syncadapter/ContactsSyncManager.java:162-207 | One entry keeps the address-book invariant: each record is keyed by its card's UID, and its kind matches the card's group flag. |
| `ContactsSync.ReplayPreservesValid` | app/src/main/java/com/etesync/syncadapter/syncadapter/ContactsSyncManager.java:139-211 | A whole replay keeps the address-book invariant. |
| `ContactsSync.ReplayCountsWrites` | app/src/main/java/com/etesync/syncadapter/syncadapter/ContactsSyncManager.java:162-210 | A replay that runs to the end raises inserts plus updates by exactly the number of ADD or CHANGE entries that carry a card. DELETE and empty entries count nothing. |
| `ContactsSync.AddThenDelete` | app/src/main/java/com/etesync/syncadapter/syncadapter/ContactsSyncManager.java:154-158 | ADD followed by DELETE of one UID completes and leaves no record for that UID. Every other record is unchanged. |
| `ContactsSync.AddThenChange` | app/src/main/java/com/etesync/syncadapter/syncadapter/ContactsSyncManager.java:165-207 | ADD then CHANGE of a new UID with the same kind gives one insert and one update. One record remains; it holds the second card and its eTag is the UID. |
| `ContactsSync.TypeTransition` | app/src/main/java/com/etesync/syncadapter/syncadapter/ContactsSyncManager.java:182-207 | An ADD or CHANGE whose kind differs from the existing record replaces that record with a fresh record of the incoming kind: inserts +1, updates unchanged. |
| `ContactsSync.DeleteFirstAborts` | app/src/main/java/com/etesync/syncadapter/syncadapter/ContactsSyncManager.java:156-158 | A replay whose first entry is a DELETE of an unknown UID aborts at once and writes nothing, whatever follows it. |
| `ContactsSync.OnlyFirstCardUsed` | app/src/main/java/com/etesync/syncadapter/syncadapter/ContactsSyncManager.java:143-150 | When several cards are decoded, the effect equals that of the first card alone. |
| `ContactsSync.Download` | app/src/main/java/com/etesync/syncadapter/syncadapter/ContactsSyncManager.java:217-259 | If the URL does not parse or has no host, the result is null and the client's request log is unchanged. Otherwise the log grows by exactly one GET for the parsed URL, and the result is what that exchange yields. |
| `ContactsSync.HttpClient.Get` | app/src/main/java/com/etesync/syncadapter/syncadapter/ContactsSyncManager.java:241-256 | One GET for the URL is appended to the request log, and the result is the body of a successful response or null. |
| `ContactsSync.ContactsSyncManager.Prepare` | app/src/main/java/com/etesync/syncadapter/syncadapter/ContactsSyncManager.java:81-108 | Returns false when the base preparation fails. It also returns false, without binding the journal, when on Android N or later the sync is upload-only and both the really-dirty and the deleted counts are zero. Otherwise the address book and the journal are bound to the collection URL. |
| `ContactsSync.ContactsSyncManager.ProcessSyncEntry` | app/src/main/java/com/etesync/syncadapter/syncadapter/ContactsSyncManager.java:139-160 | Status and new store are exactly `ApplyEntry` of the old store. The address-book invariant is kept. |
| `ContactsSync.ContactsSyncManager.ProcessContact` | app/src/main/java/com/etesync/syncadapter/syncadapter/ContactsSyncManager.java:162-211 | The new store is `ApplyContact` of the old store, and the record returned is the one now stored under the UID. |
| `TasksSync.Upsert` | app/src/main/java/com/etesync/syncadapter/syncadapter/TasksSyncManager.kt:126-160 | Afterwards the key holds the task with the given eTag, and no other record changes. An existing key is updated (updates +1, inserts unchanged). A new key gets a fresh task (inserts +1, updates unchanged). |
| `TasksSync.ApplyItem` | app/src/main/java/com/etesync/syncadapter/syncadapter/TasksSyncManager.kt:74-98 | An item never aborts. A deleted item removes the record under its UID, counts nothing, and is applied exactly when such a record existed; otherwise it is only a warning. A non-deleted item that decodes to nothing changes nothing. Any other item upserts its first task under the item's UID with the item's eTag. |
| `TasksSync.ApplyLegacyEntry` | app/src/main/java/com/etesync/syncadapter/syncadapter/TasksSyncManager.kt:100-124 | An entry with no task changes nothing. The entry aborts exactly when the first task has no UID (the `!!` assertion). ADD or CHANGE upserts under the task's UID with that UID as eTag. DELETE removes the record for that UID if there is one (otherwise it is ignored) and counts nothing. |
| `TasksSync.ReplayItems` | app/src/main/java/com/etesync/syncadapter/syncadapter/TasksSyncManager.kt:74-98 | Items are applied in order. The statistics never decrease. |
| `TasksSync.ReplayLegacy` | app/src/main/java/com/etesync/syncadapter/syncadapter/TasksSyncManager.kt:100-124 | Legacy entries are applied in order until one aborts. The result is never `Ignored`, and the statistics never decrease. The split, abort and last-write lemmas below state what the order means. |
| `TasksSync.ReplayLegacySplit` | app/src/main/java/com/etesync/syncadapter/syncadapter/TasksSyncManager.kt:100-124 | Replaying `a + b` equals replaying `a` and then, unless `a` aborted, replaying `b` from the store `a` left. |
| `TasksSync.LegacyAbortKeepsEarlierWrites` | app/src/main/java/com/etesync/syncadapter/syncadapter/TasksSyncManager.kt:111-112 | After a completed prefix, an entry whose first task has no UID aborts with `MissingUid`. The store is exactly the prefix's store, and later entries are skipped. |
| `TasksSync.LegacyLastWriteDecides` | app/src/main/java/com/etesync/syncadapter/syncadapter/TasksSyncManager.kt:111-115 | After a completed prefix, a final ADD or CHANGE whose first task has a UID completes and leaves that task under the UID, with the UID as eTag. |
| `TasksSync.ReplayItemsCountsWrites` | app/src/main/java/com/etesync/syncadapter/syncadapter/TasksSyncManager.kt:126-142 | Inserts plus updates rise by exactly the number of non-deleted items that decode to a task. |
| `TasksSync.ReplayLegacyCountsWrites` | app/src/main/java/com/etesync/syncadapter/syncadapter/TasksSyncManager.kt:144-160 | A legacy replay that completes raises inserts plus updates by exactly the number of ADD or CHANGE entries that carry a task. |
| `TasksSync.ApplyItemPreservesValid` | app/src/main/java/com/etesync/syncadapter/syncadapter/TasksSyncManager.kt:126-142 | One item keeps every record of the task list a task. |
| `TasksSync.ApplyLegacyEntryPreservesValid` | app/src/main/java/com/etesync/syncadapter/syncadapter/TasksSyncManager.kt:144-160 | One legacy entry keeps every record of the task list a task. |
| `TasksSync.ReplayItemsPreservesValid` | app/src/main/java/com/etesync/syncadapter/syncadapter/TasksSyncManager.kt:74-98 | A replay of items keeps every record a task. |
| `TasksSync.ReplayLegacyPreservesValid` | app/src/main/java/com/etesync/syncadapter/syncadapter/TasksSyncManager.kt:100-124 | A legacy replay keeps every record a task. |
| `TasksSync.DeletedItemLast` | app/src/main/java/com/etesync/syncadapter/syncadapter/TasksSyncManager.kt:90-96 | Whatever items come before it, a final deleted item leaves no record under its UID. |
| `TasksSync.LiveItemLast` | app/src/main/java/com/etesync/syncadapter/syncadapter/TasksSyncManager.kt:78-89 | Whatever items come before it, a final item that is not deleted and decodes to a task leaves that task under the item's UID, with the item's eTag. |
| `TasksSync.LegacyAddThenDelete` | app/src/main/java/com/etesync/syncadapter/syncadapter/TasksSyncManager.kt:114-122 | Legacy ADD then DELETE of one UID completes and leaves no record for it. |
| `TasksSync.LegacyAddThenChange` | app/src/main/java/com/etesync/syncadapter/syncadapter/TasksSyncManager.kt:144-160 | Legacy ADD then CHANGE of a new UID gives inserts +1 and updates +1. One record is left, keyed and tagged by the UID and holding the second task. |
| `TasksSync.LegacyAddTwice` | app/src/main/java/com/etesync/syncadapter/syncadapter/TasksSyncManager.kt:144-160 | Applying the same ADD twice to a list without the UID leaves one record: the first ADD inserts, the second updates. |
| `TasksSync.LegacyReversedOrder` | app/src/main/java/com/etesync/syncadapter/syncadapter/TasksSyncManager.kt:114-122 | Order matters. DELETE, CHANGE, ADD of an unknown UID ends with a record for it, because the DELETE is a no-op. ADD, CHANGE, DELETE ends without one. |
| `TasksSync.TasksSyncManager.ProcessItem` | app/src/main/java/com/etesync/syncadapter/syncadapter/TasksSyncManager.kt:74-98 | Status and new store are exactly `ApplyItem` of the old store, and the invariant is kept. |
| `TasksSync.TasksSyncManager.ProcessSyncEntryImpl` | app/src/main/java/com/etesync/syncadapter/syncadapter/TasksSyncManager.kt:100-124 | Status and new store are exactly `ApplyLegacyEntry` of the old store, and the invariant is kept. |
| `TasksSync.TasksSyncManager.ProcessTask` | app/src/main/java/com/etesync/syncadapter/syncadapter/TasksSyncManager.kt:126-142 | The new store is `Upsert` under the item's UID with the item's eTag. The record returned is the one stored there. |
| `TasksSync.TasksSyncManager.LegacyProcessTask` | app/src/main/java/com/etesync/syncadapter/syncadapter/TasksSyncManager.kt:144-160 | The new store is `Upsert` under the task's UID, with the UID as eTag. The record returned is the one stored there. |
| `SyncAdapterService.CheckSyncConditions` | app/src/main/java/at/bitfire/davdroid/syncadapter/SyncAdapterService.java:103-128 | Always true when Wi-Fi-only is off. When it is on, true exactly when there is a network, it is Wi-Fi and connected, and, if an SSID is configured, the reported SSID equals the configured one in double quotes. |
| `SyncAdapterService.UnquotedSsidRejected` | app/src/main/java/at/bitfire/davdroid/syncadapter/SyncAdapterService.java:116-124 | A Wi-Fi that reports the configured SSID without quotes is rejected. |
| `SyncAdapterService.Matching` | app/src/main/java/at/bitfire/davdroid/syncadapter/SyncAdapterService.java:154-162 | Discovery fails with an integrity error exactly when some journal does not decode. Otherwise every kept collection has the service type and a url, and no more are kept than were listed. |
| `SyncAdapterService.MatchingSelectsInOrder` | app/src/main/java/at/bitfire/davdroid/syncadapter/SyncAdapterService.java:154-162 | The kept collections are the journals of the service type, at strictly increasing listing positions, each stamped with its own journal's uuid. Every journal of that type is kept. |
| `SyncAdapterService.Discovered` | app/src/main/java/at/bitfire/davdroid/syncadapter/SyncAdapterService.java:154-172 | The saved list is never empty and has only the service type. When some journal matched, it is exactly the matching list. When none matched, it is exactly one default collection whose url is the new journal's uuid. |
| `SyncAdapterService.RediscoveryIsStable` | app/src/main/java/at/bitfire/davdroid/syncadapter/SyncAdapterService.java:166-172 | A second pass over the listing the first pass left behind finds a match, publishes nothing and saves the same collections. This assumes the default collection survives its own encoding. |
| `SyncAdapterService.UrlIndex` | app/src/main/java/at/bitfire/davdroid/syncadapter/SyncAdapterService.java:187-196 | The keys are exactly the urls of the rows, and each key maps to one of the rows that has that url. |
| `SyncAdapterService.UrlIndexLastWins` | app/src/main/java/at/bitfire/davdroid/syncadapter/SyncAdapterService.java:191-195 | A later row with the same url replaces an earlier one: the last row with a url is the one read back. |
| `SyncAdapterService.JournalManager.GetJournals` | app/src/main/java/at/bitfire/davdroid/syncadapter/SyncAdapterService.java:156 | Returns the server's listing, or fails with a transport error. The journal service's count of transport failures rises by one exactly when the call fails. |
| `SyncAdapterService.JournalManager.PutJournal` | app/src/main/java/at/bitfire/davdroid/syncadapter/SyncAdapterService.java:168-169 | Either appends exactly the given journal to the server's journals, or fails and publishes nothing. The count of transport failures rises by one exactly when the call fails. |
| `SyncAdapterService.ServiceDb.BeginTransactionNonExclusive` | app/src/main/java/at/bitfire/davdroid/syncadapter/SyncAdapterService.java:174 | Opens a transaction that is not yet marked successful and remembers the table as it is. |
| `SyncAdapterService.ServiceDb.SetTransactionSuccessful` | app/src/main/java/at/bitfire/davdroid/syncadapter/SyncAdapterService.java:177 | Marks the open transaction successful. |
| `SyncAdapterService.ServiceDb.EndTransaction` | app/src/main/java/at/bitfire/davdroid/syncadapter/SyncAdapterService.java:178-180 | Closes the transaction. It commits if the transaction was marked successful and otherwise restores the table from when it began. |
| `SyncAdapterService.ServiceDb.Delete` | app/src/main/java/at/bitfire/davdroid/syncadapter/SyncAdapterService.java:201 | Removes every row of the service id, or fails and changes nothing. |
| `SyncAdapterService.ServiceDb.Insert` | app/src/main/java/at/bitfire/davdroid/syncadapter/SyncAdapterService.java:203-206 | Appends one row for the service id, or fails and changes nothing. |
| `SyncAdapterService.RefreshCollections.CollectJournals` | app/src/main/java/at/bitfire/davdroid/syncadapter/SyncAdapterService.java:154-162 | The loop over the listing computes exactly `Matching`: the integrity error, or the stamped collections of the service type in listing order. |
| `SyncAdapterService.RefreshCollections.Run` | app/src/main/java/at/bitfire/davdroid/syncadapter/SyncAdapterService.java:143-184 | On success this service's rows are exactly `Discovered`, and the rows of every other service id are untouched. On any failure the registry is as before, including a storage failure in the middle of the replace, which is rolled back. Each failure names its cause. A transport error is returned exactly when a call to the journal service failed. An integrity error occurs only when some journal does not decode. Such a journal always gives an integrity or transport error, never a storage error. A storage error occurs only after discovery succeeded, and any default journal already published stays published. A journal is published only when none matched, and then exactly the default one. The transaction is always closed. |
| `SyncAdapterService.RefreshCollections.ReadCollections` | app/src/main/java/at/bitfire/davdroid/syncadapter/SyncAdapterService.java:187-196 | Returns the rows of this service id only, keyed by url, with later rows overwriting earlier ones (`UrlIndex`). |
| `SyncAdapterService.RefreshCollections.SaveCollections` | app/src/main/java/at/bitfire/davdroid/syncadapter/SyncAdapterService.java:199-208 | On success, this service's rows are exactly the given collections in order, since all prior rows of that id are deleted first. Rows of other service ids are never touched, even on failure. |

## Left out

- The network behind the resource downloader (redirects, response status, streaming the body) is the `exchange` function of `HttpClient`. The source creates a fresh client on each download; the model passes one in, so that its request log can be observed. The `accepts` argument is carried but unused, as in the source.
- Decoding is not modelled. vCard, iCalendar and the collection JSON, together with journal decryption, are function parameters; a decode that returns None stands for an integrity failure.
- The journal entry stream and the loop in the sync manager base class are not part of this model. The base class's prepare, push and post-process phases are also outside it. `Replay`, `ReplayItems` and `ReplayLegacy` give the in-order application that loop performs.
- `prepare` is only partly modelled. The base-class preparation is the `superPrepared` input and the Android version check is a boolean input. The side effects of the dirty-flag verification pass are left out. So is writing the contacts-provider settings, which is Android plumbing.
- `prepareDirty` is an empty placeholder in the source and is not modelled.
- The group membership assignment in `postProcess` is not modelled. It is done by `LocalGroup`, which is not part of this model.
- The tasks manager's `prepare` is not modelled. It binds a legacy journal, and the replay model does not need that.
- `ContactsSync.ApplyContact`: the delete in the type-transition branch is treated as non-failing. The exception it guards against is never raised by contact or group records.
- Local-store failures during replay are not modelled: create, update and delete always succeed.
- The local task provider has separate UID and file-name columns, and the model collapses them into one key. The legacy path creates its records with file name = UID, so its lookup by UID is a lookup by key here. Records whose iCalendar UID differs from their file name are not modelled.
- A contact card's UID is taken to be present. Only the tasks path asserts it explicitly, and that assertion is modelled.
- Server-side deletion of a collection is not handled by the source, and the model invents no policy for it.
- The registry's service-id lookup is not modelled: the id is the `service` field.
- Building the HTTP client and reading the account settings in `run` are not modelled, so the invalid-account failure they can raise is not modelled either. Only transport, integrity and storage failures are.
- Closing the database helper is not modelled.
- SQLite specifics are not modelled: content values, cursors, the conflict-replace policy and any unique constraint. An insert appends a row.
- `ReadCollections` returns a map, so the insertion order of the source's linked hash map is not kept.
- `CheckSyncConditions`: when the Wi-Fi connection info is null, the source's log message calls `getSSID()` on it and throws a NullPointerException, so the method never returns on that path. The model returns false there, the outcome the null check was written for, and does not model the exception.
- Logging, notifications, `onPerformSync`, `onSecurityException`, `onBind` and the setup wizard's configuration-detection screen are not modelled.
- The statistics are unbounded naturals; the source's 64-bit counters cannot overflow in practice.
- Concurrency is not modelled. Every operation is sequential, as the source runs each session on one thread.
