/*
 * The sync adapter service's shared logic: the Wi-Fi gating decision taken
 * before a sync, and the discovery of an account's collections of one
 * service type from the journal listing, with the transactional replace of
 * the collection registry rows.
 */
module SyncAdapterService {
  import opened Resources

  // ---------------------------------------------------------------------
  // checkSyncConditions

  /** The account settings the gating decision reads. */
  datatype SyncSettings = SyncSettings(syncWifiOnly: bool, syncWifiOnlySsid: Option<string>)

  /** The active network, as the connectivity service reports it. */
  datatype NetworkInfo = NetworkInfo(isWifi: bool, isConnected: bool)

  /** The current Wi-Fi connection; its SSID, when known, is reported in double quotes. */
  datatype WifiInfo = WifiInfo(ssid: Option<string>)

  function Quoted(ssid: string): (q: string)
    ensures |q| == |ssid| + 2 && q[0] == '"' && q[|q| - 1] == '"' && q[1..|q| - 1] == ssid
  {
    "\"" + ssid + "\""
  }

  /** Whether a sync may run now: always, unless syncing is limited to Wi-Fi;
      then only on a connected Wi-Fi network whose SSID is the configured one, if any. */
  function CheckSyncConditions(settings: SyncSettings, network: Option<NetworkInfo>, wifi: Option<WifiInfo>): (ok: bool)
    ensures !settings.syncWifiOnly ==> ok
    ensures settings.syncWifiOnly ==>
      (ok <==>
        network.Some? && network.value.isWifi && network.value.isConnected &&
        (settings.syncWifiOnlySsid.None? ||
         (wifi.Some? && wifi.value.ssid == Some(Quoted(settings.syncWifiOnlySsid.value)))))
  {
    if settings.syncWifiOnly then
      if network.None? then
        false  // no network available
      else if !network.value.isWifi || !network.value.isConnected then
        false  // not on connected Wi-Fi
      else if settings.syncWifiOnlySsid.Some? then
        var onlySsid := Quoted(settings.syncWifiOnlySsid.value);
        // wrong Wi-Fi network, or no connection info
        wifi.Some? && wifi.value.ssid == Some(onlySsid)
      else
        true
    else
      true
  }

  /** A Wi-Fi that reports the configured SSID without quotes is rejected. */
  lemma UnquotedSsidRejected(ssid: string, network: NetworkInfo)
    ensures !CheckSyncConditions(SyncSettings(true, Some(ssid)), Some(network), Some(WifiInfo(Some(ssid))))
  {
  }

  // ---------------------------------------------------------------------
  // Collections and journals

  datatype ServiceType = AddressBook | Calendar | Tasks

  /** Display metadata of a collection. */
  datatype Meta = Meta(displayName: Option<string>, color: Option<int>, readOnly: bool)

  /** A sync-able collection; `url` holds the identifier of its journal. */
  datatype CollectionInfo = CollectionInfo(url: Option<string>, serviceType: ServiceType, meta: Meta)

  /** A journal of the listing: its identifier and its encrypted content. */
  datatype Journal = Journal(uuid: string, content: string)

  datatype Error = HttpError | IntegrityError | StorageError

  datatype Result<T> = Ok(value: T) | Err(error: Error)

  /** The default collection of a service type, before it has a journal.
      Its display metadata comes from the collection model, which is not
      part of this model, so it is a parameter. */
  function DefaultFor(t: ServiceType, meta: Meta): (info: CollectionInfo)
    ensures info.serviceType == t && info.url.None?
  {
    CollectionInfo(None, t, meta)
  }

  /** A collection decoded from a journal, with its url set to the journal's uuid. */
  function Stamp(info: CollectionInfo, journal: Journal): (r: CollectionInfo)
    ensures r.url == Some(journal.uuid)
    ensures r.serviceType == info.serviceType && r.meta == info.meta
  {
    info.(url := Some(journal.uuid))
  }

  /**
   * The collections of type `t` found in a journal listing, in listing
   * order, each stamped with its journal's uuid. `decode` stands for
   * decrypting a journal's content and decoding the JSON collection
   * description; None is an integrity failure, which ends discovery.
   */
  function Matching(journals: seq<Journal>, t: ServiceType, decode: string -> Option<CollectionInfo>)
    : (r: Result<seq<CollectionInfo>>)
    ensures r.Ok? <==> forall i :: 0 <= i < |journals| ==> decode(journals[i].content).Some?
    ensures r.Err? ==> r.error == IntegrityError
    ensures r.Ok? ==> |r.value| <= |journals|
    ensures r.Ok? ==> forall c :: c in r.value ==> c.serviceType == t && c.url.Some?
    decreases |journals|
  {
    if journals == [] then
      Ok([])
    else
      var n := |journals| - 1;
      var prefix := Matching(journals[..n], t, decode);
      var info := decode(journals[n].content);
      if prefix.Err? then
        prefix
      else if info.None? then
        Err(IntegrityError)
      else
        var stamped := Stamp(info.value, journals[n]);
        Ok(if stamped.serviceType == t then prefix.value + [stamped] else prefix.value)
  }

  /** Discovery keeps exactly the journals of the service type, in listing
      order: `idx` lists the positions of the kept journals. */
  lemma {:induction false} MatchingSelectsInOrder(journals: seq<Journal>, t: ServiceType,
                                                  decode: string -> Option<CollectionInfo>)
    returns (idx: seq<nat>)
    requires Matching(journals, t, decode).Ok?
    ensures |idx| == |Matching(journals, t, decode).value|
    ensures forall k :: 0 <= k < |idx| ==> idx[k] < |journals|
    ensures forall k, l :: 0 <= k < l < |idx| ==> idx[k] < idx[l]
    ensures forall k :: 0 <= k < |idx| ==>
      Matching(journals, t, decode).value[k] == Stamp(decode(journals[idx[k]].content).value, journals[idx[k]])
    ensures forall i :: 0 <= i < |journals| && decode(journals[i].content).value.serviceType == t ==> i in idx
    decreases |journals|
  {
    if journals == [] {
      idx := [];
    } else {
      var n := |journals| - 1;
      var prefix := journals[..n];
      assert forall i :: 0 <= i < n ==> prefix[i] == journals[i];
      var sub := MatchingSelectsInOrder(prefix, t, decode);
      var before := Matching(prefix, t, decode).value;
      var info := decode(journals[n].content).value;
      var stamped := Stamp(info, journals[n]);
      forall k | 0 <= k < |sub|
        ensures sub[k] < n
        ensures before[k] == Stamp(decode(journals[sub[k]].content).value, journals[sub[k]])
      {
      }
      if info.serviceType == t {
        idx := sub + [n];
        assert Matching(journals, t, decode).value == before + [stamped];
      } else {
        idx := sub;
        assert Matching(journals, t, decode).value == before;
      }
      forall i | 0 <= i < n && decode(journals[i].content).value.serviceType == t
        ensures i in sub
      {
        assert prefix[i] == journals[i];
      }
    }
  }

  /** The collections a discovery pass saves: the matching ones, or, when
      none match, the default collection stamped with the new journal's uuid. */
  function Discovered(journals: seq<Journal>, t: ServiceType, decode: string -> Option<CollectionInfo>,
                      defaultMeta: Meta, newUuid: string): (r: Result<seq<CollectionInfo>>)
    ensures r.Ok? <==> Matching(journals, t, decode).Ok?
    ensures r.Ok? ==> |r.value| >= 1 && forall c :: c in r.value ==> c.serviceType == t
    // at least one match: no journal is created, the result is the matching list
    ensures r.Ok? && Matching(journals, t, decode).value != [] ==> r == Matching(journals, t, decode)
    // no match: exactly one collection, the default one, on the new journal
    ensures r.Ok? && Matching(journals, t, decode).value == [] ==>
      r.value == [CollectionInfo(Some(newUuid), t, defaultMeta)]
  {
    var found := Matching(journals, t, decode);
    if found.Err? then found
    else if found.value == [] then Ok([DefaultFor(t, defaultMeta).(url := Some(newUuid))])
    else found
  }

  /** The journal listing after a discovery pass that succeeded: the default
      journal is appended when no journal matched. */
  function ListingAfter(journals: seq<Journal>, t: ServiceType, decode: string -> Option<CollectionInfo>,
                        encode: CollectionInfo -> string, defaultMeta: Meta, newUuid: string): seq<Journal>
    requires Matching(journals, t, decode).Ok?
  {
    if Matching(journals, t, decode).value == [] then
      journals + [Journal(newUuid, encode(DefaultFor(t, defaultMeta)))]
    else
      journals
  }

  /**
   * Running discovery again on the listing the first pass left behind
   * creates no journal and saves the same collections, provided the
   * default collection survives its own encoding.
   */
  lemma RediscoveryIsStable(journals: seq<Journal>, t: ServiceType, decode: string -> Option<CollectionInfo>,
                            encode: CollectionInfo -> string, defaultMeta: Meta, uuid1: string, uuid2: string)
    requires Matching(journals, t, decode).Ok?
    requires decode(encode(DefaultFor(t, defaultMeta))) == Some(DefaultFor(t, defaultMeta))
    ensures Matching(ListingAfter(journals, t, decode, encode, defaultMeta, uuid1), t, decode).Ok?
    ensures Matching(ListingAfter(journals, t, decode, encode, defaultMeta, uuid1), t, decode).value != []
    ensures Discovered(ListingAfter(journals, t, decode, encode, defaultMeta, uuid1), t, decode, defaultMeta, uuid2)
         == Discovered(journals, t, decode, defaultMeta, uuid1)
  {
    var after := ListingAfter(journals, t, decode, encode, defaultMeta, uuid1);
    if Matching(journals, t, decode).value == [] {
      var journal := Journal(uuid1, encode(DefaultFor(t, defaultMeta)));
      assert after == journals + [journal];
      assert after[..|journals|] == journals;
      var stamped := Stamp(DefaultFor(t, defaultMeta), journal);
      assert stamped == CollectionInfo(Some(uuid1), t, defaultMeta);
      assert Matching(after, t, decode) == Ok([] + [stamped]);
      assert [] + [stamped] == [stamped];
      assert Discovered(after, t, decode, defaultMeta, uuid2) == Ok([stamped]);
    }
  }

  /** The rows stored for a service id. */
  function Rows(table: map<int, seq<CollectionInfo>>, service: int): seq<CollectionInfo>
  {
    if service in table then table[service] else []
  }

  /** The collections read back from registry rows, keyed by url; a later
      row with the same url replaces an earlier one. */
  function UrlIndex(rows: seq<CollectionInfo>): (m: map<Option<string>, CollectionInfo>)
    ensures m.Keys == set i | 0 <= i < |rows| :: rows[i].url
    ensures forall u :: u in m ==> m[u] in rows && m[u].url == u
    decreases |rows|
  {
    if rows == [] then
      map[]
    else
      var n := |rows| - 1;
      var prefix := rows[..n];
      assert forall i :: 0 <= i < n ==> prefix[i] == rows[i];
      UrlIndex(prefix)[rows[n].url := rows[n]]
  }

  /** The last row with a given url is the one read back. */
  lemma {:induction false} UrlIndexLastWins(rows: seq<CollectionInfo>, i: nat)
    requires i < |rows|
    requires forall j :: i < j < |rows| ==> rows[j].url != rows[i].url
    ensures UrlIndex(rows)[rows[i].url] == rows[i]
    decreases |rows|
  {
    var n := |rows| - 1;
    if i < n {
      var prefix := rows[..n];
      UrlIndexLastWins(prefix, i);
    }
  }

  // ---------------------------------------------------------------------
  // The journal service and the registry database, as the discovery pass sees them

  /** The account's journals on the server. Each request may fail in transport. */
  class JournalManager {
    var journals: seq<Journal>
    /** The number of calls to the journal service that failed in transport. */
    ghost var failures: nat

    constructor (journals: seq<Journal>)
      ensures this.journals == journals && failures == 0
    {
      this.journals := journals;
      failures := 0;
    }

    /** getJournals: the listing, or a transport failure. */
    method GetJournals() returns (r: Result<seq<Journal>>)
      modifies this`failures
      ensures r.Ok? ==> r.value == journals && failures == old(failures)
      ensures r.Err? ==> r.error == HttpError && failures == old(failures) + 1
    {
      var delivered: bool :| true;
      if delivered {
        r := Ok(journals);
      } else {
        failures := failures + 1;
        r := Err(HttpError);
      }
    }

    /** putJournal: publish a new journal, or fail in transport and publish nothing. */
    method PutJournal(journal: Journal) returns (ok: bool)
      modifies this
      ensures ok ==> journals == old(journals) + [journal] && failures == old(failures)
      ensures !ok ==> journals == old(journals) && failures == old(failures) + 1
    {
      ok :| true;
      if ok {
        journals := journals + [journal];
      } else {
        failures := failures + 1;
      }
    }
  }

  /**
   * The registry's collections table, grouped by service id (rows in
   * insertion order), with SQLite's transaction state: the table as it was
   * when the open transaction began, and whether the transaction was marked
   * successful. Each statement may fail with a storage error.
   */
  class ServiceDb {
    var table: map<int, seq<CollectionInfo>>
    var savepoint: map<int, seq<CollectionInfo>>
    var inTransaction: bool
    var successful: bool

    constructor (table: map<int, seq<CollectionInfo>>)
      ensures this.table == table && !inTransaction
    {
      this.table := table;
      savepoint := table;
      inTransaction, successful := false, false;
    }

    method BeginTransactionNonExclusive()
      requires !inTransaction
      modifies this
      ensures inTransaction && !successful
      ensures table == old(table) && savepoint == old(table)
    {
      inTransaction, successful := true, false;
      savepoint := table;
    }

    method SetTransactionSuccessful()
      requires inTransaction
      modifies this`successful
      ensures successful
    {
      successful := true;
    }

    /** Commit when marked successful, roll back to the savepoint otherwise. */
    method EndTransaction()
      requires inTransaction
      modifies this
      ensures !inTransaction
      ensures table == if old(successful) then old(table) else old(savepoint)
    {
      if !successful {
        table := savepoint;
      }
      inTransaction := false;
    }

    /** Delete every row of a service id. */
    method Delete(service: int) returns (ok: bool)
      modifies this`table
      ensures ok ==> table == old(table) - {service}
      ensures !ok ==> table == old(table)
    {
      ok :| true;
      if ok {
        table := table - {service};
      }
    }

    /** Insert a row for a service id, after its existing rows. */
    method Insert(service: int, info: CollectionInfo) returns (ok: bool)
      modifies this`table
      ensures ok ==> table == old(table)[service := Rows(old(table), service) + [info]]
      ensures !ok ==> table == old(table)
    {
      ok :| true;
      if ok {
        table := table[service := Rows(table, service) + [info]];
      }
    }
  }

  /** One discovery pass for one account and service type. */
  class RefreshCollections {
    const serviceType: ServiceType
    /** The registry's id for this account and service type. */
    const service: int
    const db: ServiceDb
    const journalsManager: JournalManager

    constructor (serviceType: ServiceType, service: int, db: ServiceDb, journalsManager: JournalManager)
      ensures this.serviceType == serviceType && this.service == service
      ensures this.db == db && this.journalsManager == journalsManager
    {
      this.serviceType := serviceType;
      this.service := service;
      this.db := db;
      this.journalsManager := journalsManager;
    }

    /** The loop of run over the listing: decode each journal, stamp it with
        its uuid and keep it when it has this service type. */
    method CollectJournals(journals: seq<Journal>, decode: string -> Option<CollectionInfo>)
      returns (r: Result<seq<CollectionInfo>>)
      ensures r == Matching(journals, serviceType, decode)
    {
      var collections: seq<CollectionInfo> := [];
      var i := 0;
      while i < |journals|
        invariant 0 <= i <= |journals|
        invariant Matching(journals[..i], serviceType, decode) == Ok(collections)
      {
        var info := decode(journals[i].content);
        if info.None? {
          // getContent or fromJson threw
          return Err(IntegrityError);
        }
        var stamped := info.value.(url := Some(journals[i].uuid));
        if stamped.serviceType == serviceType {
          collections := collections + [stamped];
        }
        assert journals[..i + 1][..i] == journals[..i];
        i := i + 1;
      }
      assert journals[..i] == journals;
      r := Ok(collections);
    }

    /**
     * run: discover the collections of this service type, publish a default
     * journal when there is none, and replace this service's registry rows
     * inside one transaction. Returns the collections saved. Collections
     * deleted on the server are not handled.
     */
    method Run(decode: string -> Option<CollectionInfo>, encode: CollectionInfo -> string,
               defaultMeta: Meta, newUuid: string) returns (r: Result<seq<CollectionInfo>>)
      requires !db.inTransaction
      modifies db, journalsManager
      ensures !db.inTransaction
      ensures r.Ok? ==> r == Discovered(old(journalsManager.journals), serviceType, decode, defaultMeta, newUuid)
      // success: this service's rows are exactly the discovered collections, other rows untouched
      ensures r.Ok? ==> db.table == old(db.table)[service := r.value]
      // failure: the registry is as before
      ensures r.Err? ==> db.table == old(db.table)
      // a journal is published only when none matched, and then exactly the default one
      ensures journalsManager.journals == old(journalsManager.journals) ||
        (Matching(old(journalsManager.journals), serviceType, decode) == Ok([]) &&
         journalsManager.journals == old(journalsManager.journals) + [Journal(newUuid, encode(DefaultFor(serviceType, defaultMeta)))])
      ensures r.Ok? ==>
        journalsManager.journals == ListingAfter(old(journalsManager.journals), serviceType, decode, encode, defaultMeta, newUuid)
      // each failure names its cause: a journal that does not decode is an integrity error ...
      ensures r == Err(IntegrityError) ==> Matching(old(journalsManager.journals), serviceType, decode).Err?
      // ... a transport error comes from a journal-service call that failed, and only from one
      ensures r == Err(HttpError) <==> journalsManager.failures > old(journalsManager.failures)
      ensures Matching(old(journalsManager.journals), serviceType, decode).Err? ==> r.Err? && r.error != StorageError
      // ... and a storage error comes only after discovery succeeded, keeping any journal it published
      ensures r == Err(StorageError) ==>
        Discovered(old(journalsManager.journals), serviceType, decode, defaultMeta, newUuid).Ok? &&
        journalsManager.journals == ListingAfter(old(journalsManager.journals), serviceType, decode, encode, defaultMeta, newUuid)
    {
      var listing := journalsManager.GetJournals();
      if listing.Err? {
        return Err(listing.error);
      }
      var found := CollectJournals(listing.value, decode);
      if found.Err? {
        return found;
      }
      var collections := found.value;
      if |collections| == 0 {
        var info := DefaultFor(serviceType, defaultMeta);
        var journal := Journal(newUuid, encode(info));
        var published := journalsManager.PutJournal(journal);
        if !published {
          return Err(HttpError);
        }
        info := info.(url := Some(journal.uuid));
        collections := [info];
      }

      db.BeginTransactionNonExclusive();
      var saved := SaveCollections(collections);
      if saved {
        db.SetTransactionSuccessful();
      }
      db.EndTransaction();
      if !saved {
        return Err(StorageError);
      }
      r := Ok(collections);
    }

    /** readCollections: this service's rows, keyed by url. */
    method ReadCollections() returns (collections: map<Option<string>, CollectionInfo>)
      ensures collections == UrlIndex(Rows(db.table, service))
    {
      var rows := Rows(db.table, service);
      collections := map[];
      var i := 0;
      while i < |rows|
        invariant 0 <= i <= |rows|
        invariant collections == UrlIndex(rows[..i])
      {
        assert rows[..i + 1][..i] == rows[..i];
        collections := collections[rows[i].url := rows[i]];
        i := i + 1;
      }
      assert rows[..i] == rows;
    }

    /** saveCollections: delete this service's rows, then insert the given
        collections in order. Rows of other services are never touched. */
    method SaveCollections(collections: seq<CollectionInfo>) returns (ok: bool)
      modifies db`table
      ensures ok ==> db.table == if collections == [] then old(db.table) - {service}
                                 else old(db.table)[service := collections]
      ensures db.table - {service} == old(db.table) - {service}
    {
      ghost var before := db.table;
      ok := db.Delete(service);
      if !ok {
        return;
      }
      for i := 0 to |collections|
        invariant db.table == if i == 0 then before - {service} else before[service := collections[..i]]
      {
        var values := collections[i];
        ok := db.Insert(service, values);
        if !ok {
          return;
        }
        assert collections[..i + 1] == collections[..i] + [values];
      }
      assert collections[..|collections|] == collections;
    }
  }
}
