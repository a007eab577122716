/*
 * Synchronization of an address book: replaying journal entries that carry
 * vCards against the local contacts and groups, the upload-only
 * short-circuit of session preparation, and the URL guard of the
 * downloader used for external resources referenced by vCards.
 */
module ContactsSync {
  import opened Resources

  /** The local class a vCard is stored as. */
  function KindOf(card: VCard): (k: Kind)
    ensures k != Task
    ensures k == Group <==> card.group
  {
    if card.group then Group else Contact
  }

  /** The address book's invariant: every record holds a vCard whose UID is
      its key, and the record's class agrees with the card's group flag. */
  ghost predicate ValidAddressBook(records: map<string, Record>)
  {
    forall u :: u in records ==>
      records[u].payload.Card? &&
      records[u].payload.card.uid == u &&
      records[u].kind == KindOf(records[u].payload.card)
  }

  /** The effect of processContact: update in place when the record for the
      card's UID has the card's kind; otherwise drop any record of the other
      kind and create one of the incoming kind. */
  function ApplyContact(s: Store, newData: VCard): (r: Store)
    // the store ends with exactly one record for the UID, of the incoming kind, holding the card
    ensures newData.uid in r.records
    ensures r.records[newData.uid].kind == KindOf(newData)
    ensures r.records[newData.uid].payload == Card(newData)
    // no other record is touched
    ensures r.records - {newData.uid} == s.records - {newData.uid}
    // exactly one counter rises, by exactly one
    ensures Writes(r) == Writes(s) + 1
    // update in place: the eTag becomes the UID
    ensures newData.uid in s.records && s.records[newData.uid].kind == KindOf(newData) ==>
      r.numUpdates == s.numUpdates + 1 && r.records[newData.uid].eTag == Some(newData.uid)
    // creation (no record, or one of the other kind): a fresh record without eTag
    ensures !(newData.uid in s.records && s.records[newData.uid].kind == KindOf(newData)) ==>
      r.numInserts == s.numInserts + 1 && r.records[newData.uid] == Record(KindOf(newData), None, Card(newData))
  {
    var uuid := newData.uid;
    if uuid in s.records && s.records[uuid].kind == KindOf(newData) then
      var updated := s.records[uuid].(eTag := Some(uuid), payload := Card(newData));
      s.(records := s.records[uuid := updated], numUpdates := s.numUpdates + 1)
    else
      // no record, or a group that became an individual contact or vice versa
      var created := Record(KindOf(newData), None, Card(newData));
      s.(records := (s.records - {uuid})[uuid := created], numInserts := s.numInserts + 1)
  }

  /** The effect of processSyncEntry on an entry whose content decodes to `cards`. */
  function ApplyEntry(s: Store, action: Action, cards: seq<VCard>): (r: (Status, Store))
    // an entry without a vCard is ignored and changes nothing
    ensures cards == [] <==> r.0 == Ignored
    ensures r.0 != Applied ==> r.1 == s
    // DELETE of a UID without a local record dereferences null
    ensures r.0.Aborted? <==> cards != [] && action.Delete? && cards[0].uid !in s.records
    // ADD and CHANGE write the first card and count exactly one write
    ensures cards != [] && !action.Delete? ==>
      r.0 == Applied && r.1 == ApplyContact(s, cards[0])
    // DELETE removes the record for the first card's UID and counts nothing
    ensures action.Delete? ==> r.1.numInserts == s.numInserts && r.1.numUpdates == s.numUpdates
    ensures action.Delete? && r.0 == Applied ==> r.1.records == s.records - {cards[0].uid}
  {
    if |cards| == 0 then
      (Ignored, s)
    else
      var contact := cards[0];
      var local := Lookup(s.records, contact.uid);
      if action.Add? || action.Change? then
        (Applied, ApplyContact(s, contact))
      else if local.None? then
        (Aborted(NullLocalRecord(contact.uid)), s)
      else
        (Applied, s.(records := s.records - {contact.uid}))
  }

  /** Replaying a journal's entries in order; the first aborted entry ends
      the replay, and the writes of the entries before it stay applied. */
  function Replay(s: Store, entries: seq<SyncEntry>, decode: string -> seq<VCard>): (r: (Status, Store))
    ensures r.0 != Ignored
    // statistics never decrease
    ensures r.1.numInserts >= s.numInserts && r.1.numUpdates >= s.numUpdates
    decreases |entries|
  {
    if entries == [] then
      (Applied, s)
    else
      var step := ApplyEntry(s, entries[0].action, decode(entries[0].content));
      if step.0.Aborted? then step else Replay(step.1, entries[1..], decode)
  }

  /** The number of entries of a replay that count a write: ADD or CHANGE
      entries that decode to at least one vCard. */
  function CountedWrites(entries: seq<SyncEntry>, decode: string -> seq<VCard>): nat
  {
    if entries == [] then 0
    else (if !entries[0].action.Delete? && decode(entries[0].content) != [] then 1 else 0)
         + CountedWrites(entries[1..], decode)
  }

  lemma ApplyEntryPreservesValid(s: Store, action: Action, cards: seq<VCard>)
    requires ValidAddressBook(s.records)
    ensures ValidAddressBook(ApplyEntry(s, action, cards).1.records)
  {
  }

  /** Replay keeps the address book's invariant. */
  lemma {:induction false} ReplayPreservesValid(s: Store, entries: seq<SyncEntry>, decode: string -> seq<VCard>)
    requires ValidAddressBook(s.records)
    ensures ValidAddressBook(Replay(s, entries, decode).1.records)
    decreases |entries|
  {
    if entries != [] {
      var step := ApplyEntry(s, entries[0].action, decode(entries[0].content));
      ApplyEntryPreservesValid(s, entries[0].action, decode(entries[0].content));
      if !step.0.Aborted? {
        ReplayPreservesValid(step.1, entries[1..], decode);
      }
    }
  }

  /** A replay that runs to the end counts exactly one write per ADD or
      CHANGE entry that carries a vCard, and none for the others. */
  lemma {:induction false} ReplayCountsWrites(s: Store, entries: seq<SyncEntry>, decode: string -> seq<VCard>)
    requires Replay(s, entries, decode).0 == Applied
    ensures Writes(Replay(s, entries, decode).1) == Writes(s) + CountedWrites(entries, decode)
    decreases |entries|
  {
    if entries != [] {
      var step := ApplyEntry(s, entries[0].action, decode(entries[0].content));
      ReplayCountsWrites(step.1, entries[1..], decode);
    }
  }

  /** ADD followed by DELETE of the same UID leaves no record for it. */
  lemma AddThenDelete(s: Store, add: SyncEntry, del: SyncEntry, decode: string -> seq<VCard>, c: VCard, d: VCard)
    requires add.action.Add? && decode(add.content) == [c]
    requires del.action.Delete? && decode(del.content) == [d] && d.uid == c.uid
    ensures Replay(s, [add, del], decode).0 == Applied
    ensures c.uid !in Replay(s, [add, del], decode).1.records
    ensures Replay(s, [add, del], decode).1.records - {c.uid} == s.records - {c.uid}
  {
    var s1 := ApplyContact(s, c);
    assert [add, del][1..] == [del];
    assert Replay(s, [add, del], decode) == Replay(s1, [del], decode);
    var s2 := s1.(records := s1.records - {c.uid});
    assert ApplyEntry(s1, del.action, [d]) == (Applied, s2);
    assert [del][1..] == [];
    assert Replay(s1, [del], decode) == Replay(s2, [], decode);
  }

  /** ADD then CHANGE of a UID unknown to the store (same kind both times)
      inserts once and updates once, leaving one record holding the second card. */
  lemma AddThenChange(s: Store, add: SyncEntry, change: SyncEntry, decode: string -> seq<VCard>, c: VCard, d: VCard)
    requires c.uid !in s.records
    requires add.action.Add? && decode(add.content) == [c]
    requires change.action.Change? && decode(change.content) == [d]
    requires d.uid == c.uid && d.group == c.group
    ensures Replay(s, [add, change], decode).0 == Applied
    ensures Replay(s, [add, change], decode).1.numInserts == s.numInserts + 1
    ensures Replay(s, [add, change], decode).1.numUpdates == s.numUpdates + 1
    ensures Replay(s, [add, change], decode).1.records
         == s.records[c.uid := Record(KindOf(d), Some(c.uid), Card(d))]
  {
    var s1 := ApplyContact(s, c);
    assert [add, change][1..] == [change];
    assert Replay(s, [add, change], decode) == Replay(s1, [change], decode);
  }

  /** A group whose UID now carries an individual contact card (or the
      reverse) is replaced: one insert, no update, and the new record has
      the incoming kind. */
  lemma TypeTransition(s: Store, e: SyncEntry, decode: string -> seq<VCard>, c: VCard)
    requires c.uid in s.records && s.records[c.uid].kind != KindOf(c)
    requires !e.action.Delete? && decode(e.content) == [c]
    ensures Replay(s, [e], decode).0 == Applied
    ensures Replay(s, [e], decode).1.numInserts == s.numInserts + 1
    ensures Replay(s, [e], decode).1.numUpdates == s.numUpdates
    ensures c.uid in Replay(s, [e], decode).1.records
    ensures Replay(s, [e], decode).1.records[c.uid] == Record(KindOf(c), None, Card(c))
  {
  }

  /** Replaying DELETE, CHANGE, ADD of a UID the store does not hold aborts
      at the first entry, since the DELETE dereferences the missing record;
      nothing is written. */
  lemma DeleteFirstAborts(s: Store, del: SyncEntry, rest: seq<SyncEntry>, decode: string -> seq<VCard>, c: VCard)
    requires c.uid !in s.records
    requires del.action.Delete? && decode(del.content) == [c]
    ensures Replay(s, [del] + rest, decode) == (Aborted(NullLocalRecord(c.uid)), s)
  {
  }

  /** Replaying `a + b` replays `a` and then, unless `a` aborted, replays
      `b` from the store `a` left behind. */
  lemma {:induction false} ReplaySplit(s: Store, a: seq<SyncEntry>, b: seq<SyncEntry>, decode: string -> seq<VCard>)
    ensures Replay(s, a + b, decode) ==
      (var ra := Replay(s, a, decode); if ra.0.Aborted? then ra else Replay(ra.1, b, decode))
    decreases |a|
  {
    if a == [] {
      assert a + b == b;
    } else {
      assert (a + b)[0] == a[0];
      assert (a + b)[1..] == a[1..] + b;
      var step := ApplyEntry(s, a[0].action, decode(a[0].content));
      if !step.0.Aborted? {
        ReplaySplit(step.1, a[1..], b, decode);
      }
    }
  }

  /** A DELETE of an unknown UID in the middle of a stream aborts the replay
      there: the writes of the entries before it stay applied, and the
      entries after it are skipped. */
  lemma AbortKeepsEarlierWrites(s: Store, before: seq<SyncEntry>, del: SyncEntry, after: seq<SyncEntry>,
                                decode: string -> seq<VCard>)
    requires Replay(s, before, decode).0 == Applied
    requires del.action.Delete? && decode(del.content) != []
    requires decode(del.content)[0].uid !in Replay(s, before, decode).1.records
    ensures Replay(s, before + [del] + after, decode)
         == (Aborted(NullLocalRecord(decode(del.content)[0].uid)), Replay(s, before, decode).1)
  {
    assert before + [del] + after == before + ([del] + after);
    ReplaySplit(s, before, [del] + after, decode);
    assert ([del] + after)[0] == del;
  }

  /** The last entry for a UID decides its record: after a completed replay,
      a final ADD or CHANGE leaves its first card, with that card's kind,
      under the card's UID. */
  lemma LastWriteDecides(s: Store, before: seq<SyncEntry>, e: SyncEntry, decode: string -> seq<VCard>)
    requires Replay(s, before, decode).0 == Applied
    requires !e.action.Delete? && decode(e.content) != []
    ensures Replay(s, before + [e], decode).0 == Applied
    ensures decode(e.content)[0].uid in Replay(s, before + [e], decode).1.records
    ensures Replay(s, before + [e], decode).1.records[decode(e.content)[0].uid].kind
         == KindOf(decode(e.content)[0])
    ensures Replay(s, before + [e], decode).1.records[decode(e.content)[0].uid].payload
         == Card(decode(e.content)[0])
  {
    ReplaySplit(s, before, [e], decode);
    assert [e][1..] == [];
  }

  /** Only the first decoded card of an entry matters. */
  lemma OnlyFirstCardUsed(s: Store, action: Action, cards: seq<VCard>)
    requires |cards| > 1
    ensures ApplyEntry(s, action, cards) == ApplyEntry(s, action, cards[..1])
  {
  }

  /** A parsed URL: only whether it names a host matters here. */
  datatype HttpUrl = HttpUrl(scheme: string, host: Option<string>, path: string)

  /** The source's session preparation decides to stop early when the sync
      was requested only to upload changes and nothing is really dirty or deleted. */
  predicate UploadOnlyNothingChanged(sdkAtLeastN: bool, uploadOnly: bool, reallyDirty: nat, deleted: nat)
  {
    sdkAtLeastN && uploadOnly && reallyDirty == 0 && deleted == 0
  }

  /**
   * The HTTP client used for external resources: it records every request
   * it sends. `exchange` stands for the network (redirects followed): the
   * body of a successful response, or null on a failure status or I/O error.
   */
  class HttpClient {
    var requests: seq<HttpUrl>
    const exchange: HttpUrl -> Option<seq<bv8>>

    constructor (exchange: HttpUrl -> Option<seq<bv8>>)
      ensures requests == [] && this.exchange == exchange
    {
      requests := [];
      this.exchange := exchange;
    }

    /** Send one GET request for `url`. */
    method Get(url: HttpUrl) returns (body: Option<seq<bv8>>)
      modifies this
      ensures requests == old(requests) + [url]
      ensures body == exchange(url)
    {
      requests := requests + [url];
      body := exchange(url);
    }
  }

  /**
   * ResourceDownloader.download: reject (null) a URL that does not parse or
   * has no host, without sending any request; otherwise send exactly one GET
   * for the parsed URL and return what it yields. `parse` stands for the URL parser.
   */
  method Download(url: string, accepts: string, parse: string -> Option<HttpUrl>, client: HttpClient)
    returns (body: Option<seq<bv8>>)
    modifies client
    ensures parse(url).None? || parse(url).value.host.None? ==>
      body.None? && client.requests == old(client.requests)
    ensures parse(url).Some? && parse(url).value.host.Some? ==>
      client.requests == old(client.requests) + [parse(url).value] &&
      body == client.exchange(parse(url).value)
  {
    var httpUrl := parse(url);
    if httpUrl.None? {
      // invalid external resource URL
      return None;
    }
    var host := httpUrl.value.host;
    if host.None? {
      // no host name: never send a request
      return None;
    }
    body := client.Get(httpUrl.value);
  }

  /**
   * The contacts sync manager of one session: the bound local address book
   * (records keyed by vCard UID), the session statistics, and the URLs
   * bound by `Prepare`.
   */
  class ContactsSyncManager {
    var records: map<string, Record>
    var numInserts: nat
    var numUpdates: nat
    /** URL of the bound local address book, once prepared. */
    var addressBookUrl: Option<string>
    /** Journal the session reads from, once bound. */
    var journalUrl: Option<string>

    ghost function State(): Store
      reads this
    {
      Store(records, numInserts, numUpdates)
    }

    ghost predicate Valid()
      reads this
    {
      ValidAddressBook(records)
    }

    constructor (records: map<string, Record>)
      requires ValidAddressBook(records)
      ensures Valid() && State() == Store(records, 0, 0)
      ensures addressBookUrl.None? && journalUrl.None?
    {
      this.records := records;
      numInserts, numUpdates := 0, 0;
      addressBookUrl, journalUrl := None, None;
    }

    /**
     * prepare: `superPrepared` is the base class's result. The local address
     * book is bound to the collection URL; on Android N and later an
     * upload-only sync with nothing really dirty and nothing deleted stops
     * before the journal is bound. Otherwise the journal is bound to the
     * collection URL.
     */
    method Prepare(superPrepared: bool, collectionUrl: string, sdkAtLeastN: bool,
                   uploadOnly: bool, reallyDirty: nat, deleted: nat) returns (proceed: bool)
      modifies this
      ensures proceed <==> superPrepared && !UploadOnlyNothingChanged(sdkAtLeastN, uploadOnly, reallyDirty, deleted)
      ensures !superPrepared ==> addressBookUrl == old(addressBookUrl)
      ensures superPrepared ==> addressBookUrl == Some(collectionUrl)
      ensures proceed ==> journalUrl == Some(collectionUrl)
      ensures !proceed ==> journalUrl == old(journalUrl)
      ensures State() == old(State())
    {
      if !superPrepared {
        return false;
      }
      addressBookUrl := Some(collectionUrl);
      if sdkAtLeastN {
        if uploadOnly && reallyDirty == 0 && deleted == 0 {
          // called to up-sync dirty or deleted contacts, but none changed
          return false;
        }
      }
      journalUrl := Some(collectionUrl);
      return true;
    }

    /** processSyncEntry: decode the entry, look up the first card's UID and
        dispatch on the action. */
    method ProcessSyncEntry(entry: SyncEntry, decode: string -> seq<VCard>) returns (status: Status)
      requires Valid()
      modifies this`records, this`numInserts, this`numUpdates
      ensures Valid()
      ensures (status, State()) == ApplyEntry(old(State()), entry.action, decode(entry.content))
    {
      ApplyEntryPreservesValid(State(), entry.action, decode(entry.content));
      var contacts := decode(entry.content);
      if |contacts| == 0 {
        // vCard without data
        return Ignored;
      }
      var contact := contacts[0];
      var local := Lookup(records, contact.uid);
      if entry.action == Add || entry.action == Change {
        var _ := ProcessContact(contact, local);
        status := Applied;
      } else {
        if local.None? {
          // local.getId() on a missing record
          return Aborted(NullLocalRecord(contact.uid));
        }
        records := records - {contact.uid};
        status := Applied;
      }
    }

    /** processContact: `local0` is what the store returned for the UID. */
    method ProcessContact(newData: VCard, local0: Option<Record>) returns (result: Record)
      requires local0 == Lookup(records, newData.uid)
      modifies this`records, this`numInserts, this`numUpdates
      ensures State() == ApplyContact(old(State()), newData)
      ensures newData.uid in records && result == records[newData.uid]
    {
      var uuid := newData.uid;
      var local := local0;
      if local.Some? {
        if local.value.kind == Group && newData.group {
          var group := local.value.(eTag := Some(uuid), payload := Card(newData));
          records := records[uuid := group];
          numUpdates := numUpdates + 1;
          local := Some(group);
        } else if local.value.kind == Contact && !newData.group {
          var contact := local.value.(eTag := Some(uuid), payload := Card(newData));
          records := records[uuid := contact];
          numUpdates := numUpdates + 1;
          local := Some(contact);
        } else {
          // a group became an individual contact or vice versa
          records := records - {uuid};
          local := None;
        }
      }
      if local.None? {
        var created := Record(if newData.group then Group else Contact, None, Card(newData));
        records := records[uuid := created];
        local := Some(created);
        numInserts := numInserts + 1;
      }
      result := local.value;
    }
  }
}
