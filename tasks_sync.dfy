/*
 * Synchronization of a task list: applying items (the current protocol)
 * and legacy journal entries that carry iCalendar VTODOs to the local
 * task list, which is keyed by file name.
 */
module TasksSync {
  import opened Resources

  /** An item of the current protocol: its UID (the local file name), its
      eTag, its deletion flag and its serialized content. */
  datatype Item = Item(uid: string, etag: string, isDeleted: bool, content: string)

  /** The task list's invariant: every record is a task holding a VTODO. */
  ghost predicate ValidTaskList(records: map<string, Record>)
  {
    forall k :: k in records ==> records[k].kind == Task && records[k].payload.Todo?
  }

  /** The effect of processTask and legacyProcessTask: update the record under
      `key` in place, or add a task there; either way its eTag becomes `eTag`. */
  function Upsert(s: Store, key: string, eTag: string, newData: VTodo): (r: Store)
    ensures key in r.records
    ensures r.records[key].eTag == Some(eTag) && r.records[key].payload == Todo(newData)
    ensures r.records - {key} == s.records - {key}
    // exactly one counter rises, by exactly one: updates for a known key, inserts otherwise
    ensures key in s.records ==>
      r.numUpdates == s.numUpdates + 1 && r.numInserts == s.numInserts &&
      r.records[key].kind == s.records[key].kind
    ensures key !in s.records ==>
      r.numInserts == s.numInserts + 1 && r.numUpdates == s.numUpdates &&
      r.records[key] == Record(Task, Some(eTag), Todo(newData))
  {
    if key in s.records then
      var updated := s.records[key].(eTag := Some(eTag), payload := Todo(newData));
      s.(records := s.records[key := updated], numUpdates := s.numUpdates + 1)
    else
      s.(records := s.records[key := Record(Task, Some(eTag), Todo(newData))], numInserts := s.numInserts + 1)
  }

  /** The effect of processItem on an item whose content decodes to `tasks`. */
  function ApplyItem(s: Store, item: Item, tasks: seq<VTodo>): (r: (Status, Store))
    // items never abort the session
    ensures !r.0.Aborted?
    ensures r.0 == Ignored ==> r.1 == s
    // deletions: the record under the item's UID is gone, nothing else changes, nothing is counted
    ensures item.isDeleted ==>
      r.1.records == s.records - {item.uid} &&
      r.1.numInserts == s.numInserts && r.1.numUpdates == s.numUpdates
    ensures item.isDeleted ==> (r.0 == Applied <==> item.uid in s.records)
    // an undecodable item changes nothing
    ensures !item.isDeleted && tasks == [] ==> r == (Ignored, s)
    // otherwise the first task is stored under the item's UID with the item's eTag
    ensures !item.isDeleted && tasks != [] ==>
      r.0 == Applied && r.1 == Upsert(s, item.uid, item.etag, tasks[0])
  {
    var local := Lookup(s.records, item.uid);
    if !item.isDeleted then
      if |tasks| == 0 then
        (Ignored, s)
      else
        (Applied, Upsert(s, item.uid, item.etag, tasks[0]))
    else if local.Some? then
      (Applied, s.(records := s.records - {item.uid}))
    else
      // deleting a record that does not exist: a warning only
      (Ignored, s)
  }

  /** The effect of processSyncEntryImpl (the legacy protocol) on an entry
      whose content decodes to `tasks`. */
  function ApplyLegacyEntry(s: Store, action: Action, tasks: seq<VTodo>): (r: (Status, Store))
    ensures r.0 != Applied ==> r.1 == s
    ensures tasks == [] ==> r == (Ignored, s)
    // the first task's UID is asserted non-null
    ensures r.0.Aborted? <==> tasks != [] && tasks[0].uid.None?
    // ADD and CHANGE store the first task under its UID, with its UID as eTag
    ensures tasks != [] && tasks[0].uid.Some? && !action.Delete? ==>
      r.0 == Applied && r.1 == Upsert(s, tasks[0].uid.value, tasks[0].uid.value, tasks[0])
    // DELETE removes the record for that UID if there is one, and counts nothing
    ensures tasks != [] && tasks[0].uid.Some? && action.Delete? ==>
      r.1.records == s.records - {tasks[0].uid.value} &&
      (r.0 == Applied <==> tasks[0].uid.value in s.records)
    ensures action.Delete? ==> r.1.numInserts == s.numInserts && r.1.numUpdates == s.numUpdates
  {
    if |tasks| == 0 then
      (Ignored, s)
    else
      var event := tasks[0];
      if event.uid.None? then
        (Aborted(MissingUid), s)
      else
        var uid := event.uid.value;
        var local := Lookup(s.records, uid);
        if action.Add? || action.Change? then
          (Applied, Upsert(s, uid, uid, event))
        else if local.Some? then
          (Applied, s.(records := s.records - {uid}))
        else
          // deleting a record that does not exist: a warning only
          (Ignored, s)
  }

  /** Replaying items in order. Items never abort, so the whole list is applied. */
  function ReplayItems(s: Store, items: seq<Item>, decode: string -> seq<VTodo>): (r: Store)
    ensures r.numInserts >= s.numInserts && r.numUpdates >= s.numUpdates
    decreases |items|
  {
    if items == [] then s
    else ReplayItems(ApplyItem(s, items[0], decode(items[0].content)).1, items[1..], decode)
  }

  /** Replaying legacy entries in order until one aborts. */
  function ReplayLegacy(s: Store, entries: seq<SyncEntry>, decode: string -> seq<VTodo>): (r: (Status, Store))
    ensures r.0 != Ignored
    ensures r.1.numInserts >= s.numInserts && r.1.numUpdates >= s.numUpdates
    decreases |entries|
  {
    if entries == [] then
      (Applied, s)
    else
      var step := ApplyLegacyEntry(s, entries[0].action, decode(entries[0].content));
      if step.0.Aborted? then step else ReplayLegacy(step.1, entries[1..], decode)
  }

  /** Items that count a write: not deleted and decoding to at least one task. */
  function CountedItems(items: seq<Item>, decode: string -> seq<VTodo>): nat
  {
    if items == [] then 0
    else (if !items[0].isDeleted && decode(items[0].content) != [] then 1 else 0)
         + CountedItems(items[1..], decode)
  }

  /** Legacy entries that count a write: ADD or CHANGE decoding to at least one task. */
  function CountedEntries(entries: seq<SyncEntry>, decode: string -> seq<VTodo>): nat
  {
    if entries == [] then 0
    else (if !entries[0].action.Delete? && decode(entries[0].content) != [] then 1 else 0)
         + CountedEntries(entries[1..], decode)
  }

  /** Each non-deleted, decodable item counts exactly one write; nothing else counts. */
  lemma {:induction false} ReplayItemsCountsWrites(s: Store, items: seq<Item>, decode: string -> seq<VTodo>)
    ensures Writes(ReplayItems(s, items, decode)) == Writes(s) + CountedItems(items, decode)
    decreases |items|
  {
    if items != [] {
      ReplayItemsCountsWrites(ApplyItem(s, items[0], decode(items[0].content)).1, items[1..], decode);
    }
  }

  /** A legacy replay that runs to the end counts exactly one write per ADD
      or CHANGE entry that carries a task. */
  lemma {:induction false} ReplayLegacyCountsWrites(s: Store, entries: seq<SyncEntry>, decode: string -> seq<VTodo>)
    requires ReplayLegacy(s, entries, decode).0 == Applied
    ensures Writes(ReplayLegacy(s, entries, decode).1) == Writes(s) + CountedEntries(entries, decode)
    decreases |entries|
  {
    if entries != [] {
      var step := ApplyLegacyEntry(s, entries[0].action, decode(entries[0].content));
      ReplayLegacyCountsWrites(step.1, entries[1..], decode);
    }
  }

  lemma ApplyItemPreservesValid(s: Store, item: Item, tasks: seq<VTodo>)
    requires ValidTaskList(s.records)
    ensures ValidTaskList(ApplyItem(s, item, tasks).1.records)
  {
  }

  lemma ApplyLegacyEntryPreservesValid(s: Store, action: Action, tasks: seq<VTodo>)
    requires ValidTaskList(s.records)
    ensures ValidTaskList(ApplyLegacyEntry(s, action, tasks).1.records)
  {
  }

  /** Replaying items keeps every record a task. */
  lemma {:induction false} ReplayItemsPreservesValid(s: Store, items: seq<Item>, decode: string -> seq<VTodo>)
    requires ValidTaskList(s.records)
    ensures ValidTaskList(ReplayItems(s, items, decode).records)
    decreases |items|
  {
    if items != [] {
      ApplyItemPreservesValid(s, items[0], decode(items[0].content));
      ReplayItemsPreservesValid(ApplyItem(s, items[0], decode(items[0].content)).1, items[1..], decode);
    }
  }

  /** Replaying legacy entries keeps every record a task. */
  lemma {:induction false} ReplayLegacyPreservesValid(s: Store, entries: seq<SyncEntry>, decode: string -> seq<VTodo>)
    requires ValidTaskList(s.records)
    ensures ValidTaskList(ReplayLegacy(s, entries, decode).1.records)
    decreases |entries|
  {
    if entries != [] {
      var step := ApplyLegacyEntry(s, entries[0].action, decode(entries[0].content));
      ApplyLegacyEntryPreservesValid(s, entries[0].action, decode(entries[0].content));
      if !step.0.Aborted? {
        ReplayLegacyPreservesValid(step.1, entries[1..], decode);
      }
    }
  }

  /** The last item for a UID decides its record: after replaying any items
      followed by a deletion of that UID, no record is left for it. */
  lemma {:induction false} DeletedItemLast(s: Store, items: seq<Item>, del: Item, decode: string -> seq<VTodo>)
    requires del.isDeleted
    ensures del.uid !in ReplayItems(s, items + [del], decode).records
    decreases |items|
  {
    if items == [] {
      assert [del][1..] == [];
    } else {
      assert (items + [del])[1..] == items[1..] + [del];
      DeletedItemLast(ApplyItem(s, items[0], decode(items[0].content)).1, items[1..], del, decode);
    }
  }

  /** Replaying legacy entries `a + b` replays `a` and then, unless `a`
      aborted, replays `b` from the store `a` left behind. */
  lemma {:induction false} ReplayLegacySplit(s: Store, a: seq<SyncEntry>, b: seq<SyncEntry>, decode: string -> seq<VTodo>)
    ensures ReplayLegacy(s, a + b, decode) ==
      (var ra := ReplayLegacy(s, a, decode); if ra.0.Aborted? then ra else ReplayLegacy(ra.1, b, decode))
    decreases |a|
  {
    if a == [] {
      assert a + b == b;
    } else {
      assert (a + b)[0] == a[0];
      assert (a + b)[1..] == a[1..] + b;
      var step := ApplyLegacyEntry(s, a[0].action, decode(a[0].content));
      if !step.0.Aborted? {
        ReplayLegacySplit(step.1, a[1..], b, decode);
      }
    }
  }

  /** A legacy entry whose first task has no UID aborts the replay where it
      stands: the writes of the entries before it stay applied, and the
      entries after it are skipped. */
  lemma LegacyAbortKeepsEarlierWrites(s: Store, before: seq<SyncEntry>, bad: SyncEntry, after: seq<SyncEntry>,
                                      decode: string -> seq<VTodo>)
    requires ReplayLegacy(s, before, decode).0 == Applied
    requires decode(bad.content) != [] && decode(bad.content)[0].uid.None?
    ensures ReplayLegacy(s, before + [bad] + after, decode)
         == (Aborted(MissingUid), ReplayLegacy(s, before, decode).1)
  {
    assert before + [bad] + after == before + ([bad] + after);
    ReplayLegacySplit(s, before, [bad] + after, decode);
    assert ([bad] + after)[0] == bad;
  }

  /** The last legacy entry for a UID decides its record: after a completed
      replay, a final ADD or CHANGE leaves its first task under the task's UID,
      tagged with that UID. */
  lemma LegacyLastWriteDecides(s: Store, before: seq<SyncEntry>, e: SyncEntry, decode: string -> seq<VTodo>)
    requires ReplayLegacy(s, before, decode).0 == Applied
    requires !e.action.Delete? && decode(e.content) != [] && decode(e.content)[0].uid.Some?
    ensures ReplayLegacy(s, before + [e], decode).0 == Applied
    ensures decode(e.content)[0].uid.value in ReplayLegacy(s, before + [e], decode).1.records
    ensures ReplayLegacy(s, before + [e], decode).1.records[decode(e.content)[0].uid.value].eTag
         == decode(e.content)[0].uid
    ensures ReplayLegacy(s, before + [e], decode).1.records[decode(e.content)[0].uid.value].payload
         == Todo(decode(e.content)[0])
  {
    ReplayLegacySplit(s, before, [e], decode);
    assert [e][1..] == [];
  }

  /** The last item for a UID decides its record: a final item that is not
      deleted and decodes to a task leaves that task, with the item's eTag,
      under the item's UID. */
  lemma {:induction false} LiveItemLast(s: Store, items: seq<Item>, last: Item, decode: string -> seq<VTodo>)
    requires !last.isDeleted && decode(last.content) != []
    ensures last.uid in ReplayItems(s, items + [last], decode).records
    ensures ReplayItems(s, items + [last], decode).records[last.uid].eTag == Some(last.etag)
    ensures ReplayItems(s, items + [last], decode).records[last.uid].payload == Todo(decode(last.content)[0])
    decreases |items|
  {
    if items == [] {
      assert [last][1..] == [];
    } else {
      assert (items + [last])[1..] == items[1..] + [last];
      LiveItemLast(ApplyItem(s, items[0], decode(items[0].content)).1, items[1..], last, decode);
    }
  }

  /** Legacy ADD then DELETE of the same UID leaves no record for it. */
  lemma LegacyAddThenDelete(s: Store, add: SyncEntry, del: SyncEntry, decode: string -> seq<VTodo>, t: VTodo, u: VTodo)
    requires t.uid.Some? && u.uid == t.uid
    requires add.action.Add? && decode(add.content) == [t]
    requires del.action.Delete? && decode(del.content) == [u]
    ensures ReplayLegacy(s, [add, del], decode).0 == Applied
    ensures t.uid.value !in ReplayLegacy(s, [add, del], decode).1.records
  {
    var s1 := Upsert(s, t.uid.value, t.uid.value, t);
    assert [add, del][1..] == [del];
    assert ReplayLegacy(s, [add, del], decode) == ReplayLegacy(s1, [del], decode);
    var s2 := s1.(records := s1.records - {t.uid.value});
    assert ApplyLegacyEntry(s1, del.action, [u]) == (Applied, s2);
    assert [del][1..] == [];
    assert ReplayLegacy(s1, [del], decode) == ReplayLegacy(s2, [], decode);
  }

  /** Legacy ADD then CHANGE of a UID the list does not hold: one insert,
      one update, and one record keyed and tagged by the UID, holding the second task. */
  lemma LegacyAddThenChange(s: Store, add: SyncEntry, change: SyncEntry, decode: string -> seq<VTodo>, t: VTodo, u: VTodo)
    requires t.uid.Some? && u.uid == t.uid && t.uid.value !in s.records
    requires add.action.Add? && decode(add.content) == [t]
    requires change.action.Change? && decode(change.content) == [u]
    ensures ReplayLegacy(s, [add, change], decode).0 == Applied
    ensures ReplayLegacy(s, [add, change], decode).1.numInserts == s.numInserts + 1
    ensures ReplayLegacy(s, [add, change], decode).1.numUpdates == s.numUpdates + 1
    ensures ReplayLegacy(s, [add, change], decode).1.records
         == s.records[t.uid.value := Record(Task, t.uid, Todo(u))]
  {
    var s1 := Upsert(s, t.uid.value, t.uid.value, t);
    assert [add, change][1..] == [change];
    assert ReplayLegacy(s, [add, change], decode) == ReplayLegacy(s1, [change], decode);
    var s2 := Upsert(s1, t.uid.value, t.uid.value, u);
    assert ApplyLegacyEntry(s1, change.action, [u]) == (Applied, s2);
    assert [change][1..] == [];
    assert ReplayLegacy(s1, [change], decode) == ReplayLegacy(s2, [], decode);
  }

  /** Applying the same ADD twice to a list without the UID leaves one record:
      the first inserts, the second updates. */
  lemma LegacyAddTwice(s: Store, add: SyncEntry, decode: string -> seq<VTodo>, t: VTodo)
    requires t.uid.Some? && t.uid.value !in s.records
    requires add.action.Add? && decode(add.content) == [t]
    ensures ReplayLegacy(s, [add, add], decode).0 == Applied
    ensures ReplayLegacy(s, [add, add], decode).1.numInserts == s.numInserts + 1
    ensures ReplayLegacy(s, [add, add], decode).1.numUpdates == s.numUpdates + 1
    ensures ReplayLegacy(s, [add, add], decode).1.records
         == s.records[t.uid.value := Record(Task, t.uid, Todo(t))]
  {
    var s1 := Upsert(s, t.uid.value, t.uid.value, t);
    assert [add, add][1..] == [add];
    assert ReplayLegacy(s, [add, add], decode) == ReplayLegacy(s1, [add], decode);
    var s2 := Upsert(s1, t.uid.value, t.uid.value, t);
    assert [add][1..] == [];
    assert ReplayLegacy(s1, [add], decode) == ReplayLegacy(s2, [], decode);
  }

  /** Order matters: DELETE, CHANGE, ADD of a UID the list does not hold ends
      with a record for it (the DELETE is a no-op), whereas ADD, CHANGE,
      DELETE ends without one. */
  lemma LegacyReversedOrder(s: Store, add: SyncEntry, change: SyncEntry, del: SyncEntry,
                            decode: string -> seq<VTodo>, t: VTodo)
    requires t.uid.Some? && t.uid.value !in s.records
    requires add.action.Add? && change.action.Change? && del.action.Delete?
    requires decode(add.content) == [t] && decode(change.content) == [t] && decode(del.content) == [t]
    ensures ReplayLegacy(s, [del, change, add], decode).0 == Applied
    ensures t.uid.value in ReplayLegacy(s, [del, change, add], decode).1.records
    ensures ReplayLegacy(s, [add, change, del], decode).0 == Applied
    ensures t.uid.value !in ReplayLegacy(s, [add, change, del], decode).1.records
  {
    var uid := t.uid.value;
    // reversed: the DELETE is ignored, then CHANGE inserts and ADD updates
    assert ApplyLegacyEntry(s, del.action, [t]) == (Ignored, s);
    var r1 := Upsert(s, uid, uid, t);
    var r2 := Upsert(r1, uid, uid, t);
    assert [del, change, add][1..] == [change, add];
    assert [change, add][1..] == [add];
    assert [add][1..] == [];
    assert ReplayLegacy(s, [del, change, add], decode) == ReplayLegacy(s, [change, add], decode);
    assert ReplayLegacy(s, [change, add], decode) == ReplayLegacy(r1, [add], decode);
    assert ReplayLegacy(r1, [add], decode) == ReplayLegacy(r2, [], decode);
    // forward: ADD inserts, CHANGE updates, DELETE removes
    var s1 := Upsert(s, uid, uid, t);
    assert [add, change, del][1..] == [change, del];
    assert ReplayLegacy(s, [add, change, del], decode) == ReplayLegacy(s1, [change, del], decode);
    var s2 := Upsert(s1, uid, uid, t);
    var s3 := s2.(records := s2.records - {uid});
    assert [change, del][1..] == [del];
    assert [del][1..] == [];
    assert ReplayLegacy(s1, [change, del], decode) == ReplayLegacy(s2, [del], decode);
    assert ApplyLegacyEntry(s2, del.action, [t]) == (Applied, s3);
    assert ReplayLegacy(s2, [del], decode) == ReplayLegacy(s3, [], decode);
  }

  /**
   * The tasks sync manager of one session: the bound local task list
   * (records by file name) and the session statistics.
   */
  class TasksSyncManager {
    var records: map<string, Record>
    var numInserts: nat
    var numUpdates: nat

    ghost function State(): Store
      reads this
    {
      Store(records, numInserts, numUpdates)
    }

    ghost predicate Valid()
      reads this
    {
      ValidTaskList(records)
    }

    constructor (records: map<string, Record>)
      requires ValidTaskList(records)
      ensures Valid() && State() == Store(records, 0, 0)
    {
      this.records := records;
      numInserts, numUpdates := 0, 0;
    }

    /** processItem: look the record up by file name, then delete it or
        decode the item and write its first task. */
    method ProcessItem(item: Item, decode: string -> seq<VTodo>) returns (status: Status)
      requires Valid()
      modifies this
      ensures Valid()
      ensures (status, State()) == ApplyItem(old(State()), item, decode(item.content))
    {
      ApplyItemPreservesValid(State(), item, decode(item.content));
      var local := Lookup(records, item.uid);
      if !item.isDeleted {
        var tasks := decode(item.content);
        if |tasks| == 0 {
          // item without data
          return Ignored;
        }
        var task := tasks[0];
        var _ := ProcessTask(item, task, local);
        status := Applied;
      } else {
        if local.Some? {
          records := records - {item.uid};
          status := Applied;
        } else {
          // tried deleting a non-existent record
          status := Ignored;
        }
      }
    }

    /** processSyncEntryImpl: decode the legacy entry, look the record up by
        the first task's UID, and dispatch on the action. */
    method ProcessSyncEntryImpl(entry: SyncEntry, decode: string -> seq<VTodo>) returns (status: Status)
      requires Valid()
      modifies this
      ensures Valid()
      ensures (status, State()) == ApplyLegacyEntry(old(State()), entry.action, decode(entry.content))
    {
      ApplyLegacyEntryPreservesValid(State(), entry.action, decode(entry.content));
      var tasks := decode(entry.content);
      if |tasks| == 0 {
        return Ignored;
      }
      var event := tasks[0];
      if event.uid.None? {
        // event.uid!! throws
        return Aborted(MissingUid);
      }
      var uid := event.uid.value;
      var local := Lookup(records, uid);
      if entry.action.Add? || entry.action.Change? {
        var _ := LegacyProcessTask(event, uid, local);
        status := Applied;
      } else {
        if local.Some? {
          records := records - {uid};
          status := Applied;
        } else {
          status := Ignored;
        }
      }
    }

    /** processTask: update the existing record or add one, with the item's eTag. */
    method ProcessTask(item: Item, newData: VTodo, localTask0: Option<Record>) returns (result: Record)
      requires localTask0 == Lookup(records, item.uid)
      modifies this
      ensures State() == Upsert(old(State()), item.uid, item.etag, newData)
      ensures result == records[item.uid]
    {
      var localTask := localTask0;
      if localTask.Some? {
        var updated := localTask.value.(eTag := Some(item.etag), payload := Todo(newData));
        records := records[item.uid := updated];
        numUpdates := numUpdates + 1;
        result := updated;
      } else {
        var added := Record(Task, Some(item.etag), Todo(newData));
        records := records[item.uid := added];
        numInserts := numInserts + 1;
        result := added;
      }
    }

    /** legacyProcessTask: update the existing record or add one; the task's
        UID serves as file name and eTag. */
    method LegacyProcessTask(newData: VTodo, uid: Uid, localTask0: Option<Record>) returns (result: Record)
      requires newData.uid == Some(uid)
      requires localTask0 == Lookup(records, uid)
      modifies this
      ensures State() == Upsert(old(State()), uid, uid, newData)
      ensures result == records[uid]
    {
      var localTask := localTask0;
      if localTask.Some? {
        var updated := localTask.value.(eTag := Some(uid), payload := Todo(newData));
        records := records[uid := updated];
        numUpdates := numUpdates + 1;
        result := updated;
      } else {
        var added := Record(Task, Some(uid), Todo(newData));
        records := records[uid := added];
        numInserts := numInserts + 1;
        result := added;
      }
    }
  }
}
