/**
 `FileCutoverStore` (internal/agent/runtime/cutover_store.go): a map updated in place, one file
 replaced as a whole, and every change rolled back when the write fails. Each method is proved to
 do what CutoverLog.dfy says a call does, failed writes and restarts included.
 */
module CutoverStore {
  import opened Common
  import opened CutoverLog
  import opened Identifiers
  import opened Listing
  import opened StateFiles
  import opened Text

  const VERSION := 1

  type EntryDocument = Entry<Watermark>

  datatype Document = Document(version: nat, entries: seq<EntryDocument>)

  /** `validCutoverEntry`: the one rule for callers and loader alike. */
  predicate ValidCutoverEntry(slot: string, deploymentId: string, sequence: uint64) {
    sequence > 0 && ValidContainerName(slot) && StoredIdentifier(deploymentId)
  }

  predicate ValidEntryDocument(entry: EntryDocument) {
    ValidCutoverEntry(entry.name, entry.value.deploymentId, entry.value.sequence)
  }

  ghost predicate WithinRules(entries: Entries, maximum: nat) {
    && |entries| <= maximum
    && forall slot :: slot in entries ==> ValidEntryDocument(Entry(slot, entries[slot]))
  }

  ghost predicate Denotes(content: Option<Document>, entries: Entries) {
    match content
    case None => entries == map[]
    case Some(document) => document.version == VERSION && Lists(document.entries, entries)
  }

  /** When `load` succeeds. */
  ghost predicate Loadable(document: Document, maximum: nat) {
    && document.version == VERSION && |document.entries| <= maximum
    && (forall i :: 0 <= i < |document.entries| ==> ValidEntryDocument(document.entries[i]))
    && DistinctKeys(document.entries, EntryName)
  }

  /** Whatever a store within its rules writes loads back to the same map. */
  lemma WrittenEntriesLoad(document: Document, entries: Entries, maximum: nat)
    requires WithinRules(entries, maximum) && Denotes(Some(document), entries)
    ensures Loadable(document, maximum) && EntryMap(document.entries) == entries
  {
    hide Lists, ValidEntryDocument, DistinctKeys, EntryMap;
    ListingDenotesItsMap(document.entries, entries);
    RuleOfListing(document.entries, entries, ValidEntryDocument);
  }

  /** The loader accepts exactly documents of its version that repeat no slot and whose map is within the rules. */
  lemma LoadsExactly(document: Document, maximum: nat)
    ensures Loadable(document, maximum) <==>
      && document.version == VERSION && DistinctKeys(document.entries, EntryName)
      && WithinRules(EntryMap(document.entries), maximum)
  {
    hide ValidEntryDocument, DistinctKeys, EntryMap;
    if DistinctKeys(document.entries, EntryName) { RuleOfEntries(document.entries, ValidEntryDocument); }
  }

  lemma WriteStaysWithinRules(entries: Entries, call: Call, maximum: nat)
    requires WithinRules(entries, maximum) && ValidCutoverEntry(call.slot, call.deploymentId, call.sequence)
    ensures var attempt := Tried(entries, call, maximum).1;
      attempt.Write? ==> WithinRules(attempt.entries, maximum)
  {
    hide ValidCutoverEntry, Tried;
    if call.Release? {
      SmallerStaysWithinRules(entries, call.slot, maximum);
    } else {
      AttemptKeepsSize(entries, call, maximum);
    }
    AttemptShape(entries, call, maximum);
  }

  /** A write sets the call's own slot, or, for a release, drops it. */
  lemma AttemptShape(entries: Entries, call: Call, maximum: nat)
    ensures var attempt := Tried(entries, call, maximum).1;
      attempt.Write? ==>
        if call.Release? then attempt.entries == entries - {call.slot}
        else attempt.entries == entries[call.slot := Watermark(call.deploymentId, call.sequence, call.Cancel?)]
  {
  }

  lemma SmallerStaysWithinRules(entries: Entries, slot: string, maximum: nat)
    requires WithinRules(entries, maximum)
    ensures WithinRules(entries - {slot}, maximum)
  {
    hide ValidEntryDocument;
    var smaller := entries - {slot};
    assert smaller.Keys <= entries.Keys;
    SubsetIsSmaller(smaller.Keys, entries.Keys);
    assert |entries| == |entries.Keys| && |smaller| == |smaller.Keys|;
  }

  lemma SubsetIsSmaller(a: set<string>, b: set<string>)
    requires a <= b
    ensures |a| <= |b|
  {
    assert b == a + (b - a);
  }

  lemma AttemptKeepsSize(entries: Entries, call: Call, maximum: nat)
    requires |entries| <= maximum && !call.Release?
    ensures var attempt := Tried(entries, call, maximum).1;
      attempt.Write? ==> |attempt.entries| <= maximum
  {
    var attempt := Tried(entries, call, maximum).1;
    if attempt.Write? {
      assert attempt.entries.Keys == entries.Keys + {call.slot};
      assert |entries| == |entries.Keys| && |attempt.entries| == |attempt.entries.Keys|;
    }
  }

  /** The log holds this execution or a newer one of the slot. */
  predicate Reached(log: Log, slot: string, deploymentId: string, sequence: uint64) {
    exists e :: e in Events(log, slot)
      && (e.sequence > sequence || (e.sequence == sequence && e.deploymentId == deploymentId))
  }

  class FileCutoverStore {
    const maximum: nat
    const file: StateFile<Document>
    var entries: Entries
    /** Memory, file and the logs they stand for. */
    ghost var store: Store

    ghost predicate Valid()
      reads this, file
    {
      && store.memory == entries && Denotes(file.content, store.file)
      && Inv(store) && WithinRules(entries, maximum) && WithinRules(store.file, maximum)
    }

    constructor (maximum: nat)
      ensures Valid() && fresh(file) && this.maximum == maximum && store == FRESH
    {
      this.maximum := maximum;
      file := new StateFile<Document>();
      entries, store := map[], FRESH;
    }

    /** `persistLocked`: lists the entries sorted by name and replaces the file. */
    method PersistLocked() returns (write: WriteOutcome)
      modifies file
      ensures write.Kept? ==> file.content == old(file.content)
      ensures !write.Kept? ==> Denotes(file.content, entries)
    {
      hide Lists;
      var listed := ListEntries(entries);
      write := file.Replace(Document(VERSION, listed));
    }

    /** True when the execution is stale; false once its watermark is durable. */
    method Observe(slot: string, deploymentId: string, sequence: uint64)
      returns (reply: Result<bool, StoreError>, ghost write: WriteOutcome)
      requires Valid()
      modifies this`entries, this`store, file
      ensures Valid()
      ensures !ValidCutoverEntry(slot, deploymentId, sequence) ==> reply == Err(ErrInvalid) && store == old(store)
      ensures ValidCutoverEntry(slot, deploymentId, sequence) ==>
        var call := CutoverLog.Observe(slot, deploymentId, sequence);
        reply == Replied(old(store), call, write, maximum) && store == Called(old(store), call, write, maximum)
      ensures reply.Ok? ==> reply.value == StaleByLog(old(store.log), slot, deploymentId, sequence)
      ensures ValidCutoverEntry(slot, deploymentId, sequence) ==>
        reply == if NoRoom(old(store.log), slot, maximum) then Err(ErrFull)
                 else if !Reaches(old(store.log), slot, sequence) && !write.Stored? then Err(ErrWrite)
                 else Ok(StaleByLog(old(store.log), slot, deploymentId, sequence))
      ensures store.log == if reply == Ok(false) then
        Appended(old(store.log), slot, Event(deploymentId, sequence, false)) else old(store.log)
    {
      hide ValidCutoverEntry, WithinRules, Denotes, Inv, Noted, StaleByLog, Reaches, NoRoom, Appended;
      write := Kept;
      if !ValidCutoverEntry(slot, deploymentId, sequence) { return Err(ErrInvalid), write; }
      ghost var call := CutoverLog.Observe(slot, deploymentId, sequence);
      forall w { ObserveIsAnswered(store, slot, deploymentId, sequence, w, maximum); }
      Prepare(call);
      ObserveAnswersAsLog(store, slot, deploymentId, sequence, Stored, maximum);
      ObserveAnswersAsLog(store, slot, deploymentId, sequence, Kept, maximum);
      if slot in entries {
        var current := entries[slot];
        if sequence < current.sequence || (sequence == current.sequence && deploymentId != current.deploymentId) {
          store := Called(store, call, Kept, maximum);
          return Ok(true), write;
        }
        if sequence == current.sequence {
          store := Called(store, call, Kept, maximum);
          return Ok(current.canceled), write;
        }
      } else if |entries| >= maximum {
        store := Called(store, call, Kept, maximum);
        return Err(ErrFull), write;
      }
      var previous := entries;
      entries := entries[slot := Watermark(deploymentId, sequence, false)];
      var outcome := PersistLocked();
      write := outcome;
      store := Called(store, call, outcome, maximum);
      if !outcome.Stored? {
        entries := if slot in previous then entries[slot := previous[slot]] else entries - {slot};
        assert entries == previous;
        return Err(ErrWrite), write;
      }
      return Ok(false), write;
    }

    /** Durably tombstones the execution; a newer watermark is left alone. */
    method Cancel(slot: string, deploymentId: string, sequence: uint64)
      returns (reply: Result<bool, StoreError>, ghost write: WriteOutcome)
      requires Valid()
      modifies this`entries, this`store, file
      ensures Valid()
      ensures !ValidCutoverEntry(slot, deploymentId, sequence) ==> reply == Err(ErrInvalid) && store == old(store)
      ensures ValidCutoverEntry(slot, deploymentId, sequence) ==>
        var call := CutoverLog.Cancel(slot, deploymentId, sequence);
        reply == Replied(old(store), call, write, maximum) && store == Called(old(store), call, write, maximum)
      ensures reply.Ok? ==> StaleByLog(store.log, slot, deploymentId, sequence)
      ensures ValidCutoverEntry(slot, deploymentId, sequence) ==>
        reply == if NoRoom(old(store.log), slot, maximum) then Err(ErrFull)
                 else if !StaleByLog(old(store.log), slot, deploymentId, sequence) && !write.Stored? then Err(ErrWrite)
                 else Ok(!Superseded(old(store.log), slot, deploymentId, sequence))
      ensures store.log == if reply == Ok(true) then
        Appended(old(store.log), slot, Event(deploymentId, sequence, true)) else old(store.log)
    {
      hide ValidCutoverEntry, WithinRules, Denotes, Inv, Noted, StaleByLog, Superseded, NoRoom, Appended;
      write := Kept;
      if !ValidCutoverEntry(slot, deploymentId, sequence) { return Err(ErrInvalid), write; }
      ghost var call := CutoverLog.Cancel(slot, deploymentId, sequence);
      forall w { CancelIsAnswered(store, slot, deploymentId, sequence, w, maximum); }
      Prepare(call);
      CanceledIsStale(store, slot, deploymentId, sequence, maximum);
      if slot in entries {
        var current := entries[slot];
        if sequence < current.sequence || (sequence == current.sequence && current.deploymentId != deploymentId) {
          store := Called(store, call, Kept, maximum);
          return Ok(false), write;
        }
        if sequence == current.sequence && current.canceled {
          store := Called(store, call, Kept, maximum);
          return Ok(true), write;
        }
      } else if |entries| >= maximum {
        store := Called(store, call, Kept, maximum);
        return Err(ErrFull), write;
      }
      var previous := entries;
      entries := entries[slot := Watermark(deploymentId, sequence, true)];
      var outcome := PersistLocked();
      write := outcome;
      store := Called(store, call, outcome, maximum);
      if !outcome.Stored? {
        entries := if slot in previous then entries[slot := previous[slot]] else entries - {slot};
        assert entries == previous;
        return Err(ErrWrite), write;
      }
      return Ok(true), write;
    }

    /** Forgets exactly the slot's current watermark. */
    method Release(slot: string, deploymentId: string, sequence: uint64)
      returns (reply: Result<bool, StoreError>, ghost write: WriteOutcome)
      requires Valid()
      modifies this`entries, this`store, file
      ensures Valid()
      ensures !ValidCutoverEntry(slot, deploymentId, sequence) ==> reply == Err(ErrInvalid) && store == old(store)
      ensures ValidCutoverEntry(slot, deploymentId, sequence) ==>
        var call := CutoverLog.Release(slot, deploymentId, sequence);
        reply == Replied(old(store), call, write, maximum) && store == Called(old(store), call, write, maximum)
      ensures ValidCutoverEntry(slot, deploymentId, sequence) ==>
        reply == if slot !in old(store.log) then Ok(false)
                 else if !IsNewest(old(store.log), slot, deploymentId, sequence) then Err(ErrConflict)
                 else if !write.Stored? then Err(ErrWrite)
                 else Ok(true)
      ensures store.log == if reply == Ok(true) then old(store.log) - {slot} else old(store.log)
    {
      hide ValidCutoverEntry, WithinRules, Denotes, Inv, Noted, StaleByLog, IsNewest;
      write := Kept;
      if !ValidCutoverEntry(slot, deploymentId, sequence) { return Err(ErrInvalid), write; }
      ghost var call := CutoverLog.Release(slot, deploymentId, sequence);
      forall w { ReleaseIsAnswered(store, slot, deploymentId, sequence, w, maximum); }
      Prepare(call);
      if slot !in entries {
        store := Called(store, call, Kept, maximum);
        return Ok(false), write;
      }
      var current := entries[slot];
      if current.deploymentId != deploymentId || current.sequence != sequence {
        store := Called(store, call, Kept, maximum);
        return Err(ErrConflict), write;
      }
      var previous := entries;
      entries := entries - {slot};
      var outcome := PersistLocked();
      write := outcome;
      store := Called(store, call, outcome, maximum);
      if !outcome.Stored? {
        entries := entries[slot := current];
        assert entries == previous;
        return Err(ErrWrite), write;
      }
      return Ok(true), write;
    }

    /** Succeeds exactly when the log already holds this execution or a newer one; all older ones are then stale. */
    method ProtectsRemoval(slot: string, deploymentId: string, sequence: uint64) returns (reply: Result<(), StoreError>)
      requires Valid()
      ensures reply.Ok? <==>
        && ValidCutoverEntry(slot, deploymentId, sequence)
        && Reached(store.log, slot, deploymentId, sequence)
      ensures reply.Ok? ==> forall id, s: uint64 ::
        s < sequence || (s == sequence && id != deploymentId) ==> StaleByLog(store.log, slot, id, s)
    {
      hide ValidCutoverEntry, WithinRules, Denotes, StaleByLog;
      if !ValidCutoverEntry(slot, deploymentId, sequence) { return Err(ErrInvalid); }
      if slot !in entries { return Err(ErrConflict); }
      ProtectionMeaning(entries[slot], store.log, slot, deploymentId, sequence);
      var current := entries[slot];
      if current.sequence < sequence || (current.sequence == sequence && current.deploymentId != deploymentId) {
        return Err(ErrConflict);
      }
      return Ok(());
    }

    /** `load`, into an empty map. */
    method Load() returns (loaded: bool)
      requires entries == map[]
      modifies this`entries
      ensures loaded <==> (file.content.Some? ==> Loadable(file.content.value, maximum))
      ensures loaded ==> entries == if file.content.Some? then EntryMap(file.content.value.entries) else map[]
    {
      hide ValidEntryDocument, DistinctKeys, EntryMap;
      if file.content.None? { return true; }
      var document := file.content.value;
      if document.version != VERSION || |document.entries| > maximum { return false; }
      var accepted, read := ReadEntries(document.entries, ValidEntryDocument);
      if accepted { entries := read; }
      return accepted;
    }

    /** The agent stops and starts again: its file always loads, and denotes what the log says it does. */
    method Restart() returns (loaded: bool)
      requires Valid()
      modifies this`entries, this`store
      ensures Valid() && loaded && store == Restarted(old(store))
    {
      hide WithinRules, Lists, Loadable, EntryMap;
      RestartKeepsInv(store);
      if file.content.Some? { WrittenEntriesLoad(file.content.value, store.file, maximum); }
      entries := map[];
      loaded := Load();
      store := Restarted(store);
    }

    lemma Prepare(call: Call)
      requires Valid() && ValidCutoverEntry(call.slot, call.deploymentId, call.sequence)
      ensures forall write :: Inv(Called(store, call, write, maximum))
      ensures var attempt := Tried(entries, call, maximum).1;
        attempt.Write? ==> WithinRules(attempt.entries, maximum)
    {
      hide Inv, Called, WithinRules, ValidCutoverEntry, Denotes;
      forall write ensures Inv(Called(store, call, write, maximum)) { CallKeepsInv(store, call, write, maximum); }
      WriteStaysWithinRules(entries, call, maximum);
    }
  }

  /** Cancelling with success leaves the execution stale, whether it wrote or found a newer watermark. */
  lemma CanceledIsStale(s: Store, slot: string, deploymentId: string, sequence: uint64, maximum: nat)
    requires Inv(s)
    ensures forall write ::
      var call := CutoverLog.Cancel(slot, deploymentId, sequence);
      Replied(s, call, write, maximum).Ok? ==>
        StaleByLog(Called(s, call, write, maximum).log, slot, deploymentId, sequence)
  {
    hide SumsUp, StaleByLog, Inv;
    var call := CutoverLog.Cancel(slot, deploymentId, sequence);
    forall write | Replied(s, call, write, maximum).Ok?
      ensures StaleByLog(Called(s, call, write, maximum).log, slot, deploymentId, sequence)
    {
      CallKeepsInv(s, call, write, maximum);
      CanceledSumsUpStale(s, call, write, maximum);
    }
  }

  lemma CanceledSumsUpStale(s: Store, call: Call, write: WriteOutcome, maximum: nat)
    requires call.Cancel? && Inv(Called(s, call, write, maximum)) && Replied(s, call, write, maximum).Ok?
    ensures StaleByLog(Called(s, call, write, maximum).log, call.slot, call.deploymentId, call.sequence)
  {
    hide SumsUp, StaleByLog;
    var t := Called(s, call, write, maximum);
    StaleAgrees(t.memory[call.slot], t.log, call.slot, call.deploymentId, call.sequence);
  }

  lemma ProtectionMeaning(w: Watermark, log: Log, slot: string, deploymentId: string, sequence: uint64)
    requires slot in log && SumsUp(w, log[slot])
    ensures (w.sequence > sequence || (w.sequence == sequence && w.deploymentId == deploymentId)) <==>
      Reached(log, slot, deploymentId, sequence)
    ensures w.sequence > sequence || (w.sequence == sequence && w.deploymentId == deploymentId) ==>
      forall id, s: uint64 :: s < sequence || (s == sequence && id != deploymentId) ==> StaleByLog(log, slot, id, s)
  {
    hide StaleByLog;
    var top :| 0 <= top < |log[slot]| && log[slot][top].sequence == w.sequence;
    assert log[slot][top] in Events(log, slot);
    forall id, s: uint64 ensures StaleByLog(log, slot, id, s) <==>
      w.sequence > s || (w.sequence == s && (w.deploymentId != id || w.canceled)) {
      StaleAgrees(w, log, slot, id, s);
    }
  }
}
