/**
 What the cutover store keeps and what it stands for (internal/agent/runtime/cutover_store.go).
 The store holds one watermark a slot. It stands for a log: every observation it ever accepted and
 every cancellation it ever recorded for the slot, since the slot was last released.
 */
module CutoverLog {
  import opened Common
  import opened StateFiles

  datatype Watermark = Watermark(deploymentId: string, sequence: uint64, canceled: bool)

  type Entries = map<string, Watermark>

  datatype StoreError = ErrInvalid | ErrFull | ErrConflict | ErrWrite

  datatype Event = Event(deploymentId: string, sequence: uint64, canceled: bool)

  type Log = map<string, seq<Event>>

  function Events(log: Log, slot: string): seq<Event> {
    if slot in log then log[slot] else []
  }

  // ----- The answer the log gives -----

  /** An event after which an execution must not run again. */
  predicate Overrules(e: Event, deploymentId: string, sequence: uint64) {
    || e.sequence > sequence
    || (e.sequence == sequence && (e.deploymentId != deploymentId || e.canceled))
  }

  predicate StaleByLog(log: Log, slot: string, deploymentId: string, sequence: uint64) {
    exists i :: 0 <= i < |Events(log, slot)| && Overrules(Events(log, slot)[i], deploymentId, sequence)
  }

  // ----- The operations on the map -----

  predicate IsOlder(entries: Entries, slot: string, deploymentId: string, sequence: uint64) {
    && slot in entries
    && var w := entries[slot];
      sequence < w.sequence || (sequence == w.sequence && deploymentId != w.deploymentId)
  }

  predicate IsCurrent(entries: Entries, slot: string, sequence: uint64) {
    slot in entries && sequence == entries[slot].sequence
  }

  datatype Attempt = NoWrite | Write(entries: Entries)

  /** `Observe`: the reply if nothing is written, and what it tries to write otherwise. */
  function ObserveAttempt(entries: Entries, slot: string, deploymentId: string, sequence: uint64, maximum: nat)
    : (Result<bool, StoreError>, Attempt)
  {
    if IsOlder(entries, slot, deploymentId, sequence) then (Ok(true), NoWrite)
    else if IsCurrent(entries, slot, sequence) then (Ok(entries[slot].canceled), NoWrite)
    else if slot !in entries && |entries| >= maximum then (Err(ErrFull), NoWrite)
    else (Ok(false), Write(entries[slot := Watermark(deploymentId, sequence, false)]))
  }

  function CancelAttempt(entries: Entries, slot: string, deploymentId: string, sequence: uint64, maximum: nat)
    : (Result<bool, StoreError>, Attempt)
  {
    if IsOlder(entries, slot, deploymentId, sequence) then (Ok(false), NoWrite)
    else if IsCurrent(entries, slot, sequence) && entries[slot].canceled then (Ok(true), NoWrite)
    else if slot !in entries && |entries| >= maximum then (Err(ErrFull), NoWrite)
    else (Ok(true), Write(entries[slot := Watermark(deploymentId, sequence, true)]))
  }

  function ReleaseAttempt(entries: Entries, slot: string, deploymentId: string, sequence: uint64)
    : (Result<bool, StoreError>, Attempt)
  {
    if slot !in entries then (Ok(false), NoWrite)
    else if entries[slot].deploymentId != deploymentId || entries[slot].sequence != sequence then
      (Err(ErrConflict), NoWrite)
    else (Ok(true), Write(entries - {slot}))
  }

  // ----- The store as a whole -----

  datatype Call =
    | Observe(slot: string, deploymentId: string, sequence: uint64)
    | Cancel(slot: string, deploymentId: string, sequence: uint64)
    | Release(slot: string, deploymentId: string, sequence: uint64)

  /**
   Memory, file and log. `surfacing` is the log a restart would reveal: the file may hold the one
   write that replaced it and then failed. A slot whose release failed that way is already gone
   from the file, so what memory accepts for it is not on disk.
   */
  datatype Store = Store(memory: Entries, file: Entries, log: Log, surfacing: Log)

  const FRESH: Store := Store(map[], map[], map[], map[])

  function Tried(entries: Entries, call: Call, maximum: nat): (Result<bool, StoreError>, Attempt) {
    match call
    case Observe(slot, deploymentId, sequence) => ObserveAttempt(entries, slot, deploymentId, sequence, maximum)
    case Cancel(slot, deploymentId, sequence) => CancelAttempt(entries, slot, deploymentId, sequence, maximum)
    case Release(slot, deploymentId, sequence) => ReleaseAttempt(entries, slot, deploymentId, sequence)
  }

  /** What a call adds to the log once it has succeeded with `reply`. */
  function Noted(log: Log, call: Call, reply: Result<bool, StoreError>): Log {
    match call
    case Observe(slot, deploymentId, sequence) =>
      if reply == Ok(false) then log[slot := Events(log, slot) + [Event(deploymentId, sequence, false)]] else log
    case Cancel(slot, deploymentId, sequence) =>
      if reply == Ok(true) then log[slot := Events(log, slot) + [Event(deploymentId, sequence, true)]] else log
    case Release(slot, _, _) => if reply == Ok(true) then log - {slot} else log
  }

  function Replied(s: Store, call: Call, write: WriteOutcome, maximum: nat): Result<bool, StoreError> {
    var (reply, attempt) := Tried(s.memory, call, maximum);
    if attempt.Write? && !write.Stored? then Err(ErrWrite) else reply
  }

  /** The store after a call whose file write, if it makes one, has the given outcome. */
  function Called(s: Store, call: Call, write: WriteOutcome, maximum: nat): Store {
    var (reply, attempt) := Tried(s.memory, call, maximum);
    var noted := Noted(s.log, call, reply);
    match attempt
    case NoWrite =>
      s.(log := noted, surfacing := if call.slot in s.surfacing then Noted(s.surfacing, call, reply) else s.surfacing)
    case Write(entries) =>
      match write
      case Stored => Store(entries, entries, noted, noted)
      case Kept => s
      case ReplacedThenFailed => s.(file := entries, surfacing := noted)
  }

  function Restarted(s: Store): Store {
    Store(s.file, s.file, s.surfacing, s.surfacing)
  }

  // ----- One watermark sums up the slot's whole log -----

  ghost predicate SumsUp(w: Watermark, events: seq<Event>) {
    && (exists i :: 0 <= i < |events| && events[i].sequence == w.sequence)
    && (forall i :: 0 <= i < |events| ==> events[i].sequence <= w.sequence)
    && (forall i :: 0 <= i < |events| && events[i].sequence == w.sequence ==> events[i].deploymentId == w.deploymentId)
    && (w.canceled <==> exists i :: 0 <= i < |events| && events[i].sequence == w.sequence && events[i].canceled)
  }

  ghost predicate Stands(entries: Entries, log: Log) {
    && entries.Keys == log.Keys
    && forall slot :: slot in entries ==> SumsUp(entries[slot], log[slot])
  }

  lemma StaleAgrees(w: Watermark, log: Log, slot: string, deploymentId: string, sequence: uint64)
    requires slot in log && SumsUp(w, log[slot])
    ensures StaleByLog(log, slot, deploymentId, sequence) <==>
      w.sequence > sequence || (w.sequence == sequence && (w.deploymentId != deploymentId || w.canceled))
  {
    var events := log[slot];
    var top :| 0 <= top < |events| && events[top].sequence == w.sequence;
    assert events[top].deploymentId == w.deploymentId;
    if w.sequence > sequence || (w.sequence == sequence && w.deploymentId != deploymentId) {
      assert Overrules(Events(log, slot)[top], deploymentId, sequence);
    } else if w.sequence == sequence && w.canceled {
      var c :| 0 <= c < |events| && events[c].sequence == w.sequence && events[c].canceled;
      assert Overrules(Events(log, slot)[c], deploymentId, sequence);
    }
  }

  /** The event is below the watermark, or of the same execution and no more final. */
  predicate Under(e: Event, w: Watermark) {
    || e.sequence < w.sequence
    || (e.sequence == w.sequence && e.deploymentId == w.deploymentId && (e.canceled ==> w.canceled))
  }

  /** A later event that overrules nothing it should not becomes the new summary. */
  lemma RaisedSumsUp(w: Watermark, events: seq<Event>)
    requires forall i :: 0 <= i < |events| ==> Under(events[i], w)
    ensures SumsUp(w, events + [Event(w.deploymentId, w.sequence, w.canceled)])
  {
    var all := events + [Event(w.deploymentId, w.sequence, w.canceled)];
    assert all[|events|].sequence == w.sequence;
    if w.canceled { assert all[|events|].canceled; }
  }

  /** An event at or below the summary, of the same execution when equal, changes nothing. */
  lemma AbsorbedEvent(w: Watermark, events: seq<Event>, e: Event)
    requires SumsUp(w, events)
    requires Under(e, w)
    ensures SumsUp(w, events + [e])
  {
    var all := events + [e];
    var top :| 0 <= top < |events| && events[top].sequence == w.sequence;
    assert all[top].sequence == w.sequence;
    if w.canceled {
      var c :| 0 <= c < |events| && events[c].sequence == w.sequence && events[c].canceled;
      assert all[c].sequence == w.sequence && all[c].canceled;
    }
  }

  /** A write that passes the checks keeps the map standing for the log it would note. */
  lemma AttemptStands(entries: Entries, log: Log, call: Call, maximum: nat)
    requires Stands(entries, log) && Tried(entries, call, maximum).1.Write?
    ensures Stands(Tried(entries, call, maximum).1.entries, Noted(log, call, Tried(entries, call, maximum).0))
  {
    hide SumsUp;
    if !call.Release? {
      var w := Tried(entries, call, maximum).1.entries[call.slot];
      AttemptRaises(entries, log, call, maximum);
      RaisedSumsUp(w, Events(log, call.slot));
    }
  }

  lemma AttemptRaises(entries: Entries, log: Log, call: Call, maximum: nat)
    requires Stands(entries, log) && Tried(entries, call, maximum).1.Write? && !call.Release?
    ensures call.slot in Tried(entries, call, maximum).1.entries
    ensures var w := Tried(entries, call, maximum).1.entries[call.slot];
      forall i :: 0 <= i < |Events(log, call.slot)| ==> Under(Events(log, call.slot)[i], w)
  {
  }

  // ----- The invariant, over every run -----

  predicate KeepsUp(onFile: Watermark, inMemory: Watermark) {
    || onFile == inMemory
    || onFile.sequence > inMemory.sequence
    || (onFile.sequence == inMemory.sequence && onFile.deploymentId == inMemory.deploymentId && onFile.canceled)
  }

  /** The file is memory plus at most one slot, so a slot it holds is at or above memory's. */
  ghost predicate FileKeepsUp(s: Store) {
    forall slot :: slot in s.memory && slot in s.file ==>
      KeepsUp(s.file[slot], s.memory[slot])
  }

  ghost predicate Inv(s: Store) {
    Stands(s.memory, s.log) && Stands(s.file, s.surfacing) && FileKeepsUp(s)
  }

  lemma NoWriteStands(s: Store, call: Call, maximum: nat)
    requires Inv(s) && Tried(s.memory, call, maximum).1.NoWrite?
    ensures Inv(Called(s, call, Kept, maximum))
  {
    hide SumsUp;
    var (reply, _) := Tried(s.memory, call, maximum);
    if (call.Observe? && reply == Ok(false)) || (call.Cancel? && reply == Ok(true)) {
      var e := Event(call.deploymentId, call.sequence, call.Cancel?);
      AbsorbedEvent(s.memory[call.slot], s.log[call.slot], e);
      if call.slot in s.surfacing {
        AbsorbedEvent(s.file[call.slot], s.surfacing[call.slot], e);
      }
    }
  }

  lemma CallKeepsInv(s: Store, call: Call, write: WriteOutcome, maximum: nat)
    requires Inv(s)
    ensures Inv(Called(s, call, write, maximum))
  {
    hide SumsUp, Noted, StaleByLog, Stands;
    if Tried(s.memory, call, maximum).1.NoWrite? {
      NoWriteStands(s, call, maximum);
    } else {
      AttemptStands(s.memory, s.log, call, maximum);
    }
  }

  lemma RestartKeepsInv(s: Store)
    requires Inv(s)
    ensures Inv(Restarted(s))
  {
    hide Stands;
  }

  /** `Observe` answers exactly as the unbounded log would, whenever it answers at all. */
  lemma ObserveAnswersAsLog(s: Store, slot: string, deploymentId: string, sequence: uint64,
                            write: WriteOutcome, maximum: nat)
    requires Inv(s)
    ensures var reply := Replied(s, Observe(slot, deploymentId, sequence), write, maximum);
      && (reply.Ok? ==> reply.value == StaleByLog(s.log, slot, deploymentId, sequence))
      && (StaleByLog(s.log, slot, deploymentId, sequence) ==> reply == Ok(true))
  {
    hide SumsUp, StaleByLog;
    if slot in s.memory {
      StaleAgrees(s.memory[slot], s.log, slot, deploymentId, sequence);
    } else {
      NothingStale(s.log, slot, deploymentId, sequence);
    }
  }

  lemma NothingStale(log: Log, slot: string, deploymentId: string, sequence: uint64)
    requires slot !in log
    ensures !StaleByLog(log, slot, deploymentId, sequence)
  {
  }

  // ----- When the store answers, told by the log -----

  /** The log holds a sequence at or above this one. */
  predicate Reaches(log: Log, slot: string, sequence: uint64) {
    exists i :: 0 <= i < |Events(log, slot)| && Events(log, slot)[i].sequence >= sequence
  }

  /** It holds a newer execution, or another one of the same sequence. */
  predicate Superseded(log: Log, slot: string, deploymentId: string, sequence: uint64) {
    exists i :: 0 <= i < |Events(log, slot)| && Supersedes(Events(log, slot)[i], deploymentId, sequence)
  }

  predicate Supersedes(e: Event, deploymentId: string, sequence: uint64) {
    e.sequence > sequence || (e.sequence == sequence && e.deploymentId != deploymentId)
  }

  /** A new slot when there are already as many as the store may hold. */
  predicate NoRoom(log: Log, slot: string, maximum: nat) { slot !in log && |log| >= maximum }

  lemma ReachesAgrees(w: Watermark, log: Log, slot: string, deploymentId: string, sequence: uint64)
    requires slot in log && SumsUp(w, log[slot])
    ensures Reaches(log, slot, sequence) <==> w.sequence >= sequence
    ensures Superseded(log, slot, deploymentId, sequence) <==>
      w.sequence > sequence || (w.sequence == sequence && w.deploymentId != deploymentId)
  {
    var events := Events(log, slot);
    var top :| 0 <= top < |events| && events[top].sequence == w.sequence;
    assert Supersedes(events[top], deploymentId, sequence) <==>
      w.sequence > sequence || (w.sequence == sequence && w.deploymentId != deploymentId);
  }

  lemma SameSlots(s: Store)
    requires Inv(s)
    ensures s.memory.Keys == s.log.Keys && |s.memory| == |s.log|
  {
    assert |s.memory| == |s.memory.Keys| && |s.log| == |s.log.Keys|;
  }

  /** What the call adds to the log, if it is answered so. */
  function Appended(log: Log, slot: string, e: Event): Log { log[slot := Events(log, slot) + [e]] }

  /**
   An observation fails only for want of room for a new slot, or when it needs a write that fails; it needs one
   exactly for a sequence above all the slot ever noted. Otherwise it answers as the log does, and notes what it lets
   through.
   */
  lemma ObserveIsAnswered(s: Store, slot: string, deploymentId: string, sequence: uint64,
                          write: WriteOutcome, maximum: nat)
    requires Inv(s)
    ensures var call := Observe(slot, deploymentId, sequence);
      var reply, after := Replied(s, call, write, maximum), Called(s, call, write, maximum);
      && reply == (if NoRoom(s.log, slot, maximum) then Err(ErrFull)
                   else if !Reaches(s.log, slot, sequence) && !write.Stored? then Err(ErrWrite)
                   else Ok(StaleByLog(s.log, slot, deploymentId, sequence)))
      && after.log == if reply == Ok(false) then Appended(s.log, slot, Event(deploymentId, sequence, false)) else s.log
  {
    hide SumsUp, StaleByLog, Reaches;
    SameSlots(s);
    if slot in s.memory {
      StaleAgrees(s.memory[slot], s.log, slot, deploymentId, sequence);
      ReachesAgrees(s.memory[slot], s.log, slot, deploymentId, sequence);
    } else {
      NothingStale(s.log, slot, deploymentId, sequence);
      NothingReached(s.log, slot, deploymentId, sequence);
    }
  }

  lemma NothingReached(log: Log, slot: string, deploymentId: string, sequence: uint64)
    requires slot !in log
    ensures !Reaches(log, slot, sequence) && !Superseded(log, slot, deploymentId, sequence)
  {
  }

  /**
   So does a cancellation, which needs a write unless its execution is stale already; it is noted unless a newer
   execution, or another of its sequence, was there before.
   */
  lemma CancelIsAnswered(s: Store, slot: string, deploymentId: string, sequence: uint64,
                         write: WriteOutcome, maximum: nat)
    requires Inv(s)
    ensures var call := Cancel(slot, deploymentId, sequence);
      var reply, after := Replied(s, call, write, maximum), Called(s, call, write, maximum);
      && reply == (if NoRoom(s.log, slot, maximum) then Err(ErrFull)
                   else if !StaleByLog(s.log, slot, deploymentId, sequence) && !write.Stored? then Err(ErrWrite)
                   else Ok(!Superseded(s.log, slot, deploymentId, sequence)))
      && after.log == if reply == Ok(true) then Appended(s.log, slot, Event(deploymentId, sequence, true)) else s.log
  {
    hide SumsUp, StaleByLog, Superseded;
    SameSlots(s);
    if slot in s.memory {
      StaleAgrees(s.memory[slot], s.log, slot, deploymentId, sequence);
      ReachesAgrees(s.memory[slot], s.log, slot, deploymentId, sequence);
    } else {
      NothingStale(s.log, slot, deploymentId, sequence);
      NothingReached(s.log, slot, deploymentId, sequence);
    }
  }

  /** This execution is the newest of the slot. */
  ghost predicate IsNewest(log: Log, slot: string, deploymentId: string, sequence: uint64) {
    && slot in log && (exists i :: 0 <= i < |log[slot]| && log[slot][i].sequence == sequence)
    && !Superseded(log, slot, deploymentId, sequence)
  }

  /** A release of a slot without a log does nothing, one of its newest execution forgets it, any other is refused. */
  lemma ReleaseIsAnswered(s: Store, slot: string, deploymentId: string, sequence: uint64,
                          write: WriteOutcome, maximum: nat)
    requires Inv(s)
    ensures var call := Release(slot, deploymentId, sequence);
      var reply, after := Replied(s, call, write, maximum), Called(s, call, write, maximum);
      && reply == (if slot !in s.log then Ok(false)
                   else if !IsNewest(s.log, slot, deploymentId, sequence) then Err(ErrConflict)
                   else if !write.Stored? then Err(ErrWrite)
                   else Ok(true))
      && after.log == if reply == Ok(true) then s.log - {slot} else s.log
  {
    hide Superseded, SumsUp, IsNewest;
    SameSlots(s);
    NothingNewest(s.log, slot, deploymentId, sequence);
    if slot in s.memory {
      NewestAgrees(s.memory[slot], s.log, slot, deploymentId, sequence);
    }
  }

  lemma NothingNewest(log: Log, slot: string, deploymentId: string, sequence: uint64)
    ensures slot !in log ==> !IsNewest(log, slot, deploymentId, sequence)
  {
  }

  lemma NewestAgrees(w: Watermark, log: Log, slot: string, deploymentId: string, sequence: uint64)
    requires slot in log && SumsUp(w, log[slot])
    ensures IsNewest(log, slot, deploymentId, sequence) <==>
      w.sequence == sequence && w.deploymentId == deploymentId
  {
    hide Superseded;
    ReachesAgrees(w, log, slot, deploymentId, sequence);
  }

  // ----- Survival -----

  datatype Action = Call(call: Call, write: WriteOutcome) | Restart

  function Acted(s: Store, a: Action, maximum: nat): Store {
    match a
    case Call(call, write) => Called(s, call, write, maximum)
    case Restart => Restarted(s)
  }

  function Ran(s: Store, actions: seq<Action>, maximum: nat): Store
    decreases |actions|
  {
    if actions == [] then s else Ran(Acted(s, actions[0], maximum), actions[1..], maximum)
  }

  predicate ReleasesSlot(a: Action, slot: string) { a.Call? && a.call.Release? && a.call.slot == slot }

  /** Everything the log says of the slot is also what a restart would reveal. */
  ghost predicate OnFile(s: Store, slot: string) {
    forall e :: e in Events(s.log, slot) ==> e in Events(s.surfacing, slot)
  }

  lemma NotedKeepsSlot(log: Log, surfacing: Log, call: Call, reply: Result<bool, StoreError>, slot: string)
    requires forall e :: e in Events(log, slot) ==> e in Events(surfacing, slot)
    requires !(call.Release? && call.slot == slot)
    ensures forall e :: e in Events(log, slot) ==> e in Events(Noted(log, call, reply), slot)
    ensures forall e :: e in Events(Noted(log, call, reply), slot) ==> e in Events(Noted(surfacing, call, reply), slot)
    ensures call.slot != slot ==> Events(Noted(log, call, reply), slot) == Events(log, slot)
  {
  }

  lemma ActionKeepsSlot(s: Store, a: Action, slot: string, maximum: nat)
    requires Inv(s) && OnFile(s, slot) && !ReleasesSlot(a, slot)
    ensures Inv(Acted(s, a, maximum)) && OnFile(Acted(s, a, maximum), slot)
    ensures forall e :: e in Events(s.log, slot) ==> e in Events(Acted(s, a, maximum).log, slot)
  {
    hide SumsUp, Inv, Events, Noted;
    match a
    case Restart => RestartKeepsInv(s);
    case Call(call, write) =>
      CallKeepsInv(s, call, write, maximum);
      NotedKeepsSlot(s.log, s.surfacing, call, Tried(s.memory, call, maximum).0, slot);
      NotedKeepsSlot(s.log, s.log, call, Tried(s.memory, call, maximum).0, slot);
      if Tried(s.memory, call, maximum).1.NoWrite? && call.slot == slot && slot in s.memory {
        AcceptedIsOnFile(s, slot);
      } else if Tried(s.memory, call, maximum).1.NoWrite? && call.slot == slot {
        NothingNoted(s, call, maximum);
      }
  }

  lemma NothingNoted(s: Store, call: Call, maximum: nat)
    requires call.slot !in s.memory && Tried(s.memory, call, maximum).1.NoWrite?
    ensures forall log: Log :: Noted(log, call, Tried(s.memory, call, maximum).0) == log
  {
  }

  lemma AcceptedIsOnFile(s: Store, slot: string)
    requires Inv(s) && OnFile(s, slot) && slot in s.memory
    ensures slot in s.surfacing
  {
    hide StaleByLog;
    var i :| 0 <= i < |s.log[slot]| && s.log[slot][i].sequence == s.memory[slot].sequence;
    assert s.log[slot][i] in Events(s.surfacing, slot);
  }

  /** What a slot's log holds survives any run of calls, failed writes and restarts without a release of the slot. */
  lemma {:induction false} RunKeepsSlot(s: Store, actions: seq<Action>, slot: string, maximum: nat)
    requires Inv(s) && OnFile(s, slot)
    requires forall i :: 0 <= i < |actions| ==> !ReleasesSlot(actions[i], slot)
    ensures Inv(Ran(s, actions, maximum)) && OnFile(Ran(s, actions, maximum), slot)
    ensures forall e :: e in Events(s.log, slot) ==> e in Events(Ran(s, actions, maximum).log, slot)
    decreases |actions|
  {
    hide Inv, OnFile, Acted, ReleasesSlot;
    if actions != [] {
      ActionKeepsSlot(s, actions[0], slot, maximum);
      RunKeepsSlot(Acted(s, actions[0], maximum), actions[1..], slot, maximum);
    }
  }

  /** Once the log overrules an execution, every later observation of it that is answered says so. */
  lemma OverruledStaysOverruled(s: Store, actions: seq<Action>, slot: string, deploymentId: string, sequence: uint64,
                                write: WriteOutcome, maximum: nat)
    requires Inv(s) && OnFile(s, slot)
    requires forall i :: 0 <= i < |actions| ==> !ReleasesSlot(actions[i], slot)
    requires StaleByLog(s.log, slot, deploymentId, sequence)
    ensures Replied(Ran(s, actions, maximum), Observe(slot, deploymentId, sequence), write, maximum) == Ok(true)
  {
    hide Inv, OnFile, Ran, ReleasesSlot, Replied, Events, Overrules;
    var i :| 0 <= i < |Events(s.log, slot)| && Overrules(Events(s.log, slot)[i], deploymentId, sequence);
    var t := Ran(s, actions, maximum);
    RunKeepsSlot(s, actions, slot, maximum);
    assert Events(s.log, slot)[i] in Events(t.log, slot);
    ObserveAnswersAsLog(t, slot, deploymentId, sequence, write, maximum);
  }
}
