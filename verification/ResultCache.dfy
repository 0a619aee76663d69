/**
 `FileResultCache` (internal/agent/runtime/result_cache.go): a map and an insertion order kept side
 by side, the oldest entry evicted when the order grows too long, and both restored when the file
 write fails. The cache stands for the last `maximum` entries of the history of stored results.
 */
module ResultCache {
  import opened AgentCommands
  import opened CommandFingerprint
  import opened CommandResults
  import opened Common
  import opened Encoding
  import opened IngressProtocol
  import opened StateFiles

  const VERSION := 2
  const MAX_FILE_BYTES := 4 * 1024 * 1024
  const MAX_ENTRIES := 4096

  datatype CacheEntry = CacheEntry(fingerprint: string, kind: CommandKind, result: CommandResult)

  datatype Record = Record(id: string, entry: CacheEntry)

  type History = seq<Record>

  datatype CacheError = NotDurable | CommandRefused | ResultRefused | WriteFailed

  // ----- What is kept of a history -----

  function Window(h: History, maximum: nat): (w: History)
    ensures |w| == if |h| <= maximum then |h| else maximum
    ensures forall i :: 0 <= i < |w| ==> w[i] == h[|h| - |w| + i]
  {
    if |h| <= maximum then h else h[|h| - maximum..]
  }

  ghost predicate DistinctIds(w: History) {
    forall i, j :: 0 <= i < j < |w| ==> w[i].id != w[j].id
  }

  /** The map and the order list hold exactly `w`. */
  ghost predicate Represents(entries: map<string, CacheEntry>, order: seq<string>, w: History) {
    && DistinctIds(w) && |order| == |w|
    && (forall i :: 0 <= i < |w| ==> order[i] == w[i].id && w[i].id in entries && entries[w[i].id] == w[i].entry)
    && (forall id :: id in entries ==> id in order)
  }

  /** What `Store` lets in. */
  ghost predicate Proper(s: Record) {
    && s.id == s.entry.result.commandId && DurableResult(s.entry.kind) && ValidShape(s.entry.result, s.entry.kind)
  }

  ghost predicate ProperHistory(h: History) { forall i :: 0 <= i < |h| ==> Proper(h[i]) }

  /** Inserting an unknown command and evicting the oldest keeps exactly the last `maximum`. */
  lemma WindowSlides(h: History, s: Record, maximum: nat)
    requires maximum > 0
    ensures Window(h + [s], maximum) ==
      if |h| < maximum then Window(h, maximum) + [s] else Window(h, maximum)[1..] + [s]
  {
  }

  // ----- The document -----

  datatype ResultDocument = ResultDocument(
    commandId: string,
    status: Status,
    errorCode: string,
    runtimeProbe: Option<ProbeStatus>)

  datatype EntryDocument = EntryDocument(kind: CommandKind, fingerprint: string, result: ResultDocument)

  datatype Document = Document(version: nat, entries: seq<EntryDocument>)

  function NewResultDocument(r: CommandResult): ResultDocument {
    ResultDocument(r.commandId, r.status, r.errorCode, r.runtimeProbe)
  }

  function ResultDomain(d: ResultDocument): CommandResult {
    CommandResult(d.commandId, d.status, d.errorCode, d.runtimeProbe, None, None)
  }

  function DocumentOf(s: Record): EntryDocument {
    EntryDocument(s.entry.kind, s.entry.fingerprint, NewResultDocument(s.entry.result))
  }

  function StoredFrom(d: EntryDocument): Record {
    Record(d.result.commandId, CacheEntry(d.fingerprint, d.kind, ResultDomain(d.result)))
  }

  // The length of the JSON text, field by field: nothing in it needs escaping.

  const FINGERPRINT_HEX := 64

  function StatusText(status: Status): string { if status.Succeeded? then "succeeded" else "failed" }

  function ProbeText(status: ProbeStatus): string {
    match status
    case Ready => "ready"
    case Unreachable => "unreachable"
    case Unsupported => "unsupported"
  }

  function ResultLength(d: ResultDocument): nat {
    |"{\"command_id\":\"\",\"status\":\"\"}"| + |d.commandId| + |StatusText(d.status)|
    + (if d.errorCode == "" then 0 else |",\"error_code\":\"\""| + |d.errorCode|)
    + (if d.runtimeProbe.None? then 0
       else |",\"runtime_probe\":{\"status\":\"\"}"| + |ProbeText(d.runtimeProbe.value)|)
  }

  function EntryLength(d: EntryDocument): nat {
    |"{\"kind\":\"\",\"command_fingerprint\":\"\",\"result\":}"| + |KindText(d.kind)| + FINGERPRINT_HEX
    + ResultLength(d.result)
  }

  /** The entries, with a comma after each but the last. */
  function EntriesLength(entries: seq<EntryDocument>): nat {
    if entries == [] then 0
    else EntryLength(entries[0]) + (if |entries| > 1 then 1 else 0) + EntriesLength(entries[1..])
  }

  function DocumentLength(d: Document): nat {
    |"{\"version\":2,\"entries\":[]}"| + EntriesLength(d.entries)
  }

  const LONGEST_ENTRY := 480

  lemma EntryIsShort(s: Record)
    requires Proper(s)
    ensures EntryLength(DocumentOf(s)) <= LONGEST_ENTRY
  {
    assert |KindText(s.entry.kind)| <= 26;
  }

  lemma {:induction false} EntriesAreShort(entries: seq<EntryDocument>)
    requires forall i :: 0 <= i < |entries| ==> EntryLength(entries[i]) <= LONGEST_ENTRY
    ensures EntriesLength(entries) <= |entries| * (LONGEST_ENTRY + 1)
  {
    hide EntryLength;
    if entries != [] {
      EntriesAreShort(entries[1..]);
    }
  }

  /** A file of at most 4096 entries is always one the loader accepts by its size. */
  lemma DocumentFits(d: Document, w: History)
    requires Writes(d, w) && ProperHistory(w) && |w| <= MAX_ENTRIES
    ensures DocumentLength(d) <= MAX_FILE_BYTES
  {
    hide EntryLength, DocumentOf;
    forall i | 0 <= i < |w| ensures EntryLength(d.entries[i]) <= LONGEST_ENTRY { EntryIsShort(w[i]); }
    EntriesAreShort(d.entries);
  }

  ghost predicate Writes(d: Document, w: History) {
    && d.version == VERSION && |d.entries| == |w|
    && forall i :: 0 <= i < |w| ==> d.entries[i] == DocumentOf(w[i])
  }

  /** When `loadVersionTwo` succeeds, within the file's size limit. */
  ghost predicate Loadable(d: Document, maximum: nat) {
    && DocumentLength(d) <= MAX_FILE_BYTES && d.version == VERSION && |d.entries| <= maximum
    && (forall i :: 0 <= i < |d.entries| ==> ValidShape(ResultDomain(d.entries[i].result), d.entries[i].kind))
    && DistinctIds(Read(d))
  }

  ghost function Read(d: Document): (w: History) {
    seq(|d.entries|, i requires 0 <= i < |d.entries| => StoredFrom(d.entries[i]))
  }

  /** Results and eviction order come back from the file as they were. */
  lemma WrittenWindowLoads(d: Document, w: History, maximum: nat)
    requires Writes(d, w) && ProperHistory(w) && DistinctIds(w) && |w| <= maximum <= MAX_ENTRIES
    ensures Loadable(d, maximum) && Read(d) == w
  {
    hide DocumentOf, StoredFrom, ResultDomain, ValidShape, DocumentLength;
    DocumentFits(d, w);
    forall i | 0 <= i < |w|
      ensures Read(d)[i] == w[i] && ValidShape(ResultDomain(d.entries[i].result), d.entries[i].kind)
    {
      ProperEntryLoads(w[i]);
    }
  }

  /** The document drops inventory and ingress payloads; no proper result has one. */
  lemma ProperEntryLoads(s: Record)
    requires Proper(s)
    ensures StoredFrom(DocumentOf(s)) == s && ValidShape(ResultDomain(DocumentOf(s).result), DocumentOf(s).kind)
  {
  }

  // ----- The cache -----

  /** The answer to a lookup, from the window alone. */
  ghost predicate Matches(entry: CacheEntry, command: AgentCommand) {
    entry.kind == command.kind && entry.fingerprint == Sha256(FingerprintBytes(command))
  }

  function Insertion(command: AgentCommand, result: CommandResult): Record {
    Record(command.id, CacheEntry(Sha256(FingerprintBytes(command)), command.kind, result))
  }

  /** What was stored for one durable command matches that command and no other. */
  lemma StoredMatchesExactly(stored: AgentCommand, result: CommandResult, command: AgentCommand)
    requires ValidCommand(stored) && SizedCommand(stored) && ValidCommand(command) && SizedCommand(command)
    requires DurableResult(stored.kind)
    ensures Matches(Insertion(stored, result).entry, command) <==> stored == command
    ensures Insertion(stored, result).id == stored.id && Insertion(stored, result).entry.result == result
  {
    hide ValidDeployment, ValidCutover, ValidInventory, ValidIngressCommand, SizedCommand, FingerprintBytes;
    if stored.kind == command.kind { DurableBytesDetermineCommand(stored, command); }
  }

  class FileResultCache {
    const maximum: nat
    const file: StateFile<Document>
    var entries: map<string, CacheEntry>
    var order: seq<string>
    /** Every result stored so far, and the history the file shows after a restart. */
    ghost var history: History
    ghost var fileHistory: History

    ghost predicate Valid()
      reads this, file
    {
      && 0 < maximum <= MAX_ENTRIES
      && Represents(entries, order, Window(history, maximum)) && ProperHistory(history)
      && Denotes() && ProperHistory(fileHistory)
    }

    ghost predicate Denotes()
      reads this, file
    {
      && DistinctIds(Window(fileHistory, maximum))
      && match file.content
         case None => fileHistory == []
         case Some(document) => Writes(document, Window(fileHistory, maximum))
    }

    constructor (maximum: nat)
      requires 0 < maximum <= MAX_ENTRIES
      ensures Valid() && fresh(file) && this.maximum == maximum && history == [] && fileHistory == []
    {
      this.maximum := maximum;
      file := new StateFile<Document>();
      entries, order, history, fileHistory := map[], [], [], [];
    }

    /** A kept result, nothing, or a refusal because the ID belongs to another command. */
    method Lookup(command: AgentCommand) returns (reply: Result<Option<CommandResult>, CacheError>)
      requires Valid()
      ensures !ValidCommand(command) ==> reply == Err(CommandRefused)
      ensures ValidCommand(command) && !DurableResult(command.kind) ==> reply == Ok(None)
      ensures ValidCommand(command) && DurableResult(command.kind) ==>
        && (reply == Ok(None) <==>
          forall i :: 0 <= i < |Window(history, maximum)| ==> Window(history, maximum)[i].id != command.id)
        && forall i :: 0 <= i < |Window(history, maximum)| && Window(history, maximum)[i].id == command.id ==>
          var entry := Window(history, maximum)[i].entry;
          reply == if Matches(entry, command) then Ok(Some(entry.result)) else Err(CommandRefused)
    {
      hide ValidCommand, FingerprintBytes, Window, ProperHistory, Denotes;
      if !DurableResult(command.kind) {
        var valid := ValidateCommand(command);
        return if valid then Ok(None) else Err(CommandRefused);
      }
      var fingerprint := Fingerprint(command);
      if fingerprint.Err? { return Err(CommandRefused); }
      if command.id !in entries { return Ok(None); }
      var entry := entries[command.id];
      assert command.id in order;
      if entry.kind != command.kind || entry.fingerprint != fingerprint.value { return Err(CommandRefused); }
      return Ok(Some(entry.result));
    }

    method ValidateResult(result: CommandResult, command: AgentCommand) returns (valid: bool)
      ensures valid == ValidResult(result, command)
    {
      hide ValidCommand, ValidShape;
      valid := ValidateCommand(command);
      if !valid || result.commandId != command.id || !ValidShape(result, command.kind) { return false; }
      if result.status.Succeeded? && command.ingress.Some? {
        return result.ingress ==
          Some(IngressResult(command.ingress.value.hostRevision, command.ingress.value.configDigest));
      }
      return true;
    }

    /** Keeps a new result, evicting the oldest; a failed write puts map and order back exactly. */
    method Store(command: AgentCommand, result: CommandResult)
      returns (reply: Result<(), CacheError>, ghost write: WriteOutcome)
      requires Valid()
      modifies this, file
      ensures Valid()
      ensures var w := old(Window(history, maximum));
        var next := old(history) + [Insertion(command, result)];
        if !DurableResult(command.kind) || !ValidResult(result, command) then
          reply.Err? && Unchanged(old(entries), old(order), old(history)) && fileHistory == old(fileHistory)
        else if command.id in old(entries) then
          && Unchanged(old(entries), old(order), old(history)) && fileHistory == old(fileHistory)
          && (reply.Ok? <==> Matches(old(entries)[command.id], command) && old(entries)[command.id].result == result)
        else
          && (write.Stored? ==> history == next)
          && (!write.Stored? ==> Unchanged(old(entries), old(order), old(history)))
          && fileHistory == (if write.Kept? then old(fileHistory) else next)
          && (reply.Ok? <==> write.Stored?)
    {
      hide ValidResult, ValidShape, FingerprintBytes, Window, Writes, DocumentOf;
      write := Kept;
      if !DurableResult(command.kind) { return Err(NotDurable), write; }
      var valid := ValidateResult(result, command);
      if !valid { return Err(ResultRefused), write; }
      ValidResultHasShape(result, command);
      var fingerprint := Fingerprint(command);
      if fingerprint.Err? { return Err(CommandRefused), write; }
      if command.id in entries {
        var entry := entries[command.id];
        EntryIsProper(command.id);
        if entry.kind != command.kind || entry.fingerprint != fingerprint.value { return Err(CommandRefused), write; }
        EquivalentIsEqual(entry.result, result, command.kind);
        if !EquivalentResults(entry.result, result) { return Err(ResultRefused), write; }
        return Ok(()), write;
      }
      reply, write := Insert(command.id, CacheEntry(fingerprint.value, command.kind, result));
    }

    ghost predicate Unchanged(entries: map<string, CacheEntry>, order: seq<string>, history: History)
      reads this
    {
      this.entries == entries && this.order == order && this.history == history
    }

    lemma EntryIsProper(id: string)
      requires Valid() && id in entries
      ensures ValidShape(entries[id].result, entries[id].kind)
    {
      hide ValidShape, Window;
      var i :| 0 <= i < |order| && order[i] == id;
      assert Proper(Window(history, maximum)[i]);
    }

    /** The part of `Store` that writes. */
    method Insert(id: string, entry: CacheEntry) returns (reply: Result<(), CacheError>, ghost write: WriteOutcome)
      requires Valid() && id !in entries && Proper(Record(id, entry))
      modifies this, file
      ensures Valid()
      ensures var next := old(history) + [Record(id, entry)];
        && (write.Stored? ==> history == next)
        && (!write.Stored? ==> Unchanged(old(entries), old(order), old(history)))
        && fileHistory == (if write.Kept? then old(fileHistory) else next)
        && (reply.Ok? <==> write.Stored?)
    {
      hide Window, Writes, DocumentOf, Proper, Represents, DistinctIds;
      ghost var next := history + [Record(id, entry)];
      InsertedWindow(entries, order, history, Record(id, entry), maximum);
      var evicted := Push(id, entry);
      var outcome := PersistLocked(next);
      write := outcome;
      if !outcome.Kept? { fileHistory := next; }
      if !outcome.Stored? {
        Undo(id, evicted, old(entries), old(order));
        return Err(WriteFailed), write;
      }
      history := next;
      return Ok(()), write;
    }

    /** Adds the entry as the newest and evicts the oldest when the order has grown too long. */
    method Push(id: string, entry: CacheEntry) returns (evicted: Option<Record>)
      requires Represents(entries, order, Window(history, maximum)) && id !in entries && maximum > 0
      modifies this`entries, this`order
      ensures |old(order)| < maximum ==>
        evicted == None && entries == old(entries)[id := entry] && order == old(order) + [id]
      ensures |old(order)| >= maximum ==>
        && old(order)[0] in old(entries)
        && evicted == Some(Record(old(order)[0], old(entries)[old(order)[0]]))
        && entries == old(entries)[id := entry] - {(old(order) + [id])[0]} && order == (old(order) + [id])[1..]
    {
      hide Window, Represents;
      OrderMirrorsEntries(entries, order, Window(history, maximum));
      entries := entries[id := entry];
      order := order + [id];
      evicted := None;
      if |order| > maximum {
        evicted := Some(Record(order[0], entries[order[0]]));
        entries := entries - {order[0]};
        order := order[1..];
      }
    }

    /** Takes back `Push`. */
    method Undo(id: string, evicted: Option<Record>, ghost before: map<string, CacheEntry>,
                ghost beforeOrder: seq<string>)
      requires id !in before
      requires evicted.None? ==> id in entries && entries - {id} == before && order == beforeOrder + [id]
      requires evicted.Some? ==>
        && |beforeOrder| > 0 && evicted.value.id == beforeOrder[0] && beforeOrder[0] in before
        && evicted.value.entry == before[beforeOrder[0]]
        && entries - {id} == before - {beforeOrder[0]} && order == (beforeOrder + [id])[1..]
      modifies this`entries, this`order
      ensures entries == before && order == beforeOrder
    {
      entries := entries - {id};
      order := order[..|order| - 1];
      if evicted.Some? {
        entries := entries[evicted.value.id := evicted.value.entry];
        order := [evicted.value.id] + order;
      }
    }

    /** `persistLocked`: the entries in eviction order. */
    method PersistLocked(ghost next: History) returns (write: WriteOutcome)
      requires Represents(entries, order, Window(next, maximum))
      modifies file
      ensures write.Kept? ==> file.content == old(file.content)
      ensures !write.Kept? ==> file.content.Some? && Writes(file.content.value, Window(next, maximum))
    {
      hide Window, DistinctIds;
      var documents: seq<EntryDocument> := [];
      for i := 0 to |order|
        invariant |documents| == i
        invariant forall j :: 0 <= j < i ==> documents[j] == DocumentOf(Record(order[j], entries[order[j]]))
      {
        var entry := entries[order[i]];
        documents := documents + [EntryDocument(entry.kind, entry.fingerprint, NewResultDocument(entry.result))];
      }
      write := file.Replace(Document(VERSION, documents));
    }

    /** `loadVersionTwo`, into an empty cache. */
    method Load() returns (loaded: bool)
      requires entries == map[] && order == []
      modifies this`entries, this`order
      ensures loaded <==> (file.content.Some? ==> Loadable(file.content.value, maximum))
      ensures loaded && file.content.Some? ==> Represents(entries, order, Read(file.content.value))
      ensures loaded && file.content.None? ==> entries == map[] && order == []
    {
      hide ValidShape, DocumentLength, StoredFrom;
      if file.content.None? { return true; }
      var d := file.content.value;
      if DocumentLength(d) > MAX_FILE_BYTES || d.version != VERSION || |d.entries| > maximum { return false; }
      var i := 0;
      while i < |d.entries|
        invariant i <= |d.entries|
        invariant Represents(entries, order, Read(d)[..i])
        invariant forall j :: 0 <= j < i ==> ValidShape(ResultDomain(d.entries[j].result), d.entries[j].kind)
      {
        var stored := StoredFrom(d.entries[i]);
        if !ValidShape(ResultDomain(d.entries[i].result), d.entries[i].kind) { return false; }
        if stored.id in entries {
          Repeated(entries, order, Read(d), i);
          return false;
        }
        Appended(entries, order, Read(d)[..i], stored);
        assert Read(d)[..i + 1] == Read(d)[..i] + [stored];
        entries := entries[stored.id := stored.entry];
        order := order + [stored.id];
        i := i + 1;
      }
      assert Read(d)[..i] == Read(d);
      return true;
    }

    /** The agent stops and starts again: the file always loads, with its results in their eviction order. */
    method Restart() returns (loaded: bool)
      requires Valid()
      modifies this`entries, this`order, this`history
      ensures Valid() && loaded && history == fileHistory == old(fileHistory)
    {
      hide Window, Loadable, Proper;
      if file.content.Some? {
        WindowIsProper(fileHistory, maximum);
        WrittenWindowLoads(file.content.value, Window(fileHistory, maximum), maximum);
      } else {
        EmptyWindow(maximum);
      }
      entries, order := map[], [];
      loaded := Load();
      history := fileHistory;
    }
  }

  lemma EmptyWindow(maximum: nat)
    ensures Represents(map[], [], Window([], maximum))
  {
  }

  lemma WindowIsProper(h: History, maximum: nat)
    requires ProperHistory(h)
    ensures ProperHistory(Window(h, maximum))
  {
  }

  lemma ValidResultHasShape(result: CommandResult, command: AgentCommand)
    requires ValidResult(result, command)
    ensures ValidCommand(command) && result.commandId == command.id && ValidShape(result, command.kind)
  {
  }

  lemma OrderMirrorsEntries(entries: map<string, CacheEntry>, order: seq<string>, w: History)
    requires Represents(entries, order, w)
    ensures |order| == |w| && DistinctIds(w)
    ensures forall id :: id in entries <==> id in order
  {
  }

  lemma Appended(entries: map<string, CacheEntry>, order: seq<string>, w: History, r: Record)
    requires Represents(entries, order, w) && r.id !in entries
    ensures Represents(entries[r.id := r.entry], order + [r.id], w + [r])
  {
    forall known | known in entries[r.id := r.entry] ensures known in order + [r.id] {
      if known != r.id { assert known in order; } else { assert (order + [r.id])[|order|] == known; }
    }
  }

  lemma DroppedFirst(entries: map<string, CacheEntry>, order: seq<string>, w: History)
    requires Represents(entries, order, w) && w != []
    ensures Represents(entries - {order[0]}, order[1..], w[1..])
  {
    forall known | known in entries - {order[0]} ensures known in order[1..] {
      var i :| 0 <= i < |order| && order[i] == known;
      assert order[1..][i - 1] == known;
    }
  }

  /** Inserting, and evicting the oldest when the order has grown too long, gives the next window. */
  lemma InsertedWindow(entries: map<string, CacheEntry>, order: seq<string>, h: History, r: Record, maximum: nat)
    requires 0 < maximum && Represents(entries, order, Window(h, maximum)) && r.id !in entries
    ensures var next := Window(h + [r], maximum);
      && DistinctIds(next)
      && (|order| < maximum ==> Represents(entries[r.id := r.entry], order + [r.id], next))
      && (|order| >= maximum ==>
        |order| == maximum && Represents(entries[r.id := r.entry] - {(order + [r.id])[0]}, (order + [r.id])[1..], next))
  {
    hide Represents, DistinctIds;
    var w := Window(h, maximum);
    WindowSlides(h, r, maximum);
    OrderMirrorsEntries(entries, order, w);
    Appended(entries, order, w, r);
    if |order| >= maximum {
      DroppedFirst(entries[r.id := r.entry], order + [r.id], w + [r]);
      assert (w + [r])[1..] == w[1..] + [r];
      OrderMirrorsEntries(entries[r.id := r.entry] - {(order + [r.id])[0]}, (order + [r.id])[1..], (w + [r])[1..]);
    } else {
      OrderMirrorsEntries(entries[r.id := r.entry], order + [r.id], w + [r]);
    }
  }

  lemma Repeated(entries: map<string, CacheEntry>, order: seq<string>, w: History, i: nat)
    requires i < |w| && Represents(entries, order, w[..i]) && w[i].id in entries
    ensures !DistinctIds(w)
  {
    var j :| 0 <= j < |order| && order[j] == w[i].id;
    assert w[j].id == w[i].id;
  }
}
