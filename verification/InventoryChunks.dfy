/**
 `Split` (internal/shared/runtimeinventory/chunk.go): an inventory is cut greedily into chunks that
 are bounded in items and in the bytes of their JSON text. A resource's own text is opaque; the
 text around it is spelled out, so that lengths are exact.
 */
module InventoryChunks {
  import opened Common
  import opened InventoryLimits
  import opened Text

  datatype Kind = ContainerKind | ImageKind | NetworkKind | VolumeKind

  function KindText(kind: Kind): string {
    match kind
    case ContainerKind => "container"
    case ImageKind => "image"
    case NetworkKind => "network"
    case VolumeKind => "volume"
  }

  /** `valid` is `Resource.Validate() == nil`; `text` is the resource's JSON. */
  datatype Resource = Resource(kind: Kind, runtimeId: string, valid: bool, text: string)

  datatype Chunk = Chunk(index: nat, resources: seq<Resource>)

  datatype SplitError = ErrInvalidResource | ErrInvalidChunk | ErrSnapshotTooLarge

  // ----- Lengths -----

  function Joined(items: seq<Resource>): string {
    if items == [] then ""
    else if |items| == 1 then items[0].text
    else items[0].text + "," + Joined(items[1..])
  }

  /** `json.Marshal(chunk)`. */
  function ChunkText(index: nat, items: seq<Resource>): string {
    "{\"schema_version\":" + Decimal(SCHEMA_VERSION) + ",\"index\":" + Decimal(index)
    + ",\"resources\":[" + Joined(items) + "]}"
  }

  /** `chunkEnvelopeBytes`: the empty chunk's text, less the two brackets that a real chunk still has. */
  function EnvelopeBytes(index: nat): int { |ChunkText(index, [])| - 2 }

  /** The items and the commas between them. */
  function ItemBytes(items: seq<Resource>): nat {
    if items == [] then 0
    else |items[0].text| + (if |items| > 1 then 1 else 0) + ItemBytes(items[1..])
  }

  lemma {:induction false} JoinedLength(items: seq<Resource>)
    ensures |Joined(items)| == ItemBytes(items)
  {
    if |items| > 1 {
      JoinedLength(items[1..]);
    } else if |items| == 1 {
      assert items[1..] == [];
    }
  }

  /** The size `Split` computes falls two bytes short of the text it bounds. */
  lemma TrueSize(index: nat, items: seq<Resource>)
    ensures |ChunkText(index, items)| == EnvelopeBytes(index) + ItemBytes(items) + 2
  {
    hide Decimal;
    JoinedLength(items);
  }

  lemma {:induction false} ItemBytesSnoc(items: seq<Resource>, last: Resource)
    ensures ItemBytes(items + [last]) == ItemBytes(items) + |last.text| + (if items == [] then 0 else 1)
  {
    if items == [] {
      assert [last][1..] == [];
    } else {
      assert (items + [last])[1..] == items[1..] + [last];
      ItemBytesSnoc(items[1..], last);
    }
  }

  lemma {:induction false} PrefixIsSmaller(items: seq<Resource>, n: nat)
    requires n <= |items|
    ensures ItemBytes(items[..n]) <= ItemBytes(items)
  {
    if n > 0 {
      assert items[..n][1..] == items[1..][..n - 1];
      PrefixIsSmaller(items[1..], n - 1);
    }
  }

  lemma {:induction false} SuffixIsSmaller(items: seq<Resource>, n: nat)
    requires n <= |items|
    ensures ItemBytes(items[n..]) <= ItemBytes(items)
  {
    if n > 0 {
      assert items[n..] == items[1..][n - 1..];
      SuffixIsSmaller(items[1..], n - 1);
    }
  }

  // ----- The greedy cut -----

  datatype Bounds = Bounds(bytes: nat, items: nat)

  /** Within the bounds by the true length of the text. */
  predicate Fits(index: nat, items: seq<Resource>, bounds: Bounds) {
    |items| <= bounds.items && |ChunkText(index, items)| <= bounds.bytes
  }

  /** Within the bounds by the size the inner loop computes. */
  predicate SeemsToFit(index: nat, items: seq<Resource>, bounds: Bounds) {
    |items| <= bounds.items && EnvelopeBytes(index) + ItemBytes(items) <= bounds.bytes
  }

  /** Where the chunk that starts at `first` ends: the first item that no longer seems to fit. */
  function CutAfter(resources: seq<Resource>, first: nat, last: nat, index: nat, bounds: Bounds): (cut: nat)
    requires first <= last <= |resources|
    ensures last <= cut <= |resources|
    decreases |resources| - last
  {
    if last < |resources| && SeemsToFit(index, resources[first..last + 1], bounds) then
      CutAfter(resources, first, last + 1, index, bounds)
    else last
  }

  function Greedy(resources: seq<Resource>, first: nat, index: nat, bounds: Bounds): (r: Result<seq<Chunk>, SplitError>)
    requires first <= |resources|
    decreases |resources| - first
  {
    if first == |resources| then Ok([])
    else
      var cut := CutAfter(resources, first, first, index, bounds);
      if cut == first || !Fits(index, resources[first..cut], bounds) || index >= MAX_CHUNKS then
        Err(ErrSnapshotTooLarge)
      else
        var rest := Greedy(resources, cut, index + 1, bounds);
        if rest.Err? then rest else Ok([Chunk(index, resources[first..cut])] + rest.value)
  }

  // ----- What a successful cut is -----

  function Concat(parts: seq<seq<Resource>>): seq<Resource> {
    if parts == [] then [] else parts[0] + Concat(parts[1..])
  }

  function Contents(chunks: seq<Chunk>): seq<seq<Resource>> {
    seq(|chunks|, i requires 0 <= i < |chunks| => chunks[i].resources)
  }

  /** Numbered from `index`, none empty, each within the bounds. */
  ghost predicate WellCut(chunks: seq<Chunk>, index: nat, bounds: Bounds) {
    forall i :: 0 <= i < |chunks| ==>
      chunks[i].index == index + i && chunks[i].resources != [] && Fits(index + i, chunks[i].resources, bounds)
  }

  lemma {:induction false} GreedyIsWellCut(resources: seq<Resource>, first: nat, index: nat, bounds: Bounds)
    requires first <= |resources| && Greedy(resources, first, index, bounds).Ok?
    ensures var chunks := Greedy(resources, first, index, bounds).value;
      WellCut(chunks, index, bounds) && Concat(Contents(chunks)) == resources[first..]
    decreases |resources| - first
  {
    hide Fits, WellCut, Concat, Contents, CutAfter;
    if first < |resources| {
      var cut := CutAfter(resources, first, first, index, bounds);
      GreedyIsWellCut(resources, cut, index + 1, bounds);
      OneMoreChunk(resources, first, cut, index, bounds, Greedy(resources, cut, index + 1, bounds).value);
    } else {
      NoChunks(index, bounds);
    }
  }

  lemma NoChunks(index: nat, bounds: Bounds)
    ensures WellCut([], index, bounds) && Concat(Contents([])) == []
  {
  }

  lemma OneMoreChunk(resources: seq<Resource>, first: nat, cut: nat, index: nat, bounds: Bounds, rest: seq<Chunk>)
    requires first < cut <= |resources| && Fits(index, resources[first..cut], bounds)
    requires WellCut(rest, index + 1, bounds) && Concat(Contents(rest)) == resources[cut..]
    ensures var chunks := [Chunk(index, resources[first..cut])] + rest;
      WellCut(chunks, index, bounds) && Concat(Contents(chunks)) == resources[first..]
  {
    hide Fits;
    var chunks := [Chunk(index, resources[first..cut])] + rest;
    assert Contents(chunks)[0] == resources[first..cut] && Contents(chunks)[1..] == Contents(rest);
    assert resources[first..] == resources[first..cut] + resources[cut..];
    forall i | 0 <= i < |chunks|
      ensures chunks[i].index == index + i && chunks[i].resources != [] && Fits(index + i, chunks[i].resources, bounds)
    {
      if i > 0 { assert chunks[i] == rest[i - 1]; }
    }
  }

  /** An order-preserving partition of `resources` whose parts, numbered from `index`, meet the bounds. */
  ghost predicate Partitions(parts: seq<seq<Resource>>, resources: seq<Resource>, index: nat, bounds: Bounds) {
    && Concat(parts) == resources
    && forall j :: 0 <= j < |parts| ==> Fits(index + j, parts[j], bounds)
  }

  /** The cut reaches every point up to which the items seem to fit. */
  lemma {:induction false} CutReaches(resources: seq<Resource>, first: nat, last: nat, end: nat, index: nat,
                                     bounds: Bounds)
    requires first <= last <= end <= |resources| && SeemsToFit(index, resources[first..end], bounds)
    ensures CutAfter(resources, first, last, index, bounds) >= end
    decreases end - last
  {
    if last < end {
      assert resources[first..end][..last + 1 - first] == resources[first..last + 1];
      PrefixIsSmaller(resources[first..end], last + 1 - first);
      CutReaches(resources, first, last + 1, end, index, bounds);
    }
  }

  /** What fits also seems to fit, and so does every end of it. */
  lemma EndOfFitting(index: nat, part: seq<Resource>, n: nat, bounds: Bounds)
    requires Fits(index, part, bounds) && n <= |part|
    ensures SeemsToFit(index, part[n..], bounds)
  {
    hide ChunkText;
    TrueSize(index, part);
    SuffixIsSmaller(part, n);
  }

  /**
   Greedy stays ahead: from a point at or behind where it starts, no partition within the bounds has
   fewer parts, although the text around the items grows with the index.
   */
  lemma {:induction false} GreedyIsFewest(resources: seq<Resource>, start: nat, first: nat, index: nat, bounds: Bounds,
                                          parts: seq<seq<Resource>>)
    requires start <= first <= |resources| && Greedy(resources, first, index, bounds).Ok?
    requires Partitions(parts, resources[start..], index, bounds)
    ensures |Greedy(resources, first, index, bounds).value| <= |parts|
    decreases |parts|
  {
    hide Fits, SeemsToFit;
    if first < |resources| {
      SomePart(parts, resources[start..], index, bounds);
      var cut := CutAfter(resources, first, first, index, bounds);
      var end := start + |parts[0]|;
      PartitionsOnward(parts, resources, start, index, bounds);
      if end > first {
        EndOfFitting(index, parts[0], first - start, bounds);
        assert parts[0][first - start..] == resources[first..end];
        CutReaches(resources, first, first, end, index, bounds);
      }
      GreedyIsFewest(resources, end, cut, index + 1, bounds, parts[1..]);
    }
  }

  lemma SomePart(parts: seq<seq<Resource>>, resources: seq<Resource>, index: nat, bounds: Bounds)
    requires Partitions(parts, resources, index, bounds) && resources != []
    ensures parts != []
  {
  }

  lemma PartitionsOnward(parts: seq<seq<Resource>>, resources: seq<Resource>, start: nat, index: nat, bounds: Bounds)
    requires start <= |resources| && parts != [] && Partitions(parts, resources[start..], index, bounds)
    ensures start + |parts[0]| <= |resources| && parts[0] == resources[start..start + |parts[0]|]
    ensures Partitions(parts[1..], resources[start + |parts[0]|..], index + 1, bounds)
    ensures Fits(index, parts[0], bounds)
  {
    hide Fits;
    var rest := Concat(parts[1..]);
    var n := |parts[0]|;
    assert parts[0] + rest == resources[start..];
    assert (parts[0] + rest)[..n] == parts[0] && (parts[0] + rest)[n..] == rest;
    assert resources[start..][..n] == resources[start..start + n] && resources[start..][n..] == resources[start + n..];
    forall j | 0 <= j < |parts[1..]| ensures Fits(index + 1 + j, parts[1..][j], bounds) {
      assert parts[1..][j] == parts[j + 1] && Fits(index + (j + 1), parts[j + 1], bounds);
    }
  }

  /** Some greedy cut seemed to fit and did not. */
  predicate Overshoots(resources: seq<Resource>, first: nat, index: nat, bounds: Bounds)
    requires first <= |resources|
    decreases |resources| - first
  {
    && first < |resources|
    && var cut := CutAfter(resources, first, first, index, bounds);
      cut > first && (!Fits(index, resources[first..cut], bounds) || Overshoots(resources, cut, index + 1, bounds))
  }

  /**
   When the resources can be partitioned within the bounds at all, the greedy cut succeeds exactly when none of its
   cuts overshoots.
   */
  lemma {:induction false} SplittableIsSplitUnlessOvershot(resources: seq<Resource>, start: nat, first: nat, index: nat,
                                                           bounds: Bounds, parts: seq<seq<Resource>>)
    requires start <= first <= |resources| && index + |parts| <= MAX_CHUNKS
    requires Partitions(parts, resources[start..], index, bounds)
    ensures Greedy(resources, first, index, bounds).Ok? <==> !Overshoots(resources, first, index, bounds)
    decreases |parts|
  {
    hide Fits, SeemsToFit;
    if first < |resources| {
      SomePart(parts, resources[start..], index, bounds);
      var end := start + |parts[0]|;
      PartitionsOnward(parts, resources, start, index, bounds);
      if end > first {
        EndOfFitting(index, parts[0], first - start, bounds);
        assert parts[0][first - start..] == resources[first..end];
        CutReaches(resources, first, first, end, index, bounds);
        var cut := CutAfter(resources, first, first, index, bounds);
        SplittableIsSplitUnlessOvershot(resources, end, cut, index + 1, bounds, parts[1..]);
      }
      FirstSeemsToFit(resources, start, first, index, index, bounds, parts);
      CutReaches(resources, first, first, first + 1, index, bounds);
      var cut := CutAfter(resources, first, first, index, bounds);
      SplittableIsSplitUnlessOvershot(resources, end, cut, index + 1, bounds, parts[1..]);
    }
  }

  lemma {:induction false} DecimalGrows(m: nat, n: nat)
    requires m <= n
    ensures |Decimal(m)| <= |Decimal(n)|
  {
    if n >= 10 && m >= 10 {
      DecimalGrows(m / 10, n / 10);
    }
  }

  /** What a later part holds also seems to fit, alone, at an earlier index. */
  lemma {:induction false} FirstSeemsToFit(resources: seq<Resource>, start: nat, first: nat, at: nat, index: nat,
                                           bounds: Bounds, parts: seq<seq<Resource>>)
    requires start <= first < |resources| && at <= index
    requires Partitions(parts, resources[start..], index, bounds)
    ensures SeemsToFit(at, resources[first..first + 1], bounds)
    decreases |parts|
  {
    hide Fits, Partitions, ItemBytes;
    SomePart(parts, resources[start..], index, bounds);
    PartitionsOnward(parts, resources, start, index, bounds);
    var end := start + |parts[0]|;
    if end <= first {
      FirstSeemsToFit(resources, end, first, at, index + 1, bounds, parts[1..]);
    } else {
      var part := parts[0][first - start..];
      EndOfFitting(index, parts[0], first - start, bounds);
      PrefixIsSmaller(part, 1);
      assert part[..1] == resources[first..first + 1];
      DecimalGrows(at, index);
      EnvelopeGrows(at, index);
    }
  }

  lemma EnvelopeGrows(at: nat, index: nat)
    requires |Decimal(at)| <= |Decimal(index)|
    ensures EnvelopeBytes(at) <= EnvelopeBytes(index)
  {
    hide Decimal;
  }

  /** An overshooting cut is one or two bytes too long: the brackets the envelope leaves out. */
  lemma OvershootIsTwoBytes(resources: seq<Resource>, first: nat, index: nat, bounds: Bounds)
    requires first < |resources| && 0 < bounds.items
    requires var cut := CutAfter(resources, first, first, index, bounds);
      cut > first && !Fits(index, resources[first..cut], bounds)
    ensures var cut := CutAfter(resources, first, first, index, bounds);
      bounds.bytes < |ChunkText(index, resources[first..cut])| <= bounds.bytes + 2
  {
    hide ChunkText;
    CutWithinItems(resources, first, first, index, bounds);
    CutSeemsToFit(resources, first, first, index, bounds);
    TrueSize(index, resources[first..CutAfter(resources, first, first, index, bounds)]);
  }

  lemma {:induction false} CutSeemsToFit(resources: seq<Resource>, first: nat, last: nat, index: nat, bounds: Bounds)
    requires first <= last <= |resources| && (last > first ==> SeemsToFit(index, resources[first..last], bounds))
    ensures var cut := CutAfter(resources, first, last, index, bounds);
      cut > first ==> SeemsToFit(index, resources[first..cut], bounds)
    decreases |resources| - last
  {
    hide SeemsToFit;
    if last < |resources| && SeemsToFit(index, resources[first..last + 1], bounds) {
      CutSeemsToFit(resources, first, last + 1, index, bounds);
    }
  }

  // ----- Screening the resources -----

  function Key(resource: Resource): string { KindText(resource.kind) + "\0" + resource.runtimeId }

  function TotalBytes(resources: seq<Resource>): nat {
    if resources == [] then 0 else TotalBytes(resources[..|resources| - 1]) + |resources[|resources| - 1].text|
  }

  /** The first refusal of the screening loop: an invalid or repeated resource, or too many bytes in all. */
  function Screening(resources: seq<Resource>): Option<SplitError> {
    if resources == [] then None
    else
      var n := |resources| - 1;
      var earlier := Screening(resources[..n]);
      if earlier.Some? then earlier
      else if !resources[n].valid || Key(resources[n]) in Keys(resources[..n], Key) then Some(ErrInvalidResource)
      else if TotalBytes(resources) > MAX_SNAPSHOT_BYTES then Some(ErrSnapshotTooLarge)
      else None
  }

  /** The key tells resources apart exactly by kind and runtime ID. */
  lemma KeyIsInjective(a: Resource, b: Resource)
    ensures Key(a) == Key(b) <==> a.kind == b.kind && a.runtimeId == b.runtimeId
  {
    var m, n := |KindText(a.kind)|, |KindText(b.kind)|;
    if Key(a) == Key(b) {
      assert Key(a)[m] == '\0' && Key(b)[n] == '\0';
      assert KindText(a.kind) == Key(a)[..m] && KindText(b.kind) == Key(b)[..n];
      NoZeroInKind(a.kind);
      NoZeroInKind(b.kind);
      assert m == n;
      assert a.runtimeId == Key(a)[m + 1..] && b.runtimeId == Key(b)[n + 1..];
    }
  }

  lemma NoZeroInKind(kind: Kind)
    ensures forall i :: 0 <= i < |KindText(kind)| ==> KindText(kind)[i] != '\0'
  {
  }

  lemma {:induction false} ScreenedPrefix(resources: seq<Resource>, n: nat)
    requires n <= |resources| && Screening(resources[..n]).Some?
    ensures Screening(resources) == Screening(resources[..n])
    decreases |resources|
  {
    if n < |resources| {
      assert resources[..|resources| - 1][..n] == resources[..n];
      ScreenedPrefix(resources[..|resources| - 1], n);
    } else {
      assert resources[..n] == resources;
    }
  }

  /** What passes the screening is valid and free of duplicates. */
  lemma {:induction false} ScreenedAreDistinct(resources: seq<Resource>)
    requires Screening(resources).None?
    ensures DistinctKeys(resources, Key) && TotalBytes(resources) <= MAX_SNAPSHOT_BYTES
    ensures forall i :: 0 <= i < |resources| ==> resources[i].valid
  {
    hide Key, DistinctKeys;
    if resources != [] {
      var n := |resources| - 1;
      ScreenedAreDistinct(resources[..n]);
      assert forall i :: 0 <= i < n ==> resources[..n][i] == resources[i];
      OneMoreDistinct(resources, n);
    } else {
      assert DistinctKeys(resources, Key) by { NoneAreDistinct(); }
    }
  }

  lemma NoneAreDistinct()
    ensures DistinctKeys<Resource>([], Key)
  {
  }

  lemma OneMoreDistinct(resources: seq<Resource>, n: nat)
    requires |resources| == n + 1 && DistinctKeys(resources[..n], Key)
    requires Key(resources[n]) !in Keys(resources[..n], Key)
    ensures DistinctKeys(resources, Key)
  {
    hide Key;
    forall i, j | 0 <= i < j < |resources| ensures Key(resources[i]) != Key(resources[j]) {
      assert resources[..n][i] == resources[i] && Keys(resources[..n], Key)[i] == Key(resources[i]);
      if j < n { assert Key(resources[..n][i]) != Key(resources[..n][j]); }
    }
  }

  /** A resource that is invalid or repeats the kind and ID of an earlier one. */
  predicate Faulty(resources: seq<Resource>, n: nat)
    requires n < |resources|
  {
    || !resources[n].valid
    || exists i :: 0 <= i < n && SameIdentity(resources[i], resources[n])
  }

  predicate SameIdentity(a: Resource, b: Resource) { a.kind == b.kind && a.runtimeId == b.runtimeId }

  lemma RepeatedKey(resources: seq<Resource>, n: nat)
    requires n < |resources|
    ensures Key(resources[n]) in Keys(resources[..n], Key) <==>
      exists i :: 0 <= i < n && SameIdentity(resources[i], resources[n])
  {
    hide Key;
    var keys := Keys(resources[..n], Key);
    forall i | 0 <= i < n ensures keys[i] == Key(resources[n]) <==> SameIdentity(resources[i], resources[n]) {
      KeyIsInjective(resources[i], resources[n]);
    }
  }

  lemma {:induction false} TotalGrows(resources: seq<Resource>, n: nat)
    requires n <= |resources|
    ensures TotalBytes(resources[..n]) <= TotalBytes(resources)
    decreases |resources|
  {
    if n < |resources| {
      assert resources[..|resources| - 1][..n] == resources[..n];
      TotalGrows(resources[..|resources| - 1], n);
    } else {
      assert resources[..n] == resources;
    }
  }

  /** The screening passes exactly what has no faulty resource and does not exceed the snapshot's bytes. */
  lemma {:induction false} ScreeningMeaning(resources: seq<Resource>)
    ensures Screening(resources).None? <==>
      (forall n :: 0 <= n < |resources| ==> !Faulty(resources, n)) && TotalBytes(resources) <= MAX_SNAPSHOT_BYTES
    decreases |resources|
  {
    hide Key, Faulty;
    if resources != [] {
      var n := |resources| - 1;
      ScreeningMeaning(resources[..n]);
      forall i | 0 <= i < n ensures Faulty(resources[..n], i) <==> Faulty(resources, i) {
        EarlierFault(resources, n, i);
      }
      LastFault(resources);
      TotalGrows(resources, n);
    }
  }

  lemma EarlierFault(resources: seq<Resource>, n: nat, i: nat)
    requires i < n <= |resources|
    ensures Faulty(resources[..n], i) <==> Faulty(resources, i)
  {
    assert forall j :: 0 <= j <= i ==> resources[..n][j] == resources[j];
  }

  lemma LastFault(resources: seq<Resource>)
    requires resources != []
    ensures var n := |resources| - 1;
      Faulty(resources, n) <==> !resources[n].valid || Key(resources[n]) in Keys(resources[..n], Key)
  {
    hide Key;
    RepeatedKey(resources, |resources| - 1);
  }

  /** What it refuses, it refuses for the first resource that is faulty or takes the snapshot beyond its bytes. */
  lemma FirstRefusal(resources: seq<Resource>, n: nat)
    requires n < |resources| && TotalBytes(resources[..n]) <= MAX_SNAPSHOT_BYTES
    requires forall i :: 0 <= i < n ==> !Faulty(resources, i)
    requires Faulty(resources, n) || TotalBytes(resources[..n + 1]) > MAX_SNAPSHOT_BYTES
    ensures Screening(resources) == Some(if Faulty(resources, n) then ErrInvalidResource else ErrSnapshotTooLarge)
  {
    hide Key, Faulty, Screening, TotalBytes, Keys;
    forall i | 0 <= i < n ensures !Faulty(resources[..n], i) { EarlierFault(resources, n, i); }
    ScreeningMeaning(resources[..n]);
    ScreenedNext(resources, n);
    LastFault(resources[..n + 1]);
    EarlierFault(resources, n + 1, n);
    assert resources[..n + 1][..n] == resources[..n];
    ScreenedPrefix(resources, n + 1);
  }

  // ----- Split -----

  function SplitResult(resources: seq<Resource>, maxBytes: int, maxItems: int): Result<seq<Chunk>, SplitError> {
    if |resources| > MAX_RESOURCES then Err(ErrSnapshotTooLarge)
    else if resources == [] then Ok([])
    else if !(0 < maxBytes <= MAX_CHUNK_BYTES && 0 < maxItems <= MAX_RESOURCES_PER_CHUNK) then Err(ErrInvalidChunk)
    else if Screening(resources).Some? then Err(Screening(resources).value)
    else Greedy(resources, 0, 0, Bounds(maxBytes, maxItems))
  }

  /** Some partition within the bounds has no more parts than a snapshot may have chunks. */
  ghost predicate Splittable(resources: seq<Resource>, bounds: Bounds) {
    exists parts :: Partitions(parts, resources, 0, bounds) && |parts| <= MAX_CHUNKS
  }

  lemma {:induction false} GreedyIsBounded(resources: seq<Resource>, first: nat, index: nat, bounds: Bounds)
    requires first <= |resources| && index <= MAX_CHUNKS
    ensures var r := Greedy(resources, first, index, bounds);
      if r.Ok? then index + |r.value| <= MAX_CHUNKS else r == Err(ErrSnapshotTooLarge)
    decreases |resources| - first
  {
    hide Fits, CutAfter;
    if first < |resources| {
      var cut := CutAfter(resources, first, first, index, bounds);
      if cut != first && Fits(index, resources[first..cut], bounds) && index < MAX_CHUNKS {
        GreedyIsBounded(resources, cut, index + 1, bounds);
      }
    }
  }

  lemma ChunksPartition(chunks: seq<Chunk>, resources: seq<Resource>, bounds: Bounds)
    requires WellCut(chunks, 0, bounds) && Concat(Contents(chunks)) == resources
    ensures Partitions(Contents(chunks), resources, 0, bounds)
  {
    hide Fits, Concat;
  }

  /** The greedy cut succeeds exactly on what can be split at all, unless one of its cuts overshoots. */
  lemma GreedyExactly(resources: seq<Resource>, bounds: Bounds)
    ensures Greedy(resources, 0, 0, bounds).Ok? <==>
      Splittable(resources, bounds) && !Overshoots(resources, 0, 0, bounds)
    ensures Greedy(resources, 0, 0, bounds).Err? ==> Greedy(resources, 0, 0, bounds) == Err(ErrSnapshotTooLarge)
  {
    hide Greedy, Overshoots, Partitions, WellCut, Concat;
    GreedyIsBounded(resources, 0, 0, bounds);
    assert resources[0..] == resources;
    if Greedy(resources, 0, 0, bounds).Ok? {
      var chunks := Greedy(resources, 0, 0, bounds).value;
      GreedyIsWellCut(resources, 0, 0, bounds);
      ChunksPartition(chunks, resources, bounds);
      SplittableIsSplitUnlessOvershot(resources, 0, 0, 0, bounds, Contents(chunks));
    } else if Splittable(resources, bounds) {
      var parts :| Partitions(parts, resources, 0, bounds) && |parts| <= MAX_CHUNKS;
      SplittableIsSplitUnlessOvershot(resources, 0, 0, 0, bounds, parts);
    }
  }

  /** What is asked for is a chunk size the protocol allows. */
  predicate ValidBounds(maxBytes: int, maxItems: int) {
    0 < maxBytes <= MAX_CHUNK_BYTES && 0 < maxItems <= MAX_RESOURCES_PER_CHUNK
  }

  /** No resource is faulty, and together they are within the snapshot's bytes. */
  ghost predicate Sound(resources: seq<Resource>) {
    (forall n :: 0 <= n < |resources| ==> !Faulty(resources, n)) && TotalBytes(resources) <= MAX_SNAPSHOT_BYTES
  }

  /** The first resource that is faulty or takes the snapshot beyond its bytes. */
  ghost predicate FirstUnsound(resources: seq<Resource>, n: nat)
    requires n < |resources|
  {
    && TotalBytes(resources[..n]) <= MAX_SNAPSHOT_BYTES && (forall i :: 0 <= i < n ==> !Faulty(resources, i))
    && (Faulty(resources, n) || TotalBytes(resources[..n + 1]) > MAX_SNAPSHOT_BYTES)
  }

  method Split(resources: seq<Resource>, maxBytes: int, maxItems: int) returns (r: Result<seq<Chunk>, SplitError>)
    ensures r == SplitResult(resources, maxBytes, maxItems)
    ensures r.Ok? && resources != [] ==>
      && WellCut(r.value, 0, Bounds(maxBytes, maxItems)) && Concat(Contents(r.value)) == resources
      && forall parts :: Partitions(parts, resources, 0, Bounds(maxBytes, maxItems)) ==> |r.value| <= |parts|
    ensures resources == [] ==> r.Ok? && r.value == []
    ensures |resources| > MAX_RESOURCES ==> r == Err(ErrSnapshotTooLarge)
    ensures 0 < |resources| <= MAX_RESOURCES && !ValidBounds(maxBytes, maxItems) ==> r == Err(ErrInvalidChunk)
    ensures 0 < |resources| <= MAX_RESOURCES && ValidBounds(maxBytes, maxItems) ==>
      var bounds := Bounds(maxBytes, maxItems);
      && (r.Ok? <==> Sound(resources) && Splittable(resources, bounds) && !Overshoots(resources, 0, 0, bounds))
      && (Sound(resources) && r.Err? ==> r.error == ErrSnapshotTooLarge)
      && forall n :: 0 <= n < |resources| && FirstUnsound(resources, n) ==>
        r == Err(if Faulty(resources, n) then ErrInvalidResource else ErrSnapshotTooLarge)
  {
    hide Greedy, Screening, WellCut, Partitions, Faulty, TotalBytes, Overshoots, Splittable;
    if |resources| > MAX_RESOURCES { return Err(ErrSnapshotTooLarge); }
    if resources == [] { return Ok([]); }
    if maxBytes <= 0 || maxBytes > MAX_CHUNK_BYTES || maxItems <= 0 || maxItems > MAX_RESOURCES_PER_CHUNK {
      return Err(ErrInvalidChunk);
    }
    ScreeningMeaning(resources);
    forall n | 0 <= n < |resources| && FirstUnsound(resources, n)
      ensures Screening(resources) == Some(if Faulty(resources, n) then ErrInvalidResource else ErrSnapshotTooLarge)
    {
      FirstRefusal(resources, n);
    }
    var refusal := Screen(resources);
    if refusal.Some? { return Err(refusal.value); }
    GreedyExactly(resources, Bounds(maxBytes, maxItems));
    SuccessMeaning(resources, Bounds(maxBytes, maxItems));
    r := CutAll(resources, Bounds(maxBytes, maxItems));
  }

  /** The outer loop. */
  method CutAll(resources: seq<Resource>, bounds: Bounds) returns (r: Result<seq<Chunk>, SplitError>)
    ensures r == Greedy(resources, 0, 0, bounds)
  {
    hide ChunkText, Fits, EnvelopeBytes, CutAfter;
    var chunks: seq<Chunk> := [];
    var first := 0;
    assert forall rest: seq<Chunk> :: [] + rest == rest;
    while first < |resources|
      invariant first <= |resources| && |chunks| <= MAX_CHUNKS
      invariant Greedy(resources, 0, 0, bounds) == Prepended(chunks, Greedy(resources, first, |chunks|, bounds))
      decreases |resources| - first
    {
      var last := CutChunk(resources, first, |chunks|, bounds);
      if last == first { return Err(ErrSnapshotTooLarge); }
      var chunk := Chunk(|chunks|, resources[first..last]);
      if |ChunkText(chunk.index, chunk.resources)| > bounds.bytes {
        TooLong(chunk.index, chunk.resources, bounds);
        return Err(ErrSnapshotTooLarge);
      }
      CutWithinItems(resources, first, first, |chunks|, bounds);
      ShortEnough(chunk.index, chunk.resources, bounds);
      if |chunks| + 1 <= MAX_CHUNKS { OneMore(chunks, chunk, Greedy(resources, last, |chunks| + 1, bounds)); }
      chunks := chunks + [chunk];
      if |chunks| > MAX_CHUNKS { return Err(ErrSnapshotTooLarge); }
      first := last;
    }
    assert chunks + [] == chunks;
    return Ok(chunks);
  }

  lemma OneMore(chunks: seq<Chunk>, chunk: Chunk, rest: Result<seq<Chunk>, SplitError>)
    ensures Prepended(chunks, Prepended([chunk], rest)) == Prepended(chunks + [chunk], rest)
  {
    if rest.Ok? { assert chunks + ([chunk] + rest.value) == chunks + [chunk] + rest.value; }
  }

  lemma TooLong(index: nat, items: seq<Resource>, bounds: Bounds)
    requires |ChunkText(index, items)| > bounds.bytes
    ensures !Fits(index, items, bounds)
  {
  }

  lemma ShortEnough(index: nat, items: seq<Resource>, bounds: Bounds)
    requires |ChunkText(index, items)| <= bounds.bytes && |items| <= bounds.items
    ensures Fits(index, items, bounds)
  {
  }

  lemma {:induction false} CutWithinItems(resources: seq<Resource>, first: nat, last: nat, index: nat, bounds: Bounds)
    requires first <= last <= |resources| && last - first <= bounds.items
    ensures CutAfter(resources, first, last, index, bounds) - first <= bounds.items
    decreases |resources| - last
  {
    hide ChunkText;
    if last < |resources| && SeemsToFit(index, resources[first..last + 1], bounds) {
      CutWithinItems(resources, first, last + 1, index, bounds);
    }
  }

  function Prepended(chunks: seq<Chunk>, rest: Result<seq<Chunk>, SplitError>): Result<seq<Chunk>, SplitError> {
    if rest.Err? then rest else Ok(chunks + rest.value)
  }

  lemma SuccessMeaning(resources: seq<Resource>, bounds: Bounds)
    ensures Greedy(resources, 0, 0, bounds).Ok? ==>
      var chunks := Greedy(resources, 0, 0, bounds).value;
      && WellCut(chunks, 0, bounds) && Concat(Contents(chunks)) == resources
      && forall parts :: Partitions(parts, resources, 0, bounds) ==> |chunks| <= |parts|
  {
    hide Fits, WellCut, Greedy, Partitions;
    if Greedy(resources, 0, 0, bounds).Ok? {
      GreedyIsWellCut(resources, 0, 0, bounds);
      assert resources[0..] == resources;
      forall parts | Partitions(parts, resources, 0, bounds)
        ensures |Greedy(resources, 0, 0, bounds).value| <= |parts|
      {
        GreedyIsFewest(resources, 0, 0, 0, bounds, parts);
      }
    }
  }

  /** The screening loop. */
  method Screen(resources: seq<Resource>) returns (refusal: Option<SplitError>)
    ensures refusal == Screening(resources)
  {
    hide Screening, TotalBytes, Key;
    var seen: set<string> := {};
    var total := 0;
    NothingScreened(resources);
    var i := 0;
    while i < |resources|
      invariant i <= |resources| && Screening(resources[..i]).None?
      invariant forall key :: key in seen <==> key in Keys(resources[..i], Key)
      invariant total == TotalBytes(resources[..i])
    {
      ScreenedNext(resources, i);
      if !resources[i].valid || Key(resources[i]) in seen {
        ScreenedPrefix(resources, i + 1);
        return Some(ErrInvalidResource);
      }
      seen := seen + {Key(resources[i])};
      total := total + |resources[i].text|;
      if total > MAX_SNAPSHOT_BYTES {
        ScreenedPrefix(resources, i + 1);
        return Some(ErrSnapshotTooLarge);
      }
      i := i + 1;
    }
    assert resources[..i] == resources;
    return None;
  }

  lemma NothingScreened(resources: seq<Resource>)
    ensures Screening(resources[..0]).None? && TotalBytes(resources[..0]) == 0 && Keys(resources[..0], Key) == []
  {
  }

  lemma ScreenedNext(resources: seq<Resource>, i: nat)
    requires i < |resources| && Screening(resources[..i]).None?
    ensures var next := resources[..i + 1];
      && Keys(next, Key) == Keys(resources[..i], Key) + [Key(resources[i])]
      && TotalBytes(next) == TotalBytes(resources[..i]) + |resources[i].text|
      && Screening(next) ==
        if !resources[i].valid || Key(resources[i]) in Keys(resources[..i], Key) then Some(ErrInvalidResource)
        else if TotalBytes(next) > MAX_SNAPSHOT_BYTES then Some(ErrSnapshotTooLarge)
        else None
  {
    hide Key;
    assert resources[..i + 1][..i] == resources[..i];
  }

  /** The inner loops: each candidate end is sized from scratch. */
  method CutChunk(resources: seq<Resource>, first: nat, index: nat, bounds: Bounds) returns (last: nat)
    requires first <= |resources|
    ensures last == CutAfter(resources, first, first, index, bounds)
  {
    hide ChunkText, EnvelopeBytes, ItemBytes;
    last := first;
    while last < |resources| && last - first < bounds.items
      invariant first <= last <= |resources|
      invariant CutAfter(resources, first, first, index, bounds) == CutAfter(resources, first, last, index, bounds)
      decreases |resources| - last
    {
      var size := SizeOf(resources, first, last, index);
      if size > bounds.bytes { break; }
      last := last + 1;
    }
  }

  method SizeOf(resources: seq<Resource>, first: nat, last: nat, index: nat) returns (size: int)
    requires first <= last < |resources|
    ensures size == EnvelopeBytes(index) + ItemBytes(resources[first..last + 1])
  {
    hide EnvelopeBytes, ItemBytes;
    size := EnvelopeBytes(index);
    NoItemBytes(resources, first);
    for item := first to last + 1
      invariant size == EnvelopeBytes(index) + ItemBytes(resources[first..item])
    {
      OneMoreItem(resources, first, item);
      size := size + |resources[item].text|;
      if item > first { size := size + 1; }
    }
  }

  lemma NoItemBytes(resources: seq<Resource>, first: nat)
    requires first <= |resources|
    ensures ItemBytes(resources[first..first]) == 0
  {
  }

  lemma OneMoreItem(resources: seq<Resource>, first: nat, item: nat)
    requires first <= item < |resources|
    ensures ItemBytes(resources[first..item + 1]) ==
      ItemBytes(resources[first..item]) + |resources[item].text| + if item > first then 1 else 0
  {
    hide ItemBytes;
    assert resources[first..item + 1] == resources[first..item] + [resources[item]];
    ItemBytesSnoc(resources[first..item], resources[item]);
  }

  // ----- A splittable inventory that is refused -----

  /**
   Two resources that fit in one chunk each are refused, because together they seem to fit in one and do not:
   the loop keeps the last cut that seemed to fit, and never tries a shorter one.
   */
  lemma SplittableButRefused(a: Resource, b: Resource)
    requires a.valid && b.valid && Key(a) != Key(b) && |a.text| == |b.text| == 100
    ensures var bounds := Bounds(|ChunkText(0, [a, b])| - 1, 2);
      && Partitions([[a], [b]], [a, b], 0, bounds)
      && SplitResult([a, b], bounds.bytes, bounds.items) == Err(ErrSnapshotTooLarge)
  {
    var bounds := Bounds(|ChunkText(0, [a, b])| - 1, 2);
    assert Joined([a]) == a.text && Joined([b]) == b.text;
    assert [a, b][1..] == [b];
    assert Joined([a, b]) == a.text + "," + b.text;
    assert Decimal(0) == "0" && Decimal(1) == "1";
    assert |ChunkText(0, [a, b])| == |ChunkText(0, [a])| + 101;
    assert |ChunkText(1, [b])| == |ChunkText(0, [a])|;
    TwoParts(a, b, bounds);
    PassesScreening(a, b);
    SeeminglyFits(a, b, bounds);
    assert |ChunkText(0, [a, b])| <= 1000;
  }

  lemma TwoParts(a: Resource, b: Resource, bounds: Bounds)
    requires Fits(0, [a], bounds) && Fits(1, [b], bounds)
    ensures Partitions([[a], [b]], [a, b], 0, bounds)
  {
    hide Fits;
    var parts := [[a], [b]];
    assert parts[1..] == [[b]] && parts[1..][1..] == [];
    assert Concat([[b]]) == [b] + Concat([]);
    assert Concat(parts) == [a] + [b];
  }

  lemma PassesScreening(a: Resource, b: Resource)
    requires a.valid && b.valid && Key(a) != Key(b) && |a.text| == |b.text| == 100
    ensures Screening([a, b]).None?
  {
    hide Key;
    assert [a, b][..1] == [a] && [a][..0] == [];
    assert Keys([a], Key) == [Key(a)] && Keys([a][..0], Key) == [];
    assert TotalBytes([]) == 0 && TotalBytes([a]) == 100 && TotalBytes([a, b]) == 200;
    assert Screening([]).None?;
    assert Screening([a]).None?;
  }

  lemma SeeminglyFits(a: Resource, b: Resource, bounds: Bounds)
    requires bounds == Bounds(|ChunkText(0, [a, b])| - 1, 2)
    ensures Greedy([a, b], 0, 0, bounds) == Err(ErrSnapshotTooLarge)
  {
    hide ChunkText;
    TrueSize(0, [a, b]);
    EndOfSeeming(a, b, bounds);
    assert [a, b][0..2] == [a, b];
    CutReaches([a, b], 0, 0, 2, 0, bounds);
  }

  lemma EndOfSeeming(a: Resource, b: Resource, bounds: Bounds)
    requires bounds == Bounds(|ChunkText(0, [a, b])| - 1, 2)
    ensures SeemsToFit(0, [a, b][0..2], bounds)
  {
    hide ChunkText;
    TrueSize(0, [a, b]);
    assert [a, b][0..2] == [a, b];
  }
}
