/**
 * The terminal's own policy codec and its edit of a stored blob. Entries are flat records whose `kind`
 * says which fields mean something; unknown kinds can be written but never read.
 */
module PolicyBlob {
  import opened Bytes
  import opened Sequences
  import opened Policy
  import opened PolicyCodec

  datatype FlatEntry = FlatEntry(
    kind: Byte,
    parameter: Byte, size: Byte, isSigned: bool, value: I32,
    groupId: Byte, members: seq<Byte>,
    intervalSeconds: U32, notificationNodeId: Byte)

  /** The record the terminal starts from before it fills in the fields of one kind. */
  const BLANK := FlatEntry(0, 0, 1, false, 0, 0, [], 0, 0)

  predicate KnownKind(f: FlatEntry) {
    f.kind in {KIND_CONFIGURATION, KIND_ASSOCIATION, KIND_WAKEUP}
  }

  /** The daemon's entry that a flat record of a known kind stands for. */
  function View(f: FlatEntry): Entry
    requires KnownKind(f)
  {
    if f.kind == KIND_CONFIGURATION then Configuration(f.parameter, f.size, f.isSigned, f.value)
    else if f.kind == KIND_ASSOCIATION then Association(f.groupId, f.members)
    else WakeUp(f.intervalSeconds, f.notificationNodeId)
  }

  /** The flat record the terminal builds when it reads such an entry. */
  function Flat(e: Entry): (f: FlatEntry)
    ensures KnownKind(f) && View(f) == e
  {
    match e
    case Configuration(parameter, size, isSigned, value) =>
      BLANK.(kind := KIND_CONFIGURATION, parameter := parameter, size := size, isSigned := isSigned, value := value)
    case Association(groupId, members) => BLANK.(kind := KIND_ASSOCIATION, groupId := groupId, members := members)
    case WakeUp(interval, notify) =>
      BLANK.(kind := KIND_WAKEUP, intervalSeconds := interval, notificationNodeId := notify)
  }

  function FlatAll(p: seq<Entry>): seq<FlatEntry> {
    seq(|p|, i requires 0 <= i < |p| => Flat(p[i]))
  }

  lemma {:induction false} FlatAllAppend(p: seq<Entry>, e: Entry)
    ensures FlatAll([]) == [] && FlatAll(p + [e]) == FlatAll(p) + [Flat(e)]
  {}

  predicate SameFlatSlot(lhs: FlatEntry, rhs: FlatEntry)
    ensures KnownKind(lhs) && KnownKind(rhs) ==> (SameFlatSlot(lhs, rhs) <==> SlotOf(View(lhs)) == SlotOf(View(rhs)))
  {
    if lhs.kind != rhs.kind then false
    else if lhs.kind == KIND_CONFIGURATION then lhs.parameter == rhs.parameter
    else if lhs.kind == KIND_ASSOCIATION then lhs.groupId == rhs.groupId
    else true
  }

  function EncodeFlat(f: FlatEntry): seq<Byte> {
    if KnownKind(f) then EncodeEntry(View(f)) else [f.kind]
  }

  function FlatResult(p: Option<seq<Entry>>): Option<seq<FlatEntry>> {
    if p.Some? then Some(FlatAll(p.value)) else None
  }

  /** Reads the record at `start`, filling a blank record field by field. */
  method ReadFlat(bytes: seq<Byte>, start: nat) returns (r: Option<FlatEntry>, pos: nat)
    requires start <= |bytes|
    ensures pos <= |bytes|
    ensures r == match DecodeEntry(bytes[start..]) case None => None case Some(parsed) => Some(Flat(parsed.entry))
    ensures r.Some? ==> bytes[pos..] == DecodeEntry(bytes[start..]).value.rest
  {
    DecodeEntryAtIs(bytes, start);
    pos := start;
    if pos >= |bytes| {
      return None, pos;
    }
    var entry := BLANK.(kind := bytes[pos]);
    pos := pos + 1;
    if entry.kind == KIND_CONFIGURATION {
      if pos + 7 > |bytes| {
        return None, pos;
      }
      entry := entry.(parameter := bytes[pos]);
      entry := entry.(size := bytes[pos + 1]);
      entry := entry.(isSigned := bytes[pos + 2] != 0);
      var raw := ReadU32Be(bytes, pos + 3);
      entry := entry.(value := ToSigned(raw));
      pos := pos + 7;
    } else if entry.kind == KIND_ASSOCIATION {
      if pos + 2 > |bytes| {
        return None, pos;
      }
      entry := entry.(groupId := bytes[pos]);
      var memberCt: int := bytes[pos + 1];
      pos := pos + 2;
      if pos + memberCt > |bytes| {
        return None, pos;
      }
      var members;
      members, pos := ReadMembers(bytes, pos, memberCt);
      entry := entry.(members := members);
    } else if entry.kind == KIND_WAKEUP {
      if pos + 5 > |bytes| {
        return None, pos;
      }
      var interval := ReadU32Be(bytes, pos);
      entry := entry.(intervalSeconds := interval);
      entry := entry.(notificationNodeId := bytes[pos + 4]);
      pos := pos + 5;
    } else {
      return None, pos;
    }
    return Some(entry), pos;
  }

  /** Accepts exactly the blobs the daemon accepts, and reads the same policy from them. */
  method DecodePolicy(bytes: seq<Byte>) returns (r: Option<seq<FlatEntry>>)
    ensures r == FlatResult(Decode(bytes))
  {
    if |bytes| < 2 || bytes[0] != POLICY_BLOB_VERSION {
      return None;
    }
    DecodeFinishes(bytes);
    r := ReadRecords(bytes, 2, bytes[1]);
  }

  /** One turn of the decoder's loop, seen from the remaining bytes. */
  lemma {:induction false} FinishStep(policy: seq<Entry>, s: seq<Byte>, left: nat)
    requires left > 0
    ensures match DecodeEntry(s)
            case None => Finish(policy, s, left) == None
            case Some(parsed) =>
              && Finish(policy, s, left) == Finish(policy + [parsed.entry], parsed.rest, left - 1)
              && FlatAll(policy + [parsed.entry]) == FlatAll(policy) + [Flat(parsed.entry)]
  {
    if DecodeEntry(s).Some? {
      FlatAllAppend(policy, DecodeEntry(s).value.entry);
    }
  }

  /** The records in `out` are the policy read so far, and the rest of the result comes from `pos` on. */
  ghost predicate Reading(goal: Option<seq<Entry>>, bytes: seq<Byte>, pos: nat, left: nat, out: seq<FlatEntry>) {
    pos <= |bytes| && exists policy :: out == FlatAll(policy) && goal == Finish(policy, bytes[pos..], left)
  }

  lemma {:induction false} ReadingStarts(bytes: seq<Byte>, start: nat, count: nat)
    requires start <= |bytes|
    ensures Reading(Finish([], bytes[start..], count), bytes, start, count, [])
  {
    assert FlatAll([]) == [];
  }

  lemma {:induction false} ReadingEnds(goal: Option<seq<Entry>>, bytes: seq<Byte>, pos: nat, out: seq<FlatEntry>)
    requires Reading(goal, bytes, pos, 0, out)
    ensures FlatResult(goal) == Some(out)
  {}

  /** One turn of the decoder's loop: the next record, if it can be read, joins those read so far. */
  method ReadNext(bytes: seq<Byte>, start: nat, out: seq<FlatEntry>, ghost goal: Option<seq<Entry>>, ghost left: nat)
    returns (record: Option<FlatEntry>, pos: nat)
    requires left > 0 && Reading(goal, bytes, start, left, out)
    ensures record.None? ==> goal == None
    ensures record.Some? ==> Reading(goal, bytes, pos, left - 1, out + [record.value])
  {
    ghost var policy :| out == FlatAll(policy) && goal == Finish(policy, bytes[start..], left);
    FinishStep(policy, bytes[start..], left);
    record, pos := ReadFlat(bytes, start);
  }

  /** The loop of the terminal's decoder. */
  method ReadRecords(bytes: seq<Byte>, start: nat, count: nat) returns (r: Option<seq<FlatEntry>>)
    requires start <= |bytes|
    ensures r == FlatResult(Finish([], bytes[start..], count))
  {
    var out: seq<FlatEntry>, pos: nat := [], start;
    ghost var goal := Finish([], bytes[start..], count);
    ReadingStarts(bytes, start, count);
    for index := 0 to count
      invariant Reading(goal, bytes, pos, count - index, out)
    {
      var record, next := ReadNext(bytes, pos, out, goal, count - index);
      if record.None? {
        return None;
      }
      out, pos := out + [record.value], next;
    }
    ReadingEnds(goal, bytes, pos, out);
    return Some(out);
  }

  function FlatEncode(p: seq<FlatEntry>): seq<Byte> {
    [POLICY_BLOB_VERSION, CountByte(|p|)] + FlatMap(p, EncodeFlat)
  }

  /** Writes one entry: its kind always, its body if the kind is known. */
  method AppendFlat(before: seq<Byte>, entry: FlatEntry) returns (out: seq<Byte>)
    ensures out == before + EncodeFlat(entry)
  {
    out := before + [entry.kind];
    if entry.kind == KIND_CONFIGURATION {
      out := out + [entry.parameter];
      out := out + [entry.size];
      out := out + [if entry.isSigned then 1 else 0];
      out := AppendU32Be(out, ToUnsigned(entry.value));
    } else if entry.kind == KIND_ASSOCIATION {
      out := out + [entry.groupId];
      out := out + [CountByte(|entry.members|)];
      ghost var prefix := out;
      for m := 0 to |entry.members|
        invariant out == prefix + entry.members[..m]
      {
        out := out + [entry.members[m]];
      }
    } else if entry.kind == KIND_WAKEUP {
      out := AppendU32Be(out, entry.intervalSeconds);
      out := out + [entry.notificationNodeId];
    }
  }

  method EncodePolicy(policy: seq<FlatEntry>) returns (out: seq<Byte>)
    ensures out == FlatEncode(policy)
  {
    out := [];
    out := out + [POLICY_BLOB_VERSION];
    out := out + [CountByte(|policy|)];
    ghost var head := out;
    for k := 0 to |policy|
      invariant out == head + FlatMap(policy[..k], EncodeFlat)
    {
      assert policy[..k + 1] == policy[..k] + [policy[k]];
      FlatMapAppend(policy[..k], policy[k], EncodeFlat);
      ConcatAssociative(head, FlatMap(policy[..k], EncodeFlat), EncodeFlat(policy[k]));
      out := AppendFlat(out, policy[k]);
    }
    assert policy[..|policy|] == policy;
  }

  /** Two lists of entries that are written octet for octet alike. */
  lemma {:induction false} SameEncoding(fs: seq<FlatEntry>, p: seq<Entry>)
    requires |fs| == |p| && forall i :: 0 <= i < |p| ==> KnownKind(fs[i]) && View(fs[i]) == p[i]
    ensures FlatEncode(fs) == Encode(p)
    ensures FlatMap(fs, EncodeFlat) == FlatMap(p, EncodeEntry)
  {
    if p != [] {
      SameEncoding(fs[..|fs| - 1], p[..|p| - 1]);
    }
  }

  /** The base an edit starts from: an absent blob counts as an empty policy. */
  function Base(existing: seq<Byte>): Option<seq<Entry>> {
    if existing == [] then Some([]) else Decode(existing)
  }

  /** The stored form after an edit, or nothing when the existing blob cannot be read. */
  function Edited(existing: seq<Byte>, e: Entry): Option<seq<Byte>> {
    if Base(existing).Some? then Some(Encode(Upsert(Base(existing).value, e))) else None
  }

  /**
   * Decode, replace the entry of the same slot or append, encode again. For every known kind the result
   * is what the daemon would store for its own merge; an unreadable blob is left alone.
   */
  method ApplyEntryToBlob(existing: seq<Byte>, entry: FlatEntry) returns (r: Option<seq<Byte>>, replaced: bool)
    ensures r.None? <==> Base(existing).None?
    ensures KnownKind(entry) ==> r == Edited(existing, View(entry))
    ensures KnownKind(entry) && r.Some? ==> (replaced <==> SlotOf(View(entry)) in Slots(Base(existing).value))
    ensures !KnownKind(entry) && r.Some? ==> r == Some(FlatEncode(FlatAll(Base(existing).value) + [entry])) && !replaced
  {
    var policy: seq<FlatEntry> := [];
    if existing != [] {
      var decoded := DecodePolicy(existing);
      if decoded.None? {
        return None, false;
      }
      policy := decoded.value;
    }
    ghost var base := Base(existing).value;
    assert policy == FlatAll(base);
    var edited, at := UpsertFlat(policy, entry);
    replaced := at < |policy|;
    if KnownKind(entry) {
      EditedEncoding(base, entry, at);
    }
    var out := EncodePolicy(edited);
    r := Some(out);
  }

  /** The in-place edit loop; `at` is the index overwritten, or the end when the entry is appended. */
  method UpsertFlat(existing: seq<FlatEntry>, entry: FlatEntry) returns (policy: seq<FlatEntry>, at: nat)
    ensures at <= |existing| && forall j :: 0 <= j < at ==> !SameFlatSlot(existing[j], entry)
    ensures at < |existing| ==> SameFlatSlot(existing[at], entry)
    ensures policy == if at < |existing| then existing[at := entry] else existing + [entry]
  {
    policy := existing;
    var replaced := false;
    at := 0;
    while at < |policy|
      invariant 0 <= at <= |policy| && policy == existing
      invariant forall j :: 0 <= j < at ==> !SameFlatSlot(existing[j], entry)
    {
      if SameFlatSlot(policy[at], entry) {
        policy := policy[at := entry];
        replaced := true;
        break;
      }
      at := at + 1;
    }
    if !replaced {
      policy := policy + [entry];
    }
  }

  lemma {:induction false} EditedEncoding(base: seq<Entry>, entry: FlatEntry, at: nat)
    requires KnownKind(entry) && at <= |base|
    requires forall j :: 0 <= j < at ==> !SameFlatSlot(FlatAll(base)[j], entry)
    requires at < |base| ==> SameFlatSlot(FlatAll(base)[at], entry)
    ensures FlatEncode(if at < |base| then FlatAll(base)[at := entry] else FlatAll(base) + [entry]) ==
            Encode(Upsert(base, View(entry)))
    ensures at < |base| <==> SlotOf(View(entry)) in Slots(base)
  {
    var e := View(entry);
    forall j | 0 <= j < |base|
      ensures SameFlatSlot(FlatAll(base)[j], entry) <==> SameSlot(base[j], e)
    {
      assert FlatAll(base)[j] == Flat(base[j]);
    }
    if at < |base| {
      UpsertReplaces(base, at, e);
      assert Slots(base)[at] == SlotOf(e);
      SameEncoding(FlatAll(base)[at := entry], base[at := e]);
    } else {
      UpsertAppends(base, e);
      SameEncoding(FlatAll(base) + [entry], base + [e]);
    }
  }

  lemma {:induction false} BaseIsStorable(existing: seq<Byte>)
    requires Base(existing).Some?
    ensures Storable(Base(existing).value)
  {
    if existing != [] {
      DecodedIsStorable(existing);
    }
  }

  lemma {:induction false} UpsertStorableIff(base: seq<Entry>, e: Entry)
    requires Storable(base)
    ensures Storable(Upsert(base, e)) <==> |Upsert(base, e)| <= 255 && EntryStorable(e)
  {
    var i := UpsertShape(base, e);
    var after := Upsert(base, e);
    assert after[i] == e;
    forall j | 0 <= j < |after| && j != i
      ensures EntryStorable(after[j])
    {
      assert after[j] == base[j];
    }
  }

  lemma {:induction false} MergeOne(p: seq<Entry>, e: Entry)
    ensures Merge(p, [e]) == Upsert(p, e)
  {
    MergeAppend(p, [], e);
    assert [] + [e] == [e];
  }

  /**
   * The terminal's edit commutes with the daemon's merge: loading the edited blob gives the merge of what
   * was stored with the one entry, exactly as long as the counts of that merge still fit an octet.
   */
  lemma {:induction false} EditCommutesWithMerge(existing: seq<Byte>, e: Entry)
    requires Base(existing).Some?
    ensures var merged := Merge(Base(existing).value, [e]);
            Decode(Edited(existing, e).value) == Some(merged) <==> |merged| <= 255 && EntryStorable(e)
  {
    var base := Base(existing).value;
    MergeOne(base, e);
    BaseIsStorable(existing);
    UpsertStorableIff(base, e);
    RoundTripIffStorable(Upsert(base, e));
  }

  function EditAll(blob: seq<Byte>, edits: seq<Entry>): Option<seq<Byte>>
    decreases |edits|
  {
    if edits == [] then Some(blob)
    else
      var before := EditAll(blob, edits[..|edits| - 1]);
      if before.None? then None else Edited(before.value, edits[|edits| - 1])
  }

  lemma {:induction false} EditExtends(blob: seq<Byte>, base: seq<Entry>, e: Entry)
    requires Base(blob) == Some(base) && |Upsert(base, e)| <= 255 && EntryStorable(e)
    ensures Edited(blob, e).Some? && Base(Edited(blob, e).value) == Some(Upsert(base, e))
  {
    MergeOne(base, e);
    EditCommutesWithMerge(blob, e);
  }

  /** The edits can all be stored, and no count is exceeded at the end. */
  predicate Fits(edits: seq<Entry>) {
    |Merge([], edits)| <= 255 && forall i | 0 <= i < |edits| :: EntryStorable(edits[i])
  }

  lemma {:induction false} FitsFront(edits: seq<Entry>)
    requires edits != [] && Fits(edits)
    ensures var front, e := edits[..|edits| - 1], edits[|edits| - 1];
            Fits(front) && EntryStorable(e) && Merge([], edits) == Upsert(Merge([], front), e)
  {
    var front, e := edits[..|edits| - 1], edits[|edits| - 1];
    MergeAppend([], front, e);
    assert edits == front + [e];
    var i := UpsertShape(Merge([], front), e);
  }

  /** The blob after the edits is readable and holds their merge. */
  ghost predicate Builds(edits: seq<Entry>) {
    EditAll([], edits).Some? && Base(EditAll([], edits).value) == Some(Merge([], edits))
  }

  lemma {:induction false} FittingEditsBuild(edits: seq<Entry>)
    requires Fits(edits)
    ensures Builds(edits)
    decreases |edits|
  {
    if edits != [] {
      var front := edits[..|edits| - 1];
      FitsFront(edits);
      FittingEditsBuild(front);
      EditExtends(EditAll([], front).value, Merge([], front), edits[|edits| - 1]);
    }
  }

  /**
   * Any run of edits from the absent blob whose counts fit builds the merge of the edits, so it is
   * readable after every edit and names each slot once, in order of first appearance.
   */
  lemma {:induction false} EditRunsBuildUniquePolicies(edits: seq<Entry>)
    requires Fits(edits)
    ensures Builds(edits) && SlotUnique(Merge([], edits))
  {
    FittingEditsBuild(edits);
    MergeOrder([], edits);
  }
}
