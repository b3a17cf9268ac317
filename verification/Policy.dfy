/** Post-inclusion policies: entries, the slots they occupy, and the merge of two policies. */
module Policy {
  import opened Bytes

  datatype Entry =
    | Configuration(parameter: Byte, size: Byte, isSigned: bool, value: I32)
    | Association(groupId: Byte, members: seq<Byte>)
    | WakeUp(intervalSeconds: U32, notificationNodeId: Byte)

  /** What an override replaces: one parameter, one association group, or the single wake-up setting. */
  datatype Slot = ParameterSlot(parameter: Byte) | GroupSlot(groupId: Byte) | WakeUpSlot

  function SlotOf(e: Entry): Slot {
    match e
    case Configuration(parameter, _, _, _) => ParameterSlot(parameter)
    case Association(groupId, _) => GroupSlot(groupId)
    case WakeUp(_, _) => WakeUpSlot
  }

  predicate SameSlot(lhs: Entry, rhs: Entry)
    ensures SameSlot(lhs, rhs) <==> SlotOf(lhs) == SlotOf(rhs)
  {
    if lhs.Configuration? && rhs.Configuration? then lhs.parameter == rhs.parameter
    else if lhs.Association? && rhs.Association? then lhs.groupId == rhs.groupId
    else lhs.WakeUp? && rhs.WakeUp?
  }

  function Slots(p: seq<Entry>): (s: seq<Slot>)
    ensures |s| == |p| && forall i :: 0 <= i < |p| ==> s[i] == SlotOf(p[i])
  {
    seq(|p|, i requires 0 <= i < |p| => SlotOf(p[i]))
  }

  predicate SlotUnique(p: seq<Entry>) {
    forall i, j :: 0 <= i < j < |p| ==> SlotOf(p[i]) != SlotOf(p[j])
  }

  /** Replaces the first entry of the same slot, or appends. */
  function Upsert(p: seq<Entry>, e: Entry): seq<Entry> {
    if p == [] then [e]
    else if SameSlot(p[0], e) then [e] + p[1..]
    else [p[0]] + Upsert(p[1..], e)
  }

  /** The device default with every override applied in turn. */
  function Merge(device: seq<Entry>, override: seq<Entry>): seq<Entry>
    decreases |override|
  {
    if override == [] then device
    else Upsert(Merge(device, override[..|override| - 1]), override[|override| - 1])
  }

  /** The merge loop: scan the growing result for the slot, overwrite in place, or append. */
  method MergePolicies(deviceDefault: seq<Entry>, nodeOverride: seq<Entry>) returns (result: seq<Entry>)
    ensures result == Merge(deviceDefault, nodeOverride)
  {
    result := deviceDefault;
    for k := 0 to |nodeOverride|
      invariant result == Merge(deviceDefault, nodeOverride[..k])
    {
      var entry := nodeOverride[k];
      var before := result;
      var replaced := false;
      var i := 0;
      while i < |result| && !replaced
        invariant 0 <= i <= |result| == |before|
        invariant !replaced ==> result == before && forall j :: 0 <= j < i ==> !SameSlot(before[j], entry)
        invariant replaced ==> result == Upsert(before, entry)
      {
        if SameSlot(result[i], entry) {
          UpsertReplaces(before, i, entry);
          result := result[i := entry];
          replaced := true;
        }
        i := i + 1;
      }
      if !replaced {
        UpsertAppends(before, entry);
        result := result + [entry];
      }
      assert nodeOverride[..k + 1][..k] == nodeOverride[..k];
    }
    assert nodeOverride[..|nodeOverride|] == nodeOverride;
  }

  lemma {:induction false} UpsertReplaces(p: seq<Entry>, i: nat, e: Entry)
    requires i < |p| && SameSlot(p[i], e) && forall j :: 0 <= j < i ==> !SameSlot(p[j], e)
    ensures Upsert(p, e) == p[i := e]
  {
    if i > 0 {
      UpsertReplaces(p[1..], i - 1, e);
    }
  }

  lemma {:induction false} UpsertAppends(p: seq<Entry>, e: Entry)
    requires forall j :: 0 <= j < |p| ==> !SameSlot(p[j], e)
    ensures Upsert(p, e) == p + [e]
  {
    if p != [] {
      UpsertAppends(p[1..], e);
    }
  }

  /** The two shapes of an upsert, chosen by whether the slot is already taken. */
  lemma {:induction false} UpsertShape(p: seq<Entry>, e: Entry) returns (i: nat)
    ensures i <= |p| && forall j :: 0 <= j < i ==> SlotOf(p[j]) != SlotOf(e)
    ensures i < |p| ==> SlotOf(p[i]) == SlotOf(e)
    ensures Upsert(p, e) == if i < |p| then p[i := e] else p + [e]
  {
    i := 0;
    while i < |p| && !SameSlot(p[i], e)
      invariant 0 <= i <= |p| && forall j :: 0 <= j < i ==> !SameSlot(p[j], e)
    {
      i := i + 1;
    }
    if i < |p| {
      UpsertReplaces(p, i, e);
    } else {
      UpsertAppends(p, e);
    }
  }

  // ---- Lookup ------------------------------------------------------------------------------------

  function Lookup(p: seq<Entry>, s: Slot): Option<Entry> {
    if p == [] then None else if SlotOf(p[0]) == s then Some(p[0]) else Lookup(p[1..], s)
  }

  function LastFor(p: seq<Entry>, s: Slot): Option<Entry> {
    if p == [] then None
    else if SlotOf(p[|p| - 1]) == s then Some(p[|p| - 1])
    else LastFor(p[..|p| - 1], s)
  }

  lemma {:induction false} UpsertLookup(p: seq<Entry>, e: Entry, s: Slot)
    ensures Lookup(Upsert(p, e), s) == if SlotOf(e) == s then Some(e) else Lookup(p, s)
  {
    if p != [] && !SameSlot(p[0], e) {
      UpsertLookup(p[1..], e, s);
      assert Upsert(p, e)[1..] == Upsert(p[1..], e);
    } else if p != [] {
      assert Upsert(p, e)[1..] == p[1..];
    }
  }

  /** In the merged policy a slot holds the last override given for it, else the device default. */
  lemma {:induction false} MergeLookup(device: seq<Entry>, override: seq<Entry>, s: Slot)
    ensures Lookup(Merge(device, override), s) ==
            match LastFor(override, s) case Some(e) => Some(e) case None => Lookup(device, s)
    decreases |override|
  {
    if override != [] {
      var n := |override| - 1;
      MergeLookup(device, override[..n], s);
      UpsertLookup(Merge(device, override[..n]), override[n], s);
    }
  }

  // ---- Order and uniqueness ----------------------------------------------------------------------

  /** The slots of the first policy, then the new ones in the order they first appear. */
  function ExtendSlots(s: seq<Slot>, t: seq<Slot>): seq<Slot>
    decreases |t|
  {
    if t == [] then s
    else
      var r := ExtendSlots(s, t[..|t| - 1]);
      if t[|t| - 1] in r then r else r + [t[|t| - 1]]
  }

  /** A merge keeps the device order and appends new slots as they come; it keeps slots unique. */
  lemma {:induction false} MergeOrder(device: seq<Entry>, override: seq<Entry>)
    ensures Slots(Merge(device, override)) == ExtendSlots(Slots(device), Slots(override))
    ensures Slots(device) <= Slots(Merge(device, override))
    ensures SlotUnique(device) ==> SlotUnique(Merge(device, override))
    decreases |override|
  {
    if override != [] {
      var n := |override| - 1;
      MergeOrder(device, override[..n]);
      assert Slots(override)[..n] == Slots(override[..n]);
      UpsertSlots(Merge(device, override[..n]), override[n]);
    }
  }

  lemma {:induction false} UpsertSlots(m: seq<Entry>, e: Entry)
    ensures Slots(Upsert(m, e)) == if SlotOf(e) in Slots(m) then Slots(m) else Slots(m) + [SlotOf(e)]
    ensures SlotUnique(m) ==> SlotUnique(Upsert(m, e))
  {
    var i := UpsertShape(m, e);
    if i < |m| {
      assert Slots(m)[i] == SlotOf(e);
    }
  }

  // ---- Algebra -----------------------------------------------------------------------------------

  lemma {:induction false} UpsertOverwrites(m: seq<Entry>, x: Entry, e: Entry)
    requires SlotOf(x) == SlotOf(e)
    ensures Upsert(Upsert(m, x), e) == Upsert(m, e)
  {
    if m != [] && !SameSlot(m[0], x) {
      assert Upsert(m, x)[1..] == Upsert(m[1..], x);
      UpsertOverwrites(m[1..], x, e);
    }
  }

  lemma {:induction false} UpsertsCommute(m: seq<Entry>, e: Entry, y: Entry)
    requires SlotOf(e) != SlotOf(y) && SlotOf(e) in Slots(m)
    ensures Upsert(Upsert(m, e), y) == Upsert(Upsert(m, y), e)
  {
    var rest := m[1..];
    if SameSlot(m[0], e) {
      assert Upsert(m, y) == [m[0]] + Upsert(rest, y) && Upsert(m, e)[1..] == rest;
    } else if SameSlot(m[0], y) {
      assert Upsert(m, e) == [m[0]] + Upsert(rest, e) && Upsert(m, y)[1..] == rest;
    } else {
      assert Upsert(m, e)[1..] == Upsert(rest, e) && Upsert(m, y)[1..] == Upsert(rest, y);
      var i :| 0 <= i < |m| && Slots(m)[i] == SlotOf(e);
      assert Slots(rest)[i - 1] == SlotOf(e);
      UpsertsCommute(rest, e, y);
    }
  }

  lemma {:induction false} UpsertOfAppend(b: seq<Entry>, y: Entry, e: Entry)
    ensures Upsert(b + [y], e) ==
            if SlotOf(e) in Slots(b) then Upsert(b, e) + [y]
            else if SlotOf(y) == SlotOf(e) then b + [e]
            else b + [y] + [e]
  {
    var i := UpsertShape(b, e);
    if i < |b| {
      assert Slots(b)[i] == SlotOf(e);
      UpsertReplaces(b + [y], i, e);
    } else if SlotOf(y) == SlotOf(e) {
      UpsertReplaces(b + [y], |b|, e);
    } else {
      UpsertAppends(b + [y], e);
    }
  }

  lemma {:induction false} MergeOfUpsert(a: seq<Entry>, b: seq<Entry>, e: Entry)
    requires SlotUnique(b)
    ensures Merge(a, Upsert(b, e)) == Upsert(Merge(a, b), e)
    decreases |b|
  {
    if b == [] {
      assert [e][..0] == [];
    } else {
      var n := |b| - 1;
      var c, y := b[..n], b[n];
      assert b == c + [y];
      UpsertOfAppend(c, y, e);
      MergeOfUpsert(a, c, e);
      MergeAppend(a, c, y);
      if SlotOf(e) in Slots(c) {
        MergeAppend(a, Upsert(c, e), y);
        SlotsSurvive(a, c, SlotOf(e));
        UpsertsCommute(Merge(a, c), e, y);
      } else if SlotOf(y) == SlotOf(e) {
        MergeAppend(a, c, e);
        UpsertOverwrites(Merge(a, c), y, e);
      } else {
        MergeAppend(a, b, e);
      }
    }
  }

  lemma {:induction false} MergeAppend(a: seq<Entry>, c: seq<Entry>, y: Entry)
    ensures Merge(a, c + [y]) == Upsert(Merge(a, c), y)
  {
    assert (c + [y])[..|c|] == c;
  }

  lemma {:induction false} SlotsSurvive(a: seq<Entry>, c: seq<Entry>, s: Slot)
    requires s in Slots(c)
    ensures s in Slots(Merge(a, c))
  {
    MergeOrder(a, c);
    ExtendedContains(Slots(a), Slots(c), s);
  }

  lemma {:induction false} ExtendedContains(s: seq<Slot>, t: seq<Slot>, x: Slot)
    requires x in t
    ensures x in ExtendSlots(s, t)
    decreases |t|
  {
    var n := |t| - 1;
    if x != t[n] {
      assert x in t[..n];
      ExtendedContains(s, t[..n], x);
    }
  }

  lemma {:induction false} MergeAssociativeWhenUnique(a: seq<Entry>, b: seq<Entry>, c: seq<Entry>)
    requires SlotUnique(b)
    ensures Merge(Merge(a, b), c) == Merge(a, Merge(b, c))
    decreases |c|
  {
    if c != [] {
      var n := |c| - 1;
      MergeAssociativeWhenUnique(a, b, c[..n]);
      MergeOrder(b, c[..n]);
      MergeOfUpsert(a, Merge(b, c[..n]), c[n]);
    }
  }

  /** An entry for the same slot that differs from the given one. */
  function Different(e: Entry): (d: Entry)
    ensures d != e && SlotOf(d) == SlotOf(e)
  {
    match e
    case Configuration(parameter, size, isSigned, value) => Configuration(parameter, size, !isSigned, value)
    case Association(groupId, members) => Association(groupId, members + [0])
    case WakeUp(interval, notify) => WakeUp(interval, if notify == 0 then 1 else 0)
  }

  lemma {:induction false} LastForIsLast(p: seq<Entry>, j: nat)
    requires j < |p| && forall k :: j < k < |p| ==> SlotOf(p[k]) != SlotOf(p[j])
    ensures LastFor(p, SlotOf(p[j])) == Some(p[j])
    decreases |p|
  {
    if j < |p| - 1 {
      LastForIsLast(p[..|p| - 1], j);
    }
  }

  lemma {:induction false} DuplicateBreaksAssociativity(b: seq<Entry>) returns (c: seq<Entry>)
    requires !SlotUnique(b)
    ensures Merge(Merge([], b), c) != Merge([], Merge(b, c))
  {
    var i, j :| 0 <= i < j < |b| && SlotOf(b[i]) == SlotOf(b[j]);
    var s, l := SlotOf(b[j]), j;
    var k := j + 1;
    while k < |b|
      invariant j < k <= |b| && j <= l < k && SlotOf(b[l]) == s
      invariant forall m :: l < m < k ==> SlotOf(b[m]) != s
    {
      if SlotOf(b[k]) == s {
        l := k;
      }
      k := k + 1;
    }
    var e := Different(b[l]);
    c := [e];
    assert c[..0] == [];
    UpsertLookup(Merge([], b), e, s);
    var first := UpsertShape(b, e);
    LastForIsLast(b[first := e], l);
    MergeLookup([], Merge(b, c), s);
  }

  /** Merging is associative around exactly those middle policies that name each slot once. */
  lemma {:induction false} MergeAssociativeIffUnique(b: seq<Entry>)
    ensures SlotUnique(b) <==>
            forall a: seq<Entry>, c: seq<Entry> :: Merge(Merge(a, b), c) == Merge(a, Merge(b, c))
  {
    if SlotUnique(b) {
      forall a: seq<Entry>, c: seq<Entry>
        ensures Merge(Merge(a, b), c) == Merge(a, Merge(b, c))
      {
        MergeAssociativeWhenUnique(a, b, c);
      }
    } else {
      var c := DuplicateBreaksAssociativity(b);
    }
  }

  lemma {:induction false} MergeIntoEmptyWhenUnique(p: seq<Entry>)
    requires SlotUnique(p)
    ensures Merge([], p) == p
    decreases |p|
  {
    if p != [] {
      var n := |p| - 1;
      MergeIntoEmptyWhenUnique(p[..n]);
      UpsertAppends(p[..n], p[n]);
    }
  }

  /** The policy in force: override on device default, either one alone, or nothing. */
  function Effective(device: Option<seq<Entry>>, override: Option<seq<Entry>>): seq<Entry> {
    if device.Some? && override.Some? then Merge(device.value, override.value)
    else if override.Some? then override.value
    else if device.Some? then device.value
    else []
  }

  function OrEmpty(p: Option<seq<Entry>>): seq<Entry> {
    if p.Some? then p.value else []
  }

  /**
   * Reading an absent side as empty gives the policy in force, except when an override stands alone
   * and names some slot twice: it is then returned as it is, duplicates included.
   */
  lemma {:induction false} EffectiveIsMerge(device: Option<seq<Entry>>, override: Option<seq<Entry>>)
    ensures Effective(device, override) == Merge(OrEmpty(device), OrEmpty(override))
            <==> device.Some? || SlotUnique(OrEmpty(override))
  {
    if device.None? && override.Some? {
      MergeOrder([], override.value);
      if SlotUnique(override.value) {
        MergeIntoEmptyWhenUnique(override.value);
      }
    }
  }

  /** A lone override that names a slot twice is used as it is, while merging would keep one of the two. */
  lemma {:induction false} LoneDuplicateIsNotMerged(e: Entry)
    ensures Effective(None, Some([e, Different(e)])) != Merge([], [e, Different(e)])
  {
    var p := [e, Different(e)];
    assert SlotOf(p[0]) == SlotOf(p[1]);
    EffectiveIsMerge(None, Some(p));
  }
}
