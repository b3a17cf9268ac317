/**
 * Keeping SPANs across a restart: a table keyed by (home, peer), periodic checkpoints that write only
 * what changed, and the restore when the network becomes known.
 */
module SpanStore {
  import opened Bytes

  const INNER_STATE_SIZE: nat := 32

  type InnerState = s: seq<Byte> | |s| == INNER_STATE_SIZE witness seq(INNER_STATE_SIZE, _ => 0)

  datatype RowKey = RowKey(home: Home, peer: Byte)

  type Rows = map<RowKey, seq<Byte>>
  type Spans = map<Byte, InnerState>

  // ---- The table ---------------------------------------------------------------------------------

  predicate WellFormedRow(rows: Rows, key: RowKey) {
    key in rows && |rows[key]| == INNER_STATE_SIZE
  }

  /** The well-formed rows of one home; a blob of another size is passed over. */
  function LoadBelow(rows: Rows, home: Home, bound: nat): Spans
    requires bound <= 256
  {
    if bound == 0 then map[]
    else
      var rest := LoadBelow(rows, home, bound - 1);
      if WellFormedRow(rows, RowKey(home, bound - 1)) then rest[bound - 1 := rows[RowKey(home, bound - 1)]] else rest
  }

  function LoadAll(rows: Rows, home: Home): Spans {
    LoadBelow(rows, home, 256)
  }

  predicate MatchesRow(spans: Spans, rows: Rows, home: Home, p: Byte) {
    && (p in spans <==> WellFormedRow(rows, RowKey(home, p)))
    && (p in spans ==> spans[p] == rows[RowKey(home, p)])
  }

  lemma {:induction false} LoadedBelow(rows: Rows, home: Home, p: Byte, bound: nat)
    requires bound <= 256
    ensures var loaded := LoadBelow(rows, home, bound);
            && (p in loaded <==> p < bound && WellFormedRow(rows, RowKey(home, p)))
            && (p in loaded ==> loaded[p] == rows[RowKey(home, p)])
    decreases bound
  {
    if bound > 0 {
      LoadedBelow(rows, home, p, bound - 1);
    }
  }

  lemma {:induction false} LoadedIff(spans: Spans, rows: Rows, home: Home)
    ensures spans == LoadAll(rows, home) <==> forall p: Byte :: MatchesRow(spans, rows, home, p)
  {
    var loaded := LoadAll(rows, home);
    forall p: Byte
      ensures MatchesRow(loaded, rows, home, p)
    {
      LoadedBelow(rows, home, p, 256);
    }
    if forall p: Byte :: MatchesRow(spans, rows, home, p) {
      forall p: Byte
        ensures p in spans <==> p in loaded
        ensures p in spans ==> spans[p] == loaded[p]
      {
        assert MatchesRow(spans, rows, home, p) && MatchesRow(loaded, rows, home, p);
      }
      assert spans.Keys == loaded.Keys;
      assert spans == loaded;
    }
  }

  // ---- Checkpoints -------------------------------------------------------------------------------

  datatype Saved = Saved(rows: Rows, lastWritten: Spans, written: nat)

  predicate Unchanged(live: Spans, lastWritten: Spans, p: Byte)
    requires p in live
  {
    p in lastWritten && lastWritten[p] == live[p]
  }

  /** The checkpoint's loop over the live peers below `bound`. */
  function CheckpointBelow(rows: Rows, lastWritten: Spans, live: Spans, home: Home, bound: nat): Saved
    requires bound <= 256
  {
    if bound == 0 then Saved(rows, lastWritten, 0)
    else
      var done := CheckpointBelow(rows, lastWritten, live, home, bound - 1);
      var p := bound - 1;
      if p !in live || Unchanged(live, done.lastWritten, p) then done
      else Saved(done.rows[RowKey(home, p) := live[p]], done.lastWritten[p := live[p]], done.written + 1)
  }

  /** The simple form: every live SPAN is written. */
  function SaveAllBelow(rows: Rows, live: Spans, home: Home, bound: nat): Rows
    requires bound <= 256
  {
    if bound == 0 then rows
    else
      var done := SaveAllBelow(rows, live, home, bound - 1);
      if bound - 1 in live then done[RowKey(home, bound - 1) := live[bound - 1]] else done
  }

  function SaveAll(rows: Rows, live: Spans, home: Home): Rows {
    SaveAllBelow(rows, live, home, 256)
  }

  datatype State = State(rows: Rows, home: Option<Home>, live: Spans, homeBound: bool, lastWritten: Spans)

  /** `Advance` is any use of a SPAN that creates or moves it; there is no operation that removes one. */
  datatype Event =
    | Advance(peer: Byte, inner: InnerState)
    | Checkpoint
    | Bind(home: Home)
    | Restart

  function Checkpointed(s: State): State {
    if !s.homeBound || s.home.None? then s
    else
      var saved := CheckpointBelow(s.rows, s.lastWritten, s.live, s.home.value, 256);
      s.(rows := saved.rows, lastWritten := saved.lastWritten)
  }

  function Bound(s: State, home: Home): State {
    var persisted := LoadAll(s.rows, home);
    State(s.rows, Some(home), s.live + persisted, true, persisted)
  }

  function Step(s: State, e: Event): State {
    match e
    case Advance(p, inner) => s.(live := s.live[p := inner])
    case Checkpoint => Checkpointed(s)
    case Bind(home) => Bound(s, home)
    case Restart => Opened(s.rows)
  }

  function Opened(rows: Rows): State {
    State(rows, None, map[], false, map[])
  }

  function Run(rows: Rows, events: seq<Event>): State {
    if events == [] then Opened(rows) else Step(Run(rows, events[..|events| - 1]), events[|events| - 1])
  }

  // ---- Write-if-changed refines write-all --------------------------------------------------------

  /** What was last written is what the table holds for the bound home, and all of it is live. */
  ghost predicate Inv(s: State) {
    s.homeBound ==>
      s.home.Some? && s.lastWritten == LoadAll(s.rows, s.home.value) && s.lastWritten.Keys <= s.live.Keys
  }

  lemma {:induction false} SaveAllAt(rows: Rows, live: Spans, home: Home, bound: nat, key: RowKey)
    requires bound <= 256
    ensures var done := SaveAllBelow(rows, live, home, bound);
            if key.home == home && key.peer < bound && key.peer in live
            then key in done && done[key] == live[key.peer]
            else (key in done <==> key in rows) && (key in rows ==> done[key] == rows[key])
    decreases bound
  {
    if bound > 0 {
      SaveAllAt(rows, live, home, bound - 1, key);
    }
  }

  lemma {:induction false} CheckpointWrittenAt(rows: Rows, last: Spans, live: Spans, home: Home, bound: nat, p: Byte)
    requires bound <= 256
    ensures var done := CheckpointBelow(rows, last, live, home, bound);
            && (p in done.lastWritten <==> p in last || (p < bound && p in live))
            && (p < bound && p in live ==> done.lastWritten[p] == live[p])
            && (!(p < bound && p in live) && p in last ==> done.lastWritten[p] == last[p])
    decreases bound
  {
    if bound > 0 {
      CheckpointWrittenAt(rows, last, live, home, bound - 1, p);
    }
  }

  /** Skipping what is unchanged leaves the same rows as writing everything. */
  lemma {:induction false} CheckpointRefinesSaveAll(rows: Rows, last: Spans, live: Spans, home: Home, bound: nat)
    requires bound <= 256 && last == LoadAll(rows, home)
    ensures CheckpointBelow(rows, last, live, home, bound).rows == SaveAllBelow(rows, live, home, bound)
    decreases bound
  {
    if bound > 0 {
      CheckpointRefinesSaveAll(rows, last, live, home, bound - 1);
      var p := bound - 1;
      var done := CheckpointBelow(rows, last, live, home, bound - 1);
      if p in live && Unchanged(live, done.lastWritten, p) {
        CheckpointWrittenAt(rows, last, live, home, bound - 1, p);
        LoadedBelow(rows, home, p, 256);
        SaveAllAt(rows, live, home, bound - 1, RowKey(home, p));
        var key := RowKey(home, p);
        assert done.rows[key := live[p]] == done.rows;
      }
    }
  }

  lemma {:induction false} NothingWrittenIff(rows: Rows, last: Spans, live: Spans, home: Home, bound: nat)
    requires bound <= 256
    ensures CheckpointBelow(rows, last, live, home, bound).written == 0
            <==> forall p: Byte | p < bound && p in live :: Unchanged(live, last, p)
    ensures CheckpointBelow(rows, last, live, home, bound).written == 0
            ==> CheckpointBelow(rows, last, live, home, bound) == Saved(rows, last, 0)
    decreases bound
  {
    if bound > 0 {
      NothingWrittenIff(rows, last, live, home, bound - 1);
      if bound - 1 in live {
        CheckpointWrittenAt(rows, last, live, home, bound - 1, bound - 1);
      }
    }
  }

  /** After a checkpoint the bound home's rows are exactly the live SPANs. */
  lemma {:induction false} CheckpointStoresLive(s: State)
    requires Inv(s) && s.homeBound
    ensures var after := Step(s, Checkpoint);
            && after.rows == SaveAll(s.rows, s.live, s.home.value)
            && LoadAll(after.rows, s.home.value) == s.live == after.live == after.lastWritten
  {
    var home := s.home.value;
    var after := Step(s, Checkpoint);
    CheckpointRefinesSaveAll(s.rows, s.lastWritten, s.live, home, 256);
    LoadedIff(s.lastWritten, s.rows, home);
    LoadedIff(s.live, after.rows, home);
    forall p: Byte
      ensures MatchesRow(s.live, after.rows, home, p)
      ensures p in after.lastWritten <==> p in s.live
      ensures p in s.live ==> after.lastWritten[p] == s.live[p]
    {
      assert MatchesRow(s.lastWritten, s.rows, home, p);
      SaveAllAt(s.rows, s.live, home, 256, RowKey(home, p));
      CheckpointWrittenAt(s.rows, s.lastWritten, s.live, home, 256, p);
      assert p in s.lastWritten ==> p in s.live;
    }
    assert after.lastWritten.Keys == s.live.Keys;
    assert after.lastWritten == s.live;
  }

  lemma {:induction false} RunKeepsInv(rows: Rows, events: seq<Event>)
    ensures Inv(Run(rows, events))
    decreases |events|
  {
    if events != [] {
      var s, e := Run(rows, events[..|events| - 1]), events[|events| - 1];
      RunKeepsInv(rows, events[..|events| - 1]);
      if e.Checkpoint? && s.homeBound {
        CheckpointStoresLive(s);
      }
    }
  }

  /**
   * In every run: a checkpoint, a restart and a restore of the same network bring back exactly the SPANs
   * that were live.
   */
  lemma {:induction false} RestartIsLossless(rows: Rows, events: seq<Event>)
    requires Run(rows, events).homeBound
    ensures var s := Run(rows, events);
            s.home.Some? && Step(Step(Step(s, Checkpoint), Restart), Bind(s.home.value)).live == s.live
  {
    RunKeepsInv(rows, events);
    var s := Run(rows, events);
    CheckpointStoresLive(s);
    assert map[] + s.live == s.live;
  }

  /** A checkpoint never touches another network's rows. */
  lemma {:induction false} CheckpointKeepsOtherHomes(s: State, key: RowKey)
    requires Inv(s) && s.home != Some(key.home)
    ensures key in Step(s, Checkpoint).rows <==> key in s.rows
    ensures key in s.rows ==> Step(s, Checkpoint).rows[key] == s.rows[key]
  {
    if s.homeBound {
      CheckpointStoresLive(s);
      SaveAllAt(s.rows, s.live, s.home.value, 256, key);
    }
  }

  // ---- Binding again -----------------------------------------------------------------------------

  /** Binding leaves the live table alone exactly if every stored SPAN is also the live one. */
  lemma {:induction false} BindKeepsLiveIff(s: State, home: Home)
    ensures Step(s, Bind(home)).live == s.live
            <==> forall p | p in LoadAll(s.rows, home) :: p in s.live && s.live[p] == LoadAll(s.rows, home)[p]
  {
    var persisted := LoadAll(s.rows, home);
    var after := s.live + persisted;
    assert forall p | p in persisted :: p in after && after[p] == persisted[p];
    if forall p | p in persisted :: p in s.live && s.live[p] == persisted[p] {
      assert after.Keys == s.live.Keys;
      assert after == s.live;
    }
  }

  /** Binding the same network again takes a SPAN back to its last checkpoint. */
  lemma {:induction false} RebindRewinds(home: Home, p: Byte, earlier: InnerState, later: InnerState)
    requires earlier != later
    ensures var s := Run(map[], [Bind(home), Advance(p, earlier), Checkpoint, Advance(p, later)]);
            s.live == map[p := later] && Step(s, Bind(home)).live == map[p := earlier]
  {
    var e1, e2, e3, e4 := Bind(home), Advance(p, earlier), Checkpoint, Advance(p, later);
    assert [e1, e2, e3, e4][..3] == [e1, e2, e3] && [e1, e2, e3][..2] == [e1, e2] && [e1, e2][..1] == [e1];
    var s2 := Run(map[], [e1, e2]);
    assert s2 == Step(Run(map[], [e1]), e2);
    RunKeepsInv(map[], [e1, e2]);
    LoadedIff(map[], map[], home);
    assert Run(map[], [e1]) == Bound(Opened(map[]), home);
    assert s2.live == map[p := earlier];
    CheckpointStoresLive(s2);
  }

  /**
   * Binding to a network and checkpointing stores, besides what it already had, every other live SPAN:
   * the network's rows come back unchanged exactly if there was no SPAN it did not know.
   */
  lemma {:induction false} BindAndCheckpointIff(s: State, home: Home)
    ensures var before := LoadAll(s.rows, home);
            var after := LoadAll(Step(Step(s, Bind(home)), Checkpoint).rows, home);
            && after == s.live + before
            && (after == before <==> s.live.Keys <= before.Keys)
  {
    var before := LoadAll(s.rows, home);
    var bound := Step(s, Bind(home));
    assert Inv(bound);
    CheckpointStoresLive(bound);
    var after := s.live + before;
    if s.live.Keys <= before.Keys {
      assert after.Keys == before.Keys;
      assert after == before;
    } else {
      assert after.Keys == s.live.Keys + before.Keys;
    }
  }

  /** Moving the dongle's store to a network it knows nothing of stores the previous network's SPAN there. */
  lemma {:induction false} SwitchCarriesSpans(before: Home, after: Home, p: Byte, inner: InnerState)
    requires before != after
    ensures var s := Run(map[], [Bind(before), Advance(p, inner)]);
            LoadAll(Step(Step(s, Bind(after)), Checkpoint).rows, after) == map[p := inner]
  {
    var e1, e2 := Bind(before), Advance(p, inner);
    assert [e1, e2][..1] == [e1] && [e1][..0] == [];
    assert Run(map[], [e1]) == Bound(Opened(map[]), before);
    LoadedIff(map[], map[], before);
    LoadedIff(map[], map[], after);
    var s := Run(map[], [e1, e2]);
    assert s.live == map[p := inner] && s.rows == map[];
    BindAndCheckpointIff(s, after);
    assert s.live + map[] == s.live;
  }

  // ---- The service -------------------------------------------------------------------------------

  class Service {
    var rows: Rows
    var homeId: Option<Home>
    var manager: Spans
    var homeBound: bool
    var lastWritten: Spans

    ghost function Snapshot(): State
      reads this
    {
      State(rows, homeId, manager, homeBound, lastWritten)
    }

    constructor (rows: Rows)
      ensures Snapshot() == Opened(rows)
    {
      this.rows := rows;
      homeId := None;
      manager := map[];
      homeBound := false;
      lastWritten := map[];
    }

    method UseSpan(p: Byte, inner: InnerState)
      modifies this
      ensures Snapshot() == Step(old(Snapshot()), Advance(p, inner))
    {
      manager := manager[p := inner];
    }

    /** Does nothing without a home. */
    method Save(p: Byte, inner: InnerState)
      modifies this`rows
      ensures rows == if homeId.Some? then old(rows)[RowKey(homeId.value, p) := inner] else old(rows)
    {
      if homeId.None? {
        return;
      }
      rows := rows[RowKey(homeId.value, p) := inner];
    }

    method Load() returns (result: Spans)
      ensures result == if homeId.Some? then LoadAll(rows, homeId.value) else map[]
    {
      result := map[];
      if homeId.None? {
        return;
      }
      var p: int := 0;
      while p < 256
        invariant 0 <= p <= 256
        invariant result == LoadBelow(rows, homeId.value, p)
      {
        var key := RowKey(homeId.value, p);
        if key in rows && |rows[key]| == INNER_STATE_SIZE {
          result := result[p := rows[key]];
        }
        p := p + 1;
      }
    }

    /** Writes every SPAN that has moved since it was last written; returns how many rows that was. */
    method WriteCheckpoint() returns (written: nat)
      requires homeBound ==> homeId.Some?
      modifies this
      ensures Snapshot() == Step(old(Snapshot()), Checkpoint)
      ensures written == if !old(homeBound) then 0
                         else CheckpointBelow(old(rows), old(lastWritten), old(manager), homeId.value, 256).written
    {
      written := 0;
      if !homeBound {
        return;
      }
      ghost var rows0, last0 := rows, lastWritten;
      var p: int := 0;
      while p < 256
        invariant 0 <= p <= 256
        invariant homeBound && homeId == old(homeId) && manager == old(manager) && homeId.Some?
        invariant Saved(rows, lastWritten, written) == CheckpointBelow(rows0, last0, manager, homeId.value, p)
      {
        if p in manager && !(p in lastWritten && lastWritten[p] == manager[p]) {
          Save(p, manager[p]);
          lastWritten := lastWritten[p := manager[p]];
          written := written + 1;
        }
        p := p + 1;
      }
    }

    method BindAndRestore(home: Home)
      modifies this
      ensures Snapshot() == Step(old(Snapshot()), Bind(home))
    {
      homeId := Some(home);
      var persisted := Load();
      manager := manager + persisted;
      homeBound := true;
      lastWritten := persisted;
    }
  }
}
