/**
 * The node registry: an in-memory map of the bound network's nodes over a table keyed by (home, node).
 * Every operation updates both; reading the table back should give the map.
 */
module NodeRegistry {
  import opened Bytes

  type U16 = v: int | 0 <= v < 0x1_0000

  /** What NodeListChanged and the upsert carry. */
  datatype Summary = Summary(basicType: Byte, genericType: Byte, specificType: Byte, commandClasses: seq<Byte>)

  datatype Identity = Identity(manufacturerId: U16, productTypeId: U16, productId: U16)

  datatype VersionInfo = VersionInfo(
    libraryType: Byte, protocolVersion: Byte, protocolSubVersion: Byte, applicationVersion: Byte,
    applicationSubVersion: Byte)

  datatype EndpointInfo = EndpointInfo(count: Byte, isDynamic: bool, isIdentical: bool)

  datatype ZWavePlusInfo = ZWavePlusInfo(
    version: Byte, roleType: Byte, nodeType: Byte, installerIconType: U16, userIconType: U16)

  /** The columns that only the security and interview setters write. */
  datatype Extras = Extras(
    scheme: Byte, identity: Identity, version: VersionInfo, endpoints: EndpointInfo, zwavePlus: ZWavePlusInfo)

  const DEFAULT_SUMMARY := Summary(0, 0, 0, [])
  const DEFAULT_EXTRAS :=
    Extras(0, Identity(0, 0, 0), VersionInfo(0, 0, 0, 0, 0), EndpointInfo(0, false, false),
           ZWavePlusInfo(0, 0, 0, 0, 0))

  datatype Info = Info(summary: Summary, extras: Extras)

  datatype RowKey = RowKey(home: Home, node: Byte)

  type Rows = map<RowKey, Info>
  type Nodes = map<Byte, Info>

  // ---- The table ---------------------------------------------------------------------------------

  /** The rows of one home with a node id below `bound`. */
  function LoadBelow(rows: Rows, home: Home, bound: nat): Nodes
    requires bound <= 256
  {
    if bound == 0 then map[]
    else
      var rest := LoadBelow(rows, home, bound - 1);
      if RowKey(home, bound - 1) in rows then rest[bound - 1 := rows[RowKey(home, bound - 1)]] else rest
  }

  function LoadNodesForHome(rows: Rows, home: Home): Nodes {
    LoadBelow(rows, home, 256)
  }

  lemma {:induction false} LoadedBelow(rows: Rows, home: Home, n: Byte, bound: nat)
    requires bound <= 256
    ensures var loaded := LoadBelow(rows, home, bound);
            && (n in loaded <==> n < bound && RowKey(home, n) in rows)
            && (n in loaded ==> loaded[n] == rows[RowKey(home, n)])
    decreases bound
  {
    if bound > 0 {
      LoadedBelow(rows, home, n, bound - 1);
    }
  }

  lemma {:induction false} LoadedNodes(rows: Rows, home: Home, n: Byte)
    ensures n in LoadNodesForHome(rows, home) <==> RowKey(home, n) in rows
    ensures n in LoadNodesForHome(rows, home) ==> LoadNodesForHome(rows, home)[n] == rows[RowKey(home, n)]
  {
    LoadedBelow(rows, home, n, 256);
  }

  ghost predicate MatchesRow(nodes: Nodes, rows: Rows, home: Home, n: Byte) {
    && (n in nodes <==> RowKey(home, n) in rows)
    && (n in nodes ==> nodes[n] == rows[RowKey(home, n)])
  }

  /** What the table gives back is characterised node by node. */
  lemma {:induction false} LoadedIff(nodes: Nodes, rows: Rows, home: Home)
    ensures nodes == LoadNodesForHome(rows, home) <==> forall n: Byte :: MatchesRow(nodes, rows, home, n)
  {
    var loaded := LoadNodesForHome(rows, home);
    forall n: Byte
      ensures MatchesRow(loaded, rows, home, n)
    {
      LoadedNodes(rows, home, n);
    }
    if forall n: Byte :: MatchesRow(nodes, rows, home, n) {
      forall n: Byte
        ensures n in nodes <==> n in loaded
        ensures n in nodes ==> nodes[n] == loaded[n]
      {
        assert MatchesRow(nodes, rows, home, n) && MatchesRow(loaded, rows, home, n);
      }
      assert nodes.Keys == loaded.Keys;
      assert nodes == loaded;
    }
  }

  /** The extras a row holds, or would be created with. */
  function StoredExtras(rows: Rows, key: RowKey): Extras {
    if key in rows then rows[key].extras else DEFAULT_EXTRAS
  }

  /** The upsert writes the summary columns and leaves the others. */
  function Upsert(rows: Rows, key: RowKey, summary: Summary): Rows {
    rows[key := Info(summary, StoredExtras(rows, key))]
  }

  function UpdateExtras(rows: Rows, key: RowKey, change: Change): Rows {
    if key in rows then rows[key := rows[key].(extras := Changed(rows[key].extras, change))] else rows
  }

  // ---- Operations --------------------------------------------------------------------------------

  datatype Change =
    | Scheme(scheme: Byte)
    | DeviceIdentity(identity: Identity)
    | Version(version: VersionInfo)
    | Endpoints(endpoints: EndpointInfo)
    | ZWavePlus(zwavePlus: ZWavePlusInfo)

  function Changed(x: Extras, change: Change): Extras {
    match change
    case Scheme(scheme) => x.(scheme := scheme)
    case DeviceIdentity(identity) => x.(identity := identity)
    case Version(version) => x.(version := version)
    case Endpoints(endpoints) => x.(endpoints := endpoints)
    case ZWavePlus(zwavePlus) => x.(zwavePlus := zwavePlus)
  }

  datatype Op =
    | SetHomeId(home: Home)
    | Add(node: Byte, info: Info)
    | Remove(node: Byte)
    | Seed(node: Byte)
    | UpdateCommandClasses(node: Byte, commandClasses: seq<Byte>)
    | UpdateDeviceClass(node: Byte, basicType: Byte, genericType: Byte, specificType: Byte)
    | SetExtra(node: Byte, change: Change)

  datatype Listed = Listed(node: Byte, summary: Summary)

  datatype State = State(rows: Rows, home: Option<Home>, nodes: Nodes, announced: seq<seq<Listed>>)

  /** The nodes below `bound` in ascending order. */
  function ListingBelow(nodes: Nodes, bound: nat): seq<Listed>
    requires bound <= 256
  {
    if bound == 0 then []
    else ListingBelow(nodes, bound - 1)
         + if bound - 1 in nodes then [Listed(bound - 1, nodes[bound - 1].summary)] else []
  }

  function Listing(nodes: Nodes): seq<Listed> {
    ListingBelow(nodes, 256)
  }

  function Announce(s: State): State {
    s.(announced := s.announced + [Listing(s.nodes)])
  }

  /** Writes a node's new summary to the map and to its row. */
  function Persisted(s: State, n: Byte, info: Info): State
    requires s.home.Some?
  {
    Announce(s.(nodes := s.nodes[n := info], rows := Upsert(s.rows, RowKey(s.home.value, n), info.summary)))
  }

  function Step(s: State, op: Op): State {
    match op
    case SetHomeId(home) =>
      if s.home == Some(home) then s
      else Announce(s.(home := Some(home), nodes := LoadNodesForHome(s.rows, home)))
    case SetExtra(n, change) =>
      if n !in s.nodes then s
      else
        var remembered := s.(nodes := s.nodes[n := s.nodes[n].(extras := Changed(s.nodes[n].extras, change))]);
        if s.home.None? then remembered
        else remembered.(rows := UpdateExtras(s.rows, RowKey(s.home.value, n), change))
    case _ => if s.home.None? then s else BoundStep(s, op)
  }

  /** The operations that need a bound home. */
  function BoundStep(s: State, op: Op): State
    requires s.home.Some?
  {
    match op
    case Add(n, info) => Persisted(s, n, info)
    case Remove(n) => Announce(s.(nodes := s.nodes - {n}, rows := s.rows - {RowKey(s.home.value, n)}))
    case Seed(n) => if n in s.nodes then s else Persisted(s, n, Info(DEFAULT_SUMMARY, DEFAULT_EXTRAS))
    case UpdateCommandClasses(n, commandClasses) =>
      if n !in s.nodes then s
      else Persisted(s, n, s.nodes[n].(summary := s.nodes[n].summary.(commandClasses := commandClasses)))
    case UpdateDeviceClass(n, basicType, genericType, specificType) =>
      if n !in s.nodes then s
      else
        var summary := Summary(basicType, genericType, specificType, s.nodes[n].summary.commandClasses);
        Persisted(s, n, s.nodes[n].(summary := summary))
    case _ => s
  }

  /** A registry opened over an existing table. */
  function Opened(rows: Rows): State {
    State(rows, None, map[], [])
  }

  function Steps(s: State, ops: seq<Op>): State {
    if ops == [] then s else Step(Steps(s, ops[..|ops| - 1]), ops[|ops| - 1])
  }

  function Run(rows: Rows, ops: seq<Op>): State {
    Steps(Opened(rows), ops)
  }

  // ---- The announced list ------------------------------------------------------------------------

  predicate Ascending(list: seq<Listed>) {
    forall i, j | 0 <= i < j < |list| :: list[i].node < list[j].node
  }

  /** Exactly the nodes of the map, each once, in ascending order, with their summaries. */
  lemma {:induction false} ListingIsTheMap(nodes: Nodes, bound: nat)
    requires bound <= 256
    ensures var list := ListingBelow(nodes, bound);
            && Ascending(list)
            && (forall x | x in list :: x.node < bound && x.node in nodes && x.summary == nodes[x.node].summary)
            && (forall n: Byte | n < bound && n in nodes :: Listed(n, nodes[n].summary) in list)
    decreases bound
  {
    if bound > 0 {
      ListingIsTheMap(nodes, bound - 1);
      var front := ListingBelow(nodes, bound - 1);
      assert forall i | 0 <= i < |front| :: front[i] in front;
    }
  }

  /** The list depends on nothing but which nodes there are and their summaries. */
  lemma {:induction false} ListingIgnoresExtras(a: Nodes, b: Nodes, bound: nat)
    requires bound <= 256
    requires forall n: Byte :: n in a <==> n in b
    requires forall n: Byte | n in a :: n in b && a[n].summary == b[n].summary
    ensures ListingBelow(a, bound) == ListingBelow(b, bound)
    decreases bound
  {
    if bound > 0 {
      ListingIgnoresExtras(a, b, bound - 1);
      assert bound - 1 in a <==> bound - 1 in b;
    }
  }

  // ---- What holds in every run -------------------------------------------------------------------

  ghost predicate SummariesAgree(s: State, n: Byte) {
    s.home.Some? ==>
      var key := RowKey(s.home.value, n);
      && (n in s.nodes <==> key in s.rows)
      && (n in s.nodes ==> s.nodes[n].summary == s.rows[key].summary)
  }

  ghost predicate ExtrasAgree(s: State, n: Byte) {
    s.home.Some? && n in s.nodes && RowKey(s.home.value, n) in s.rows ==>
      s.nodes[n].extras == s.rows[RowKey(s.home.value, n)].extras
  }

  ghost predicate Announced(s: State) {
    if s.home.None? then s.announced == [] && s.nodes == map[]
    else s.announced != [] && s.announced[|s.announced| - 1] == Listing(s.nodes)
  }

  lemma {:induction false} StepKeepsSummaries(s: State, op: Op, n: Byte)
    requires s.home.None? ==> s.nodes == map[]
    requires SummariesAgree(s, n)
    ensures SummariesAgree(Step(s, op), n)
  {
    if op.SetHomeId? {
      LoadedNodes(s.rows, op.home, n);
    }
  }

  lemma {:induction false} StepKeepsAnnounced(s: State, op: Op)
    requires Announced(s)
    ensures Announced(Step(s, op))
  {
    if op.SetExtra? && op.node in s.nodes {
      ListingIgnoresExtras(s.nodes, Step(s, op).nodes, 256);
    }
  }

  /** An `Add` that brings the extras its row has, or will be created with. */
  predicate FaithfulAdd(s: State, op: Op) {
    op.Add? && s.home.Some? ==> op.info.extras == StoredExtras(s.rows, RowKey(s.home.value, op.node))
  }

  lemma {:induction false} StepKeepsExtras(s: State, op: Op, n: Byte)
    requires SummariesAgree(s, n) && ExtrasAgree(s, n) && FaithfulAdd(s, op)
    ensures ExtrasAgree(Step(s, op), n)
  {
    if op.SetHomeId? {
      LoadedNodes(s.rows, op.home, n);
    }
  }

  /** Rows of a home that is not bound are never touched. */
  lemma {:induction false} StepKeepsOtherHomes(s: State, op: Op, key: RowKey)
    requires s.home != Some(key.home)
    ensures key in Step(s, op).rows <==> key in s.rows
    ensures key in s.rows ==> Step(s, op).rows[key] == s.rows[key]
  {}

  /**
   * Whatever the operations and whatever the table held: the map has exactly the nodes of the bound
   * home's rows, with the same summaries, and the last announced list is the map's projection.
   */
  lemma {:induction false} RunKeepsSummaries(rows: Rows, ops: seq<Op>)
    ensures var s := Run(rows, ops);
            Announced(s) && forall n: Byte :: SummariesAgree(s, n)
    decreases |ops|
  {
    if ops != [] {
      var s, op := Run(rows, ops[..|ops| - 1]), ops[|ops| - 1];
      RunKeepsSummaries(rows, ops[..|ops| - 1]);
      StepKeepsAnnounced(s, op);
      forall n: Byte
        ensures SummariesAgree(Step(s, op), n)
      {
        StepKeepsSummaries(s, op, n);
      }
    }
  }

  /** Every `Add` of the run is faithful when it happens. */
  ghost predicate FaithfulAdds(rows: Rows, ops: seq<Op>) {
    ops == [] ||
    (FaithfulAdds(rows, ops[..|ops| - 1]) && FaithfulAdd(Run(rows, ops[..|ops| - 1]), ops[|ops| - 1]))
  }

  ghost predicate InSync(s: State) {
    s.home.Some? ==> s.nodes == LoadNodesForHome(s.rows, s.home.value)
  }

  lemma {:induction false} InSyncPointwise(s: State)
    ensures InSync(s) <==> forall n: Byte :: SummariesAgree(s, n) && ExtrasAgree(s, n)
  {
    if s.home.Some? {
      LoadedIff(s.nodes, s.rows, s.home.value);
      forall n: Byte
        ensures MatchesRow(s.nodes, s.rows, s.home.value, n) <==> SummariesAgree(s, n) && ExtrasAgree(s, n)
      {}
    }
  }

  lemma {:induction false} RunKeepsExtras(rows: Rows, ops: seq<Op>, n: Byte)
    requires FaithfulAdds(rows, ops)
    ensures ExtrasAgree(Run(rows, ops), n)
    decreases |ops|
  {
    if ops != [] {
      RunKeepsExtras(rows, ops[..|ops| - 1], n);
      RunKeepsSummaries(rows, ops[..|ops| - 1]);
      StepKeepsExtras(Run(rows, ops[..|ops| - 1]), ops[|ops| - 1], n);
    }
  }

  /** With faithful adds only, reading the table back gives the map, after every run. */
  lemma {:induction false} RunStaysInSync(rows: Rows, ops: seq<Op>)
    requires FaithfulAdds(rows, ops)
    ensures InSync(Run(rows, ops))
  {
    RunKeepsSummaries(rows, ops);
    forall n: Byte
      ensures ExtrasAgree(Run(rows, ops), n)
    {
      RunKeepsExtras(rows, ops, n);
    }
    InSyncPointwise(Run(rows, ops));
  }

  lemma {:induction false} UpsertMatchesIff(nodes: Nodes, rows: Rows, home: Home, n: Byte, info: Info, k: Byte)
    requires MatchesRow(nodes, rows, home, k)
    ensures MatchesRow(nodes[n := info], Upsert(rows, RowKey(home, n), info.summary), home, k)
            <==> (k == n ==> info.extras == StoredExtras(rows, RowKey(home, n)))
  {}

  lemma {:induction false} UpsertLoadedIff(nodes: Nodes, rows: Rows, home: Home, n: Byte, info: Info)
    requires nodes == LoadNodesForHome(rows, home)
    ensures nodes[n := info] == LoadNodesForHome(Upsert(rows, RowKey(home, n), info.summary), home)
            <==> info.extras == StoredExtras(rows, RowKey(home, n))
  {
    var nodes', rows' := nodes[n := info], Upsert(rows, RowKey(home, n), info.summary);
    LoadedIff(nodes, rows, home);
    LoadedIff(nodes', rows', home);
    forall k: Byte
      ensures MatchesRow(nodes', rows', home, k) <==> (k == n ==> info.extras == StoredExtras(rows, RowKey(home, n)))
    {
      assert MatchesRow(nodes, rows, home, k);
      UpsertMatchesIff(nodes, rows, home, n, info, k);
    }
    assert MatchesRow(nodes', rows', home, n) <==> info.extras == StoredExtras(rows, RowKey(home, n));
  }

  /** From a state in sync, an `Add` keeps it so exactly if it is faithful. */
  lemma {:induction false} AddKeepsSyncIff(s: State, n: Byte, info: Info)
    requires s.home.Some? && InSync(s)
    ensures InSync(Step(s, Add(n, info))) <==> info.extras == StoredExtras(s.rows, RowKey(s.home.value, n))
  {
    UpsertLoadedIff(s.nodes, s.rows, s.home.value, n, info);
  }

  /** Including a known node again forgets its security class in memory while the row still has it. */
  lemma {:induction false} AddingAgainDiverges(s: State, n: Byte)
    requires s.home.Some? && InSync(s) && n in s.nodes && s.nodes[n].extras.scheme != 0
    ensures !InSync(Step(s, Add(n, Info(s.nodes[n].summary, DEFAULT_EXTRAS))))
  {
    LoadedNodes(s.rows, s.home.value, n);
    AddKeepsSyncIff(s, n, Info(s.nodes[n].summary, DEFAULT_EXTRAS));
  }

  lemma {:induction false} RunAppend(rows: Rows, ops: seq<Op>, op: Op)
    ensures Run(rows, ops + [op]) == Step(Run(rows, ops), op)
    ensures FaithfulAdds(rows, ops + [op]) <==> FaithfulAdds(rows, ops) && FaithfulAdd(Run(rows, ops), op)
  {
    assert (ops + [op])[..|ops|] == ops;
  }

  /** A node is seeded, bootstrapped securely, and then included again. */
  lemma {:induction false} SecondInclusionDiverges(home: Home, n: Byte)
    ensures !InSync(Run(map[], [SetHomeId(home), Seed(n), SetExtra(n, Scheme(1)),
                                Add(n, Info(DEFAULT_SUMMARY, DEFAULT_EXTRAS))]))
  {
    var op1, op2, op3 := SetHomeId(home), Seed(n), SetExtra(n, Scheme(1));
    var op4 := Add(n, Info(DEFAULT_SUMMARY, DEFAULT_EXTRAS));
    RunAppend(map[], [], op1);
    RunAppend(map[], [op1], op2);
    RunAppend(map[], [op1, op2], op3);
    RunAppend(map[], [op1, op2, op3], op4);
    assert [] + [op1] == [op1] && [op1] + [op2] == [op1, op2] && [op1, op2] + [op3] == [op1, op2, op3];
    assert [op1, op2, op3] + [op4] == [op1, op2, op3, op4];
    RunStaysInSync(map[], [op1, op2, op3]);
    LoadedNodes(map[], home, n);
    AddingAgainDiverges(Run(map[], [op1, op2, op3]), n);
  }

  lemma {:induction false} FaithfulPrefix(rows: Rows, ops: seq<Op>, k: nat)
    requires FaithfulAdds(rows, ops) && k <= |ops|
    ensures FaithfulAdds(rows, ops[..k])
    decreases |ops| - k
  {
    if k == |ops| {
      assert ops[..k] == ops;
    } else {
      FaithfulPrefix(rows, ops, k + 1);
      assert ops[..k + 1][..k] == ops[..k];
    }
  }

  lemma {:induction false} SyncedPrefixesAreFaithful(rows: Rows, ops: seq<Op>)
    requires forall k | 0 <= k <= |ops| :: InSync(Run(rows, ops[..k]))
    ensures FaithfulAdds(rows, ops)
    decreases |ops|
  {
    if ops != [] {
      var front, op := ops[..|ops| - 1], ops[|ops| - 1];
      forall k | 0 <= k <= |front|
        ensures InSync(Run(rows, front[..k]))
      {
        assert front[..k] == ops[..k];
      }
      SyncedPrefixesAreFaithful(rows, front);
      var s := Run(rows, front);
      assert InSync(s) && InSync(Run(rows, ops)) by {
        assert ops[..|ops|] == ops;
      }
      if op.Add? && s.home.Some? {
        AddKeepsSyncIff(s, op.node, op.info);
      }
    }
  }

  /** The map equals the table throughout a run exactly if every `Add` in it is faithful when it happens. */
  lemma {:induction false} AlwaysInSyncIff(rows: Rows, ops: seq<Op>)
    ensures (forall k | 0 <= k <= |ops| :: InSync(Run(rows, ops[..k]))) <==> FaithfulAdds(rows, ops)
  {
    if FaithfulAdds(rows, ops) {
      forall k | 0 <= k <= |ops|
        ensures InSync(Run(rows, ops[..k]))
      {
        FaithfulPrefix(rows, ops, k);
        RunStaysInSync(rows, ops[..k]);
      }
    }
    if forall k | 0 <= k <= |ops| :: InSync(Run(rows, ops[..k])) {
      SyncedPrefixesAreFaithful(rows, ops);
    }
  }

  // ---- Switching networks ------------------------------------------------------------------------

  predicate NeverBinds(ops: seq<Op>, home: Home) {
    SetHomeId(home) !in ops
  }

  /** While a home is not bound, no operation changes its rows. */
  lemma {:induction false} AwayKeepsRows(s: State, ops: seq<Op>, home: Home, n: Byte)
    requires s.home != Some(home) && NeverBinds(ops, home)
    ensures Steps(s, ops).home != Some(home)
    ensures RowKey(home, n) in Steps(s, ops).rows <==> RowKey(home, n) in s.rows
    ensures RowKey(home, n) in s.rows ==> Steps(s, ops).rows[RowKey(home, n)] == s.rows[RowKey(home, n)]
    decreases |ops|
  {
    if ops != [] {
      AwayKeepsRows(s, ops[..|ops| - 1], home, n);
      StepKeepsOtherHomes(Steps(s, ops[..|ops| - 1]), ops[|ops| - 1], RowKey(home, n));
      assert ops[|ops| - 1] in ops;
    }
  }

  /** Going to another network, working there at length and coming back restores the map exactly. */
  lemma {:induction false} AwayAndBack(s: State, other: Home, ops: seq<Op>, home: Home)
    requires s.home == Some(home) && InSync(s) && other != home && NeverBinds(ops, home)
    ensures var away := Steps(Step(s, SetHomeId(other)), ops);
            Step(away, SetHomeId(home)).nodes == s.nodes
  {
    var left := Step(s, SetHomeId(other));
    AwayKeepsRows(left, ops, home, 0);
    SameRowsLoadAlike(s.rows, left, ops, home);
  }

  lemma {:induction false} SameRowsLoadAlike(rows: Rows, left: State, ops: seq<Op>, home: Home)
    requires left.rows == rows && left.home != Some(home) && NeverBinds(ops, home)
    ensures LoadNodesForHome(Steps(left, ops).rows, home) == LoadNodesForHome(rows, home)
  {
    var nodes := LoadNodesForHome(rows, home);
    LoadedIff(nodes, rows, home);
    LoadedIff(nodes, Steps(left, ops).rows, home);
    forall n: Byte
      ensures MatchesRow(nodes, Steps(left, ops).rows, home, n)
    {
      assert MatchesRow(nodes, rows, home, n);
      AwayKeepsRows(left, ops, home, n);
    }
  }

  // ---- The registry ------------------------------------------------------------------------------

  class Registry {
    var rows: Rows
    var currentHomeId: Option<Home>
    var nodes: Nodes
    var announced: seq<seq<Listed>>

    ghost function Snapshot(): State
      reads this
    {
      State(rows, currentHomeId, nodes, announced)
    }

    constructor (rows: Rows)
      ensures Snapshot() == Opened(rows)
    {
      this.rows := rows;
      currentHomeId := None;
      nodes := map[];
      announced := [];
    }

    method LoadNodes(home: Home) returns (loaded: Nodes)
      ensures loaded == LoadNodesForHome(rows, home)
    {
      loaded := map[];
      var id: int := 0;
      while id < 256
        invariant 0 <= id <= 256
        invariant loaded == LoadBelow(rows, home, id)
      {
        if RowKey(home, id) in rows {
          loaded := loaded[id := rows[RowKey(home, id)]];
        }
        id := id + 1;
      }
    }

    /** Publishes the list of nodes, in the map's order. */
    method PublishSnapshot()
      modifies this`announced
      ensures announced == old(announced) + [Listing(nodes)]
    {
      var list: seq<Listed> := [];
      var id: int := 0;
      while id < 256
        invariant 0 <= id <= 256
        invariant list == ListingBelow(nodes, id)
      {
        if id in nodes {
          list := list + [Listed(id, nodes[id].summary)];
        }
        id := id + 1;
      }
      announced := announced + [list];
    }

    method PersistAdd(home: Home, n: Byte, summary: Summary)
      modifies this`rows
      ensures rows == Upsert(old(rows), RowKey(home, n), summary)
    {
      var key := RowKey(home, n);
      if key in rows {
        rows := rows[key := rows[key].(summary := summary)];
      } else {
        rows := rows[key := Info(summary, DEFAULT_EXTRAS)];
      }
    }

    method SetHomeId(home: Home)
      modifies this
      ensures Snapshot() == Step(old(Snapshot()), Op.SetHomeId(home))
    {
      if currentHomeId == Some(home) {
        return;
      }
      currentHomeId := Some(home);
      nodes := LoadNodes(home);
      PublishSnapshot();
    }

    method Add(n: Byte, info: Info)
      modifies this
      ensures Snapshot() == Step(old(Snapshot()), Op.Add(n, info))
    {
      if currentHomeId.None? {
        return;
      }
      nodes := nodes[n := info];
      PersistAdd(currentHomeId.value, n, info.summary);
      PublishSnapshot();
    }

    method Remove(n: Byte)
      modifies this
      ensures Snapshot() == Step(old(Snapshot()), Op.Remove(n))
    {
      if currentHomeId.None? {
        return;
      }
      nodes := nodes - {n};
      rows := rows - {RowKey(currentHomeId.value, n)};
      PublishSnapshot();
    }

    method Seed(n: Byte)
      modifies this
      ensures Snapshot() == Step(old(Snapshot()), Op.Seed(n))
    {
      if currentHomeId.None? || n in nodes {
        return;
      }
      nodes := nodes[n := Info(DEFAULT_SUMMARY, DEFAULT_EXTRAS)];
      PersistAdd(currentHomeId.value, n, DEFAULT_SUMMARY);
      PublishSnapshot();
    }

    method UpdateCommandClasses(n: Byte, commandClasses: seq<Byte>)
      modifies this
      ensures Snapshot() == Step(old(Snapshot()), Op.UpdateCommandClasses(n, commandClasses))
    {
      if currentHomeId.None? || n !in nodes {
        return;
      }
      var summary := nodes[n].summary.(commandClasses := commandClasses);
      nodes := nodes[n := nodes[n].(summary := summary)];
      PersistAdd(currentHomeId.value, n, summary);
      PublishSnapshot();
    }

    method UpdateDeviceClass(n: Byte, basicType: Byte, genericType: Byte, specificType: Byte)
      modifies this
      ensures Snapshot() == Step(old(Snapshot()), Op.UpdateDeviceClass(n, basicType, genericType, specificType))
    {
      if currentHomeId.None? || n !in nodes {
        return;
      }
      var summary :=
        nodes[n].summary.(basicType := basicType, genericType := genericType, specificType := specificType);
      nodes := nodes[n := nodes[n].(summary := summary)];
      PersistAdd(currentHomeId.value, n, summary);
      PublishSnapshot();
    }

    method SetSecurityScheme(n: Byte, scheme: Byte)
      modifies this
      ensures Snapshot() == Step(old(Snapshot()), SetExtra(n, Scheme(scheme)))
    {
      if n !in nodes {
        return;
      }
      nodes := nodes[n := nodes[n].(extras := nodes[n].extras.(scheme := scheme))];
      Update(n, Scheme(scheme));
    }

    method SetDeviceIdentity(n: Byte, identity: Identity)
      modifies this
      ensures Snapshot() == Step(old(Snapshot()), SetExtra(n, DeviceIdentity(identity)))
    {
      if n !in nodes {
        return;
      }
      nodes := nodes[n := nodes[n].(extras := nodes[n].extras.(identity := identity))];
      Update(n, DeviceIdentity(identity));
    }

    method SetVersionInfo(n: Byte, version: VersionInfo)
      modifies this
      ensures Snapshot() == Step(old(Snapshot()), SetExtra(n, Version(version)))
    {
      if n !in nodes {
        return;
      }
      nodes := nodes[n := nodes[n].(extras := nodes[n].extras.(version := version))];
      Update(n, Version(version));
    }

    method SetEndpointInfo(n: Byte, endpoints: EndpointInfo)
      modifies this
      ensures Snapshot() == Step(old(Snapshot()), SetExtra(n, Endpoints(endpoints)))
    {
      if n !in nodes {
        return;
      }
      nodes := nodes[n := nodes[n].(extras := nodes[n].extras.(endpoints := endpoints))];
      Update(n, Endpoints(endpoints));
    }

    method SetZWavePlusInfo(n: Byte, zwavePlus: ZWavePlusInfo)
      modifies this
      ensures Snapshot() == Step(old(Snapshot()), SetExtra(n, ZWavePlus(zwavePlus)))
    {
      if n !in nodes {
        return;
      }
      nodes := nodes[n := nodes[n].(extras := nodes[n].extras.(zwavePlus := zwavePlus))];
      Update(n, ZWavePlus(zwavePlus));
    }

    /** The partial update of a row; there is nothing to update without a bound home or a row. */
    method Update(n: Byte, change: Change)
      modifies this`rows
      ensures rows == if currentHomeId.None? then old(rows)
                      else UpdateExtras(old(rows), RowKey(currentHomeId.value, n), change)
    {
      if currentHomeId.None? {
        return;
      }
      var key := RowKey(currentHomeId.value, n);
      if key in rows {
        rows := rows[key := rows[key].(extras := Changed(rows[key].extras, change))];
      }
    }
  }
}
