/**
 * The registry against its history: which nodes it holds and what every column of theirs says, worked out from
 * the operations alone, column by column and without a map or a table.
 */
module NodeHistory {
  import opened Bytes
  import opened NodeRegistry

  datatype Column =
    | BasicType | GenericType | SpecificType | CommandClasses
    | SecurityScheme | DeviceIdentity | VersionInfo | Endpoints | ZWavePlus

  datatype Cell =
    | Number(value: Byte)
    | Classes(list: seq<Byte>)
    | IdentityCell(identity: Identity)
    | VersionCell(version: NodeRegistry.VersionInfo)
    | EndpointCell(endpoints: EndpointInfo)
    | ZWavePlusCell(zwavePlus: ZWavePlusInfo)

  function CellOf(info: Info, c: Column): Cell {
    match c
    case BasicType => Number(info.summary.basicType)
    case GenericType => Number(info.summary.genericType)
    case SpecificType => Number(info.summary.specificType)
    case CommandClasses => Classes(info.summary.commandClasses)
    case SecurityScheme => Number(info.extras.scheme)
    case DeviceIdentity => IdentityCell(info.extras.identity)
    case VersionInfo => VersionCell(info.extras.version)
    case Endpoints => EndpointCell(info.extras.endpoints)
    case ZWavePlus => ZWavePlusCell(info.extras.zwavePlus)
  }

  /** What a column holds before anything is known of the node. */
  function Unknown(c: Column): Cell {
    match c
    case CommandClasses => Classes([])
    case DeviceIdentity => IdentityCell(Identity(0, 0, 0))
    case VersionInfo => VersionCell(NodeRegistry.VersionInfo(0, 0, 0, 0, 0))
    case Endpoints => EndpointCell(EndpointInfo(0, false, false))
    case ZWavePlus => ZWavePlusCell(ZWavePlusInfo(0, 0, 0, 0, 0))
    case _ => Number(0)
  }

  predicate InSummary(c: Column) {
    c.BasicType? || c.GenericType? || c.SpecificType? || c.CommandClasses?
  }

  /** What an operation writes into a column of its node's row. An `Add` writes the summary columns only. */
  function Writes(op: Op, c: Column): Option<Cell> {
    match op
    case Add(_, info) => if InSummary(c) then Some(CellOf(info, c)) else None
    case UpdateCommandClasses(_, commandClasses) => if c.CommandClasses? then Some(Classes(commandClasses)) else None
    case UpdateDeviceClass(_, basicType, genericType, specificType) =>
      if c.BasicType? then Some(Number(basicType))
      else if c.GenericType? then Some(Number(genericType))
      else if c.SpecificType? then Some(Number(specificType))
      else None
    case SetExtra(_, Scheme(scheme)) => if c.SecurityScheme? then Some(Number(scheme)) else None
    case SetExtra(_, DeviceIdentity(identity)) => if c.DeviceIdentity? then Some(IdentityCell(identity)) else None
    case SetExtra(_, Version(version)) => if c.VersionInfo? then Some(VersionCell(version)) else None
    case SetExtra(_, Endpoints(endpoints)) => if c.Endpoints? then Some(EndpointCell(endpoints)) else None
    case SetExtra(_, ZWavePlus(zwavePlus)) => if c.ZWavePlus? then Some(ZWavePlusCell(zwavePlus)) else None
    case _ => None
  }

  function OrElse(a: Option<Cell>, b: Cell): Cell {
    if a.Some? then a.value else b
  }

  /** The network bound last. */
  function BoundHome(ops: seq<Op>): Option<Home>
    decreases |ops|
  {
    if ops == [] then None
    else if ops[|ops| - 1].SetHomeId? then Some(ops[|ops| - 1].home)
    else BoundHome(ops[..|ops| - 1])
  }

  predicate Concerns(op: Op, n: Byte) {
    !op.SetHomeId? && op.node == n
  }

  /** A cell after one operation on its node. */
  function CellAfter(before: Option<Cell>, op: Op, c: Column): Option<Cell> {
    if op.Remove? then None
    else if before.Some? then Some(OrElse(Writes(op, c), before.value))
    else if op.Add? || op.Seed? then Some(OrElse(Writes(op, c), Unknown(c)))
    else None
  }

  /** What the table says in column `c` of a row, if there is such a row, according to the history. */
  function Stored(rows: Rows, ops: seq<Op>, key: RowKey, c: Column): Option<Cell>
    decreases |ops|
  {
    if ops == [] then (if key in rows then Some(CellOf(rows[key], c)) else None)
    else
      var front, op := ops[..|ops| - 1], ops[|ops| - 1];
      if BoundHome(front) == Some(key.home) && Concerns(op, key.node) then CellAfter(Stored(rows, front, key, c), op, c)
      else Stored(rows, front, key, c)
  }

  /** What the registry remembers of node `n` in column `c`, according to the history. */
  function Remembered(rows: Rows, ops: seq<Op>, n: Byte, c: Column): Option<Cell>
    decreases |ops|
  {
    if ops == [] then None
    else
      var front, op := ops[..|ops| - 1], ops[|ops| - 1];
      var before := Remembered(rows, front, n, c);
      if op.SetHomeId? then
        (if BoundHome(front) == Some(op.home) then before else Stored(rows, front, RowKey(op.home, n), c))
      else if BoundHome(front).None? || op.node != n then before
      else if op.Add? then Some(CellOf(op.info, c))
      else CellAfter(before, op, c)
  }

  function InRows(rows: Rows, key: RowKey, c: Column): Option<Cell> {
    if key in rows then Some(CellOf(rows[key], c)) else None
  }

  function InMap(nodes: Nodes, n: Byte, c: Column): Option<Cell> {
    if n in nodes then Some(CellOf(nodes[n], c)) else None
  }

  lemma {:induction false} HomeIsBound(rows: Rows, ops: seq<Op>)
    ensures Run(rows, ops).home == BoundHome(ops)
    decreases |ops|
  {
    if ops != [] {
      HomeIsBound(rows, ops[..|ops| - 1]);
    }
  }

  lemma {:induction false} OtherRowStays(s: State, op: Op, key: RowKey)
    requires !(s.home == Some(key.home) && Concerns(op, key.node))
    ensures key in Step(s, op).rows <==> key in s.rows
    ensures key in s.rows ==> Step(s, op).rows[key] == s.rows[key]
  {}

  /** An upsert writes the summary and leaves or creates the other columns. */
  lemma {:induction false} UpsertedCell(rows: Rows, key: RowKey, summary: Summary, c: Column)
    ensures InRows(Upsert(rows, key, summary), key, c)
            == Some(if InSummary(c) then CellOf(Info(summary, DEFAULT_EXTRAS), c)
                    else OrElse(InRows(rows, key, c), Unknown(c)))
  {}

  function NewSummary(summary: Summary, op: Op): Summary {
    match op
    case UpdateCommandClasses(_, commandClasses) => summary.(commandClasses := commandClasses)
    case UpdateDeviceClass(_, basic, generic, specific) =>
      summary.(basicType := basic, genericType := generic, specificType := specific)
    case _ => summary
  }

  lemma {:induction false} OwnRowFollows(s: State, op: Op, key: RowKey, c: Column)
    requires SummariesAgree(s, key.node) && s.home == Some(key.home) && Concerns(op, key.node)
    ensures InRows(Step(s, op).rows, key, c) == CellAfter(InRows(s.rows, key, c), op, c)
  {
    if op.Add? {
      UpsertedCell(s.rows, key, op.info.summary, c);
    } else if op.Seed? {
      UpsertedCell(s.rows, key, DEFAULT_SUMMARY, c);
    } else if op.SetExtra? {
      if key in s.rows {
        ChangedCell(s.rows[key], op, c);
      }
    } else if key.node in s.nodes {
      UpsertedCell(s.rows, key, NewSummary(s.nodes[key.node].summary, op), c);
    }
  }

  lemma {:induction false} StepOnRow(s: State, op: Op, key: RowKey, c: Column)
    requires SummariesAgree(s, key.node)
    ensures InRows(Step(s, op).rows, key, c)
            == if s.home == Some(key.home) && Concerns(op, key.node) then CellAfter(InRows(s.rows, key, c), op, c)
               else InRows(s.rows, key, c)
  {
    if s.home == Some(key.home) && Concerns(op, key.node) {
      OwnRowFollows(s, op, key, c);
    } else {
      OtherRowStays(s, op, key);
    }
  }

  /** A setter changes the column it is for and no other. */
  lemma {:induction false} ChangedCell(info: Info, op: Op, c: Column)
    requires op.SetExtra?
    ensures CellOf(info.(extras := Changed(info.extras, op.change)), c) == OrElse(Writes(op, c), CellOf(info, c))
  {}

  lemma {:induction false} StepOnMap(s: State, op: Op, n: Byte, c: Column)
    requires s.home.None? ==> s.nodes == map[]
    ensures InMap(Step(s, op).nodes, n, c)
            == if op.SetHomeId? then
                 (if s.home == Some(op.home) then InMap(s.nodes, n, c) else InRows(s.rows, RowKey(op.home, n), c))
               else if s.home.None? || op.node != n then InMap(s.nodes, n, c)
               else if op.Add? then Some(CellOf(op.info, c))
               else CellAfter(InMap(s.nodes, n, c), op, c)
  {
    if op.SetHomeId? {
      LoadedNodes(s.rows, op.home, n);
    } else if op.SetExtra? && n in s.nodes {
      ChangedCell(s.nodes[n], op, c);
    }
  }

  /** In every run, every column of every row of every network says what the history says it should. */
  lemma {:induction false} TableIsHistory(rows: Rows, ops: seq<Op>, key: RowKey, c: Column)
    ensures InRows(Run(rows, ops).rows, key, c) == Stored(rows, ops, key, c)
    decreases |ops|
  {
    if ops != [] {
      var front, op := ops[..|ops| - 1], ops[|ops| - 1];
      TableIsHistory(rows, front, key, c);
      HomeIsBound(rows, front);
      RunKeepsSummaries(rows, front);
      StepOnRow(Run(rows, front), op, key, c);
    }
  }

  /** In every run, the registry remembers of every node, in every column, what the history says it should. */
  lemma {:induction false} MapIsHistory(rows: Rows, ops: seq<Op>, n: Byte, c: Column)
    ensures InMap(Run(rows, ops).nodes, n, c) == Remembered(rows, ops, n, c)
    decreases |ops|
  {
    if ops != [] {
      var front, op := ops[..|ops| - 1], ops[|ops| - 1];
      MapIsHistory(rows, front, n, c);
      HomeIsBound(rows, front);
      RunKeepsSummaries(rows, front);
      StepOnMap(Run(rows, front), op, n, c);
      if op.SetHomeId? {
        TableIsHistory(rows, front, RowKey(op.home, n), c);
      }
    }
  }

  // ---- Which nodes there are ---------------------------------------------------------------------

  /** Operation `i` concerns the row while its network is bound. */
  predicate Reaches(ops: seq<Op>, i: nat, key: RowKey) {
    i < |ops| && Concerns(ops[i], key.node) && BoundHome(ops[..i]) == Some(key.home)
  }

  predicate Brings(ops: seq<Op>, i: nat, key: RowKey) {
    Reaches(ops, i, key) && (ops[i].Add? || ops[i].Seed?)
  }

  predicate Removes(ops: seq<Op>, i: nat, key: RowKey) {
    Reaches(ops, i, key) && ops[i].Remove?
  }

  /** Nothing removes the row from operation `i` on. */
  ghost predicate KeptFrom(ops: seq<Op>, i: nat, key: RowKey) {
    forall j | i <= j < |ops| :: !Removes(ops, j, key)
  }

  /** The row was there from the start, or was brought, and has not been removed since. */
  ghost predicate Present(rows: Rows, ops: seq<Op>, key: RowKey) {
    || (key in rows && KeptFrom(ops, 0, key))
    || exists i :: Brings(ops, i, key) && KeptFrom(ops, i, key)
  }

  lemma {:induction false} ReachesInFront(ops: seq<Op>, i: nat, key: RowKey)
    requires i < |ops| - 1
    ensures Brings(ops[..|ops| - 1], i, key) <==> Brings(ops, i, key)
    ensures Removes(ops[..|ops| - 1], i, key) <==> Removes(ops, i, key)
  {
    assert ops[..|ops| - 1][..i] == ops[..i];
  }

  lemma {:induction false} KeptInFront(ops: seq<Op>, i: nat, key: RowKey)
    requires ops != [] && i < |ops|
    ensures KeptFrom(ops, i, key) <==> KeptFrom(ops[..|ops| - 1], i, key) && !Removes(ops, |ops| - 1, key)
  {
    var front := ops[..|ops| - 1];
    forall j | 0 <= j < |front|
      ensures Removes(front, j, key) <==> Removes(ops, j, key)
    {
      ReachesInFront(ops, j, key);
    }
  }

  lemma {:induction false} PresentNext(rows: Rows, ops: seq<Op>, key: RowKey)
    requires ops != []
    ensures var last := |ops| - 1;
            Present(rows, ops, key)
            <==> Brings(ops, last, key) || (Present(rows, ops[..last], key) && !Removes(ops, last, key))
  {
    var last, front := |ops| - 1, ops[..|ops| - 1];
    KeptInFront(ops, 0, key);
    if Brings(ops, last, key) {
      assert KeptFrom(ops, last, key);
    }
    if i: nat :| Brings(ops, i, key) && KeptFrom(ops, i, key) {
      if i < last {
        ReachesInFront(ops, i, key);
        KeptInFront(ops, i, key);
      }
    }
    if i: nat :| Brings(front, i, key) && KeptFrom(front, i, key) {
      ReachesInFront(ops, i, key);
      KeptInFront(ops, i, key);
    }
  }

  /**
   * In every run, a network holds a node exactly if it had it from the start or the node was added or seeded
   * while the network was bound, and it was not removed while bound since.
   */
  lemma {:induction false} PresentIff(rows: Rows, ops: seq<Op>, key: RowKey)
    ensures key in Run(rows, ops).rows <==> Present(rows, ops, key)
    decreases |ops|
  {
    if ops != [] {
      var front, op := ops[..|ops| - 1], ops[|ops| - 1];
      PresentIff(rows, front, key);
      PresentNext(rows, ops, key);
      HomeIsBound(rows, front);
      RunKeepsSummaries(rows, front);
      StepOnRow(Run(rows, front), op, key, BasicType);
    }
  }

  /** The list announced last holds exactly the nodes that are present in the bound network. */
  lemma {:induction false} AnnouncedIff(rows: Rows, ops: seq<Op>, n: Byte)
    requires BoundHome(ops).Some?
    ensures var s := Run(rows, ops);
            && s.announced != []
            && (Present(rows, ops, RowKey(BoundHome(ops).value, n))
                <==> exists x :: x in s.announced[|s.announced| - 1] && x.node == n)
  {
    var s := Run(rows, ops);
    HomeIsBound(rows, ops);
    RunKeepsSummaries(rows, ops);
    PresentIff(rows, ops, RowKey(BoundHome(ops).value, n));
    ListingIsTheMap(s.nodes, 256);
    assert SummariesAgree(s, n);
    if n in s.nodes {
      assert Listed(n, s.nodes[n].summary) in Listing(s.nodes);
    }
  }

  /** The operations that announce the list: a new network, and every change of the nodes or their summaries. */
  predicate Announces(s: State, op: Op) {
    match op
    case SetHomeId(home) => s.home != Some(home)
    case Add(_, _) => s.home.Some?
    case Remove(_) => s.home.Some?
    case Seed(n) => s.home.Some? && n !in s.nodes
    case UpdateCommandClasses(n, _) => s.home.Some? && n in s.nodes
    case UpdateDeviceClass(n, _, _, _) => s.home.Some? && n in s.nodes
    case SetExtra(_, _) => false
  }

  /** Each of them announces once, and no other operation does. */
  lemma {:induction false} AnnouncesOnce(s: State, op: Op)
    ensures Step(s, op).announced == s.announced + if Announces(s, op) then [Listing(Step(s, op).nodes)] else []
  {
    assert s.announced + [] == s.announced;
  }
}
