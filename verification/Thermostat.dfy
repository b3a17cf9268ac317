/**
 * The logical thermostat: a group of nodes presented as one device. Reports from members are cached, and
 * each known group's aggregate is published whenever it differs from what was published last.
 */
module Thermostat {
  import opened Bytes
  import opened Decimal

  type Node = Byte

  const MODE_MIXED: Byte := 0xFF
  const OP_STATE_IDLE: Byte := 0
  const OP_STATE_HEATING: Byte := 1
  const OP_STATE_COOLING: Byte := 2

  datatype Group = Group(key: string, value: string)

  datatype Setpoint = Setpoint(kind: Byte, scale: Byte, precision: Byte, value: I32)

  const NO_SETPOINT := Setpoint(0, 0, 0, 0)

  datatype Field = Mode | OperatingState | FanMode

  datatype Climate = Climate(
    mode: Option<Byte>, operatingState: Option<Byte>, fanMode: Option<Byte>,
    setpoint: Option<Setpoint>, setpointSeq: nat)

  const UNKNOWN_CLIMATE := Climate(None, None, None, None, 0)

  function Pick(c: Climate, field: Field): Option<Byte> {
    match field
    case Mode => c.mode
    case OperatingState => c.operatingState
    case FanMode => c.fanMode
  }

  /** Which nodes carry a group's tag; it does not change during a run. */
  type Membership = map<Group, seq<Node>>

  function MembersOf(m: Membership, g: Group): seq<Node> {
    if g in m then m[g] else []
  }

  datatype Reading = Value(field: Field, value: Byte) | SetpointIs(setpoint: Setpoint)

  datatype Event = Report(node: Node, reading: Reading) | GroupAddressed(group: Group)

  datatype Aggregate = Aggregate(
    memberCount: Byte, mode: Byte, operatingState: Byte, fanMode: Byte, setpoint: Setpoint)

  // ---- The cache of readings ---------------------------------------------------------------------

  datatype Cache = Cache(perNode: map<Node, Climate>, setpointCounter: nat)

  function ClimateOf(perNode: map<Node, Climate>, n: Node): Climate {
    if n in perNode then perNode[n] else UNKNOWN_CLIMATE
  }

  function WithReading(c: Climate, reading: Reading, counter: nat): Climate {
    match reading
    case Value(Mode, v) => c.(mode := Some(v))
    case Value(OperatingState, v) => c.(operatingState := Some(v))
    case Value(FanMode, v) => c.(fanMode := Some(v))
    case SetpointIs(setpoint) => c.(setpoint := Some(setpoint), setpointSeq := counter)
  }

  function Noted(cache: Cache, n: Node, reading: Reading): Cache {
    var counter := cache.setpointCounter + if reading.SetpointIs? then 1 else 0;
    Cache(cache.perNode[n := WithReading(ClimateOf(cache.perNode, n), reading, counter)], counter)
  }

  ghost function CachedValues(perNode: map<Node, Climate>, members: seq<Node>, field: Field): set<Byte> {
    set n | n in members && Pick(ClimateOf(perNode, n), field).Some? :: Pick(ClimateOf(perNode, n), field).value
  }

  /** 0 if there is no value, the value if there is only one, else the mixed marker. */
  ghost function Common(values: set<Byte>): Byte {
    if values == {} then 0
    else
      var v :| v in values;
      if forall w | w in values :: w == v then v else MODE_MIXED
  }

  ghost function Activity(values: set<Byte>): Byte {
    if OP_STATE_HEATING in values then OP_STATE_HEATING
    else if OP_STATE_COOLING in values then OP_STATE_COOLING
    else OP_STATE_IDLE
  }

  datatype Best = Best(setpoint: Setpoint, sequence: nat)

  function BestSetpoint(perNode: map<Node, Climate>, members: seq<Node>): Best {
    if members == [] then Best(NO_SETPOINT, 0)
    else
      var best := BestSetpoint(perNode, members[..|members| - 1]);
      var c := ClimateOf(perNode, members[|members| - 1]);
      if c.setpoint.Some? && c.setpointSeq >= best.sequence then Best(c.setpoint.value, c.setpointSeq) else best
  }

  ghost function CachedAggregate(perNode: map<Node, Climate>, members: seq<Node>): Aggregate {
    Aggregate(|members| % 256,
              Common(CachedValues(perNode, members, Mode)),
              Activity(CachedValues(perNode, members, OperatingState)),
              Common(CachedValues(perNode, members, FanMode)),
              BestSetpoint(perNode, members).setpoint)
  }

  // ---- The signature -----------------------------------------------------------------------------

  function Join(xs: seq<int>): string
    requires xs != []
  {
    if |xs| == 1 then ToString(xs[0]) else Join(xs[..|xs| - 1]) + ":" + ToString(xs[|xs| - 1])
  }

  function Numbers(a: Aggregate): seq<int> {
    [a.memberCount, a.mode, a.operatingState, a.fanMode, a.setpoint.kind, a.setpoint.scale, a.setpoint.precision,
     a.setpoint.value]
  }

  function Signature(a: Aggregate): string {
    Join(Numbers(a))
  }

  lemma {:induction false} NoColon(i: int)
    ensures ':' !in ToString(i)
  {
    assert forall k | 0 <= k < |ToString(i)| :: IsDigit(ToString(i)[k]) || ToString(i)[k] == '-';
  }

  lemma {:induction false} SplitAtLastColon(a: string, b: string, c: string, d: string)
    requires a + ":" + b == c + ":" + d
    requires ':' !in b && ':' !in d
    ensures a == c && b == d
  {
    var s := a + ":" + b;
    assert s[|a|] == ':' && s[|c|] == ':';
    assert forall i | |a| < i < |s| :: s[i] == b[i - |a| - 1];
    assert forall i | |c| < i < |s| :: s[i] == d[i - |c| - 1];
    assert |a| == |c|;
    assert s[..|a|] == a && s[..|c|] == c && s[|a| + 1..] == b && s[|c| + 1..] == d;
  }

  lemma {:induction false} JoinInjective(xs: seq<int>, ys: seq<int>)
    requires |xs| == |ys| > 0 && Join(xs) == Join(ys)
    ensures xs == ys
    decreases |xs|
  {
    var i := |xs| - 1;
    if i == 0 {
      ToStringInjective(xs[0], ys[0]);
    } else {
      NoColon(xs[i]);
      NoColon(ys[i]);
      SplitAtLastColon(Join(xs[..i]), ToString(xs[i]), Join(ys[..i]), ToString(ys[i]));
      ToStringInjective(xs[i], ys[i]);
      JoinInjective(xs[..i], ys[..i]);
      assert xs == xs[..i] + [xs[i]] && ys == ys[..i] + [ys[i]];
    }
  }

  /** Two aggregates have the same signature only if they are the same. */
  lemma {:induction false} SignatureInjective(a: Aggregate, b: Aggregate)
    requires Signature(a) == Signature(b)
    ensures a == b
  {
    var xs, ys := Numbers(a), Numbers(b);
    JoinInjective(xs, ys);
    assert xs[0] == ys[0] && xs[1] == ys[1] && xs[2] == ys[2] && xs[3] == ys[3];
    assert xs[4] == ys[4] && xs[5] == ys[5] && xs[6] == ys[6] && xs[7] == ys[7];
  }

  lemma {:induction false} SignatureNonEmpty(a: Aggregate)
    ensures Signature(a) != ""
  {}

  // ---- The set of known groups -------------------------------------------------------------------

  predicate TextLess(a: string, b: string) {
    if b == [] then false
    else if a == [] then true
    else a[0] < b[0] || (a[0] == b[0] && TextLess(a[1..], b[1..]))
  }

  predicate GroupLess(a: Group, b: Group) {
    TextLess(a.key, b.key) || (a.key == b.key && TextLess(a.value, b.value))
  }

  /** Insertion into an ordered set, kept as the list of its elements in order. */
  function Insert(known: seq<Group>, g: Group): seq<Group> {
    if known == [] then [g]
    else if known[0] == g then known
    else if GroupLess(g, known[0]) then [g] + known
    else [known[0]] + Insert(known[1..], g)
  }

  predicate Ordered(known: seq<Group>) {
    forall i, j | 0 <= i < j < |known| :: GroupLess(known[i], known[j])
  }

  lemma {:induction false} TextLessOrder(a: string, b: string, c: string)
    ensures !TextLess(a, a)
    ensures a != b ==> TextLess(a, b) || TextLess(b, a)
    ensures TextLess(a, b) && TextLess(b, c) ==> TextLess(a, c)
    decreases |a| + |b| + |c|
  {
    if a != [] {
      TextLessOrder(a[1..], if b == [] then b else b[1..], if c == [] then c else c[1..]);
      if b != [] && a[0] == b[0] && a[1..] == b[1..] {
        assert a == [a[0]] + a[1..] && b == [b[0]] + b[1..];
      }
    }
  }

  lemma {:induction false} GroupLessOrder(a: Group, b: Group, c: Group)
    ensures !GroupLess(a, a)
    ensures a != b ==> GroupLess(a, b) || GroupLess(b, a)
    ensures GroupLess(a, b) && GroupLess(b, c) ==> GroupLess(a, c)
  {
    TextLessOrder(a.key, b.key, c.key);
    TextLessOrder(a.value, b.value, c.value);
  }

  lemma {:induction false} OrderedTail(known: seq<Group>)
    requires Ordered(known) && known != []
    ensures Ordered(known[1..]) && known[0] !in known[1..]
    ensures forall x | x in known[1..] :: GroupLess(known[0], x)
  {
    GroupLessOrder(known[0], known[0], known[0]);
  }

  lemma {:induction false} OrderedCons(g: Group, known: seq<Group>)
    requires Ordered(known) && forall x | x in known :: GroupLess(g, x)
    ensures Ordered([g] + known)
  {}

  /** The list stays in order and gains exactly the inserted group. */
  lemma {:induction false} InsertOrdered(known: seq<Group>, g: Group)
    requires Ordered(known)
    ensures Ordered(Insert(known, g))
    ensures forall x :: x in Insert(known, g) <==> x in known || x == g
    decreases |known|
  {
    if known != [] && known[0] != g {
      var head, tail := known[0], known[1..];
      OrderedTail(known);
      assert known == [head] + tail;
      GroupLessOrder(g, head, g);
      if GroupLess(g, head) {
        forall x | x in known
          ensures GroupLess(g, x)
        {
          GroupLessOrder(g, head, x);
        }
        OrderedCons(g, known);
      } else {
        InsertOrdered(tail, g);
        OrderedCons(head, Insert(tail, g));
      }
    }
  }

  // ---- What is published -------------------------------------------------------------------------

  datatype Notice = Notice(group: Group, state: Aggregate)

  datatype Board = Board(lastSignature: map<Group, string>, published: seq<Notice>)

  function LastSignature(board: Board, g: Group): string {
    if g in board.lastSignature then board.lastSignature[g] else ""
  }

  function Posted(board: Board, g: Group, state: Aggregate): Board {
    if LastSignature(board, g) == Signature(state) then board
    else Board(board.lastSignature[g := Signature(state)], board.published + [Notice(g, state)])
  }

  ghost function Refreshed(
    board: Board, perNode: map<Node, Climate>, m: Membership, n: Node, groups: seq<Group>): Board {
    if groups == [] then board
    else
      var before := Refreshed(board, perNode, m, n, groups[..|groups| - 1]);
      var g := groups[|groups| - 1];
      if n in MembersOf(m, g) then Posted(before, g, CachedAggregate(perNode, MembersOf(m, g))) else before
  }

  datatype State = State(cache: Cache, known: seq<Group>, board: Board)

  const START := State(Cache(map[], 0), [], Board(map[], []))

  ghost function Step(m: Membership, s: State, e: Event): State {
    match e
    case Report(n, reading) =>
      var cache := Noted(s.cache, n, reading);
      State(cache, s.known, Refreshed(s.board, cache.perNode, m, n, s.known))
    case GroupAddressed(g) => s.(known := Insert(s.known, g))
  }

  ghost function Run(m: Membership, history: seq<Event>): State {
    if history == [] then START else Step(m, Run(m, history[..|history| - 1]), history[|history| - 1])
  }

  // ---- The orchestrator --------------------------------------------------------------------------

  class Orchestrator {
    const membership: Membership
    var perNode: map<Node, Climate>
    var knownGroups: seq<Group>
    var lastSignature: map<Group, string>
    var setpointCounter: nat
    var published: seq<Notice>

    ghost function Snapshot(): State
      reads this
    {
      State(Cache(perNode, setpointCounter), knownGroups, Board(lastSignature, published))
    }

    constructor (membership: Membership)
      ensures this.membership == membership && Snapshot() == START
    {
      this.membership := membership;
      perNode := map[];
      knownGroups := [];
      lastSignature := map[];
      setpointCounter := 0;
      published := [];
    }

    /** The value members agree on among those that reported one. */
    method AggregateByte(members: seq<Node>, field: Field) returns (value: Byte)
      ensures value == Common(CachedValues(perNode, members, field))
    {
      var common: Option<Byte> := None;
      var mixed := false;
      var i := 0;
      while i < |members|
        invariant 0 <= i <= |members|
        invariant common.None? <==> CachedValues(perNode, members[..i], field) == {}
        invariant common.Some? ==> common.value in CachedValues(perNode, members[..i], field)
        invariant mixed <==>
                  common.Some? && exists w :: w in CachedValues(perNode, members[..i], field) && w != common.value
      {
        CachedAppend(perNode, members, i, field);
        if members[i] in perNode {
          var reported := Pick(perNode[members[i]], field);
          if reported.Some? {
            if common.None? {
              common := reported;
            } else if common.value != reported.value {
              mixed := true;
            }
          }
        }
        i := i + 1;
      }
      assert members[..i] == members;
      if mixed {
        return MODE_MIXED;
      }
      return if common.Some? then common.value else 0;
    }

    /** Heating if any member heats, else cooling if any cools, else idle. */
    method AggregateOperatingState(members: seq<Node>) returns (value: Byte)
      ensures value == Activity(CachedValues(perNode, members, OperatingState))
    {
      var anyCooling := false;
      var i := 0;
      while i < |members|
        invariant 0 <= i <= |members|
        invariant OP_STATE_HEATING !in CachedValues(perNode, members[..i], OperatingState)
        invariant anyCooling <==> OP_STATE_COOLING in CachedValues(perNode, members[..i], OperatingState)
      {
        CachedAppend(perNode, members, i, OperatingState);
        if members[i] in perNode && perNode[members[i]].operatingState.Some? {
          var state := perNode[members[i]].operatingState.value;
          if state == OP_STATE_HEATING {
            CachedPrefix(perNode, members, i + 1, OperatingState);
            return OP_STATE_HEATING;
          }
          if state == OP_STATE_COOLING {
            anyCooling := true;
          }
        }
        i := i + 1;
      }
      assert members[..i] == members;
      return if anyCooling then OP_STATE_COOLING else OP_STATE_IDLE;
    }

    /** The setpoint with the highest sequence number. */
    method AggregateSetpoint(members: seq<Node>) returns (setpoint: Setpoint)
      ensures setpoint == BestSetpoint(perNode, members).setpoint
    {
      setpoint := NO_SETPOINT;
      var bestSeq := 0;
      var i := 0;
      while i < |members|
        invariant 0 <= i <= |members|
        invariant Best(setpoint, bestSeq) == BestSetpoint(perNode, members[..i])
      {
        assert members[..i + 1][..i] == members[..i];
        if members[i] in perNode {
          var entry := perNode[members[i]];
          if entry.setpoint.Some? && entry.setpointSeq >= bestSeq {
            bestSeq := entry.setpointSeq;
            setpoint := entry.setpoint.value;
          }
        }
        i := i + 1;
      }
      assert members[..i] == members;
    }

    method PublishGroupState(g: Group)
      modifies this`lastSignature, this`published
      ensures Board(lastSignature, published)
              == Posted(Board(old(lastSignature), old(published)), g,
                        CachedAggregate(perNode, MembersOf(membership, g)))
    {
      var members := MembersOf(membership, g);
      var mode := AggregateByte(members, Mode);
      var fan := AggregateByte(members, FanMode);
      var operating := AggregateOperatingState(members);
      var setpoint := AggregateSetpoint(members);
      var event := Aggregate(|members| % 256, mode, operating, fan, setpoint);
      var signature := Signature(event);
      SignatureNonEmpty(event);
      if g in lastSignature && lastSignature[g] == signature {
        return;
      }
      lastSignature := lastSignature[g := signature];
      published := published + [Notice(g, event)];
    }

    method RefreshGroupsForNode(n: Node)
      modifies this`lastSignature, this`published
      ensures Board(lastSignature, published)
              == Refreshed(Board(old(lastSignature), old(published)), perNode, membership, n, knownGroups)
    {
      ghost var board := Board(lastSignature, published);
      var i := 0;
      while i < |knownGroups|
        invariant 0 <= i <= |knownGroups|
        invariant Board(lastSignature, published) == Refreshed(board, perNode, membership, n, knownGroups[..i])
      {
        assert knownGroups[..i + 1][..i] == knownGroups[..i];
        if n in MembersOf(membership, knownGroups[i]) {
          PublishGroupState(knownGroups[i]);
        }
        i := i + 1;
      }
      assert knownGroups[..i] == knownGroups;
    }

    method OnGroupCommand(g: Group)
      modifies this
      ensures Snapshot() == Step(membership, old(Snapshot()), GroupAddressed(g))
    {
      knownGroups := Insert(knownGroups, g);
    }

    method OnModeReport(n: Node, mode: Byte)
      modifies this
      ensures Snapshot() == Step(membership, old(Snapshot()), Report(n, Value(Mode, mode)))
    {
      perNode := perNode[n := ClimateOf(perNode, n).(mode := Some(mode))];
      RefreshGroupsForNode(n);
    }

    method OnOperatingStateReport(n: Node, state: Byte)
      modifies this
      ensures Snapshot() == Step(membership, old(Snapshot()), Report(n, Value(OperatingState, state)))
    {
      perNode := perNode[n := ClimateOf(perNode, n).(operatingState := Some(state))];
      RefreshGroupsForNode(n);
    }

    method OnFanModeReport(n: Node, mode: Byte)
      modifies this
      ensures Snapshot() == Step(membership, old(Snapshot()), Report(n, Value(FanMode, mode)))
    {
      perNode := perNode[n := ClimateOf(perNode, n).(fanMode := Some(mode))];
      RefreshGroupsForNode(n);
    }

    method OnSetpointReport(n: Node, setpoint: Setpoint)
      modifies this
      ensures Snapshot() == Step(membership, old(Snapshot()), Report(n, SetpointIs(setpoint)))
    {
      setpointCounter := setpointCounter + 1;
      perNode := perNode[n := ClimateOf(perNode, n).(setpoint := Some(setpoint), setpointSeq := setpointCounter)];
      RefreshGroupsForNode(n);
    }
  }

  lemma {:induction false} CachedAppend(perNode: map<Node, Climate>, members: seq<Node>, i: nat, field: Field)
    requires i < |members|
    ensures var reported := Pick(ClimateOf(perNode, members[i]), field);
            CachedValues(perNode, members[..i + 1], field)
            == CachedValues(perNode, members[..i], field) + if reported.Some? then {reported.value} else {}
  {
    assert members[..i + 1] == members[..i] + [members[i]];
  }

  lemma {:induction false} CachedPrefix(perNode: map<Node, Climate>, members: seq<Node>, i: nat, field: Field)
    requires i <= |members|
    ensures CachedValues(perNode, members[..i], field) <= CachedValues(perNode, members, field)
  {
    assert forall n | n in members[..i] :: n in members;
  }
}
