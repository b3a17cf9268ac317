/** What every run of the logical thermostat publishes, stated over the history of reports alone. */
module ThermostatRuns {
  import opened Bytes
  import opened Thermostat

  // ---- The reference: aggregates recomputed from the whole history -------------------------------

  /** The last value of a field that `n` reported. */
  ghost function Latest(history: seq<Event>, n: Node, field: Field): Option<Byte> {
    if history == [] then None
    else
      var e := history[|history| - 1];
      if e.Report? && e.node == n && e.reading.Value? && e.reading.field == field then Some(e.reading.value)
      else Latest(history[..|history| - 1], n, field)
  }

  ghost function Reported(history: seq<Event>, members: set<Node>, field: Field): set<Byte> {
    set n | n in members && Latest(history, n, field).Some? :: Latest(history, n, field).value
  }

  /** The last setpoint that any of the members reported. */
  ghost function LatestSetpoint(history: seq<Event>, members: set<Node>): Option<Setpoint> {
    if history == [] then None
    else
      var e := history[|history| - 1];
      if e.Report? && e.node in members && e.reading.SetpointIs? then Some(e.reading.setpoint)
      else LatestSetpoint(history[..|history| - 1], members)
  }

  ghost function Elements(members: seq<Node>): set<Node> {
    set n | n in members
  }

  ghost function Reference(history: seq<Event>, members: seq<Node>): Aggregate {
    var all := Elements(members);
    var setpoint := LatestSetpoint(history, all);
    Aggregate(|members| % 256,
              Common(Reported(history, all, Mode)),
              Activity(Reported(history, all, OperatingState)),
              Common(Reported(history, all, FanMode)),
              if setpoint.Some? then setpoint.value else NO_SETPOINT)
  }

  /** The order in which the members are listed does not matter. */
  lemma {:induction false} ReferenceIgnoresOrder(history: seq<Event>, a: seq<Node>, b: seq<Node>)
    requires multiset(a) == multiset(b)
    ensures Reference(history, a) == Reference(history, b)
  {
    assert |a| == |multiset(a)| == |multiset(b)| == |b|;
    forall n
      ensures n in a <==> n in b
    {
      assert n in a <==> n in multiset(a);
      assert n in b <==> n in multiset(b);
    }
    assert Elements(a) == Elements(b);
  }

  /** Some member reported `value` for the field, and nothing else since. */
  ghost predicate SomeReports(history: seq<Event>, members: seq<Node>, field: Field, value: Byte) {
    exists n :: n in members && Latest(history, n, field) == Some(value)
  }

  lemma {:induction false} ReportedIff(history: seq<Event>, members: seq<Node>, field: Field, value: Byte)
    ensures value in Reported(history, Elements(members), field) <==> SomeReports(history, members, field, value)
  {
    if SomeReports(history, members, field, value) {
      var n :| n in members && Latest(history, n, field) == Some(value);
      assert n in Elements(members);
    }
  }

  /** A group heats (1) if some member does, else cools (2) if some member does, else is idle (0). */
  lemma {:induction false} GroupActivityIs(history: seq<Event>, members: seq<Node>)
    ensures Reference(history, members).operatingState
            == if SomeReports(history, members, OperatingState, 1) then 1
               else if SomeReports(history, members, OperatingState, 2) then 2
               else 0
  {
    ReportedIff(history, members, OperatingState, 1);
    ReportedIff(history, members, OperatingState, 2);
  }

  /** The value of a field for the group: 0 without reports, what all reports agree on, or 0xFF. */
  ghost predicate IsAgreed(history: seq<Event>, members: seq<Node>, field: Field, agreed: Byte) {
    && ((forall v: Byte :: !SomeReports(history, members, field, v)) ==> agreed == 0)
    && (forall v: Byte :: SomeReports(history, members, field, v) ==>
          ((forall w: Byte :: SomeReports(history, members, field, w) ==> w == v) ==> agreed == v))
    && (forall v: Byte, w: Byte ::
          SomeReports(history, members, field, v) && SomeReports(history, members, field, w) ==>
            (v != w ==> agreed == 0xFF))
  }

  lemma {:induction false} GroupAgreementIs(history: seq<Event>, members: seq<Node>)
    ensures IsAgreed(history, members, Mode, Reference(history, members).mode)
    ensures IsAgreed(history, members, FanMode, Reference(history, members).fanMode)
  {
    CommonIsAgreed(history, members, Mode);
    CommonIsAgreed(history, members, FanMode);
  }

  lemma {:induction false} CommonIsAgreed(history: seq<Event>, members: seq<Node>, field: Field)
    ensures IsAgreed(history, members, field, Common(Reported(history, Elements(members), field)))
  {
    var values := Reported(history, Elements(members), field);
    forall v: Byte
      ensures v in values <==> SomeReports(history, members, field, v)
    {
      ReportedIff(history, members, field, v);
    }
    if forall v: Byte :: !SomeReports(history, members, field, v) {
      assert values == {};
    }
  }

  // ---- The cache agrees with the history ---------------------------------------------------------

  function SetpointReports(history: seq<Event>): nat {
    if history == [] then 0
    else
      var e := history[|history| - 1];
      SetpointReports(history[..|history| - 1]) + if e.Report? && e.reading.SetpointIs? then 1 else 0
  }

  /** How many setpoint reports there were up to the last one from a member. */
  ghost function LatestRank(history: seq<Event>, members: set<Node>): nat {
    if history == [] then 0
    else
      var e := history[|history| - 1];
      if e.Report? && e.node in members && e.reading.SetpointIs? then SetpointReports(history)
      else LatestRank(history[..|history| - 1], members)
  }

  ghost predicate CacheAgrees(history: seq<Event>, cache: Cache, n: Node) {
    var c := ClimateOf(cache.perNode, n);
    && (forall field :: Pick(c, field) == Latest(history, n, field))
    && c.setpoint == LatestSetpoint(history, {n})
    && c.setpointSeq == LatestRank(history, {n})
    && cache.setpointCounter == SetpointReports(history)
  }

  lemma {:induction false} NotedAgrees(history: seq<Event>, cache: Cache, m: Node, reading: Reading, n: Node)
    requires CacheAgrees(history, cache, n) && CacheAgrees(history, cache, m)
    ensures CacheAgrees(history + [Report(m, reading)], Noted(cache, m, reading), n)
  {
    var e := Report(m, reading);
    assert (history + [e])[..|history|] == history && (history + [e])[|history|] == e;
  }

  lemma {:induction false} AddressedAgrees(history: seq<Event>, cache: Cache, g: Group, n: Node)
    requires CacheAgrees(history, cache, n)
    ensures CacheAgrees(history + [GroupAddressed(g)], cache, n)
  {
    var e := GroupAddressed(g);
    assert (history + [e])[..|history|] == history && (history + [e])[|history|] == e;
  }

  lemma {:induction false} RankBounded(history: seq<Event>, members: set<Node>)
    ensures LatestRank(history, members) <= SetpointReports(history)
    ensures LatestSetpoint(history, members).Some? <==> LatestRank(history, members) > 0
    decreases |history|
  {
    if history != [] {
      RankBounded(history[..|history| - 1], members);
    }
  }

  /** Adding a member changes the latest setpoint exactly if that member's own report is the later one. */
  lemma {:induction false} LatestOfUnion(history: seq<Event>, members: set<Node>, n: Node)
    ensures var own, rest := LatestRank(history, {n}), LatestRank(history, members);
            var newer := LatestSetpoint(history, {n}).Some? && own >= rest;
            && LatestRank(history, members + {n}) == (if newer then own else rest)
            && LatestSetpoint(history, members + {n})
               == (if newer then LatestSetpoint(history, {n}) else LatestSetpoint(history, members))
    decreases |history|
  {
    if history != [] {
      var front := history[..|history| - 1];
      LatestOfUnion(front, members, n);
      RankBounded(front, members);
      RankBounded(front, {n});
      RankBounded(history, members);
      RankBounded(history, {n});
    }
  }

  lemma {:induction false} NoMembersNoSetpoint(history: seq<Event>)
    ensures LatestSetpoint(history, {}) == None && LatestRank(history, {}) == 0
    decreases |history|
  {
    if history != [] {
      NoMembersNoSetpoint(history[..|history| - 1]);
    }
  }

  /** The highest sequence number among the members marks the last setpoint any of them reported. */
  lemma {:induction false} BestIsLatest(history: seq<Event>, cache: Cache, members: seq<Node>)
    requires forall n :: CacheAgrees(history, cache, n)
    ensures var latest := LatestSetpoint(history, Elements(members));
            BestSetpoint(cache.perNode, members)
            == Best(if latest.Some? then latest.value else NO_SETPOINT, LatestRank(history, Elements(members)))
    decreases |members|
  {
    if members == [] {
      NoMembersNoSetpoint(history);
      assert Elements(members) == {};
    } else {
      var front, n := members[..|members| - 1], members[|members| - 1];
      BestIsLatest(history, cache, front);
      LatestOfUnion(history, Elements(front), n);
      RankBounded(history, Elements(front));
      assert members == front + [n];
      assert Elements(members) == Elements(front) + {n};
      assert CacheAgrees(history, cache, n);
    }
  }

  lemma {:induction false} ValuesAgree(history: seq<Event>, cache: Cache, members: seq<Node>, field: Field)
    requires forall n :: CacheAgrees(history, cache, n)
    ensures CachedValues(cache.perNode, members, field) == Reported(history, Elements(members), field)
  {
    assert forall n :: Pick(ClimateOf(cache.perNode, n), field) == Latest(history, n, field) by {
      forall n
        ensures Pick(ClimateOf(cache.perNode, n), field) == Latest(history, n, field)
      {
        assert CacheAgrees(history, cache, n);
      }
    }
  }

  lemma {:induction false} AggregateAgrees(history: seq<Event>, cache: Cache, members: seq<Node>)
    requires forall n :: CacheAgrees(history, cache, n)
    ensures CachedAggregate(cache.perNode, members) == Reference(history, members)
  {
    ValuesAgree(history, cache, members, Mode);
    ValuesAgree(history, cache, members, OperatingState);
    ValuesAgree(history, cache, members, FanMode);
    BestIsLatest(history, cache, members);
  }

  // ---- What is published for one group -----------------------------------------------------------

  ghost predicate Addressed(history: seq<Event>, g: Group) {
    GroupAddressed(g) in history
  }

  /** A report that concerns a group: from one of its members, after a client addressed it. */
  ghost predicate Concerns(m: Membership, history: seq<Event>, g: Group)
    requires history != []
  {
    var e := history[|history| - 1];
    e.Report? && e.node in MembersOf(m, g) && Addressed(history[..|history| - 1], g)
  }

  /** The reference aggregates at the reports that concern the group, without immediate repetitions. */
  ghost function Expected(m: Membership, history: seq<Event>, g: Group): seq<Aggregate> {
    if history == [] then []
    else
      var before := Expected(m, history[..|history| - 1], g);
      if Concerns(m, history, g) then WithoutRepeat(before, Reference(history, MembersOf(m, g))) else before
  }

  function WithoutRepeat(before: seq<Aggregate>, a: Aggregate): seq<Aggregate> {
    if before != [] && before[|before| - 1] == a then before else before + [a]
  }

  function PublishedFor(notices: seq<Notice>, g: Group): seq<Aggregate> {
    if notices == [] then []
    else
      var x := notices[|notices| - 1];
      PublishedFor(notices[..|notices| - 1], g) + if x.group == g then [x.state] else []
  }

  lemma {:induction false} PublishedAppend(notices: seq<Notice>, x: Notice, g: Group)
    ensures PublishedFor(notices + [x], g) == PublishedFor(notices, g) + if x.group == g then [x.state] else []
  {
    assert (notices + [x])[..|notices|] == notices;
  }

  ghost predicate BoardIs(board: Board, g: Group, posted: seq<Aggregate>) {
    && PublishedFor(board.published, g) == posted
    && LastSignature(board, g) == if posted == [] then "" else Signature(posted[|posted| - 1])
  }

  lemma {:induction false} PostOwn(board: Board, g: Group, posted: seq<Aggregate>, a: Aggregate)
    requires BoardIs(board, g, posted)
    ensures BoardIs(Posted(board, g, a), g, WithoutRepeat(posted, a))
  {
    SignatureNonEmpty(a);
    if posted != [] && Signature(posted[|posted| - 1]) == Signature(a) {
      SignatureInjective(posted[|posted| - 1], a);
    }
    PublishedAppend(board.published, Notice(g, a), g);
  }

  lemma {:induction false} PostOther(board: Board, other: Group, a: Aggregate, g: Group, posted: seq<Aggregate>)
    requires other != g && BoardIs(board, g, posted)
    ensures BoardIs(Posted(board, other, a), g, posted)
  {
    PublishedAppend(board.published, Notice(other, a), g);
    assert PublishedFor(board.published, g) + [] == PublishedFor(board.published, g);
  }

  lemma {:induction false} RefreshedWithout(
      board: Board, perNode: map<Node, Climate>, m: Membership, n: Node, groups: seq<Group>, g: Group,
      posted: seq<Aggregate>)
    requires BoardIs(board, g, posted) && g !in groups
    ensures BoardIs(Refreshed(board, perNode, m, n, groups), g, posted)
    decreases |groups|
  {
    if groups != [] {
      var front, other := groups[..|groups| - 1], groups[|groups| - 1];
      RefreshedWithout(board, perNode, m, n, front, g, posted);
      PostOther(Refreshed(board, perNode, m, n, front), other, CachedAggregate(perNode, MembersOf(m, other)), g,
                posted);
    }
  }

  lemma {:induction false} RefreshedWith(
      board: Board, perNode: map<Node, Climate>, m: Membership, n: Node, groups: seq<Group>, g: Group,
      posted: seq<Aggregate>)
    requires BoardIs(board, g, posted) && Ordered(groups) && g in groups && n in MembersOf(m, g)
    ensures BoardIs(Refreshed(board, perNode, m, n, groups), g,
                    WithoutRepeat(posted, CachedAggregate(perNode, MembersOf(m, g))))
    decreases |groups|
  {
    var front, last := groups[..|groups| - 1], groups[|groups| - 1];
    var before := Refreshed(board, perNode, m, n, front);
    var a := CachedAggregate(perNode, MembersOf(m, g));
    if last == g {
      GroupLessOrder(g, g, g);
      RefreshedWithout(board, perNode, m, n, front, g, posted);
      PostOwn(before, g, posted, a);
    } else {
      RefreshedWith(board, perNode, m, n, front, g, posted);
      PostOther(before, last, CachedAggregate(perNode, MembersOf(m, last)), g, WithoutRepeat(posted, a));
    }
  }

  lemma {:induction false} RefreshedNonMember(
      board: Board, perNode: map<Node, Climate>, m: Membership, n: Node, groups: seq<Group>, g: Group,
      posted: seq<Aggregate>)
    requires BoardIs(board, g, posted) && n !in MembersOf(m, g)
    ensures BoardIs(Refreshed(board, perNode, m, n, groups), g, posted)
    decreases |groups|
  {
    if groups != [] {
      var front, last := groups[..|groups| - 1], groups[|groups| - 1];
      RefreshedNonMember(board, perNode, m, n, front, g, posted);
      if last != g {
        PostOther(Refreshed(board, perNode, m, n, front), last, CachedAggregate(perNode, MembersOf(m, last)), g,
                  posted);
      }
    }
  }

  // ---- Every run ---------------------------------------------------------------------------------

  ghost predicate Inv(m: Membership, history: seq<Event>, s: State, g: Group) {
    && (forall n :: CacheAgrees(history, s.cache, n))
    && Ordered(s.known) && (g in s.known <==> Addressed(history, g))
    && BoardIs(s.board, g, Expected(m, history, g))
  }

  lemma {:induction false} ReportKeepsInv(
    m: Membership, history: seq<Event>, s: State, n: Node, reading: Reading, g: Group)
    requires Inv(m, history, s, g)
    ensures Inv(m, history + [Report(n, reading)], Step(m, s, Report(n, reading)), g)
  {
    var e := Report(n, reading);
    var after := history + [e];
    var cache := Noted(s.cache, n, reading);
    assert after[..|history|] == history && after[|history|] == e;
    forall k
      ensures CacheAgrees(after, cache, k)
    {
      assert CacheAgrees(history, s.cache, k) && CacheAgrees(history, s.cache, n);
      NotedAgrees(history, s.cache, n, reading, k);
    }
    AggregateAgrees(after, cache, MembersOf(m, g));
    var posted := Expected(m, history, g);
    if n !in MembersOf(m, g) {
      RefreshedNonMember(s.board, cache.perNode, m, n, s.known, g, posted);
    } else if g in s.known {
      RefreshedWith(s.board, cache.perNode, m, n, s.known, g, posted);
    } else {
      RefreshedWithout(s.board, cache.perNode, m, n, s.known, g, posted);
    }
  }

  lemma {:induction false} AddressKeepsInv(m: Membership, history: seq<Event>, s: State, x: Group, g: Group)
    requires Inv(m, history, s, g)
    ensures Inv(m, history + [GroupAddressed(x)], Step(m, s, GroupAddressed(x)), g)
  {
    var e := GroupAddressed(x);
    var after := history + [e];
    assert after[..|history|] == history && after[|history|] == e;
    forall k
      ensures CacheAgrees(after, s.cache, k)
    {
      assert CacheAgrees(history, s.cache, k);
      AddressedAgrees(history, s.cache, x, k);
    }
    InsertOrdered(s.known, x);
  }

  lemma {:induction false} StartHasInv(m: Membership, g: Group)
    ensures Inv(m, [], START, g)
  {}

  lemma {:induction false} RunAppend(m: Membership, history: seq<Event>, e: Event)
    ensures Run(m, history + [e]) == Step(m, Run(m, history), e)
  {
    assert (history + [e])[..|history|] == history;
  }

  lemma {:induction false} RunKeepsInv(m: Membership, history: seq<Event>, g: Group)
    ensures Inv(m, history, Run(m, history), g)
    decreases |history|
  {
    if history == [] {
      StartHasInv(m, g);
      assert Run(m, history) == START;
    } else {
      var front, e := history[..|history| - 1], history[|history| - 1];
      assert front + [e] == history;
      RunKeepsInv(m, front, g);
      ExtendedRunKeepsInv(m, front, e, g);
    }
  }

  lemma {:induction false} ExtendedRunKeepsInv(m: Membership, history: seq<Event>, e: Event, g: Group)
    requires Inv(m, history, Run(m, history), g)
    ensures Inv(m, history + [e], Run(m, history + [e]), g)
  {
    RunAppend(m, history, e);
    StepKeepsInv(m, history, Run(m, history), e, g);
  }

  lemma {:induction false} StepKeepsInv(m: Membership, history: seq<Event>, s: State, e: Event, g: Group)
    requires Inv(m, history, s, g)
    ensures Inv(m, history + [e], Step(m, s, e), g)
  {
    match e
    case Report(n, reading) => ReportKeepsInv(m, history, s, n, reading, g);
    case GroupAddressed(x) => AddressKeepsInv(m, history, s, x, g);
  }

  /**
   * The whole sequence published for a group is the sequence of its reference aggregates at the reports
   * that concern it, published exactly when the aggregate differs from the one before.
   */
  lemma {:induction false} PublishesReferenceChanges(m: Membership, history: seq<Event>, g: Group)
    ensures PublishedFor(Run(m, history).board.published, g) == Expected(m, history, g)
  {
    RunKeepsInv(m, history, g);
  }

  // ---- The last published state is always current ------------------------------------------------

  lemma {:induction false} StrangersDoNotMatter(history: seq<Event>, e: Event, members: seq<Node>)
    requires e.Report? ==> e.node !in members
    ensures Reference(history + [e], members) == Reference(history, members)
  {
    var after := history + [e];
    assert after[..|history|] == history && after[|history|] == e;
    assert forall n, field | n in members :: Latest(after, n, field) == Latest(history, n, field);
    assert Reported(after, Elements(members), Mode) == Reported(history, Elements(members), Mode);
    assert Reported(after, Elements(members), OperatingState) == Reported(history, Elements(members), OperatingState);
    assert Reported(after, Elements(members), FanMode) == Reported(history, Elements(members), FanMode);
  }

  lemma {:induction false} AddressedStays(history: seq<Event>, e: Event, g: Group)
    requires Addressed(history, g)
    ensures Addressed(history + [e], g)
  {}

  lemma {:induction false} ExpectedIsCurrent(m: Membership, history: seq<Event>, g: Group)
    ensures var posted := Expected(m, history, g);
            posted != [] ==> Addressed(history, g) && posted[|posted| - 1] == Reference(history, MembersOf(m, g))
    decreases |history|
  {
    if history != [] {
      var front, e := history[..|history| - 1], history[|history| - 1];
      ExpectedIsCurrent(m, front, g);
      assert history == front + [e];
      if Addressed(front, g) {
        AddressedStays(front, e, g);
      }
      if !(e.Report? && e.node in MembersOf(m, g)) {
        StrangersDoNotMatter(front, e, MembersOf(m, g));
      }
    }
  }

  /**
   * At every moment of every run, once anything has been published for a group, the last published state
   * is the aggregate of the whole history, and a report that concerns the group always gets it published.
   */
  lemma {:induction false} LastPublishedIsCurrent(m: Membership, history: seq<Event>, g: Group)
    ensures var posted := PublishedFor(Run(m, history).board.published, g);
            && (posted != [] ==> posted[|posted| - 1] == Reference(history, MembersOf(m, g)))
            && (history != [] && Concerns(m, history, g) ==> posted != [])
  {
    PublishesReferenceChanges(m, history, g);
    ExpectedIsCurrent(m, history, g);
  }

  /** A concerning report publishes exactly if it moved the aggregate, or is the first one. */
  lemma {:induction false} PublishIffChanged(m: Membership, history: seq<Event>, e: Event, g: Group)
    requires Concerns(m, history + [e], g)
    ensures var before, after := PublishedFor(Run(m, history).board.published, g),
                                 PublishedFor(Run(m, history + [e]).board.published, g);
            && (after != before
                <==> before == [] || Reference(history + [e], MembersOf(m, g)) != Reference(history, MembersOf(m, g)))
            && (after != before ==> after == before + [Reference(history + [e], MembersOf(m, g))])
  {
    assert (history + [e])[..|history|] == history;
    PublishesReferenceChanges(m, history, g);
    PublishesReferenceChanges(m, history + [e], g);
    ExpectedIsCurrent(m, history, g);
  }

  // ---- The order among groups --------------------------------------------------------------------

  /** Dictionary order: at the first difference, or where it ends, `a` is the lesser text. */
  ghost predicate TextBefore(a: string, b: string) {
    || (|a| < |b| && a == b[..|a|])
    || exists k :: 0 <= k < |a| && DiffersAt(a, b, k)
  }

  lemma {:induction false} TextLessIff(a: string, b: string)
    ensures TextLess(a, b) <==> TextBefore(a, b)
    decreases |a|
  {
    if a != [] && b != [] && a[0] == b[0] {
      TextLessIff(a[1..], b[1..]);
      BeforeInTail(a, b);
    } else if a != [] && b != [] {
      FirstDiffers(a, b);
    }
  }

  lemma {:induction false} FirstDiffers(a: string, b: string)
    requires a != [] && b != [] && a[0] != b[0]
    ensures TextBefore(a, b) <==> a[0] < b[0]
  {
    assert a[..0] == b[..0];
    assert DiffersAt(a, b, 0) <==> a[0] < b[0];
    forall k | 0 < k <= |a| && k <= |b|
      ensures a[..k] != b[..k]
    {
      assert a[..k][0] == a[0] && b[..k][0] == b[0];
    }
    assert a == a[..|a|];
  }

  /** At a first difference `a` has the lesser character. */
  ghost predicate DiffersAt(a: string, b: string, k: nat) {
    k < |a| && k < |b| && a[..k] == b[..k] && a[k] < b[k]
  }

  lemma {:induction false} DiffersInTail(a: string, b: string, k: nat)
    requires a != [] && b != [] && a[0] == b[0]
    ensures DiffersAt(a, b, k + 1) <==> DiffersAt(a[1..], b[1..], k)
    ensures !DiffersAt(a, b, 0)
  {
    if k + 1 < |a| && k + 1 < |b| {
      assert a[..k + 1] == [a[0]] + a[1..][..k] && b[..k + 1] == [b[0]] + b[1..][..k];
      assert a[..k + 1][1..] == a[1..][..k] && b[..k + 1][1..] == b[1..][..k];
    }
  }

  lemma {:induction false} BeforeInTail(a: string, b: string)
    requires a != [] && b != [] && a[0] == b[0]
    ensures TextBefore(a, b) <==> TextBefore(a[1..], b[1..])
  {
    var x, y := a[1..], b[1..];
    if |x| < |y| {
      assert a == [a[0]] + x && b[..|a|] == [b[0]] + y[..|x|];
      assert b[..|a|][1..] == y[..|x|];
    }
    if k :| 0 <= k < |x| && DiffersAt(x, y, k) {
      DiffersInTail(a, b, k);
    }
    if k :| 0 <= k < |a| && DiffersAt(a, b, k) {
      DiffersInTail(a, b, if k > 0 then k - 1 else 0);
      assert DiffersAt(x, y, k - 1);
    }
  }

  /** By key first, then by value. */
  ghost predicate GroupBefore(a: Group, b: Group) {
    TextBefore(a.key, b.key) || (a.key == b.key && TextBefore(a.value, b.value))
  }

  lemma {:induction false} GroupLessIff(a: Group, b: Group)
    ensures GroupLess(a, b) <==> GroupBefore(a, b)
  {
    TextLessIff(a.key, b.key);
    TextLessIff(a.value, b.value);
  }

  /** The notices that one event adds are for groups in order. */
  ghost predicate AddsInOrder(before: seq<Notice>, after: seq<Notice>, groups: seq<Group>) {
    && before <= after
    && (forall i | |before| <= i < |after| :: after[i].group in groups)
    && (forall i, j | |before| <= i < j < |after| :: GroupBefore(after[i].group, after[j].group))
  }

  lemma {:induction false} LastIsGreatest(front: seq<Group>, g: Group)
    requires Ordered(front + [g])
    ensures Ordered(front)
    ensures forall x | x in front :: GroupBefore(x, g)
  {
    var groups := front + [g];
    assert forall i | 0 <= i < |front| :: front[i] == groups[i];
    forall x | x in front
      ensures GroupBefore(x, g)
    {
      var i :| 0 <= i < |front| && front[i] == x;
      assert GroupLess(groups[i], groups[|front|]);
      GroupLessIff(x, g);
    }
  }

  lemma {:induction false} OneMoreInOrder(
    before: seq<Notice>, middle: seq<Notice>, more: seq<Notice>, groups: seq<Group>, g: Group)
    requires AddsInOrder(before, middle, groups) && (forall x | x in groups :: GroupBefore(x, g))
    requires |more| <= 1 && (more != [] ==> more[0].group == g)
    ensures AddsInOrder(before, middle + more, groups + [g])
  {}

  lemma {:induction false} RefreshInOrder(
    board: Board, perNode: map<Node, Climate>, m: Membership, n: Node, groups: seq<Group>)
    requires Ordered(groups)
    ensures AddsInOrder(board.published, Refreshed(board, perNode, m, n, groups).published, groups)
    decreases |groups|
  {
    if groups != [] {
      var front, g := groups[..|groups| - 1], groups[|groups| - 1];
      var before := Refreshed(board, perNode, m, n, front);
      var state := CachedAggregate(perNode, MembersOf(m, g));
      assert groups == front + [g] && before.published + [] == before.published;
      LastIsGreatest(front, g);
      RefreshInOrder(board, perNode, m, n, front);
      OneMoreInOrder(board.published, before.published, [], front, g);
      OneMoreInOrder(board.published, before.published, [Notice(g, state)], front, g);
    }
  }

  /** In every run, the groups that one report makes the thermostat publish come in dictionary order. */
  lemma {:induction false} PublishedInOrder(m: Membership, history: seq<Event>, e: Event)
    ensures AddsInOrder(Run(m, history).board.published, Run(m, history + [e]).board.published, Run(m, history).known)
  {
    var s := Run(m, history);
    RunKeepsInv(m, history, Group("", ""));
    RunAppend(m, history, e);
    if e.Report? {
      RefreshInOrder(s.board, Noted(s.cache, e.node, e.reading).perNode, m, e.node, s.known);
    }
  }
}
