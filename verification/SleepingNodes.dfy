/**
 * What becomes of a sleeping node's interview: its requests wait in the pending queue, under the network
 * bound at the time, until a wake-up sends them.
 */
module SleepingNodes {
  import opened Bytes
  import opened Sequences
  import opened PendingQueue
  import opened PostInclusion

  /**
   * The interview steps an input queues: those of a sleeping node that is included without security, or of
   * one that has just become secure.
   */
  function QueuedSteps(s: State, e: Event): seq<Step> {
    match e
    case NodeIncluded(_, ccs) => if IsSleeping(ccs) && !IsSecure(ccs) then StepsFor(ccs) else []
    case SecurityStatus(n, scheme) =>
      if scheme != 0 && n in s.sessions && !s.sessions[n].started && s.sessions[n].viaQueue then s.sessions[n].steps
      else []
    case _ => []
  }

  // ---- What an input does to the queue -----------------------------------------------------------

  datatype Change = Keep | Append(node: Node, items: seq<Item>) | Remove(node: Node) | Rebind(home: Home)

  function ChangeOf(s: State, e: Event): Change {
    match e
    case HomeBound(home) => Rebind(home)
    case CommandQueued(n, item) => Append(n, [item])
    case WakeUpNotification(n) => Remove(n)
    case QueueCleared(n) => Remove(n)
    case NodeIncluded(n, _) => Append(n, GetItems(QueuedSteps(s, e)))
    case SecurityStatus(n, _) => Append(n, GetItems(QueuedSteps(s, e)))
    case _ => Keep
  }

  /** The rows that queueing these commands inserts: none without a database or a network. */
  function NewRows(q: Store, n: Node, items: seq<Item>): seq<Row> {
    if !Bound(q) then []
    else seq(|items|, i requires 0 <= i < |items| => Row(q.nextSequence + i, q.home.value, n, items[i]))
  }

  function RowsAfter(q: Store, c: Change): seq<Row> {
    match c
    case Append(n, items) => q.rows + NewRows(q, n, items)
    case Remove(n) => if Bound(q) then Without(q.rows, q.home.value, n) else q.rows
    case _ => q.rows
  }

  ghost predicate Follows(q: Store, c: Change, after: Store) {
    && after.dbValid == q.dbValid
    && after.home == (if c.Rebind? then Some(c.home) else q.home)
    && after.rows == RowsAfter(q, c)
    && after.nextSequence == q.nextSequence + if c.Append? then |NewRows(q, c.node, c.items)| else 0
  }

  lemma {:induction false} AddedAllFollows(q: Store, n: Node, items: seq<Item>)
    ensures Follows(q, Append(n, items), AddedAll(q, n, items))
    decreases |items|
  {
    if items == [] {
      assert q.rows + [] == q.rows;
    } else {
      var front, item := items[..|items| - 1], items[|items| - 1];
      AddedAllFollows(q, n, front);
      if Bound(q) {
        assert NewRows(q, n, items) == NewRows(q, n, front) + [Row(q.nextSequence + |front|, q.home.value, n, item)];
        ConcatAssociative(q.rows, NewRows(q, n, front), [Row(q.nextSequence + |front|, q.home.value, n, item)]);
      }
    }
  }

  lemma {:induction false} InclusionFollows(s: State, n: Node, ccs: seq<Byte>)
    requires WellFormed(s)
    ensures Follows(s.queue, ChangeOf(s, NodeIncluded(n, ccs)), IncludedEffect(s, n, ccs).queue)
  {
    AddedAllFollows(s.queue, n, GetItems(QueuedSteps(s, NodeIncluded(n, ccs))));
    AddedAllFollows(s.queue, n, []);
  }

  lemma {:induction false} SecurityFollows(s: State, n: Node, scheme: Byte)
    requires WellFormed(s)
    ensures Follows(s.queue, ChangeOf(s, SecurityStatus(n, scheme)), EffectOf(s, SecurityStatus(n, scheme), n).queue)
  {
    AddedAllFollows(s.queue, n, GetItems(QueuedSteps(s, SecurityStatus(n, scheme))));
    AddedAllFollows(s.queue, n, []);
  }

  lemma {:induction false} CommandFollows(q: Store, n: Node, item: Item)
    ensures Follows(q, Append(n, [item]), Added(q, n, item))
  {
    AddedAllFollows(q, n, [item]);
    assert [item][..0] == [];
  }

  lemma {:induction false} ReactionFollows(s: State, e: Event)
    requires WellFormed(s) && !IsGlobal(e)
    ensures Follows(s.queue, ChangeOf(s, e), EffectOf(s, e, e.node).queue)
  {
    match e
    case NodeIncluded(n, ccs) => InclusionFollows(s, n, ccs);
    case SecurityStatus(n, scheme) => SecurityFollows(s, n, scheme);
    case CommandQueued(n, item) => CommandFollows(s.queue, n, item);
    case _ =>
  }

  lemma {:induction false} StepFollows(s: State, e: Event)
    requires WellFormed(s)
    ensures Follows(s.queue, ChangeOf(s, e), StepOn(s, e).queue)
  {
    if !IsGlobal(e) {
      assert Noted(s, e).queue == s.queue && Noted(s, e).sessions == s.sessions;
      assert ChangeOf(Noted(s, e), e) == ChangeOf(s, e);
      ReactionFollows(Noted(s, e), e);
    }
  }

  // ---- One key of the queue ----------------------------------------------------------------------

  lemma {:induction false} MatchingConcat(a: seq<Row>, b: seq<Row>, h: Home, n: Node)
    ensures Matching(a + b, h, n) == Matching(a, h, n) + Matching(b, h, n)
    decreases |b|
  {
    if b == [] {
      assert a + b == a;
    } else {
      var front, r := b[..|b| - 1], b[|b| - 1];
      assert a + b == a + front + [r] && b == front + [r];
      MatchingConcat(a, front, h, n);
      MatchingAppend(a + front, r, h, n);
      MatchingAppend(front, r, h, n);
    }
  }

  lemma {:induction false} MatchingWhole(rows: seq<Row>, h: Home, n: Node)
    requires forall i | 0 <= i < |rows| :: Matches(rows[i], h, n)
    ensures Matching(rows, h, n) == rows
    decreases |rows|
  {
    if rows != [] {
      var front, r := rows[..|rows| - 1], rows[|rows| - 1];
      MatchingWhole(front, h, n);
      assert front + [r] == rows;
      MatchingAppend(front, r, h, n);
    }
  }

  lemma {:induction false} WithoutMembers(rows: seq<Row>, h: Home, n: Node, r: Row)
    ensures r in Without(rows, h, n) <==> r in rows && !Matches(r, h, n)
    decreases |rows|
  {
    if rows != [] {
      WithoutMembers(rows[..|rows| - 1], h, n, r);
      assert rows == rows[..|rows| - 1] + [rows[|rows| - 1]];
    }
  }

  lemma {:induction false} MatchingMembers(rows: seq<Row>, h: Home, n: Node, r: Row)
    ensures r in Matching(rows, h, n) <==> r in rows && Matches(r, h, n)
    decreases |rows|
  {
    if rows != [] {
      MatchingMembers(rows[..|rows| - 1], h, n, r);
      assert rows == rows[..|rows| - 1] + [rows[|rows| - 1]];
    }
  }

  /** Does the change empty the key (h, n)? */
  predicate Empties(q: Store, c: Change, h: Home, n: Node) {
    c == Remove(n) && Bound(q) && q.home == Some(h)
  }

  /** What is pending under a key only grows at its end, unless the key is emptied. */
  lemma {:induction false} KeyOnlyGrows(q: Store, c: Change, h: Home, n: Node)
    requires !Empties(q, c, h, n)
    ensures Matching(q.rows, h, n) <= Matching(RowsAfter(q, c), h, n)
  {
    match c
    case Append(m, items) => MatchingConcat(q.rows, NewRows(q, m, items), h, n);
    case Remove(m) =>
      if Bound(q) {
        WithoutMatching(q.rows, q.home.value, m, h, n);
      }
    case _ =>
  }

  /** A row whose number has been used and that is not in the table never comes back. */
  lemma {:induction false} GoneStaysGone(q: Store, c: Change, r: Row)
    requires r !in q.rows && r.sequence < q.nextSequence
    ensures r !in RowsAfter(q, c)
  {
    match c
    case Append(m, items) =>
    case Remove(m) =>
      if Bound(q) {
        WithoutMembers(q.rows, q.home.value, m, r);
      }
    case _ =>
  }

  // ---- Until the wake-up -------------------------------------------------------------------------

  /** The bound network after a run of inputs. */
  function HomeAfter(home: Option<Home>, events: seq<Event>): Option<Home> {
    if events == [] then home
    else
      var e := events[|events| - 1];
      if e.HomeBound? then Some(e.home) else HomeAfter(home, events[..|events| - 1])
  }

  predicate Takes(e: Event, n: Node) {
    (e.WakeUpNotification? || e.QueueCleared?) && e.node == n
  }

  /** No wake-up of the node and no clearing of its queue while the network `h` is bound. */
  predicate Untouched(home: Option<Home>, events: seq<Event>, h: Home, n: Node) {
    events == [] ||
    (Untouched(home, events[..|events| - 1], h, n)
     && (Takes(events[|events| - 1], n) ==> HomeAfter(home, events[..|events| - 1]) != Some(h)))
  }

  lemma {:induction false} HomeIsFollowed(s: State, events: seq<Event>)
    requires WellFormed(s)
    ensures RunFrom(s, events).queue.home == HomeAfter(s.queue.home, events)
    ensures RunFrom(s, events).queue.dbValid == s.queue.dbValid
    ensures s.queue.nextSequence <= RunFrom(s, events).queue.nextSequence
    decreases |events|
  {
    if events != [] {
      HomeIsFollowed(s, events[..|events| - 1]);
      StepFollows(RunFrom(s, events[..|events| - 1]), events[|events| - 1]);
    }
  }

  lemma {:induction false} UntouchedStep(t: State, e: Event, h: Home, n: Node)
    requires WellFormed(t) && (Takes(e, n) ==> t.queue.home != Some(h))
    ensures Matching(t.queue.rows, h, n) <= Matching(StepOn(t, e).queue.rows, h, n)
  {
    StepFollows(t, e);
    KeyOnlyGrows(t.queue, ChangeOf(t, e), h, n);
  }

  lemma {:induction false} UntouchedGrows(s: State, events: seq<Event>, h: Home, n: Node)
    requires WellFormed(s) && Untouched(s.queue.home, events, h, n)
    ensures Matching(s.queue.rows, h, n) <= Matching(RunFrom(s, events).queue.rows, h, n)
    decreases |events|
  {
    if events != [] {
      var front, e := events[..|events| - 1], events[|events| - 1];
      UntouchedGrows(s, front, h, n);
      HomeIsFollowed(s, front);
      UntouchedStep(RunFrom(s, front), e, h, n);
    }
  }

  /** A row under a key that was emptied since is gone. */
  lemma {:induction false} TouchedIsGone(s: State, events: seq<Event>, h: Home, n: Node, r: Row)
    requires WellFormed(s) && s.queue.dbValid && !Untouched(s.queue.home, events, h, n)
    requires Matches(r, h, n) && r.sequence < s.queue.nextSequence
    ensures r !in RunFrom(s, events).queue.rows
    decreases |events|
  {
    var front, e := events[..|events| - 1], events[|events| - 1];
    var t := RunFrom(s, front);
    HomeIsFollowed(s, front);
    StepFollows(t, e);
    if !Untouched(s.queue.home, front, h, n) {
      TouchedIsGone(s, front, h, n, r);
      GoneStaysGone(t.queue, ChangeOf(t, e), r);
    } else {
      WithoutMembers(t.queue.rows, h, n, r);
    }
  }

  // ---- The interview -----------------------------------------------------------------------------

  /** The rows of the interview that the input queues. */
  function InterviewRows(s: State, e: Event): seq<Row>
    requires !IsGlobal(e)
  {
    NewRows(s.queue, e.node, GetItems(QueuedSteps(s, e)))
  }

  /** What a wake-up of the node would select. */
  function PendingRows(s: State, n: Node): seq<Row> {
    if Bound(s.queue) then Matching(s.queue.rows, s.queue.home.value, n) else []
  }

  /**
   * The network bound when the interview was queued is bound again at the end, and in between no wake-up or
   * clearing of this node happened while it was.
   */
  predicate Kept(s: State, e: Event, meanwhile: seq<Event>)
    requires !IsGlobal(e)
  {
    && Bound(s.queue)
    && HomeAfter(s.queue.home, meanwhile) == s.queue.home
    && Untouched(s.queue.home, meanwhile, s.queue.home.value, e.node)
  }

  lemma {:induction false} InterviewIsQueued(s: State, e: Event)
    requires WellFormed(s) && !IsGlobal(e) && QueuedSteps(s, e) != []
    ensures var queued := StepOn(s, e).queue;
            && queued.home == s.queue.home && queued.dbValid == s.queue.dbValid
            && queued.rows == s.queue.rows + InterviewRows(s, e)
            && queued.nextSequence == s.queue.nextSequence + |InterviewRows(s, e)|
            && forall r :: r in InterviewRows(s, e) ==>
                 Matches(r, s.queue.home.value, e.node) && r.sequence < queued.nextSequence
  {
    StepFollows(s, e);
  }

  lemma {:induction false} InterviewIsPending(s: State, e: Event, meanwhile: seq<Event>)
    requires WellFormed(s) && !IsGlobal(e) && QueuedSteps(s, e) != [] && Kept(s, e, meanwhile)
    ensures var woken := RunFrom(StepOn(s, e), meanwhile);
            && Bound(woken.queue) && woken.queue.home == s.queue.home
            && Matching(s.queue.rows, s.queue.home.value, e.node) + InterviewRows(s, e) <= PendingRows(woken, e.node)
  {
    var h, n, queued := s.queue.home.value, e.node, StepOn(s, e);
    InterviewIsQueued(s, e);
    HomeIsFollowed(queued, meanwhile);
    AppendedMatch(s.queue.rows, InterviewRows(s, e), h, n);
    UntouchedGrows(queued, meanwhile, h, n);
  }

  lemma {:induction false} AppendedMatch(rows: seq<Row>, more: seq<Row>, h: Home, n: Node)
    requires forall r :: r in more ==> Matches(r, h, n)
    ensures Matching(rows + more, h, n) == Matching(rows, h, n) + more
  {
    MatchingConcat(rows, more, h, n);
    MatchingWhole(more, h, n);
  }

  /**
   * A wake-up selects all the queued requests of an interview or none: all of them exactly if a network was
   * bound when they were queued, it is bound at the wake-up, and nothing took them in between. Without a
   * network at the time of queueing they were never stored.
   */
  lemma {:induction false} InterviewSelectedIff(s: State, e: Event, meanwhile: seq<Event>, r: Row)
    requires WellFormed(s) && !IsGlobal(e) && QueuedSteps(s, e) != []
    ensures var woken := RunFrom(StepOn(s, e), meanwhile);
            && (InterviewRows(s, e) == [] <==> !Bound(s.queue))
            && (r in InterviewRows(s, e) ==> (r in PendingRows(woken, e.node) <==> Kept(s, e, meanwhile)))
  {
    var n, queued := e.node, StepOn(s, e);
    var woken := RunFrom(queued, meanwhile);
    InterviewIsQueued(s, e);
    HomeIsFollowed(queued, meanwhile);
    if r in InterviewRows(s, e) {
      var h := s.queue.home.value;
      if Kept(s, e, meanwhile) {
        InterviewIsPending(s, e, meanwhile);
        assert r in Matching(s.queue.rows, h, n) + InterviewRows(s, e);
      } else if Bound(woken.queue) {
        MatchingMembers(woken.queue.rows, woken.queue.home.value, n, r);
        if !Untouched(s.queue.home, meanwhile, h, n) {
          TouchedIsGone(queued, meanwhile, h, n, r);
        }
      }
    }
  }

  /** Included before any network is bound: the interview is not stored, and a later wake-up finds nothing. */
  lemma {:induction false} InterviewWithoutHomeIsLost(inclusionFirst: bool, n: Node, home: Home)
    ensures var included := StepOn(Init(inclusionFirst, true), NodeIncluded(n, [CC_WAKE_UP]));
            QueuedSteps(Init(inclusionFirst, true), NodeIncluded(n, [CC_WAKE_UP])) != []
            && DrainedFrom(StepOn(included, HomeBound(home)).queue, n) == []
  {
    var s, e := Init(inclusionFirst, true), NodeIncluded(n, [CC_WAKE_UP]);
    StepFollows(s, e);
    assert s.queue.rows + [] == [];
    StepFollows(StepOn(s, e), HomeBound(home));
    EmptyBuckets(256);
    assert PendingIn([], home, n) == [];
  }

  // ---- What the wake-up sends --------------------------------------------------------------------

  lemma {:induction false} ItemPayloads(steps: seq<Step>)
    ensures FlatMap(GetItems(steps), PayloadIn) == Payloads(steps)
    decreases |steps|
  {
    if steps != [] {
      var k := |steps| - 1;
      ItemPayloads(steps[..k]);
      assert GetItems(steps) == GetItems(steps[..k]) + [GetItems(steps)[k]];
      FlatMapAppend(GetItems(steps[..k]), GetItems(steps)[k], PayloadIn);
    }
  }

  function Payloads(steps: seq<Step>): seq<seq<Byte>> {
    seq(|steps|, i requires 0 <= i < |steps| => PayloadFor(steps[i]))
  }

  lemma {:induction false} ItemsConcat(a: seq<Row>, b: seq<Row>)
    ensures Items(a + b) == Items(a) + Items(b)
    decreases |b|
  {
    if b == [] {
      assert a + b == a;
    } else {
      var front, r := b[..|b| - 1], b[|b| - 1];
      assert a + b == a + front + [r] && b == front + [r];
      ItemsConcat(a, front);
      ItemsAppend(a + front, r);
      ItemsAppend(front, r);
    }
  }

  lemma {:induction false} NewItems(q: Store, n: Node, items: seq<Item>)
    requires Bound(q)
    ensures Items(NewRows(q, n, items)) == items
    decreases |items|
  {
    if items != [] {
      var front, item := items[..|items| - 1], items[|items| - 1];
      NewItems(q, n, front);
      assert NewRows(q, n, items) == NewRows(q, n, front) + [Row(q.nextSequence + |front|, q.home.value, n, item)];
      ItemsAppend(NewRows(q, n, front), Row(q.nextSequence + |front|, q.home.value, n, item));
      assert front + [item] == items;
    }
  }

  lemma {:induction false} BlockIsDrained(pre: seq<Item>, steps: seq<Step>, post: seq<Item>)
    returns (a: seq<seq<Byte>>, b: seq<seq<Byte>>)
    ensures DrainOrder(pre + GetItems(steps) + post) == a + Payloads(steps) + b
  {
    var before, after := BlockStaysTogether(pre, GetItems(steps), post, PRIORITY_NORMAL, 256);
    a, b := FlatMap(before, PayloadIn), FlatMap(after, PayloadIn);
    FlatMapConcat(before + GetItems(steps), after, PayloadIn);
    FlatMapConcat(before, GetItems(steps), PayloadIn);
    ItemPayloads(steps);
  }

  /** A wake-up sends the three parts one after the other, then closes the cycle with their count. */
  ghost predicate WakesWith(s: State, n: Node, a: seq<seq<Byte>>, middle: seq<seq<Byte>>, b: seq<seq<Byte>>) {
    && WellFormed(s)
    && DrainedFrom(s.queue, n) == a + middle + b
    && EffectOf(s, WakeUpNotification(n), n).actions ==
       Sends(a + middle + b) + [NoMoreInformation, WakeUpCycleComplete(|a| + |middle| + |b|)]
  }

  lemma {:induction false} WakeUpSends(s: State, n: Node, a: seq<seq<Byte>>, middle: seq<seq<Byte>>, b: seq<seq<Byte>>)
    requires WellFormed(s) && DrainedFrom(s.queue, n) == a + middle + b
    ensures WakesWith(s, n, a, middle, b)
  {
    assert |a + middle + b| == |a| + |middle| + |b|;
  }

  /**
   * Whatever was queued before and whatever else happens meanwhile, a wake-up that finds the interview still
   * pending sends its requests together and in step order, whether the node was included without security
   * or became secure first.
   */
  lemma {:induction false} SleepingInterviewGoesOutInOrder(s: State, e: Event, meanwhile: seq<Event>)
    returns (a: seq<seq<Byte>>, b: seq<seq<Byte>>)
    requires WellFormed(s) && !IsGlobal(e) && QueuedSteps(s, e) != [] && Kept(s, e, meanwhile)
    ensures WakesWith(RunFrom(StepOn(s, e), meanwhile), e.node, a, Payloads(QueuedSteps(s, e)), b)
  {
    var steps, n, h := QueuedSteps(s, e), e.node, s.queue.home.value;
    var woken := RunFrom(StepOn(s, e), meanwhile);
    InterviewIsPending(s, e, meanwhile);
    a, b := PendingIsDrained(s, e, PendingRows(woken, n));
    WakeUpSends(woken, n, a, Payloads(steps), b);
  }

  lemma {:induction false} PendingIsDrained(s: State, e: Event, pending: seq<Row>)
    returns (a: seq<seq<Byte>>, b: seq<seq<Byte>>)
    requires !IsGlobal(e) && Bound(s.queue)
    requires Matching(s.queue.rows, s.queue.home.value, e.node) + InterviewRows(s, e) <= pending
    ensures DrainOrder(Items(pending)) == a + Payloads(QueuedSteps(s, e)) + b
  {
    var steps := QueuedSteps(s, e);
    var pre, block := Matching(s.queue.rows, s.queue.home.value, e.node), InterviewRows(s, e);
    var post := pending[|pre + block|..];
    assert pending == pre + block + post;
    ItemsConcat(pre + block, post);
    ItemsConcat(pre, block);
    NewItems(s.queue, e.node, GetItems(steps));
    a, b := BlockIsDrained(Items(pre), steps, Items(post));
  }
}
