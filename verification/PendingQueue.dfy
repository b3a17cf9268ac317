/**
 * The persistent queue of commands for sleeping nodes: a table of rows with ever-growing sequence
 * numbers, read back ordered by priority and then sequence.
 */
module PendingQueue {
  import opened Bytes
  import opened Sequences

  const PRIORITY_NORMAL: Byte := 100

  datatype Item = Item(priority: Byte, payload: seq<Byte>)

  datatype Row = Row(sequence: nat, home: Home, node: Byte, item: Item)

  predicate Before(a: Row, b: Row) {
    a.item.priority < b.item.priority || (a.item.priority == b.item.priority && a.sequence < b.sequence)
  }

  predicate Matches(r: Row, home: Home, node: Byte) {
    r.home == home && r.node == node
  }

  function Matching(rows: seq<Row>, home: Home, node: Byte): seq<Row> {
    if rows == [] then []
    else
      var last := rows[|rows| - 1];
      Matching(rows[..|rows| - 1], home, node) + if Matches(last, home, node) then [last] else []
  }

  function Insert(sorted: seq<Row>, r: Row): seq<Row> {
    if sorted == [] then [r]
    else if Before(sorted[|sorted| - 1], r) then sorted + [r]
    else Insert(sorted[..|sorted| - 1], r) + [sorted[|sorted| - 1]]
  }

  /** The table's ORDER BY priority, sequence. */
  function OrderBy(rows: seq<Row>): seq<Row> {
    if rows == [] then [] else Insert(OrderBy(rows[..|rows| - 1]), rows[|rows| - 1])
  }

  /** What is pending for a node of a network, in the order it was enqueued. */
  function PendingIn(rows: seq<Row>, home: Home, node: Byte): seq<Item> {
    Items(Matching(rows, home, node))
  }

  function Items(rows: seq<Row>): seq<Item> {
    if rows == [] then [] else Items(rows[..|rows| - 1]) + [rows[|rows| - 1].item]
  }

  lemma {:induction false} ItemsAppend(rows: seq<Row>, r: Row)
    ensures Items(rows + [r]) == Items(rows) + [r.item]
  {
    assert (rows + [r])[..|rows|] == rows;
  }

  // ---- The reference: one bucket per priority, each first in first out --------------------------

  function Bucket(items: seq<Item>, p: Byte): seq<Item> {
    if items == [] then []
    else
      var rest, last := Bucket(items[..|items| - 1], p), items[|items| - 1];
      if last.priority == p then rest + [last] else rest
  }

  lemma {:induction false} BucketAppend(items: seq<Item>, x: Item, p: Byte)
    ensures Bucket(items + [x], p) == if x.priority == p then Bucket(items, p) + [x] else Bucket(items, p)
  {
    assert (items + [x])[..|items|] == items;
  }

  lemma {:induction false} BucketConcat(a: seq<Item>, b: seq<Item>, p: Byte)
    ensures Bucket(a + b, p) == Bucket(a, p) + Bucket(b, p)
    decreases |b|
  {
    if b == [] {
      assert a + b == a;
    } else {
      var n := |b| - 1;
      assert a + b == a + b[..n] + [b[n]];
      BucketConcat(a, b[..n], p);
      BucketAppend(a + b[..n], b[n], p);
    }
  }

  /** The buckets of all priorities below `k`, lowest number first. */
  function Buckets(items: seq<Item>, k: nat): seq<Item>
    requires k <= 256
  {
    if k == 0 then [] else Buckets(items, k - 1) + Bucket(items, k - 1)
  }

  function StableByPriority(items: seq<Item>): seq<Item> {
    Buckets(items, 256)
  }

  predicate AllBelow(rows: seq<Row>, k: nat) {
    forall r :: r in rows ==> r.sequence < k
  }

  /** Sequence numbers grow from row to row. */
  predicate Ascending(rows: seq<Row>) {
    rows != [] ==> Ascending(rows[..|rows| - 1]) && AllBelow(rows[..|rows| - 1], rows[|rows| - 1].sequence)
  }

  predicate NoneAbove(rows: seq<Row>, p: Byte) {
    forall r :: r in rows ==> r.item.priority <= p
  }

  predicate SortedByPriority(rows: seq<Row>) {
    rows != [] ==> SortedByPriority(rows[..|rows| - 1]) && NoneAbove(rows[..|rows| - 1], rows[|rows| - 1].item.priority)
  }

  lemma {:induction false} BucketsOfAppend(rows: seq<Row>, r: Row, k: nat)
    requires k <= 256 && NoneAbove(rows, r.item.priority)
    ensures Buckets(Items(rows) + [r.item], k) ==
            if k <= r.item.priority then Buckets(Items(rows), k) else Buckets(Items(rows), k) + [r.item]
    decreases k
  {
    if k > 0 {
      var items, x := Items(rows), r.item;
      BucketsOfAppend(rows, r, k - 1);
      var below, here := Buckets(items, k - 1), Bucket(items, k - 1);
      BucketAppend(items, x, k - 1);
      if k - 1 < x.priority {
        assert Buckets(items + [x], k) == below + here;
      } else if k - 1 == x.priority {
        assert Buckets(items + [x], k) == below + (here + [x]);
        ConcatAssociative(below, here, [x]);
      } else {
        BucketEmpty(rows, x.priority, k - 1);
        assert Buckets(items + [x], k) == below + [x] + [] == below + [x];
        assert Buckets(items, k) == below + [] == below;
      }
    }
  }

  lemma {:induction false} BucketEmpty(rows: seq<Row>, top: Byte, p: Byte)
    requires NoneAbove(rows, top) && top < p
    ensures Bucket(Items(rows), p) == []
  {
    if rows != [] {
      var n := |rows| - 1;
      BucketEmpty(rows[..n], top, p);
      BucketAppend(Items(rows[..n]), rows[n].item, p);
    }
  }

  lemma {:induction false} SortedIsItsBuckets(rows: seq<Row>)
    requires SortedByPriority(rows)
    ensures StableByPriority(Items(rows)) == Items(rows)
  {
    if rows == [] {
      EmptyBuckets(256);
    } else {
      var n := |rows| - 1;
      SortedIsItsBuckets(rows[..n]);
      BucketsOfAppend(rows[..n], rows[n], 256);
    }
  }

  lemma {:induction false} EmptyBuckets(k: nat)
    requires k <= 256
    ensures Buckets([], k) == []
  {
    if k > 0 {
      EmptyBuckets(k - 1);
    }
  }

  lemma {:induction false} InsertKeepsOrder(sorted: seq<Row>, r: Row)
    requires SortedByPriority(sorted) && AllBelow(sorted, r.sequence)
    ensures SortedByPriority(Insert(sorted, r))
    ensures forall x :: x in Insert(sorted, r) ==> x == r || x in sorted
  {
    if sorted != [] {
      var n := |sorted| - 1;
      var last := sorted[n];
      if Before(last, r) {
        assert (sorted + [r])[..|sorted|] == sorted;
        assert NoneAbove(sorted[..n], last.item.priority);
      } else {
        InsertKeepsOrder(sorted[..n], r);
        var rest := Insert(sorted[..n], r);
        assert (rest + [last])[..|rest|] == rest;
      }
    }
  }

  /** Inserting the newest row puts it at the end of its bucket and leaves every other bucket alone. */
  lemma {:induction false} InsertKeepsBuckets(sorted: seq<Row>, r: Row, p: Byte)
    requires AllBelow(sorted, r.sequence)
    ensures Bucket(Items(Insert(sorted, r)), p) ==
            if r.item.priority == p then Bucket(Items(sorted), p) + [r.item] else Bucket(Items(sorted), p)
  {
    if sorted == [] {
      assert Items([r]) == [r.item];
      BucketAppend([], r.item, p);
    } else {
      var n := |sorted| - 1;
      var last := sorted[n];
      if Before(last, r) {
        ItemsAppend(sorted, r);
        BucketAppend(Items(sorted), r.item, p);
      } else {
        assert last.item.priority > r.item.priority;
        InsertKeepsBuckets(sorted[..n], r, p);
        ItemsAppend(Insert(sorted[..n], r), last);
        BucketAppend(Items(Insert(sorted[..n], r)), last.item, p);
        BucketAppend(Items(sorted[..n]), last.item, p);
      }
    }
  }

  lemma {:induction false} OrderByBuckets(rows: seq<Row>, p: Byte)
    requires Ascending(rows)
    ensures SortedByPriority(OrderBy(rows)) && forall r :: r in OrderBy(rows) ==> r in rows
    ensures Bucket(Items(OrderBy(rows)), p) == Bucket(Items(rows), p)
  {
    if rows != [] {
      var n := |rows| - 1;
      OrderByBuckets(rows[..n], p);
      InsertKeepsOrder(OrderBy(rows[..n]), rows[n]);
      InsertKeepsBuckets(OrderBy(rows[..n]), rows[n], p);
      BucketAppend(Items(rows[..n]), rows[n].item, p);
    }
  }

  lemma {:induction false} SameBuckets(a: seq<Item>, b: seq<Item>, k: nat)
    requires k <= 256 && forall p: Byte :: Bucket(a, p) == Bucket(b, p)
    ensures Buckets(a, k) == Buckets(b, k)
  {
    if k > 0 {
      SameBuckets(a, b, k - 1);
    }
  }

  /** Ordering rows by priority and sequence is the stable sort of the enqueue order by priority. */
  lemma {:induction false} OrderByIsStableSort(rows: seq<Row>)
    requires Ascending(rows)
    ensures Items(OrderBy(rows)) == StableByPriority(Items(rows))
  {
    forall p: Byte
      ensures Bucket(Items(OrderBy(rows)), p) == Bucket(Items(rows), p)
    {
      OrderByBuckets(rows, p);
    }
    OrderByBuckets(rows, 0);
    SameBuckets(Items(OrderBy(rows)), Items(rows), 256);
    SortedIsItsBuckets(OrderBy(rows));
  }

  /** Items enqueued back to back at one priority are drained back to back, in order. */
  lemma {:induction false} BlockStaysTogether(pre: seq<Item>, block: seq<Item>, post: seq<Item>, p: Byte, k: nat)
    returns (a: seq<Item>, b: seq<Item>)
    requires p < k <= 256 && forall i :: 0 <= i < |block| ==> block[i].priority == p
    ensures Buckets(pre + block + post, k) == a + block + b
  {
    var all := pre + block + post;
    if k == p + 1 {
      BucketConcat(pre + block, post, p);
      BucketConcat(pre, block, p);
      BucketWhole(block, p);
      a, b := Buckets(all, p) + Bucket(pre, p), Bucket(post, p);
      ConcatAssociative(Buckets(all, p), Bucket(pre, p) + block, b);
      ConcatAssociative(Buckets(all, p), Bucket(pre, p), block);
    } else {
      var c: seq<Item>;
      a, c := BlockStaysTogether(pre, block, post, p, k - 1);
      b := c + Bucket(all, k - 1);
      ConcatAssociative(a + block, c, Bucket(all, k - 1));
    }
  }

  lemma {:induction false} BucketWhole(block: seq<Item>, p: Byte)
    requires forall i :: 0 <= i < |block| ==> block[i].priority == p
    ensures Bucket(block, p) == block
  {
    if block != [] {
      BucketWhole(block[..|block| - 1], p);
    }
  }

  // ---- The queue object --------------------------------------------------------------------------

  function PayloadIn(i: Item): seq<seq<Byte>> {
    if i.payload != [] then [i.payload] else []
  }

  /** What a drain hands out: the stable sort by priority; a row without payload is passed over. */
  function DrainOrder(items: seq<Item>): seq<seq<Byte>> {
    FlatMap(StableByPriority(items), PayloadIn)
  }

  lemma {:induction false} BucketCount(items: seq<Item>, p: Byte, x: Item)
    ensures multiset(Bucket(items, p))[x] == if x.priority == p then multiset(items)[x] else 0
    decreases |items|
  {
    if items != [] {
      BucketCount(items[..|items| - 1], p, x);
      assert items == items[..|items| - 1] + [items[|items| - 1]];
    }
  }

  lemma {:induction false} BucketsCount(items: seq<Item>, k: nat, x: Item)
    requires k <= 256
    ensures multiset(Buckets(items, k))[x] == if x.priority < k then multiset(items)[x] else 0
    decreases k
  {
    if k > 0 {
      BucketsCount(items, k - 1, x);
      BucketCount(items, k - 1, x);
    }
  }

  /** A drain hands out every pending command that is not empty, as often as it is pending, and nothing else. */
  lemma {:induction false} DrainHandsOut(items: seq<Item>)
    ensures multiset(StableByPriority(items)) == multiset(items)
    ensures forall x :: x in DrainOrder(items) <==> x != [] && exists i :: i in items && i.payload == x
  {
    forall x: Item
      ensures multiset(StableByPriority(items))[x] == multiset(items)[x]
    {
      BucketsCount(items, 256, x);
    }
    forall x
      ensures x in DrainOrder(items) <==> x != [] && exists i :: i in StableByPriority(items) && i.payload == x
    {
      PayloadsOf(StableByPriority(items), x);
    }
    forall i: Item
      ensures i in StableByPriority(items) <==> i in items
    {
      assert i in items <==> i in multiset(items);
      assert i in StableByPriority(items) <==> i in multiset(StableByPriority(items));
    }
  }

  lemma {:induction false} PayloadsOf(items: seq<Item>, x: seq<Byte>)
    ensures x in FlatMap(items, PayloadIn) <==> x != [] && exists i :: i in items && i.payload == x
    decreases |items|
  {
    if items != [] {
      var front, last := items[..|items| - 1], items[|items| - 1];
      PayloadsOf(front, x);
      assert items == front + [last];
    }
  }

  lemma {:induction false} MatchingAscends(rows: seq<Row>, home: Home, node: Byte)
    requires Ascending(rows)
    ensures Ascending(Matching(rows, home, node))
    ensures forall r :: r in Matching(rows, home, node) ==> r in rows
  {
    if rows != [] {
      var k := |rows| - 1;
      var before := Matching(rows[..k], home, node);
      MatchingAscends(rows[..k], home, node);
      assert (before + [rows[k]])[..|before|] == before && before + [] == before;
    }
  }

  function Without(rows: seq<Row>, home: Home, node: Byte): seq<Row> {
    if rows == [] then []
    else
      var last := rows[|rows| - 1];
      var kept := Without(rows[..|rows| - 1], home, node);
      if Matches(last, home, node) then kept else kept + [last]
  }

  lemma {:induction false} MatchingAppend(rows: seq<Row>, r: Row, h: Home, n: Byte)
    ensures Matching(rows + [r], h, n) == if Matches(r, h, n) then Matching(rows, h, n) + [r] else Matching(rows, h, n)
  {
    assert (rows + [r])[..|rows|] == rows;
  }

  lemma {:induction false} WithoutMatching(rows: seq<Row>, home: Home, node: Byte, h: Home, n: Byte)
    ensures Matching(Without(rows, home, node), h, n) ==
            if h == home && n == node then [] else Matching(rows, h, n)
  {
    if rows != [] {
      var k := |rows| - 1;
      var kept, last := Without(rows[..k], home, node), rows[k];
      WithoutMatching(rows[..k], home, node, h, n);
      assert rows == rows[..k] + [last];
      MatchingAppend(rows[..k], last, h, n);
      MatchingAppend(kept, last, h, n);
    }
  }

  lemma {:induction false} WithoutAscends(rows: seq<Row>, home: Home, node: Byte, k: nat)
    requires Ascending(rows) && AllBelow(rows, k)
    ensures Ascending(Without(rows, home, node)) && AllBelow(Without(rows, home, node), k)
  {
    if rows != [] {
      var n := |rows| - 1;
      var kept := Without(rows[..n], home, node);
      WithoutAscends(rows[..n], home, node, rows[n].sequence);
      assert (kept + [rows[n]])[..|kept|] == kept && kept + [] == kept;
    }
  }

  /** Walks a result set and collects the payloads that are not empty. */
  method ReadPayloads(selected: seq<Row>) returns (out: seq<seq<Byte>>)
    ensures out == FlatMap(Items(selected), PayloadIn)
  {
    out := [];
    for i := 0 to |selected|
      invariant out == FlatMap(Items(selected[..i]), PayloadIn)
    {
      var blob := selected[i].item.payload;
      assert selected[..i + 1] == selected[..i] + [selected[i]];
      ItemsAppend(selected[..i], selected[i]);
      FlatMapAppend(Items(selected[..i]), selected[i].item, PayloadIn);
      if |blob| > 0 {
        out := out + [blob];
      }
    }
    assert selected[..|selected|] == selected;
  }

  /** Walks a result set and collects every entry. */
  method ReadItems(selected: seq<Row>) returns (out: seq<Item>)
    ensures out == Items(selected)
  {
    out := [];
    for i := 0 to |selected|
      invariant out == Items(selected[..i])
    {
      assert selected[..i + 1] == selected[..i] + [selected[i]];
      ItemsAppend(selected[..i], selected[i]);
      out := out + [selected[i].item];
    }
    assert selected[..|selected|] == selected;
  }

  /** The rows pending for a node as the table returns them. */
  lemma {:induction false} SelectIsStableSort(rows: seq<Row>, home: Home, node: Byte)
    requires Ascending(rows)
    ensures Items(OrderBy(Matching(rows, home, node))) == StableByPriority(PendingIn(rows, home, node))
  {
    MatchingAscends(rows, home, node);
    OrderByIsStableSort(Matching(rows, home, node));
  }

  // ---- The queue as a value ----------------------------------------------------------------------

  /** What the queue publishes on the bus. */
  datatype Announcement = Enqueued(node: Byte, sequence: U32, priority: Byte) | Drained(node: Byte, count: U32)

  datatype Store = Store(
    dbValid: bool, home: Option<Home>, rows: seq<Row>, nextSequence: nat, announced: seq<Announcement>)

  predicate Bound(q: Store) {
    q.dbValid && q.home.Some?
  }

  /** Rows are in order of insertion. */
  ghost predicate StoreValid(q: Store) {
    Ascending(q.rows) && AllBelow(q.rows, q.nextSequence)
  }

  function Empty(dbValid: bool): Store {
    Store(dbValid, None, [], 1, [])
  }

  /** Without a database or a network the command is dropped. */
  function Added(q: Store, node: Byte, item: Item): Store {
    if !Bound(q) then q
    else
      q.(rows := q.rows + [Row(q.nextSequence, q.home.value, node, item)],
         nextSequence := q.nextSequence + 1,
         announced := q.announced + [Enqueued(node, q.nextSequence % 0x1_0000_0000, item.priority)])
  }

  function AddedAll(q: Store, node: Byte, items: seq<Item>): Store {
    if items == [] then q else Added(AddedAll(q, node, items[..|items| - 1]), node, items[|items| - 1])
  }

  function Cleared(q: Store, node: Byte): Store {
    if !Bound(q) then q else q.(rows := Without(q.rows, q.home.value, node))
  }

  /** What a drain hands out. */
  function DrainedFrom(q: Store, node: Byte): seq<seq<Byte>> {
    if !Bound(q) then [] else DrainOrder(PendingIn(q.rows, q.home.value, node))
  }

  function AfterDrain(q: Store, node: Byte): Store {
    Cleared(q, node).(announced := q.announced + [Drained(node, |DrainedFrom(q, node)| % 0x1_0000_0000)])
  }

  lemma {:induction false} AddedIsValid(q: Store, node: Byte, item: Item)
    requires StoreValid(q)
    ensures StoreValid(Added(q, node, item))
  {
    if Bound(q) {
      assert Added(q, node, item).rows[..|q.rows|] == q.rows;
    }
  }

  lemma {:induction false} ClearedIsValid(q: Store, node: Byte)
    requires StoreValid(q)
    ensures StoreValid(Cleared(q, node))
  {
    if Bound(q) {
      WithoutAscends(q.rows, q.home.value, node, q.nextSequence);
    }
  }

  /** A command goes last for its own (home, node) and changes no other key. */
  lemma {:induction false} AddedPending(q: Store, node: Byte, item: Item, h: Home, n: Byte)
    ensures PendingIn(Added(q, node, item).rows, h, n)
            == PendingIn(q.rows, h, n) + if Bound(q) && h == q.home.value && n == node then [item] else []
  {
    assert PendingIn(q.rows, h, n) + [] == PendingIn(q.rows, h, n);
    if Bound(q) {
      var row := Row(q.nextSequence, q.home.value, node, item);
      MatchingAppend(q.rows, row, h, n);
      ItemsAppend(Matching(q.rows, h, n), row);
    }
  }

  /** An accepted command gets a sequence number no row has, which is announced with its priority. */
  lemma {:induction false} AddedIsAnnounced(q: Store, node: Byte, item: Item)
    requires StoreValid(q)
    ensures !Bound(q) ==> Added(q, node, item) == q
    ensures Bound(q) ==>
              exists r :: r in Added(q, node, item).rows && r.item == item && r.node == node
                && (forall other | other in q.rows :: other.sequence != r.sequence)
                && Added(q, node, item).announced
                   == q.announced + [Enqueued(node, r.sequence % 0x1_0000_0000, item.priority)]
  {
    if Bound(q) {
      var r := Row(q.nextSequence, q.home.value, node, item);
      assert r in Added(q, node, item).rows;
    }
  }

  /** Clearing empties exactly one key. */
  lemma {:induction false} ClearedPending(q: Store, node: Byte, h: Home, n: Byte)
    ensures PendingIn(Cleared(q, node).rows, h, n)
            == if Bound(q) && h == q.home.value && n == node then [] else PendingIn(q.rows, h, n)
  {
    if Bound(q) {
      WithoutMatching(q.rows, q.home.value, node, h, n);
    }
  }

  lemma {:induction false} ClearedPendingAll(q: Store, node: Byte)
    ensures forall h, n :: PendingIn(Cleared(q, node).rows, h, n)
              == if Bound(q) && h == q.home.value && n == node then [] else PendingIn(q.rows, h, n)
  {
    forall h, n
      ensures PendingIn(Cleared(q, node).rows, h, n)
              == if Bound(q) && h == q.home.value && n == node then [] else PendingIn(q.rows, h, n)
    {
      ClearedPending(q, node, h, n);
    }
  }

  class Queue {
    const dbValid: bool
    var currentHomeId: Option<Home>
    var rows: seq<Row>
    var nextSequence: nat
    var announced: seq<Announcement>

    ghost function Value(): Store
      reads this
    {
      Store(dbValid, currentHomeId, rows, nextSequence, announced)
    }

    ghost predicate Valid()
      reads this
    {
      StoreValid(Value())
    }

    ghost function Pending(home: Home, node: Byte): seq<Item>
      reads this
    {
      PendingIn(rows, home, node)
    }

    constructor (dbValid: bool)
      ensures Valid() && Value() == Empty(dbValid)
      ensures forall h, n :: Pending(h, n) == []
    {
      this.dbValid := dbValid;
      currentHomeId, rows, nextSequence, announced := None, [], 1, [];
    }

    method SetHomeId(home: Home)
      requires Valid()
      modifies this`currentHomeId
      ensures Valid() && Value() == old(Value()).(home := Some(home))
      ensures forall h, n :: Pending(h, n) == old(Pending(h, n))
    {
      currentHomeId := Some(home);
    }

    method Enqueue(node: Byte, payload: seq<Byte>, priority: Byte)
      requires Valid()
      modifies this`rows, this`nextSequence, this`announced
      ensures Valid() && Value() == Added(old(Value()), node, Item(priority, payload))
      ensures forall h, n :: Pending(h, n) ==
                old(Pending(h, n))
                + if Bound(Value()) && h == currentHomeId.value && n == node then [Item(priority, payload)] else []
    {
      ghost var before := Value();
      AddedIsValid(before, node, Item(priority, payload));
      forall h, n
        ensures PendingIn(Added(before, node, Item(priority, payload)).rows, h, n) ==
                PendingIn(before.rows, h, n)
                + if Bound(before) && h == before.home.value && n == node then [Item(priority, payload)] else []
      {
        AddedPending(before, node, Item(priority, payload), h, n);
      }
      if !dbValid || currentHomeId.None? {
        return;
      }
      var sequence := nextSequence;
      rows := rows + [Row(sequence, currentHomeId.value, node, Item(priority, payload))];
      nextSequence := nextSequence + 1;
      announced := announced + [Enqueued(node, sequence % 0x1_0000_0000, priority)];
    }

    /** Pops everything pending for the node, most urgent first, and nothing of any other node or network. */
    method Drain(node: Byte) returns (out: seq<seq<Byte>>)
      requires Valid()
      modifies this`rows, this`announced
      ensures Valid() && Value() == AfterDrain(old(Value()), node)
      ensures out == DrainedFrom(old(Value()), node)
      ensures forall h, n :: Pending(h, n) ==
                if Bound(Value()) && h == currentHomeId.value && n == node then [] else old(Pending(h, n))
    {
      ghost var before := Value();
      ClearedIsValid(before, node);
      ClearedPendingAll(before, node);
      if !dbValid || currentHomeId.None? {
        announced := announced + [Drained(node, 0)];
        return [];
      }
      SelectIsStableSort(rows, currentHomeId.value, node);
      out := ReadPayloads(OrderBy(Matching(rows, currentHomeId.value, node)));
      rows := Without(rows, currentHomeId.value, node);
      announced := announced + [Drained(node, |out| % 0x1_0000_0000)];
    }

    /** The snapshot agrees with what a drain would hand out, row by row. */
    method Peek(node: Byte) returns (out: seq<Item>)
      requires Valid()
      ensures out == if Bound(Value()) then StableByPriority(Pending(currentHomeId.value, node)) else []
      ensures FlatMap(out, PayloadIn) == DrainedFrom(Value(), node)
    {
      if !dbValid || currentHomeId.None? {
        return [];
      }
      SelectIsStableSort(rows, currentHomeId.value, node);
      out := ReadItems(OrderBy(Matching(rows, currentHomeId.value, node)));
    }

    method ClearForNode(node: Byte)
      requires Valid()
      modifies this`rows
      ensures Valid() && Value() == Cleared(old(Value()), node)
      ensures forall h, n :: Pending(h, n) ==
                if Bound(Value()) && h == currentHomeId.value && n == node then [] else old(Pending(h, n))
    {
      ClearedIsValid(Value(), node);
      forall h, n {
        ClearedPending(Value(), node, h, n);
      }
      if !dbValid || currentHomeId.None? {
        return;
      }
      rows := Without(rows, currentHomeId.value, node);
    }
  }
}
