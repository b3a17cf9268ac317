/** The policy in force for a node, worked out from the history of inputs alone. */
module PolicyHistory {
  import opened Bytes
  import opened Policy
  import opened PolicyCodec
  import opened PolicyRegister
  import opened PostInclusion
  import opened PostInclusionRuns

  /** The network bound last. */
  function BoundIn(log: seq<LogEntry>): Option<Home>
    decreases |log|
  {
    if log == [] then None
    else
      var x := log[|log| - 1];
      if x.In? && x.event.HomeBound? then Some(x.event.home) else BoundIn(log[..|log| - 1])
  }

  /** The override last set for a node of a network while that was bound, unless it was deleted since. */
  function LastOverride(log: seq<LogEntry>, home: Home, n: Node): Option<seq<Entry>>
    decreases |log|
  {
    if log == [] then None
    else
      var front, x := log[..|log| - 1], log[|log| - 1];
      if x.In? && x.event.OverrideSet? && x.event.node == n && BoundIn(front) == Some(home) then Some(x.event.policy)
      else if x.In? && x.event.OverrideDeleted? && x.event.node == n && BoundIn(front) == Some(home) then None
      else LastOverride(front, home, n)
  }

  predicate IsIdentity(x: LogEntry, n: Node) {
    x.In? && x.event.Report? && x.event.step.ManufacturerSpecific? && x.event.node == n
  }

  /** The identity a node of a network last reported while that was bound. */
  function LastIdentity(log: seq<LogEntry>, home: Home, n: Node): Option<DeviceId>
    decreases |log|
  {
    if log == [] then None
    else
      var front, x := log[..|log| - 1], log[|log| - 1];
      if IsIdentity(x, n) && BoundIn(front) == Some(home) then Some(x.event.device)
      else LastIdentity(front, home, n)
  }

  /** The default last set for a kind of device. */
  function LastDefault(log: seq<LogEntry>, device: DeviceId): Option<seq<Entry>>
    decreases |log|
  {
    if log == [] then None
    else
      var x := log[|log| - 1];
      if x.In? && x.event.DevicePolicySet? && x.event.device == device then Some(x.event.policy)
      else LastDefault(log[..|log| - 1], device)
  }

  /** A policy as it comes back from the store; the same one if its counts fit. */
  function ReadBack(p: Option<seq<Entry>>): Option<seq<Entry>> {
    if p.Some? then Decode(Encode(p.value)) else None
  }

  lemma {:induction false} HomeIsLast(dbValid: bool, log: seq<LogEntry>)
    ensures PoliciesIn(dbValid, log).home == BoundIn(log) && PoliciesIn(dbValid, log).dbValid == dbValid
    decreases |log|
  {
    if log != [] {
      HomeIsLast(dbValid, log[..|log| - 1]);
    }
  }

  lemma {:induction false} OverrideIsLast(dbValid: bool, log: seq<LogEntry>, home: Home, n: Node)
    ensures var stored, key := PoliciesIn(dbValid, log).overrides, NodeKey(home, n);
            && (key in stored <==> dbValid && LastOverride(log, home, n).Some?)
            && (key in stored ==> stored[key] == Encode(LastOverride(log, home, n).value))
    decreases |log|
  {
    if log != [] {
      OverrideIsLast(dbValid, log[..|log| - 1], home, n);
      HomeIsLast(dbValid, log[..|log| - 1]);
    }
  }

  lemma {:induction false} IdentityIsLast(dbValid: bool, log: seq<LogEntry>, home: Home, n: Node)
    ensures var known, key := PoliciesIn(dbValid, log).identities, NodeKey(home, n);
            && (key in known <==> LastIdentity(log, home, n).Some?)
            && (key in known ==> known[key] == LastIdentity(log, home, n).value)
    decreases |log|
  {
    if log != [] {
      IdentityIsLast(dbValid, log[..|log| - 1], home, n);
      HomeIsLast(dbValid, log[..|log| - 1]);
    }
  }

  lemma {:induction false} DefaultIsLast(dbValid: bool, log: seq<LogEntry>, device: DeviceId)
    ensures var stored := PoliciesIn(dbValid, log).devices;
            && (device in stored <==> dbValid && LastDefault(log, device).Some?)
            && (device in stored ==> stored[device] == Encode(LastDefault(log, device).value))
    decreases |log|
  {
    if log != [] {
      DefaultIsLast(dbValid, log[..|log| - 1], device);
      HomeIsLast(dbValid, log[..|log| - 1]);
    }
  }

  /** The default for the device a node said it is, and the node's override, according to the history. */
  function DefaultFor(log: seq<LogEntry>, home: Home, n: Node): Option<seq<Entry>> {
    match LastIdentity(log, home, n)
    case None => None
    case Some(device) => ReadBack(LastDefault(log, device))
  }

  /**
   * After every history, the policy in force for a node of the bound network is the override last set for it
   * there laid over the default last set for the device it last said it is, as they come back from the store;
   * without a network or a database there is none.
   */
  lemma {:induction false} InForceIsLast(dbValid: bool, log: seq<LogEntry>, n: Node)
    ensures InForce(PoliciesIn(dbValid, log), n)
            == if !dbValid || BoundIn(log).None? then []
               else
                 var home := BoundIn(log).value;
                 Effective(DefaultFor(log, home, n), ReadBack(LastOverride(log, home, n)))
  {
    HomeIsLast(dbValid, log);
    if BoundIn(log).Some? {
      var home := BoundIn(log).value;
      OverrideIsLast(dbValid, log, home, n);
      IdentityIsLast(dbValid, log, home, n);
      if LastIdentity(log, home, n).Some? {
        DefaultIsLast(dbValid, log, LastIdentity(log, home, n).value);
      }
    }
  }

  /** What comes back from the store is what was stored exactly if its counts fit. */
  lemma {:induction false} ReadBackIff(p: seq<Entry>)
    ensures ReadBack(Some(p)) == Some(p) <==> Storable(p)
  {
    RoundTripIffStorable(p);
  }
}
