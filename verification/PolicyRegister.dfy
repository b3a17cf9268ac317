/** The policy store: device defaults and per-node overrides kept as blobs, and the policy in force. */
module PolicyRegister {
  import opened Bytes
  import opened Policy
  import opened PolicyCodec

  datatype DeviceId = DeviceId(manufacturerId: int, productTypeId: int, productId: int)

  /** A node on one network. */
  datatype NodeKey = NodeKey(home: Home, nodeId: Byte)

  // ---- The register as a value -------------------------------------------------------------------

  /** `changes` are the nodes announced as changed, 0 standing for a device default. */
  datatype Policies = Policies(
    dbValid: bool, home: Option<Home>, devices: map<DeviceId, seq<Byte>>, overrides: map<NodeKey, seq<Byte>>,
    identities: map<NodeKey, DeviceId>, changes: seq<Byte>)

  function NoPolicies(dbValid: bool): Policies {
    Policies(dbValid, None, map[], map[], map[], [])
  }

  predicate Usable(r: Policies) {
    r.dbValid && r.home.Some?
  }

  function DevicePolicyOf(r: Policies, device: DeviceId): Option<seq<Entry>> {
    if r.dbValid && device in r.devices then Decode(r.devices[device]) else None
  }

  function OverrideOf(r: Policies, nodeId: Byte): Option<seq<Entry>> {
    if Usable(r) && NodeKey(r.home.value, nodeId) in r.overrides
    then Decode(r.overrides[NodeKey(r.home.value, nodeId)]) else None
  }

  function IdentityOf(r: Policies, nodeId: Byte): Option<DeviceId> {
    if r.home.Some? && NodeKey(r.home.value, nodeId) in r.identities
    then Some(r.identities[NodeKey(r.home.value, nodeId)]) else None
  }

  function DefaultOf(r: Policies, nodeId: Byte): Option<seq<Entry>> {
    if IdentityOf(r, nodeId).Some? then DevicePolicyOf(r, IdentityOf(r, nodeId).value) else None
  }

  /** The policy in force for a node. */
  function InForce(r: Policies, nodeId: Byte): seq<Entry> {
    Effective(DefaultOf(r, nodeId), OverrideOf(r, nodeId))
  }

  function WithOverride(r: Policies, nodeId: Byte, policy: seq<Entry>): Policies {
    if !Usable(r) then r
    else r.(overrides := r.overrides[NodeKey(r.home.value, nodeId) := Encode(policy)], changes := r.changes + [nodeId])
  }

  function WithoutOverride(r: Policies, nodeId: Byte): Policies {
    if !Usable(r) then r
    else r.(overrides := r.overrides - {NodeKey(r.home.value, nodeId)}, changes := r.changes + [nodeId])
  }

  function WithDevicePolicy(r: Policies, device: DeviceId, policy: seq<Entry>): Policies {
    if !r.dbValid then r else r.(devices := r.devices[device := Encode(policy)], changes := r.changes + [0])
  }

  function WithIdentity(r: Policies, nodeId: Byte, device: DeviceId): Policies {
    if r.home.None? then r else r.(identities := r.identities[NodeKey(r.home.value, nodeId) := device])
  }

  /** An override reads back as stored exactly if there is somewhere to store it and its counts fit. */
  lemma {:induction false} OverrideReadsBackIff(r: Policies, nodeId: Byte, policy: seq<Entry>)
    ensures OverrideOf(WithOverride(r, nodeId, policy), nodeId) == Some(policy)
            <==> Usable(r) && Storable(policy)
  {
    RoundTripIffStorable(policy);
  }

  /** A device default reads back as stored under the same condition. */
  lemma {:induction false} DevicePolicyReadsBackIff(r: Policies, device: DeviceId, policy: seq<Entry>)
    ensures DevicePolicyOf(WithDevicePolicy(r, device, policy), device) == Some(policy)
            <==> r.dbValid && Storable(policy)
  {
    RoundTripIffStorable(policy);
  }

  /** Every accepted change of a policy is announced once: the node it is for, or 0 for a device default. */
  lemma {:induction false} ChangesAreAnnounced(r: Policies, nodeId: Byte, policy: seq<Entry>, device: DeviceId)
    ensures WithOverride(r, nodeId, policy).changes == r.changes + if Usable(r) then [nodeId] else []
    ensures WithoutOverride(r, nodeId).changes == r.changes + if Usable(r) then [nodeId] else []
    ensures WithDevicePolicy(r, device, policy).changes == r.changes + if r.dbValid then [0] else []
    ensures WithIdentity(r, nodeId, device).changes == r.changes
  {
    assert r.changes + [] == r.changes;
  }

  /** A deleted override is gone, and what is in force then is the default of the node's device, or nothing. */
  lemma {:induction false} DeletedOverrideIsGone(r: Policies, nodeId: Byte)
    ensures OverrideOf(WithoutOverride(r, nodeId), nodeId) == None
    ensures InForce(WithoutOverride(r, nodeId), nodeId) == match DefaultOf(r, nodeId) case None => [] case Some(p) => p
  {}

  /** Overrides and identities of other nodes and of other networks are left alone. */
  lemma {:induction false} OverridesAreSeparate(
    r: Policies, nodeId: Byte, policy: seq<Entry>, device: DeviceId, h: Home, n: Byte)
    requires r.home != Some(h) || n != nodeId
    ensures OverrideOf(WithOverride(r, nodeId, policy).(home := Some(h)), n) == OverrideOf(r.(home := Some(h)), n)
    ensures OverrideOf(WithoutOverride(r, nodeId).(home := Some(h)), n) == OverrideOf(r.(home := Some(h)), n)
    ensures IdentityOf(WithIdentity(r, nodeId, device).(home := Some(h)), n) == IdentityOf(r.(home := Some(h)), n)
  {}

  // ---- The register ------------------------------------------------------------------------------

  class Register {
    const dbValid: bool
    var currentHomeId: Option<Home>
    var devicePolicies: map<DeviceId, seq<Byte>>
    var nodeOverrides: map<NodeKey, seq<Byte>>
    var identityCache: map<NodeKey, DeviceId>
    var changes: seq<Byte>

    ghost function Value(): Policies
      reads this
    {
      Policies(dbValid, currentHomeId, devicePolicies, nodeOverrides, identityCache, changes)
    }

    constructor (dbValid: bool)
      ensures Value() == NoPolicies(dbValid)
    {
      this.dbValid := dbValid;
      currentHomeId, devicePolicies, nodeOverrides, identityCache, changes := None, map[], map[], map[], [];
    }

    method SetHomeId(home: Home)
      modifies this`currentHomeId
      ensures Value() == old(Value()).(home := Some(home))
    {
      currentHomeId := Some(home);
    }

    method SetNodeOverride(nodeId: Byte, policy: seq<Entry>)
      modifies this`nodeOverrides, this`changes
      ensures Value() == WithOverride(old(Value()), nodeId, policy)
    {
      if !dbValid || currentHomeId.None? {
        return;
      }
      var blob := Serialize(policy);
      nodeOverrides := nodeOverrides[NodeKey(currentHomeId.value, nodeId) := blob];
      changes := changes + [nodeId];
    }

    method SetDevicePolicy(device: DeviceId, policy: seq<Entry>)
      modifies this`devicePolicies, this`changes
      ensures Value() == WithDevicePolicy(old(Value()), device, policy)
    {
      if !dbValid {
        return;
      }
      var blob := Serialize(policy);
      devicePolicies := devicePolicies[device := blob];
      changes := changes + [0];
    }

    method DeleteNodeOverride(nodeId: Byte)
      modifies this`nodeOverrides, this`changes
      ensures Value() == WithoutOverride(old(Value()), nodeId)
    {
      if !dbValid || currentHomeId.None? {
        return;
      }
      nodeOverrides := nodeOverrides - {NodeKey(currentHomeId.value, nodeId)};
      changes := changes + [nodeId];
    }

    method NoteDeviceIdentity(nodeId: Byte, device: DeviceId)
      modifies this`identityCache
      ensures Value() == WithIdentity(old(Value()), nodeId, device)
    {
      if currentHomeId.None? {
        return;
      }
      identityCache := identityCache[NodeKey(currentHomeId.value, nodeId) := device];
    }

    method NodeOverride(nodeId: Byte) returns (r: Option<seq<Entry>>)
      ensures r == OverrideOf(Value(), nodeId)
    {
      if !dbValid || currentHomeId.None? {
        return None;
      }
      var key := NodeKey(currentHomeId.value, nodeId);
      if key !in nodeOverrides {
        return None;
      }
      r := Deserialize(nodeOverrides[key]);
    }

    method DevicePolicy(device: DeviceId) returns (r: Option<seq<Entry>>)
      ensures r == DevicePolicyOf(Value(), device)
    {
      if !dbValid || device !in devicePolicies {
        return None;
      }
      r := Deserialize(devicePolicies[device]);
    }

    /**
     * The policy in force for a node: in every slot the override's last word, else the device default.
     * It is the merge of the two stored sides unless a lone override repeats a slot.
     */
    method EffectivePolicy(nodeId: Byte) returns (policy: seq<Entry>)
      ensures policy == InForce(Value(), nodeId)
      ensures DefaultOf(Value(), nodeId).Some? || SlotUnique(OrEmpty(OverrideOf(Value(), nodeId))) ==>
                policy == Merge(OrEmpty(DefaultOf(Value(), nodeId)), OrEmpty(OverrideOf(Value(), nodeId)))
    {
      var identity := None;
      if currentHomeId.Some? {
        var key := NodeKey(currentHomeId.value, nodeId);
        if key in identityCache {
          identity := Some(identityCache[key]);
        }
      }
      var override := NodeOverride(nodeId);
      var deviceDefault := None;
      if identity.Some? {
        deviceDefault := DevicePolicy(identity.value);
      }
      EffectiveIsMerge(deviceDefault, override);
      if deviceDefault.Some? && override.Some? {
        policy := MergePolicies(deviceDefault.value, override.value);
        return;
      }
      if override.Some? {
        return override.value;
      }
      if deviceDefault.Some? {
        return deviceDefault.value;
      }
      return [];
    }
  }
}
