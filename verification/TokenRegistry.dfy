/**
 The process-wide asset table that registerTokenAsset overrides (tunnel/cmd/main.go), undoing
 whatever the previous configuration registered.
 */
module TokenRegistry {
  import opened ChainId
  import opened Config

  datatype AssetInfo = AssetInfo(
    address: string,
    name: string,
    version: string,
    decimals: int,
    permit2: bool,
    supportsEip2612: bool)

  datatype NetworkConfig = NetworkConfig(chainID: int, defaultAsset: AssetInfo)

  type Table = map<string, NetworkConfig>

  datatype Registered = Registered(table: Table, network: string)

  function AssetOf(c: Data): AssetInfo {
    var permit2 := c.tokenTransferMethod == PERMIT2;
    AssetInfo(c.tokenAddress, c.tokenName, c.tokenVersion, c.tokenDecimals, permit2, permit2 && c.tokenSupportsEIP2612)
  }

  function Restore(pristine: Table, table: Table, network: string): Table {
    if network in pristine then table[network := pristine[network]] else table - {network}
  }

  /** Undo the override of another network. */
  function Undo(pristine: Table, r: Registered, network: string): Registered {
    if r.network != "" && r.network != network then Registered(Restore(pristine, r.table, r.network), "") else r
  }

  function Register(pristine: Table, r: Registered, c: Data): Registered {
    var undone := Undo(pristine, r, c.network);
    if c.tokenAddress == "" then Registered(Restore(pristine, undone.table, c.network), "")
    else
      match ChainID(c.network)
      case None => undone
      case Some(id) => Registered(undone.table[c.network := NetworkConfig(id, AssetOf(c))], c.network)
  }

  class Registry {
    const pristine: Table
    var networkConfigs: Table
    var registeredNetwork: string

    function State(): Registered
      reads this
    {
      Registered(networkConfigs, registeredNetwork)
    }

    /** The snapshot is taken before anything overrides the table. */
    constructor (shipped: Table)
      ensures pristine == shipped && State() == Registered(shipped, "")
    {
      pristine, networkConfigs, registeredNetwork := shipped, shipped, "";
    }

    method RestoreNetworkDefault(network: string)
      modifies this`networkConfigs
      ensures networkConfigs == Restore(pristine, old(networkConfigs), network)
    {
      if network in pristine {
        networkConfigs := networkConfigs[network := pristine[network]];
        return;
      }
      networkConfigs := networkConfigs - {network};
    }

    method RegisterTokenAsset(c: Data)
      modifies this
      ensures State() == Register(pristine, old(State()), c)
    {
      if registeredNetwork != "" && registeredNetwork != c.network {
        RestoreNetworkDefault(registeredNetwork);
        registeredNetwork := "";
      }
      if c.tokenAddress == "" {
        RestoreNetworkDefault(c.network);
        registeredNetwork := "";
        return;
      }
      var chainID := ChainID(c.network);
      if chainID.None? {
        return;
      }
      var asset := AssetInfo(c.tokenAddress, c.tokenName, c.tokenVersion, c.tokenDecimals, false, false);
      if c.tokenTransferMethod == PERMIT2 {
        asset := asset.(permit2 := true);
        asset := asset.(supportsEip2612 := c.tokenSupportsEIP2612);
      }
      networkConfigs := networkConfigs[c.network := NetworkConfig(chainID.value, asset)];
      registeredNetwork := c.network;
    }
  }

  // ---- any history looks like its last call ----

  /** The table a configuration asks for, over the shipped one. */
  function Overlay(pristine: Table, c: Data): Table {
    match ChainID(c.network)
    case None => pristine
    case Some(id) =>
      if c.tokenAddress == "" then pristine
      else pristine[c.network := NetworkConfig(id,
        AssetInfo(c.tokenAddress, c.tokenName, c.tokenVersion, c.tokenDecimals,
                  c.tokenTransferMethod == "permit2", c.tokenTransferMethod == "permit2" && c.tokenSupportsEIP2612))]
  }

  /** The table differs from the shipped one only at the registered network, which has a chain ID. */
  ghost predicate RegistryInv(pristine: Table, r: Registered) {
    if r.network == "" then r.table == pristine
    else
      && ChainID(r.network).Some?
      && r.network in r.table
      && r.table == pristine[r.network := r.table[r.network]]
  }

  lemma RestoreUndoes(pristine: Table, r: Registered)
    requires RegistryInv(pristine, r) && r.network != ""
    ensures Restore(pristine, r.table, r.network) == pristine
  {
  }

  lemma RestoreElsewhere(pristine: Table, network: string)
    ensures Restore(pristine, pristine, network) == pristine
  {
  }

  lemma RegisterOverlays(pristine: Table, r: Registered, c: Data)
    requires RegistryInv(pristine, r)
    ensures RegistryInv(pristine, Register(pristine, r, c))
    ensures Register(pristine, r, c).table == Overlay(pristine, c)
  {
    var undone := Undo(pristine, r, c.network);
    if r.network != "" {
      RestoreUndoes(pristine, r);
    }
    RestoreElsewhere(pristine, c.network);
    assert undone.network == "" || undone.network == c.network;
    var after := Register(pristine, r, c);
    if c.tokenAddress != "" && ChainID(c.network).Some? {
      assert after.table == pristine[c.network := after.table[c.network]];
    }
  }

  /** The registry after a history of calls with arbitrary configurations. */
  function After(pristine: Table, history: seq<Data>): Registered {
    if history == [] then Registered(pristine, "")
    else Register(pristine, After(pristine, history[..|history| - 1]), history[|history| - 1])
  }

  lemma {:induction false} AfterInv(pristine: Table, history: seq<Data>)
    ensures RegistryInv(pristine, After(pristine, history))
    decreases |history|
  {
    if history != [] {
      AfterInv(pristine, history[..|history| - 1]);
      RegisterOverlays(pristine, After(pristine, history[..|history| - 1]), history[|history| - 1]);
    }
  }

  /** Whatever was registered before, the table is the shipped one overlaid by the last configuration alone. */
  lemma HistoryIndependent(pristine: Table, history: seq<Data>)
    requires history != []
    ensures After(pristine, history).table == Overlay(pristine, history[|history| - 1])
  {
    AfterInv(pristine, history[..|history| - 1]);
    RegisterOverlays(pristine, After(pristine, history[..|history| - 1]), history[|history| - 1]);
  }

  lemma LastRegistered(pristine: Table, history: seq<Data>, c: Data)
    requires c.tokenAddress != "" && ChainID(c.network).Some?
    ensures var r := After(pristine, history + [c]);
      && r.network == c.network && r.table == Overlay(pristine, c) && c.network in r.table
      && r.table[c.network].chainID == ChainID(c.network).value
      && r.table[c.network].defaultAsset.address == c.tokenAddress
  {
    assert (history + [c])[..|history|] == history;
    HistoryIndependent(pristine, history + [c]);
  }

  /** A validated token is always registered: the branch that skips it is never taken. */
  lemma ValidatedTokenRegistered(pristine: Table, history: seq<Data>, keys: KeyParser, input: Data, generated: string)
    requires CheckAll(keys, input, generated).error.None? && input.tokenAddress != ""
    ensures var c := CheckAll(keys, input, generated).data;
      var r := After(pristine, history + [c]);
      && ChainID(c.network).Some?
      && r.network == c.network && r.table == Overlay(pristine, c) && c.network in r.table
      && r.table[c.network].chainID == ChainID(c.network).value
      && r.table[c.network].defaultAsset.address == input.tokenAddress
  {
    var c := CheckAll(keys, input, generated).data;
    AcceptsExactlySound(keys, input, generated);
    AcceptedIsUsable(keys, input, generated);
    assert c.tokenAddress == input.tokenAddress;
    LastRegistered(pristine, history, c);
  }
}
