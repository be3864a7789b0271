/** Choice of ledger endpoint and program id (lib/solana/connection.ts): a
    per-network list of endpoints, one shared rotation index, and the checks
    on the configured program id. */
module Rpc {
  import opened Wrappers
  import opened Bytes

  datatype Network = Testnet | Devnet | Mainnet

  /** The network used when the caller names none. */
  const DEFAULT_NETWORK := Testnet

  function NetworkOrDefault(n: Option<Network>): Network {
    n.GetOr(DEFAULT_NETWORK)
  }

  /** The primary endpoint of each network. */
  function PrimaryEndpoint(n: Network): string {
    match n
    case Testnet => "https://api.testnet.solana.com"
    case Devnet => "https://api.devnet.solana.com"
    case Mainnet => "https://api.mainnet-beta.solana.com"
  }

  /** The endpoints of each network, primary first, then the backups. */
  function Endpoints(n: Network): (es: seq<string>)
    ensures 2 <= |es| <= 3 && es[0] == PrimaryEndpoint(n)
  {
    match n
    case Testnet => ["https://api.testnet.solana.com", "https://rpc.ankr.com/solana_testnet",
                     "https://solana-testnet-rpc.allthatnode.com"]
    case Devnet => ["https://api.devnet.solana.com", "https://rpc.ankr.com/solana_devnet"]
    case Mainnet => ["https://api.mainnet-beta.solana.com", "https://rpc.ankr.com/solana",
                     "https://solana-api.projectserum.com"]
  }

  /** `currentRpcIndex`, shared by all networks. */
  datatype RpcState = RpcState(index: nat)

  const INITIAL := RpcState(0)

  /** `getConnection`: the endpoint at the index, taken modulo the length of
      the network's list, so always one of that list. */
  function GetConnection(st: RpcState, network: Option<Network>): (endpoint: string)
    ensures endpoint in Endpoints(NetworkOrDefault(network))
    ensures st.index < |Endpoints(NetworkOrDefault(network))| ==>
              endpoint == Endpoints(NetworkOrDefault(network))[st.index]
  {
    Rotate(Endpoints(NetworkOrDefault(network)), st.index)
  }

  /** The entry at `index` taken modulo the length of a non-empty list. */
  function Rotate(es: seq<string>, index: nat): (e: string)
    requires |es| > 0
    ensures e in es
    ensures index < |es| ==> e == es[index]
  {
    es[index % |es|]
  }

  /** `switchToBackupRPC`: the next endpoint of the network, wrapping around. */
  function SwitchToBackupRPC(st: RpcState, network: Option<Network>): (r: RpcState)
    ensures r.index < |Endpoints(NetworkOrDefault(network))|
    ensures st.index + 1 < |Endpoints(NetworkOrDefault(network))| ==> r.index == st.index + 1
    ensures st.index + 1 == |Endpoints(NetworkOrDefault(network))| ==> r.index == 0
  {
    RpcState(Advance(st.index, |Endpoints(NetworkOrDefault(network))|))
  }

  /** One step along a ring of `len` places. */
  function Advance(index: nat, len: nat): (r: nat)
    requires len > 0
    ensures r < len
    ensures index + 1 < len ==> r == index + 1
    ensures index + 1 == len ==> r == 0
  {
    (index + 1) % len
  }

  /** `k` switches in a row on one network. */
  function SwitchTimes(st: RpcState, network: Option<Network>, k: nat): RpcState
    decreases k
  {
    if k == 0 then st else SwitchTimes(SwitchToBackupRPC(st, network), network, k - 1)
  }

  /** From an index inside the list, `k` switches advance it by `k` modulo the length. */
  lemma {:induction false} SwitchTimesAdvances(st: RpcState, network: Option<Network>, k: nat)
    requires st.index < |Endpoints(NetworkOrDefault(network))|
    ensures SwitchTimes(st, network, k).index == (st.index + k) % |Endpoints(NetworkOrDefault(network))|
    decreases k
  {
    var len := |Endpoints(NetworkOrDefault(network))|;
    if k > 0 {
      var next := SwitchToBackupRPC(st, network);
      assert next.index == (st.index + 1) % len;
      assert SwitchTimes(st, network, k) == SwitchTimes(next, network, k - 1);
      SwitchTimesAdvances(next, network, k - 1);
      ModAddOne(st.index, k - 1, len);
    } else {
      ModSmall(st.index, len);
    }
  }

  lemma ModAddOne(i: nat, k: nat, len: nat)
    requires len == 2 || len == 3
    ensures ((i + 1) % len + k) % len == (i + k + 1) % len
  {
    if len == 2 {
      ModAddOneBy2(i, k);
    } else {
      ModAddOneBy3(i, k);
    }
  }

  lemma ModAddOneBy2(i: nat, k: nat)
    ensures ((i + 1) % 2 + k) % 2 == (i + k + 1) % 2
  {
  }

  lemma ModAddOneBy3(i: nat, k: nat)
    ensures ((i + 1) % 3 + k) % 3 == (i + k + 1) % 3
  {
  }

  /** As many switches as the network has endpoints bring the index back
      to where it started. */
  lemma FullRotation(st: RpcState, network: Option<Network>)
    requires st.index < |Endpoints(NetworkOrDefault(network))|
    ensures SwitchTimes(st, network, |Endpoints(NetworkOrDefault(network))|) == st
  {
    var len := |Endpoints(NetworkOrDefault(network))|;
    SwitchTimesAdvances(st, network, len);
    var r := SwitchTimes(st, network, len);
    ModSelf(st.index, len);
    assert r.index == st.index;
  }

  lemma ModSmall(i: nat, len: nat)
    requires i < len
    ensures i % len == i
  {
  }

  lemma ModSelf(i: nat, len: nat)
    requires (len == 2 || len == 3) && i < len
    ensures (i + len) % len == i
  {
  }

  // ---------------------------------------------------------------------------
  // getProgramId

  /** The id a fresh checkout ships with: thirty-two `1`s. */
  const PLACEHOLDER_PROGRAM_ID := "11111111111111111111111111111111"

  datatype ProgramIdError = ProgramIdUnset | ProgramIdPlaceholder | ProgramIdInvalid(programId: string)

  /** `getProgramId`: unset, the placeholder, and text that is not a public
      key are each refused; otherwise the decoded key. `decoded` is what
      `new PublicKey(programId)` produced, `None` where it threw. */
  function GetProgramId(programId: Option<string>, decoded: Option<Bytes32>): (r: Result<Bytes32, ProgramIdError>)
    ensures r.Ok? <==> programId.Some? && programId.value != "" && programId.value != PLACEHOLDER_PROGRAM_ID && decoded.Some?
    ensures r.Ok? ==> r.value == decoded.value
    ensures r.Err? && r.error.ProgramIdUnset? <==> programId.None? || programId.value == ""
    ensures r.Err? && r.error.ProgramIdPlaceholder? <==> programId.Some? && programId.value == PLACEHOLDER_PROGRAM_ID
  {
    if programId.None? || programId.value == "" then Err(ProgramIdUnset)
    else if programId.value == PLACEHOLDER_PROGRAM_ID then Err(ProgramIdPlaceholder)
    else if decoded.None? then Err(ProgramIdInvalid(programId.value))
    else Ok(decoded.value)
  }
}
