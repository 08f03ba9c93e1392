/** Public types of the rule engine: rules, classify tuples, snapshots, statuses. */
module RuleTypes {

  datatype Option<+T> = None | Some(value: T)

  type byte = x: nat | x < 256
  type u16 = x: nat | x < 0x1_0000
  type u32 = x: nat | x < 0x1_0000_0000
  type u64 = x: nat | x < 0x1_0000_0000_0000_0000
  const TWO_64: nat := 0x1_0000_0000_0000_0000

  type Address = s: seq<byte> | |s| == 16 witness seq(16, _ => 0)
  type SidBytes = s: seq<byte> | |s| == 32 witness seq(32, _ => 0)

  const AF_INET: u32 := 2
  const AF_INET6: u32 := 23

  // Rule actions; 0 and any other value behave as ALLOW in the verdict order.
  const ACTION_BLOCK: u32 := 1
  const ACTION_AUDIT: u32 := 2
  const ACTION_RATE_LIMIT: u32 := 3

  // Presence bits of Rule.mask
  const M_FAMILY: u32 := 0x0001
  const M_DIRECTION: u32 := 0x0002
  const M_PROTOCOL: u32 := 0x0004
  const M_LOCALADDR: u32 := 0x0008
  const M_REMOTEADDR: u32 := 0x0010
  const M_LOCALPORT: u32 := 0x0020
  const M_REMOTEPORT: u32 := 0x0040
  const M_PID: u32 := 0x0080
  const M_APPID: u32 := 0x0100
  const M_LAYER: u32 := 0x0200
  const M_IFINDEX: u32 := 0x0400
  const M_SID: u32 := 0x0800
  const M_TIME: u32 := 0x1000
  const M_LIMIT: u32 := 0x2000 // the known bits are exactly those below this one

  const DIR_ANY: u32 := 0
  const DIR_OUT: u32 := 1
  const DIR_IN: u32 := 2
  const PROTO_ANY: u32 := 0
  const LAYER_COUNT: u32 := 6

  const RULE_MAX: nat := 4096
  const RULE_BYTES: nat := 176   // size of the rule structure

  datatype Rule = Rule(
    ruleId: u64, priority: u32, mask: u32, action: u32, enabled: u32,
    family: u32, direction: u32, protocol: u32, layerId: u32, ifIndex: u32, processId: u32,
    appId: u64, notBefore: u64, notAfter: u64,
    localPortMin: u32, localPortMax: u32, remotePortMin: u32, remotePortMax: u32,
    localAddr: Address, remoteAddr: Address, localPrefix: byte, remotePrefix: byte,
    sid: SidBytes, sidLength: u32,
    rateTokens: u32, rateIntervalMs: u32, burst: u32)
  {
    /** The bit test `mask & bit`, for `bit` a power of two. */
    predicate Has(bit: u32)
      requires bit > 0
    {
      mask / bit % 2 == 1
    }
  }

  datatype Tuple = Tuple(
    family: u32, direction: u32, protocol: u32, layerId: u32, ifIndex: u32, processId: u32,
    appId: u64, localPort: u32, remotePort: u32, localAddr: Address, remoteAddr: Address,
    userId: Option<seq<byte>>, nowUtc: u64)

  const POLICY_PERMIT: u32 := 0
  const POLICY_BLOCK: u32 := 1

  /** Published rule set; immutable once it is current. */
  datatype Snapshot = Snapshot(rules: seq<Rule>, version: nat, policy: u32)

  datatype Status =
    | Success | InvalidParameter | InvalidDeviceState | InsufficientResources
    | ObjectIdExists | NotFound | Retry
}
