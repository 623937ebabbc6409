/** Account addresses and the default placement of an address in a shard (utils/utils_partition.go). */
module Shards {

  datatype Option<+T> = None | Some(value: T)

  function HexDigit(c: char): Option<nat> {
    if '0' <= c <= '9' then Some(c as int - '0' as int)
    else if 'a' <= c <= 'f' then Some(c as int - 'a' as int + 10)
    else if 'A' <= c <= 'F' then Some(c as int - 'A' as int + 10)
    else None
  }

  /** Base-16 parsing; None where the parser reports an error. */
  function ParseHex(s: string): Option<nat> {
    if s == "" then None
    else
      match HexDigit(s[|s|-1])
      case None => None
      case Some(d) =>
        if |s| == 1 then Some(d)
        else
          match ParseHex(s[..|s|-1])
          case None => None
          case Some(n) => Some(16 * n + d)
  }

  /** The part of an address that decides its shard: its last eight characters. */
  function Suffix(addr: string): string {
    if |addr| > 8 then addr[|addr|-8..] else addr
  }

  type Address = string

  /**
   * The default shard of an address. The program stops on an address whose suffix is not hexadecimal; here
   * such an address is placed in shard 0, so nothing proved below depends on addresses being well formed.
   */
  function Addr2Shard(addr: Address, shardNum: nat): (s: nat)
    requires shardNum > 0
    ensures s < shardNum
  {
    match ParseHex(Suffix(addr))
    case Some(n) => n % shardNum
    case None => 0
  }

  // ---------- what the last eight characters say ----------

  function HexChar(d: nat): char
    requires d < 16
  {
    if d < 10 then '0' + d as char else 'a' + (d - 10) as char
  }

  /** A number written with n hexadecimal digits. */
  function ToHex(x: nat, n: nat): (s: string)
    ensures |s| == n
  {
    if n == 0 then "" else ToHex(x / 16, n - 1) + [HexChar(x % 16)]
  }

  function Power16(n: nat): nat {
    if n == 0 then 1 else 16 * Power16(n - 1)
  }

  /** Reading what was written gives the number back. */
  lemma {:induction false} HexRoundTrip(x: nat, n: nat)
    requires n > 0 && x < Power16(n)
    ensures ParseHex(ToHex(x, n)) == Some(x)
  {
    var s := ToHex(x, n);
    assert s[..n-1] == ToHex(x / 16, n - 1) && s[n-1] == HexChar(x % 16);
    assert HexDigit(HexChar(x % 16)) == Some(x % 16);
    if n > 1 { HexRoundTrip(x / 16, n - 1); }
  }

  /** An address ending in eight hexadecimal digits lives in the shard they number, modulo the number of shards. */
  lemma ShardOfSuffix(prefix: string, x: nat, shardNum: nat)
    requires shardNum > 0 && x < 0x1_0000_0000
    ensures Addr2Shard(prefix + ToHex(x, 8), shardNum) == x % shardNum
  {
    assert Power16(1) == 16 && Power16(2) == 256 && Power16(4) == 0x1_0000 && Power16(8) == 0x1_0000_0000;
    HexRoundTrip(x, 8);
    var addr := prefix + ToHex(x, 8);
    assert addr[|addr|-8..] == ToHex(x, 8) && (|addr| == 8 ==> addr == ToHex(x, 8));
  }

  /** Capital digits read like small ones. */
  lemma CapitalsRead(d: nat)
    requires 10 <= d < 16
    ensures HexDigit('A' + (d - 10) as char) == Some(d) == HexDigit(HexChar(d))
  {
  }

  type AccountMap = map<Address, nat>

  /** Where an account lives under a modified map: accounts never moved stay at their default shard. */
  function Fetch(m: AccountMap, key: Address, shardNum: nat): nat
    requires shardNum > 0
  {
    if key in m then m[key] else Addr2Shard(key, shardNum)
  }
}
