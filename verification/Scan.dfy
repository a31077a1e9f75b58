/** struct scan (wsupp.h:39-63): one slot of the scan table. */
module Scan {
  import opened Octets

  type Mac = m: seq<Octet> | |m| == 6 witness seq(6, _ => 0)
  const SSIDLEN := 32
  type SsidLen = n: nat | n <= SSIDLEN
  type SsidBuffer = s: seq<Octet> | |s| == SSIDLEN witness seq(SSIDLEN, _ => 0)

  // The ST_ bits.
  datatype Types = Types(wps: bool, wpa: bool, psk: bool, pairTkip: bool, pairCcmp: bool, groupTkip: bool, groupCcmp: bool)

  // The SF_ bits.
  datatype Flags = Flags(seen: bool, good: bool, pass: bool, stale: bool, tried: bool)

  datatype Scan = Scan(freq: int, signal: int, flags: Flags, types: Types, bssid: Mac, slen: SsidLen, ssid: SsidBuffer)

  const NO_TYPES := Types(false, false, false, false, false, false, false)
  const NO_FLAGS := Flags(false, false, false, false, false)
  const ZERO_MAC: Mac := [0, 0, 0, 0, 0, 0]
  const ZERO_SSID: SsidBuffer := [
    0, 0, 0, 0, 0, 0, 0, 0, 0, 0, 0, 0, 0, 0, 0, 0, 0, 0, 0, 0, 0, 0, 0, 0, 0, 0, 0, 0, 0, 0, 0, 0]

  // All bytes zero.
  const EMPTY := Scan(0, 0, NO_FLAGS, NO_TYPES, ZERO_MAC, 0, ZERO_SSID)

  // The conversion to short of the values the kernel reports.
  function Short(n: int): int { (n + 0x8000) % 0x10000 - 0x8000 }
}
