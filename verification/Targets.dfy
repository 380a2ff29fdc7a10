/** Destinations and routes. Host names are byte strings. */
module Targets {
  import opened Common

  type u16 = x: int | 0 <= x < 0x1_0000
  type u32 = x: int | 0 <= x < 0x1_0000_0000
  type Name = seq<byte>

  type Octets = s: seq<byte> | |s| == 16 witness seq(16, _ => 0)

  datatype IpAddr = V4(bits: u32) | V6(octets: Octets)

  datatype ProxyTarget = Domain(host: Name, port: u16) | Ip(addr: IpAddr, port: u16)

  type Credentials = (seq<byte>, seq<byte>)

  datatype ProxyConfig =
    | Direct
    | Socks5(addr: Name, auth: Option<Credentials>)
    | Http(addr: Name, auth: Option<Credentials>)

  /** What a connecting task was asked to reach, and through what. */
  datatype Route = Route(target: ProxyTarget, proxy: ProxyConfig)
}
