/** The default configuration of the relay service (`impl Default for Config`):
    the address and port the builder API is served on, the beacon node to talk
    to, and the signing key. */
module ServiceConfig {

  newtype Octet = x: int | 0 <= x < 0x100

  /** `u16` */
  newtype Port = x: int | 0 <= x < 0x1_0000

  datatype Ipv4Addr = Ipv4Addr(a: Octet, b: Octet, c: Octet, d: Octet)

  /** `Ipv4Addr::LOCALHOST` */
  const LOCALHOST: Ipv4Addr := Ipv4Addr(127, 0, 0, 1)

  /** Signing-key material; its contents are never inspected here. */
  datatype SecretKey = SecretKey(material: seq<bv8>)

  datatype Config = Config(host: Ipv4Addr, port: Port, beaconNodeUrl: string, secretKey: SecretKey)

  /** An address in 127.0.0.0/8. */
  predicate IsLoopback(addr: Ipv4Addr) {
    addr.a == 127
  }

  /** The configuration used when none is given. The signing key is the key
      type's own default, which lies outside this model and is passed in. */
  function Default(defaultKey: SecretKey): (c: Config)
    ensures c.host == LOCALHOST && IsLoopback(c.host)
    ensures c.port == 28545
    ensures c.beaconNodeUrl == "http://127.0.0.1:5052"
    ensures c.secretKey == defaultKey
  {
    Config(LOCALHOST, 28545, "http://127.0.0.1:5052", defaultKey)
  }
}
