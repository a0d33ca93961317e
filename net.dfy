/** The host networking types the connection works with (Go's net.Interface and net.UDPAddr). */
module Net {
  type Byte = bv8

  /** Interface flag bits; Go's net.Flags is a machine-word unsigned integer. */
  type Flags = bv64
  const FlagUp: Flags := 1          // interface is administratively up
  const FlagBroadcast: Flags := 2
  const FlagLoopback: Flags := 4
  const FlagPointToPoint: Flags := 8
  const FlagMulticast: Flags := 16  // interface supports multicast
  const FlagRunning: Flags := 32

  /** A host network interface, as the operating system enumerates it. */
  datatype Interface = Interface(index: int, mtu: int, name: string, hardwareAddr: seq<Byte>, flags: Flags)

  /** A UDP endpoint address. */
  datatype UDPAddr = UDPAddr(ip: seq<Byte>, port: int, zone: string)

  /** Both the "up" bit and the "multicast" bit are set. */
  predicate MulticastCapable(ifi: Interface)
  {
    ifi.flags & FlagUp != 0 && ifi.flags & FlagMulticast != 0
  }
}
