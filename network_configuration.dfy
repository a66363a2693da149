/** `NetworkConfiguration`: the addressing of a MONode link, a plain record
    whose every field has a default. */
module NetworkConfigurations {
  import opened Bytes

  datatype NetworkConfiguration = NetworkConfiguration(
    hubHost: string,          // IP address of the hub
    hubPort: UInt16,          // IP port of the hub
    broadcastHost: string,    // broadcast IP address, depends on router settings
    nodePort: UInt16,         // IP port of the nodes
    pingInterval: real,       // seconds; never read by the node
    pingTimeout: real,        // seconds; never read by the node
    enableIPv4: bool,
    enableIPv6: bool)

  /** `init()`: takes no arguments, so every field holds its default. */
  function DefaultConfiguration(): NetworkConfiguration {
    NetworkConfiguration(
      hubHost := "10.0.0.1",
      hubPort := 10101,
      broadcastHost := "10.0.0.255",
      nodePort := 11111,
      pingInterval := 0.5,
      pingTimeout := 5.0,
      enableIPv4 := true,
      enableIPv6 := false)
  }

  /** The default addresses; by default nodes listen on a port other than the
      hub's, broadcasts go to a host other than the hub, and only IPv4 is
      enabled. */
  lemma DefaultsSeparateHubAndNodes()
    ensures DefaultConfiguration().hubHost == "10.0.0.1" && DefaultConfiguration().hubPort == 10101
    ensures DefaultConfiguration().broadcastHost == "10.0.0.255" && DefaultConfiguration().nodePort == 11111
    ensures DefaultConfiguration().nodePort != DefaultConfiguration().hubPort
    ensures DefaultConfiguration().broadcastHost != DefaultConfiguration().hubHost
    ensures DefaultConfiguration().enableIPv4 && !DefaultConfiguration().enableIPv6
  {
  }
}
