/** What NewStack makes of a configuration, stack.go 343-393 and connection.go 263-302: defaults, and what it refuses. */
module Configuration {
  import opened Basics
  import opened Fields
  import opened Address
  import opened Codec
  import opened Messages
  import Segmenting
  import Reassembly
  import Connections
  import ConnectionSending

  const DEFAULT_MAX_MESSAGE_SIZE: int := 268

  /** Durations are in seconds. */
  const DEFAULT_REASSEMBLY_TIMEOUT: nat := 15
  const DEFAULT_SEGMENTATION_REFERENCE_FREEZE: nat := 20
  const DEFAULT_MAX_REASSEMBLIES: nat := 1024
  const DEFAULT_MAX_REASSEMBLY_OCTETS: nat := 0x40_0000

  const DEFAULT_MAX_CONNECTIONS: nat := 65536
  const DEFAULT_MAX_DATA_LENGTH: nat := 65535

  datatype ConnectionConfig = ConnectionConfig(
    establishment: int, release: int, repeat: int, giveUp: int, ias: int, iar: int, freeze: int,
    maxConnections: int, maxDataLength: int, maxOctets: int)

  datatype StackConfig = StackConfig(
    pointCode: u32, ni: byte, maxMessageSize: int, hop: byte, useXUDT: bool, threshold: int, segmentationFreeze: int,
    reassemblyTimeout: int, maxReassemblies: int, maxOctets: int, perPeer: int, connection: ConnectionConfig)

  /** What the procedures are run with. */
  datatype Settings = Settings(node: Segmenting.Node, reassembly: Reassembly.Config, connections: Connections.Config)

  /** Zero selects the default. */
  function Or(v: int, fallback: int): int { if v == 0 then fallback else v }

  /** Annex C.4 of ITU-T Q.714 (05/01), in the order of the fields of ConnectionConfig. */
  function Fallbacks(): seq<int> { [90, 15, 15, 60, 7 * 60, 16 * 60, 2 * 60] }

  function Durations(c: ConnectionConfig): seq<int> {
    [c.establishment, c.release, c.repeat, c.giveUp, c.ias, c.iar, c.freeze]
  }

  /** Nothing is negative, and T(iar), defaults included, exceeds T(ias). */
  predicate Sensible(c: ConnectionConfig) {
    && (forall i :: 0 <= i < 7 ==> Durations(c)[i] >= 0)
    && c.maxConnections >= 0 && c.maxDataLength >= 0 && c.maxOctets >= 0
    && Or(c.ias, Fallbacks()[4]) < Or(c.iar, Fallbacks()[5])
  }

  /** The configuration is accepted exactly when it is sensible; what was left at zero then has its default. */
  method InitConnections(c: ConnectionConfig) returns (r: Option<ConnectionConfig>)
    ensures r.Some? <==> Sensible(c)
    ensures r.Some? ==>
              && (forall i :: 0 <= i < 7 ==> Durations(r.value)[i] == Or(Durations(c)[i], Fallbacks()[i]))
              && r.value.maxConnections == Or(c.maxConnections, DEFAULT_MAX_CONNECTIONS)
              && r.value.maxDataLength == Or(c.maxDataLength, DEFAULT_MAX_DATA_LENGTH)
              && r.value.maxOctets == Or(c.maxOctets, DEFAULT_MAX_REASSEMBLY_OCTETS)
  {
    var durations := Durations(c);
    var i := 0;
    while i < 7
      invariant i <= 7 && |durations| == 7
      invariant forall k :: 0 <= k < i ==> Durations(c)[k] >= 0 && durations[k] == Or(Durations(c)[k], Fallbacks()[k])
      invariant forall k :: i <= k < 7 ==> durations[k] == Durations(c)[k]
    {
      if durations[i] < 0 {
        return None;
      }
      if durations[i] == 0 {
        durations := durations[i := Fallbacks()[i]];
      }
      i := i + 1;
    }
    if c.maxConnections < 0 || c.maxDataLength < 0 || c.maxOctets < 0 {
      return None;
    }
    assert durations[4] == Or(Durations(c)[4], Fallbacks()[4]) && durations[5] == Or(Durations(c)[5], Fallbacks()[5]);
    if durations[5] <= durations[4] {
      return None;
    }
    r := Some(ConnectionConfig(
      durations[0], durations[1], durations[2], durations[3], durations[4], durations[5], durations[6],
      Or(c.maxConnections, DEFAULT_MAX_CONNECTIONS), Or(c.maxDataLength, DEFAULT_MAX_DATA_LENGTH),
      Or(c.maxOctets, DEFAULT_MAX_REASSEMBLY_OCTETS)));
    assert Durations(r.value) == durations;
  }

  /** What NewStack demands. */
  predicate Acceptable(sc: StackConfig) {
    && sc.pointCode <= MAX_POINT_CODE && sc.ni <= 3
    && (sc.maxMessageSize == 0 || Segmenting.MIN_MESSAGE_SIZE <= sc.maxMessageSize <= MAX_BROADBAND_MESSAGE_SIZE)
    && sc.hop <= MAX_HOP_COUNTER
    && (sc.threshold == 0 || sc.threshold >= Segmenting.MIN_SEGMENTATION_THRESHOLD)
    && sc.segmentationFreeze >= 0 && sc.reassemblyTimeout >= 0 && sc.maxReassemblies >= 0 && sc.maxOctets >= 0 && sc.perPeer >= 0
    && Sensible(sc.connection)
  }

  /**
   * A configuration is accepted exactly when it is acceptable, and then everything that the procedures rely on holds:
   * message sizes from 11 octets, hop counters from 1, every timer positive, T(iar) longer than T(ias).
   */
  method NewStack(sc: StackConfig, hash: (bytes, byte) -> nat) returns (r: Option<Settings>)
    ensures r.Some? <==> Acceptable(sc)
    ensures r.Some? ==>
              && Segmenting.ValidNode(r.value.node) && r.value.reassembly.timeout > 0
              && Connections.ValidConfig(r.value.connections) && ConnectionSending.Real(r.value.connections)
    ensures r.Some? ==>
              && r.value.node.pointCode == r.value.connections.pointCode == sc.pointCode
              && r.value.node.ni == r.value.connections.ni == sc.ni
              && r.value.node.maxMessageSize == r.value.connections.maxMessageSize == Or(sc.maxMessageSize, DEFAULT_MAX_MESSAGE_SIZE)
              && r.value.node.hop as int == r.value.connections.hop as int == Or(sc.hop, MAX_HOP_COUNTER)
              && r.value.node.threshold == sc.threshold && r.value.node.useXUDT == sc.useXUDT
              && r.value.node.freeze == Or(sc.segmentationFreeze, DEFAULT_SEGMENTATION_REFERENCE_FREEZE)
              && r.value.reassembly == Reassembly.Config(
                                         Or(sc.maxReassemblies, DEFAULT_MAX_REASSEMBLIES), Or(sc.maxOctets, DEFAULT_MAX_REASSEMBLY_OCTETS),
                                         sc.perPeer, Or(sc.reassemblyTimeout, DEFAULT_REASSEMBLY_TIMEOUT), hash)
    ensures r.Some? ==>
              var c := r.value.connections;
              && (forall i :: 0 <= i < 7 ==>
                    [c.establishment, c.release, c.repeat, c.giveUp, c.ias, c.iar, c.freeze][i]
                    == Or(Durations(sc.connection)[i], Fallbacks()[i]))
              && c.maxConnections == Or(sc.connection.maxConnections, DEFAULT_MAX_CONNECTIONS)
              && c.maxDataLength == Or(sc.connection.maxDataLength, DEFAULT_MAX_DATA_LENGTH)
              && c.maxOctets == Or(sc.connection.maxOctets, DEFAULT_MAX_REASSEMBLY_OCTETS)
  {
    hide Marshal;
    var size, hop := Or(sc.maxMessageSize, DEFAULT_MAX_MESSAGE_SIZE), Or(sc.hop, MAX_HOP_COUNTER);
    var freeze, timeout := Or(sc.segmentationFreeze, DEFAULT_SEGMENTATION_REFERENCE_FREEZE), Or(sc.reassemblyTimeout, DEFAULT_REASSEMBLY_TIMEOUT);
    var count, octets := Or(sc.maxReassemblies, DEFAULT_MAX_REASSEMBLIES), Or(sc.maxOctets, DEFAULT_MAX_REASSEMBLY_OCTETS);
    if sc.pointCode > MAX_POINT_CODE || sc.ni > 3 || size < Segmenting.MIN_MESSAGE_SIZE || size > MAX_BROADBAND_MESSAGE_SIZE
       || hop > MAX_HOP_COUNTER as int || (sc.threshold != 0 && sc.threshold < Segmenting.MIN_SEGMENTATION_THRESHOLD)
       || freeze < 0 || timeout < 0 || count < 0 || octets < 0 || sc.perPeer < 0 {
      return None;
    }
    var initialised := InitConnections(sc.connection);
    if initialised == None {
      return None;
    }
    var c := initialised.value;
    Positive(sc.connection, c);
    r := Some(Settings(
      Segmenting.Node(sc.pointCode, sc.ni, size, hop, sc.useXUDT, sc.threshold, freeze),
      Reassembly.Config(count, octets, sc.perPeer, timeout, hash),
      Connections.Config(
        sc.pointCode, sc.ni, hop, size, m => Marshal(size, m).Octets?,
        c.establishment, c.release, c.repeat, c.giveUp, c.ias, c.iar, c.freeze, c.maxConnections, c.maxDataLength, c.maxOctets)));
  }

  /** No duration is zero once the defaults are in. */
  lemma Positive(c: ConnectionConfig, d: ConnectionConfig)
    requires Sensible(c) && forall i :: 0 <= i < 7 ==> Durations(d)[i] == Or(Durations(c)[i], Fallbacks()[i])
    ensures d.establishment > 0 && d.release > 0 && d.repeat > 0 && d.giveUp > 0 && d.freeze > 0 && 0 < d.ias < d.iar
  {
    assert forall i :: 0 <= i < 7 ==> Fallbacks()[i] > 0 && Durations(d)[i] > 0;
    var ds := Durations(d);
    assert ds[0] > 0 && ds[1] > 0 && ds[2] > 0 && ds[3] > 0 && ds[4] > 0 && ds[5] > 0 && ds[6] > 0;
  }
}
