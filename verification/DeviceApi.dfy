/**
 The device's configuration operation: the lines of one request laid over the
 configuration in force, and the peers rebuilt under the result.
 */
module DeviceApi {
  import opened AmneziaConfig
  import ConfigFields
  import Lfsr
  import PeerIndex

  datatype Reply = Done | Einval | Panicked

  type Device = PeerIndex.Device<Config>

  /** The device is in order, and its configuration is one the parser can return. */
  ghost predicate Sound(d: Device)
    reads d, d.nextIndex, d.peers.Values
  {
    d.Valid() && Canonical(d.amnezia) && Checked(d.amnezia).Ok?
  }

  /** What the block comes to over a configuration. */
  function Overlaid(c: Config, block: string): Result
    requires |c| == ConfigFields.FIELDS
  {
    Finish(ReadBlock(c, block))
  }

  /** Every peer has to be rebuilt: the configuration changes and there is a key. */
  predicate Rebuilds(was: Config, overlay: Result, hasKey: bool) {
    overlay.Ok? && overlay.value != was && hasKey
  }

  method NewDevice(lfsr: Lfsr.IndexLfsr) returns (d: Device)
    requires lfsr.Valid()
    ensures fresh(d) && Sound(d) && d.amnezia == Defaults() && d.nextIndex == lfsr && d.peers == map[]
  {
    d := new PeerIndex.Device(lfsr, Defaults());
  }

  /** Prints the configuration, appends the block and reads the whole again. */
  method ReadMerged(c: Config, block: string) returns (r: Result)
    requires Canonical(c) && Checked(c).Ok?
    ensures r == Overlaid(c, block)
    ensures r.Ok? ==> Canonical(r.value) && Checked(r.value).Ok?
  {
    Overlay(c, block);
    var merged := PrintText(c);
    r := ParseText(merged + block);
    if r.Ok? {
      ParsedSurvives(merged + block);
    }
  }

  /**
   Applies the lines of one operation: the overlay if it is sound, nothing at
   all otherwise. It panics exactly when reading the block does, or when the
   peers have to be rebuilt and the indices run out; in that case the new
   configuration is already in force.
   */
  method ApplyBlock(d: Device, block: string, accepts: PeerIndex.Key -> bool) returns (reply: Reply)
    requires Sound(d)
    modifies d`amnezia, d`peersByIdx, d`indexOf, d.nextIndex, d.peers.Values
    ensures var overlay := Overlaid(old(d.amnezia), block);
      var rebuilds := Rebuilds(old(d.amnezia), overlay, d.keyPair.Some?);
      var room := Lfsr.Room(old(d.nextIndex.lfsr), d.nextIndex.initial, |d.peers|);
      && (reply == Einval <==> overlay.Err?)
      && (reply == Panicked <==> overlay.Panics? || (rebuilds && !room))
      && d.amnezia == (if overlay.Ok? then overlay.value else old(d.amnezia))
      && (!rebuilds ==> d.peersByIdx == old(d.peersByIdx))
      && (rebuilds && room ==> PeerIndex.Rebuilt(d.indexOf, [], accepts, old(d.nextIndex.Spent())))
      && (!rebuilds || room ==> Sound(d))
  {
    if block == [] {
      EmptyBlock(d.amnezia);
      return Done;
    }
    var r := ReadMerged(d.amnezia, block);
    match r {
      case Ok(config) =>
        var ok := d.SetAmneziaConfig(config, accepts);
        reply := if ok then Done else Panicked;
      case Err(_) => reply := Einval;
      case Panics => reply := Panicked;
    }
  }
}
