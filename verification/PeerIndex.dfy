/**
 The device's peer tables: peers by key, peers by 24-bit index, and the
 lookup of a received index. Whatever is added, removed, cleared or rebuilt,
 an index on the wire routes to the peer that put it there or to nobody.
 */
module PeerIndex {
  import opened Options
  import opened Lfsr

  type Key = nat

  // ---- Wire indices: 24 bits of peer, 8 bits cycling per handshake ----

  function First(index: Index): bv32 { index.bits << 8 }

  /** The next wire index: the low byte wraps, the rest stays. */
  function Cycled(wire: bv32): bv32 {
    (wire & 0xFFFF_FF00) | (((wire & 0xFF) + 1) & 0xFF)
  }

  function PeerOf(wire: bv32): Index { Index(wire >> 8) }

  lemma FirstIsOwn(index: Index)
    requires In24(index.bits)
    ensures PeerOf(First(index)) == index
  {
  }

  lemma CycledIsOwn(wire: bv32)
    ensures PeerOf(Cycled(wire)) == PeerOf(wire)
  {
  }

  /** No two wire indices are followed by the same one, and one is not back within two handshakes. */
  lemma CycledIsNew(wire: bv32, other: bv32)
    ensures Cycled(wire) == Cycled(other) <==> wire == other
    ensures Cycled(wire) != wire && Cycled(Cycled(wire)) != wire
  {
  }

  class Peer {
    const key: Key
    var index: Index
    var wire: bv32 // the last index the tunnel's handshake used
    var own: Key   // the public key the tunnel speaks for

    ghost predicate Valid()
      reads this
    {
      PeerOf(wire) == index
    }

    /** The peer's place in the tables: its index, and the device key it speaks for. */
    ghost predicate Stands(index: Index, keyPair: Option<Key>)
      reads this
    {
      Valid() && this.index == index && keyPair == Some(own)
    }

    constructor (key: Key, own: Key, index: Index)
      requires In24(index.bits)
      ensures Valid() && this.key == key && this.own == own && this.index == index
    {
      this.key, this.own := key, own;
      this.index := index;
      wire := First(index);
      new;
      FirstIsOwn(index);
    }

    /** Replaces the tunnel: the old one's indices are gone. */
    method SetTunnel(own: Key, index: Index)
      requires In24(index.bits)
      modifies this
      ensures Valid() && this.index == index && this.own == own
    {
      this.index, this.own := index, own;
      wire := First(index);
      FirstIsOwn(index);
    }

    /** Speaks for another key from now on, under the same index. */
    method SetStaticPrivate(own: Key)
      modifies this`own
      ensures this.own == own
    {
      this.own := own;
    }

    /** Takes the wire index of a new handshake. */
    method IncIndex() returns (r: bv32)
      requires Valid()
      modifies this`wire
      ensures Valid() && r == wire && PeerOf(r) == index
    {
      CycledIsOwn(wire);
      wire := Cycled(wire);
      r := wire;
    }
  }

  /** The table is exactly `{index[k] -> peers[k]}`. */
  ghost predicate Exact(peers: map<Key, Peer>, index: map<Key, Index>, table: map<Index, Peer>) {
    && peers.Keys == index.Keys
    && (forall k :: k in peers ==> peers[k].key == k)
    && (forall k :: k in index ==> index[k] in table && table[index[k]] == peers[k])
    && (forall i :: i in table ==> table[i].key in peers && peers[table[i].key] == table[i] && index[table[i].key] == i)
  }

  lemma ExactRemove(peers: map<Key, Peer>, index: map<Key, Index>, table: map<Index, Peer>, key: Key)
    requires Exact(peers, index, table) && key in peers
    ensures Exact(peers - {key}, index - {key}, table - {index[key]})
  {
  }

  lemma ExactAdd(peers: map<Key, Peer>, index: map<Key, Index>, table: map<Index, Peer>, peer: Peer, i: Index)
    requires Exact(peers, index, table) && peer.key !in peers && i !in table
    ensures Exact(peers[peer.key := peer], index[peer.key := i], table[i := peer])
  {
  }

  /** Moving a peer to a new index is removing it and adding it back. */
  lemma ExactMove(peers: map<Key, Peer>, index: map<Key, Index>, table: map<Index, Peer>, peer: Peer, i: Index)
    requires Exact(peers, index, table) && peer.key in peers && peers[peer.key] == peer && i !in table
    ensures Exact(peers, index[peer.key := i], (table - {index[peer.key]})[i := peer])
  {
  }

  /** The peers no longer to be rebuilt hold none of the indices spent before. */
  ghost predicate Rebuilt(index: map<Key, Index>, left: seq<Key>, accepts: Key -> bool, spent: set<Index>) {
    forall k :: k in index && k !in left && accepts(k) ==> index[k] !in spent
  }

  lemma RebuiltOneMore(
      index: map<Key, Index>, left: seq<Key>, accepts: Key -> bool, spent: set<Index>, i: Index)
    requires left != [] && Rebuilt(index, left, accepts, spent) && (accepts(left[0]) ==> i !in spent)
    ensures Rebuilt(index[left[0] := i], left[1..], accepts, spent)
  {
  }

  /** Every key once, in any order. */
  ghost predicate Lists(order: seq<Key>, keys: set<Key>) {
    |order| == |keys| && forall k :: k in keys <==> k in order
  }

  method Collect(keys: set<Key>) returns (order: seq<Key>)
    ensures Lists(order, keys)
  {
    var left := keys;
    order := [];
    while left != {}
      invariant left <= keys && |order| + |left| == |keys|
      invariant forall k :: k in keys <==> k in order || k in left
      decreases left
    {
      var k :| k in left;
      left := left - {k};
      order := order + [k];
    }
  }

  /** `n` steps are taken without coming to the seed, and the register stands after them. */
  ghost predicate Stepped(start: bv32, now: bv32, seed: bv32, n: nat) {
    now == After(start, n) && Room(start, seed, n)
  }

  lemma OneStepMore(start: bv32, now: bv32, seed: bv32, n: nat)
    requires Stepped(start, now, seed, n)
    ensures Step(now) != seed ==> Stepped(start, Step(now), seed, n + 1)
    ensures Step(now) == seed ==> forall m :: m > n ==> !Room(start, seed, m)
  {
    assert After(start, n + 1) == Step(now);
  }

  /** The device, over whatever its configuration is. */
  class Device<Config(==)> {
    var peers: map<Key, Peer>
    var peersByIdx: map<Index, Peer>
    const nextIndex: IndexLfsr
    var keyPair: Option<Key> // by its public key
    var amnezia: Config
    ghost var indexOf: map<Key, Index>

    /** The index table is exactly `{p.index -> p}` over the live peers, and every index in it was handed out. */
    ghost predicate Valid()
      reads this, nextIndex, peers.Values
    {
      && nextIndex.Valid()
      && peersByIdx.Keys <= nextIndex.Spent()
      && TablesAgree()
    }

    /** Every live tunnel speaks for the device's key, so without one there are no peers. */
    ghost predicate TablesAgree()
      reads this, peers.Values
    {
      && Exact(peers, indexOf, peersByIdx)
      && forall k :: k in peers ==> peers[k] in peers.Values && peers[k].Stands(indexOf[k], keyPair)
    }

    /** Indices handed out that no live peer holds. */
    ghost function Stale(): set<Index>
      reads this, nextIndex
    {
      nextIndex.Spent() - peersByIdx.Keys
    }

    constructor (lfsr: IndexLfsr, amnezia: Config)
      requires lfsr.Valid()
      ensures Valid() && peers == map[] && nextIndex == lfsr && keyPair == None && this.amnezia == amnezia
    {
      peers, peersByIdx, indexOf := map[], map[], map[];
      nextIndex := lfsr;
      keyPair := None;
      this.amnezia := amnezia;
    }

    /** Routes a received index. A live peer's indices reach that peer; anything else reaches nobody. */
    method Route(wire: bv32) returns (r: Option<Peer>)
      requires Valid()
      ensures r.Some? ==> r.value.key in peers && peers[r.value.key] == r.value && r.value.index == PeerOf(wire)
      ensures forall k :: k in peers && peers[k].index == PeerOf(wire) ==> r == Some(peers[k])
      ensures PeerOf(wire) in Stale() ==> r.None?
    {
      var i := PeerOf(wire);
      r := if i in peersByIdx then Some(peersByIdx[i]) else None;
    }

    /** A live tunnel starts a handshake: the index it puts on the wire routes back to it. */
    method UseIndex(key: Key) returns (wire: bv32)
      requires Valid() && key in peers
      modifies peers[key]
      ensures Valid() && PeerOf(wire) in peersByIdx && peersByIdx[PeerOf(wire)] == peers[key]
    {
      wire := peers[key].IncIndex();
    }

    /** Takes a private key, and hands a new one to every tunnel; the indices stay. */
    method SetKey(public: Key)
      requires Valid()
      modifies this`keyPair, peers.Values`own
      ensures Valid() && keyPair == Some(public)
    {
      if keyPair == Some(public) {
        return;
      }
      var left := peers.Keys;
      while left != {}
        invariant left <= peers.Keys && keyPair == old(keyPair)
        invariant Exact(peers, indexOf, peersByIdx)
        invariant forall k :: k in peers ==> peers[k].Stands(indexOf[k], if k in left then keyPair else Some(public))
        decreases left
      {
        var k :| k in left;
        peers[k].SetStaticPrivate(public);
        left := left - {k};
      }
      keyPair := Some(public);
    }

    /** Enters a peer under an index that is not in the table. */
    method Enter(peer: Peer)
      requires TablesAgree() && peer.key !in peers && peer.Stands(peer.index, keyPair) && peer.index !in peersByIdx
      modifies this`peers, this`peersByIdx, this`indexOf
      ensures TablesAgree() && peers == old(peers)[peer.key := peer]
      ensures peersByIdx == old(peersByIdx)[peer.index := peer]
    {
      ExactAdd(peers, indexOf, peersByIdx, peer, peer.index);
      peers := peers[peer.key := peer];
      peersByIdx := peersByIdx[peer.index := peer];
      indexOf := indexOf[peer.key := peer.index];
    }

    /** Moves a peer to an index that is not in the table. */
    method Move(peer: Peer, own: Key, index: Index)
      requires TablesAgree() && peer.key in peers && peers[peer.key] == peer
      requires index !in peersByIdx && In24(index.bits) && keyPair == Some(own)
      modifies this`peersByIdx, this`indexOf, peer
      ensures TablesAgree() && peer.index == index && indexOf == old(indexOf)[peer.key := index]
      ensures peersByIdx == (old(peersByIdx) - {old(peer.index)})[index := peer]
    {
      ExactMove(peers, indexOf, peersByIdx, peer, index);
      ghost var moved, others := indexOf[peer.key := index], peers.Keys - {peer.key};
      assert forall k :: k in others ==> peers[k] != peer && peers[k].Stands(moved[k], keyPair);
      peersByIdx := peersByIdx - {peer.index};
      peer.SetTunnel(own, index);
      assert forall k :: k in others ==> peers[k].Stands(moved[k], keyPair);
      peersByIdx := peersByIdx[index := peer];
      indexOf := moved;
    }

    method RemovePeer(key: Key)
      requires Valid()
      modifies this`peers, this`peersByIdx, this`indexOf
      ensures Valid() && peers == old(peers) - {key}
      ensures old(Stale()) <= Stale()
      ensures key in old(peers) ==> old(peers[key].index) in Stale()
    {
      if key in peers {
        var peer := peers[key];
        ExactRemove(peers, indexOf, peersByIdx, key);
        ghost var others := peers.Keys - {key};
        assert forall k :: k in others ==> peers[k].Stands(indexOf[k], keyPair);
        assert forall k :: k in others ==> (peers - {key})[k] in (peers - {key}).Values;
        peers := peers - {key};
        peersByIdx := peersByIdx - {peer.index};
        indexOf := indexOf - {key};
      }
    }

    /**
     Adds a peer under a fresh index. Not `ok` is a panic, exactly when the
     key is already present, the indices have run out, or there is no key
     pair. A configuration the tunnel refuses (`accepted` is false) only
     spends the index.
     */
    method AddPeer(key: Key, accepted: bool) returns (ok: bool)
      requires Valid()
      modifies this`peers, this`peersByIdx, this`indexOf, nextIndex
      ensures ok <==> key !in old(peers) && Step(old(nextIndex.lfsr)) != nextIndex.initial && keyPair.Some?
      ensures ok ==> Valid() && old(Stale()) <= Stale()
      ensures !ok || !accepted ==> peers == old(peers) && peersByIdx == old(peersByIdx)
      ensures ok && accepted ==>
        && key in peers && peers == old(peers)[key := peers[key]] && fresh(peers[key])
        && peers[key].index !in old(nextIndex.Spent())
        && peersByIdx == old(peersByIdx)[peers[key].index := peers[key]]
    {
      if key in peers {
        return false;
      }
      var index := nextIndex.Next();
      if index.None? || keyPair.None? {
        return false;
      }
      if !accepted {
        return true;
      }
      var peer := new Peer(key, keyPair.value, index.value);
      Enter(peer);
      ok := true;
    }

    method ClearPeers()
      requires Valid()
      modifies this`peers, this`peersByIdx, this`indexOf
      ensures Valid() && peers == map[] && Stale() == nextIndex.Spent()
    {
      peers, peersByIdx, indexOf := map[], map[], map[];
    }

    /** Rebuilds one peer's tunnel under a fresh index, exactly if there is one; the others keep theirs. */
    method Rebuild(key: Key, accepted: bool) returns (ok: bool)
      requires Valid() && key in peers
      modifies this`peersByIdx, this`indexOf, nextIndex, peers[key]
      ensures ok <==> Step(old(nextIndex.lfsr)) != nextIndex.initial
      ensures nextIndex.lfsr == Step(old(nextIndex.lfsr))
      ensures ok ==> Valid() && old(Stale()) <= Stale() && old(nextIndex.Spent()) <= nextIndex.Spent()
      ensures ok ==> indexOf == old(indexOf)[key := peers[key].index]
      ensures ok && accepted ==> old(peers[key].index) in Stale() && indexOf[key] !in old(nextIndex.Spent())
      ensures ok && !accepted ==> peersByIdx == old(peersByIdx)
    {
      var index := nextIndex.Next();
      if index.None? {
        return false;
      }
      if accepted {
        Move(peers[key], keyPair.value, index.value);
      } else {
        assert indexOf == indexOf[key := peers[key].index];
      }
      ok := true;
    }

    /** How things stand after the first `i` peers of a walk, given what was spent and stale before it. */
    ghost predicate Walked(
        order: seq<Key>, i: nat, accepts: Key -> bool, spent: set<Index>, stale: set<Index>, start: bv32)
      reads this, nextIndex, peers.Values
    {
      && Valid() && i <= |order|
      && stale <= Stale() && spent <= nextIndex.Spent()
      && Rebuilt(indexOf, order[i..], accepts, spent)
      && Stepped(start, nextIndex.lfsr, nextIndex.initial, i)
    }

    method RebuildNext(order: seq<Key>, i: nat, accepts: Key -> bool,
                       ghost spent: set<Index>, ghost stale: set<Index>, ghost start: bv32)
      returns (ok: bool)
      requires i < |order| && order[i] in peers && Walked(order, i, accepts, spent, stale, start)
      modifies this`peersByIdx, this`indexOf, nextIndex, peers[order[i]]
      ensures ok ==> Walked(order, i + 1, accepts, spent, stale, start)
      ensures !ok ==> forall m :: m > i ==> !Room(start, nextIndex.initial, m)
    {
      OneStepMore(start, nextIndex.lfsr, nextIndex.initial, i);
      ghost var before := indexOf;
      ok := Rebuild(order[i], accepts(order[i]));
      if ok {
        RebuiltOneMore(before, order[i..], accepts, spent, indexOf[order[i]]);
        assert order[i..][1..] == order[i + 1..];
      }
    }

    method RebuildInOrder(order: seq<Key>, accepts: Key -> bool,
                          ghost spent: set<Index>, ghost stale: set<Index>, ghost start: bv32)
      returns (ok: bool)
      requires (forall k <- order :: k in peers) && Walked(order, 0, accepts, spent, stale, start)
      modifies this`peersByIdx, this`indexOf, nextIndex, peers.Values
      ensures ok <==> Room(start, nextIndex.initial, |order|)
      ensures ok ==> Walked(order, |order|, accepts, spent, stale, start)
    {
      for i := 0 to |order|
        invariant Walked(order, i, accepts, spent, stale, start)
      {
        ok := RebuildNext(order, i, accepts, spent, stale, start);
        if !ok {
          return;
        }
      }
      ok := true;
    }

    /** Rebuilds every peer, in whatever order the table is walked, exactly if the indices last. */
    method RebuildAll(accepts: Key -> bool) returns (ok: bool)
      requires Valid()
      modifies this`peersByIdx, this`indexOf, nextIndex, peers.Values
      ensures ok <==> Room(old(nextIndex.lfsr), nextIndex.initial, |peers|)
      ensures ok ==> Valid() && old(Stale()) <= Stale()
      ensures ok ==> Rebuilt(indexOf, [], accepts, old(nextIndex.Spent()))
    {
      var order := Collect(peers.Keys);
      assert order[0..] == order;
      ok := RebuildInOrder(order, accepts, nextIndex.Spent(), Stale(), nextIndex.lfsr);
    }

    /**
     Adopts a configuration: the same one changes nothing, and neither does a
     new one before there is a key, for then there are no peers; otherwise
     every peer is rebuilt, unless the indices run out.
     */
    method SetAmneziaConfig(config: Config, accepts: Key -> bool) returns (ok: bool)
      requires Valid()
      modifies this`amnezia, this`peersByIdx, this`indexOf, nextIndex, peers.Values
      ensures amnezia == config
      ensures ok <==> config == old(amnezia) || keyPair.None? || Room(old(nextIndex.lfsr), nextIndex.initial, |peers|)
      ensures ok ==> Valid() && old(Stale()) <= Stale()
      ensures ok && config != old(amnezia) ==> Rebuilt(indexOf, [], accepts, old(nextIndex.Spent()))
      ensures config == old(amnezia) || keyPair.None? ==> peersByIdx == old(peersByIdx)
    {
      if amnezia == config {
        return true;
      }
      amnezia := config;
      if keyPair.None? {
        return true;
      }
      ok := RebuildAll(accepts);
    }
  }
}
