/**
 Byte strings of the handshake as symbolic terms. Hashes, MACs and sealed boxes
 are free constructors (collision-free, opened only with the sealing key and
 associated data); the one equation is that Diffie-Hellman commutes.
 */
module SymbolicCrypto {
  import opened Options

  datatype Tai64N = Tai64N(secs: nat, nano: nat) {
    /** Strictly later than `other`. */
    predicate After(other: Tai64N) {
      secs > other.secs || (secs == other.secs && nano > other.nano)
    }
  }

  datatype Term =
    | Empty
    | Const(n: nat)                           // fixed byte strings and integers
    | Octets(bytes: seq<nat>)                 // addresses
    | Time(stamp: Tai64N)
    | Secret(id: nat)                         // preshared keys and random secrets
    | Public(scalar: nat)                     // public key of a private scalar
    | Shared(low: nat, high: nat)             // DH of two scalars, in order
    | Exp(scalar: nat, base: Term)            // DH of a scalar and a string that is nobody's public key
    | Pair(first: Term, second: Term)
    | Hash(left: Term, right: Term)
    | Hmac(key: Term, data: Term)
    | Mac(key: Term, data: Term)
    | Sealed(key: Term, plain: Term, aad: Term)

  function Dh(scalar: nat, point: Term): Term {
    match point
    case Public(other) => if scalar <= other then Shared(scalar, other) else Shared(other, scalar)
    case _ => Exp(scalar, point)
  }

  lemma DhCommutes(a: nat, b: nat)
    ensures Dh(a, Public(b)) == Dh(b, Public(a))
  {
  }

  function Hmac2(key: Term, data1: Term, data2: Term): Term {
    Hmac(key, Pair(data1, data2))
  }

  /** Opens a sealed box; fails on another key, another associated data, or a string that is no box. */
  function Open(key: Term, box: Term, aad: Term): Option<Term> {
    if box.Sealed? && box.key == key && box.aad == aad then Some(box.plain) else None
  }
}
