/** Octets, 32-bit words and their network order, as the message code uses them. */
module Bytes {

  newtype byte = x: int | 0 <= x < 256
  newtype uint32 = x: int | 0 <= x < 0x1_0000_0000

  const WORD: int := 0x1_0000_0000

  /** The octets of a string literal of the program (a C++ `char` is one octet). */
  function Ascii(s: string): (b: seq<byte>)
    ensures |b| == |s|
    ensures forall i :: 0 <= i < |s| && s[i] < '\U{0100}' ==> b[i] as int == s[i] as int
  {
    seq(|s|, i requires 0 <= i < |s| => (s[i] as int % 256) as byte)
  }

  /** `host_to_network_string`: most significant octet first. */
  function HostToNetwork(v: uint32): (b: seq<byte>)
    ensures |b| == 4
  {
    [(v / 0x100_0000) as byte, (v / 0x1_0000 % 0x100) as byte, (v / 0x100 % 0x100) as byte, (v % 0x100) as byte]
  }

  /** `network_buffer_to_host`: reads the four octets at the front of the buffer and no others. */
  function NetworkToHost(b: seq<byte>): uint32
    requires |b| >= 4
  {
    (b[0] as int * 0x100_0000 + b[1] as int * 0x1_0000 + b[2] as int * 0x100 + b[3] as int) as uint32
  }

  /** The two conversions are mutually inverse, over every word and every four octets. */
  lemma WordRoundTrip(v: uint32)
    ensures NetworkToHost(HostToNetwork(v)) == v
  {
    var x := v as int;
    assert x / 0x1_0000 == x / 0x100 / 0x100;
    assert x / 0x100_0000 == x / 0x1_0000 / 0x100;
  }

  lemma Quotient(q: int, r: int, d: int)
    requires 0 <= r < d && (d == 0x100 || d == 0x1_0000 || d == 0x100_0000)
    ensures (q * d + r) / d == q && (q * d + r) % d == r
  {}

  lemma OctetsRoundTrip(b: seq<byte>)
    requires |b| >= 4
    ensures HostToNetwork(NetworkToHost(b)) == b[..4]
  {
    var b0, b1, b2, b3 := b[0] as int, b[1] as int, b[2] as int, b[3] as int;
    Quotient(b0 * 0x1_0000 + b1 * 0x100 + b2, b3, 0x100);
    Quotient(b0 * 0x100 + b1, b2 * 0x100 + b3, 0x1_0000);
    Quotient(b0, b1 * 0x1_0000 + b2 * 0x100 + b3, 0x100_0000);
    Quotient(b0 * 0x100 + b1, b2, 0x100);
    Quotient(b0, b1, 0x100);
  }

  lemma Associate<T>(a: seq<T>, b: seq<T>, c: seq<T>)
    ensures a + b + c == a + (b + c)
    ensures b == [] ==> b + c == c
  {}

  function Concat<T>(parts: seq<seq<T>>): seq<T> {
    if parts == [] then [] else parts[0] + Concat(parts[1..])
  }

  lemma {:induction false} ConcatAppend<T>(a: seq<seq<T>>, b: seq<seq<T>>)
    ensures Concat(a + b) == Concat(a) + Concat(b)
  {
    if a == [] {
      assert a + b == b;
    } else {
      calc {
        Concat(a + b);
        { assert (a + b)[1..] == a[1..] + b; }
        a[0] + Concat(a[1..] + b);
        { ConcatAppend(a[1..], b); }
        a[0] + (Concat(a[1..]) + Concat(b));
        a[0] + Concat(a[1..]) + Concat(b);
      }
    }
  }
}
