/** Primitive types (`PTPv2/src/dep/datatypes_dep.h`) and octet strings: the `memcmp` order
    that every identity comparison rests on, and the conversion of a MAC address into a
    clock identity. */
module Octets {

  datatype Option<T> = None | Some(value: T)

  type UInt8 = x: int | 0 <= x < 0x100
  type UInt16 = x: int | 0 <= x < 0x1_0000
  type UInt32 = x: int | 0 <= x < 0x1_0000_0000
  type Int16 = x: int | -0x8000 <= x < 0x8000
  type Int32 = x: int | -0x8000_0000 <= x < 0x8000_0000
  type Int64 = x: int | -0x8000_0000_0000_0000 <= x < 0x8000_0000_0000_0000

  /** An EUI-48 address. */
  type MacAddress = s: seq<UInt8> | |s| == 6 witness [0, 0, 0, 0, 0, 0]

  /** An EUI-64 clock identity. */
  type ClockIdentity = s: seq<UInt8> | |s| == 8 witness [0, 0, 0, 0, 0, 0, 0, 0]

  /** Sign of the lexicographic comparison of two equally long strings. The elements are
      plain integers, so that sort keys can be compared by the same function. */
  function Memcmp(a: seq<int>, b: seq<int>): (r: int)
    requires |a| == |b|
    ensures -1 <= r <= 1
  {
    if a == [] then 0
    else if a[0] < b[0] then -1
    else if a[0] > b[0] then 1
    else Memcmp(a[1..], b[1..])
  }

  lemma {:induction false} MemcmpFlips(a: seq<int>, b: seq<int>)
    requires |a| == |b|
    ensures Memcmp(b, a) == -Memcmp(a, b)
  {
    if a != [] {
      MemcmpFlips(a[1..], b[1..]);
    }
  }

  lemma {:induction false} MemcmpZero(a: seq<int>, b: seq<int>)
    requires |a| == |b|
    ensures Memcmp(a, b) == 0 <==> a == b
  {
    if a != [] {
      MemcmpZero(a[1..], b[1..]);
      assert a == [a[0]] + a[1..] && b == [b[0]] + b[1..];
    }
  }

  /** The first difference decides, and the smaller octet makes the smaller string. */
  lemma {:induction false} MemcmpIsLexicographic(a: seq<int>, b: seq<int>)
    requires |a| == |b|
    ensures Memcmp(a, b) < 0 <==> exists k :: 0 <= k < |a| && a[..k] == b[..k] && a[k] < b[k]
    decreases |a|
  {
    if a != [] {
      if a[0] == b[0] {
        MemcmpIsLexicographic(a[1..], b[1..]);
        if k :| 0 <= k < |a| && a[..k] == b[..k] && a[k] < b[k] {
          assert k > 0;
          assert a[1..][..k - 1] == a[..k][1..] && b[1..][..k - 1] == b[..k][1..];
          assert a[1..][k - 1] < b[1..][k - 1];
        }
        if k :| 0 <= k < |a[1..]| && a[1..][..k] == b[1..][..k] && a[1..][k] < b[1..][k] {
          assert a[..k + 1] == [a[0]] + a[1..][..k] && b[..k + 1] == [b[0]] + b[1..][..k];
          assert a[k + 1] < b[k + 1];
        }
      } else {
        assert a[..0] == b[..0];
        if k :| 0 <= k < |a| && a[..k] == b[..k] && a[k] < b[k] {
          assert k > 0 ==> a[..k][0] == b[..k][0];
        }
      }
    }
  }

  lemma {:induction false} MemcmpTransitive(a: seq<int>, b: seq<int>, c: seq<int>)
    requires |a| == |b| == |c|
    requires Memcmp(a, b) <= 0 && Memcmp(b, c) <= 0
    ensures Memcmp(a, c) <= 0
    ensures Memcmp(a, c) == 0 ==> Memcmp(a, b) == 0 && Memcmp(b, c) == 0
  {
    if a != [] && a[0] == b[0] == c[0] {
      MemcmpTransitive(a[1..], b[1..], c[1..]);
    }
  }

  /** A longer key is compared field by field, from the front. */
  lemma {:induction false} MemcmpConcat(a: seq<int>, b: seq<int>, c: seq<int>, d: seq<int>)
    requires |a| == |b| && |c| == |d|
    ensures Memcmp(a + c, b + d) == if Memcmp(a, b) != 0 then Memcmp(a, b) else Memcmp(c, d)
  {
    if a == [] {
      assert a + c == c && b + d == d;
    } else {
      assert (a + c)[1..] == a[1..] + c && (b + d)[1..] == b[1..] + d;
      MemcmpConcat(a[1..], b[1..], c, d);
    }
  }

  /** The EUI-64 form of a MAC address: the two filler octets go in the middle. */
  function Eui64(mac: MacAddress): ClockIdentity {
    mac[..3] + [0xff, 0xfe] + mac[3..]
  }

  /** The two halves of the address around the octets FF and FE. */
  lemma Eui64Octets(mac: MacAddress, k: nat)
    requires k < 8
    ensures Eui64(mac)[k] == if k < 3 then mac[k] else if k == 3 then 0xff else if k == 4 then 0xfe else mac[k - 2]
  {
  }

  /** Clock identities made from MAC addresses compare exactly as the addresses do; in
      particular two different addresses never give the same identity. */
  lemma Eui64KeepsOrder(a: MacAddress, b: MacAddress)
    ensures Memcmp(Eui64(a), Eui64(b)) == Memcmp(a, b)
    ensures Eui64(a) == Eui64(b) ==> a == b
  {
    var filler: seq<int> := [0xff, 0xfe];
    MemcmpConcat(a[..3] + filler, b[..3] + filler, a[3..], b[3..]);
    MemcmpConcat(a[..3], b[..3], filler, filler);
    MemcmpConcat(a[..3], b[..3], a[3..], b[3..]);
    MemcmpZero(filler, filler);
    assert a[..3] + a[3..] == a && b[..3] + b[3..] == b;
    MemcmpZero(a, b);
    MemcmpZero(Eui64(a), Eui64(b));
  }

  method EUI48toEUI64(eui48: array<UInt8>, eui64: array<UInt8>)
    requires eui48.Length == 6 && eui64.Length == 8
    modifies eui64
    ensures eui64[..] == Eui64(eui48[..])
  {
    eui64[0] := eui48[0];
    eui64[1] := eui48[1];
    eui64[2] := eui48[2];
    eui64[3] := 0xff;
    eui64[4] := 0xfe;
    eui64[5] := eui48[3];
    eui64[6] := eui48[4];
    eui64[7] := eui48[5];
  }
}
