/** Fixed-width C integers, little-endian words and alignment, shared by every other module. */
module Bytes {
  type byte = x: int | 0 <= x < 0x100
  type uint16 = x: int | 0 <= x < 0x1_0000
  type uint32 = x: int | 0 <= x < 0x1_0000_0000

  function Min(a: nat, b: nat): (m: nat) {
    if a <= b then a else b
  }

  predicate Aligned(address: nat, b: nat)
    requires b > 0
  {
    address % b == 0
  }

  /** Unsigned 32-bit addition, which wraps around. */
  function Add32(a: uint32, b: uint32): (r: uint32) {
    if a + b < 0x1_0000_0000 then a + b else a + b - 0x1_0000_0000
  }

  /** Unsigned 32-bit subtraction, which wraps around. */
  function Sub32(a: uint32, b: uint32): (r: uint32) {
    if a >= b then a - b else a - b + 0x1_0000_0000
  }

  /** Both are the mathematical operation modulo 2^32, and undo each other. */
  lemma WrapAround(a: uint32, b: uint32)
    ensures Add32(a, b) == (a + b) % 0x1_0000_0000 && Sub32(a, b) == (a - b) % 0x1_0000_0000
    ensures Sub32(Add32(a, b), b) == a && Add32(Sub32(a, b), b) == a
  {
  }

  /** The value of at most four bytes, least significant byte first. */
  function Little(s: seq<byte>): (v: nat)
  {
    if s == [] then 0 else s[0] as nat + 0x100 * Little(s[1..])
  }

  function Word16(s: seq<byte>, i: nat): (v: uint16)
    requires i + 2 <= |s|
  {
    s[i] + 0x100 * (s[i + 1] as int)
  }

  function Bytes16(v: uint16): (s: seq<byte>)
    ensures |s| == 2 && Word16(s, 0) == v
  {
    [v % 0x100, v / 0x100]
  }

  function Bytes32(v: uint32): (s: seq<byte>)
    ensures |s| == 4 && Little(s) == v
  {
    LittleOfSplit(v, 0x100_0000);
    LittleOfSplit(v / 0x100, 0x1_0000);
    LittleOfSplit(v / 0x100 / 0x100, 0x100);
    var s3: seq<byte> := [v / 0x100 / 0x100 / 0x100];
    assert s3[1..] == [] && Little(s3) == v / 0x100 / 0x100 / 0x100;
    var s2 := [v / 0x100 / 0x100 % 0x100] + s3;
    assert s2[1..] == s3 && Little(s2) == v / 0x100 / 0x100;
    var s1 := [v / 0x100 % 0x100] + s2;
    assert s1[1..] == s2 && Little(s1) == v / 0x100;
    var s := [v % 0x100] + s1;
    assert s[1..] == s1;
    s
  }

  lemma LittleOfSplit(v: nat, bound: nat)
    requires v < 0x100 * bound
    ensures v == v % 0x100 + 0x100 * (v / 0x100) && v / 0x100 < bound
  {
  }

  lemma LittleOfFour(s: seq<byte>)
    requires |s| == 4
    ensures Little(s) == s[0] as int + 0x100 * (s[1] as int) + 0x1_0000 * (s[2] as int) + 0x100_0000 * (s[3] as int)
    ensures Little(s) < 0x1_0000_0000
  {
    assert s[1..][1..] == s[2..] && s[2..][1..] == s[3..] && s[3..][1..] == [];
    assert Little(s[3..]) == s[3];
    assert Little(s[2..]) == s[2] as int + 0x100 * (s[3] as int);
  }

  lemma {:induction false} LittleInjective(w: seq<byte>, w': seq<byte>)
    requires |w| == |w'| && Little(w) == Little(w')
    ensures w == w'
  {
    if w != [] {
      assert w[0] == Little(w) % 0x100 && w'[0] == Little(w') % 0x100;
      LittleInjective(w[1..], w'[1..]);
      assert w == [w[0]] + w[1..] && w' == [w'[0]] + w'[1..];
    }
  }
}
