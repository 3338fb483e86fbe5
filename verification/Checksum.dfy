/** The 32-bit ones'-complement checksum of checksum_onescompliment.c.  The algebra is
    that of section 2 of RFC 1071, with 32-bit words. */
module Checksum {
  import opened Bytes

  const MAX32: uint32 := 0xFFFF_FFFF

  /** The sum of the buffer's little-endian words, the tail padded with zero bytes,
      as an unbounded number. */
  function Total(buf: seq<byte>): (t: nat)
  {
    if |buf| < 4 then Little(buf) else Little(buf[..4]) + Total(buf[4..])
  }

  /** What a total becomes in end-around-carry arithmetic: 0 stays 0, and every other
      total is represented by its residue in 1 .. 2^32 - 1. */
  function Closed(t: nat): (r: uint32)
  {
    if t == 0 then 0 else 1 + (t - 1) % MAX32
  }

  /** The bytes described by scatter_addr and scatter_len, one sequence per scatter. */
  function Payloads(mem: seq<seq<byte>>, len: seq<uint32>): (p: seq<seq<byte>>)
    requires |mem| == |len| && forall i :: 0 <= i < |len| ==> len[i] <= |mem[i]|
    ensures |p| == |len|
  {
    seq(|len|, i requires 0 <= i < |len| => mem[i][..len[i]])
  }

  function TotalAll(scatters: seq<seq<byte>>): (t: nat)
  {
    if scatters == [] then 0
    else TotalAll(scatters[..|scatters| - 1]) + Total(scatters[|scatters| - 1])
  }

  /** The 32-bit load at index i. */
  function LoadWord(mem: seq<byte>, i: nat): (w: uint32)
    requires i + 4 <= |mem|
  {
    LittleOfFour(mem[i..i + 4]);
    Little(mem[i..i + 4])
  }

  /** 256 to the power of k. */
  function Pow256(k: nat): (p: nat)
    requires k < 4
  {
    [1, 0x100, 0x1_0000, 0x100_0000][k]
  }

  /** One step of the accumulation: add modulo 2^32, then add the carry back in.  The
      result being below an operand is what reveals the carry. */
  function EndAroundAdd(sum: uint32, dword: uint32): (r: uint32)
    ensures r == if sum + dword < 0x1_0000_0000 then sum + dword else sum + dword - MAX32
  {
    var wrapped := (sum + dword) % 0x1_0000_0000;
    if wrapped < dword then wrapped + 1 else wrapped
  }

  // ---------- the code ----------

  /** The accumulation step that the C function writes out twice. */
  method Accumulate(sum: uint32, dword: uint32) returns (r: uint32)
    ensures r == EndAroundAdd(sum, dword)
  {
    r := (sum + dword) % 0x1_0000_0000;
    if r < dword {
      r := r + 1;
    }
  }

  /** Whole words are loaded, so the memory reaches to the next multiple of four. */
  predicate Readable(mem: seq<byte>, size: uint32) {
    size <= |mem| && (size % 4 != 0 ==> size - size % 4 + 4 <= |mem|)
  }

  method ChecksumAddition(mem: seq<byte>, size: uint32, prevSum: uint32) returns (sum: uint32)
    requires Readable(mem, size)
    ensures sum == Closed(prevSum + Total(mem[..size]))
  {
    hide Closed, EndAroundAdd;
    ClosedOfWord(prevSum);
    sum := prevSum;
    if size == 0 {
      return;
    }
    var tail := size % 4;
    var limit := size - tail;
    var cnt := 0;
    while cnt < limit
      invariant 0 <= cnt <= limit && cnt % 4 == 0
      invariant sum == Closed(prevSum + Total(mem[..cnt]))
    {
      var dword: uint32 := LoadWord(mem, cnt);
      ExtendByWord(mem, cnt, prevSum);
      sum := Accumulate(sum, dword);
      cnt := cnt + 4;
    }
    if tail != 0 {
      // The mask keeps the low bytes of the word, that is, its residue.
      var dword: uint32 := LoadWord(mem, cnt) % Pow256(tail);
      ExtendByTail(mem, cnt, tail, prevSum);
      sum := Accumulate(sum, dword);
    }
  }

  method Checksum32Bit(mem: seq<seq<byte>>, len: seq<uint32>) returns (r: uint32)
    requires |mem| == |len|
    requires forall i :: 0 <= i < |len| ==> len[i] <= |mem[i]| && Readable(mem[i], len[i])
    ensures r == Checksum(Payloads(mem, len))
  {
    var sum: uint32 := 0;
    ghost var all := Payloads(mem, len);
    for cnt := 0 to |len|
      invariant sum == Closed(TotalAll(all[..cnt]))
    {
      ClosedStep(TotalAll(all[..cnt]), Total(all[cnt]));
      assert all[..cnt + 1][..cnt] == all[..cnt];
      sum := ChecksumAddition(mem[cnt], len[cnt], sum);
    }
    assert all[..|len|] == all;
    r := MAX32 - sum; // bitwise not
  }

  /** What checksum_32bit returns, in closed form. */
  function Checksum(scatters: seq<seq<byte>>): (r: uint32)
  {
    MAX32 - Closed(TotalAll(scatters))
  }

  // ---------- properties ----------

  /** Masking a word to its k low bytes is reading those k bytes alone. */
  lemma MaskedWord(word: seq<byte>, k: nat)
    requires |word| == 4 && 0 < k < 4
    ensures Little(word) % Pow256(k) == Little(word[..k])
  {
    LittleOfFour(word);
    LittlePrefix(word, k);
  }

  lemma {:induction false} LittlePrefix(word: seq<byte>, k: nat)
    requires k <= |word| && k < 4
    ensures Little(word) == Little(word[..k]) + Pow256(k) * Little(word[k..])
    ensures Little(word[..k]) < Pow256(k)
  {
    if k > 0 {
      LittlePrefix(word[1..], k - 1);
      assert word[..k][1..] == word[1..][..k - 1];
      assert word[1..][k - 1..] == word[k..];
      assert Pow256(k) == 0x100 * Pow256(k - 1);
    }
  }

  lemma ClosedOfWord(w: uint32)
    ensures Closed(w) == w
  {
    assert w > 0 ==> (w - 1) % MAX32 == w - 1;
  }

  lemma AddStep(t: nat, dword: uint32)
    ensures EndAroundAdd(Closed(t), dword) == Closed(t + dword)
  {
    ClosedStep(t, dword);
  }

  lemma ExtendByWord(mem: seq<byte>, cnt: nat, prevSum: uint32)
    requires cnt % 4 == 0 && cnt + 4 <= |mem|
    ensures Closed(prevSum + Total(mem[..cnt + 4]))
            == EndAroundAdd(Closed(prevSum + Total(mem[..cnt])), LoadWord(mem, cnt))
  {
    var word := mem[cnt..cnt + 4];
    assert mem[..cnt + 4] == mem[..cnt] + word;
    TotalOfConcat(mem[..cnt], word);
    WordTotal(word);
    AddStep(prevSum + Total(mem[..cnt]), LoadWord(mem, cnt));
  }

  lemma ExtendByTail(mem: seq<byte>, cnt: nat, k: nat, prevSum: uint32)
    requires cnt % 4 == 0 && cnt + 4 <= |mem| && 0 < k < 4
    ensures Closed(prevSum + Total(mem[..cnt + k]))
            == EndAroundAdd(Closed(prevSum + Total(mem[..cnt])), LoadWord(mem, cnt) % Pow256(k))
  {
    var word := mem[cnt..cnt + 4];
    MaskedWord(word, k);
    assert mem[..cnt + k] == mem[..cnt] + word[..k];
    TotalOfConcat(mem[..cnt], word[..k]);
    AddStep(prevSum + Total(mem[..cnt]), LoadWord(mem, cnt) % Pow256(k));
  }

  lemma ClosedStep(t: nat, u: nat)
    ensures Closed(Closed(t) + u) == Closed(t + u)
  {
    if t > 0 {
      var q := (t - 1) / MAX32;
      assert t + u - 1 == MAX32 * q + (Closed(t) + u - 1);
      ModShift(Closed(t) + u - 1, q);
    }
  }

  lemma {:induction false} ModShift(x: nat, q: nat)
    ensures (MAX32 * q + x) % MAX32 == x % MAX32
  {
    if q > 0 {
      ModShift(x, q - 1);
      assert MAX32 * q + x == MAX32 + (MAX32 * (q - 1) + x);
    }
  }

  lemma {:induction false} TotalOfConcat(a: seq<byte>, b: seq<byte>)
    requires |a| % 4 == 0
    ensures Total(a + b) == Total(a) + Total(b)
  {
    if a == [] {
      assert a + b == b;
    } else {
      TotalOfConcat(a[4..], b);
      assert (a + b)[..4] == a[..4] && (a + b)[4..] == a[4..] + b;
    }
  }

  lemma {:induction false} TotalAllOfConcat(a: seq<seq<byte>>, b: seq<seq<byte>>)
    ensures TotalAll(a + b) == TotalAll(a) + TotalAll(b)
  {
    if b == [] {
      assert a + b == a;
    } else {
      var b' := b[..|b| - 1];
      TotalAllOfConcat(a, b');
      assert (a + b)[..|a + b| - 1] == a + b';
    }
  }

  lemma TotalAllAround(a: seq<seq<byte>>, x: seq<byte>, b: seq<seq<byte>>)
    ensures TotalAll(a + [x] + b) == TotalAll(a) + Total(x) + TotalAll(b)
  {
    assert (a + [x])[..|a|] == a;
    TotalAllOfConcat(a + [x], b);
  }

  /** The checksum does not depend on the order of the scatter elements. */
  lemma ReorderScatters(a: seq<seq<byte>>, b: seq<seq<byte>>)
    requires multiset(a) == multiset(b)
    ensures Checksum(a) == Checksum(b)
  {
    hide Closed;
    ReorderTotals(a, b);
  }

  lemma {:induction false} ReorderTotals(a: seq<seq<byte>>, b: seq<seq<byte>>)
    requires multiset(a) == multiset(b)
    ensures TotalAll(a) == TotalAll(b)
  {
    if a == [] {
      assert |multiset(b)| == 0;
    } else {
      var x, a' := a[|a| - 1], a[..|a| - 1];
      assert a == a' + [x];
      var l, r := TakeOut(b, x);
      assert multiset(a) == multiset(a') + multiset{x};
      ReorderTotals(a', l + r);
      hide *;
      TotalAllOfConcat(l, r);
      TotalAllAround(l, x, r);
    }
  }

  lemma TakeOut(b: seq<seq<byte>>, x: seq<byte>) returns (l: seq<seq<byte>>, r: seq<seq<byte>>)
    requires x in multiset(b)
    ensures b == l + [x] + r && multiset(l + r) == multiset(b) - multiset{x}
  {
    var k :| 0 <= k < |b| && b[k] == x;
    l, r := b[..k], b[k + 1..];
    assert b == l + [x] + r;
  }

  /** Cutting one scatter element in two after a multiple of four bytes changes nothing. */
  lemma SplitScatter(pre: seq<seq<byte>>, left: seq<byte>, right: seq<byte>, post: seq<seq<byte>>)
    requires |left| % 4 == 0
    ensures Checksum(pre + [left + right] + post) == Checksum(pre + [left] + [right] + post)
  {
    TotalOfConcat(left, right);
    TotalAllAround(pre, left + right, post);
    TotalAllAround(pre + [left], right, post);
    TotalAllAround(pre, left, []);
    assert pre + [left] + [] == pre + [left];
  }

  /** A receiver that sums the data followed by its checksum word obtains 0. */
  lemma AppendedChecksumVerifies(scatters: seq<seq<byte>>)
    ensures Checksum(scatters + [Bytes32(Checksum(scatters))]) == 0
  {
    var c := Checksum(scatters);
    TotalAllAround(scatters, Bytes32(c), []);
    assert scatters + [Bytes32(c)] + [] == scatters + [Bytes32(c)];
    WordTotal(Bytes32(c));
    AddStep(TotalAll(scatters), c);
  }

  lemma WordTotal(w: seq<byte>)
    requires |w| == 4
    ensures Total(w) == Little(w)
  {
    assert w[..4] == w && w[4..] == [];
  }

  /** Replacing one aligned word goes unnoticed exactly when the two words are the two zeros
      of ones'-complement arithmetic and the rest of the sum is not zero. */
  lemma CollisionExactly(before: seq<seq<byte>>, pre: seq<byte>, w: seq<byte>, w': seq<byte>,
                         post: seq<byte>, after: seq<seq<byte>>)
    requires |w| == |w'| == 4 && w != w' && |pre| % 4 == 0
    ensures Checksum(before + [pre + w + post] + after) == Checksum(before + [pre + w' + post] + after)
            <==> TotalAll(before) + Total(pre) + Total(post) + TotalAll(after) > 0
                 && ((Little(w) == 0 && Little(w') == MAX32) || (Little(w) == MAX32 && Little(w') == 0))
  {
    hide *;
    TotalAroundWord(pre, w, post);
    TotalAroundWord(pre, w', post);
    if Little(w) == Little(w') {
      LittleInjective(w, w');
    }
    WordBound(w);
    WordBound(w');
    CollisionOfTotals(before, pre + w + post, pre + w' + post, after,
                      Total(pre) + Total(post), Little(w), Little(w'));
  }

  lemma CollisionOfTotals(before: seq<seq<byte>>, x: seq<byte>, y: seq<byte>, after: seq<seq<byte>>,
                          rest: nat, w: uint32, w': uint32)
    requires w != w' && Total(x) == rest + w && Total(y) == rest + w'
    ensures Checksum(before + [x] + after) == Checksum(before + [y] + after)
            <==> TotalAll(before) + rest + TotalAll(after) > 0
                 && ((w == 0 && w' == MAX32) || (w == MAX32 && w' == 0))
  {
    hide *;
    ChecksumAround(before, x, after);
    ChecksumAround(before, y, after);
    ClosedCollision(TotalAll(before) + rest + TotalAll(after), w, w');
  }

  lemma WordBound(w: seq<byte>)
    requires |w| == 4
    ensures Little(w) <= MAX32
  {
    LittleOfFour(w);
  }

  lemma ChecksumAround(a: seq<seq<byte>>, x: seq<byte>, b: seq<seq<byte>>)
    ensures Checksum(a + [x] + b) == MAX32 - Closed(TotalAll(a) + Total(x) + TotalAll(b))
  {
    hide Closed, TotalAll;
    TotalAllAround(a, x, b);
  }

  lemma TotalAroundWord(pre: seq<byte>, w: seq<byte>, post: seq<byte>)
    requires |w| == 4 && |pre| % 4 == 0
    ensures Total(pre + w + post) == Total(pre) + Little(w) + Total(post)
  {
    TotalOfConcat(pre + w, post);
    TotalOfConcat(pre, w);
    WordTotal(w);
  }

  lemma ClosedCollision(rest: nat, x: uint32, y: uint32)
    requires x != y
    ensures Closed(rest + x) == Closed(rest + y)
            <==> rest > 0 && ((x == 0 && y == MAX32) || (x == MAX32 && y == 0))
  {
    AddStep(rest, x);
    AddStep(rest, y);
  }
}
