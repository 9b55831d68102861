/** Octets of the class-file input stream and the unsigned big-endian numbers they spell. */
module Bytes {

  /** One octet as returned by the input stream's `get()`. */
  type Byte = b: int | 0 <= b < 256

  /** 256 raised to the power `k`. */
  function Pow256(k: nat): nat
  {
    if k == 0 then 1 else 256 * Pow256(k - 1)
  }

  /** The unsigned number spelled by `s`, most significant octet first: this is the value
      that shifting the accumulator left by eight bits and or-ing in each new octet builds. */
  function BigEndian(s: seq<Byte>): nat
  {
    if |s| == 0 then 0 else BigEndian(s[..|s| - 1]) * 256 + s[|s| - 1]
  }

  lemma BigEndianSingle(b: Byte)
    ensures BigEndian([b]) == b
  {
    assert [b][..0] == [];
  }

  /** The number spelled by the `n` octets of `s` from `pos` on, most significant first,
      as the reader's accumulator builds it. */
  function ValueAt(s: seq<Byte>, pos: nat, n: nat): nat
    requires pos + n <= |s|
  {
    if n == 0 then 0 else ValueAt(s, pos, n - 1) * 256 + s[pos + n - 1]
  }

  lemma ValueAtSingle(s: seq<Byte>, pos: nat)
    requires pos < |s|
    ensures ValueAt(s, pos, 1) == s[pos]
  {
    assert ValueAt(s, pos, 0) == 0;
  }

  /** Reading in place agrees with reading the slice. */
  lemma {:induction false} ValueAtIsBigEndian(s: seq<Byte>, pos: nat, n: nat)
    requires pos + n <= |s|
    ensures ValueAt(s, pos, n) == BigEndian(s[pos..pos + n])
  {
    if n > 0 {
      ValueAtIsBigEndian(s, pos, n - 1);
      assert s[pos..pos + n][..n - 1] == s[pos..pos + n - 1];
    }
  }

  /** The positional reading of `s`: the sum of s[i] * 256^(|s|-1-i). */
  function PositionalSum(s: seq<Byte>): nat
  {
    if |s| == 0 then 0 else s[0] * Pow256(|s| - 1) + PositionalSum(s[1..])
  }

  lemma {:induction false} PositionalSumSnoc(s: seq<Byte>, b: Byte)
    ensures PositionalSum(s + [b]) == PositionalSum(s) * 256 + b
    decreases |s|
  {
    if |s| == 0 {
      assert s + [b] == [b];
    } else {
      var t := s + [b];
      assert t[1..] == s[1..] + [b];
      PositionalSumSnoc(s[1..], b);
      calc {
        PositionalSum(t);
        t[0] * Pow256(|s|) + PositionalSum(s[1..] + [b]);
        s[0] * (256 * Pow256(|s| - 1)) + PositionalSum(s[1..]) * 256 + b;
        { assert s[0] * (256 * Pow256(|s| - 1)) == (s[0] * Pow256(|s| - 1)) * 256; }
        (s[0] * Pow256(|s| - 1) + PositionalSum(s[1..])) * 256 + b;
      }
    }
  }

  /** The accumulated value is the positional sum: sum over i of s[i] * 256^(|s|-1-i). */
  lemma {:induction false} BigEndianIsPositional(s: seq<Byte>)
    ensures BigEndian(s) == PositionalSum(s)
    decreases |s|
  {
    if |s| > 0 {
      var init := s[..|s| - 1];
      BigEndianIsPositional(init);
      PositionalSumSnoc(init, s[|s| - 1]);
      assert init + [s[|s| - 1]] == s;
    }
  }

  /** An n-octet read never needs more than 8n bits, so a read of at most eight octets
      fits the 64-bit accumulator without truncation. */
  lemma {:induction false} BigEndianBound(s: seq<Byte>)
    ensures BigEndian(s) < Pow256(|s|)
    decreases |s|
  {
    if |s| > 0 {
      BigEndianBound(s[..|s| - 1]);
      assert BigEndian(s[..|s| - 1]) * 256 <= (Pow256(|s| - 1) - 1) * 256;
    }
  }
}
