/** Key preparation for VNC authentication: each octet of the 8-octet key has
    its bit order mirrored before the standard DES key schedule (section 7.2.2
    of RFC 6143). The DES cipher itself is foreign code and appears in the
    clients only as a function parameter. */
module RfbDes {
  import opened Bytes

  /** The cipher: `RFBDes(key).encrypt(data)`, given the key octets as
      `SetKey` hands them to the DES key schedule (already bit-mirrored). */
  type Cipher = (seq<bv8>, seq<byte>) -> seq<byte>

  /** The octets of a byte string as bit vectors. */
  function Octets(s: seq<byte>): (r: seq<bv8>)
    ensures |r| == |s| && forall k :: 0 <= k < |s| ==> r[k] == s[k] as bv8
  {
    seq(|s|, k requires 0 <= k < |s| => s[k] as bv8)
  }

  /** Bit `i` of an octet, bit 0 being the least significant. */
  predicate BitSet(b: bv8, i: nat)
    requires i < 8
  {
    b & (1 << i) != 0
  }

  /** Reference definition of the mirrored octet, written bit by bit:
      bit i moves to bit 7 - i. */
  function Mirror(b: bv8): bv8 {
    ((b & 0x01) << 7) | ((b & 0x02) << 5) | ((b & 0x04) << 3) | ((b & 0x08) << 1)
    | ((b & 0x10) >> 1) | ((b & 0x20) >> 3) | ((b & 0x40) >> 5) | ((b & 0x80) >> 7)
  }

  /** The key handed to DES: every octet mirrored, in the original order. */
  function MirrorKey(key: seq<bv8>): (r: seq<bv8>)
    ensures |r| == |key|
  {
    if key == [] then [] else MirrorKey(key[..|key| - 1]) + [Mirror(key[|key| - 1])]
  }

  /** Two octets with the same eight bits are equal. */
  lemma BitsDetermine(a: bv8, b: bv8)
    requires forall j :: 0 <= j < 8 ==> (BitSet(a, j) <==> BitSet(b, j))
    ensures a == b
  {
    assert BitSet(a, 0) == BitSet(b, 0) && BitSet(a, 1) == BitSet(b, 1);
    assert BitSet(a, 2) == BitSet(b, 2) && BitSet(a, 3) == BitSet(b, 3);
    assert BitSet(a, 4) == BitSet(b, 4) && BitSet(a, 5) == BitSet(b, 5);
    assert BitSet(a, 6) == BitSet(b, 6) && BitSet(a, 7) == BitSet(b, 7);
  }

  /** Bit i of an octet is set iff bit 7 - i of its mirror is set. */
  lemma MirrorBit(b: bv8, i: nat)
    requires i < 8
    ensures BitSet(b, i) <==> BitSet(Mirror(b), 7 - i)
  {
    if i == 0 {} else if i == 1 {} else if i == 2 {} else if i == 3 {}
    else if i == 4 {} else if i == 5 {} else if i == 6 {} else {}
  }

  /** Mirroring twice gives the octet back. */
  lemma MirrorInvolution(b: bv8)
    ensures Mirror(Mirror(b)) == b
  {
    forall j | 0 <= j < 8
      ensures BitSet(Mirror(Mirror(b)), j) <==> BitSet(b, j)
    {
      MirrorBit(b, 7 - j);
      MirrorBit(Mirror(b), 7 - j);
    }
    BitsDetermine(Mirror(Mirror(b)), b);
  }

  /** The low `i` bits of an octet, the others cleared. */
  function LowBits(b: bv8, i: nat): bv8
    requires i <= 8
  {
    if i == 8 then b else b & ((1 << i) - 1)
  }

  /** One step of the inner loop of `setKey`: taking bit i into account sets
      bit 7 - i of the partial mirror exactly when bit i is set. */
  lemma MirrorStep(b: bv8, i: nat)
    requires i < 8
    ensures Mirror(LowBits(b, i + 1))
         == if b & (1 << i) != 0 then Mirror(LowBits(b, i)) | (1 << (7 - i)) else Mirror(LowBits(b, i))
  {
    if i < 4 {
      MirrorStepLow(b, i);
    } else if i < 7 {
      MirrorStepHigh(b, i);
    }
  }

  /** `MirrorStep` for the low nibble. */
  lemma MirrorStepLow(b: bv8, i: nat)
    requires i < 4
    ensures Mirror(LowBits(b, i + 1))
         == if b & (1 << i) != 0 then Mirror(LowBits(b, i)) | (1 << (7 - i)) else Mirror(LowBits(b, i))
  {
    if i == 0 {} else if i == 1 {} else if i == 2 {} else {}
  }

  /** `MirrorStep` for bits 4 to 6. */
  lemma MirrorStepHigh(b: bv8, i: nat)
    requires 4 <= i < 7
    ensures Mirror(LowBits(b, i + 1))
         == if b & (1 << i) != 0 then Mirror(LowBits(b, i)) | (1 << (7 - i)) else Mirror(LowBits(b, i))
  {
    if i == 4 {} else if i == 5 {} else {}
  }

  /** The inner loop of `RFBDes.setKey` for one key octet `bsrc`: `btgt` is
      accumulated bit by bit with `btgt | (1 << 7 - i)`. */
  method MirrorOctet(bsrc: bv8) returns (btgt: bv8)
    ensures btgt == Mirror(bsrc)
  {
    btgt := 0;
    for i := 0 to 8
      invariant btgt == Mirror(LowBits(bsrc, i))
    {
      MirrorStep(bsrc, i);
      if bsrc & (1 << i) != 0 {
        btgt := btgt | (1 << (7 - i));
      }
    }
  }

  /** `RFBDes.setKey`: builds `newkey` by appending the mirror of every key
      octet, in order; the result is what the DES key schedule receives. */
  method SetKey(key: seq<byte>) returns (newkey: seq<bv8>)
    ensures newkey == MirrorKey(Octets(key))
  {
    newkey := [];
    for ki := 0 to |key|
      invariant newkey == MirrorKey(Octets(key)[..ki])
    {
      var btgt := MirrorOctet(key[ki] as bv8);
      assert Octets(key)[..ki + 1][..ki] == Octets(key)[..ki];
      newkey := newkey + [btgt];
    }
    assert Octets(key)[..|key|] == Octets(key);
  }

  /** The new key keeps the length and order of the old one, and octet k of
      it has bit 7 - i set exactly when octet k of the input has bit i set. */
  lemma {:induction false} MirrorKeyBits(key: seq<bv8>, k: nat, i: nat)
    requires k < |key| && i < 8
    ensures BitSet(key[k], i) <==> BitSet(MirrorKey(key)[k], 7 - i)
  {
    MirrorKeyAt(key, k);
    MirrorBit(key[k], i);
  }

  lemma {:induction false} MirrorKeyAt(key: seq<bv8>, k: nat)
    requires k < |key|
    ensures MirrorKey(key)[k] == Mirror(key[k])
  {
    if k < |key| - 1 {
      MirrorKeyAt(key[..|key| - 1], k);
    }
  }

  /** Reversing the key twice returns the original key. */
  lemma {:induction false} MirrorKeyInvolution(key: seq<bv8>)
    ensures MirrorKey(MirrorKey(key)) == key
  {
    var r := MirrorKey(MirrorKey(key));
    forall k | 0 <= k < |key|
      ensures r[k] == key[k]
    {
      MirrorKeyAt(key, k);
      MirrorKeyAt(MirrorKey(key), k);
      MirrorInvolution(key[k]);
    }
  }

  /** The 8-octet key `sendPassword` builds: the password zero-padded or
      truncated, `(password + bytes(8))[:8]`. */
  function PadPassword(password: seq<byte>): (pw: seq<byte>)
    ensures |pw| == 8
    ensures forall k :: 0 <= k < 8 ==> pw[k] == if k < |password| then password[k] else 0
  {
    (password + [0, 0, 0, 0, 0, 0, 0, 0])[..8]
  }
}
