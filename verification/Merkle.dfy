module Common {
  import opened Arithmetic

  datatype Option<+T> = None | Some(value: T)

  type Address = nat

  // what `delete` leaves in an address slot
  const NOBODY: Address := 0

  // a bytes8 value
  type Word = x: int | 0 <= x < U64 witness 0

  /** A bytes32 value. Keccak is a free constructor: of one word, or of a pair of
      hashes; Raw is any bytes32 that is not such a digest. */
  datatype Hash = OfWord(word: Word) | OfPair(left: Hash, right: Hash) | Raw(bits: nat)

  // the default of an unset bytes32 slot
  const ZERO_HASH: Hash := Raw(0)
}

/** The Merkle library: the bottom-up fold over a proof, and the tree it stands for. */
module Merkle {
  import opened Arithmetic
  import opened Common

  // the machine's memory, one entry per 8-byte word
  type Memory = seq<Word>

  predicate Shaped(m: Memory, depth: nat) { |m| == Pow2(depth) }

  /** The recursive definition of the root. */
  function Root(m: Memory, depth: nat): Hash
    requires Shaped(m, depth)
    decreases depth
  {
    if depth == 0 then OfWord(m[0])
    else
      var half := Pow2(depth - 1);
      OfPair(Root(m[..half], depth - 1), Root(m[half..], depth - 1))
  }

  /** The siblings of a word's branch, leaf level first. */
  function Path(m: Memory, depth: nat, index: nat): (path: seq<Hash>)
    requires Shaped(m, depth) && index < |m|
    ensures |path| == depth
    decreases depth
  {
    if depth == 0 then []
    else
      var half := Pow2(depth - 1);
      if index < half then Path(m[..half], depth - 1, index) + [Root(m[half..], depth - 1)]
      else Path(m[half..], depth - 1, index - half) + [Root(m[..half], depth - 1)]
  }

  predicate Bit(n: nat, i: nat) { (n / Pow2(i)) % 2 == 1 }

  /** The digest after every sibling has been absorbed, the last one outermost. */
  function Fold(index: nat, drive: Hash, siblings: seq<Hash>): Hash
  {
    if siblings == [] then drive
    else
      var top := |siblings| - 1;
      var below := Fold(index, drive, siblings[..top]);
      if Bit(index, top) then OfPair(siblings[top], below) else OfPair(below, siblings[top])
  }

  // a byte position inside an address space of 2^depth words (2^64 bytes in the source)
  predicate InSpace(depth: nat, position: nat) { position < 8 * Pow2(depth) }

  /** Merkle.getRoot: reverts on a position that is not aligned and on a proof of the wrong
      length; a position outside the address space does not fit the argument's type. */
  function GetRoot(depth: nat, position: nat, value: Word, proof: seq<Hash>): Option<Hash>
  {
    if !InSpace(depth, position) || position % 8 != 0 || |proof| != depth then None
    else Some(Fold(position / 8, OfWord(value), proof))
  }

  // ----- bits -----

  lemma DivDiv(x: nat, d: nat)
    requires d > 0
    ensures x / (8 * d) == (x / 8) / d
  {
    var q, r, s := (x / 8) / d, (x / 8) % d, x % 8;
    assert x / 8 == q * d + r;
    assert x == 8 * (q * d + r) + s == q * (8 * d) + (8 * r + s);
    DivUnique(x, 8 * d, q, 8 * r + s);
  }

  lemma DivShift(n: nat, d: nat, k: nat)
    requires d > 0
    ensures (n + k * d) / d == n / d + k
  {
    var q, r := n / d, n % d;
    assert n == q * d + r;
    assert n + k * d == (q + k) * d + r;
    DivUnique(n + k * d, d, q + k, r);
  }

  lemma Pow2Split(i: nat, top: nat)
    requires i < top
    ensures Pow2(top) == 2 * Pow2(top - i - 1) * Pow2(i)
  {
    Pow2Add(top - i, i);
    assert Pow2(top - i) == 2 * Pow2(top - i - 1);
  }

  lemma BitOfHigher(n: nat, top: nat, i: nat)
    requires i < top
    ensures Bit(n + Pow2(top), i) == Bit(n, i)
  {
    var e := Pow2(top - i - 1);
    Pow2Split(i, top);
    DivShift(n, Pow2(i), 2 * e);
    hide Pow2;
    var q := n / Pow2(i);
    assert (q + 2 * e) % 2 == q % 2;
  }

  lemma {:induction false} FoldOfHigher(n: nat, top: nat, drive: Hash, siblings: seq<Hash>)
    requires |siblings| <= top
    ensures Fold(n + Pow2(top), drive, siblings) == Fold(n, drive, siblings)
    decreases |siblings|
  {
    if siblings != [] {
      var last := |siblings| - 1;
      FoldOfHigher(n, top, drive, siblings[..last]);
      BitOfHigher(n, top, last);
    }
  }

  lemma TopBit(index: nat, top: nat)
    requires index < 2 * Pow2(top)
    ensures Bit(index, top) <==> index >= Pow2(top)
  {
    if index < Pow2(top) { DivUnique(index, Pow2(top), 0, index); }
    else { DivUnique(index, Pow2(top), 1, index - Pow2(top)); }
  }

  // ----- the fold against the tree -----

  lemma {:induction false} RootInjective(m: Memory, m': Memory, depth: nat)
    requires Shaped(m, depth) && Shaped(m', depth)
    requires Root(m, depth) == Root(m', depth)
    ensures m == m'
    decreases depth
  {
    if depth > 0 {
      var half := Pow2(depth - 1);
      RootInjective(m[..half], m'[..half], depth - 1);
      RootInjective(m[half..], m'[half..], depth - 1);
      assert m == m[..half] + m[half..] && m' == m'[..half] + m'[half..];
    }
  }

  /** Soundness and completeness of a proof: the fold meets the root exactly when the
      value is the word at that index and the siblings are its real path. */
  lemma {:induction false} FoldMeetsRoot(m: Memory, depth: nat, index: nat, value: Word, siblings: seq<Hash>)
    requires Shaped(m, depth) && index < |m| && |siblings| == depth
    ensures Fold(index, OfWord(value), siblings) == Root(m, depth)
      <==> value == m[index] && siblings == Path(m, depth, index)
    decreases depth
  {
    if depth > 0 {
      var top, half := depth - 1, Pow2(depth - 1);
      var below := siblings[..top];
      assert siblings == below + [siblings[top]];
      TopBit(index, top);
      if index < half {
        FoldMeetsRoot(m[..half], top, index, value, below);
      } else {
        FoldMeetsRoot(m[half..], top, index - half, value, below);
        FoldOfHigher(index - half, top, OfWord(value), below);
      }
    }
  }

  /** Folding a new value over the old path gives the root of the updated memory. */
  lemma {:induction false} FoldWrites(m: Memory, depth: nat, index: nat, value: Word)
    requires Shaped(m, depth) && index < |m|
    ensures Path(m[index := value], depth, index) == Path(m, depth, index)
    ensures Fold(index, OfWord(value), Path(m, depth, index)) == Root(m[index := value], depth)
    decreases depth
  {
    PathIgnoresLeaf(m, depth, index, value);
    FoldMeetsRoot(m[index := value], depth, index, value, Path(m, depth, index));
  }

  lemma {:induction false} PathIgnoresLeaf(m: Memory, depth: nat, index: nat, value: Word)
    requires Shaped(m, depth) && index < |m|
    ensures Path(m[index := value], depth, index) == Path(m, depth, index)
    decreases depth
  {
    if depth > 0 {
      var half, n := Pow2(depth - 1), m[index := value];
      if index < half {
        PathIgnoresLeaf(m[..half], depth - 1, index, value);
        assert n[..half] == m[..half][index := value] && n[half..] == m[half..];
      } else {
        PathIgnoresLeaf(m[half..], depth - 1, index - half, value);
        assert n[half..] == m[half..][index - half := value] && n[..half] == m[..half];
      }
    }
  }

  /** getRoot on a memory's root: it answers with that root exactly on the true word with
      its true path, and then swapping the word gives the root of the written memory. */
  lemma GetRootOfMemory(m: Memory, depth: nat, position: nat, value: Word, proof: seq<Hash>, next: Word)
    requires Shaped(m, depth)
    ensures GetRoot(depth, position, value, proof) == Some(Root(m, depth))
      <==> InSpace(depth, position) && position % 8 == 0
           && value == m[position / 8] && proof == Path(m, depth, position / 8)
    ensures GetRoot(depth, position, value, proof) == Some(Root(m, depth))
      ==> GetRoot(depth, position, next, proof) == Some(Root(m[position / 8 := next], depth))
  {
    if InSpace(depth, position) && |proof| == depth {
      FoldMeetsRoot(m, depth, position / 8, value, proof);
      FoldWrites(m, depth, position / 8, next);
    }
  }

  /** getRootWithDrive as the source loops, from a word up (log2 of the drive is 3):
      bit i of the word index is read off the byte position with a shifted mask. */
  method ComputeRoot(depth: nat, position: nat, value: Word, proof: seq<Hash>) returns (root: Option<Hash>)
    ensures root == GetRoot(depth, position, value, proof)
  {
    if !InSpace(depth, position) { return None; }
    var size := 8;
    if position % size != 0 || |proof| != depth { return None; }
    var drive := OfWord(value);
    var i := 0;
    while i < |proof|
      invariant 0 <= i <= |proof|
      invariant drive == Fold(position / 8, OfWord(value), proof[..i])
    {
      var shifted := size * Pow2(i);
      DivDiv(position, Pow2(i));
      assert proof[..i + 1][..i] == proof[..i];
      if (position / shifted) % 2 == 0 {
        drive := OfPair(drive, proof[i]);
      } else {
        drive := OfPair(proof[i], drive);
      }
      i := i + 1;
    }
    assert proof[..i] == proof;
    root := Some(drive);
  }
}
