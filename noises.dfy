/**
 * The integer side of the noise generators of Noises.kt: the permutation tables built at
 * construction, the `and 255` cell masking and the table lookups that pick lattice values
 * and gradients. The floating-point evaluation around them is not modelled.
 *
 * `kotlin.random.Random(seed)` is not modelled: a shuffle receives the values that
 * `Random.nextInt(i + 1)` returned, in call order (`rolls`).
 */
module Noises {

  /** Kotlin's `Int`. */
  newtype Int32 = x: int | -0x8000_0000 <= x < 0x8000_0000

  /**
   * `n and 255` on a 32-bit two's-complement integer: the low byte, which is the
   * non-negative remainder of n modulo 256 (Dafny's `%` never yields a negative value).
   */
  function And255(n: Int32): (r: int)
    ensures 0 <= r < 256
    ensures (n as int) - r == 256 * ((n as int) / 256)
  {
    (n as int) % 256
  }

  /** The draws a shuffle of an `n`-element array makes: the k-th is `nextInt(n - k)`, in [0, n - 1 - k]. */
  predicate ValidRolls(rolls: seq<int>, n: nat)
  {
    && |rolls| == (if n == 0 then 0 else n - 1)
    && forall k :: 0 <= k < |rolls| ==> 0 <= rolls[k] <= n - 1 - k
  }

  function Swap(s: seq<int>, i: nat, j: nat): (r: seq<int>)
    requires i < |s| && j < |s|
    ensures |r| == |s|
  {
    s[i := s[j]][j := s[i]]
  }

  /**
   * Kotlin's `IntArray.shuffle(random)` from draw `k` on: at step `k` the entry at
   * `|s| - 1 - k` is swapped with the entry at `rolls[k]`.
   */
  function ShuffledFrom(s: seq<int>, rolls: seq<int>, k: nat): (r: seq<int>)
    requires ValidRolls(rolls, |s|) && k <= |rolls|
    ensures |r| == |s|
    decreases |rolls| - k
  {
    if k == |rolls| then s
    else ShuffledFrom(Swap(s, |s| - 1 - k, rolls[k]), rolls, k + 1)
  }

  lemma SwapPermutes(s: seq<int>, i: nat, j: nat)
    requires i < |s| && j < |s|
    ensures multiset(Swap(s, i, j)) == multiset(s)
  {
  }

  /** Shuffling only rearranges the entries. */
  lemma {:induction false} ShuffledIsPermutation(s: seq<int>, rolls: seq<int>, k: nat)
    requires ValidRolls(rolls, |s|) && k <= |rolls|
    ensures multiset(ShuffledFrom(s, rolls, k)) == multiset(s)
    decreases |rolls| - k
  {
    if k < |rolls| {
      var t := Swap(s, |s| - 1 - k, rolls[k]);
      SwapPermutes(s, |s| - 1 - k, rolls[k]);
      ShuffledIsPermutation(t, rolls, k + 1);
    }
  }

  /** Shuffling a table of values in [0, bound) leaves only values in [0, bound). */
  lemma {:induction false} ShuffledKeepsRange(s: seq<int>, rolls: seq<int>, k: nat, bound: int)
    requires ValidRolls(rolls, |s|) && k <= |rolls|
    requires forall x :: 0 <= x < |s| ==> 0 <= s[x] < bound
    ensures forall x :: 0 <= x < |s| ==> 0 <= ShuffledFrom(s, rolls, k)[x] < bound
    decreases |rolls| - k
  {
    if k < |rolls| {
      var t := Swap(s, |s| - 1 - k, rolls[k]);
      ShuffledKeepsRange(t, rolls, k + 1, bound);
    }
  }

  /** `IntArray.shuffle(random)`, in place. */
  method Shuffle(a: array<int>, rolls: seq<int>)
    requires ValidRolls(rolls, a.Length)
    modifies a
    ensures a[..] == ShuffledFrom(old(a[..]), rolls, 0)
    ensures multiset(a[..]) == multiset(old(a[..]))
  {
    var k := 0;
    while k < |rolls|
      invariant 0 <= k <= |rolls|
      invariant ValidRolls(rolls, |a[..]|)
      invariant ShuffledFrom(a[..], rolls, k) == ShuffledFrom(old(a[..]), rolls, 0)
    {
      var i, j := a.Length - 1 - k, rolls[k];
      ghost var before := a[..];
      a[i], a[j] := a[j], a[i];
      assert a[..] == Swap(before, i, j);
      k := k + 1;
    }
    ShuffledIsPermutation(old(a[..]), rolls, 0);
  }

  /** `IntArray(512) { it % 256 }`: two runs of 0..255. */
  function InitialValueTable(): (s: seq<int>)
    ensures |s| == 512
  {
    seq(512, i => i % 256)
  }

  /** 0, 1, ..., n - 1. */
  function Iota(n: nat): (s: seq<int>)
    ensures |s| == n && forall i :: 0 <= i < n ==> s[i] == i
  {
    seq(n, i => i)
  }

  /** The table `ValueNoise` ends with: all 512 entries shuffled, then the first half copied over the second. */
  function ValueTable(rolls: seq<int>): (t: seq<int>)
    requires ValidRolls(rolls, 512)
    ensures |t| == 512
  {
    var shuffled := ShuffledFrom(InitialValueTable(), rolls, 0);
    shuffled[..256] + shuffled[..256]
  }

  /** The `ValueNoise` table holds bytes only, and its second half mirrors its first. */
  lemma ValueTableShape(rolls: seq<int>)
    requires ValidRolls(rolls, 512)
    ensures forall i :: 0 <= i < 512 ==> 0 <= ValueTable(rolls)[i] < 256
    ensures forall i :: 0 <= i < 256 ==> ValueTable(rolls)[i + 256] == ValueTable(rolls)[i]
  {
    ShuffledKeepsRange(InitialValueTable(), rolls, 0, 256);
  }

  /** Draws that pick each position itself from step `k` on leave the table as it is. */
  lemma {:induction false} StayingDrawsKeepTable(s: seq<int>, rolls: seq<int>, k: nat)
    requires ValidRolls(rolls, |s|) && k <= |rolls|
    requires forall m :: k <= m < |rolls| ==> rolls[m] == |s| - 1 - m
    ensures ShuffledFrom(s, rolls, k) == s
    decreases |rolls| - k
  {
    if k < |rolls| {
      assert Swap(s, |s| - 1 - k, rolls[k]) == s;
      StayingDrawsKeepTable(s, rolls, k + 1);
    }
  }

  /**
   * Unlike the `SimplexNoise` table, the first half of the `ValueNoise` table need not be a
   * permutation of 0..255: when the first draw swaps the last entry (255) to the front and no
   * other draw moves anything, 255 occurs twice in the first half and 0 not at all.
   */
  lemma ValueTableMayRepeat()
    ensures exists rolls :: ValidRolls(rolls, 512) && ValueTable(rolls)[0] == 255 && ValueTable(rolls)[255] == 255
  {
    var rolls := [0] + seq(510, m => 510 - m);
    assert ValidRolls(rolls, 512);
    var start := InitialValueTable();
    var swapped := Swap(start, 511, 0);
    StayingDrawsKeepTable(swapped, rolls, 1);
    assert ShuffledFrom(start, rolls, 0) == swapped;
    assert swapped[0] == 255 && swapped[255] == 255;
  }

  /** `permutation.copyInto(permutation, 256, 0, 256)`: the first half is copied over the second. */
  method MirrorFirstHalf(a: array<int>)
    requires a.Length == 512
    modifies a
    ensures a[..] == old(a[..256]) + old(a[..256])
  {
    var i := 0;
    while i < 256
      invariant 0 <= i <= 256
      invariant a[..256] == old(a[..256])
      invariant forall k :: 0 <= k < i ==> a[256 + k] == a[k]
    {
      a[256 + i] := a[i];
      i := i + 1;
    }
  }

  /** The four lattice values around a cell, in the source's names. */
  datatype Lattice = Lattice(aa: int, ab: int, ba: int, bb: int)

  /** `ValueNoise`. */
  class ValueNoise {
    const permutation: array<int>

    ghost predicate Valid()
      reads this, permutation
    {
      && permutation.Length == 512
      && (forall i :: 0 <= i < 512 ==> 0 <= permutation[i] < 256)
      && (forall i :: 0 <= i < 256 ==> permutation[i + 256] == permutation[i])
    }

    constructor (rolls: seq<int>)
      requires ValidRolls(rolls, 512)
      ensures Valid() && fresh(permutation)
      ensures permutation[..] == ValueTable(rolls)
    {
      var table := new int[512](i => i % 256);
      assert table[..] == InitialValueTable();
      Shuffle(table, rolls);
      MirrorFirstHalf(table);
      permutation := table;
      new;
      ValueTableShape(rolls);
      assert forall i :: 0 <= i < 512 ==> permutation[i] == ValueTable(rolls)[i];
    }

    /**
     * The lattice lookups of `getNoise` for the cell (xi, yi) = (floor(x) and 255,
     * floor(y) and 255): every index stays below 512 and every value is a byte.
     */
    function Corners(xi: int, yi: int): (r: Lattice)
      requires Valid() && 0 <= xi < 256 && 0 <= yi < 256
      reads this, permutation
      ensures 0 <= r.aa < 256 && 0 <= r.ab < 256 && 0 <= r.ba < 256 && 0 <= r.bb < 256
      ensures r.aa == permutation[permutation[xi] + yi] && r.bb == permutation[permutation[xi + 1] + yi + 1]
    {
      Lattice(permutation[permutation[xi] + yi], permutation[permutation[xi] + yi + 1],
              permutation[permutation[xi + 1] + yi], permutation[permutation[xi + 1] + yi + 1])
    }

    /** The lattice values `getNoise` reads for the point whose floors are (cellX, cellY). */
    function LatticeAt(cellX: Int32, cellY: Int32): (r: Lattice)
      requires Valid()
      reads this, permutation
      ensures 0 <= r.aa < 256 && 0 <= r.ab < 256 && 0 <= r.ba < 256 && 0 <= r.bb < 256
    {
      Corners(And255(cellX), And255(cellY))
    }

    /** The lattice repeats every 256 cells along x and along y (where the shifted cell is an `Int`). */
    lemma LatticeRepeats(cellX: Int32, cellY: Int32)
      requires Valid()
      ensures (cellX as int) + 256 < 0x8000_0000 ==> LatticeAt(cellX + 256, cellY) == LatticeAt(cellX, cellY)
      ensures (cellY as int) + 256 < 0x8000_0000 ==> LatticeAt(cellX, cellY + 256) == LatticeAt(cellX, cellY)
    {
    }
  }

  /** The table `SimplexNoise` ends with: 0..255 shuffled, repeated twice. */
  function SimplexTable(rolls: seq<int>): (t: seq<int>)
    requires ValidRolls(rolls, 256)
    ensures |t| == 512
  {
    var p := ShuffledFrom(Iota(256), rolls, 0);
    p + p
  }

  /** The `SimplexNoise` table's first half is a permutation of 0..255 and its second half repeats it. */
  lemma SimplexTableShape(rolls: seq<int>)
    requires ValidRolls(rolls, 256)
    ensures multiset(SimplexTable(rolls)[..256]) == multiset(Iota(256))
    ensures forall i :: 0 <= i < 512 ==> SimplexTable(rolls)[i] == SimplexTable(rolls)[i % 256]
    ensures forall i :: 0 <= i < 512 ==> 0 <= SimplexTable(rolls)[i] < 256
  {
    var p := ShuffledFrom(Iota(256), rolls, 0);
    assert SimplexTable(rolls)[..256] == p;
    ShuffledIsPermutation(Iota(256), rolls, 0);
    ShuffledKeepsRange(Iota(256), rolls, 0, 256);
  }

  /** The eight gradient directions of `SimplexNoise.grad` (exact in integers). */
  const Grad: seq<(int, int)> := [(1, 1), (-1, 1), (1, -1), (-1, -1), (1, 0), (-1, 0), (0, 1), (0, -1)]

  /**
   * The offset `(i1, j1)` of the middle simplex corner: one step along x when the point lies
   * below the cell's diagonal (`x0 > y0`), one step along y otherwise.
   */
  function MiddleCorner(xAboveY: bool): (r: (int, int))
    ensures r.0 >= 0 && r.1 >= 0 && r.0 + r.1 == 1
    ensures r.0 == 1 <==> xAboveY
  {
    if xAboveY then (1, 0) else (0, 1)
  }

  /** The gradient rows chosen for the three corners of a simplex. */
  datatype Gradients = Gradients(gi0: int, gi1: int, gi2: int)

  /** `SimplexNoise`. */
  class SimplexNoise {
    const perm: array<int>

    ghost predicate Valid()
      reads this, perm
    {
      && perm.Length == 512
      && multiset(perm[..256]) == multiset(Iota(256))
      && (forall i :: 0 <= i < 512 ==> perm[i] == perm[i % 256])
      && (forall i :: 0 <= i < 512 ==> 0 <= perm[i] < 256)
    }

    constructor (rolls: seq<int>)
      requires ValidRolls(rolls, 256)
      ensures Valid() && fresh(perm)
      ensures perm[..] == SimplexTable(rolls)
    {
      var p := new int[256](i => i);
      assert p[..] == Iota(256);
      Shuffle(p, rolls);
      ghost var shuffled := p[..];
      assert SimplexTable(rolls) == shuffled + shuffled;
      var table := new int[512];
      // perm[i] = p[i and 255]; for 0 <= i the mask is i % 256
      for i := 0 to 512
        invariant p[..] == shuffled
        invariant forall k :: 0 <= k < i ==> table[k] == p[k % 256]
      {
        table[i] := p[i % 256];
      }
      perm := table;
      new;
      SimplexTableShape(rolls);
      forall i | 0 <= i < 512
        ensures perm[i] == SimplexTable(rolls)[i]
      {
        assert perm[i] == shuffled[i % 256];
      }
      assert perm[..] == SimplexTable(rolls);
    }

    /**
     * The gradient lookups of `getNoise` for the cell (ii, jj) = (floor(x + s) and 255,
     * floor(y + s) and 255): every permutation index stays below 512 and each corner's
     * gradient index is a row of `grad`.
     */
    function CornerGradients(ii: int, jj: int, xAboveY: bool): (g: Gradients)
      requires Valid() && 0 <= ii < 256 && 0 <= jj < 256
      reads this, perm
      ensures 0 <= g.gi0 < |Grad| && 0 <= g.gi1 < |Grad| && 0 <= g.gi2 < |Grad|
      ensures var (i1, j1) := MiddleCorner(xAboveY);
              g.gi1 == perm[(ii + i1 + perm[(jj + j1) % 256]) % 256] % 8
    {
      var (i1, j1) := MiddleCorner(xAboveY);
      Gradients(perm[ii + perm[jj]] % 8, perm[ii + i1 + perm[jj + j1]] % 8, perm[ii + 1 + perm[jj + 1]] % 8)
    }

    /** The gradient rows `getNoise` uses for the skewed cell whose floors are (i, j). */
    function GradientsAt(i: Int32, j: Int32, xAboveY: bool): (g: Gradients)
      requires Valid()
      reads this, perm
      ensures 0 <= g.gi0 < 8 && 0 <= g.gi1 < 8 && 0 <= g.gi2 < 8
    {
      CornerGradients(And255(i), And255(j), xAboveY)
    }

    /** The gradient choice repeats every 256 skewed cells along i and along j (where the shifted cell is an `Int`). */
    lemma GradientsRepeat(i: Int32, j: Int32, xAboveY: bool)
      requires Valid()
      ensures (i as int) + 256 < 0x8000_0000 ==> GradientsAt(i + 256, j, xAboveY) == GradientsAt(i, j, xAboveY)
      ensures (j as int) + 256 < 0x8000_0000 ==> GradientsAt(i, j + 256, xAboveY) == GradientsAt(i, j, xAboveY)
    {
    }
  }

  /** `NoiseType`. */
  datatype NoiseType = Value | Simplex

  /** The generator a `Noise` facade wraps. */
  datatype Generator = ValueGenerator(value: ValueNoise) | SimplexGenerator(simplex: SimplexNoise)

  /** The number of entries the chosen generator shuffles. */
  function ShuffledEntriesFor(kind: NoiseType): nat
  {
    match kind
    case Value => 512
    case Simplex => 256
  }

  /** `Noise`: a facade over the generator chosen by `type`. */
  class Noise {
    const generator: Generator

    ghost predicate Valid()
      reads this, match generator
                  case ValueGenerator(v) => {v, v.permutation}
                  case SimplexGenerator(s) => {s, s.perm}
    {
      match generator
      case ValueGenerator(v) => v.Valid()
      case SimplexGenerator(s) => s.Valid()
    }

    /** `Noise(seed, type)`: VALUE builds a `ValueNoise`, SIMPLEX a `SimplexNoise`, from the seed's draws. */
    constructor (rolls: seq<int>, kind: NoiseType)
      requires ValidRolls(rolls, ShuffledEntriesFor(kind))
      ensures Valid()
      ensures kind == Value ==> generator.ValueGenerator? && generator.value.permutation[..] == ValueTable(rolls)
      ensures kind == Simplex ==> generator.SimplexGenerator? && generator.simplex.perm[..] == SimplexTable(rolls)
    {
      match kind
      case Value =>
        var v := new ValueNoise(rolls);
        generator := ValueGenerator(v);
      case Simplex =>
        var s := new SimplexNoise(rolls);
        generator := SimplexGenerator(s);
    }
  }
}
