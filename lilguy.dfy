// The pixel-art employee avatar: a string seed is hashed with cyrb128, the
// hash seeds a mulberry32 generator, and eight draws pick the avatar's traits.
// JavaScript's 32-bit integer operators (`Math.imul`, `^`, `|`, `>>>`) act on
// their operands reduced modulo 2^32; a 32-bit word is kept here as the
// integer in [0, 2^32) with the same bits, and each operator is written out
// on those integers.

module LilGuy {
  import opened JsString
  import opened JsNumber

  function Pow2(n: nat): (r: nat)
    ensures r >= 1
  {
    if n == 0 then 1 else 2 * Pow2(n - 1)
  }

  lemma {:induction false} Pow2Add(m: nat, n: nat)
    ensures Pow2(m + n) == Pow2(m) * Pow2(n)
    decreases m
  {
    if m > 0 {
      Pow2Add(m - 1, n);
      calc {
        Pow2(m + n);
        2 * Pow2(m - 1 + n);
        2 * (Pow2(m - 1) * Pow2(n));
        (2 * Pow2(m - 1)) * Pow2(n);
      }
    }
  }

  lemma Pow2Of32()
    ensures Pow2(32) == 0x1_0000_0000
  {
    assert Pow2(2) == 4;
    Pow2Add(2, 2);
    Pow2Add(4, 4);
    assert Pow2(8) == 256;
    Pow2Add(8, 8);
    assert Pow2(16) == 65536;
    Pow2Add(16, 16);
  }

  /** A 32-bit word as an unsigned integer. */
  type Word = x: int | 0 <= x < 0x1_0000_0000

  /** The low `n` bits of `a ^ b`. */
  function XorBits(a: nat, b: nat, n: nat): (r: nat)
    ensures r < Pow2(n)
  {
    if n == 0 then 0 else (if a % 2 == b % 2 then 0 else 1) + 2 * XorBits(a / 2, b / 2, n - 1)
  }

  /** The low `n` bits of `a | b`. */
  function OrBits(a: nat, b: nat, n: nat): (r: nat)
    ensures r < Pow2(n)
  {
    if n == 0 then 0 else (if a % 2 == 1 || b % 2 == 1 then 1 else 0) + 2 * OrBits(a / 2, b / 2, n - 1)
  }

  /** `a ^ b` on 32-bit words. */
  function Xor(a: Word, b: Word): Word {
    Pow2Of32();
    XorBits(a, b, 32)
  }

  /** `x ^ b ^ b` restores the low `n` bits of `x`. */
  lemma {:induction false} XorBitsTwice(a: nat, b: nat, n: nat)
    ensures XorBits(XorBits(a, b, n), b, n) == a % Pow2(n)
    decreases n
  {
    if n > 0 {
      var x := XorBits(a, b, n);
      XorBitsParts(a, b, n);
      assert XorBits(x, b, n) == (if x % 2 == b % 2 then 0 else 1) + 2 * XorBits(x / 2, b / 2, n - 1);
      XorBitsTwice(a / 2, b / 2, n - 1);
      LowBitsSplit(a, n);
    }
  }

  /** The low bit of `XorBits` and the bits above it. */
  lemma XorBitsParts(a: nat, b: nat, n: nat)
    requires n > 0
    ensures var x := XorBits(a, b, n);
      (x % 2 == 0 <==> a % 2 == b % 2) && x / 2 == XorBits(a / 2, b / 2, n - 1)
  {
    HalfParts(if a % 2 == b % 2 then 0 else 1, XorBits(a / 2, b / 2, n - 1));
  }

  lemma HalfParts(bit: int, rest: int)
    requires 0 <= bit < 2
    ensures (bit + 2 * rest) % 2 == bit && (bit + 2 * rest) / 2 == rest
  {
  }

  /** Xor with the same word twice is the identity: every xor the hash and the
      generator apply can be undone, so it loses no bits. */
  lemma XorTwice(a: Word, b: Word)
    ensures Xor(Xor(a, b), b) == a
  {
    Pow2Of32();
    XorBitsTwice(a, b, 32);
  }

  /** Xor is symmetric. */
  lemma {:induction false} XorBitsSymmetric(a: nat, b: nat, n: nat)
    ensures XorBits(a, b, n) == XorBits(b, a, n)
    decreases n
  {
    if n > 0 {
      XorBitsSymmetric(a / 2, b / 2, n - 1);
    }
  }

  /** `a | b` on 32-bit words. */
  function Or(a: Word, b: Word): Word {
    Pow2Of32();
    OrBits(a, b, 32)
  }

  /** `a >>> n`: the logical right shift. */
  function Shr(a: Word, n: nat): (r: Word)
    ensures r <= a
  {
    var d := Pow2(n);
    DivNoLarger(a, d);
    a / d
  }

  lemma DivNoLarger(a: nat, d: nat)
    requires d >= 1
    ensures 0 <= a / d <= a
  {
  }

  /** The low 32 bits of `x` times the low `n` bits of `y`, by shift and add. */
  function MulBits(x: nat, y: nat, n: nat): (r: nat)
    ensures r < 0x1_0000_0000
  {
    if n == 0 then 0 else ((if y % 2 == 1 then x else 0) + 2 * MulBits(x, y / 2, n - 1)) % 0x1_0000_0000
  }

  /** `Math.imul`: the low 32 bits of the product. */
  function Imul(x: Word, y: Word): Word {
    MulBits(x, y, 32)
  }

  /** Shift and add computes the low 32 bits of `x` times the low `n` bits of `y`. */
  lemma {:induction false} MulBitsIsProduct(x: nat, y: nat, n: nat)
    ensures MulBits(x, y, n) == (x * (y % Pow2(n))) % 0x1_0000_0000
    decreases n
  {
    if n > 0 {
      var low := (y / 2) % Pow2(n - 1);
      MulBitsIsProduct(x, y / 2, n - 1);
      LowBitsSplit(y, n);
      ShiftAddStep(x, y % 2, low);
    }
  }

  /** One step of shift and add, on the low 32 bits of the partial product. */
  lemma ShiftAddStep(x: int, b: int, low: int)
    requires b == 0 || b == 1
    ensures ((if b == 1 then x else 0) + 2 * ((x * low) % 0x1_0000_0000)) % 0x1_0000_0000
            == (x * (b + 2 * low)) % 0x1_0000_0000
  {
    var c := x * low;
    ModTwice(if b == 1 then x else 0, c);
    assert (if b == 1 then x else 0) + 2 * c == x * (b + 2 * low);
  }

  /** Reducing the doubled term first does not change the sum's low 32 bits. */
  lemma ModTwice(a: int, c: int)
    ensures (a + 2 * (c % 0x1_0000_0000)) % 0x1_0000_0000 == (a + 2 * c) % 0x1_0000_0000
  {
    var m, z := 0x1_0000_0000, a + 2 * c;
    assert c == (c / m) * m + c % m;
    assert z == (z / m) * m + z % m;
    ModUnique(a + 2 * (c % m), m, z / m - 2 * (c / m), z % m);
  }

  /** The low `n` bits of `y` are its lowest bit plus twice the low `n - 1` bits of `y / 2`. */
  lemma LowBitsSplit(y: nat, n: nat)
    requires n > 0
    ensures y % Pow2(n) == y % 2 + 2 * ((y / 2) % Pow2(n - 1))
  {
    var p := Pow2(n - 1);
    var q, r := (y / 2) / p, (y / 2) % p;
    assert y / 2 == q * p + r;
    assert y == q * (2 * p) + (y % 2 + 2 * r);
    ModUnique(y, 2 * p, q, y % 2 + 2 * r);
  }

  /** The remainder is the only one below the divisor. */
  lemma ModUnique(y: int, d: int, q: int, r: int)
    requires d > 0 && 0 <= r < d && y == q * d + r
    ensures y % d == r
  {
    var q' := y / d;
    assert y == q' * d + y % d;
    if q > q' {
      assert q * d == q' * d + (q - q') * d;
      MulAtLeast(q - q', d);
    } else if q < q' {
      assert q' * d == q * d + (q' - q) * d;
      MulAtLeast(q' - q, d);
    }
  }

  lemma MulAtLeast(k: int, d: int)
    requires k >= 1 && d > 0
    ensures k * d >= d
  {
    assert k * d == d + (k - 1) * d;
  }

  /** `Math.imul` is the low 32 bits of the product. */
  lemma ImulIsProduct(x: Word, y: Word)
    ensures Imul(x, y) == (x * y) % 0x1_0000_0000
  {
    Pow2Of32();
    MulBitsIsProduct(x, y, 32);
    var m := Pow2(32);
    assert y % m == y;
  }

  /** The low 32 bits of a sum, as `^` reads an integer sum. */
  function Add(x: Word, y: Word): Word {
    (x + y) % 0x1_0000_0000
  }

  // ---------------------------------------------------------------------------
  // cyrb128
  // ---------------------------------------------------------------------------

  const M1: Word := 597399067
  const M2: Word := 2869860233
  const M3: Word := 951274213
  const M4: Word := 2716044179

  datatype HashState = HashState(h1: Word, h2: Word, h3: Word, h4: Word)

  const Init := HashState(1779033703, 3144134277, 1013904242, 2773480762)

  /** One loop iteration on code unit `k`. The four words are updated one after
      the other: `h4` is computed from the `h1` of this same iteration. */
  function Round(st: HashState, w: Word): HashState {
    var h1 := Xor(st.h2, Imul(Xor(st.h1, w), M1));
    var h2 := Xor(st.h3, Imul(Xor(st.h2, w), M2));
    var h3 := Xor(st.h4, Imul(Xor(st.h3, w), M3));
    var h4 := Xor(h1, Imul(Xor(st.h4, w), M4));
    HashState(h1, h2, h3, h4)
  }

  /** The loop over the code units, first to last. */
  function Absorb(st: HashState, units: seq<Word>): HashState
    decreases |units|
  {
    if units == [] then st else Absorb(Round(st, units[0]), units[1..])
  }

  /** The final mix after the loop; `h3` uses the new `h1` and `h4` the new `h2`. */
  function Finish(st: HashState): Word {
    var h1 := Imul(Xor(st.h3, Shr(st.h1, 18)), M1);
    var h2 := Imul(Xor(st.h4, Shr(st.h2, 22)), M2);
    var h3 := Imul(Xor(h1, Shr(st.h3, 17)), M3);
    var h4 := Imul(Xor(h2, Shr(st.h4, 19)), M4);
    Xor(Xor(Xor(h1, h2), h3), h4)
  }

  /** `charCodeAt` over the whole string: its UTF-16 code units as words. */
  function CharCodes(s: string): (r: seq<Word>)
    ensures |r| == |Utf16(s)|
  {
    var u := Utf16(s);
    seq(|u|, i requires 0 <= i < |u| => u[i] as Word)
  }

  /** cyrb128 of a string. */
  function Cyrb128Of(s: string): Word {
    Finish(Absorb(Init, CharCodes(s)))
  }

  /** Absorbing two pieces one after the other is absorbing their concatenation:
      every code unit is consumed once, in order. */
  lemma {:induction false} AbsorbConcat(st: HashState, a: seq<Word>, b: seq<Word>)
    ensures Absorb(st, a + b) == Absorb(Absorb(st, a), b)
    decreases |a|
  {
    if a == [] {
      assert a + b == b;
    } else {
      assert (a + b)[0] == a[0];
      assert (a + b)[1..] == a[1..] + b;
      AbsorbConcat(Round(st, a[0]), a[1..], b);
    }
  }

  /** Absorbing one more code unit is one more round. */
  lemma AbsorbSnoc(st: HashState, units: seq<Word>, k: Word)
    ensures Absorb(st, units + [k]) == Round(Absorb(st, units), k)
  {
    AbsorbConcat(st, units, [k]);
  }

  /** The hash's loop with its four mutable words. */
  method Cyrb128(s: string) returns (h: Word)
    ensures h == Cyrb128Of(s)
  {
    var units := CharCodes(s);
    var h1, h2, h3, h4 := Init.h1, Init.h2, Init.h3, Init.h4;
    var i := 0;
    while i < |units|
      invariant 0 <= i <= |units|
      invariant Absorb(HashState(h1, h2, h3, h4), units[i..]) == Absorb(Init, units)
    {
      var k := units[i];
      h1 := Xor(h2, Imul(Xor(h1, k), M1));
      h2 := Xor(h3, Imul(Xor(h2, k), M2));
      h3 := Xor(h4, Imul(Xor(h3, k), M3));
      h4 := Xor(h1, Imul(Xor(h4, k), M4));
      assert units[i..][1..] == units[i + 1..];
      i := i + 1;
    }
    assert units[i..] == [];
    h1 := Imul(Xor(h3, Shr(h1, 18)), M1);
    h2 := Imul(Xor(h4, Shr(h2, 22)), M2);
    h3 := Imul(Xor(h1, Shr(h3, 17)), M3);
    h4 := Imul(Xor(h2, Shr(h4, 19)), M4);
    h := Xor(Xor(Xor(h1, h2), h3), h4);
  }

  // ---------------------------------------------------------------------------
  // mulberry32
  // ---------------------------------------------------------------------------

  const Step := 0x6D2B79F5

  /** The output scramble of one draw, on the already advanced state. */
  function Mix(t0: Word): Word {
    var t1 := Imul(Xor(t0, Shr(t0, 15)), Or(t0, 1));
    var t2 := Xor(t1, Add(t1, Imul(Xor(t1, Shr(t1, 7)), Or(t1, 61))));
    Xor(t2, Shr(t2, 14))
  }

  /** A 32-bit word divided by 2^32. */
  function Unit(w: Word): (u: real)
    ensures 0.0 <= u < 1.0
  {
    w as real / 4294967296.0
  }

  /** The draw the generator returns once its state has become `a`. */
  function Draw(a: Word): (u: real)
    ensures 0.0 <= u < 1.0
  {
    Unit(Mix(a))
  }

  /** The low 32 bits of the generator's state after `k` calls, from `seed`. */
  function StateAt(seed: Word, k: nat): Word {
    if k == 0 then seed else Add(StateAt(seed, k - 1), Step)
  }

  /** The state after `k` calls is the seed plus `k` steps, reduced modulo 2^32:
      the JavaScript state grows without wrapping, and only its low 32 bits
      reach the scramble. */
  lemma {:induction false} StateAtIsSum(seed: Word, k: nat)
    ensures StateAt(seed, k) == (seed + k * Step) % 0x1_0000_0000
  {
    if k > 0 {
      StateAtIsSum(seed, k - 1);
      var s := seed + (k - 1) * Step;
      assert seed + k * Step == s + Step;
      ModAddLeft(s, Step);
    }
  }

  lemma ModAddLeft(s: int, d: int)
    ensures (s % 0x1_0000_0000 + d) % 0x1_0000_0000 == (s + d) % 0x1_0000_0000
  {
    var m, z := 0x1_0000_0000, s + d;
    assert s == (s / m) * m + s % m;
    assert z == (z / m) * m + z % m;
    ModUnique(s % m + d, m, z / m - s / m, z % m);
  }

  /** The generator returned by `mulberry32(seed)`: the low 32 bits of its
      closure's state `a`. */
  class Mulberry32 {
    var a: Word

    constructor(seed: Word)
      ensures a == seed
    {
      a := seed;
    }

    /** One call: advance the state by `Step`, then scramble it into [0, 1). */
    method Next() returns (r: real)
      modifies this
      ensures a == Add(old(a), Step) && r == Draw(a)
    {
      a := Add(a, Step);
      var t := a;
      t := Imul(Xor(t, Shr(t, 15)), Or(t, 1));
      t := Xor(t, Add(t, Imul(Xor(t, Shr(t, 7)), Or(t, 61))));
      r := Unit(Xor(t, Shr(t, 14)));
    }
  }

  // ---------------------------------------------------------------------------
  // Traits
  // ---------------------------------------------------------------------------

  const SkinTones: seq<string> := ["#FFCCAA", "#F5C6A5", "#E2B08E", "#C68642", "#8D5524"]

  const HairColors: seq<string> := [
    "#090806", "#2C222B", "#71635A", "#B7A69E", "#D6C4C2",
    "#CABFB1", "#DCD0BA", "#FFF5E1", "#E6CEA8", "#E5C8A8",
    "#DEBC99", "#B89778", "#A56B46", "#B55239", "#8D4A43",
    "#91553D", "#533D32", "#3B3024", "#554838", "#4E433F",
    "#504444", "#6A4E42", "#A7856A", "#977961"]

  /** The avatar's looks. `skinTone` and `hairColor` are the indices drawn into
      `SkinTones` and `HairColors`; the shirt colour is an HSL triple. */
  datatype Traits = Traits(skinTone: nat, shirtHue: nat, shirtSaturation: real, shirtLightness: real,
                           hairColor: nat, hairStyle: nat, hasGlasses: bool, hasBeard: bool)

  /** The traits from eight draws taken in source order: skin tone, shirt hue,
      saturation and lightness, hair colour, hair style, glasses, beard. Every
      index lies inside its palette. */
  function TraitsFromDraws(u0: real, u1: real, u2: real, u3: real, u4: real, u5: real, u6: real, u7: real): (t: Traits)
    requires 0.0 <= u0 < 1.0 && 0.0 <= u1 < 1.0 && 0.0 <= u2 < 1.0 && 0.0 <= u3 < 1.0
    requires 0.0 <= u4 < 1.0 && 0.0 <= u5 < 1.0
    ensures t.skinTone < |SkinTones| && t.hairColor < |HairColors|
    ensures t.shirtHue < 360 && t.hairStyle < 3
    ensures 60.0 <= t.shirtSaturation < 80.0 && 40.0 <= t.shirtLightness < 80.0
    ensures t.hasGlasses <==> u6 > 0.7
    ensures t.hasBeard <==> u7 > 0.8
  {
    Traits(PickIndex(u0, 5), PickIndex(u1, 360), 60.0 + u2 * 20.0, 40.0 + u3 * 40.0,
           PickIndex(u4, 24), PickIndex(u5, 3), u6 > 0.7, u7 > 0.8)
  }

  /** The traits a generator seeded with `s` gives: the first eight draws, in order. */
  function TraitsFromSeed(s: Word): Traits {
    TraitsFromDraws(Draw(StateAt(s, 1)), Draw(StateAt(s, 2)), Draw(StateAt(s, 3)), Draw(StateAt(s, 4)),
                    Draw(StateAt(s, 5)), Draw(StateAt(s, 6)), Draw(StateAt(s, 7)), Draw(StateAt(s, 8)))
  }

  /** The traits of the avatar drawn for `seed`. */
  function TraitsOf(seed: string): Traits {
    TraitsFromSeed(Cyrb128Of(seed))
  }

  /** Eight calls of a generator seeded with `seedNum`, in the order the
      `useMemo` body makes them: call `k` returns the draw after `k` steps. */
  method DrawEight(seedNum: Word) returns (u0: real, u1: real, u2: real, u3: real,
                                           u4: real, u5: real, u6: real, u7: real)
    ensures u0 == Draw(StateAt(seedNum, 1)) && u1 == Draw(StateAt(seedNum, 2))
    ensures u2 == Draw(StateAt(seedNum, 3)) && u3 == Draw(StateAt(seedNum, 4))
    ensures u4 == Draw(StateAt(seedNum, 5)) && u5 == Draw(StateAt(seedNum, 6))
    ensures u6 == Draw(StateAt(seedNum, 7)) && u7 == Draw(StateAt(seedNum, 8))
  {
    var rand := new Mulberry32(seedNum);
    u0 := rand.Next();
    u1 := rand.Next();
    u2 := rand.Next();
    u3 := rand.Next();
    u4 := rand.Next();
    u5 := rand.Next();
    u6 := rand.Next();
    u7 := rand.Next();
  }

  /** The `useMemo` body: hash the seed, draw eight values from a generator
      seeded with the hash, and pick the traits from them. */
  method DeriveTraits(seed: string) returns (t: Traits)
    ensures t == TraitsOf(seed)
  {
    var seedNum := Cyrb128(seed);
    var u0, u1, u2, u3, u4, u5, u6, u7 := DrawEight(seedNum);
    t := TraitsFromDraws(u0, u1, u2, u3, u4, u5, u6, u7);
  }
}
