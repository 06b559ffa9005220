/**
 * The bit packing behind `hash_location` and `decode_hash`: a list of bits is cut into groups of
 * `base_bits`, each group read as a binary number and written as one character of the Geohash
 * alphabet, and back. The float bisection that produces the bits from a point is not modelled.
 */
module SpatialGeohash {
  import opened Wrappers

  /** The source's bits are the integers 0 and 1. */
  type Bit = b: nat | b < 2

  const GeohashChars: string := "0123456789bcdefghjkmnpqrstuvwxyz"

  const IndexError: string := "IndexError: string index out of range"
  const KeyError: string := "KeyError"
  const NotPowerOfTwo: string := "ValueError: Base is not a power of 2"

  function Pow2(n: nat): (r: nat)
    ensures r >= 1
  {
    if n == 0 then 1 else 2 * Pow2(n - 1)
  }

  // ---------------------------------------------------------------------------
  // The alphabet and `GEOHASH_CHAR_VALUES`
  // ---------------------------------------------------------------------------

  /** `GEOHASH_CHAR_VALUES.get(c)`: the position of `c` in the alphabet, which skips a, i, l and o. */
  function CharValue(c: char): (r: Option<nat>)
    ensures r.Some? ==> r.value < 32
  {
    if '0' <= c <= '9' then Some(c as nat - '0' as nat)
    else if 'b' <= c <= 'h' then Some(c as nat - 'b' as nat + 10)
    else if c == 'j' || c == 'k' then Some(c as nat - 'j' as nat + 17)
    else if c == 'm' || c == 'n' then Some(c as nat - 'm' as nat + 19)
    else if 'p' <= c <= 'z' then Some(c as nat - 'p' as nat + 21)
    else None
  }

  lemma AlphabetSize()
    ensures |GeohashChars| == 32
  {
  }

  /** The value of the character at position `v` of the alphabet is `v`. */
  lemma CharValueOfAlphabet(v: nat)
    requires v < 32
    ensures CharValue(GeohashChars[v]) == Some(v)
  {
    if v < 10 {
    } else if v < 17 {
    } else if v < 19 {
    } else if v < 21 {
    } else {
    }
  }

  /** A character has a value exactly when it is in the alphabet, at that position. */
  lemma AlphabetOfCharValue(c: char)
    ensures CharValue(c).Some? <==> c in GeohashChars
    ensures CharValue(c).Some? ==> GeohashChars[CharValue(c).value] == c
  {
    if c in GeohashChars {
      var k :| 0 <= k < |GeohashChars| && GeohashChars[k] == c;
      CharValueOfAlphabet(k);
    }
  }

  // ---------------------------------------------------------------------------
  // `bits_to_chars`
  // ---------------------------------------------------------------------------

  /** `char = (char << 1) | bit` over a group, most significant bit first. */
  function GroupValue(g: seq<Bit>): (r: nat)
    ensures r < Pow2(|g|)
  {
    if g == [] then 0 else 2 * GroupValue(g[..|g| - 1]) + g[|g| - 1]
  }

  /** What `bits_to_chars(bits, base_bits)` returns: one character per full group, a partial group dropped. */
  function CharsOf(bits: seq<Bit>, baseBits: nat): (r: Result<string>)
    requires baseBits >= 1
    decreases |bits|
  {
    if |bits| < baseBits then Ok([])
    else
      var v := GroupValue(bits[..baseBits]);
      if v >= |GeohashChars| then Err(IndexError)
      else Prepend([GeohashChars[v]], CharsOf(bits[baseBits..], baseBits))
  }

  method BitsToChars(bits: seq<Bit>, baseBits: nat) returns (r: Result<string>)
    requires baseBits >= 1
    ensures r == CharsOf(bits, baseBits)
  {
    var result: string := [];
    var i := 0;
    assert bits[i..] == bits;
    PrependEmpty(CharsOf(bits, baseBits));
    while i + baseBits <= |bits|
      invariant i <= |bits|
      invariant CharsOf(bits, baseBits) == Prepend(result, CharsOf(bits[i..], baseBits))
      decreases |bits| - i
    {
      var value := ReadGroup(bits, i, baseBits);
      assert bits[i..][..baseBits] == bits[i..i + baseBits];
      if value >= |GeohashChars| {
        return Err(IndexError);
      }
      assert bits[i..][baseBits..] == bits[i + baseBits..];
      PrependAppend(result, [GeohashChars[value]], CharsOf(bits[i + baseBits..], baseBits));
      result := result + [GeohashChars[value]];
      i := i + baseBits;
    }
    assert CharsOf(bits[i..], baseBits) == Ok([]);
    assert result + [] == result;
    return Ok(result);
  }

  /** The inner loop of `bits_to_chars`: the value of the group of `baseBits` bits starting at `i`. */
  method ReadGroup(bits: seq<Bit>, i: nat, baseBits: nat) returns (value: nat)
    requires i + baseBits <= |bits|
    ensures value == GroupValue(bits[i..i + baseBits])
  {
    value := 0;
    for j := 0 to baseBits
      invariant value == GroupValue(bits[i..i + j])
    {
      assert bits[i..i + j + 1][..j] == bits[i..i + j];
      value := value * 2 + bits[i + j];
    }
  }

  /** With at most five bits per group every group names a character, and the length is `len(bits) // base_bits`. */
  lemma {:induction false} CharsOfLength(bits: seq<Bit>, baseBits: nat)
    requires 1 <= baseBits <= 5
    ensures CharsOf(bits, baseBits).Ok?
    ensures |CharsOf(bits, baseBits).value| == |bits| / baseBits
    decreases |bits|
  {
    if |bits| >= baseBits {
      PowMonotone(baseBits, 5);
      CharsOfLength(bits[baseBits..], baseBits);
      assert |bits[baseBits..]| / baseBits + 1 == |bits| / baseBits by {
        DivStep(|bits|, baseBits);
      }
    }
  }

  /** A group wider than five bits can name no character of the alphabet. */
  lemma WideGroupFails(bits: seq<Bit>, baseBits: nat)
    requires baseBits >= 6 && |bits| >= baseBits && forall k :: 0 <= k < baseBits ==> bits[k] == 1
    ensures CharsOf(bits, baseBits) == Err(IndexError)
  {
    AllOnes(bits[..baseBits]);
    PowMonotone(6, baseBits);
  }

  lemma {:induction false} AllOnes(g: seq<Bit>)
    requires forall k :: 0 <= k < |g| ==> g[k] == 1
    ensures GroupValue(g) + 1 == Pow2(|g|)
    decreases |g|
  {
    if g != [] {
      AllOnes(g[..|g| - 1]);
    }
  }

  lemma {:induction false} PowMonotone(m: nat, n: nat)
    requires m <= n
    ensures Pow2(m) <= Pow2(n)
    decreases n
  {
    if m < n {
      PowMonotone(m, n - 1);
    }
  }

  lemma DivStep(n: nat, d: nat)
    requires 1 <= d <= n
    ensures (n - d) / d + 1 == n / d
  {
    var q := (n - d) / d;
    var r := (n - d) % d;
    assert n - d == d * q + r;
    assert n == d * (q + 1) + r;
    DivModUnique(n, d, q + 1, r);
  }

  lemma {:induction false} MulAtLeast(d: int, k: int)
    requires d >= 1 && k >= 1
    ensures d * k >= d
    decreases k
  {
    if k > 1 {
      MulAtLeast(d, k - 1);
      assert d * k == d * (k - 1) + d;
    }
  }

  lemma MulAtMost(d: int, k: int)
    requires d >= 1 && k <= -1
    ensures d * k <= -d
  {
    MulAtLeast(d, -k);
    assert d * k == -(d * -k);
  }

  lemma MulZero(d: int, k: int)
    requires d >= 1 && -d < d * k < d
    ensures k == 0
  {
    if k >= 1 {
      MulAtLeast(d, k);
    } else if k <= -1 {
      MulAtMost(d, k);
    }
  }

  /** Quotient and remainder are the only ones with `v == d * a + x` and `0 <= x < d`. */
  lemma DivModUnique(v: int, d: int, a: int, x: int)
    requires d >= 1 && 0 <= x < d && v == d * a + x
    ensures v / d == a && v % d == x
  {
    var q := v / d;
    var r := v % d;
    assert v == d * q + r;
    assert d * (q - a) == x - r;
    MulZero(d, q - a);
  }

  // ---------------------------------------------------------------------------
  // `chars_to_bits`
  // ---------------------------------------------------------------------------

  /** `(v >> i) & 1` for `i` in `reversed(range(n))`: the low `n` bits of `v`, most significant first. */
  function ToBits(v: nat, n: nat): (r: seq<Bit>)
    ensures |r| == n
  {
    if n == 0 then [] else ToBits(v / 2, n - 1) + [v % 2]
  }

  /** What `list(chars_to_bits(chars, base_bits))` yields; a character outside the alphabet is a `KeyError`. */
  function BitsOf(chars: string, baseBits: nat): (r: Result<seq<Bit>>)
    ensures r.Ok? ==> |r.value| == |chars| * baseBits
  {
    if chars == [] then Ok([])
    else match CharValue(chars[0])
      case None => Err(KeyError)
      case Some(v) => Prepend(ToBits(v, baseBits), BitsOf(chars[1..], baseBits))
  }

  lemma {:induction false} BitsOfFails(chars: string, baseBits: nat)
    ensures BitsOf(chars, baseBits).Err? <==> exists k :: 0 <= k < |chars| && CharValue(chars[k]).None?
    decreases |chars|
  {
    if chars != [] {
      BitsOfFails(chars[1..], baseBits);
      if CharValue(chars[0]).Some? && exists k :: 0 <= k < |chars| && CharValue(chars[k]).None? {
        var k :| 0 <= k < |chars| && CharValue(chars[k]).None?;
        assert chars[1..][k - 1] == chars[k];
      }
    }
  }

  /** Reading the bits back gives the low `n` bits of the value. */
  lemma {:induction false} GroupValueOfBits(v: nat, n: nat)
    ensures GroupValue(ToBits(v, n)) == v % Pow2(n)
    decreases n
  {
    if n > 0 {
      var b := ToBits(v, n);
      assert b[..n - 1] == ToBits(v / 2, n - 1);
      GroupValueOfBits(v / 2, n - 1);
      ModDouble(v, Pow2(n - 1));
    }
  }

  lemma ModDouble(v: nat, p: nat)
    requires p >= 1
    ensures 2 * ((v / 2) % p) + v % 2 == v % (2 * p)
  {
    var a := (v / 2) / p;
    var b := (v / 2) % p;
    assert v == (2 * p) * a + (2 * b + v % 2);
    DivModUnique(v, 2 * p, a, 2 * b + v % 2);
  }

  /** Writing a group's value back out gives the group. */
  lemma {:induction false} BitsOfGroupValue(g: seq<Bit>)
    ensures ToBits(GroupValue(g), |g|) == g
    decreases |g|
  {
    if g != [] {
      var n := |g|;
      BitsOfGroupValue(g[..n - 1]);
      assert GroupValue(g) / 2 == GroupValue(g[..n - 1]);
      assert g == g[..n - 1] + [g[n - 1]];
    }
  }

  // ---------------------------------------------------------------------------
  // Round trips
  // ---------------------------------------------------------------------------

  /** One group of at most five bits survives the trip through a character. */
  lemma GroupRoundTrip(g: seq<Bit>)
    requires 1 <= |g| <= 5
    ensures GroupValue(g) < |GeohashChars|
    ensures CharValue(GeohashChars[GroupValue(g)]) == Some(GroupValue(g))
    ensures ToBits(GroupValue(g), |g|) == g
  {
    PowMonotone(|g|, 5);
    CharValueOfAlphabet(GroupValue(g));
    BitsOfGroupValue(g);
  }

  lemma BitsOfCons(c: char, rest: string, baseBits: nat)
    requires CharValue(c).Some?
    ensures BitsOf([c] + rest, baseBits) == Prepend(ToBits(CharValue(c).value, baseBits), BitsOf(rest, baseBits))
  {
    assert ([c] + rest)[1..] == rest;
  }

  lemma WholeGroupsStep(n: nat, d: nat)
    requires 1 <= d <= n
    ensures (n - d) / d * d + d == n / d * d <= n
  {
    DivStep(n, d);
    assert n / d * d == ((n - d) / d + 1) * d;
    assert n == d * (n / d) + n % d;
  }

  /** Decoding an encoding gives the bits back, without the dropped partial group. */
  lemma {:induction false} BitsOfCharsOf(bits: seq<Bit>, baseBits: nat)
    requires 1 <= baseBits <= 5
    ensures CharsOf(bits, baseBits).Ok?
    ensures BitsOf(CharsOf(bits, baseBits).value, baseBits) == Ok(bits[..|bits| / baseBits * baseBits])
    decreases |bits|
  {
    CharsOfLength(bits, baseBits);
    if |bits| < baseBits {
      DivModUnique(|bits|, baseBits, 0, |bits|);
    } else {
      var g := bits[..baseBits];
      GroupRoundTrip(g);
      var c := GeohashChars[GroupValue(g)];
      var rest := CharsOf(bits[baseBits..], baseBits);
      BitsOfCharsOf(bits[baseBits..], baseBits);
      assert CharsOf(bits, baseBits).value == [c] + rest.value;
      BitsOfCons(c, rest.value, baseBits);
      WholeGroupsStep(|bits|, baseBits);
      PrefixOfRest(bits, baseBits, |bits| / baseBits * baseBits);
    }
  }

  lemma PrefixOfRest(bits: seq<Bit>, b: nat, m: nat)
    requires b <= m <= |bits|
    ensures bits[..m] == bits[..b] + bits[b..][..m - b]
  {
  }

  lemma CharsOfCons(g: seq<Bit>, rest: seq<Bit>, baseBits: nat)
    requires |g| == baseBits >= 1 && GroupValue(g) < |GeohashChars|
    ensures CharsOf(g + rest, baseBits) == Prepend([GeohashChars[GroupValue(g)]], CharsOf(rest, baseBits))
  {
    assert (g + rest)[..baseBits] == g && (g + rest)[baseBits..] == rest;
  }

  /** A character whose value fits in `base_bits` bits survives the trip through its bits. */
  lemma CharRoundTrip(c: char, baseBits: nat)
    requires 1 <= baseBits <= 5 && CharValue(c).Some? && CharValue(c).value < Pow2(baseBits)
    ensures GroupValue(ToBits(CharValue(c).value, baseBits)) == CharValue(c).value
    ensures GeohashChars[CharValue(c).value] == c
  {
    GroupValueOfBits(CharValue(c).value, baseBits);
    DivModUnique(CharValue(c).value, Pow2(baseBits), 0, CharValue(c).value);
    AlphabetOfCharValue(c);
  }

  /** Encoding a decoding gives the string back, when every character fits in `base_bits` bits. */
  lemma {:induction false} CharsOfBitsOf(chars: string, baseBits: nat)
    requires 1 <= baseBits <= 5
    requires forall k :: 0 <= k < |chars| ==> CharValue(chars[k]).Some? && CharValue(chars[k]).value < Pow2(baseBits)
    ensures BitsOf(chars, baseBits).Ok?
    ensures CharsOf(BitsOf(chars, baseBits).value, baseBits) == Ok(chars)
    decreases |chars|
  {
    if chars != [] {
      var v := CharValue(chars[0]).value;
      var g := ToBits(v, baseBits);
      CharsOfBitsOf(chars[1..], baseBits);
      var rest := BitsOf(chars[1..], baseBits).value;
      assert BitsOf(chars, baseBits) == Ok(g + rest);
      CharRoundTrip(chars[0], baseBits);
      CharsOfCons(g, rest, baseBits);
      assert [chars[0]] + chars[1..] == chars;
    }
  }

  /** For Geohash proper (`base_bits = 5`) the two are inverse on whole groups and on Geohash strings. */
  lemma GeohashRoundTrips(bits: seq<Bit>, chars: string)
    requires |bits| % 5 == 0
    requires forall k :: 0 <= k < |chars| ==> chars[k] in GeohashChars
    ensures CharsOf(bits, 5).Ok? && BitsOf(CharsOf(bits, 5).value, 5) == Ok(bits)
    ensures BitsOf(chars, 5).Ok? && CharsOf(BitsOf(chars, 5).value, 5) == Ok(chars)
  {
    BitsOfCharsOf(bits, 5);
    assert bits[..|bits| / 5 * 5] == bits;
    forall k | 0 <= k < |chars|
      ensures CharValue(chars[k]).Some? && CharValue(chars[k]).value < Pow2(5)
    {
      AlphabetOfCharValue(chars[k]);
    }
    CharsOfBitsOf(chars, 5);
  }

  // ---------------------------------------------------------------------------
  // The base check of `hash_location` and `decode_hash`
  // ---------------------------------------------------------------------------

  /** `n.bit_length()` for `n >= 0`. */
  function BitLength(n: nat): (r: nat)
  {
    if n == 0 then 0 else 1 + BitLength(n / 2)
  }

  lemma {:induction false} BitLengthBounds(n: nat)
    requires n >= 1
    ensures Pow2(BitLength(n) - 1) <= n < Pow2(BitLength(n))
  {
    if n >= 2 {
      BitLengthBounds(n / 2);
    }
  }

  /**
   * `base_bits = base.bit_length() - 1`, then `ValueError` unless `2 ** base_bits == base`. For `base = 0`
   * the power is `2 ** -1 = 0.5`, never equal; `bit_length` of a negative number is that of its absolute
   * value, so negative bases fail too.
   */
  function BaseBits(base: int): (r: Result<nat>)
    ensures r.Ok? ==> Pow2(r.value) == base
  {
    var len := BitLength(if base < 0 then -base else base);
    if len == 0 || Pow2(len - 1) != base then Err(NotPowerOfTwo) else Ok(len - 1)
  }

  lemma BitLengthOfPower(k: nat)
    ensures BitLength(Pow2(k)) == k + 1
  {
    if k > 0 {
      assert Pow2(k) / 2 == Pow2(k - 1);
      BitLengthOfPower(k - 1);
    }
  }

  /** Every power of two passes the check, with its exponent. */
  lemma BaseBitsOfPower(k: nat)
    ensures BaseBits(Pow2(k)) == Ok(k)
  {
    BitLengthOfPower(k);
  }

  /** As written, `base = 1` passes the check with `base_bits = 0`. */
  lemma BaseOnePasses()
    ensures BaseBits(1) == Ok(0)
  {
    assert Pow2(0) == 1;
    BaseBitsOfPower(0);
  }

  /**
   * The position reached by the `while i + base_bits <= len(bits)` loop of `bits_to_chars` within
   * `fuel` iterations, or `None` if it is still running.
   */
  function LoopExit(bits: seq<Bit>, baseBits: nat, i: nat, fuel: nat): Option<nat>
    decreases fuel
  {
    if i + baseBits > |bits| then Some(i)
    else if fuel == 0 then None
    else LoopExit(bits, baseBits, i + baseBits, fuel - 1)
  }

  /** With `base_bits = 0` the loop never advances: no number of iterations ends it. */
  lemma {:induction false} ZeroBaseBitsNeverExits(bits: seq<Bit>, i: nat, fuel: nat)
    requires i <= |bits|
    ensures LoopExit(bits, 0, i, fuel) == None
    decreases fuel
  {
    if fuel > 0 {
      ZeroBaseBitsNeverExits(bits, i, fuel - 1);
    }
  }

  /** With `base_bits >= 1` the loop ends within `len(bits) + 1` iterations. */
  lemma {:induction false} PositiveBaseBitsExits(bits: seq<Bit>, baseBits: nat, i: nat, fuel: nat)
    requires baseBits >= 1 && i + fuel >= |bits|
    ensures LoopExit(bits, baseBits, i, fuel).Some?
    decreases fuel
  {
    if i + baseBits <= |bits| && fuel > 0 {
      PositiveBaseBitsExits(bits, baseBits, i + baseBits, fuel - 1);
    }
  }

  /** The check as evidently intended: a base with fewer than one bit per character is refused too. */
  function CheckedBaseBits(base: int): (r: Result<nat>)
    ensures r.Ok? ==> r.value >= 1 && Pow2(r.value) == base
  {
    if base < 2 then Err(NotPowerOfTwo) else BaseBits(base)
  }

  lemma CheckedBaseBitsOfPower(k: nat)
    requires k >= 1
    ensures CheckedBaseBits(Pow2(k)) == Ok(k)
  {
    BaseBitsOfPower(k);
    PowMonotone(1, k);
  }

  /** The encoding step of `hash_location(point, base)`, given the bits the bisection produced. */
  method HashBits(bits: seq<Bit>, base: int) returns (r: Result<string>)
    ensures CheckedBaseBits(base).Err? ==> r == Err(NotPowerOfTwo)
    ensures CheckedBaseBits(base).Ok? ==> r == CharsOf(bits, CheckedBaseBits(base).value)
  {
    var baseBits := CheckedBaseBits(base);
    if baseBits.Err? {
      return Err(NotPowerOfTwo);
    }
    r := BitsToChars(bits, baseBits.value);
  }

  /** The bits `decode_hash(hash, base)` bisects with; `base = 1` reads no bits at all. */
  function HashToBits(hash: string, base: int): (r: Result<seq<Bit>>)
    ensures BaseBits(base).Err? ==> r == Err(NotPowerOfTwo)
    ensures r.Ok? ==> |r.value| == |hash| * BaseBits(base).value
  {
    match BaseBits(base)
    case Err(m) => Err(m)
    case Ok(baseBits) => BitsOf(hash, baseBits)
  }

  /** A Geohash decodes to bits that encode back to it. */
  lemma HashRoundTrip(hash: string)
    requires forall k :: 0 <= k < |hash| ==> hash[k] in GeohashChars
    ensures HashToBits(hash, 32).Ok?
    ensures CheckedBaseBits(32) == Ok(5)
    ensures CharsOf(HashToBits(hash, 32).value, 5) == Ok(hash)
  {
    assert Pow2(5) == 32;
    BaseBitsOfPower(5);
    CheckedBaseBitsOfPower(5);
    GeohashRoundTrips([], hash);
  }
}
