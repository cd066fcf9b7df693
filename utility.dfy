/**
 * String helpers of the resource manager (Utility.cs): the 32-bit string hash
 * and its case-insensitive variant, the two asset-path normalisations and the
 * linear membership test.
 *
 * A C# string is modelled as a seq<char>; each Dafny char stands for one
 * UTF-16 code unit. `ToLower` is modelled on ASCII letters only.
 */
module Utility {

  /** The bundle file suffix (`AssetBundleSuffix`). */
  const AssetBundleSuffix: string := ".ab"

  // ---------------------------------------------------------------------------
  // Hashing
  //
  // C#'s `int` arithmetic wraps modulo 2^32. The accumulator is modelled by its
  // bit pattern, an integer in [0, 2^32); `x << k` is `x * 2^k` wrapped, and
  // `^` is the bitwise exclusive or of the two 32-bit patterns.
  // ---------------------------------------------------------------------------

  const TwoTo32: int := 0x1_0000_0000

  type uint32 = x: int | 0 <= x < TwoTo32

  /** Reduction modulo 2^32: what every `+` and `<<` on an `int` does to the bit pattern. */
  function Wrap(x: int): uint32
  {
    x % TwoTo32
  }

  /**
   * Bitwise exclusive or of the bits of `a` and `b` below weight `w`
   * (w = 2^32 gives the 32-bit `^`).
   */
  function XorBelow(a: nat, b: nat, w: nat): (r: nat)
    ensures w > 0 ==> r < w
  {
    if w <= 1 then 0
    else (if a % 2 == b % 2 then 0 else 1) + 2 * XorBelow(a / 2, b / 2, w / 2)
  }

  /** `hval ^= c` on 32-bit values. */
  function Xor32(a: uint32, b: nat): uint32
  {
    XorBelow(a, b, TwoTo32)
  }

  /** The shift-add of one round: hval += (hval<<1)+(hval<<4)+(hval<<7)+(hval<<8)+(hval<<24). */
  function ShiftAdd(x: uint32): uint32
  {
    Wrap(x + Wrap(Wrap(Wrap(Wrap(Wrap(x * 2) + Wrap(x * 16)) + Wrap(x * 128)) + Wrap(x * 256))
                  + Wrap(x * 0x100_0000)))
  }

  /** One round of the hash loop: XOR in the character, then the shift-add. */
  function HashStep(h: uint32, c: char): uint32
  {
    ShiftAdd(Xor32(h, c as int))
  }

  /** The hash of `s`, as the loop computes it from the left with hval = 0. */
  function Hash(s: string): uint32
  {
    if |s| == 0 then 0 else HashStep(Hash(s[..|s| - 1]), s[|s| - 1])
  }

  predicate IsUpperAscii(c: char)
  {
    'A' <= c <= 'Z'
  }

  /** ASCII-only lower-casing of one character (`ascii += 32`). */
  function LowerAscii(c: char): (r: char)
    ensures !IsUpperAscii(r)
    ensures IsUpperAscii(c) ==> r as int == c as int + 32
    ensures !IsUpperAscii(c) ==> r == c
  {
    if IsUpperAscii(c) then (c as int + 32) as char else c
  }

  function ToLowerAscii(s: string): (r: string)
    ensures |r| == |s|
    ensures forall i :: 0 <= i < |s| ==> r[i] == LowerAscii(s[i])
  {
    seq(|s|, i requires 0 <= i < |s| => LowerAscii(s[i]))
  }

  predicate NoUpperAscii(s: string)
  {
    forall i :: 0 <= i < |s| ==> !IsUpperAscii(s[i])
  }

  /** `CustomStringHash`: the loop over the characters updating `hval`. */
  method CustomStringHash(str: string) returns (hval: uint32)
    ensures hval == Hash(str)
  {
    hval := 0;
    var i := 0;
    while i != |str|
      invariant 0 <= i <= |str|
      invariant hval == Hash(str[..i])
    {
      assert str[..i + 1][..i] == str[..i];
      hval := Xor32(hval, str[i] as int);
      hval := ShiftAdd(hval);
      i := i + 1;
    }
    assert str[..i] == str;
  }

  /**
   * `CustomStringHashIgnoreCase`: the same loop, with 'A'..'Z' shifted to
   * 'a'..'z' before each XOR. Its result is the plain hash of the lowered text.
   */
  method CustomStringHashIgnoreCase(str: string) returns (hval: uint32)
    ensures hval == Hash(ToLowerAscii(str))
  {
    hval := 0;
    var i := 0;
    while i != |str|
      invariant 0 <= i <= |str|
      invariant hval == Hash(ToLowerAscii(str[..i]))
    {
      var ascii := str[i] as int;
      if 'A' as int <= ascii <= 'Z' as int {
        ascii := ascii + 32;
      }
      assert ToLowerAscii(str[..i + 1])[..i] == ToLowerAscii(str[..i]);
      assert ascii == LowerAscii(str[i]) as int;
      hval := Xor32(hval, ascii);
      hval := ShiftAdd(hval);
      i := i + 1;
    }
    assert str[..i] == str;
  }

  lemma WrapAddLeft(a: int, b: int)
    ensures Wrap(Wrap(a) + b) == Wrap(a + b)
  {
    assert a == TwoTo32 * (a / TwoTo32) + Wrap(a);
    assert a + b == Wrap(a) + b + TwoTo32 * (a / TwoTo32);
  }

  lemma WrapSum(a: int, b: int)
    ensures Wrap(Wrap(a) + Wrap(b)) == Wrap(a + b)
  {
    WrapAddLeft(a, Wrap(b));
    WrapAddLeft(b, a);
  }

  /**
   * The shift-add of one round is a multiplication by 16777619
   * (= 2^24 + 2^8 + 2^7 + 2^4 + 2^1 + 1) modulo 2^32, so each round is
   * FNV-1a's "XOR, then multiply by the prime", with offset basis 0.
   */
  lemma ShiftAddIsMultiply(x: uint32)
    ensures ShiftAdd(x) == Wrap(x * 16777619)
  {
    var a, b, c, d, e := x * 2, x * 16, x * 128, x * 256, x * 0x100_0000;
    var sum := a + b + c + d + e;
    WrapSum(a, b);
    WrapSum(a + b, c);
    WrapSum(a + b + c, d);
    WrapSum(a + b + c + d, e);
    assert ShiftAdd(x) == Wrap(x + Wrap(sum));
    WrapAddLeft(sum, x);
    assert sum + x == x * 16777619;
  }

  lemma HashStepIsFnvStep(h: uint32, c: char)
    ensures HashStep(h, c) == Wrap(Xor32(h, c as int) * 16777619)
  {
    ShiftAddIsMultiply(Xor32(h, c as int));
  }

  /** The empty string hashes to 0 under both hashes (the offset basis is 0). */
  lemma EmptyHashIsZero()
    ensures Hash("") == 0
    ensures Hash(ToLowerAscii("")) == 0
  {
  }

  /** Strings that differ only in ASCII letter case have the same ignore-case hash. */
  lemma {:induction false} IgnoreCaseHashAgrees(s: string, t: string)
    requires |s| == |t|
    requires forall i :: 0 <= i < |s| ==> LowerAscii(s[i]) == LowerAscii(t[i])
    ensures Hash(ToLowerAscii(s)) == Hash(ToLowerAscii(t))
  {
    assert ToLowerAscii(s) == ToLowerAscii(t);
  }

  /** Lower-casing is idempotent, so hashing a lowered text ignoring case changes nothing. */
  lemma LowerIsIdempotent(s: string)
    ensures ToLowerAscii(ToLowerAscii(s)) == ToLowerAscii(s)
    ensures NoUpperAscii(ToLowerAscii(s))
  {
  }

  // ---------------------------------------------------------------------------
  // String primitives of the .NET base library used by the path helpers
  // ---------------------------------------------------------------------------

  /** `String.Replace(old, new)`: ordinal, left to right, non-overlapping. */
  function Replace(s: string, pat: string, rep: string): string
    requires |pat| > 0
    decreases |s|
  {
    if |s| < |pat| then s
    else if s[..|pat|] == pat then rep + Replace(s[|pat|..], pat, rep)
    else [s[0]] + Replace(s[1..], pat, rep)
  }

  /** Removing every occurrence keeps only characters of the input. */
  lemma {:induction false} RemoveKeepsChars(s: string, pat: string)
    requires |pat| > 0
    ensures forall c :: c in Replace(s, pat, "") ==> c in s
    decreases |s|
  {
    if |s| < |pat| {
    } else if s[..|pat|] == pat {
      RemoveKeepsChars(s[|pat|..], pat);
      assert Replace(s, pat, "") == Replace(s[|pat|..], pat, "");
      forall c | c in Replace(s, pat, "") ensures c in s {
        assert c in s[|pat|..];
      }
    } else {
      RemoveKeepsChars(s[1..], pat);
      forall c | c in Replace(s, pat, "") ensures c in s {
        if c != s[0] {
          assert c in Replace(s[1..], pat, "");
          assert c in s[1..];
        }
      }
    }
  }

  /** `LastIndexOf(c)`: the last position of `c`, or -1. */
  function LastIndexOf(s: string, c: char): (r: int)
    ensures -1 <= r < |s|
    ensures r >= 0 ==> s[r] == c
    ensures forall i :: r < i < |s| ==> s[i] != c
  {
    if |s| == 0 then -1
    else if s[|s| - 1] == c then |s| - 1
    else LastIndexOf(s[..|s| - 1], c)
  }

  /** `IndexOf(c)`: the first position of `c`, or -1. */
  function IndexOf(s: string, c: char): (r: int)
    ensures -1 <= r < |s|
    ensures r >= 0 ==> s[r] == c
    ensures forall i :: 0 <= i < |s| && (r < 0 || i < r) ==> s[i] != c
  {
    if |s| == 0 then -1
    else if s[0] == c then 0
    else var k := IndexOf(s[1..], c); if k < 0 then -1 else k + 1
  }

  /** `s.Split(c)[0]`: the text before the first `c` (all of it when there is none). */
  function FirstSplit(s: string, c: char): string
  {
    var k := IndexOf(s, c);
    if k < 0 then s else s[..k]
  }

  // ---------------------------------------------------------------------------
  // Path normalisation
  // ---------------------------------------------------------------------------

  /**
   * `ConvertAssetPath2ABPath`: lower-case the path, keep its directory part
   * (up to the last '/'), remove every "assets/" and append ".ab". The source
   * throws when the path has no '/', so that is required here.
   */
  function ConvertAssetPath2ABPath(assetPath: string): string
    requires '/' in assetPath
  {
    var lower := ToLowerAscii(assetPath);
    BundleOfDirectory(lower[..LastIndexOf(lower, '/')])
  }

  function BundleOfDirectory(dir: string): string
  {
    Replace(dir, "assets/", "") + AssetBundleSuffix
  }

  /** The directory part of the lowered path: what the bundle path depends on. */
  function LoweredDirectory(assetPath: string): string
    requires '/' in assetPath
  {
    var lower := ToLowerAscii(assetPath);
    lower[..LastIndexOf(lower, '/')]
  }

  /** A '/' in the path survives lower-casing, so the directory is well defined. */
  lemma SlashSurvivesLowering(s: string)
    requires '/' in s
    ensures LastIndexOf(ToLowerAscii(s), '/') >= 0
  {
    var i :| 0 <= i < |s| && s[i] == '/';
    assert ToLowerAscii(s)[i] == '/';
  }

  /** The bundle path is lower-case and ends with the bundle suffix. */
  lemma {:induction false} ABPathIsLowerWithSuffix(assetPath: string)
    requires '/' in assetPath
    ensures var r := ConvertAssetPath2ABPath(assetPath);
      NoUpperAscii(r) && |r| >= 3 && r[|r| - 3..] == ".ab"
  {
    SlashSurvivesLowering(assetPath);
    var lower := ToLowerAscii(assetPath);
    var dir := lower[..LastIndexOf(lower, '/')];
    RemoveKeepsChars(dir, "assets/");
    var r := ConvertAssetPath2ABPath(assetPath);
    var body := Replace(dir, "assets/", "");
    assert r == body + ".ab";
    forall i | 0 <= i < |r| ensures !IsUpperAscii(r[i]) {
      if i < |body| {
        assert r[i] == body[i];
        assert r[i] in dir;
        var j :| 0 <= j < |dir| && dir[j] == r[i];
        assert dir[j] == lower[j];
      }
    }
  }

  /** Two asset paths in the same directory (ignoring case) share a bundle. */
  lemma SameDirectorySameBundle(p: string, q: string)
    requires '/' in p && '/' in q
    requires LoweredDirectory(p) == LoweredDirectory(q)
    ensures ConvertAssetPath2ABPath(p) == ConvertAssetPath2ABPath(q)
  {
  }

  /** A bundle path is never the bare word "assets", because of its suffix. */
  lemma ABPathIsNeverAssets(assetPath: string)
    requires '/' in assetPath
    ensures ConvertAssetPath2ABPath(assetPath) != "assets"
  {
    ABPathIsLowerWithSuffix(assetPath);
    var r := ConvertAssetPath2ABPath(assetPath);
    assert r[|r| - 1] == r[|r| - 3..][2] == 'b';
  }

  /**
   * `ConvertAssetPath2AssetName`: remove every "Assets/" (case-sensitive) and
   * keep the text before the first '.'.
   */
  function ConvertAssetPath2AssetName(assetPath: string): (r: string)
    ensures '.' !in r
    ensures r <= Replace(assetPath, "Assets/", "")
  {
    var stripped := Replace(assetPath, "Assets/", "");
    var k := IndexOf(stripped, '.');
    if k < 0 then stripped
    else
      assert forall i :: 0 <= i < k ==> stripped[..k][i] != '.';
      stripped[..k]
  }

  // ---------------------------------------------------------------------------
  // Membership
  // ---------------------------------------------------------------------------

  /**
   * `IsContains`: scan the list in order and report whether some element `v`
   * satisfies `compare(t, v)`; the scan stops at the first match.
   */
  method IsContains<T>(list: seq<T>, t: T, compare: (T, T) -> bool) returns (found: bool)
    ensures found <==> exists v :: v in list && compare(t, v)
  {
    var i := 0;
    while i < |list|
      invariant 0 <= i <= |list|
      invariant forall j :: 0 <= j < i ==> !compare(t, list[j])
    {
      if compare(t, list[i]) {
        return true;
      }
      i := i + 1;
    }
    return false;
  }

  /** No element occurs twice: the list behaves as a set kept in insertion order. */
  predicate NoDup<T(==)>(s: seq<T>)
  {
    forall i, j :: 0 <= i < j < |s| ==> s[i] != s[j]
  }
}
