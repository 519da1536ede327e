/**
 * The two string helpers of Go's standard library that the core relies on:
 * `strings.Trim`/`bytes.TrimSpace` (drop a cut set at both ends) and
 * `strings.ToLower`, restricted here to ASCII letters.
 */
module Text {

  /** Drops the leading elements selected by `cut`. */
  function TrimLeft<T>(s: seq<T>, cut: T -> bool): (r: seq<T>)
    ensures |r| <= |s| && r == s[|s| - |r|..]
    ensures r == [] || !cut(r[0])
    ensures forall i :: 0 <= i < |s| - |r| ==> cut(s[i])
  {
    if s == [] || !cut(s[0]) then s else TrimLeft(s[1..], cut)
  }

  /** Drops the trailing elements selected by `cut`. */
  function TrimRight<T>(s: seq<T>, cut: T -> bool): (r: seq<T>)
    ensures |r| <= |s| && r == s[..|r|]
    ensures r == [] || !cut(r[|r| - 1])
    ensures forall i :: |r| <= i < |s| ==> cut(s[i])
  {
    if s == [] || !cut(s[|s| - 1]) then s else TrimRight(s[..|s| - 1], cut)
  }

  /** `strings.Trim(s, cutset)`: both ends at once. */
  function Trim<T>(s: seq<T>, cut: T -> bool): seq<T>
  {
    TrimRight(TrimLeft(s, cut), cut)
  }

  /** Trimming leaves nothing exactly when every element is in the cut set. */
  lemma TrimEmptyIff<T>(s: seq<T>, cut: T -> bool)
    ensures Trim(s, cut) == [] <==> forall i :: 0 <= i < |s| ==> cut(s[i])
  {
    var l := TrimLeft(s, cut);
    if Trim(s, cut) == [] && l != [] {
      // the first kept element is not in the cut set, yet trimming the right drops it
      assert false;
    }
  }

  function AsciiLowerChar(c: char): char
  {
    if 'A' <= c <= 'Z' then (c as int + 32) as char else c
  }

  /** `strings.ToLower` on ASCII letters; every other character is kept. */
  function AsciiLower(s: string): (r: string)
    ensures |r| == |s|
    ensures forall i :: 0 <= i < |s| ==> r[i] == AsciiLowerChar(s[i])
  {
    if s == [] then [] else [AsciiLowerChar(s[0])] + AsciiLower(s[1..])
  }

  predicate IsLowerCase(s: string)
  {
    forall i :: 0 <= i < |s| ==> !('A' <= s[i] <= 'Z')
  }

  /** Lowering yields a lower-case string and leaves lower-case strings alone. */
  lemma AsciiLowerNormalizes(s: string)
    ensures IsLowerCase(AsciiLower(s))
    ensures IsLowerCase(s) ==> AsciiLower(s) == s
  {
  }
}
