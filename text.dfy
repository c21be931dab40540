// Byte-level string operations the relay relies on: Go's strings.HasSuffix
// and strings.Trim(s, " "). Go strings are byte sequences, and Trim with a
// one-byte ASCII cutset removes that byte, so both are modelled on bytes.

module Text {

  type byte = bv8

  /** The ASCII space, the only byte the stop test trims. */
  const SPACE: byte := 32

  /** strings.HasSuffix: `suffix` is the tail of `s`. */
  predicate HasSuffix(s: seq<byte>, suffix: seq<byte>)
  {
    |suffix| <= |s| && s[|s| - |suffix|..] == suffix
  }

  /** A non-empty suffix ends with the same byte as the sequence it is a suffix of. */
  lemma HasSuffixLast(s: seq<byte>, suffix: seq<byte>)
    requires HasSuffix(s, suffix) && suffix != []
    ensures s != [] && s[|s| - 1] == suffix[|suffix| - 1]
  {
    assert s[|s| - |suffix|..][|suffix| - 1] == s[|s| - 1];
  }

  /** Removes trailing spaces (Go's trimRightByte): what is left is a
      prefix of `s` that does not end in a space. */
  function TrimRight(s: seq<byte>): (r: seq<byte>)
    ensures |r| <= |s|
    ensures r == [] || r[|r| - 1] != SPACE
    decreases |s|
  {
    if |s| > 0 && s[|s| - 1] == SPACE then TrimRight(s[..|s| - 1]) else s
  }

  /** Removes leading spaces (Go's trimLeftByte): what is left is a suffix
      of `s` that does not start with a space. */
  function TrimLeft(s: seq<byte>): (r: seq<byte>)
    ensures |r| <= |s|
    ensures r == [] || r[0] != SPACE
    decreases |s|
  {
    if |s| > 0 && s[0] == SPACE then TrimLeft(s[1..]) else s
  }

  /** strings.Trim(s, " "): the text between the leading and the trailing
      spaces, which neither starts nor ends with a space. */
  function Trim(s: seq<byte>): (r: seq<byte>)
    ensures |r| <= |s|
    ensures r == [] || (r[0] != SPACE && r[|r| - 1] != SPACE)
  {
    var right := TrimRight(s);
    TrimLeftIsSuffix(right);
    TrimLeft(right)
  }

  /** TrimRight keeps a prefix. */
  lemma {:induction false} TrimRightIsPrefix(s: seq<byte>)
    ensures TrimRight(s) == s[..|TrimRight(s)|]
    decreases |s|
  {
    if |s| > 0 && s[|s| - 1] == SPACE {
      TrimRightIsPrefix(s[..|s| - 1]);
    }
  }

  /** TrimLeft keeps a suffix. */
  lemma {:induction false} TrimLeftIsSuffix(s: seq<byte>)
    ensures TrimLeft(s) == s[|s| - |TrimLeft(s)|..]
    decreases |s|
  {
    if |s| > 0 && s[0] == SPACE {
      TrimLeftIsSuffix(s[1..]);
      assert s[1..][|s| - 1 - |TrimLeft(s)|..] == s[|s| - |TrimLeft(s)|..];
    }
  }

  /** TrimRight removes nothing but spaces. */
  lemma {:induction false} TrimRightRemovesSpaces(s: seq<byte>)
    ensures forall k :: |TrimRight(s)| <= k < |s| ==> s[k] == SPACE
    decreases |s|
  {
    if |s| > 0 && s[|s| - 1] == SPACE {
      TrimRightRemovesSpaces(s[..|s| - 1]);
    }
  }

  /** TrimLeft removes nothing but spaces. */
  lemma {:induction false} TrimLeftRemovesSpaces(s: seq<byte>)
    ensures forall k :: 0 <= k < |s| - |TrimLeft(s)| ==> s[k] == SPACE
    decreases |s|
  {
    if |s| > 0 && s[0] == SPACE {
      TrimLeftRemovesSpaces(s[1..]);
    }
  }

  /** Trim leaves nothing exactly when the text is all spaces. */
  lemma TrimEmptyIffAllSpaces(s: seq<byte>)
    ensures Trim(s) == [] <==> forall k :: 0 <= k < |s| ==> s[k] == SPACE
  {
    TrimRightRemovesSpaces(s);
    TrimLeftRemovesSpaces(TrimRight(s));
    var right := TrimRight(s);
    TrimRightIsPrefix(s);
    TrimLeftIsSuffix(right);
    assert right != [] ==> TrimLeft(right)[|TrimLeft(right)| - 1] == right[|right| - 1];
  }

  /** A stop word that ends in a space can never be a suffix of trimmed text. */
  lemma TrimmedNeverEndsWithSpace(s: seq<byte>, stop: seq<byte>)
    requires stop != [] && stop[|stop| - 1] == SPACE
    ensures !HasSuffix(Trim(s), stop)
  {
    if HasSuffix(Trim(s), stop) {
      HasSuffixLast(Trim(s), stop);
    }
  }
}
