/** `internal/pkg/lox/elide.go`: shortening a string to a number of runes,
    marking the cut with an ellipsis. A string is modelled as its runes. */
module LoxElide {
  const Ellipsis: char := '…'

  /** The length a shortened string gets: `maxLen`, raised to the length of
      the ellipsis (one rune) when smaller. */
  function Room(maxLen: int): (m: int)
    ensures m >= 1 && m >= maxLen && (maxLen >= 1 ==> m == maxLen)
  {
    if maxLen < 1 then 1 else maxLen
  }

  /** `Elide`: a string of at most `maxLen` runes is kept; a longer one keeps
      its first `Room(maxLen) - 1` runes followed by the ellipsis. */
  function Elide(s: string, maxLen: int): (r: string)
    ensures |s| <= maxLen ==> r == s
    ensures |s| > maxLen ==>
      |r| == Room(maxLen) && r[..|r| - 1] == s[..|r| - 1] && r[|r| - 1] == Ellipsis
  {
    if |s| <= maxLen then s
    else s[..Room(maxLen) - 1] + [Ellipsis]
  }

  /** The result is never longer than the room the limit leaves, and never
      longer than the input unless the input is empty and the limit negative. */
  lemma ElideBounds(s: string, maxLen: int)
    ensures |Elide(s, maxLen)| <= Room(maxLen)
    ensures |Elide(s, maxLen)| <= |s| || (s == [] && maxLen < 0 && Elide(s, maxLen) == [Ellipsis])
    ensures maxLen >= 1 ==> |Elide(s, maxLen)| <= maxLen
  {
  }

  /** A non-empty string elided to a limit of at most zero is the ellipsis
      alone. */
  lemma ElideToNothing(s: string, maxLen: int)
    requires s != [] && maxLen <= 0
    ensures Elide(s, maxLen) == [Ellipsis]
  {
  }

  /** Eliding twice with the same limit is eliding once. */
  lemma ElideIdempotent(s: string, maxLen: int)
    ensures Elide(Elide(s, maxLen), maxLen) == Elide(s, maxLen)
  {
    var r := Elide(s, maxLen);
    if |r| > maxLen {
      assert |r| == 1 && r == [Ellipsis];
      assert Elide(r, maxLen) == r[..0] + [Ellipsis];
    }
  }
}
