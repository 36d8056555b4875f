/** Python `bytes` as the socket code sees them. */
module Bytes {

  type Byte = b: int | 0 <= b < 256

  /** `bytes.isspace()` for one byte: space, \t, \n, \r, \x0b, \x0c. */
  predicate IsAsciiSpace(b: Byte) {
    b == 32 || (9 <= b <= 13)
  }

  function LeadingSpaceBytes(s: seq<Byte>): (n: nat)
    ensures n <= |s| && forall i :: 0 <= i < n ==> IsAsciiSpace(s[i])
    ensures n < |s| ==> !IsAsciiSpace(s[n])
  {
    if |s| == 0 || !IsAsciiSpace(s[0]) then 0 else 1 + LeadingSpaceBytes(s[1..])
  }

  function TrailingSpaceBytes(s: seq<Byte>): (n: nat)
    ensures n <= |s| && forall i :: |s| - n <= i < |s| ==> IsAsciiSpace(s[i])
    ensures n < |s| ==> !IsAsciiSpace(s[|s| - n - 1])
  {
    if |s| == 0 || !IsAsciiSpace(s[|s| - 1]) then 0 else 1 + TrailingSpaceBytes(s[..|s| - 1])
  }

  /** `data.strip()`: the slice between the ASCII whitespace at both ends. */
  function StripBytes(s: seq<Byte>): (r: seq<Byte>)
    ensures LeadingSpaceBytes(s) + |r| <= |s|
    ensures r == s[LeadingSpaceBytes(s)..LeadingSpaceBytes(s) + |r|]
    ensures forall i :: LeadingSpaceBytes(s) + |r| <= i < |s| ==> IsAsciiSpace(s[i])
    ensures r == [] || (!IsAsciiSpace(r[0]) && !IsAsciiSpace(r[|r| - 1]))
  {
    var n := LeadingSpaceBytes(s);
    var t := s[n..];
    var m := TrailingSpaceBytes(t);
    StripSlices(s, n, m);
    t[..|t| - m]
  }

  /** Dropping `n` bytes in front and `m` behind leaves the middle slice of `s`. */
  lemma StripSlices(s: seq<Byte>, n: nat, m: nat)
    requires n + m <= |s|
    ensures var t := s[n..]; var r := t[..|t| - m];
      && r == s[n..n + |r|] && n + |r| + m == |s|
      && (forall i :: n + |r| <= i < |s| ==> s[i] == t[i - n])
      && (r != [] ==> r[0] == s[n] && r[|r| - 1] == t[|t| - m - 1])
  {
  }

  /** At most the first `n` bytes: what one `recv(n)` returns of the bytes sent. */
  function Take(s: seq<Byte>, n: nat): (r: seq<Byte>)
    ensures |r| <= n && |r| <= |s| && r == s[..|r|] && (|r| < n ==> r == s)
  {
    if |s| <= n then s else s[..n]
  }
}
