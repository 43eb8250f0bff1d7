/**
 The C library calls the program makes on its fixed-size character buffers.
 A C string is what a buffer holds before its first NUL.
 */
module CStrings {

  const NUL: char := '\0'

  function Nuls(n: nat): (s: string)
    ensures |s| == n
    ensures forall i :: 0 <= i < n ==> s[i] == NUL
  {
    seq(n, _ => NUL)
  }

  /** The C string at the front of a buffer, all of it if there is no NUL. */
  function CStr(s: string): (t: string)
    ensures |t| <= |s| && t == s[..|t|] && NUL !in t
    ensures |t| < |s| ==> s[|t|] == NUL
  {
    if s == [] || s[0] == NUL then [] else [s[0]] + CStr(s[1..])
  }

  function Take(s: string, n: nat): (t: string)
    ensures |t| == (if n <= |s| then n else |s|) && t == s[..|t|]
  {
    if n <= |s| then s[..n] else s
  }

  /** The buffer after strncpy(dst, src, n): at most n characters of the C string src, NULs up
      to n, the rest of the buffer untouched. */
  function Strncpied(dst: string, src: string, n: nat): (r: string)
    requires n <= |dst|
    ensures |r| == |dst|
  {
    var t := Take(CStr(src), n);
    t + Nuls(n - |t|) + dst[n..]
  }

  /** A buffer reads back as the given string when it holds it followed by a NUL or by its end. */
  lemma {:induction false} CStrOf(t: string, rest: string)
    requires NUL !in t && (rest == [] || rest[0] == NUL)
    ensures CStr(t + rest) == t
  {
    if t == [] {
      assert t + rest == rest;
    } else {
      assert (t + rest)[1..] == t[1..] + rest;
      CStrOf(t[1..], rest);
    }
  }

  lemma CStrWhole(s: string)
    ensures CStr(s) == s <==> NUL !in s
  {
    if NUL !in s {
      CStrOf(s, []);
      assert s + [] == s;
    }
  }

  /** Copying into a buffer that is all NUL from n on leaves no trace of what it held before. */
  lemma StrncpiedReads(dst: string, src: string, n: nat)
    requires n <= |dst| && forall i :: n <= i < |dst| ==> dst[i] == NUL
    ensures CStr(Strncpied(dst, src, n)) == Take(CStr(src), n)
    ensures forall i :: n <= i < |dst| ==> Strncpied(dst, src, n)[i] == NUL
  {
    var t := Take(CStr(src), n);
    var rest := Nuls(n - |t|) + dst[n..];
    assert Strncpied(dst, src, n) == t + rest;
    CStrOf(t, rest);
  }

  method Memset(dst: array<char>)
    modifies dst
    ensures dst[..] == Nuls(dst.Length)
  {
    var i := 0;
    while i < dst.Length
      invariant i <= dst.Length
      invariant forall k :: 0 <= k < i ==> dst[k] == NUL
    {
      dst[i] := NUL;
      i := i + 1;
    }
  }

  method Strncpy(dst: array<char>, src: string, n: nat)
    requires n <= dst.Length
    modifies dst
    ensures dst[..] == Strncpied(old(dst[..]), src, n)
  {
    ghost var t := Take(CStr(src), n);
    var i := 0;
    while i < n && i < |src| && src[i] != NUL
      invariant i <= |t|
      invariant dst[..i] == t[..i]
      invariant dst[n..] == old(dst[n..])
    {
      dst[i] := src[i];
      i := i + 1;
    }
    assert i == |t|;
    while i < n
      invariant |t| <= i <= n
      invariant dst[..|t|] == t
      invariant forall k :: |t| <= k < i ==> dst[k] == NUL
      invariant dst[n..] == old(dst[n..])
    {
      dst[i] := NUL;
      i := i + 1;
    }
  }

  /** strlen, on a buffer that does hold a NUL. */
  method Strlen(buffer: array<char>) returns (n: nat)
    requires NUL in buffer[..]
    ensures n == |CStr(buffer[..])| < buffer.Length
  {
    ghost var t := CStr(buffer[..]);
    n := 0;
    while buffer[n] != NUL
      invariant n <= |t| < buffer.Length
      decreases buffer.Length - n
    {
      n := n + 1;
    }
  }

  /** strncmp(buffer, literal, strlen(literal)) == 0 */
  method HasPrefix(buffer: array<char>, literal: string) returns (yes: bool)
    requires |literal| <= buffer.Length
    ensures yes <==> literal <= buffer[..]
  {
    var i := 0;
    while i < |literal| && buffer[i] == literal[i]
      invariant i <= |literal| && buffer[..i] == literal[..i]
    {
      i := i + 1;
    }
    yes := i == |literal|;
  }
}
