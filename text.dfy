/**
 * Go string operations the handlers rely on, over Dafny strings (sequences of
 * Unicode scalar values).  Go's `len` counts UTF-8 bytes, so length rules are
 * stated with ByteLen rather than with `|s|`.
 */
module Text {

  import opened Wrappers

  /** Number of bytes the UTF-8 encoding of `c` takes. */
  function Utf8Width(c: char): (w: nat)
    ensures 1 <= w <= 4
    ensures w == 1 <==> c as int < 0x80
  {
    if c as int < 0x80 then 1
    else if c as int < 0x800 then 2
    else if c as int < 0x10000 then 3
    else 4
  }

  predicate IsAscii(s: string)
  {
    forall i :: 0 <= i < |s| ==> s[i] as int < 0x80
  }

  /** Go's `len(s)`: the length of the UTF-8 encoding of `s`. */
  function ByteLen(s: string): (n: nat)
    ensures |s| <= n <= 4 * |s|
    ensures n == |s| <==> IsAscii(s)
    ensures n == 0 <==> s == []
  {
    if s == [] then 0 else Utf8Width(s[0]) + ByteLen(s[1..])
  }

  /** Go's strings.HasPrefix. */
  predicate HasPrefix(s: string, prefix: string)
  {
    |prefix| <= |s| && s[..|prefix|] == prefix
  }

  /** Go's strings.TrimPrefix: drops `prefix` once when `s` starts with it. */
  function TrimPrefix(s: string, prefix: string): (r: string)
    ensures HasPrefix(s, prefix) ==> prefix + r == s
    ensures !HasPrefix(s, prefix) ==> r == s
  {
    if HasPrefix(s, prefix) then s[|prefix|..] else s
  }

  /** Index of the first line that starts with `prefix`, if any: where a
      `bufio.Scanner` loop that breaks on the first match stops. */
  function FirstWithPrefix(lines: seq<string>, prefix: string): (r: Option<nat>)
    ensures r.Some? ==> r.value < |lines| && HasPrefix(lines[r.value], prefix)
    ensures r.Some? ==> forall j :: 0 <= j < r.value ==> !HasPrefix(lines[j], prefix)
    ensures r.None? ==> forall j :: 0 <= j < |lines| ==> !HasPrefix(lines[j], prefix)
  {
    if lines == [] then None
    else if HasPrefix(lines[0], prefix) then Some(0)
    else
      match FirstWithPrefix(lines[1..], prefix)
      case None => None
      case Some(k) => Some(k + 1)
  }

  /** A configuration file read line by line with a `bufio.Scanner`. */
  datatype LineFile =
    | OpenFailed
      /** The lines the scanner delivered, and whether it then stopped on a
          read error rather than at end of file. */
    | Lines(lines: seq<string>, readError: bool)
}
