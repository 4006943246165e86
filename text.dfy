/** String helpers with the meaning of the JavaScript built-ins the source calls. */
module Text {

  /** The first piece of splitting `s` at `c`: the part of `s` before the first `c`, or all of `s` when there is none. */
  function BeforeFirst(s: string, c: char): (r: string)
    ensures r <= s
    ensures c !in r
    ensures |r| < |s| ==> s[|r|] == c
  {
    if s == [] then []
    else if s[0] == c then []
    else [s[0]] + BeforeFirst(s[1..], c)
  }

  /** Splitting at `c` recovers the piece before a `c` that the piece itself does not contain. */
  lemma {:induction false} BeforeFirstOfJoin(a: string, c: char, b: string)
    requires c !in a
    ensures BeforeFirst(a + [c] + b, c) == a
  {
    if a != [] {
      assert (a + [c] + b)[1..] == a[1..] + [c] + b;
      BeforeFirstOfJoin(a[1..], c, b);
    }
  }

  /** Lower-casing of one character, on the ASCII letters. */
  function AsciiLower(ch: char): char {
    if 'A' <= ch <= 'Z' then (ch as int + 32) as char else ch
  }

  /** Lower-casing restricted to ASCII letters: every character mapped by `AsciiLower`. */
  function ToLower(s: string): (r: string)
    ensures |r| == |s|
    ensures forall i :: 0 <= i < |s| ==> r[i] == AsciiLower(s[i])
  {
    if s == [] then [] else [AsciiLower(s[0])] + ToLower(s[1..])
  }

  /** Lower-casing commutes with cutting before a separator that is not a letter. */
  lemma {:induction false} ToLowerBeforeFirst(s: string, c: char)
    requires AsciiLower(c) == c && !('a' <= c <= 'z')
    ensures ToLower(BeforeFirst(s, c)) == BeforeFirst(ToLower(s), c)
  {
    if s != [] && s[0] != c {
      assert AsciiLower(s[0]) != c;
      assert ToLower(s)[1..] == ToLower(s[1..]);
      ToLowerBeforeFirst(s[1..], c);
    }
  }

  /** The characters `String.prototype.trim` removes: ECMAScript WhiteSpace and LineTerminator
      (tab, line feed, vertical tab, form feed, carriage return, space, no-break space, the
      Unicode space separators, line and paragraph separator, byte order mark). */
  predicate IsJsWhitespace(ch: char) {
    var n := ch as int;
    (0x09 <= n <= 0x0D) || n == 0x20 || n == 0xA0 || n == 0x1680 ||
    (0x2000 <= n <= 0x200A) || n == 0x2028 || n == 0x2029 || n == 0x202F ||
    n == 0x205F || n == 0x3000 || n == 0xFEFF
  }

  /** Drops leading whitespace. */
  function TrimStart(s: string): (r: string)
    ensures |r| <= |s| && r == s[|s| - |r|..]
    ensures r == [] || !IsJsWhitespace(r[0])
    ensures forall i :: 0 <= i < |s| - |r| ==> IsJsWhitespace(s[i])
  {
    if s != [] && IsJsWhitespace(s[0]) then TrimStart(s[1..]) else s
  }

  /** Drops trailing whitespace. */
  function TrimEnd(s: string): (r: string)
    ensures |r| <= |s| && r == s[..|r|]
    ensures r == [] || !IsJsWhitespace(r[|r| - 1])
    ensures forall i :: |r| <= i < |s| ==> IsJsWhitespace(s[i])
  {
    if s != [] && IsJsWhitespace(s[|s| - 1]) then TrimEnd(s[..|s| - 1]) else s
  }

  /** JavaScript's trim: whitespace removed from both ends. The result is the middle of `s`
      between a whitespace prefix and a whitespace suffix, and neither of its ends is whitespace. */
  function Trim(s: string): (r: string)
    ensures |r| <= |s|
    ensures r == [] || (!IsJsWhitespace(r[0]) && !IsJsWhitespace(r[|r| - 1]))
    ensures exists p {:trigger s[p..]} :: 0 <= p <= |s| - |r| && r == s[p..][..|r|]
                        && (forall i :: 0 <= i < p ==> IsJsWhitespace(s[i]))
                        && (forall i :: p + |r| <= i < |s| ==> IsJsWhitespace(s[i]))
  {
    var t := TrimStart(s);
    var r := TrimEnd(t);
    var p := |s| - |t|;
    assert r == s[p..][..|r|];
    r
  }

  /** A string trims to the empty string exactly when all of its characters are whitespace. */
  lemma TrimEmptyIffBlank(s: string)
    ensures Trim(s) == "" <==> forall i :: 0 <= i < |s| ==> IsJsWhitespace(s[i])
  {
  }
}
