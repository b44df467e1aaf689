/** The character-level string operations that the relation verifier calls:
    Python's `str.find` and `str.rfind` for a single character, and
    upper-casing restricted to ASCII letters. */
module Text {

  /** Index of the first occurrence of `c` in `s`, or -1 when there is none,
      as Python's `str.find` reports it. */
  function Find(s: string, c: char): (r: int)
    ensures r == -1 <==> c !in s
    ensures r != -1 ==> 0 <= r < |s| && s[r] == c && c !in s[..r]
  {
    if |s| == 0 then -1
    else if s[0] == c then 0
    else
      var k := Find(s[1..], c);
      if k == -1 then -1
      else
        assert s[..k + 1] == [s[0]] + s[1..][..k];
        k + 1
  }

  /** Index of the last occurrence of `c` in `s`, or -1 when there is none,
      as Python's `str.rfind` reports it. */
  function RFind(s: string, c: char): (r: int)
    ensures r == -1 <==> c !in s
    ensures r != -1 ==> 0 <= r < |s| && s[r] == c && c !in s[r + 1..]
  {
    if |s| == 0 then -1
    else if s[|s| - 1] == c then |s| - 1
    else
      var k := RFind(s[..|s| - 1], c);
      assert s == s[..|s| - 1] + [s[|s| - 1]];
      assert k != -1 ==> s[k + 1..] == s[..|s| - 1][k + 1..] + [s[|s| - 1]];
      k
  }

  predicate IsLowerAscii(ch: char) {
    'a' <= ch <= 'z'
  }

  /** Upper-cases one character: an ASCII lower-case letter becomes its
      capital, every other character is left as it is. */
  function UpperChar(ch: char): (u: char)
    ensures !IsLowerAscii(u)
    ensures !IsLowerAscii(ch) ==> u == ch
    ensures IsLowerAscii(ch) ==> 'A' <= u <= 'Z' && u as int + 32 == ch as int
  {
    if IsLowerAscii(ch) then (ch as int - 32) as char else ch
  }

  /** Upper-cases a string character by character (ASCII letters only). */
  function Upper(s: string): (r: string)
    ensures |r| == |s|
    ensures forall i :: 0 <= i < |s| ==> r[i] == UpperChar(s[i])
    ensures forall i :: 0 <= i < |r| ==> !IsLowerAscii(r[i])
  {
    seq(|s|, i requires 0 <= i < |s| => UpperChar(s[i]))
  }
}
