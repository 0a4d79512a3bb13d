/** String helpers the handlers share: ASCII lower-casing and whitespace splitting. */
module Text {

  /**
   * ASCII lower-casing. The strings it is compared against ("bearer" and
   * the urgency keywords) are ASCII letters without 'k', and no other
   * character lower-cases onto such a letter alone, so matches against
   * them are decided exactly as with full Unicode lower-casing.
   */
  function Lower(s: string): (r: string)
    ensures |r| == |s|
    ensures forall i :: 0 <= i < |s| ==> r[i] == (if 'A' <= s[i] <= 'Z' then (s[i] as int + 32) as char else s[i])
  {
    if s == [] then [] else
      [if 'A' <= s[0] <= 'Z' then (s[0] as int + 32) as char else s[0]] + Lower(s[1..])
  }

  /** The characters `str.split()` treats as whitespace. */
  predicate IsSpace(c: char) {
    var n := c as int;
    || 0x09 <= n <= 0x0D || 0x1C <= n <= 0x20 || n == 0x85 || n == 0xA0 || n == 0x1680
    || 0x2000 <= n <= 0x200A || n == 0x2028 || n == 0x2029 || n == 0x202F || n == 0x205F || n == 0x3000
  }

  predicate NoSpace(w: string) {
    forall i :: 0 <= i < |w| ==> !IsSpace(w[i])
  }

  /** The longest whitespace-free prefix of `s`. */
  function FirstWord(s: string): (w: string)
    ensures |w| <= |s| && w == s[..|w|] && NoSpace(w)
    ensures |w| < |s| ==> IsSpace(s[|w|])
    ensures s != [] && !IsSpace(s[0]) ==> |w| >= 1
  {
    if s == [] || IsSpace(s[0]) then [] else [s[0]] + FirstWord(s[1..])
  }

  /** `s.split()`: the maximal runs of non-whitespace characters, in order. */
  function Words(s: string): (ws: seq<string>)
    ensures forall w :: w in ws ==> |w| >= 1 && NoSpace(w)
    decreases |s|
  {
    if s == [] then []
    else if IsSpace(s[0]) then Words(s[1..])
    else
      var w := FirstWord(s);
      [w] + Words(s[|w|..])
  }

  lemma {:induction false} FirstWordOf(w: string, rest: string)
    requires NoSpace(w) && (rest == [] || IsSpace(rest[0]))
    ensures FirstWord(w + rest) == w
  {
    if w != [] {
      assert (w + rest)[1..] == w[1..] + rest;
      FirstWordOf(w[1..], rest);
    }
  }

  /** A word followed by whitespace or the end splits off as the first word. */
  lemma WordsOfWord(w: string, rest: string)
    requires |w| >= 1 && NoSpace(w) && (rest == [] || IsSpace(rest[0]))
    ensures Words(w + rest) == [w] + Words(rest)
  {
    FirstWordOf(w, rest);
    assert (w + rest)[|w|..] == rest;
  }

  /** `"a b".split()` gives back the two words. */
  lemma WordsOfPair(a: string, b: string)
    requires |a| >= 1 && NoSpace(a) && |b| >= 1 && NoSpace(b)
    ensures Words(a + " " + b) == [a, b]
  {
    WordsOfWord(a, " " + b);
    assert a + " " + b == a + (" " + b);
    assert (" " + b)[1..] == b;
    WordsOfWord(b, []);
    assert b + [] == b;
  }
}
