/** String primitives of the JavaScript runtime that the engine relies on:
    `trim`, `\s`, substring tests, `split`/`join`, ASCII case folding.
    Lengths are counted in code points (Dafny's `char` is a Unicode scalar value). */
module Text {

  /** JavaScript's LineTerminator: the characters `.` in a regular expression does not match. */
  predicate IsLineTerminator(c: char) {
    c == '\n' || c == '\r' || c == '\U{2028}' || c == '\U{2029}'
  }

  /** JavaScript's WhiteSpace plus LineTerminator: the class `\s`, and what `trim` removes. */
  predicate IsSpace(c: char) {
    || c == '\t' || c == '\U{B}' || c == '\U{C}' || c == ' ' || c == '\U{A0}'
    || c == '\U{1680}' || ('\U{2000}' <= c <= '\U{200A}') || c == '\U{202F}'
    || c == '\U{205F}' || c == '\U{3000}' || c == '\U{FEFF}' || IsLineTerminator(c)
  }

  /** `\d`: an ASCII digit. */
  predicate IsDigit(c: char) {
    '0' <= c <= '9'
  }

  predicate IsAsciiLetter(c: char) {
    ('a' <= c <= 'z') || ('A' <= c <= 'Z')
  }

  predicate AllSpace(s: string) {
    forall i :: 0 <= i < |s| ==> IsSpace(s[i])
  }

  predicate NoLineTerminator(s: string) {
    forall i :: 0 <= i < |s| ==> !IsLineTerminator(s[i])
  }

  /** Drops leading white space. */
  function TrimStart(s: string): (r: string)
    ensures |r| <= |s| && r == s[|s| - |r|..]
    ensures r == [] || !IsSpace(r[0])
    ensures AllSpace(s[..|s| - |r|])
  {
    if s != [] && IsSpace(s[0]) then
      var r := TrimStart(s[1..]);
      assert s[1..][..|s[1..]| - |r|] == s[1..|s| - |r|];
      r
    else s
  }

  /** Drops trailing white space. */
  function TrimEnd(s: string): (r: string)
    ensures |r| <= |s| && r == s[..|r|]
    ensures r == [] || !IsSpace(r[|r| - 1])
    ensures AllSpace(s[|r|..])
  {
    if s != [] && IsSpace(s[|s| - 1]) then
      var r := TrimEnd(s[..|s| - 1]);
      assert s[..|s| - 1][|r|..] + [s[|s| - 1]] == s[|r|..];
      r
    else s
  }

  /** `String.prototype.trim`. */
  function Trim(s: string): (r: string)
  {
    TrimEnd(TrimStart(s))
  }

  /** What trim keeps is a slice of its input with white space cut from both ends, and
      nothing but white space was cut. */
  lemma TrimIsSlice(s: string)
    ensures exists i, j :: 0 <= i <= j <= |s| && Trim(s) == s[i..j]
                           && AllSpace(s[..i]) && AllSpace(s[j..])
    ensures Trim(s) == [] || (!IsSpace(Trim(s)[0]) && !IsSpace(Trim(s)[|Trim(s)| - 1]))
  {
    var t := TrimStart(s);
    var i := |s| - |t|;
    var r := TrimEnd(t);
    var j := i + |r|;
    SuffixSlices(s, i, |r|);
    assert Trim(s) == s[i..j] && AllSpace(s[..i]) && AllSpace(s[j..]);
    if r != [] {
      assert r[0] == t[0];
    }
  }

  lemma SuffixSlices(s: string, i: nat, n: nat)
    requires i + n <= |s|
    ensures s[i..][..n] == s[i..i + n] && s[i..][n..] == s[i + n..]
  {
  }

  /** Trimming is idempotent. */
  lemma TrimIdempotent(s: string)
    ensures Trim(Trim(s)) == Trim(s)
  {
    TrimIsSlice(s);
  }

  predicate StartsWith(s: string, prefix: string) {
    |prefix| <= |s| && s[..|prefix|] == prefix
  }

  /** `s.includes(sub)`, or a regular expression that is a plain literal, tested with `.test`. */
  predicate Contains(s: string, sub: string)
    decreases |s|
  {
    StartsWith(s, sub) || (s != [] && Contains(s[1..], sub))
  }

  /** A regular expression `a|b|c` of plain literals, tested with `.test`. */
  predicate ContainsAny(s: string, subs: seq<string>) {
    exists k :: 0 <= k < |subs| && Contains(s, subs[k])
  }

  function LowerChar(c: char): char {
    if 'A' <= c <= 'Z' then (c as int + 32) as char else c
  }

  /** ASCII lower-casing, which is what the `i` flag (without `u`) amounts to when the
      pattern's letters are ASCII. */
  function ToLowerAscii(s: string): (r: string)
    ensures |r| == |s|
  {
    seq(|s|, i requires 0 <= i < |s| => LowerChar(s[i]))
  }

  /** `s.substring(0, n)`. */
  function Prefix(s: string, n: nat): (r: string)
    ensures |r| == if n < |s| then n else |s|
  {
    if n < |s| then s[..n] else s
  }

  /** `s.replace(/\s+/g, ' ')`: every maximal run of white space becomes one space. */
  function CollapseSpaces(s: string): (r: string)
    ensures |r| <= |s|
    ensures s != [] ==> r != []
    decreases |s|
  {
    if s == [] then []
    else if IsSpace(s[0]) then [' '] + CollapseSpaces(TrimStart(s[1..]))
    else [s[0]] + CollapseSpaces(s[1..])
  }

  /** `s.split(c)` for a one-character separator. */
  function Split(s: string, c: char): (r: seq<string>)
    ensures |r| >= 1
    ensures forall k :: 0 <= k < |r| ==> c !in r[k]
  {
    if s == [] then [[]]
    else
      var rest := Split(s[1..], c);
      if s[0] == c then [[]] + rest else [[s[0]] + rest[0]] + rest[1..]
  }

  /** `parts.join(c)` for a one-character separator. */
  function Join(parts: seq<string>, c: char): string {
    if |parts| == 0 then []
    else if |parts| == 1 then parts[0]
    else parts[0] + [c] + Join(parts[1..], c)
  }

  /** Joining what was split gives back the string. */
  lemma {:induction false} JoinSplit(s: string, c: char)
    ensures Join(Split(s, c), c) == s
  {
    if s != [] {
      JoinSplit(s[1..], c);
      var rest := Split(s[1..], c);
      if s[0] != c {
        if |rest| > 1 {
          assert Join([[s[0]] + rest[0]] + rest[1..], c)
              == [s[0]] + rest[0] + [c] + Join(rest[1..], c);
          assert Join(rest, c) == rest[0] + [c] + Join(rest[1..], c);
        }
        assert Join(Split(s, c), c) == [s[0]] + Join(rest, c);
      } else {
        assert Split(s, c) == [[]] + rest;
        assert Join(Split(s, c), c) == [] + [c] + Join(rest, c);
      }
    }
  }

  /** Joining a prefix of the pieces gives a prefix of the string. */
  lemma {:induction false} JoinSplitPrefix(s: string, c: char, k: nat)
    requires k <= |Split(s, c)|
    ensures StartsWith(s, Join(Split(s, c)[..k], c))
  {
    var parts := Split(s, c);
    if k == |parts| {
      assert parts[..k] == parts;
      JoinSplit(s, c);
    } else if k == 0 {
    } else if s != [] {
      var rest := Split(s[1..], c);
      if s[0] == c {
        assert parts == [[]] + rest;
        if k == 1 {
          assert Join(parts[..1], c) == [];
        } else {
          JoinSplitPrefix(s[1..], c, k - 1);
          assert parts[..k] == [[]] + rest[..k - 1];
          assert Join(parts[..k], c) == [] + [c] + Join(rest[..k - 1], c);
        }
      } else {
        assert parts == [[s[0]] + rest[0]] + rest[1..];
        JoinSplitPrefix(s[1..], c, k);
        if k == 1 {
          assert Join(parts[..1], c) == [s[0]] + rest[0];
          assert Join(rest[..1], c) == rest[0];
        } else {
          assert parts[..k] == [[s[0]] + rest[0]] + rest[1..k];
          assert rest[..k] == [rest[0]] + rest[1..k];
          assert Join(parts[..k], c) == [s[0]] + rest[0] + [c] + Join(rest[1..k], c);
          assert Join(rest[..k], c) == rest[0] + [c] + Join(rest[1..k], c);
        }
      }
    }
  }

  /** `s.split(/\s+/)`: the pieces between maximal runs of white space (empty pieces at
      either end when `s` starts or ends with white space). */
  function SplitOnSpaceRuns(s: string): (r: seq<string>)
    ensures |r| >= 1
    ensures forall k :: 0 <= k < |r| ==> !exists i :: 0 <= i < |r[k]| && IsSpace(r[k][i])
    decreases |s|
  {
    if s == [] then [[]]
    else if IsSpace(s[0]) then [[]] + SplitOnSpaceRuns(TrimStart(s[1..]))
    else
      var rest := SplitOnSpaceRuns(s[1..]);
      [[s[0]] + rest[0]] + rest[1..]
  }

  /** `s.replace(/x/g, y)` for single characters. */
  function ReplaceChar(s: string, x: char, y: char): (r: string)
    ensures |r| == |s|
    ensures forall i :: 0 <= i < |s| ==> r[i] == if s[i] == x then y else s[i]
  {
    seq(|s|, i requires 0 <= i < |s| => if s[i] == x then y else s[i])
  }
}
