/**
 * The string primitives the source leans on (`trim`, `toLowerCase`,
 * `startsWith`, `includes`, `split`, `join`), on `seq<char>`.
 */
module Text {

  /** JavaScript's WhiteSpace and LineTerminator characters, which `trim` removes. */
  predicate IsSpace(c: char) {
    var n := c as int;
    n == 0x09 || n == 0x0A || n == 0x0B || n == 0x0C || n == 0x0D || n == 0x20
    || n == 0xA0 || n == 0x1680 || (0x2000 <= n <= 0x200A) || n == 0x2028
    || n == 0x2029 || n == 0x202F || n == 0x205F || n == 0x3000 || n == 0xFEFF
  }

  function TrimStart(s: string): (r: string)
    ensures |r| <= |s| && r == s[|s| - |r|..]
    ensures r == [] || !IsSpace(r[0])
    ensures forall i :: 0 <= i < |s| - |r| ==> IsSpace(s[i])
  {
    if s != [] && IsSpace(s[0]) then TrimStart(s[1..]) else s
  }

  function TrimEnd(s: string): (r: string)
    ensures |r| <= |s| && r == s[..|r|]
    ensures r == [] || !IsSpace(r[|r| - 1])
    ensures forall i :: |r| <= i < |s| ==> IsSpace(s[i])
  {
    if s != [] && IsSpace(s[|s| - 1]) then TrimEnd(s[..|s| - 1]) else s
  }

  /** `String.prototype.trim`: strips leading and trailing whitespace. */
  function Trim(s: string): (r: string)
    ensures r == [] || (!IsSpace(r[0]) && !IsSpace(r[|r| - 1]))
    ensures exists k :: OccursAt(s, r, k)
  {
    var t := TrimStart(s);
    var r := TrimEnd(t);
    assert OccursAt(s, r, |s| - |t|);
    r
  }

  /** A string without surrounding whitespace is its own trim. */
  lemma TrimNoSpace(s: string)
    requires s == [] || (!IsSpace(s[0]) && !IsSpace(s[|s| - 1]))
    ensures Trim(s) == s
  {
  }

  predicate IsUpper(c: char) { 'A' <= c <= 'Z' }

  /** Case mapping on ASCII letters; other characters are kept. */
  function LowerChar(c: char): (d: char)
    ensures !IsUpper(d)
    ensures !IsUpper(c) ==> d == c
  {
    if IsUpper(c) then (c as int + 32) as char else c
  }

  function ToLower(s: string): (r: string)
    ensures |r| == |s|
    ensures forall i :: 0 <= i < |s| ==> r[i] == LowerChar(s[i])
  {
    if s == [] then [] else [LowerChar(s[0])] + ToLower(s[1..])
  }

  predicate IsLower(s: string) {
    forall i :: 0 <= i < |s| ==> !IsUpper(s[i])
  }

  lemma ToLowerIsLower(s: string)
    ensures IsLower(ToLower(s))
    ensures IsLower(s) ==> ToLower(s) == s
  {
  }

  /** Lowercasing works character by character, so it distributes over concatenation. */
  lemma ToLowerAppend(a: string, b: string)
    ensures ToLower(a + b) == ToLower(a) + ToLower(b)
  {
    assert forall i :: 0 <= i < |a + b| ==> ToLower(a + b)[i] == (ToLower(a) + ToLower(b))[i];
  }

  predicate StartsWith(s: string, prefix: string) {
    |prefix| <= |s| && s[..|prefix|] == prefix
  }

  predicate EndsWith(s: string, suffix: string) {
    |suffix| <= |s| && s[|s| - |suffix|..] == suffix
  }

  /** `sub` occurs in `s` starting at index `i`. */
  predicate OccursAt(s: string, sub: string, i: int) {
    0 <= i <= |s| - |sub| && s[i..i + |sub|] == sub
  }

  /** `String.prototype.includes`. */
  predicate Contains(s: string, sub: string) {
    exists i | 0 <= i <= |s| - |sub| :: OccursAt(s, sub, i)
  }

  function IndexOfChar(s: string, c: char): (i: nat)
    requires c in s
    ensures i < |s| && s[i] == c && c !in s[..i]
  {
    if s[0] == c then 0 else 1 + IndexOfChar(s[1..], c)
  }

  /** The index found is the first one holding `c`. */
  lemma {:induction false} IndexOfCharFirst(s: string, c: char, k: nat)
    requires k < |s| && s[k] == c
    ensures IndexOfChar(s, c) <= k
  {
    if s[0] != c {
      IndexOfCharFirst(s[1..], c, k - 1);
    }
  }

  /** `String.prototype.split` with a one-character separator. */
  function Split(s: string, sep: char): (parts: seq<string>)
    ensures |parts| >= 1
    ensures forall i :: 0 <= i < |parts| ==> sep !in parts[i]
    decreases |s|
  {
    if sep !in s then [s]
    else
      var i := IndexOfChar(s, sep);
      [s[..i]] + Split(s[i + 1..], sep)
  }

  /** `Array.prototype.join`. */
  function Join(parts: seq<string>, sep: string): string {
    if |parts| == 0 then ""
    else if |parts| == 1 then parts[0]
    else parts[0] + sep + Join(parts[1..], sep)
  }

  /** Splitting on a character and joining with it gives the string back. */
  lemma {:induction false} JoinSplit(s: string, sep: char)
    ensures Join(Split(s, sep), [sep]) == s
    decreases |s|
  {
    if sep in s {
      var i := IndexOfChar(s, sep);
      var rest := s[i + 1..];
      JoinSplit(rest, sep);
      assert Split(s, sep) == [s[..i]] + Split(rest, sep);
      assert s == s[..i] + [sep] + rest;
    }
  }
}
