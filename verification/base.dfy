/** Values and string operations shared by every part of the model: optional
    values, JavaScript truthiness of strings, ASCII case mapping, substring
    search and `String.prototype.trim`. */
module Base {

  /** A JSON value that may be absent or `null`. */
  datatype Option<+T> = None | Some(value: T) {
    function GetOr(default: T): T {
      match this
      case Some(v) => v
      case None => default
    }
  }

  /** JavaScript truthiness of a string that may be absent: `null`,
      `undefined` and `""` are falsy, every other string is truthy. */
  predicate Truthy(o: Option<string>) {
    o.Some? && o.value != ""
  }

  /** The expression `s || null` for a string `s`. */
  function OrNull(s: string): (r: Option<string>)
    ensures Truthy(r) <==> s != ""
    ensures r.None? <==> s == ""
    ensures s != "" ==> r == Some(s)
  {
    if s == "" then None else Some(s)
  }

  /** The expression `o || null` for a string that may be absent. */
  function TruthyOrNull(o: Option<string>): (r: Option<string>)
    ensures r.Some? <==> Truthy(o)
    ensures r.Some? ==> r == o
  {
    if Truthy(o) then o else None
  }

  /** `o || null` normalises: it keeps truthiness, never yields the empty
      string, agrees with `s || null` on a present string, and applying it
      twice is the same as once. */
  lemma TruthyOrNullNormalises(o: Option<string>)
    ensures Truthy(TruthyOrNull(o)) <==> Truthy(o)
    ensures TruthyOrNull(o) != Some("")
    ensures o.Some? ==> TruthyOrNull(o) == OrNull(o.value)
    ensures TruthyOrNull(TruthyOrNull(o)) == TruthyOrNull(o)
  {
  }

  // ---------------------------------------------------------------------
  // ASCII case mapping (`toLowerCase` / `toUpperCase` restricted to ASCII)
  // ---------------------------------------------------------------------

  function LowerChar(c: char): char {
    if 'A' <= c <= 'Z' then (c as int + 32) as char else c
  }

  function UpperChar(c: char): char {
    if 'a' <= c <= 'z' then (c as int - 32) as char else c
  }

  /** `s.toLowerCase()` on ASCII: each upper-case letter moves 32 code
      points down to its lower-case partner, every other character stays. */
  function Lower(s: string): (r: string)
    ensures |r| == |s|
    ensures forall i :: 0 <= i < |s| && 'A' <= s[i] <= 'Z' ==> r[i] as int == s[i] as int + 32
    ensures forall i :: 0 <= i < |s| && !('A' <= s[i] <= 'Z') ==> r[i] == s[i]
  {
    seq(|s|, i requires 0 <= i < |s| => LowerChar(s[i]))
  }

  /** `s.toUpperCase()` on ASCII: each lower-case letter moves 32 code
      points up to its upper-case partner, every other character stays. */
  function Upper(s: string): (r: string)
    ensures |r| == |s|
    ensures forall i :: 0 <= i < |s| && 'a' <= s[i] <= 'z' ==> r[i] as int == s[i] as int - 32
    ensures forall i :: 0 <= i < |s| && !('a' <= s[i] <= 'z') ==> r[i] == s[i]
  {
    seq(|s|, i requires 0 <= i < |s| => UpperChar(s[i]))
  }

  /** A string with no lower-case ASCII letter is its own upper-case form. */
  lemma UpperOfUpperCase(s: string)
    requires forall i :: 0 <= i < |s| ==> !('a' <= s[i] <= 'z')
    ensures Upper(s) == s
  {
  }

  /** A lower-cased string has no upper-case ASCII letter. */
  lemma LowerHasNoUpperCase(s: string, k: nat)
    ensures k < |s| ==> !('A' <= Lower(s)[k] <= 'Z')
  {
  }

  /** Upper-casing an upper-case name and lower-casing it again agree with
      lower-casing it directly. */
  lemma LowerOfUpper(s: string)
    ensures Lower(Upper(s)) == Lower(s)
  {
  }

  // ---------------------------------------------------------------------
  // Substring search (`String.prototype.includes`)
  // ---------------------------------------------------------------------

  /** `s.includes(t)`: `t` occurs in `s` at some offset. */
  predicate Includes(s: string, t: string) {
    exists i | 0 <= i <= |s| - |t| :: OccursAt(s, t, i)
  }

  /** `t` occurs in `s` starting at offset `i`. */
  predicate OccursAt(s: string, t: string, i: int) {
    0 <= i && i + |t| <= |s| && s[i..i + |t|] == t
  }

  // ---------------------------------------------------------------------
  // `String.prototype.trim`
  // ---------------------------------------------------------------------

  /** The characters ECMAScript's `trim` removes: white space and line
      terminators (section 12.2 and 12.3 of ECMA-262), including the Unicode
      space separators. */
  predicate IsWhiteSpace(c: char) {
    var n := c as int;
    n == 0x09 || n == 0x0A || n == 0x0B || n == 0x0C || n == 0x0D || n == 0x20
    || n == 0xA0 || n == 0x1680 || (0x2000 <= n <= 0x200A) || n == 0x2028
    || n == 0x2029 || n == 0x202F || n == 0x205F || n == 0x3000 || n == 0xFEFF
  }

  function TrimStart(s: string): (r: string)
    ensures |r| <= |s| && r == s[|s| - |r|..]
    ensures |r| > 0 ==> !IsWhiteSpace(r[0])
    ensures forall i :: 0 <= i < |s| - |r| ==> IsWhiteSpace(s[i])
  {
    if |s| > 0 && IsWhiteSpace(s[0]) then TrimStart(s[1..]) else s
  }

  function TrimEnd(s: string): (r: string)
    ensures |r| <= |s| && r == s[..|r|]
    ensures |r| > 0 ==> !IsWhiteSpace(r[|r| - 1])
    ensures forall i :: |r| <= i < |s| ==> IsWhiteSpace(s[i])
  {
    if |s| > 0 && IsWhiteSpace(s[|s| - 1]) then TrimEnd(s[..|s| - 1]) else s
  }

  /** `s.trim()`. */
  function Trim(s: string): string {
    TrimEnd(TrimStart(s))
  }

  /** `!s.trim()`: the string holds nothing but white space. */
  predicate IsBlank(s: string) {
    Trim(s) == ""
  }

  /** Trimming leaves nothing exactly when every character is white space. */
  lemma BlankIffAllWhiteSpace(s: string)
    ensures IsBlank(s) <==> forall i :: 0 <= i < |s| ==> IsWhiteSpace(s[i])
  {
    var a := TrimStart(s);
    if !forall i :: 0 <= i < |s| ==> IsWhiteSpace(s[i]) {
      var k :| 0 <= k < |s| && !IsWhiteSpace(s[k]);
      assert |s| - |a| <= k;
      assert a[k - (|s| - |a|)] == s[k];
      var b := TrimEnd(a);
      assert k - (|s| - |a|) < |b|;
    }
  }
}
