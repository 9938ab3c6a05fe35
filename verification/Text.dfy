// String helpers shared by the models: the optional value, and the whitespace trimming that
// the worker applies to identifiers before it compares them.
module Text {
  datatype Option<+T> = None | Some(value: T)

  /** unicode.IsSpace. */
  predicate IsSpace(c: char) {
    var n := c as int;
    9 <= n <= 13 || n == 32 || n == 0x85 || n == 0xA0 || n == 0x1680 || 0x2000 <= n <= 0x200A ||
    n == 0x2028 || n == 0x2029 || n == 0x202F || n == 0x205F || n == 0x3000
  }

  function TrimLeft(s: string): (r: string)
    ensures |r| <= |s|
    ensures r != "" ==> !IsSpace(r[0])
  {
    if s != "" && IsSpace(s[0]) then TrimLeft(s[1..]) else s
  }

  function TrimRight(s: string): (r: string)
    ensures |r| <= |s| && r == s[..|r|]
    ensures r != "" ==> !IsSpace(r[|r| - 1])
  {
    if s != "" && IsSpace(s[|s| - 1]) then TrimRight(s[..|s| - 1]) else s
  }

  /** strings.TrimSpace. */
  function Trim(s: string): (r: string)
    ensures r != "" ==> !IsSpace(r[0]) && !IsSpace(r[|r| - 1])
    ensures Trimmed(r)
  {
    TrimRight(TrimLeft(s))
  }

  predicate Trimmed(s: string) {
    s != "" ==> !IsSpace(s[0]) && !IsSpace(s[|s| - 1])
  }

  /** unicode.IsControl. */
  predicate IsControl(c: char) {
    c as int < 32 || 0x7F <= c as int <= 0x9F
  }

  function BlankControls(s: string): string {
    seq(|s|, i requires 0 <= i < |s| => if IsControl(s[i]) then ' ' else s[i])
  }

  /** The maximal runs of non-space characters, joined by single spaces (strings.Fields and strings.Join). */
  function JoinFields(s: string): string
    decreases |s|
  {
    var rest := TrimLeft(s);
    if rest == "" then ""
    else
      var n := WordLength(rest);
      var tail := JoinFields(rest[n..]);
      if tail == "" then rest[..n] else rest[..n] + " " + tail
  }

  function WordLength(s: string): (n: nat)
    ensures n <= |s| && (s != "" && !IsSpace(s[0]) ==> n > 0)
  {
    if s == "" || IsSpace(s[0]) then 0 else 1 + WordLength(s[1..])
  }

  function CleanText(value: string, maxRunes: nat): (r: string)
    ensures |r| <= maxRunes
  {
    var joined := JoinFields(BlankControls(value));
    if |joined| > maxRunes then joined[..maxRunes] else joined
  }

  lemma {:induction false} OneWord(s: string)
    requires forall i :: 0 <= i < |s| ==> !IsSpace(s[i])
    ensures WordLength(s) == |s|
  {
    if s != "" {
      OneWord(s[1..]);
    }
  }

  /** A word without control characters that is short enough is left alone. */
  lemma CleanWord(s: string, maxRunes: nat)
    requires |s| <= maxRunes && forall i :: 0 <= i < |s| ==> !IsSpace(s[i]) && !IsControl(s[i])
    ensures CleanText(s, maxRunes) == s
  {
    assert BlankControls(s) == s;
    if s != "" {
      OneWord(s);
      assert TrimLeft(s) == s && s[|s|..] == "" && JoinFields("") == "" && s[..|s|] == s;
    }
  }

  // ----- decimal rendering, as in the %d of an utterance ID -----

  function Digit(d: nat): char
    requires d < 10
  {
    '0' + d as char
  }

  function Decimal(n: nat): (r: string)
    ensures |r| > 0 && forall i :: 0 <= i < |r| ==> '0' <= r[i] <= '9'
  {
    if n < 10 then [Digit(n)] else Decimal(n / 10) + [Digit(n % 10)]
  }

  lemma DecimalInjective(a: nat, b: nat)
    requires Decimal(a) == Decimal(b)
    ensures a == b
  {
    var da, db := Decimal(a), Decimal(b);
    assert da[|da| - 1] == db[|db| - 1];
    if a >= 10 && b >= 10 {
      assert da[..|da| - 1] == Decimal(a / 10) && db[..|db| - 1] == Decimal(b / 10);
      DecimalInjective(a / 10, b / 10);
    }
  }
}
