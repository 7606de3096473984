/** Options and the string operations the other modules share. */
module Text {

  datatype Option<+T> = None | Some(value: T)

  /** The characters a Go whitespace trim removes (unicode.IsSpace). */
  predicate IsSpace(c: char) {
    || c in {'\t', '\n', '\U{B}', '\U{C}', '\r', ' ', '\U{85}', '\U{A0}', '\U{1680}'}
    || '\U{2000}' <= c <= '\U{200A}'
    || c in {'\U{2028}', '\U{2029}', '\U{202F}', '\U{205F}', '\U{3000}'}
  }

  function TrimLeft(s: string): (r: string)
    ensures |r| <= |s| && r == s[|s| - |r|..]
    ensures r != "" ==> !IsSpace(r[0])
    ensures forall i :: 0 <= i < |s| - |r| ==> IsSpace(s[i])
  {
    if s != "" && IsSpace(s[0]) then TrimLeft(s[1..]) else s
  }

  function TrimRight(s: string): (r: string)
    ensures |r| <= |s| && r == s[..|r|]
    ensures r != "" ==> !IsSpace(r[|r| - 1])
    ensures forall i :: |r| <= i < |s| ==> IsSpace(s[i])
  {
    if s != "" && IsSpace(s[|s| - 1]) then TrimRight(s[..|s| - 1]) else s
  }

  function TrimSpace(s: string): string {
    TrimRight(TrimLeft(s))
  }

  /** Trimming takes white space off both ends and nothing else, and leaves none there. */
  lemma TrimSpaceExactly(s: string) returns (a: nat, b: nat)
    ensures a <= b <= |s| && TrimSpace(s) == s[a..b] && Trimmed(TrimSpace(s))
    ensures forall i :: 0 <= i < a || b <= i < |s| ==> IsSpace(s[i])
  {
    hide IsSpace, TrimLeft, TrimRight;
    var l := TrimLeft(s);
    var r := TrimRight(l);
    a, b := |s| - |l|, |s| - |l| + |r|;
    assert l == s[a..] && r == l[..|r|];
    forall i | b <= i < |s| ensures IsSpace(s[i]) { assert l[i - a] == s[i]; }
    if r != "" { assert r[0] == l[0]; }
  }

  predicate Blank(s: string) {
    TrimSpace(s) == ""
  }

  predicate Trimmed(s: string) {
    s == "" || (!IsSpace(s[0]) && !IsSpace(s[|s| - 1]))
  }

  lemma TrimSpaceKeepsTrimmed(s: string)
    requires Trimmed(s)
    ensures TrimSpace(s) == s
  {
    if s != "" {
      assert TrimLeft(s) == s;
      assert TrimRight(s) == s;
    }
  }

  function LowerChar(c: char): char {
    if 'A' <= c <= 'Z' then c - 'A' + 'a' else c
  }

  const CAPITALS: string := "ABCDEFGHIJKLMNOPQRSTUVWXYZ"
  const SMALL: string := "abcdefghijklmnopqrstuvwxyz"

  lemma AreCapitals(c: char)
    ensures c in CAPITALS <==> 'A' <= c <= 'Z'
  {
    if 'A' <= c <= 'Z' { assert CAPITALS[c as int - 'A' as int] == c; }
  }

  lemma AreSmall(c: char)
    ensures c in SMALL <==> 'a' <= c <= 'z'
  {
    if 'a' <= c <= 'z' { assert SMALL[c as int - 'a' as int] == c; }
  }

  /** Each capital has its small letter, and nothing else changes. */
  lemma LowersLetters(c: char, i: nat)
    ensures i < 26 && CAPITALS[i] == c ==> LowerChar(c) == SMALL[i]
    ensures c !in CAPITALS ==> LowerChar(c) == c
  {
    AreCapitals(c);
  }

  /** Lower case on the letters A-Z; other characters are left alone. */
  function Lower(s: string): (r: string)
    ensures |r| == |s|
    ensures forall i :: 0 <= i < |s| ==> r[i] == LowerChar(s[i])
  {
    seq(|s|, i requires 0 <= i < |s| => LowerChar(s[i]))
  }

  predicate HasPrefix(s: string, p: string) {
    |p| <= |s| && s[..|p|] == p
  }

  /** Offset of the leftmost occurrence of a non-empty text, or -1. */
  function IndexOf(s: string, p: string): (r: int)
    requires p != ""
    ensures -1 <= r && (r >= 0 ==> r + |p| <= |s| && HasPrefix(s[r..], p))
  {
    if HasPrefix(s, p) then 0
    else if s == "" then -1
    else
      var r := IndexOf(s[1..], p);
      if r < 0 then -1 else r + 1
  }

  /** It is an occurrence, there is none before it, and -1 means that there is none at all. */
  lemma {:induction false} IndexOfExactly(s: string, p: string)
    requires p != ""
    ensures var r := IndexOf(s, p);
      && (r >= 0 ==> HasPrefix(s[r..], p))
      && forall i :: 0 <= i < (if r < 0 then |s| else r) ==> !HasPrefix(s[i..], p)
  {
    hide HasPrefix;
    assert s[0..] == s;
    if s != "" && !HasPrefix(s, p) {
      IndexOfExactly(s[1..], p);
      forall i | 1 <= i < (if IndexOf(s, p) < 0 then |s| else IndexOf(s, p)) ensures !HasPrefix(s[i..], p) {
        assert s[1..][i - 1..] == s[i..];
      }
    }
  }

  /** Leftmost non-overlapping replacement of a non-empty text. */
  function ReplaceAll(s: string, old_: string, new_: string): string
    requires old_ != ""
  {
    if s == "" then ""
    else if HasPrefix(s, old_) then new_ + ReplaceAll(s[|old_|..], old_, new_)
    else [s[0]] + ReplaceAll(s[1..], old_, new_)
  }
}
