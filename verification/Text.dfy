/** Rune strings: the pieces of Go's `strings` package that the modelled code calls. */
module Text {

  datatype Option<+T> = None | Some(value: T)

  function Max(a: int, b: int): int { if a > b then a else b }

  function Min(a: int, b: int): int { if a < b then a else b }

  /** unicode.IsSpace, the class that strings.TrimSpace removes. */
  predicate IsSpace(c: char) {
    var n := c as int;
    || 9 <= n <= 13 || n == 0x20 || n == 0x85 || n == 0xA0 || n == 0x1680
    || 0x2000 <= n <= 0x200A || n == 0x2028 || n == 0x2029 || n == 0x202F || n == 0x205F || n == 0x3000
  }

  /** The four runes that the splitter trims and skips itself. */
  predicate IsBlank(c: char) {
    c == ' ' || c == '\t' || c == '\n' || c == '\r'
  }

  /** The first index at or after i whose rune stays. */
  function FirstKept(s: string, i: nat, cut: char -> bool): (r: nat)
    requires i <= |s|
    ensures i <= r <= |s|
    ensures forall k :: i <= k < r ==> cut(s[k])
    ensures r < |s| ==> !cut(s[r])
    decreases |s| - i
  {
    if i < |s| && cut(s[i]) then FirstKept(s, i + 1, cut) else i
  }

  /** One past the last index below i whose rune stays. */
  function LastKept(s: string, i: nat, cut: char -> bool): (r: nat)
    requires i <= |s|
    ensures r <= i
    ensures forall k :: r <= k < i ==> cut(s[k])
    ensures r > 0 ==> !cut(s[r - 1])
  {
    if i > 0 && cut(s[i - 1]) then LastKept(s, i - 1, cut) else i
  }

  function TrimStart(s: string, cut: char -> bool): string {
    s[FirstKept(s, 0, cut)..]
  }

  function TrimEnd(s: string, cut: char -> bool): (r: string)
    ensures |r| <= |s| && r == s[..|r|]
    ensures forall i :: |r| <= i < |s| ==> cut(s[i])
    ensures r != [] ==> !cut(r[|r| - 1])
  {
    s[..LastKept(s, |s|, cut)]
  }

  function TrimSpace(s: string): (r: string)
    ensures |r| <= |s|
    ensures r != [] ==> !IsSpace(r[0]) && !IsSpace(r[|r| - 1])
  {
    TrimEnd(TrimStart(s, IsSpace), IsSpace)
  }

  /** A string that starts with a non-space keeps its front when it is trimmed. */
  lemma TrimSpaceFromInk(s: string)
    requires s != [] && !IsSpace(s[0])
    ensures TrimSpace(s) == TrimEnd(s, IsSpace)
    ensures TrimSpace(s) != [] && TrimSpace(s)[0] == s[0]
  {
    assert TrimStart(s, IsSpace) == s;
  }

  /** Two prefixes with the same cut-off property are equal: trimming at the end is characterised. */
  lemma TrimEndUnique(s: string, cut: char -> bool, k: nat)
    requires k <= |s|
    requires forall i :: k <= i < |s| ==> cut(s[i])
    requires k > 0 ==> !cut(s[k - 1])
    ensures TrimEnd(s, cut) == s[..k]
  {
  }

  /** The runes of s that are not white space, in order. */
  function Ink(s: string): (r: string) {
    if s == [] then [] else (if IsSpace(s[0]) then [] else [s[0]]) + Ink(s[1..])
  }

  lemma {:induction false} InkConcat(s: string, t: string)
    ensures Ink(s + t) == Ink(s) + Ink(t)
  {
    if s == [] {
      assert s + t == t;
    } else {
      assert (s + t)[1..] == s[1..] + t;
      InkConcat(s[1..], t);
    }
  }

  lemma {:induction false} InkOfSpaces(s: string)
    requires forall i :: 0 <= i < |s| ==> IsSpace(s[i])
    ensures Ink(s) == []
  {
    if s != [] {
      InkOfSpaces(s[1..]);
    }
  }

  lemma {:induction false} InkOfInk(s: string)
    requires forall i :: 0 <= i < |s| ==> !IsSpace(s[i])
    ensures Ink(s) == s
  {
    if s != [] {
      InkOfInk(s[1..]);
    }
  }

  lemma InkTrimEnd(s: string, cut: char -> bool)
    requires forall c :: cut(c) ==> IsSpace(c)
    ensures Ink(TrimEnd(s, cut)) == Ink(s)
  {
    var r := TrimEnd(s, cut);
    assert s == r + s[|r|..];
    InkConcat(r, s[|r|..]);
    InkOfSpaces(s[|r|..]);
  }
}
