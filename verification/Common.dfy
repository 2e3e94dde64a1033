/** Small helpers shared by every component model. */
module Common {

  datatype Option<+T> = None | Some(value: T) {
    function GetOr(default: T): T {
      match this
      case Some(v) => v
      case None => default
    }
  }

  /** Unicode `White_Space`, the class `str::trim` strips. */
  predicate IsWhitespace(c: char) {
    var u := c as int;
    || 0x09 <= u <= 0x0D || u == 0x20 || u == 0x85 || u == 0xA0 || u == 0x1680
    || 0x2000 <= u <= 0x200A || u == 0x2028 || u == 0x2029 || u == 0x202F || u == 0x205F || u == 0x3000
  }

  function TrimStart(s: string): string {
    if s != "" && IsWhitespace(s[0]) then TrimStart(s[1..]) else s
  }

  function TrimEnd(s: string): string {
    if s != "" && IsWhitespace(s[|s| - 1]) then TrimEnd(s[..|s| - 1]) else s
  }

  function Trim(s: string): string {
    TrimEnd(TrimStart(s))
  }

  const WHITE_SPACE :=
    "\t\n\U{0B}\U{0C}\r \U{85}\U{A0}\U{1680}\U{2000}\U{2001}\U{2002}\U{2003}\U{2004}\U{2005}\U{2006}\U{2007}"
    + "\U{2008}\U{2009}\U{200A}\U{2028}\U{2029}\U{202F}\U{205F}\U{3000}"

  lemma WhitespaceExactly(c: char)
    ensures IsWhitespace(c) <==> c in WHITE_SPACE
  {
  }

  /** Some character is not white space. */
  predicate HasText(s: string) {
    exists i :: 0 <= i < |s| && !IsWhitespace(s[i])
  }

  lemma HasTextConcat(a: string, b: string)
    ensures HasText(a + b) <==> HasText(a) || HasText(b)
  {
    if i :| 0 <= i < |a| && !IsWhitespace(a[i]) {
      assert (a + b)[i] == a[i];
    }
    if i :| 0 <= i < |b| && !IsWhitespace(b[i]) {
      assert (a + b)[|a| + i] == b[i];
    }
  }

  lemma {:induction false} TrimStartCut(s: string) returns (a: string)
    ensures s == a + TrimStart(s) && !HasText(a)
    ensures TrimStart(s) == "" || !IsWhitespace(TrimStart(s)[0])
  {
    if s != "" && IsWhitespace(s[0]) {
      var rest := TrimStartCut(s[1..]);
      a := [s[0]] + rest;
      HasTextConcat([s[0]], rest);
    } else {
      a := "";
    }
  }

  lemma {:induction false} TrimEndCut(s: string) returns (b: string)
    ensures s == TrimEnd(s) + b && !HasText(b)
    ensures TrimEnd(s) == "" || !IsWhitespace(TrimEnd(s)[|TrimEnd(s)| - 1])
  {
    if s != "" && IsWhitespace(s[|s| - 1]) {
      var rest := TrimEndCut(s[..|s| - 1]);
      b := rest + [s[|s| - 1]];
      HasTextConcat(rest, [s[|s| - 1]]);
    } else {
      b := "";
    }
  }

  /** Trimming takes off white space at both ends, and all of it. */
  lemma TrimExactly(s: string) returns (a: string, b: string)
    ensures s == a + Trim(s) + b && !HasText(a) && !HasText(b)
    ensures Trim(s) == "" || (!IsWhitespace(Trim(s)[0]) && !IsWhitespace(Trim(s)[|Trim(s)| - 1]))
  {
    a := TrimStartCut(s);
    b := TrimEndCut(TrimStart(s));
    assert Trim(s) != "" ==> Trim(s)[0] == TrimStart(s)[0];
  }

  /** A text trims to nothing exactly if it is all white space. */
  lemma BlankExactly(s: string)
    ensures Trim(s) != "" <==> HasText(s)
  {
    var a, b := TrimExactly(s);
    HasTextConcat(a, Trim(s));
    HasTextConcat(a + Trim(s), b);
  }

  /** `str::contains`. */
  predicate Contains(s: string, sub: string) {
    exists i :: 0 <= i <= |s| && sub <= s[i..]
  }

  lemma ContainsExactly(s: string, sub: string)
    ensures Contains(s, sub) <==> exists a, b :: s == a + sub + b
  {
    if i :| 0 <= i <= |s| && sub <= s[i..] {
      assert s == s[..i] + sub + s[i + |sub|..];
    }
    if a, b :| s == a + sub + b {
      assert sub <= s[|a|..];
    }
  }

  ghost predicate NoDuplicates<T>(s: seq<T>) {
    forall i, j :: 0 <= i < j < |s| ==> s[i] != s[j]
  }

  /** A map read with a default, as `get(..).cloned().unwrap_or_default()` does. */
  function Lookup(m: map<string, string>, key: string): string {
    if key in m then m[key] else ""
  }
}
