/** `${env:NAME}` references in MCP server settings: the scanning expander against a printer and parser of templates. */
module EnvTemplate {
  import opened Common

  const MARK := "${env:"

  /** Literal text, then a reference, then the rest; so no two literals are adjacent. */
  datatype Template = Tail(text: string) | Ref(text: string, name: string, rest: Template)

  predicate At(s: string, pat: string, i: nat) {
    i + |pat| <= |s| && s[i..i + |pat|] == pat
  }

  /** `str::find`: the first occurrence. */
  function Find(s: string, pat: string): (r: Option<nat>)
    ensures r.Some? ==> At(s, pat, r.value) && forall i: nat :: i < r.value ==> !At(s, pat, i)
    ensures r.None? ==> forall i: nat :: !At(s, pat, i)
  {
    if At(s, pat, 0) then Some(0)
    else if s == "" then None
    else
      AtShift(s, pat);
      var r := Find(s[1..], pat);
      if r.None? then None else Some(r.value + 1)
  }

  lemma AtShift(s: string, pat: string)
    requires s != ""
    ensures forall i: nat :: i > 0 ==> At(s, pat, i) == At(s[1..], pat, i - 1)
  {
    forall i: nat | i > 0 ensures At(s, pat, i) == At(s[1..], pat, i - 1) {
      assert i + |pat| <= |s| ==> s[1..][i - 1..i - 1 + |pat|] == s[i..i + |pat|];
    }
  }

  predicate AsciiDigit(c: char) {
    '0' <= c <= '9'
  }

  predicate AsciiAlphanumeric(c: char) {
    AsciiDigit(c) || 'a' <= c <= 'z' || 'A' <= c <= 'Z'
  }

  /** Non-empty; ASCII letters, digits and underscores; no leading digit. */
  predicate ValidName(name: string) {
    && name != ""
    && forall i :: 0 <= i < |name| ==>
         name[i] == '_' || (AsciiAlphanumeric(name[i]) && (i > 0 || !AsciiDigit(name[i])))
  }

  predicate WellFormed(t: Template) {
    && (forall i: nat :: i < |t.text| ==> !At(t.text, MARK, i))
    && (t.Ref? ==> ValidName(t.name) && WellFormed(t.rest))
  }

  function Print(t: Template): string {
    match t
    case Tail(text) => text
    case Ref(text, name, rest) => text + MARK + name + "}" + Print(rest)
  }

  /** The literals joined with the looked-up values; undefined as soon as one lookup is. */
  function Substitute(t: Template, lookup: string -> Option<string>): Option<string> {
    match t
    case Tail(text) => Some(text)
    case Ref(text, name, rest) =>
      var tail := Substitute(rest, lookup);
      if lookup(name).None? || tail.None? then None else Some(text + lookup(name).value + tail.value)
  }

  /** The templates' own parser. */
  function Parse(s: string): Option<Template>
    decreases |s|
  {
    match Find(s, MARK)
    case None => Some(Tail(s))
    case Some(start) =>
      var reference := s[start + 6..];
      match Find(reference, "}")
      case None => None
      case Some(end) =>
        if !ValidName(reference[..end]) then None
        else
          match Parse(reference[end + 1..])
          case None => None
          case Some(rest) => Some(Ref(s[..start], reference[..end], rest))
  }

  lemma FindPrinted(text: string, tail: string)
    requires forall i: nat :: i < |text| ==> !At(text, MARK, i)
    ensures Find(text + MARK + tail, MARK) == Some(|text|)
  {
    var s := text + MARK + tail;
    assert At(s, MARK, |text|);
    forall i: nat | i < |text| ensures !At(s, MARK, i) {
      assert |MARK| == 6;
      if i + 6 <= |text| {
        assert !At(text, MARK, i) && text[i..i + 6] == s[i..i + 6];
      } else {
        var k := |text| - i;
        assert s[i..i + 6][k] == s[|text|] == '$';
        assert MARK[k] != '$';
      }
    }
  }

  lemma FindBrace(name: string, tail: string)
    requires ValidName(name)
    ensures Find(name + "}" + tail, "}") == Some(|name|)
  {
    var s := name + "}" + tail;
    assert At(s, "}", |name|);
    forall i: nat | i < |name| ensures !At(s, "}", i) {
      assert s[i..i + 1][0] == name[i];
    }
  }

  /** Printing loses nothing. */
  lemma {:induction false} ParsePrint(t: Template)
    requires WellFormed(t)
    ensures Parse(Print(t)) == Some(t)
  {
    match t
    case Tail(text) =>
      assert forall i: nat :: At(text, MARK, i) ==> i < |text|;
    case Ref(text, name, rest) =>
      var after := name + "}" + Print(rest);
      var s := Print(t);
      assert s == text + MARK + after;
      FindPrinted(text, after);
      assert s[|text| + 6..] == after && s[..|text|] == text;
      assert after == name + "}" + Print(rest);
      FindBrace(name, Print(rest));
      assert after[..|name|] == name && after[|name| + 1..] == Print(rest);
      ParsePrint(rest);
  }

  lemma Split(s: string, start: nat, end: nat)
    requires At(s, MARK, start) && At(s[start + 6..], "}", end)
    ensures var reference := s[start + 6..];
            s == s[..start] + MARK + reference[..end] + "}" + reference[end + 1..]
  {
    var reference := s[start + 6..];
    assert s == s[..start] + s[start..start + 6] + reference;
    assert reference == reference[..end] + reference[end..end + 1] + reference[end + 1..];
  }

  lemma CleanPrefix(s: string, start: nat)
    requires start <= |s| && forall i: nat :: i < start ==> !At(s, MARK, i)
    ensures forall i: nat :: i < start ==> !At(s[..start], MARK, i)
  {
    forall i: nat | i < start ensures !At(s[..start], MARK, i) {
      assert |MARK| == 6;
      if i + 6 <= start {
        assert !At(s, MARK, i) && s[..start][i..i + 6] == s[i..i + 6];
      }
    }
  }

  /** Whatever parses is a well-formed template's printed text. */
  lemma {:induction false} PrintParse(s: string)
    requires Parse(s).Some?
    ensures WellFormed(Parse(s).value) && Print(Parse(s).value) == s
    decreases |s|
  {
    match Find(s, MARK)
    case None =>
    case Some(start) =>
      var reference := s[start + 6..];
      var end := Find(reference, "}").value;
      PrintParse(reference[end + 1..]);
      CleanPrefix(s, start);
      Split(s, start, end);
      assert Parse(s) == Some(Ref(s[..start], reference[..end], Parse(reference[end + 1..]).value));
  }

  /** The meaning of an input: its template's substitution, if it has a template. */
  function Meaning(s: string, lookup: string -> Option<string>): Option<string> {
    match Parse(s)
    case None => None
    case Some(t) => Substitute(t, lookup)
  }

  function Prepend(s: string, r: Option<string>): Option<string> {
    if r.None? then None else Some(s + r.value)
  }

  lemma MeaningStep(s: string, lookup: string -> Option<string>)
    requires Find(s, MARK).Some?
    ensures var start := Find(s, MARK).value;
            var reference := s[start + 6..];
            var end := Find(reference, "}");
            Meaning(s, lookup)
            == if end.None? || !ValidName(reference[..end.value]) || lookup(reference[..end.value]).None? then None
               else Prepend(s[..start] + lookup(reference[..end.value]).value,
                            Meaning(reference[end.value + 1..], lookup))
  {
  }

  /** One round of the scan, with the output produced so far. */
  lemma RoundKeeps(output: string, s: string, lookup: string -> Option<string>)
    requires Find(s, MARK).Some?
    ensures var start := Find(s, MARK).value;
            var reference := s[start + 6..];
            var end := Find(reference, "}");
            Prepend(output, Meaning(s, lookup))
            == if end.None? || !ValidName(reference[..end.value]) || lookup(reference[..end.value]).None? then None
               else Prepend(output + s[..start] + lookup(reference[..end.value]).value,
                            Meaning(reference[end.value + 1..], lookup))
  {
    MeaningStep(s, lookup);
    var start := Find(s, MARK).value;
    var reference := s[start + 6..];
    var end := Find(reference, "}");
    if end.Some? && lookup(reference[..end.value]).Some? {
      PrependTwice(output, s[..start], lookup(reference[..end.value]).value,
                   Meaning(reference[end.value + 1..], lookup));
    }
  }

  lemma PrependNothing(r: Option<string>)
    ensures Prepend("", r) == r
  {
    assert r.Some? ==> "" + r.value == r.value;
  }

  lemma PrependTwice(a: string, b: string, c: string, r: Option<string>)
    ensures Prepend(a, Prepend(b + c, r)) == Prepend(a + b + c, r)
  {
    assert r.Some? ==> a + (b + c + r.value) == a + b + c + r.value;
  }

  lemma LastPiece(output: string, s: string, lookup: string -> Option<string>)
    requires Find(s, MARK).None?
    ensures Prepend(output, Meaning(s, lookup)) == Some(output + s)
  {
  }

  /** The scanning loop: one pass over the input, appending looked-up values without rescanning them. */
  method Expand(input: string, lookup: string -> Option<string>) returns (r: Option<string>)
    ensures r == Meaning(input, lookup)
  {
    var output, rest := "", input;
    var start := Find(rest, MARK);
    PrependNothing(Meaning(input, lookup));
    while start.Some?
      invariant start == Find(rest, MARK)
      invariant Meaning(input, lookup) == Prepend(output, Meaning(rest, lookup))
      decreases |rest|
    {
      RoundKeeps(output, rest, lookup);
      output := output + rest[..start.value];
      var reference := rest[start.value + 6..];
      var end := Find(reference, "}");
      if end.None? {
        return None;
      }
      var name := reference[..end.value];
      if !ValidName(name) {
        return None;
      }
      var value := lookup(name);
      if value.None? {
        return None;
      }
      output := output + value.value;
      rest := reference[end.value + 1..];
      start := Find(rest, MARK);
    }
    LastPiece(output, rest, lookup);
    return Some(output + rest);
  }

  /** Expanding a printed template substitutes it; the result is None exactly when some lookup is. */
  lemma ExpandsTemplates(t: Template, lookup: string -> Option<string>)
    requires WellFormed(t)
    ensures Meaning(Print(t), lookup) == Substitute(t, lookup)
    ensures Substitute(t, lookup).None? <==> exists n :: n in NamesIn(t) && lookup(n).None?
  {
    ParsePrint(t);
    UndefinedExactly(t, lookup);
  }

  function NamesIn(t: Template): set<string> {
    if t.Tail? then {} else {t.name} + NamesIn(t.rest)
  }

  lemma {:induction false} UndefinedExactly(t: Template, lookup: string -> Option<string>)
    ensures Substitute(t, lookup).None? <==> exists n :: n in NamesIn(t) && lookup(n).None?
  {
    if t.Ref? {
      UndefinedExactly(t.rest, lookup);
      assert t.name in NamesIn(t);
      if n :| n in NamesIn(t.rest) && lookup(n).None? {
        assert n in NamesIn(t);
      }
    }
  }

  /** Nothing else expands: a result comes from exactly one well-formed template. */
  lemma ExpandsOnlyTemplates(input: string, lookup: string -> Option<string>)
    requires Meaning(input, lookup).Some?
    ensures exists t :: WellFormed(t) && Print(t) == input && Substitute(t, lookup) == Meaning(input, lookup)
    ensures forall t, u :: WellFormed(t) && WellFormed(u) && Print(t) == input && Print(u) == input ==> t == u
  {
    PrintParse(input);
    forall t, u | WellFormed(t) && WellFormed(u) && Print(t) == input && Print(u) == input ensures t == u {
      ParsePrint(t);
      ParsePrint(u);
    }
  }

  // ----- which references expand -----

  /** ASCII letters, digits and underscores, of which the first is not a digit. */
  predicate IsVariable(name: string) {
    && name != ""
    && !('0' <= name[0] <= '9')
    && forall i :: 0 <= i < |name| ==>
         'A' <= name[i] <= 'Z' || 'a' <= name[i] <= 'z' || '0' <= name[i] <= '9' || name[i] == '_'
  }

  lemma VariableExactly(name: string)
    ensures IsVariable(name) <==> ValidName(name)
  {
  }

  lemma ScanMark(rest: string)
    ensures Find("${env:" + rest, MARK) == Some(0) && ("${env:" + rest)[6..] == rest
  {
    assert At("${env:" + rest, MARK, 0);
  }

  lemma FindIs(s: string, pat: string, n: nat)
    requires At(s, pat, n) && forall i: nat :: i < n ==> !At(s, pat, i)
    ensures Find(s, pat) == Some(n)
  {
  }

  lemma BraceAt(s: string, i: nat)
    ensures At(s, "}", i) <==> i < |s| && s[i] == '}'
  {
    assert i < |s| ==> s[i..i + 1] == [s[i]];
  }

  lemma ScanBrace(name: string)
    requires '}' !in name
    ensures Find(name + "}", "}") == Some(|name|)
  {
    BraceAt(name + "}", |name|);
    forall i: nat | i < |name| ensures !At(name + "}", "}", i) {
      BraceAt(name + "}", i);
      assert (name + "}")[i] == name[i] && name[i] in name;
    }
    FindIs(name + "}", "}", |name|);
  }

  lemma CutBrace(name: string)
    ensures (name + "}")[..|name|] == name && (name + "}")[|name| + 1..] == ""
  {
  }

  /** A reference expands to the variable's value exactly if its name is one; any other name gives None. */
  lemma ReferenceExactly(name: string, lookup: string -> Option<string>)
    requires '}' !in name
    ensures Meaning("${env:" + name + "}", lookup) == if IsVariable(name) then lookup(name) else None
  {
    var s := "${env:" + (name + "}");
    assert "${env:" + name + "}" == s;
    ScanMark(name + "}");
    ScanBrace(name);
    CutBrace(name);
    VariableExactly(name);
    MeaningStep(s, lookup);
    NothingLeft(lookup);
    assert lookup(name).Some? ==> "" + lookup(name).value + "" == lookup(name).value;
  }

  lemma NothingLeft(lookup: string -> Option<string>)
    ensures Meaning("", lookup) == Some("")
  {
    assert forall i: nat :: !At("", MARK, i);
  }

  /** A reference that is not closed gives None. */
  lemma OpenReference(name: string, lookup: string -> Option<string>)
    requires '}' !in name
    ensures Meaning("${env:" + name, lookup) == None
  {
    var s := "${env:" + name;
    ScanMark(name);
    forall i: nat ensures !At(name, "}", i) {
      BraceAt(name, i);
    }
    MeaningStep(s, lookup);
  }

  lemma MarkExactly(s: string)
    ensures (exists i: nat :: At(s, MARK, i)) <==> exists a, b :: s == a + "${env:" + b
  {
    if i: nat :| At(s, MARK, i) {
      assert s == s[..i] + "${env:" + s[i + 6..];
    }
    if a, b :| s == a + "${env:" + b {
      assert At(s, MARK, |a|);
    }
  }

  /** Text in which no reference begins is left as it is. */
  lemma PlainText(s: string, lookup: string -> Option<string>)
    requires !exists a, b :: s == a + "${env:" + b
    ensures Meaning(s, lookup) == Some(s)
  {
    MarkExactly(s);
  }
}
