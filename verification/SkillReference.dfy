/** Skill identities and their `source:namespace:slug` references. */
module SkillReference {
  import opened Common

  datatype Source = Mine | TjuaeHub | SkillHub | ClawHub

  datatype Identity = Identity(source: Source, namespace: string, slug: string)

  function SourceName(s: Source): string {
    match s
    case Mine => "mine"
    case TjuaeHub => "tjuae-hub"
    case SkillHub => "skillhub"
    case ClawHub => "clawhub"
  }

  function ParseSource(name: string): Option<Source> {
    if name == "mine" then Some(Mine)
    else if name == "tjuae-hub" then Some(TjuaeHub)
    else if name == "skillhub" then Some(SkillHub)
    else if name == "clawhub" then Some(ClawHub)
    else None
  }

  function Reference(id: Identity): string {
    SourceName(id.source) + ":" + id.namespace + ":" + id.slug
  }

  /** Position of the first colon, or the length. */
  function Colon(s: string): (i: nat)
    ensures i <= |s| && (i < |s| ==> s[i] == ':')
  {
    if s == "" || s[0] == ':' then 0 else Colon(s[1..]) + 1
  }

  lemma {:induction false} ColonIsFirst(s: string)
    ensures ':' !in s[..Colon(s)]
  {
    if s != "" && s[0] != ':' {
      ColonIsFirst(s[1..]);
      assert s[..Colon(s)] == [s[0]] + s[1..][..Colon(s) - 1];
    }
  }

  /** `splitn(n, ':')`: at most `n` pieces, the last one unsplit. */
  function SplitN(s: string, n: nat): seq<string>
    decreases n
  {
    if n == 0 then []
    else if n == 1 || Colon(s) == |s| then [s]
    else [s[..Colon(s)]] + SplitN(s[Colon(s) + 1..], n - 1)
  }

  function ParseReference(value: string): Option<Identity> {
    var parts := SplitN(value, 3);
    if |parts| < 3 then None
    else
      match ParseSource(parts[0])
      case None => None
      case Some(source) => if parts[2] == "" then None else Some(Identity(source, parts[1], parts[2]))
  }

  lemma {:induction false} ColonIs(s: string, i: nat)
    requires i < |s| && s[i] == ':' && ':' !in s[..i]
    ensures Colon(s) == i
  {
    if i > 0 {
      assert s[0] in s[..i];
      assert s[..i] == [s[0]] + s[1..][..i - 1];
      ColonIs(s[1..], i - 1);
    }
  }

  lemma ColonAfter(a: string, b: string)
    requires ':' !in a
    ensures Colon(a + ":" + b) == |a|
  {
    assert (a + ":" + b)[..|a|] == a;
    ColonIs(a + ":" + b, |a|);
  }

  /** Splitting a joined triple gives the pieces back, provided the first two are free of colons. */
  lemma SplitJoined(a: string, b: string, c: string)
    requires ':' !in a && ':' !in b
    ensures SplitN(a + ":" + b + ":" + c, 3) == [a, b, c]
  {
    var s := a + ":" + (b + ":" + c);
    assert a + ":" + b + ":" + c == s;
    ColonAfter(a, b + ":" + c);
    assert s[..|a|] == a && s[|a| + 1..] == b + ":" + c;
    ColonAfter(b, c);
    assert (b + ":" + c)[..|b|] == b && (b + ":" + c)[|b| + 1..] == c;
  }

  /** Whatever splits in three is the pieces joined, and the first two are free of colons. */
  lemma JoinSplit(s: string)
    requires |SplitN(s, 3)| == 3
    ensures var p := SplitN(s, 3); s == p[0] + ":" + p[1] + ":" + p[2] && ':' !in p[0] && ':' !in p[1]
  {
    SplitShape(s);
    var r := s[Colon(s) + 1..];
    Cut(s);
    Cut(r);
    ColonIsFirst(s);
    ColonIsFirst(r);
    Rejoin(s[..Colon(s)], r[..Colon(r)], r[Colon(r) + 1..]);
  }

  lemma Rejoin(a: string, b: string, c: string)
    ensures a + ":" + (b + ":" + c) == a + ":" + b + ":" + c
  {
  }

  lemma SplitShape(s: string)
    requires |SplitN(s, 3)| == 3
    ensures Colon(s) < |s|
    ensures var r := s[Colon(s) + 1..];
            Colon(r) < |r| && SplitN(s, 3) == [s[..Colon(s)], r[..Colon(r)], r[Colon(r) + 1..]]
  {
    if Colon(s) < |s| {
      SplitTwo(s[Colon(s) + 1..]);
    }
  }

  lemma SplitTwo(r: string)
    ensures SplitN(r, 2) == if Colon(r) == |r| then [r] else [r[..Colon(r)], r[Colon(r) + 1..]]
  {
    if Colon(r) < |r| {
      SplitOne(r[Colon(r) + 1..]);
    }
  }

  lemma SplitOne(s: string)
    ensures SplitN(s, 1) == [s]
  {
  }

  lemma Cut(s: string)
    requires Colon(s) < |s|
    ensures s == s[..Colon(s)] + ":" + s[Colon(s) + 1..]
  {
  }

  /** Parsing gives the printed identity back exactly when its namespace has no colon and its slug is not empty. */
  lemma RoundTripExactly(id: Identity)
    ensures ParseReference(Reference(id)) == Some(id) <==> ':' !in id.namespace && id.slug != ""
  {
    if ':' !in id.namespace {
      SplitJoined(SourceName(id.source), id.namespace, id.slug);
    } else if |SplitN(Reference(id), 3)| == 3 {
      JoinSplit(Reference(id));
    }
  }

  /** Printing what was parsed gives the string back. */
  lemma PrintParsed(value: string)
    requires ParseReference(value).Some?
    ensures Reference(ParseReference(value).value) == value
  {
    PiecesAtMost(value, 3);
    JoinSplit(value);
  }

  lemma {:induction false} PiecesAtMost(s: string, n: nat)
    ensures |SplitN(s, n)| <= n
    decreases n
  {
    if n > 1 && Colon(s) < |s| {
      PiecesAtMost(s[Colon(s) + 1..], n - 1);
    }
  }

  /** The names of the sources as they appear in references. */
  lemma ReferenceNames(namespace: string, slug: string)
    ensures Reference(Identity(Mine, namespace, slug)) == "mine:" + namespace + ":" + slug
    ensures Reference(Identity(TjuaeHub, namespace, slug)) == "tjuae-hub:" + namespace + ":" + slug
    ensures Reference(Identity(SkillHub, namespace, slug)) == "skillhub:" + namespace + ":" + slug
    ensures Reference(Identity(ClawHub, namespace, slug)) == "clawhub:" + namespace + ":" + slug
  {
  }

  /** What parses begins with one of these names, has a second colon and something after it. */
  lemma ParsesExactly(value: string)
    ensures ParseReference(value).Some?
            <==> exists name, namespace, slug ::
                   && name in {"mine", "tjuae-hub", "skillhub", "clawhub"}
                   && ':' !in namespace && slug != ""
                   && value == name + ":" + namespace + ":" + slug
  {
    if ParseReference(value).Some? {
      PiecesAtMost(value, 3);
      JoinSplit(value);
      var p := SplitN(value, 3);
      assert value == p[0] + ":" + p[1] + ":" + p[2];
    }
    if name, namespace, slug :| name in {"mine", "tjuae-hub", "skillhub", "clawhub"} && ':' !in namespace && slug != ""
                                && value == name + ":" + namespace + ":" + slug
    {
      assert ':' !in name;
      SplitJoined(name, namespace, slug);
    }
  }
}
