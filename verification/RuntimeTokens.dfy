/**
  The runtime token service. `Live` says, from the plain call history, which token a user's
  conversation holds; the class keeps its hash-keyed table equal to that.
 */
module RuntimeTokens {
  import opened Common

  datatype Scope = TeamContext | TeamCall

  datatype Claims = Claims(user: string, conv: string, scopes: set<Scope>, issuedAt: int, generation: string)

  datatype Grant = Grant(token: string, claims: Claims)

  datatype TokenError = Missing | Unknown | UserMismatch | ConversationMismatch | ScopeMissing | GenerationMismatch

  datatype Verdict = Accepted(claims: Claims) | Rejected(error: TokenError)

  /** One finished call; an issue with what it returned. */
  datatype Call =
    | Issued(user: string, conv: string, grant: Grant)
    | InvalidatedConversation(user: string, conv: string)
    | InvalidatedConversationId(conv: string)
    | InvalidatedGeneration(conv: string, generation: string)

  predicate Revokes(c: Call, claims: Claims) {
    match c
    case Issued(_, _, _) => false
    case InvalidatedConversation(user, conv) => claims.user == user && claims.conv == conv
    case InvalidatedConversationId(conv) => claims.conv == conv
    case InvalidatedGeneration(conv, generation) => claims.conv == conv && claims.generation == generation
  }

  /** Position of the latest issue for the pair, or -1. */
  function LatestIssue(h: seq<Call>, user: string, conv: string): (i: int)
    ensures -1 <= i < |h|
    ensures i >= 0 ==> h[i].Issued? && h[i].user == user && h[i].conv == conv
  {
    if h == [] then -1
    else
      var last := h[|h| - 1];
      if last.Issued? && last.user == user && last.conv == conv then |h| - 1
      else LatestIssue(h[..|h| - 1], user, conv)
  }

  lemma {:induction false} LatestIssueIsLatest(h: seq<Call>, user: string, conv: string, j: nat)
    requires LatestIssue(h, user, conv) < j < |h|
    ensures !(h[j].Issued? && h[j].user == user && h[j].conv == conv)
  {
    if j < |h| - 1 {
      LatestIssueIsLatest(h[..|h| - 1], user, conv, j);
    }
  }

  /** What the latest issue for the pair returned, unless a later call revoked it. */
  function Live(h: seq<Call>, user: string, conv: string): Option<Grant> {
    var i := LatestIssue(h, user, conv);
    if i < 0 || exists j :: i < j < |h| && Revokes(h[j], h[i].grant.claims) then None else Some(h[i].grant)
  }

  /** The presented token is the pair's live token and its claims cover the request. */
  predicate Accepts(h: seq<Call>, raw: Option<string>, user: string, conv: string, scope: Scope, generation: string) {
    && raw.Some?
    && Trim(raw.value) != ""
    && Live(h, user, conv).Some?
    && Live(h, user, conv).value.token == Trim(raw.value)
    && scope in Live(h, user, conv).value.claims.scopes
    && Live(h, user, conv).value.claims.generation == generation
  }

  /** Some pair's live token. */
  ghost predicate Known(h: seq<Call>, token: string) {
    exists user, conv :: Live(h, user, conv).Some? && Live(h, user, conv).value.token == token
  }

  lemma LiveExtend(h: seq<Call>, c: Call, user: string, conv: string)
    ensures Live(h + [c], user, conv)
            == if c.Issued? && c.user == user && c.conv == conv then Some(c.grant)
               else if Live(h, user, conv).Some? && Revokes(c, Live(h, user, conv).value.claims) then None
               else Live(h, user, conv)
  {
    var g := h + [c];
    assert g[..|h|] == h;
    var i := LatestIssue(g, user, conv);
    if 0 <= i < |h| {
      if j :| i < j < |h| && Revokes(h[j], h[i].grant.claims) {
        assert Revokes(g[j], g[i].grant.claims);
      }
      assert Revokes(g[|h|], g[i].grant.claims) == Revokes(c, h[i].grant.claims);
    }
  }

  /** Every token ever handed out. */
  function Granted(h: seq<Call>): set<string> {
    set c | c in h && c.Issued? :: c.grant.token
  }

  /** No token was ever handed out for two different pairs. */
  ghost predicate OnePairPerToken(h: seq<Call>) {
    forall a, b :: a in h && b in h && a.Issued? && b.Issued? && a.grant.token == b.grant.token ==>
                   a.user == b.user && a.conv == b.conv
  }

  /** Every grant's claims are about the pair it was issued to. */
  ghost predicate Honest(h: seq<Call>) {
    forall c :: c in h && c.Issued? ==>
                c.grant.claims.user == c.user && c.grant.claims.conv == c.conv && IsToken(c.grant.token)
  }

  lemma LiveIsHonest(h: seq<Call>, user: string, conv: string)
    requires Honest(h)
    ensures var live := Live(h, user, conv);
            live.Some? ==> live.value.claims.user == user && live.value.claims.conv == conv && IsToken(live.value.token)
  {
    if Live(h, user, conv).Some? {
      LiveWasIssued(h, user, conv);
    }
  }

  lemma LiveWasIssued(h: seq<Call>, user: string, conv: string)
    requires Live(h, user, conv).Some?
    ensures Issued(user, conv, Live(h, user, conv).value) in h
  {
    var i := LatestIssue(h, user, conv);
    assert h[i] in h && h[i] == Issued(user, conv, Live(h, user, conv).value);
  }

  /** What each invalidation takes away, and that it takes nothing else. */
  lemma InvalidationExactly(h: seq<Call>, user: string, conv: string, generation: string, u: string, v: string)
    requires Honest(h)
    ensures var live := Live(h, u, v);
            && Live(h + [InvalidatedConversation(user, conv)], u, v) == (if u == user && v == conv then None else live)
            && Live(h + [InvalidatedConversationId(conv)], u, v) == (if v == conv then None else live)
            && Live(h + [InvalidatedGeneration(conv, generation)], u, v)
               == (if v == conv && live.Some? && live.value.claims.generation == generation then None else live)
  {
    LiveIsHonest(h, u, v);
    LiveExtend(h, InvalidatedConversation(user, conv), u, v);
    LiveExtend(h, InvalidatedConversationId(conv), u, v);
    LiveExtend(h, InvalidatedGeneration(conv, generation), u, v);
  }

  lemma OnePairExtend(h: seq<Call>, c: Call)
    requires OnePairPerToken(h) && (c.Issued? ==> c.grant.token !in Granted(h) || c in h)
    ensures OnePairPerToken(h + [c])
  {
    assert forall x :: x in h + [c] <==> x in h || x == c;
    assert forall x :: x in h && x.Issued? ==> x.grant.token in Granted(h);
  }

  predicate IsHexDigit(c: char) {
    '0' <= c <= '9' || 'a' <= c <= 'f'
  }

  /** 32 random bytes in hex. */
  predicate IsToken(s: string) {
    |s| == 64 && forall i :: 0 <= i < |s| ==> IsHexDigit(s[i])
  }

  lemma TokenIsTrimmed(s: string)
    requires IsToken(s)
    ensures Trim(s) == s
  {
    assert IsHexDigit(s[0]) && IsHexDigit(s[|s| - 1]);
  }

  ghost predicate Injective(hash: string -> string) {
    forall a, b :: hash(a) == hash(b) ==> a == b
  }

  /** `g` is stored, under the hash of its token, for the pair. */
  predicate Holds(hash: string -> string, tokens: map<string, Grant>, g: Grant, user: string, conv: string) {
    g.claims.user == user && g.claims.conv == conv && hash(g.token) in tokens && tokens[hash(g.token)] == g
  }

  ghost predicate StoresLive(hash: string -> string, tokens: map<string, Grant>, h: seq<Call>, k: string)
    requires k in tokens
  {
    && k == hash(tokens[k].token)
    && IsToken(tokens[k].token)
    && Live(h, tokens[k].claims.user, tokens[k].claims.conv) == Some(tokens[k])
  }

  /** The table holds exactly the live grants, keyed by the hash of their token. */
  ghost predicate HoldsLive(hash: string -> string, tokens: map<string, Grant>, h: seq<Call>) {
    && (forall k :: k in tokens ==> StoresLive(hash, tokens, h, k))
    && (forall user, conv :: Live(h, user, conv).Some? ==> Holds(hash, tokens, Live(h, user, conv).value, user, conv))
  }

  /** Removing what `c` revokes keeps table and history in step. */
  lemma RevokeKeeps(hash: string -> string, was: map<string, Grant>, now: map<string, Grant>, h: seq<Call>, c: Call)
    requires HoldsLive(hash, was, h) && !c.Issued?
    requires now == map k | k in was && !Revokes(c, was[k].claims) :: was[k]
    ensures HoldsLive(hash, now, h + [c])
  {
    forall k | k in now ensures StoresLive(hash, now, h + [c], k) {
      assert StoresLive(hash, was, h, k);
      LiveExtend(h, c, now[k].claims.user, now[k].claims.conv);
    }
    forall user, conv | Live(h + [c], user, conv).Some?
      ensures Holds(hash, now, Live(h + [c], user, conv).value, user, conv)
    {
      LiveExtend(h, c, user, conv);
      assert Holds(hash, was, Live(h, user, conv).value, user, conv);
    }
  }

  /** So does replacing the pair's grants by a new one. */
  lemma ReplaceKeeps(hash: string -> string, was: map<string, Grant>, now: map<string, Grant>, h: seq<Call>, g: Grant)
    requires HoldsLive(hash, was, h) && IsToken(g.token) && hash(g.token) !in was
    requires now
             == (map k | k in was && !(was[k].claims.user == g.claims.user && was[k].claims.conv == g.claims.conv) ::
                 was[k])[hash(g.token) := g]
    ensures HoldsLive(hash, now, h + [Issued(g.claims.user, g.claims.conv, g)])
  {
    var c := Issued(g.claims.user, g.claims.conv, g);
    forall k | k in now ensures StoresLive(hash, now, h + [c], k) {
      LiveExtend(h, c, now[k].claims.user, now[k].claims.conv);
      assert k in was ==> StoresLive(hash, was, h, k);
    }
    forall user, conv | Live(h + [c], user, conv).Some?
      ensures Holds(hash, now, Live(h + [c], user, conv).value, user, conv)
    {
      LiveExtend(h, c, user, conv);
      assert Live(h, user, conv).Some? ==> Holds(hash, was, Live(h, user, conv).value, user, conv);
    }
  }

  /** Handing out the live grant again changes nothing. */
  lemma ReuseKeeps(hash: string -> string, tokens: map<string, Grant>, h: seq<Call>, user: string, conv: string)
    requires HoldsLive(hash, tokens, h) && Live(h, user, conv).Some?
    ensures HoldsLive(hash, tokens, h + [Issued(user, conv, Live(h, user, conv).value)])
  {
    var c := Issued(user, conv, Live(h, user, conv).value);
    forall u, v ensures Live(h + [c], u, v) == Live(h, u, v) {
      LiveExtend(h, c, u, v);
    }
    forall k | k in tokens ensures StoresLive(hash, tokens, h + [c], k) {
      assert StoresLive(hash, tokens, h, k);
    }
  }

  lemma CandidateIsUnused(hash: string -> string, tokens: map<string, Grant>, h: seq<Call>, candidate: string)
    requires HoldsLive(hash, tokens, h) && Injective(hash) && candidate !in Granted(h)
    ensures hash(candidate) !in tokens
  {
    forall k | k in tokens ensures tokens[k].token in Granted(h) {
      assert StoresLive(hash, tokens, h, k);
      var i := LatestIssue(h, tokens[k].claims.user, tokens[k].claims.conv);
      assert h[i] in h;
    }
    assert hash(candidate) in tokens ==> StoresLive(hash, tokens, h, hash(candidate));
  }

  /** The claims are the pair's and good enough for the request. */
  predicate Covers(claims: Claims, user: string, conv: string, generation: string, scopes: set<Scope>) {
    claims.user == user && claims.conv == conv && claims.generation == generation && scopes <= claims.scopes
  }

  /** A live token is good enough exactly if its generation is the one asked for and it has all the scopes. */
  lemma CoversExactly(h: seq<Call>, user: string, conv: string, generation: string, scopes: set<Scope>)
    requires Honest(h) && Live(h, user, conv).Some?
    ensures var claims := Live(h, user, conv).value.claims;
            Covers(claims, user, conv, generation, scopes)
            <==> claims.generation == generation && forall scope :: scope in scopes ==> scope in claims.scopes
  {
    LiveIsHonest(h, user, conv);
  }

  class RuntimeTokenService {
    const hash: string -> string
    var tokens: map<string, Grant>
    ghost var history: seq<Call>

    ghost predicate Valid()
      reads this
    {
      Injective(hash) && HoldsLive(hash, tokens, history) && OnePairPerToken(history) && Honest(history)
    }

    constructor (hash: string -> string)
      requires Injective(hash)
      ensures Valid() && history == [] && this.hash == hash
    {
      this.hash := hash;
      tokens := map[];
      history := [];
    }

    /** At most one token is live per user and conversation, so the scan below cannot depend on table order. */
    lemma OneLivePerPair(a: string, b: string)
      requires Valid() && a in tokens && b in tokens
      requires tokens[a].claims.user == tokens[b].claims.user && tokens[a].claims.conv == tokens[b].claims.conv
      ensures a == b
    {
      assert StoresLive(hash, tokens, history, a) && StoresLive(hash, tokens, history, b);
    }

    lemma ScanHit(k: string)
      requires Valid() && k in tokens
      ensures Live(history, tokens[k].claims.user, tokens[k].claims.conv) == Some(tokens[k])
    {
      assert StoresLive(hash, tokens, history, k);
    }

    lemma ScanMiss(user: string, conv: string)
      requires Valid()
      ensures var live := Live(history, user, conv);
              live.Some? ==>
                exists k :: k in tokens && tokens[k] == live.value && live.value.claims.user == user
                  && live.value.claims.conv == conv
    {
      var live := Live(history, user, conv);
      assert live.Some? ==> Holds(hash, tokens, live.value, user, conv);
    }

    /** Scan the table, in whatever order it yields entries, for a grant that covers the request. */
    method ExistingToken(user: string, conv: string, generation: string, scopes: set<Scope>) returns (r: Option<Grant>)
      requires Valid()
      ensures var live := Live(history, user, conv);
              r == if live.Some? && Covers(live.value.claims, user, conv, generation, scopes) then live else None
    {
      var rest := tokens.Keys;
      while rest != {}
        invariant rest <= tokens.Keys
        invariant forall k :: k in tokens && k !in rest ==> !Covers(tokens[k].claims, user, conv, generation, scopes)
        decreases rest
      {
        var k :| k in rest;
        rest := rest - {k};
        if Covers(tokens[k].claims, user, conv, generation, scopes) {
          ScanHit(k);
          return Some(tokens[k]);
        }
      }
      ScanMiss(user, conv);
      return None;
    }

    /** Reuse a live token that covers the request, else replace the pair's token by `candidate`. */
    method Issue(user: string, conv: string, generation: string, scopes: set<Scope>, candidate: string, now: int)
      returns (r: Grant)
      requires Valid()
      requires IsToken(candidate) && candidate !in Granted(history)
      modifies this
      ensures Valid() && history == old(history) + [Issued(user, conv, r)]
      ensures r.claims.user == user && r.claims.conv == conv && r.claims.generation == generation
      ensures scopes <= r.claims.scopes && IsToken(r.token)
      ensures var live := Live(old(history), user, conv);
              if live.Some? && Covers(live.value.claims, user, conv, generation, scopes) then r == live.value
              else r == Grant(candidate, Claims(user, conv, scopes, now, generation))
    {
      var existing := ExistingToken(user, conv, generation, scopes);
      if existing.Some? {
        r := existing.value;
        assert Holds(hash, tokens, r, user, conv) && StoresLive(hash, tokens, history, hash(r.token));
        ReuseKeeps(hash, tokens, history, user, conv);
        LiveWasIssued(history, user, conv);
        OnePairExtend(history, Issued(user, conv, r));
      } else {
        r := Grant(candidate, Claims(user, conv, scopes, now, generation));
        CandidateIsUnused(hash, tokens, history, candidate);
        ghost var was := tokens;
        tokens := map k | k in tokens && !(tokens[k].claims.user == user && tokens[k].claims.conv == conv) :: tokens[k];
        tokens := tokens[hash(candidate) := r];
        ReplaceKeeps(hash, was, tokens, history, r);
        OnePairExtend(history, Issued(user, conv, r));
      }
      history := history + [Issued(user, conv, r)];
    }

    /** Drop the grants a call revokes. */
    method Revoke(c: Call)
      requires Valid() && !c.Issued?
      modifies this
      ensures Valid() && history == old(history) + [c]
    {
      ghost var was := tokens;
      tokens := map k | k in tokens && !Revokes(c, tokens[k].claims) :: tokens[k];
      RevokeKeeps(hash, was, tokens, history, c);
      OnePairExtend(history, c);
      history := history + [c];
    }

    method InvalidateConversation(user: string, conv: string)
      requires Valid()
      modifies this
      ensures Valid() && history == old(history) + [InvalidatedConversation(user, conv)]
    {
      Revoke(InvalidatedConversation(user, conv));
    }

    method InvalidateConversationId(conv: string)
      requires Valid()
      modifies this
      ensures Valid() && history == old(history) + [InvalidatedConversationId(conv)]
    {
      Revoke(InvalidatedConversationId(conv));
    }

    method InvalidateGeneration(conv: string, generation: string)
      requires Valid()
      modifies this
      ensures Valid() && history == old(history) + [InvalidatedGeneration(conv, generation)]
    {
      Revoke(InvalidatedGeneration(conv, generation));
    }

    /** A token is accepted exactly when it is the pair's live token and its claims cover the request. */
    method Validate(raw: Option<string>, user: string, conv: string, scope: Scope, generation: string)
      returns (r: Verdict)
      requires Valid()
      ensures r.Accepted? <==> Accepts(history, raw, user, conv, scope, generation)
      ensures r.Accepted? ==> r.claims == Live(history, user, conv).value.claims
      ensures r == Rejected(Missing) <==> raw.None? || Trim(raw.value) == ""
      ensures r == Rejected(Unknown) <==> raw.Some? && Trim(raw.value) != "" && !Known(history, Trim(raw.value))
      ensures forall u, c :: raw.Some? && Trim(raw.value) != "" && Live(history, u, c).Some?
                             && Live(history, u, c).value.token == Trim(raw.value) ==>
                r == if u != user then Rejected(UserMismatch)
                     else if c != conv then Rejected(ConversationMismatch)
                     else if scope !in Live(history, u, c).value.claims.scopes then Rejected(ScopeMissing)
                     else if Live(history, u, c).value.claims.generation != generation then Rejected(GenerationMismatch)
                     else Accepted(Live(history, u, c).value.claims)
    {
      if raw.None? || Trim(raw.value) == "" {
        return Rejected(Missing);
      }
      var token := Trim(raw.value);
      ghost var live := Live(history, user, conv);
      assert live.Some? ==> Holds(hash, tokens, live.value, user, conv);
      if hash(token) !in tokens {
        forall u, c | Live(history, u, c).Some? ensures Live(history, u, c).value.token != token {
          assert Holds(hash, tokens, Live(history, u, c).value, u, c);
        }
        return Rejected(Unknown);
      }
      var claims := tokens[hash(token)].claims;
      assert StoresLive(hash, tokens, history, hash(token));
      forall u, c | Live(history, u, c).Some? && Live(history, u, c).value.token == token
        ensures Live(history, u, c).value.claims == claims && claims.user == u && claims.conv == c
      {
        assert Holds(hash, tokens, Live(history, u, c).value, u, c);
      }
      if claims.user != user {
        return Rejected(UserMismatch);
      }
      if claims.conv != conv {
        return Rejected(ConversationMismatch);
      }
      if scope !in claims.scopes {
        return Rejected(ScopeMissing);
      }
      if claims.generation != generation {
        return Rejected(GenerationMismatch);
      }
      return Accepted(claims);
    }
  }
}
