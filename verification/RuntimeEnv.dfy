/** Build options and the environment list an agent process is started with. */
module RuntimeEnv {
  import opened Common
  import opened TaskTypes

  type Env = seq<(string, string)>

  datatype BuildOptions = BuildOptions(user: string, conv: string, team: bool, env: Env, caps: Capabilities)

  const USER_ENV := "TJUAE_USER_ID"
  const CONVERSATION_ENV := "TJUAE_CONVERSATION_ID"
  const HELPER_ENV := "TJUAE_HELPER_BIN"
  const BASE_URL_ENV := "TJUAE_BASE_URL"
  const TOKEN_ENV := "TJUAE_RUNTIME_TOKEN"
  const CONTEXT_KEYS := {USER_ENV, CONVERSATION_ENV, HELPER_ENV, BASE_URL_ENV, TOKEN_ENV}
  const CONTEXT_VERSION: nat := 2

  /** Every value listed for `key`, in order. */
  function Values(env: Env, key: string): seq<string> {
    if env == [] then []
    else
      var last := env[|env| - 1];
      Values(env[..|env| - 1], key) + (if last.0 == key then [last.1] else [])
  }

  /** `Vec::retain` on everything but `keys`. */
  function Without(env: Env, keys: set<string>): Env {
    if env == [] then []
    else
      var last := env[|env| - 1];
      Without(env[..|env| - 1], keys) + (if last.0 in keys then [] else [last])
  }

  lemma ValuesPush(env: Env, key: string, value: string, k: string)
    ensures Values(env + [(key, value)], k) == Values(env, k) + (if k == key then [value] else [])
  {
    assert (env + [(key, value)])[..|env|] == env;
  }

  lemma {:induction false} ValuesWithout(env: Env, keys: set<string>, k: string)
    ensures Values(Without(env, keys), k) == if k in keys then [] else Values(env, k)
  {
    if env != [] {
      var p, last := env[..|env| - 1], env[|env| - 1];
      ValuesWithout(p, keys, k);
      if last.0 in keys {
        assert Without(env, keys) == Without(p, keys);
      } else {
        ValuesPush(Without(p, keys), last.0, last.1, k);
      }
    }
  }

  /** `env` with `value` as the only entry for `key`. */
  function Replaced(env: Env, key: string, value: string): Env {
    Without(env, {key}) + [(key, value)]
  }

  lemma ReplacedOnce(env: Env, key: string, value: string, k: string)
    ensures Values(Replaced(env, key, value), k) == if k == key then [value] else Values(env, k)
  {
    ValuesWithout(env, {key}, k);
    ValuesPush(Without(env, {key}), key, value, k);
  }

  /** What the conversation runtime context says about a variable. */
  function ContextValue(user: string, conv: string, helper: Option<string>, baseUrl: Option<string>,
                        token: Option<string>, k: string): Option<string> {
    if k == USER_ENV then Some(user)
    else if k == CONVERSATION_ENV then Some(conv)
    else if k == HELPER_ENV then helper
    else if k == BASE_URL_ENV then baseUrl
    else if k == TOKEN_ENV then token
    else None
  }

  function AsList(v: Option<string>): seq<string> {
    if v.Some? then [v.value] else []
  }

  /** Append an entry if there is a value. */
  function PushSome(env: Env, key: string, value: Option<string>): Env {
    if value.Some? then env + [(key, value.value)] else env
  }

  lemma ValuesPushSome(env: Env, key: string, value: Option<string>, k: string)
    ensures Values(PushSome(env, key, value), k) == Values(env, k) + (if k == key then AsList(value) else [])
  {
    if value.Some? {
      ValuesPush(env, key, value.value, k);
    }
  }

  /** The list the runtime context leaves behind. */
  function ContextEnv(env: Env, user: string, conv: string, helper: Option<string>, baseUrl: Option<string>,
                      token: Option<string>): Env {
    PushSome(PushSome(PushSome(
      Without(env, CONTEXT_KEYS) + [(USER_ENV, user)] + [(CONVERSATION_ENV, conv)],
      HELPER_ENV, helper), BASE_URL_ENV, baseUrl), TOKEN_ENV, token)
  }

  /** The five context variables each have their given value once or not at all; every other variable is untouched. */
  lemma ContextExactly(env: Env, user: string, conv: string, helper: Option<string>, baseUrl: Option<string>,
                       token: Option<string>, k: string)
    ensures Values(ContextEnv(env, user, conv, helper, baseUrl, token), k)
            == if k in CONTEXT_KEYS then AsList(ContextValue(user, conv, helper, baseUrl, token, k)) else Values(env, k)
  {
    ValuesWithout(env, CONTEXT_KEYS, k);
    KeysDiffer();
    PushedInTurn(Without(env, CONTEXT_KEYS), USER_ENV, user, CONVERSATION_ENV, conv, HELPER_ENV, helper,
                 BASE_URL_ENV, baseUrl, TOKEN_ENV, token, k);
  }

  lemma KeysDiffer()
    ensures NoDuplicates([USER_ENV, CONVERSATION_ENV, HELPER_ENV, BASE_URL_ENV, TOKEN_ENV])
  {
    assert |USER_ENV| == 13 && |CONVERSATION_ENV| == 21 && |HELPER_ENV| == 16 && |BASE_URL_ENV| == 14
           && |TOKEN_ENV| == 19;
  }

  lemma PushedInTurn(env: Env, a: string, va: string, b: string, vb: string, c: string, vc: Option<string>,
                     d: string, vd: Option<string>, e: string, ve: Option<string>, k: string)
    requires NoDuplicates([a, b, c, d, e])
    ensures Values(PushSome(PushSome(PushSome(env + [(a, va)] + [(b, vb)], c, vc), d, vd), e, ve), k)
            == Values(env, k) + AsList(if k == a then Some(va) else if k == b then Some(vb) else if k == c then vc
                                       else if k == d then vd else if k == e then ve else None)
  {
    var keys := [a, b, c, d, e];
    assert keys[0] == a && keys[1] == b && keys[2] == c && keys[3] == d && keys[4] == e;
    var base := Values(env, k);
    assert base == base + AsList(None);
    var env1 := PushSome(env, a, Some(va));
    var v1 := PushOne(env, base, a, Some(va), k, None);
    var env2 := PushSome(env1, b, Some(vb));
    var v2 := PushOne(env1, base, b, Some(vb), k, v1);
    var env3 := PushSome(env2, c, vc);
    var v3 := PushOne(env2, base, c, vc, k, v2);
    var env4 := PushSome(env3, d, vd);
    var v4 := PushOne(env3, base, d, vd, k, v3);
    var v5 := PushOne(env4, base, e, ve, k, v4);
  }

  /** One entry of several under different keys. */
  lemma PushOne(env: Env, base: seq<string>, key: string, value: Option<string>, k: string, found: Option<string>)
    returns (now: Option<string>)
    requires Values(env, k) == base + AsList(found) && (k == key ==> found == None)
    ensures now == if k == key then value else found
    ensures Values(PushSome(env, key, value), k) == base + AsList(now)
  {
    now := if k == key then value else found;
    ValuesPushSome(env, key, value, k);
    assert base + [] == base;
  }

  /** The variables by name. */
  lemma ContextByName(env: Env, user: string, conv: string, helper: Option<string>, baseUrl: Option<string>,
                      token: Option<string>)
    ensures var now := ContextEnv(env, user, conv, helper, baseUrl, token);
            && Values(now, "TJUAE_USER_ID") == [user]
            && Values(now, "TJUAE_CONVERSATION_ID") == [conv]
            && Values(now, "TJUAE_HELPER_BIN") == AsList(helper)
            && Values(now, "TJUAE_BASE_URL") == AsList(baseUrl)
            && Values(now, "TJUAE_RUNTIME_TOKEN") == AsList(token)
  {
    KeysDiffer();
    var keys := [USER_ENV, CONVERSATION_ENV, HELPER_ENV, BASE_URL_ENV, TOKEN_ENV];
    assert keys[0] == USER_ENV && keys[1] == CONVERSATION_ENV && keys[2] == HELPER_ENV && keys[3] == BASE_URL_ENV
           && keys[4] == TOKEN_ENV;
    ContextExactly(env, user, conv, helper, baseUrl, token, USER_ENV);
    ContextExactly(env, user, conv, helper, baseUrl, token, CONVERSATION_ENV);
    ContextExactly(env, user, conv, helper, baseUrl, token, HELPER_ENV);
    ContextExactly(env, user, conv, helper, baseUrl, token, BASE_URL_ENV);
    ContextExactly(env, user, conv, helper, baseUrl, token, TOKEN_ENV);
  }

  method Append(env: Env, key: string, value: Option<string>) returns (r: Env)
    ensures r == PushSome(env, key, value)
  {
    r := env;
    if value.Some? {
      r := r + [(key, value.value)];
    }
  }

  /** Stamp the context of a conversation on the options of its next agent. */
  method ApplyConversationRuntimeContext(options: BuildOptions, user: string, conv: string, helper: Option<string>,
                                         baseUrl: Option<string>, token: Option<string>) returns (r: BuildOptions)
    ensures r == options.(env := r.env, caps := Capabilities(Some(2)))
    ensures r.env == ContextEnv(options.env, user, conv, helper, baseUrl, token)
    ensures forall k :: Values(r.env, k)
                        == if k in CONTEXT_KEYS then AsList(ContextValue(user, conv, helper, baseUrl, token, k))
                           else Values(options.env, k)
  {
    var env := Without(options.env, CONTEXT_KEYS);
    env := env + [(USER_ENV, user)];
    env := env + [(CONVERSATION_ENV, conv)];
    env := Append(env, HELPER_ENV, helper);
    env := Append(env, BASE_URL_ENV, baseUrl);
    env := Append(env, TOKEN_ENV, token);
    forall k {
      ContextExactly(options.env, user, conv, helper, baseUrl, token, k);
    }
    r := options.(env := env, caps := Capabilities(Some(CONTEXT_VERSION)));
  }
}
