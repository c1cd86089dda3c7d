/**
 * The gateway client (NebulaService): session-token acquisition through the
 * gateway's `connect` endpoint, cached under one well-known key; query
 * execution through `exec`, with every failure collapsed into an absent
 * result; the one-time index initialisation; and `close`.
 *
 * The HTTP transport is abstract: the gateway is given by the response it
 * would send to `connect` and the response it would send to `exec` for a
 * given token and query. Every request posted is recorded in `sent`.
 */
module Nebula {
  import opened Wrappers
  import opened Strings
  import opened Sequences

  /** The session cookie's name and its cache key (`config.nebula.nsidKey`). */
  const NsidKey: string := "common-nsid"

  /**
   * What the transport hands to a request's callback: an error, or the
   * response envelope `{code, data}` with the response's `set-cookie` header.
   */
  datatype Response<D> = TransportError | Resp(code: int, data: D, setCookies: seq<string>)

  /** A request posted to the gateway. The token is absent when the cache held `undefined`. */
  datatype Request =
    | Connect
    | ExecRequest(nsid: Option<string>, gql: string)
    | Disconnect(token: string)

  /** The reasons the session and exec promises reject with. */
  datatype Failure =
    | NsidRequestError
    | NsidCodeNotZero(code: int)
    | NsidNotIncluded
    | ExecRequestError
    | ExecCodeNotZero(code: int)

  /** A settled promise. */
  datatype Outcome<T> = Resolved(value: T) | Rejected(reason: Failure)

  /** The gateway as seen by this client: its answer to `connect`, and to `exec` per token and query. */
  datatype Gateway<D> = Gateway(connect: Response<string>, exec: (Option<string>, string) -> Response<D>)

  /** The application cache; a value is `None` when `undefined` was stored. */
  type Cache = map<string, Option<string>>

  /** What one operation returns, the cache after it, and the requests it posted, in order. */
  datatype Effect<T> = Effect(result: T, cache: Cache, sent: seq<Request>)

  // ---------------------------------------------------------------------------
  // parseCookie

  /** The key of one `;`-separated cookie part: the trimmed part up to its first `=`. */
  function CookieKey(part: string): string
  {
    Split(Trim(part), '=')[0]
  }

  /** The value of one cookie part: the text between its first and second `=`, absent without `=`. */
  function CookieValue(part: string): Option<string>
  {
    var fields := Split(Trim(part), '=');
    if |fields| >= 2 then Some(fields[1]) else None
  }

  /** All cookie parts, cookie by cookie, each split on `;`. */
  function CookieParts(cookies: seq<string>): seq<string>
    decreases |cookies|
  {
    if cookies == [] then []
    else CookieParts(cookies[..|cookies| - 1]) + Split(cookies[|cookies| - 1], ';')
  }

  /** `m` after `set(key, value)` for each part in turn. */
  function SetParts(m: map<string, Option<string>>, parts: seq<string>): map<string, Option<string>>
    decreases |parts|
  {
    if parts == [] then m
    else
      var n := |parts| - 1;
      SetParts(m, parts[..n])[CookieKey(parts[n]) := CookieValue(parts[n])]
  }

  /** The map parseCookie builds. */
  function CookieMap(cookies: seq<string>): map<string, Option<string>>
  {
    SetParts(map[], CookieParts(cookies))
  }

  lemma CookiePartsSnoc(cookies: seq<string>, c: string)
    ensures CookieParts(cookies + [c]) == CookieParts(cookies) + Split(c, ';')
  {
    assert (cookies + [c])[..|cookies|] == cookies;
  }

  lemma SetPartsSnoc(m: map<string, Option<string>>, parts: seq<string>, p: string)
    ensures SetParts(m, parts + [p]) == SetParts(m, parts)[CookieKey(p) := CookieValue(p)]
  {
    assert (parts + [p])[..|parts|] == parts;
  }

  /** Setting the parts of two lists in turn is setting the parts of the first and then of the second. */
  lemma {:induction false} SetPartsAppend(m: map<string, Option<string>>, a: seq<string>, b: seq<string>)
    ensures SetParts(m, a + b) == SetParts(SetParts(m, a), b)
    decreases |b|
  {
    if b == [] {
      assert a + b == a;
    } else {
      var n := |b| - 1;
      SetPartsAppend(m, a, b[..n]);
      assert (a + b)[..|a + b| - 1] == a + b[..n];
    }
  }

  /** The inner forEach of parseCookie: set each part of one cookie in turn. */
  method SetCookieParts(m: map<string, Option<string>>, parts: seq<string>) returns (cookieMap: map<string, Option<string>>)
    ensures cookieMap == SetParts(m, parts)
  {
    cookieMap := m;
    for j := 0 to |parts|
      invariant cookieMap == SetParts(m, parts[..j])
    {
      SetPartsSnoc(m, parts[..j], parts[j]);
      assert parts[..j + 1] == parts[..j] + [parts[j]];
      cookieMap := cookieMap[CookieKey(parts[j]) := CookieValue(parts[j])];
    }
    assert parts[..|parts|] == parts;
  }

  /** parseCookie: each cookie split on `;`, each part set in turn. */
  method ParseCookie(cookies: seq<string>) returns (cookieMap: map<string, Option<string>>)
    ensures cookieMap == CookieMap(cookies)
  {
    cookieMap := map[];
    for i := 0 to |cookies|
      invariant cookieMap == SetParts(map[], CookieParts(cookies[..i]))
    {
      var parts := Split(cookies[i], ';');
      CookiePartsSnoc(cookies[..i], cookies[i]);
      assert cookies[..i + 1] == cookies[..i] + [cookies[i]];
      SetPartsAppend(map[], CookieParts(cookies[..i]), parts);
      cookieMap := SetCookieParts(cookieMap, parts);
    }
    assert cookies[..|cookies|] == cookies;
  }

  /** Later parts overwrite earlier ones: a key is present iff some part carries it, valued by the last such part. */
  lemma {:induction false} SetPartsLastWins(m: map<string, Option<string>>, parts: seq<string>, k: string)
    ensures k in SetParts(m, parts) <==> k in m || exists j :: 0 <= j < |parts| && CookieKey(parts[j]) == k
    ensures forall j :: 0 <= j < |parts| && CookieKey(parts[j]) == k
                        && (forall i :: j < i < |parts| ==> CookieKey(parts[i]) != k)
                        ==> k in SetParts(m, parts) && SetParts(m, parts)[k] == CookieValue(parts[j])
    ensures (forall j :: 0 <= j < |parts| ==> CookieKey(parts[j]) != k)
            ==> (k in SetParts(m, parts) <==> k in m) && (k in m ==> SetParts(m, parts)[k] == m[k])
    decreases |parts|
  {
    if parts != [] {
      var n := |parts| - 1;
      var pre := parts[..n];
      var last := parts[n];
      SetPartsLastWins(m, pre, k);
      assert parts == pre + [last];
      SetPartsSnoc(m, pre, last);
      var before := SetParts(m, pre);
      assert SetParts(m, parts) == before[CookieKey(last) := CookieValue(last)];
      if CookieKey(last) == k {
        assert k in SetParts(m, parts) && SetParts(m, parts)[k] == CookieValue(last);
        assert 0 <= n < |parts| && CookieKey(parts[n]) == k;
        forall j | 0 <= j < |parts| && CookieKey(parts[j]) == k
                   && (forall i :: j < i < |parts| ==> CookieKey(parts[i]) != k)
          ensures k in SetParts(m, parts) && SetParts(m, parts)[k] == CookieValue(parts[j])
        {
          assert j == n;
        }
      } else {
        assert (k in SetParts(m, parts) <==> k in before);
        assert k in before ==> SetParts(m, parts)[k] == before[k];
        assert (exists j :: 0 <= j < |parts| && CookieKey(parts[j]) == k)
               <==> (exists j :: 0 <= j < |pre| && CookieKey(pre[j]) == k) by {
          forall j | 0 <= j < |pre| ensures pre[j] == parts[j] { }
        }
        forall j | 0 <= j < |parts| && CookieKey(parts[j]) == k
                   && (forall i :: j < i < |parts| ==> CookieKey(parts[i]) != k)
          ensures k in SetParts(m, parts) && SetParts(m, parts)[k] == CookieValue(parts[j])
        {
          assert j < n && pre[j] == parts[j];
          forall i | j < i < |pre| ensures CookieKey(pre[i]) != k {
            assert pre[i] == parts[i];
          }
        }
        if forall j :: 0 <= j < |parts| ==> CookieKey(parts[j]) != k {
          forall j | 0 <= j < |pre| ensures CookieKey(pre[j]) != k {
            assert pre[j] == parts[j];
          }
        }
      }
    }
  }

  /** The map parseCookie returns: keys of all parts, each valued by its last occurrence. */
  lemma CookieMapLastWins(cookies: seq<string>, k: string)
    ensures k in CookieMap(cookies)
            <==> exists j :: 0 <= j < |CookieParts(cookies)| && CookieKey(CookieParts(cookies)[j]) == k
    ensures forall j :: 0 <= j < |CookieParts(cookies)| && CookieKey(CookieParts(cookies)[j]) == k
                        && (forall i :: j < i < |CookieParts(cookies)| ==> CookieKey(CookieParts(cookies)[i]) != k)
                        ==> k in CookieMap(cookies) && CookieMap(cookies)[k] == CookieValue(CookieParts(cookies)[j])
  {
    var parts := CookieParts(cookies);
    var empty: map<string, Option<string>> := map[];
    SetPartsLastWins(empty, parts, k);
    assert CookieMap(cookies) == SetParts(empty, parts);
    if k in CookieMap(cookies) {
      assert k !in empty;
      var j :| 0 <= j < |parts| && CookieKey(parts[j]) == k;
      assert CookieKey(CookieParts(cookies)[j]) == k;
    } else {
      forall j | 0 <= j < |parts| ensures CookieKey(parts[j]) != k { }
    }
  }

  /**
   * The fields of one part: the key is the trimmed text before the first `=`;
   * the value, present iff there is an `=`, is the text up to the second `=`
   * (what follows is dropped).
   */
  lemma CookiePartFields(part: string)
    ensures var t, k, v := Trim(part), CookieKey(part), CookieValue(part);
      && '=' !in k
      && |k| <= |t| && t[..|k|] == k
      && (v.None? <==> '=' !in t)
      && (v.None? ==> k == t)
      && (v.Some? ==>
            && '=' !in v.value
            && |k| + 1 + |v.value| <= |t|
            && t[|k|] == '='
            && t[|k| + 1..|k| + 1 + |v.value|] == v.value
            && (|k| + 1 + |v.value| == |t| || t[|k| + 1 + |v.value|] == '='))
  {
    SplitFirstTwo(Trim(part), '=');
  }

  // ---------------------------------------------------------------------------
  // getNSID, execInternal, exec

  /** What `cache.get(nsidKey)` gives. */
  function CachedNsid(cache: Cache): Option<string>
  {
    if NsidKey in cache then cache[NsidKey] else None
  }

  /** JavaScript truthiness of a string that may be `undefined`. */
  predicate Truthy(v: Option<string>)
  {
    v.Some? && v.value != ""
  }

  /** getNSID: a truthy cached token, or the outcome of logging in. */
  function AcquireNsid<D>(cache: Cache, gw: Gateway<D>): Effect<Outcome<Option<string>>>
  {
    var cached := CachedNsid(cache);
    if Truthy(cached) then Effect(Resolved(cached), cache, [])
    else match gw.connect
      case TransportError => Effect(Rejected(NsidRequestError), cache, [Connect])
      case Resp(code, _, cookies) =>
        if code != 0 then Effect(Rejected(NsidCodeNotZero(code)), cache, [Connect])
        else
          var cookieMap := CookieMap(cookies);
          if NsidKey !in cookieMap then Effect(Rejected(NsidNotIncluded), cache, [Connect])
          else Effect(Resolved(cookieMap[NsidKey]), cache[NsidKey := cookieMap[NsidKey]], [Connect])
  }

  /** The callback of execInternal: reject on a transport error or a non-zero code, else resolve to `data`. */
  function InterpretExec<D>(ret: Response<D>): Outcome<D>
  {
    match ret
    case TransportError => Rejected(ExecRequestError)
    case Resp(code, data, _) => if code != 0 then Rejected(ExecCodeNotZero(code)) else Resolved(data)
  }

  /** exec: acquire a token, run the query, and turn any rejection into `None`. */
  function ExecSpec<D>(cache: Cache, q: string, gw: Gateway<D>): Effect<Option<D>>
  {
    var login := AcquireNsid(cache, gw);
    match login.result
    case Rejected(_) => Effect(None, login.cache, login.sent)
    case Resolved(nsid) =>
      var out := InterpretExec(gw.exec(nsid, q));
      Effect(if out.Resolved? then Some(out.value) else None, login.cache, login.sent + [ExecRequest(nsid, q)])
  }

  /** getNSID's three rejections, its cache hit and its success. */
  lemma AcquireNsidCases<D>(cache: Cache, gw: Gateway<D>)
    ensures var e, cached := AcquireNsid(cache, gw), CachedNsid(cache);
      && (Truthy(cached) ==> e == Effect(Resolved(cached), cache, []))
      && (!Truthy(cached) ==> e.sent == [Connect])
      && (e.result.Rejected? ==> e.cache == cache)
      && (e.result == Rejected(NsidRequestError) <==> !Truthy(cached) && gw.connect.TransportError?)
      && (e.result.Rejected? && e.result.reason.NsidCodeNotZero? <==>
            !Truthy(cached) && gw.connect.Resp? && gw.connect.code != 0)
      && (e.result == Rejected(NsidNotIncluded) <==>
            !Truthy(cached) && gw.connect.Resp? && gw.connect.code == 0
            && NsidKey !in CookieMap(gw.connect.setCookies))
      && (!Truthy(cached) && e.result.Resolved? ==>
            && gw.connect.Resp? && gw.connect.code == 0
            && NsidKey in CookieMap(gw.connect.setCookies)
            && e.result.value == CookieMap(gw.connect.setCookies)[NsidKey]
            && e.cache == cache[NsidKey := e.result.value])
  {
  }

  /** exec yields data exactly when a token is obtained and the gateway answers code 0; it never fails. */
  lemma ExecOutcome<D>(cache: Cache, q: string, gw: Gateway<D>)
    ensures var login, e := AcquireNsid(cache, gw), ExecSpec(cache, q, gw);
      && (e.result.Some? <==>
            login.result.Resolved? && gw.exec(login.result.value, q).Resp?
            && gw.exec(login.result.value, q).code == 0)
      && (e.result.Some? ==> e.result.value == gw.exec(login.result.value, q).data)
      && e.cache == login.cache
      && (login.result.Rejected? ==> e.sent == login.sent)
      && (login.result.Resolved? ==> e.sent == login.sent + [ExecRequest(login.result.value, q)])
  {
  }

  /** With a truthy token cached, exec posts no connect and exactly one exec request, and keeps the cache. */
  lemma SessionReuse<D>(cache: Cache, q: string, gw: Gateway<D>)
    requires Truthy(CachedNsid(cache))
    ensures ExecSpec(cache, q, gw).sent == [ExecRequest(CachedNsid(cache), q)]
    ensures ExecSpec(cache, q, gw).cache == cache
  {
  }

  // ---------------------------------------------------------------------------
  // init

  /** The statements init runs, in order. */
  function InitQueries(space: string): seq<string>
  {
    [ "USE " + space + ";",
      "CREATE TAG INDEX IF NOT EXISTS repo_name ON repo(repo_name(20))",
      "CREATE TAG INDEX IF NOT EXISTS actor_login ON actor(actor_login(20))",
      "CREATE EDGE INDEX IF NOT EXISTS relationship_weight ON relationship(weight)",
      "REBUILD TAG INDEX;",
      "REBUILD EDGE INDEX;" ]
  }

  /** exec on each query in turn, each starting from the cache the previous one left. */
  function RunExecs<D>(cache: Cache, qs: seq<string>, gw: Gateway<D>): (e: Effect<seq<Option<D>>>)
    ensures |e.result| == |qs|
    decreases |qs|
  {
    if qs == [] then Effect([], cache, [])
    else
      var first := ExecSpec(cache, qs[0], gw);
      var rest := RunExecs(first.cache, qs[1..], gw);
      Effect([first.result] + rest.result, rest.cache, first.sent + rest.sent)
  }

  /** One step of the loop of init: after the i-th exec, the rest of the run is what remains. */
  lemma RunExecsStep<D>(cache: Cache, qs: seq<string>, i: nat, done: seq<Request>,
                        endCache: Cache, endSent: seq<Request>, gw: Gateway<D>)
    requires i < |qs|
    requires RunExecs(cache, qs[i..], gw).cache == endCache
    requires done + RunExecs(cache, qs[i..], gw).sent == endSent
    ensures var step := ExecSpec(cache, qs[i], gw);
      && RunExecs(step.cache, qs[i + 1..], gw).cache == endCache
      && (done + step.sent) + RunExecs(step.cache, qs[i + 1..], gw).sent == endSent
  {
    assert qs[i..][1..] == qs[i + 1..];
    var step := ExecSpec(cache, qs[i], gw);
    var later := RunExecs(step.cache, qs[i + 1..], gw).sent;
    assert done + (step.sent + later) == (done + step.sent) + later;
  }

  /** The queries of the exec requests among `reqs`, in order. */
  function ExecGqls(reqs: seq<Request>): seq<string>
    decreases |reqs|
  {
    if reqs == [] then []
    else (if reqs[0].ExecRequest? then [reqs[0].gql] else []) + ExecGqls(reqs[1..])
  }

  lemma {:induction false} ExecGqlsAppend(a: seq<Request>, b: seq<Request>)
    ensures ExecGqls(a + b) == ExecGqls(a) + ExecGqls(b)
    decreases |a|
  {
    if a != [] {
      assert (a + b)[0] == a[0];
      assert (a + b)[1..] == a[1..] + b;
      ExecGqlsAppend(a[1..], b);
    } else {
      assert a + b == b;
    }
  }

  /** A token can be had: one is cached, or logging in yields one. */
  predicate SessionAvailable<D>(cache: Cache, gw: Gateway<D>)
  {
    || Truthy(CachedNsid(cache))
    || (gw.connect.Resp? && gw.connect.code == 0 && NsidKey in CookieMap(gw.connect.setCookies))
  }

  /** While a token can be had, one exec posts exactly one exec request, and a token can still be had after it. */
  lemma ExecKeepsSession<D>(cache: Cache, q: string, gw: Gateway<D>)
    requires SessionAvailable(cache, gw)
    ensures ExecGqls(ExecSpec(cache, q, gw).sent) == [q]
    ensures SessionAvailable(ExecSpec(cache, q, gw).cache, gw)
  {
    var e := ExecSpec(cache, q, gw);
    if Truthy(CachedNsid(cache)) {
      assert e.sent == [ExecRequest(CachedNsid(cache), q)];
      assert e.cache == cache;
    } else {
      var nsid := CookieMap(gw.connect.setCookies)[NsidKey];
      assert e.sent == [Connect, ExecRequest(nsid, q)];
      assert ExecGqls(e.sent) == [] + ExecGqls([ExecRequest(nsid, q)]);
    }
  }

  /** While a token can be had, every statement reaches the gateway, in order, whatever it answers. */
  lemma {:induction false} RunExecsSendsEveryQuery<D>(cache: Cache, qs: seq<string>, gw: Gateway<D>)
    requires SessionAvailable(cache, gw)
    ensures ExecGqls(RunExecs(cache, qs, gw).sent) == qs
    decreases |qs|
  {
    if qs != [] {
      var first := ExecSpec(cache, qs[0], gw);
      ExecKeepsSession(cache, qs[0], gw);
      RunExecsSendsEveryQuery(first.cache, qs[1..], gw);
      ExecGqlsAppend(first.sent, RunExecs(first.cache, qs[1..], gw).sent);
      assert qs == [qs[0]] + qs[1..];
    }
  }

  /** With a truthy token cached, the statements go out as exactly one exec request each, in order. */
  lemma {:induction false} RunExecsWithCachedSession<D>(cache: Cache, qs: seq<string>, gw: Gateway<D>)
    requires Truthy(CachedNsid(cache))
    ensures RunExecs(cache, qs, gw).cache == cache
    ensures RunExecs(cache, qs, gw).sent
            == seq(|qs|, i requires 0 <= i < |qs| => ExecRequest(CachedNsid(cache), qs[i]))
    decreases |qs|
  {
    if qs != [] {
      RunExecsWithCachedSession(cache, qs[1..], gw);
    }
  }

  /**
   * A failed login does not stop the sequence: each statement tries to log in
   * again, and all yield `None`. Failure covers all three ways: the transport
   * fails, the gateway answers with a non-zero code, or it answers with code 0
   * but sets no session cookie.
   */
  lemma {:induction false} RunExecsWhenLoginFails<D>(cache: Cache, qs: seq<string>, gw: Gateway<D>)
    requires !SessionAvailable(cache, gw)
    ensures RunExecs(cache, qs, gw).cache == cache
    ensures RunExecs(cache, qs, gw).sent == seq(|qs|, _ => Connect)
    ensures forall i :: 0 <= i < |qs| ==> RunExecs(cache, qs, gw).result[i] == None
    decreases |qs|
  {
    if qs != [] {
      RunExecsWhenLoginFails(cache, qs[1..], gw);
    }
  }

  // ---------------------------------------------------------------------------
  // The service

  class NebulaService {
    /** The shared application cache (only the session key is used here). */
    var cache: Cache
    /** The requests posted to the gateway so far. */
    ghost var sent: seq<Request>
    /** `config.nebula.space`. */
    const space: string

    constructor (space: string, cache: Cache)
      ensures this.space == space && this.cache == cache && sent == []
    {
      this.space := space;
      this.cache := cache;
      sent := [];
    }

    /** getNSID. */
    method GetNsid<D>(gw: Gateway<D>) returns (r: Outcome<Option<string>>)
      modifies this
      ensures var e := AcquireNsid(old(cache), gw);
        r == e.result && cache == e.cache && sent == old(sent) + e.sent
    {
      var cached := if NsidKey in cache then cache[NsidKey] else None;
      if cached.Some? && cached.value != "" {
        r := Resolved(cached);
      } else {
        sent := sent + [Connect];
        match gw.connect {
          case TransportError =>
            r := Rejected(NsidRequestError);
          case Resp(code, _, cookies) =>
            if code != 0 {
              r := Rejected(NsidCodeNotZero(code));
            } else {
              var cookieMap := ParseCookie(cookies);
              if NsidKey !in cookieMap {
                r := Rejected(NsidNotIncluded);
              } else {
                cache := cache[NsidKey := cookieMap[NsidKey]];
                r := Resolved(cookieMap[NsidKey]);
              }
            }
        }
      }
    }

    /** execInternal: one exec request carrying the token. */
    method ExecInternal<D>(nsid: Option<string>, q: string, gw: Gateway<D>) returns (r: Outcome<D>)
      modifies this`sent
      ensures r == InterpretExec(gw.exec(nsid, q))
      ensures sent == old(sent) + [ExecRequest(nsid, q)]
    {
      sent := sent + [ExecRequest(nsid, q)];
      r := InterpretExec(gw.exec(nsid, q));
    }

    /** exec: every rejection becomes `None`. */
    method Exec<D>(q: string, gw: Gateway<D>) returns (r: Option<D>)
      modifies this
      ensures var e := ExecSpec(old(cache), q, gw);
        r == e.result && cache == e.cache && sent == old(sent) + e.sent
    {
      var nsid := GetNsid(gw);
      if nsid.Rejected? {
        r := None;
      } else {
        var result := ExecInternal(nsid.value, q, gw);
        r := if result.Resolved? then Some(result.value) else None;
      }
    }

    /** init: exec each statement in turn, ignoring failures. */
    method Init<D>(gw: Gateway<D>)
      modifies this
      ensures var e := RunExecs(old(cache), InitQueries(space), gw);
        cache == e.cache && sent == old(sent) + e.sent
    {
      ExecEach(InitQueries(space), gw);
    }

    /** The loop of init: exec each query in turn, whatever the previous one gave. */
    method ExecEach<D>(queries: seq<string>, gw: Gateway<D>)
      modifies this
      ensures var e := RunExecs(old(cache), queries, gw);
        cache == e.cache && sent == old(sent) + e.sent
    {
      ghost var total := RunExecs(cache, queries, gw);
      ghost var done: seq<Request> := [];
      for i := 0 to |queries|
        invariant RunExecs(cache, queries[i..], gw).cache == total.cache
        invariant done + RunExecs(cache, queries[i..], gw).sent == total.sent
        invariant sent == old(sent) + done
      {
        RunExecsStep(cache, queries, i, done, total.cache, total.sent, gw);
        ghost var stepSent := ExecSpec(cache, queries[i], gw).sent;
        AppendAssoc(old(sent), done, stepSent);
        var _ := Exec(queries[i], gw);
        done := done + stepSent;
      }
    }

    /**
     * close: with a truthy token cached, post a disconnect carrying it; the
     * returned promise settles when that request completes. Without one,
     * nothing is posted and the promise never settles. The cache is kept.
     */
    method Close() returns (settles: bool)
      modifies this`sent
      ensures settles == Truthy(CachedNsid(cache))
      ensures sent == old(sent) + (if settles then [Disconnect(CachedNsid(cache).value)] else [])
    {
      var nsid := if NsidKey in cache then cache[NsidKey] else None;
      if !(nsid.Some? && nsid.value != "") {
        settles := false;
      } else {
        sent := sent + [Disconnect(nsid.value)];
        settles := true;
      }
    }
  }

}
