/** The authentication material of S3 requests: how it is reloaded and refreshed, and the two
    request loops that retry after a refresh or a region redirect. */
module S3Auth {
  import opened Prelude

  /** `others` stands for the compared fields that neither a region change nor a reload treats
      on their own (secret key, tokens, URL style and so on). */
  datatype AuthParams = AuthParams(region: string, accessKey: string, endpoint: string, others: nat)

  datatype HttpParams = HttpParams(proxy: string, port: nat, others: nat)

  /** What a request is signed and sent with. */
  datatype Material = Material(auth: AuthParams, http: HttpParams)

  predicate EndsWith(s: string, suffix: string) {
    |suffix| <= |s| && s[|s| - |suffix|..] == suffix
  }

  predicate EndpointIsAWS(endpoint: string) {
    endpoint == "" || ("s3." <= endpoint && EndsWith(endpoint, ".amazonaws.com"))
  }

  function InitializeEndpoint(a: AuthParams): AuthParams {
    if !EndpointIsAWS(a.endpoint) then a
    else if a.region == "" && a.accessKey == "" then a.(endpoint := "s3.amazonaws.com")
    else
      var region := if a.region == "" then "us-east-1" else a.region;
      a.(region := region, endpoint := "s3." + region + ".amazonaws.com")
  }

  function SetRegion(a: AuthParams, region: string): AuthParams {
    InitializeEndpoint(a.(region := region))
  }

  /** The refreshable HTTP parameters, with the port that only counts next to a proxy. */
  function Snapshot(h: HttpParams): HttpParams {
    if h.proxy == "" then h.(port := 0) else h
  }

  /** What a reload makes of the stored settings for a client in `region`; after a redirect the
      client keeps its region. */
  function Reloaded(store: Material, region: string, preserve: bool): Material {
    var read := InitializeEndpoint(store.auth);
    var auth := if preserve && region != "" && read.region != region then SetRegion(read, region) else read;
    Material(auth, Snapshot(store.http))
  }

  // ----- What these operations mean -----

  function Regional(region: string): string {
    "s3." + region + ".amazonaws.com"
  }

  /** The endpoints that follow the region: none, the global one or one of a region. */
  ghost predicate Amazon(endpoint: string) {
    endpoint == "" || endpoint == "s3.amazonaws.com" || exists region :: endpoint == Regional(region)
  }

  // The two tests may overlap in a single dot.
  lemma BothEnds(endpoint: string)
    requires "s3." <= endpoint && EndsWith(endpoint, ".amazonaws.com")
    ensures Amazon(endpoint)
  {
    var suffix := ".amazonaws.com";
    var n := |endpoint| - |suffix|;
    assert endpoint[n..] == suffix && endpoint[..3] == "s3.";
    if n >= 3 {
      assert endpoint == Regional(endpoint[3..n]);
    } else {
      assert endpoint[n] == '.';
      assert n == 2;
      assert endpoint == endpoint[..2] + suffix;
    }
  }

  lemma RegionalEnds(region: string)
    ensures "s3." <= Regional(region) && EndsWith(Regional(region), ".amazonaws.com")
  {
  }

  /** The test of the source finds exactly these endpoints. */
  lemma AwsEndpoints(endpoint: string)
    ensures EndpointIsAWS(endpoint) <==> Amazon(endpoint)
  {
    if endpoint != "" && EndpointIsAWS(endpoint) {
      BothEnds(endpoint);
    }
    forall region: string
      ensures EndpointIsAWS(Regional(region))
    {
      RegionalEnds(region);
    }
    assert EndpointIsAWS("s3.amazonaws.com");
  }

  /** The same material in another region: an endpoint that follows the region is that of the new one,
      any other endpoint stays. */
  ghost predicate MovedTo(before: Material, after: Material, region: string) {
    && after.http == before.http && after.auth.region == region
    && after.auth.accessKey == before.auth.accessKey && after.auth.others == before.auth.others
    && after.auth.endpoint ==
       if Amazon(before.auth.endpoint) then "s3." + region + ".amazonaws.com" else before.auth.endpoint
  }

  lemma SetRegionMoves(m: Material, region: string)
    requires region != ""
    ensures MovedTo(m, m.(auth := SetRegion(m.auth, region)), region)
  {
    AwsEndpoints(m.auth.endpoint);
  }

  /** The region of a client that takes over these settings. */
  ghost function AdoptedRegion(store: AuthParams, region: string, preserve: bool): string {
    if preserve && region != "" then region
    else if store.region == "" && store.accessKey != "" && Amazon(store.endpoint) then "us-east-1"
    else store.region
  }

  /** A client in `region` with these stored settings: the stored keys and HTTP parameters, its own
      region after a redirect, and the endpoint of the region unless another one is stored. */
  ghost predicate Adopts(store: Material, region: string, preserve: bool, m: Material) {
    && m.auth.accessKey == store.auth.accessKey && m.auth.others == store.auth.others
    && m.http.proxy == store.http.proxy && m.http.others == store.http.others
    && m.http.port == (if store.http.proxy == "" then 0 else store.http.port)
    && m.auth.region == AdoptedRegion(store.auth, region, preserve)
    && m.auth.endpoint ==
       if !Amazon(store.auth.endpoint) then store.auth.endpoint
       else if m.auth.region == "" then "s3.amazonaws.com"
       else "s3." + m.auth.region + ".amazonaws.com"
  }

  lemma ReloadAdopts(store: Material, region: string, preserve: bool, m: Material)
    ensures m == Reloaded(store, region, preserve) <==> Adopts(store, region, preserve, m)
  {
    AwsEndpoints(store.auth.endpoint);
    var read := InitializeEndpoint(store.auth);
    AwsEndpoints(read.endpoint);
    assert read.endpoint == Regional(read.region) || read.endpoint == store.auth.endpoint
      || read.endpoint == "s3.amazonaws.com";
  }

  /** What other parties answer during one refresh: the stored material at each of the three
      reloads, and whether a secret provider refreshed something. */
  datatype RefreshEnv = RefreshEnv(enabled: bool, hasContext: bool, stored: (Material, Material, Material),
                                   refreshed: bool)

  /** An answer to a request: a null response, a response or an exception with its status. */
  datatype Answer = NoResponse | Answer(thrown: bool, status: nat, s3Code: string, bucketRegion: Option<string>)

  predicate IsAuthRefreshFailure(a: Answer) {
    a.Answer? && (a.status == 401 || a.status == 403 || (a.status == 400 && a.s3Code == "ExpiredToken"))
  }

  /** The region to go to, if the answer names another one. */
  function RegionRedirect(a: Answer, region: string): Option<string> {
    if a.Answer? && (a.status == 301 || a.status == 400) && a.bucketRegion.Some? &&
       a.bucketRegion.value != "" && a.bucketRegion.value != region
    then a.bucketRegion else None
  }

  /** Statuses 401 and 403, and 400 with an expired token, are authentication failures. */
  ghost predicate Rejects(a: Answer) {
    a.Answer? && (a.status in {401, 403} || (a.status, a.s3Code) == (400, "ExpiredToken"))
  }

  /** The region that an answer names, if any. */
  ghost function Target(a: Answer): string {
    if a.Answer? && a.bucketRegion.Some? then a.bucketRegion.value else ""
  }

  /** Statuses 301 and 400 with a bucket region other than this one are redirects. */
  ghost predicate Redirects(a: Answer, region: string) {
    a.Answer? && a.status in {301, 400} && Target(a) != "" && Target(a) != region
  }

  lemma RedirectIs(a: Answer, region: string)
    ensures IsAuthRefreshFailure(a) <==> Rejects(a)
    ensures RegionRedirect(a, region) == if Redirects(a, region) then Some(Target(a)) else None
    ensures Redirects(a, region) ==> Target(a) != ""
  {
  }

  /** A refresh of rejected material comes to this: the first of three reads of the store that differs,
      the third one only after a secret was refreshed. */
  ghost predicate RefreshedTo(env: RefreshEnv, before: Material, preserve: bool, after: Material) {
    var region, store := before.auth.region, env.stored;
    && env.enabled && env.hasContext && after != before
    && (Adopts(store.0, region, preserve, after)
        || (Adopts(store.0, region, preserve, before) &&
            (Adopts(store.1, region, preserve, after)
             || (Adopts(store.1, region, preserve, before) && env.refreshed &&
                 Adopts(store.2, region, preserve, after)))))
  }

  /** A refresh has nothing to offer. */
  ghost predicate NothingNew(env: RefreshEnv, before: Material, preserve: bool) {
    var region, store := before.auth.region, env.stored;
    || !env.enabled || !env.hasContext
    || (Adopts(store.0, region, preserve, before) && Adopts(store.1, region, preserve, before)
        && (!env.refreshed || Adopts(store.2, region, preserve, before)))
  }

  /** A request was not rejected, or a refresh has nothing to offer. */
  ghost predicate NoneMissed(a: Answer, env: RefreshEnv, request: Material, preserve: bool) {
    Rejects(a) ==> NothingNew(env, request, preserve)
  }

  /** Requests with this material go to the region, by its endpoint unless that is not one of Amazon. */
  ghost predicate GoesTo(m: Material, region: string) {
    m.auth.region == region && (Amazon(m.auth.endpoint) ==> m.auth.endpoint == "s3." + region + ".amazonaws.com")
  }

  /** A redirected client stays in its region, and with the endpoint of that region, whatever was
      stored. */
  lemma ReloadKeepsRegion(store: Material, region: string)
    requires region != ""
    ensures GoesTo(Reloaded(store, region, true), region)
    ensures Adopts(store, region, true, Reloaded(store, region, true))
  {
    ReloadAdopts(store, region, true, Reloaded(store, region, true));
  }

  /** After a redirect, and after every refresh that follows it. */
  lemma StaysInRegion(env: RefreshEnv, before: Material, after: Material, region: string)
    requires region != ""
    ensures MovedTo(before, after, region) ==> GoesTo(after, region)
    ensures before.auth.region == region && RefreshedTo(env, before, true, after) ==> GoesTo(after, region)
  {
  }

  const MAX_RETRIES := 2

  datatype ListOutcome = Body(answer: Answer) | RequestFailed | RedirectFailed | StatusError | RetriesExceeded

  /** A handle or an HTTP input: its own material and whether a redirect moved it. */
  class Client {
    var auth: AuthParams
    var http: HttpParams
    var regionRedirected: bool

    constructor (auth: AuthParams, http: HttpParams)
      ensures this.auth == auth && this.http == http && !regionRedirected
    {
      this.auth, this.http, regionRedirected := auth, http, false;
    }

    function Current(): Material
      reads this
    {
      Material(auth, Snapshot(http))
    }

    /** Takes over the stored material unless the rejected request already had it. */
    method Reload(store: Material, request: Material, preserve: bool) returns (changed: bool)
      modifies this`auth, this`http
      ensures changed <==> !Adopts(store, old(auth.region), preserve, request)
      ensures if changed then Adopts(store, old(auth.region), preserve, Current()) else Current() == old(Current())
      ensures !changed ==> auth == old(auth)
      ensures changed ==> Current() != request
    {
      ReloadAdopts(store, auth.region, preserve, request);
      ReloadAdopts(store, auth.region, preserve, Reloaded(store, auth.region, preserve));
      var previousRegion := auth.region;
      var reloadedAuth := InitializeEndpoint(store.auth);
      if preserve && previousRegion != "" && reloadedAuth.region != previousRegion {
        reloadedAuth := SetRegion(reloadedAuth, previousRegion);
      }
      var reloadedHttp := Snapshot(store.http);
      if reloadedAuth == request.auth && reloadedHttp == request.http {
        return false;
      }
      auth, http := reloadedAuth, reloadedHttp;
      changed := true;
    }

    /** A refresh after `request` was rejected. It reports success only with material that
        differs from the rejected one; a redirected client keeps its region; without success
        nothing changes. */
    method TryRefresh(env: RefreshEnv, request: Material, preserve: bool) returns (ok: bool)
      modifies this`auth, this`http
      ensures ok ==> Current() != request
      ensures !ok ==> Current() == old(Current())
      ensures preserve && old(auth.region) != "" ==> auth.region == old(auth.region)
      ensures !env.enabled ==> !ok
      ensures env.enabled && old(Current()) != request ==> ok && Current() == old(Current())
      ensures old(Current()) == request ==>
        (ok <==> !NothingNew(env, request, preserve)) && (ok ==> RefreshedTo(env, request, preserve, Current()))
    {
      if !env.enabled {
        return false;
      }
      if auth != request.auth || Snapshot(http) != request.http {
        return true;
      }
      if !env.hasContext {
        return false;
      }
      ok := Reload(env.stored.0, request, preserve);
      if ok {
        return;
      }
      ok := Reload(env.stored.1, request, preserve);
      if ok {
        return;
      }
      if !env.refreshed {
        return false;
      }
      ok := Reload(env.stored.2, request, preserve);
    }

    method MoveToRegion(region: string)
      modifies this`auth, this`regionRedirected
      requires region != ""
      ensures MovedTo(old(Current()), Current(), region) && regionRedirected
    {
      SetRegionMoves(Current(), region);
      auth := SetRegion(auth, region);
      regionRedirected := true;
    }

    /** The request loop of handles and inputs, against any stream of answers and any outcomes of
        refreshes. It sends at most three requests. One of them may follow a refresh of what was
        rejected, and one a redirect, after which all go to that region; there is no retry that was
        possible and not made. */
    method RunRequest(answers: nat -> Answer, envs: nat -> RefreshEnv)
      returns (sent: seq<Material>, answer: Answer, authRetry: Option<nat>, regionRetry: Option<nat>)
      modifies this
      ensures 1 <= |sent| <= 3 && answer == answers(|sent| - 1) && sent[0] == old(Current())
      ensures |sent| == 1 + (if authRetry.Some? then 1 else 0) + (if regionRetry.Some? then 1 else 0)
      ensures regionRetry.Some? ==> regionRetry != authRetry
      ensures authRetry.Some? ==>
        && authRetry.value + 1 < |sent| && Rejects(answers(authRetry.value))
        && RefreshedTo(envs(authRetry.value), sent[authRetry.value],
                       old(regionRedirected) || (regionRetry.Some? && regionRetry.value < authRetry.value),
                       sent[authRetry.value + 1])
      ensures regionRetry.Some? ==>
        var i, target := regionRetry.value, Target(answers(regionRetry.value));
        && i + 1 < |sent| && Redirects(answers(i), sent[i].auth.region) && MovedTo(sent[i], sent[i + 1], target)
        && forall j | i < j < |sent| :: GoesTo(sent[j], target)
      ensures regionRetry.None? ==> !Redirects(answer, sent[|sent| - 1].auth.region)
      ensures forall j | 0 <= j < |sent| && (authRetry.Some? ==> j < authRetry.value) ::
        NoneMissed(answers(j), envs(j), sent[j],
                   old(regionRedirected) || (regionRetry.Some? && regionRetry.value < j))
      ensures Current() == sent[|sent| - 1] && regionRedirected == (old(regionRedirected) || regionRetry.Some?)
    {
      hide Rejects, Redirects, RefreshedTo, NothingNew, MovedTo, GoesTo, RegionRedirect, IsAuthRefreshFailure;
      sent, authRetry, regionRetry := [], None, None;
      while true
        invariant |sent| == (if authRetry.Some? then 1 else 0) + (if regionRetry.Some? then 1 else 0)
        invariant regionRedirected == (old(regionRedirected) || regionRetry.Some?)
        invariant Next(sent, 0) == old(Current())
        invariant regionRetry.Some? ==> regionRetry != authRetry
        invariant authRetry.Some? ==>
          && authRetry.value < |sent| && Rejects(answers(authRetry.value))
          && RefreshedTo(envs(authRetry.value), sent[authRetry.value],
                         old(regionRedirected) || (regionRetry.Some? && regionRetry.value < authRetry.value),
                         Next(sent, authRetry.value + 1))
        invariant regionRetry.Some? ==>
          var i, target := regionRetry.value, Target(answers(regionRetry.value));
          && i < |sent| && Redirects(answers(i), sent[i].auth.region) && target != ""
          && MovedTo(sent[i], Next(sent, i + 1), target) && GoesTo(Current(), target)
          && forall j | i < j < |sent| :: GoesTo(sent[j], target)
        invariant forall j | 0 <= j < |sent| && (authRetry.Some? ==> j < authRetry.value) ::
          NoneMissed(answers(j), envs(j), sent[j],
                     old(regionRedirected) || (regionRetry.Some? && regionRetry.value < j))
        decreases 2 - |sent|
      {
        var request := Current();
        answer := answers(|sent|);
        sent := sent + [request];
        RedirectIs(answer, request.auth.region);
        if authRetry.None? && IsAuthRefreshFailure(answer) {
          var refreshed := TryRefresh(envs(|sent| - 1), request, regionRedirected);
          if refreshed {
            authRetry := Some(|sent| - 1);
            if regionRetry.Some? {
              StaysIn(envs(|sent| - 1), request, Current(), Target(answers(regionRetry.value)));
            }
            continue;
          }
        }
        var region := RegionRedirect(answer, request.auth.region);
        if regionRetry.None? && region.Some? {
          MoveToRegion(region.value);
          StaysInRegion(envs(0), request, Current(), region.value);
          regionRetry := Some(|sent| - 1);
          continue;
        }
        return;
      }
    }

    lemma StaysIn(env: RefreshEnv, before: Material, after: Material, region: string)
      requires GoesTo(before, region) && region != "" && RefreshedTo(env, before, true, after)
      ensures GoesTo(after, region)
    {
      StaysInRegion(env, before, after, region);
    }

    /** Request `i`, sent or about to be. */
    function Next(sent: seq<Material>, i: nat): Material
      reads this
    {
      if i < |sent| then sent[i] else Current()
    }

    /** Whether an answer ends the list request, and how, or moves it to the region it names. */
    method Judge(answer: Answer, region: string, redirected: bool) returns (o: ListOutcome, updated: string)
      requires answer.Answer?
      ensures updated != "" ==>
        && (answer.status == 301 || answer.status >= 400) && !redirected
        && updated == Target(answer) && updated != region
      ensures updated == "" ==>
        var moves := !redirected && answer.bucketRegion.Some? && answer.bucketRegion.value != region;
        && (o.RedirectFailed? <==> answer.status == 301 && !moves)
        && (o.StatusError? <==> answer.status >= 400 && (!moves || answer.bucketRegion.value == ""))
        && (o.Body? <==> answer.status < 400 && (answer.status == 301 ==> moves && answer.bucketRegion.value == ""))
        && (o.Body? ==> o.answer == answer) && !o.RequestFailed? && !o.RetriesExceeded?
    {
      updated, o := "", Body(answer);
      if answer.status == 301 {
        if !redirected && answer.bucketRegion.Some? && answer.bucketRegion.value != region {
          updated := answer.bucketRegion.value;
        } else {
          o := RedirectFailed;
          return;
        }
      }
      if answer.status >= 400 {
        if !redirected && answer.bucketRegion.Some? && answer.bucketRegion.value != region {
          updated := answer.bucketRegion.value;
        }
        if updated == "" {
          o := StatusError;
        }
      }
    }

    /** The list request with its own, counted loop. The final "Exceeded retry count" is never
        reached, and the guarantees of the other loop hold here as well; here any answer with a status
        of 400 or more can redirect. */
    method ListRequest(answers: nat -> Answer, envs: nat -> RefreshEnv, failed: nat -> bool)
      returns (sent: seq<Material>, o: ListOutcome, authRetry: Option<nat>, regionRetry: Option<nat>)
      modifies this`auth, this`http
      ensures o != RetriesExceeded
      ensures 1 <= |sent| <= 3 && sent[0] == old(Current())
      ensures |sent| == 1 + (if authRetry.Some? then 1 else 0) + (if regionRetry.Some? then 1 else 0)
      ensures regionRetry.Some? ==> regionRetry != authRetry
      ensures authRetry.Some? ==>
        && authRetry.value + 1 < |sent| && Rejects(answers(authRetry.value))
        && RefreshedTo(envs(authRetry.value), sent[authRetry.value],
                       regionRetry.Some? && regionRetry.value < authRetry.value, sent[authRetry.value + 1])
      ensures regionRetry.Some? ==>
        var i, a, target := regionRetry.value, answers(regionRetry.value), Target(answers(regionRetry.value));
        && i + 1 < |sent| && a.Answer? && (a.status == 301 || a.status >= 400)
        && target != "" && target != sent[i].auth.region && MovedTo(sent[i], sent[i + 1], target)
        && forall j | i < j < |sent| :: GoesTo(sent[j], target)
      ensures o.RequestFailed? <==> failed(|sent| - 1) || answers(|sent| - 1).NoResponse?
      ensures o.Body? ==> o.answer == answers(|sent| - 1) && (o.answer.Answer? ==> o.answer.status < 400)
      ensures !o.RequestFailed? ==>
        var a, region := answers(|sent| - 1), sent[|sent| - 1].auth.region;
        var moves := regionRetry.None? && a.bucketRegion.Some? && a.bucketRegion.value != region;
        && (o.RedirectFailed? <==> a.status == 301 && !moves)
        && (o.StatusError? <==> a.status >= 400 && (!moves || a.bucketRegion.value == ""))
        && (o.Body? <==> a.status < 400 && (a.status == 301 ==> moves && a.bucketRegion.value == ""))
      ensures forall j | 0 <= j < |sent| - 1 :: !failed(j) && answers(j).Answer?
      ensures forall j | 0 <= j < |sent| && (o.RequestFailed? ==> j < |sent| - 1) &&
                         (authRetry.Some? ==> j < authRetry.value) ::
        NoneMissed(answers(j), envs(j), sent[j], regionRetry.Some? && regionRetry.value < j)
      ensures Current() == sent[|sent| - 1]
    {
      hide Rejects, RefreshedTo, NothingNew, MovedTo, GoesTo, IsAuthRefreshFailure, Target, Redirects, SetRegion;
      sent, authRetry, regionRetry := [], None, None;
      for it := 0 to MAX_RETRIES + 1
        invariant |sent| == it == (if authRetry.Some? then 1 else 0) + (if regionRetry.Some? then 1 else 0)
        invariant Next(sent, 0) == old(Current())
        invariant regionRetry.Some? ==> regionRetry != authRetry
        invariant authRetry.Some? ==>
          && authRetry.value < |sent| && Rejects(answers(authRetry.value))
          && RefreshedTo(envs(authRetry.value), sent[authRetry.value],
                         regionRetry.Some? && regionRetry.value < authRetry.value, Next(sent, authRetry.value + 1))
        invariant regionRetry.Some? ==>
          var i, a, target := regionRetry.value, answers(regionRetry.value), Target(answers(regionRetry.value));
          && i < |sent| && a.Answer? && (a.status == 301 || a.status >= 400)
          && target != "" && target != sent[i].auth.region
          && MovedTo(sent[i], Next(sent, i + 1), target) && GoesTo(Current(), target)
          && forall j | i < j < |sent| :: GoesTo(sent[j], target)
        invariant forall j | 0 <= j < |sent| :: !failed(j) && answers(j).Answer?
        invariant forall j | 0 <= j < |sent| && (authRetry.Some? ==> j < authRetry.value) ::
          NoneMissed(answers(j), envs(j), sent[j], regionRetry.Some? && regionRetry.value < j)
      {
        var request := Current();
        sent := sent + [request];
        var answer := answers(it);
        if failed(it) || answer.NoResponse? {
          o := RequestFailed;
          return;
        }
        RedirectIs(answer, request.auth.region);
        if authRetry.None? && IsAuthRefreshFailure(answer) {
          var refreshed := TryRefresh(envs(it), request, regionRetry.Some?);
          if refreshed {
            authRetry := Some(it);
            if regionRetry.Some? {
              StaysIn(envs(it), request, Current(), Target(answers(regionRetry.value)));
            }
            continue;
          }
        }
        var updated;
        o, updated := Judge(answer, auth.region, regionRetry.Some?);
        if updated == "" {
          return;
        }
        SetRegionMoves(request, updated);
        StaysInRegion(envs(0), request, request.(auth := SetRegion(request.auth, updated)), updated);
        auth := SetRegion(auth, updated);
        regionRetry := Some(it);
      }
      o := RetriesExceeded;
    }
  }

  /** A redirect that names no region, for a client that has one: its body is returned as if it
      were a listing. */
  method RedirectReadAsListing(client: Client, moved: Answer, envs: nat -> RefreshEnv)
    returns (sent: seq<Material>, o: ListOutcome)
    requires moved.Answer? && moved.status == 301 && moved.bucketRegion == Some("") && client.auth.region != ""
    modifies client`auth, client`http
    ensures o == Body(moved) && sent == [old(client.Current())]
  {
    var authRetry, regionRetry;
    sent, o, authRetry, regionRetry := client.ListRequest(_ => moved, envs, _ => false);
  }
}
