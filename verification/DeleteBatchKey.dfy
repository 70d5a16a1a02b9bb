/** The key under which bulk deletion groups paths: a list of length-prefixed parts. */
module DeleteBatchKey {
  import opened Prelude

  // ----- The key encoding -----

  function Digit(d: nat): char
    requires d < 10
  {
    "0123456789"[d]
  }

  function DigitValue(c: char): nat {
    if '0' <= c <= '9' then (c - '0') as nat else 0
  }

  function Decimal(n: nat): string {
    if n < 10 then [Digit(n)] else Decimal(n / 10) + [Digit(n % 10)]
  }

  function Value(s: string): nat {
    if s == "" then 0 else 10 * Value(s[..|s| - 1]) + DigitValue(s[|s| - 1])
  }

  /** AddString. */
  function Part(value: string): string {
    Decimal(|value|) + ":" + value + ";"
  }

  /** Build: the parts one after the other. */
  function Encode(parts: seq<string>): (key: string)
    ensures key == "" <==> parts == []
  {
    if parts == [] then "" else Part(parts[0]) + Encode(parts[1..])
  }

  lemma DigitRoundTrip(d: nat)
    requires d < 10
    ensures DigitValue(Digit(d)) == d && Digit(d) != ':'
  {
    assert d == 0 || d == 1 || d == 2 || d == 3 || d == 4 || d == 5 || d == 6 || d == 7 || d == 8 || d == 9;
  }

  lemma {:induction false} DecimalRoundTrip(n: nat)
    ensures Value(Decimal(n)) == n && ':' !in Decimal(n) && Decimal(n) != ""
  {
    if n < 10 {
      DigitRoundTrip(n);
      assert [Digit(n)][..0] == "";
    } else {
      DecimalRoundTrip(n / 10);
      DigitRoundTrip(n % 10);
      assert (Decimal(n / 10) + [Digit(n % 10)])[..|Decimal(n / 10)|] == Decimal(n / 10);
    }
  }

  /** A colon splits two strings at the same place when neither has one before it. */
  lemma SplitAtColon(a: string, x: string, b: string, y: string)
    requires ':' !in a && ':' !in b && a + ":" + x == b + ":" + y
    ensures a == b && x == y
  {
    var s, t := a + ":" + x, b + ":" + y;
    assert s[|a|] == ':' && t[|b|] == ':';
    assert forall i | 0 <= i < |a| :: s[i] == a[i];
    assert forall i | 0 <= i < |b| :: t[i] == b[i];
    assert |a| == |b|;
    assert a == s[..|a|] && b == t[..|a|] && x == s[|a| + 1..] && y == t[|a| + 1..];
  }

  lemma PartSplits(a: string, x: string, b: string, y: string)
    requires Part(a) + x == Part(b) + y
    ensures a == b && x == y
  {
    DecimalRoundTrip(|a|);
    DecimalRoundTrip(|b|);
    assert Part(a) + x == Decimal(|a|) + ":" + (a + ";" + x);
    assert Part(b) + y == Decimal(|b|) + ":" + (b + ";" + y);
    SplitAtColon(Decimal(|a|), a + ";" + x, Decimal(|b|), b + ";" + y);
    var s := a + ";" + x;
    assert a == s[..|a|] && b == s[..|a|] && x == s[|a| + 1..] && y == s[|a| + 1..];
  }

  /** Two lists of parts have the same key only if they are the same list, whatever characters
      the parts contain and however many there are. */
  lemma {:induction false} EncodeInjective(a: seq<string>, b: seq<string>)
    requires Encode(a) == Encode(b)
    ensures a == b
  {
    if a != [] && b != [] {
      PartSplits(a[0], Encode(a[1..]), b[0], Encode(b[1..]));
      EncodeInjective(a[1..], b[1..]);
      assert a == [a[0]] + a[1..] && b == [b[0]] + b[1..];
    }
  }

  // ----- What identifies a batch -----

  datatype Url = Url(prefix: string, httpProto: string, host: string, path: string)

  datatype Auth = Auth(region: string, accessKeyId: string, secretAccessKey: string, sessionToken: string,
                       endpoint: string, kmsKeyId: string, urlStyle: string, useSsl: bool, compatibilityMode: bool,
                       requesterPays: bool, bearerToken: string)

  datatype Http = Http(proxy: string, proxyPort: nat, proxyUsername: string, proxyPassword: string,
                       overrideVerify: bool, verify: bool, bearerToken: string)

  datatype Header = Header(name: string, value: string)

  datatype Secret = Secret(kind: string, provider: string, name: string, storage: string, persist: nat,
                           scope: seq<string>)

  /** The secret found for one type, with its score. */
  datatype Match = NoMatch | Match(score: nat, secret: Secret)

  /** What was looked up for the four types, unless there is no secret manager. */
  datatype Lookups = NoManager | Lookups(s3: Match, r2: Match, gcs: Match, aws: Match)

  /** `headers` are sorted; `directory` is empty unless a refreshable secret applies. */
  datatype Identity = Identity(url: Url, auth: Auth, http: Http, headers: seq<Header>, secrets: Lookups,
                               directory: string)

  function Flag(b: bool): string {
    if b then "1" else "0"
  }

  function UrlParts(u: Url): seq<string> {
    [u.prefix, u.httpProto, u.host, u.path]
  }

  function AuthParts(a: Auth): seq<string> {
    [a.region, a.accessKeyId, a.secretAccessKey, a.sessionToken, a.endpoint, a.kmsKeyId, a.urlStyle, Flag(a.useSsl),
     Flag(a.compatibilityMode), Flag(a.requesterPays), a.bearerToken]
  }

  function HttpParts(h: Http): seq<string> {
    [h.proxy, Decimal(h.proxyPort), h.proxyUsername, h.proxyPassword, Flag(h.overrideVerify), Flag(h.verify),
     h.bearerToken]
  }

  function HeaderParts(headers: seq<Header>): seq<string> {
    if headers == [] then [] else [headers[0].name, headers[0].value] + HeaderParts(headers[1..])
  }

  function MatchParts(m: Match): seq<string> {
    match m
    case NoMatch => [""]
    case Match(score, s) =>
      [Decimal(score), s.kind, s.provider, s.name, s.storage, Decimal(s.persist), Decimal(|s.scope|)] + s.scope
  }

  /** The parts of the lookup for one type, and those behind them. */
  function Lookup(kind: string, m: Match, rest: seq<string>): seq<string> {
    [kind] + (MatchParts(m) + rest)
  }

  function SecretParts(l: Lookups, rest: seq<string>): seq<string> {
    match l
    case NoManager => [""] + rest
    case Lookups(s3, r2, gcs, aws) => Lookup("s3", s3, Lookup("r2", r2, Lookup("gcs", gcs, Lookup("aws", aws, rest))))
  }

  function PartsOf(id: Identity): seq<string> {
    UrlParts(id.url) + (AuthParts(id.auth) + (HttpParts(id.http) +
      (HeaderParts(id.headers) + SecretParts(id.secrets, [id.directory]))))
  }

  /** CreateDeleteBatchKey. */
  function Key(id: Identity): string {
    Encode(PartsOf(id))
  }

  /** The order of std::string. */
  predicate Less(a: string, b: string) {
    b != "" && (a == "" || a[0] < b[0] || (a[0] == b[0] && Less(a[1..], b[1..])))
  }

  ghost predicate IsDecimal(s: string) {
    exists n: nat :: Decimal(n) == s
  }

  /** Headers come from a map and are sorted by name. A lookup for a type finds secrets of that
      type only, and no provider of S3 secrets is named by a number. */
  ghost predicate WellFormed(id: Identity) {
    Sorted(id.headers) && TypesOk(id.secrets)
  }

  ghost predicate Sorted(headers: seq<Header>) {
    forall i, j | 0 <= i < j < |headers| :: Less(headers[i].name, headers[j].name)
  }

  ghost predicate TypesOk(l: Lookups) {
    l.Lookups? ==>
      && (l.s3.Match? ==> l.s3.secret.kind == "s3" && !IsDecimal(l.s3.secret.provider))
      && (l.r2.Match? ==> l.r2.secret.kind == "r2")
  }

  // ----- The key determines the identity -----

  lemma DecimalInjective(m: nat, n: nat)
    requires Decimal(m) == Decimal(n)
    ensures m == n
  {
    DecimalRoundTrip(m);
    DecimalRoundTrip(n);
  }

  lemma {:induction false} DecimalStarts(n: nat)
    ensures Decimal(n) != "" && '0' <= Decimal(n)[0] <= '9'
  {
    if n >= 10 {
      DecimalStarts(n / 10);
    } else {
      assert n == 0 || n == 1 || n == 2 || n == 3 || n == 4 || n == 5 || n == 6 || n == 7 || n == 8 || n == 9;
    }
  }

  lemma MatchSplits(m: Match, x: seq<string>, n: Match, y: seq<string>)
    requires MatchParts(m) + x == MatchParts(n) + y
    ensures m == n && x == y
  {
    var s, t := MatchParts(m) + x, MatchParts(n) + y;
    assert s[0] == t[0];
    if m.Match? {
      DecimalStarts(m.score);
    }
    if n.Match? {
      DecimalStarts(n.score);
    }
    if m.NoMatch? {
      assert x == s[1..] && y == t[1..];
    } else {
      assert s[1] == t[1] && s[2] == t[2] && s[3] == t[3] && s[4] == t[4] && s[5] == t[5] && s[6] == t[6];
      DecimalInjective(m.score, n.score);
      DecimalInjective(m.secret.persist, n.secret.persist);
      DecimalInjective(|m.secret.scope|, |n.secret.scope|);
      var k := |m.secret.scope|;
      assert m.secret.scope == s[7..7 + k] && n.secret.scope == t[7..7 + k] && x == s[7 + k..] && y == t[7 + k..];
    }
  }

  lemma OneSplits(a: string, x: seq<string>, b: string, y: seq<string>)
    requires [a] + x == [b] + y
    ensures a == b && x == y
  {
    assert ([a] + x)[0] == a && ([b] + y)[0] == b;
    assert x == ([a] + x)[1..] && y == ([b] + y)[1..];
  }

  lemma LookupSplits(kind: string, m: Match, x: seq<string>, n: Match, y: seq<string>)
    requires Lookup(kind, m, x) == Lookup(kind, n, y)
    ensures m == n && x == y
  {
    OneSplits(kind, MatchParts(m) + x, kind, MatchParts(n) + y);
    MatchSplits(m, x, n, y);
  }

  lemma SecretsSplit(l: Lookups, d: string, k: Lookups, e: string)
    requires SecretParts(l, [d]) == SecretParts(k, [e])
    ensures l == k && d == e
  {
    var s, t := SecretParts(l, [d]), SecretParts(k, [e]);
    assert s[0] == t[0];
    if l.NoManager? {
      OneSplits("", [d], "", [e]);
      OneSplits(d, [], e, []);
    } else {
      var x3, y3 := Lookup("aws", l.aws, [d]), Lookup("aws", k.aws, [e]);
      var x2, y2 := Lookup("gcs", l.gcs, x3), Lookup("gcs", k.gcs, y3);
      LookupSplits("s3", l.s3, Lookup("r2", l.r2, x2), k.s3, Lookup("r2", k.r2, y2));
      LookupSplits("r2", l.r2, x2, k.r2, y2);
      LookupSplits("gcs", l.gcs, x3, k.gcs, y3);
      LookupSplits("aws", l.aws, [d], k.aws, [e]);
      OneSplits(d, [], e, []);
    }
  }

  lemma HeadThenTail(headers: seq<Header>, rest: seq<string>)
    requires headers != []
    ensures HeaderParts(headers) + rest == [headers[0].name, headers[0].value] + (HeaderParts(headers[1..]) + rest)
  {
  }

  // The first parts of a match and of two lookups.
  lemma MatchReads(kind: string, m: Match, rest: seq<string>)
    ensures var s := Lookup(kind, m, rest);
      && |s| >= 2 + |rest| && s[0] == kind
      && (m.NoMatch? ==> s == [kind, ""] + rest)
      && (m.Match? ==> |s| >= 8 && s[1] == Decimal(m.score) && s[2] == m.secret.kind && s[3] == m.secret.provider &&
                       s[4] == m.secret.name && s[5] == m.secret.storage && s[6] == Decimal(m.secret.persist))
  {
  }

  lemma LookupReads(l: Lookups, d: string)
    requires l.Lookups?
    ensures var s := SecretParts(l, [d]);
      && |s| >= 9 && s[0] == "s3"
      && (l.s3.NoMatch? ==> s[1] == "" && s[2] == "r2" && s[4] == if l.r2.NoMatch? then "gcs" else l.r2.secret.kind)
      && (l.s3.Match? ==> s[1] == Decimal(l.s3.score) && s[2] == l.s3.secret.kind && s[3] == l.s3.secret.provider &&
                          s[6] == Decimal(l.s3.secret.persist))
  {
    var x3 := Lookup("aws", l.aws, [d]);
    var x2 := Lookup("gcs", l.gcs, x3);
    var x1 := Lookup("r2", l.r2, x2);
    MatchReads("aws", l.aws, [d]);
    MatchReads("gcs", l.gcs, x3);
    MatchReads("r2", l.r2, x2);
    MatchReads("s3", l.s3, x1);
  }

  lemma Differ(s: seq<string>, t: seq<string>, i: nat)
    requires i < |s| && i < |t| && s[i] != t[i]
    ensures s != t
  {
  }

  // The parts of lookups do not read as those of another header and of lookups behind it.
  lemma NoExtraHeader(l: Lookups, d: string, headers: seq<Header>, k: Lookups, e: string)
    requires headers != [] && Sorted(headers) && TypesOk(l) && TypesOk(k)
    ensures SecretParts(l, [d]) != HeaderParts(headers) + SecretParts(k, [e])
  {
    var s, x := SecretParts(l, [d]), SecretParts(k, [e]);
    var t := HeaderParts(headers) + x;
    HeadThenTail(headers, x);
    if l.Lookups? {
      LookupReads(l, d);
      if headers[0].name != "s3" {
        Differ(s, t, 0);
      } else if |headers| > 1 {
        HeadThenTail(headers[1..], x);
        assert Less(headers[0].name, headers[1].name) && t[2] == headers[1].name;
        Differ(s, t, 2);
      } else {
        assert t == [headers[0].name, headers[0].value] + x;
        OneHeader(l, d, headers[0].value, k, e);
      }
    }
  }

  lemma OneHeader(l: Lookups, d: string, value: string, k: Lookups, e: string)
    requires l.Lookups? && TypesOk(l) && TypesOk(k)
    ensures SecretParts(l, [d]) != ["s3", value] + SecretParts(k, [e])
  {
    var s, x := SecretParts(l, [d]), SecretParts(k, [e]);
    var t := ["s3", value] + x;
    LookupReads(l, d);
    assert t[2] == x[0];
    if k.NoManager? || l.s3.NoMatch? {
      if k.Lookups? {
        LookupReads(k, e);
      }
      Differ(s, t, 2);
    } else {
      LookupReads(k, e);
      if k.s3.Match? {
        assert t[3] == x[1] == Decimal(k.s3.score);
        Differ(s, t, 3);
      } else {
        assert t[6] == x[4];
        DecimalStarts(l.s3.secret.persist);
        Differ(s, t, 6);
      }
    }
  }

  lemma {:induction false} TailSplits(h: seq<Header>, l: Lookups, d: string, g: seq<Header>, k: Lookups, e: string)
    requires HeaderParts(h) + SecretParts(l, [d]) == HeaderParts(g) + SecretParts(k, [e])
    requires Sorted(h) && Sorted(g) && TypesOk(l) && TypesOk(k)
    ensures h == g && l == k && d == e
  {
    var x, y := SecretParts(l, [d]), SecretParts(k, [e]);
    assert [] + x == x && [] + y == y;
    if h == [] && g == [] {
      SecretsSplit(l, d, k, e);
    } else if h == [] {
      NoExtraHeader(l, d, g, k, e);
    } else if g == [] {
      NoExtraHeader(k, e, h, l, d);
    } else {
      HeadThenTail(h, x);
      HeadThenTail(g, y);
      ConcatSplits([h[0].name, h[0].value], HeaderParts(h[1..]) + x, [g[0].name, g[0].value], HeaderParts(g[1..]) + y);
      assert [h[0].name, h[0].value][0] == h[0].name && [h[0].name, h[0].value][1] == h[0].value;
      TailSplits(h[1..], l, d, g[1..], k, e);
      assert h == [h[0]] + h[1..] && g == [g[0]] + g[1..];
    }
  }

  lemma ConcatSplits(a: seq<string>, x: seq<string>, b: seq<string>, y: seq<string>)
    requires a + x == b + y && |a| == |b|
    ensures a == b && x == y
  {
    assert a == (a + x)[..|a|] && b == (b + y)[..|b|] && x == (a + x)[|a|..] && y == (b + y)[|b|..];
  }

  lemma AuthSplits(a: Auth, b: Auth)
    requires AuthParts(a) == AuthParts(b)
    ensures a == b
  {
    var s, t := AuthParts(a), AuthParts(b);
    assert s[0] == t[0] && s[1] == t[1] && s[2] == t[2] && s[3] == t[3] && s[4] == t[4] && s[5] == t[5] && s[6] == t[6];
    assert s[7] == t[7] && s[8] == t[8] && s[9] == t[9] && s[10] == t[10];
    FlagsDiffer();
  }

  lemma FlagsDiffer()
    ensures Flag(true) != Flag(false)
  {
    assert Flag(true)[0] == '1' && Flag(false)[0] == '0';
  }

  lemma HttpSplits(a: Http, b: Http)
    requires HttpParts(a) == HttpParts(b)
    ensures a == b
  {
    var s, t := HttpParts(a), HttpParts(b);
    assert s[0] == t[0] && s[1] == t[1] && s[2] == t[2] && s[3] == t[3] && s[4] == t[4] && s[5] == t[5] && s[6] == t[6];
    DecimalInjective(a.proxyPort, b.proxyPort);
    FlagsDiffer();
  }

  lemma UrlSplits(a: Url, b: Url)
    requires UrlParts(a) == UrlParts(b)
    ensures a == b
  {
    var s, t := UrlParts(a), UrlParts(b);
    assert s[0] == t[0] && s[1] == t[1] && s[2] == t[2] && s[3] == t[3];
  }

  /** Paths get the same key if and only if they agree in everything the key is made of, although
      the headers are listed without their number and the lookups have no fixed length. */
  lemma KeyInjective(a: Identity, b: Identity)
    requires WellFormed(a) && WellFormed(b)
    ensures Key(a) == Key(b) <==> a == b
  {
    if Key(a) == Key(b) {
      EncodeInjective(PartsOf(a), PartsOf(b));
      var x := HeaderParts(a.headers) + SecretParts(a.secrets, [a.directory]);
      var y := HeaderParts(b.headers) + SecretParts(b.secrets, [b.directory]);
      ConcatSplits(UrlParts(a.url), AuthParts(a.auth) + (HttpParts(a.http) + x),
                   UrlParts(b.url), AuthParts(b.auth) + (HttpParts(b.http) + y));
      ConcatSplits(AuthParts(a.auth), HttpParts(a.http) + x, AuthParts(b.auth), HttpParts(b.http) + y);
      ConcatSplits(HttpParts(a.http), x, HttpParts(b.http), y);
      UrlSplits(a.url, b.url);
      AuthSplits(a.auth, b.auth);
      HttpSplits(a.http, b.http);
      TailSplits(a.headers, a.secrets, a.directory, b.headers, b.secrets, b.directory);
    }
  }

  lemma SameParts(one: Secret, other: Secret, rest: seq<string>)
    requires one == Secret("s3", "1", "s3", "memory", 0, ["0", "0"]) && other == Secret("s3", "memory", "0", "2", 0, [])
    requires Decimal(5) == "5" && Decimal(2) == "2" && Decimal(1) == "1" && Decimal(0) == "0"
    ensures Lookup("s3", Match(5, one), rest) == ["s3", "5"] + (HeaderParts([]) + Lookup("s3", Match(1, other), rest))
  {
    assert MatchParts(Match(5, one)) == ["5", "s3", "1", "s3", "memory", "0", "2", "0", "0"];
    assert MatchParts(Match(1, other)) == ["1", "s3", "memory", "0", "2", "0", "0"];
  }

  /** With a provider named by a number, the key does not tell a header from a lookup: these two
      differ in their headers and in their secrets, and have the same key. */
  lemma NumericProviderCollides(url: Url, auth: Auth, http: Http) returns (a: Identity, b: Identity)
    ensures a != b && Key(a) == Key(b)
    ensures a.headers == [] && b.headers == [Header("s3", "5")]
    ensures a.url == b.url == url && a.auth == b.auth == auth && a.http == b.http == http
  {
    var one := Secret("s3", "1", "s3", "memory", 0, ["0", "0"]);
    var other := Secret("s3", "memory", "0", "2", 0, []);
    a := Identity(url, auth, http, [], Lookups(Match(5, one), NoMatch, NoMatch, NoMatch), "");
    b := Identity(url, auth, http, [Header("s3", "5")], Lookups(Match(1, other), NoMatch, NoMatch, NoMatch), "");
    var rest := Lookup("r2", NoMatch, Lookup("gcs", NoMatch, Lookup("aws", NoMatch, [""])));
    assert Decimal(5) == "5" && Decimal(2) == "2" && Decimal(1) == "1" && Decimal(0) == "0";
    SameParts(one, other, rest);
    HeadThenTail(b.headers, SecretParts(b.secrets, [""]));
    assert HeaderParts(a.headers) + SecretParts(a.secrets, [""]) == SecretParts(a.secrets, [""]);
  }
}
