/** The S3 round-trip check of scripts/test/test_minio.py: how the client
    settings are read from the environment (with the part of `urlparse` they
    depend on), an in-memory object store standing in for MinIO/LocalStack,
    and the put/get check run against it. */
module ObjectStore {
  import opened Wrappers
  import opened Text
  import opened Environment

  // ---------------------------------------------------------------------
  // `urlparse`, as far as the scheme and the network location go

  /** The characters `urlsplit` strips from the front of a URL (C0 controls
      and the space). */
  predicate IsControlOrSpace(c: char) { c <= ' ' }

  /** The characters `urlsplit` deletes wherever they occur. */
  predicate IsUnsafe(c: char) { c == '\t' || c == '\r' || c == '\n' }

  /** The first position at or after `from` that is not a control or space. */
  function SkipControls(s: string, from: nat): (k: nat)
    requires from <= |s|
    ensures from <= k <= |s|
    ensures forall i :: from <= i < k ==> IsControlOrSpace(s[i])
    ensures k < |s| ==> !IsControlOrSpace(s[k])
    decreases |s| - from
  {
    if from == |s| || !IsControlOrSpace(s[from]) then from else SkipControls(s, from + 1)
  }

  /** `url.lstrip(...)` of the leading controls and spaces. */
  function StripLeading(s: string): (r: string)
    ensures |r| <= |s| && r == s[|s| - |r|..]
    ensures r != [] ==> !IsControlOrSpace(r[0])
  {
    s[SkipControls(s, 0)..]
  }

  /** `s[from..]` with every tab, carriage return and line feed deleted. */
  function SafeFrom(s: string, from: nat): string
    requires from <= |s|
    decreases |s| - from
  {
    if from == |s| then []
    else (if IsUnsafe(s[from]) then [] else [s[from]]) + SafeFrom(s, from + 1)
  }

  lemma {:induction false} SafeFromKeeps(s: string, from: nat)
    requires from <= |s|
    ensures forall c :: c in SafeFrom(s, from) ==> c in s[from..]
    ensures (forall i :: from <= i < |s| ==> !IsUnsafe(s[i])) ==> SafeFrom(s, from) == s[from..]
    decreases |s| - from
  {
    if from < |s| {
      SafeFromKeeps(s, from + 1);
      assert s[from..] == [s[from]] + s[from + 1..];
    }
  }

  /** `s` with every tab, carriage return and line feed deleted. */
  function RemoveUnsafe(s: string): string {
    SafeFrom(s, 0)
  }

  /** Deleting characters adds none, and a text without tabs and line breaks
      is left as it is. */
  lemma RemoveUnsafeKeeps(s: string)
    ensures forall c :: c in RemoveUnsafe(s) ==> c in s
    ensures (forall i :: 0 <= i < |s| ==> !IsUnsafe(s[i])) ==> RemoveUnsafe(s) == s
  {
    SafeFromKeeps(s, 0);
    assert s[0..] == s;
  }

  /** `scheme_chars`: letters, digits, `+`, `-` and `.`. */
  predicate IsSchemeChar(c: char) {
    IsAsciiLetter(c) || IsDigit(c) || c == '+' || c == '-' || c == '.'
  }

  /** A scheme as `urlsplit` recognises one before the first `:`. */
  predicate IsScheme(s: string) {
    |s| > 0 && IsAsciiLetter(s[0]) && forall i :: 0 <= i < |s| ==> IsSchemeChar(s[i])
  }

  /** The characters that end the network location. */
  const NetlocEnd: set<char> := {'/', '?', '#'}

  /** A network location with one of `[` and `]` but not the other. */
  predicate Unbalanced(netloc: string) {
    ('[' in netloc) != (']' in netloc)
  }

  datatype Url = Url(scheme: string, netloc: string, rest: string)

  datatype UrlError = InvalidIPv6Url

  /** What `urlsplit` cleans off a URL before taking it apart. */
  function Clean(raw: string): string {
    RemoveUnsafe(StripLeading(raw))
  }

  /** Cleaning only ever removes characters. */
  lemma CleanRemovesOnly(raw: string)
    ensures forall c :: c in Clean(raw) ==> c in raw
  {
    RemoveUnsafeKeeps(StripLeading(raw));
  }

  /** A URL that starts with a visible character and holds no tab or line
      break is not changed by cleaning. */
  lemma CleanKeeps(url: string)
    requires url != [] && !IsControlOrSpace(url[0])
    requires forall i :: 0 <= i < |url| ==> !IsUnsafe(url[i])
    ensures Clean(url) == url
  {
    RemoveUnsafeKeeps(url);
  }

  /** The scheme, lower-cased, and what follows its `:`; no scheme and the
      whole URL when the text before the first `:` is not a scheme. */
  function SplitScheme(url: string): (r: (string, string))
    ensures |r.1| <= |url| && r.1 == url[|url| - |r.1|..]
  {
    var head := Before(url, ':');
    if |head| < |url| && IsScheme(head) then (Lower(head), url[|head| + 1..]) else ("", url)
  }

  lemma SplitSchemeOf(sc: string, tail: string)
    requires IsScheme(sc)
    ensures SplitScheme(sc + [':'] + tail) == (Lower(sc), tail)
  {
    assert ':' !in sc by {
      forall i | 0 <= i < |sc| ensures sc[i] != ':' {
        assert IsSchemeChar(sc[i]);
      }
    }
    BeforeSeparator(sc, ':', tail);
    assert (sc + [':'] + tail)[|sc| + 1..] == tail;
  }

  /** The network location after a leading `//`, up to the first `/`, `?`
      or `#`; `Failure` when its brackets do not match. */
  function SplitNetloc(scheme: string, after: string): Result<Url, UrlError> {
    if |after| >= 2 && after[..2] == "//" then
      var netloc := BeforeAny(after[2..], NetlocEnd);
      if Unbalanced(netloc) then Failure(InvalidIPv6Url)
      else Success(Url(scheme, netloc, after[2 + |netloc|..]))
    else Success(Url(scheme, "", after))
  }

  lemma SplitNetlocOf(scheme: string, host: string, path: string)
    requires forall i :: 0 <= i < |host| ==> host[i] !in NetlocEnd
    requires path == [] || path[0] in NetlocEnd
    ensures !Unbalanced(host) ==> SplitNetloc(scheme, "//" + host + path) == Success(Url(scheme, host, path))
    ensures Unbalanced(host) ==> SplitNetloc(scheme, "//" + host + path) == Failure(InvalidIPv6Url)
  {
    var after := "//" + host + path;
    assert after[2..] == host + path;
    BeforeAnyStop(host, NetlocEnd, path);
    assert after[2 + |host|..] == path;
  }

  /** `urlparse(raw)`: the lower-cased scheme, the network location and what
      follows it; `Failure` where Python raises `ValueError`. */
  function UrlParse(raw: string): Result<Url, UrlError> {
    var (scheme, after) := SplitScheme(Clean(raw));
    SplitNetloc(scheme, after)
  }

  /** `scheme://host<path>` is taken apart into its scheme, lower-cased, its
      host and its path; a host with an unmatched bracket is refused. */
  lemma UrlParseAuthority(sc: string, host: string, path: string)
    requires IsScheme(sc)
    requires forall i :: 0 <= i < |host| ==> host[i] !in NetlocEnd && !IsUnsafe(host[i])
    requires path == [] || path[0] in NetlocEnd
    requires forall i :: 0 <= i < |path| ==> !IsUnsafe(path[i])
    ensures !Unbalanced(host) ==> UrlParse(sc + "://" + host + path) == Success(Url(Lower(sc), host, path))
    ensures Unbalanced(host) ==> UrlParse(sc + "://" + host + path) == Failure(InvalidIPv6Url)
  {
    var tail := "//" + host + path;
    var url := sc + [':'] + tail;
    assert url == sc + "://" + host + path;
    forall i | 0 <= i < |url| ensures !IsUnsafe(url[i]) {
      if i < |sc| {
        assert url[i] == sc[i] && IsSchemeChar(sc[i]);
      } else if i >= |sc| + 3 + |host| {
        assert url[i] == path[i - |sc| - 3 - |host|];
      } else if i >= |sc| + 3 {
        assert url[i] == host[i - |sc| - 3];
      }
    }
    CleanKeeps(url);
    SplitSchemeOf(sc, tail);
    SplitNetlocOf(Lower(sc), host, path);
  }

  /** Without a `/` there is no network location, and nothing is refused. */
  lemma UrlParseNoSlash(raw: string)
    requires '/' !in raw
    ensures UrlParse(raw).Success? && UrlParse(raw).value.netloc == ""
  {
    var url := Clean(raw);
    CleanRemovesOnly(raw);
    var (scheme, after) := SplitScheme(url);
    if |after| >= 2 {
      assert after[0] == url[|url| - |after|];
    }
  }

  // ---------------------------------------------------------------------
  // The client settings, read when the module is imported

  datatype Client = Client(endpoint: string, accessKey: string, secretKey: string, secure: bool)

  const EndpointVar := "MINIO_ENDPOINT"
  const DefaultScheme := "http"
  const DefaultHost := "localhost:9000"
  /** `"http://localhost:9000"`. */
  const DefaultEndpoint := DefaultScheme + "://" + DefaultHost
  /** The one scheme that asks for TLS. */
  const SecureScheme := "https"

  lemma SecureSchemeLower()
    ensures Lower(SecureScheme) == SecureScheme
  {
    assert LowerChar('h') == 'h' && LowerChar('t') == 't' && LowerChar('p') == 'p' && LowerChar('s') == 's';
  }

  /** The client `_build_client()` makes for the setting `endpointEnv`: the
      endpoint is its network location (or the whole setting when it has
      none), and the connection is secure when the scheme is `https`. */
  function ClientFor(endpointEnv: string, access: string, secret: string): Result<Client, UrlError> {
    match UrlParse(endpointEnv)
    case Failure(e) => Failure(e)
    case Success(u) =>
      Success(Client(if u.netloc != "" then u.netloc else endpointEnv, access, secret, u.scheme == SecureScheme))
  }

  /** `_build_client()`, reading its settings from the environment. */
  function BuildClient(env: Env): Result<Client, UrlError> {
    ClientFor(GetEnv(env, EndpointVar, DefaultEndpoint),
              GetEnv(env, "MINIO_ACCESS_KEY", "miniouser"),
              GetEnv(env, "MINIO_SECRET_KEY", "miniopass123"))
  }

  /** An endpoint written as a URL connects to its host, securely exactly
      when the scheme is `https` in any mixture of cases. */
  lemma ClientForUrl(sc: string, host: string, path: string, access: string, secret: string)
    requires IsScheme(sc) && host != [] && !Unbalanced(host)
    requires forall i :: 0 <= i < |host| ==> host[i] !in NetlocEnd && !IsUnsafe(host[i])
    requires path == [] || path[0] in NetlocEnd
    requires forall i :: 0 <= i < |path| ==> !IsUnsafe(path[i])
    ensures ClientFor(sc + "://" + host + path, access, secret)
         == Success(Client(host, access, secret, SameIgnoringCase(sc, SecureScheme)))
  {
    UrlParseAuthority(sc, host, path);
    var u := Url(Lower(sc), host, path);
    assert UrlParse(sc + "://" + host + path) == Success(u);
    SecureSchemeLower();
    LowerIsWord(sc, SecureScheme);
  }

  /** An endpoint with an unmatched bracket in its host makes building the
      client raise. */
  lemma ClientForRefusesBracket(sc: string, host: string, path: string, access: string, secret: string)
    requires IsScheme(sc) && Unbalanced(host)
    requires forall i :: 0 <= i < |host| ==> host[i] !in NetlocEnd && !IsUnsafe(host[i])
    requires path == [] || path[0] in NetlocEnd
    requires forall i :: 0 <= i < |path| ==> !IsUnsafe(path[i])
    ensures ClientFor(sc + "://" + host + path, access, secret) == Failure(InvalidIPv6Url)
  {
    UrlParseAuthority(sc, host, path);
  }

  /** The CI setting: LocalStack on port 4566, without TLS. */
  lemma ClientForLocalStack(access: string, secret: string)
    ensures ClientFor("http://localhost:4566", access, secret) == Success(Client("localhost:4566", access, secret, false))
  {
    var sc, host := "http", "localhost:4566";
    assert "http://localhost:4566" == sc + "://" + host + "";
    HostPlain(host);
    ClientForUrl(sc, host, "", access, secret);
    assert !SameIgnoringCase(sc, SecureScheme);
  }

  /** An upper-case `HTTPS` scheme still asks for TLS, and a trailing path is dropped. */
  lemma ClientForUpperCaseHttps(access: string, secret: string)
    ensures ClientFor("HTTPS://minio:9000/", access, secret) == Success(Client("minio:9000", access, secret, true))
  {
    var sc, host, path := "HTTPS", "minio:9000", "/";
    UpperCaseSecure();
    assert "HTTPS://minio:9000/" == sc + "://" + host + path;
    HostPlain(host);
    ClientForUrl(sc, host, path, access, secret);
  }

  lemma UpperCaseSecure()
    ensures SameIgnoringCase("HTTPS", SecureScheme)
  {
    assert LowerChar('H') == 'h' && LowerChar('T') == 't' && LowerChar('P') == 'p' && LowerChar('S') == 's';
  }

  /** A host written with letters, digits and `:` only ends at no delimiter,
      has no unsafe character and no bracket. */
  lemma HostPlain(host: string)
    requires forall i :: 0 <= i < |host| ==> IsAsciiLetter(host[i]) || IsDigit(host[i]) || host[i] == ':'
    ensures forall i :: 0 <= i < |host| ==> host[i] !in NetlocEnd && !IsUnsafe(host[i])
    ensures !Unbalanced(host)
  {
    forall i | 0 <= i < |host| ensures host[i] != '[' && host[i] != ']' {
    }
  }

  /** A setting without any `/` (a bare `host:port`, or the empty text) is
      passed to the client whole. */
  lemma ClientForBareEndpoint(raw: string, access: string, secret: string)
    requires '/' !in raw
    ensures ClientFor(raw, access, secret).Success?
    ensures ClientFor(raw, access, secret).value.endpoint == raw
  {
    UrlParseNoSlash(raw);
  }

  // The default endpoint, taken apart one stage at a time.

  lemma DefaultEndpointClean()
    ensures Clean(DefaultEndpoint) == DefaultEndpoint
  {
    CleanKeeps(DefaultEndpoint);
  }

  lemma DefaultEndpointScheme()
    ensures SplitScheme(DefaultEndpoint) == (Lower(DefaultScheme), "//" + DefaultHost)
  {
    assert DefaultEndpoint == DefaultScheme + [':'] + ("//" + DefaultHost);
    SplitSchemeOf(DefaultScheme, "//" + DefaultHost);
  }

  lemma DefaultHostPlain()
    ensures forall i :: 0 <= i < |DefaultHost| ==> DefaultHost[i] !in NetlocEnd
    ensures !Unbalanced(DefaultHost)
  {
    forall i | 0 <= i < |DefaultHost| ensures DefaultHost[i] !in NetlocEnd {
      assert DefaultHost[i] in "localhost:9000";
    }
    assert '[' !in DefaultHost && ']' !in DefaultHost;
  }

  lemma DefaultEndpointNetloc()
    ensures SplitNetloc(Lower(DefaultScheme), "//" + DefaultHost) == Success(Url(Lower(DefaultScheme), DefaultHost, ""))
  {
    DefaultHostPlain();
    SplitNetlocOf(Lower(DefaultScheme), DefaultHost, "");
    assert "//" + DefaultHost == "//" + DefaultHost + "";
  }

  lemma ParseDefaultEndpoint()
    ensures UrlParse(DefaultEndpoint) == Success(Url(Lower(DefaultScheme), DefaultHost, ""))
  {
    DefaultEndpointClean();
    DefaultEndpointScheme();
    DefaultEndpointNetloc();
  }

  /** With `MINIO_ENDPOINT` unset the client goes to `localhost:9000`
      without TLS; unset keys fall back to `miniouser` and `miniopass123`. */
  lemma BuildClientDefault(env: Env)
    requires EndpointVar !in env
    ensures BuildClient(env).Success?
    ensures BuildClient(env).value.endpoint == "localhost:9000"
    ensures !BuildClient(env).value.secure
    ensures "MINIO_ACCESS_KEY" !in env ==> BuildClient(env).value.accessKey == "miniouser"
    ensures "MINIO_SECRET_KEY" !in env ==> BuildClient(env).value.secretKey == "miniopass123"
  {
    ParseDefaultEndpoint();
    assert |Lower(DefaultScheme)| == 4;
  }

  /** A `MINIO_ENDPOINT` set to the empty text is used as it is, not replaced
      by the default. */
  lemma BuildClientEmptyEndpoint(env: Env)
    requires EndpointVar in env && env[EndpointVar] == ""
    ensures BuildClient(env).Success?
    ensures BuildClient(env).value.endpoint == ""
  {
    ClientForBareEndpoint("", GetEnv(env, "MINIO_ACCESS_KEY", "miniouser"), GetEnv(env, "MINIO_SECRET_KEY", "miniopass123"));
  }

  /** The module-level state of test_minio.py: the client and the bucket. */
  datatype Settings = Settings(client: Client, bucket: string)

  const BucketVar := "MINIO_BUCKET"
  const DefaultBucket := "dtp-artifacts"

  /** What importing test_minio.py computes, or the error it raises. */
  function ImportSettings(env: Env): (r: Result<Settings, UrlError>)
    ensures r.Success? <==> BuildClient(env).Success?
    ensures r.Success? ==> r.value.client == BuildClient(env).value
    ensures r.Success? && BucketVar in env ==> r.value.bucket == env[BucketVar]
    ensures r.Success? && BucketVar !in env ==> r.value.bucket == DefaultBucket
  {
    match BuildClient(env)
    case Failure(e) => Failure(e)
    case Success(c) => Success(Settings(c, GetEnv(env, BucketVar, DefaultBucket)))
  }

  /** Environments that agree on a variable give `os.getenv` the same answer. */
  predicate SameSetting(env: Env, env': Env, name: string) {
    (name in env <==> name in env') && (name in env ==> env[name] == env'[name])
  }

  /** Importing test_minio.py reads only its four variables. */
  lemma ImportReadsOnly(env: Env, env': Env)
    requires SameSetting(env, env', EndpointVar)
    requires SameSetting(env, env', "MINIO_ACCESS_KEY")
    requires SameSetting(env, env', "MINIO_SECRET_KEY")
    requires SameSetting(env, env', BucketVar)
    ensures ImportSettings(env) == ImportSettings(env')
  {
    var e := GetEnv(env, EndpointVar, DefaultEndpoint);
    var a := GetEnv(env, "MINIO_ACCESS_KEY", "miniouser");
    var k := GetEnv(env, "MINIO_SECRET_KEY", "miniopass123");
    assert GetEnv(env', EndpointVar, DefaultEndpoint) == e;
    assert GetEnv(env', "MINIO_ACCESS_KEY", "miniouser") == a;
    assert GetEnv(env', "MINIO_SECRET_KEY", "miniopass123") == k;
    assert BuildClient(env) == ClientFor(e, a, k) == BuildClient(env');
  }

  // ---------------------------------------------------------------------
  // The object store

  newtype Byte = x: int | 0 <= x < 256

  type Bytes = seq<Byte>

  /** The buckets of a store and the objects in them, by bucket and key. */
  datatype Contents = Contents(buckets: set<string>, objects: map<(string, string), Bytes>)

  /** Every object lives in a bucket that exists. */
  predicate WellFormed(c: Contents) {
    forall k :: k in c.objects ==> k.0 in c.buckets
  }

  /** The contents once bucket `b` exists. */
  function WithBucket(c: Contents, b: string): Contents {
    Contents(c.buckets + {b}, c.objects)
  }

  /** The contents once `data` is stored under key `k` of bucket `b`. */
  function Put(c: Contents, b: string, k: string, data: Bytes): Contents {
    Contents(c.buckets, c.objects[(b, k) := data])
  }

  /** The object under key `k` of bucket `b`, if any. */
  function Get(c: Contents, b: string, k: string): Option<Bytes> {
    if (b, k) in c.objects then Some(c.objects[(b, k)]) else None
  }

  /** Making sure a bucket exists a second time changes nothing. */
  lemma WithBucketIdempotent(c: Contents, b: string)
    ensures WithBucket(WithBucket(c, b), b) == WithBucket(c, b)
    ensures b in c.buckets ==> WithBucket(c, b) == c
  {
  }

  /** Both operations keep every object inside an existing bucket. */
  lemma OperationsKeepWellFormed(c: Contents, b: string, k: string, data: Bytes)
    requires WellFormed(c)
    ensures WellFormed(WithBucket(c, b))
    ensures b in c.buckets ==> WellFormed(Put(c, b, k, data))
  {
  }

  /** What was put is what is read back, and every other object is left alone. */
  lemma GetAfterPut(c: Contents, b: string, k: string, data: Bytes, b': string, k': string)
    ensures Get(Put(c, b, k, data), b, k) == Some(data)
    ensures (b', k') != (b, k) ==> Get(Put(c, b, k, data), b', k') == Get(c, b', k')
  {
  }

  /** The last object put under a key replaces the earlier one. */
  lemma PutOverwrites(c: Contents, b: string, k: string, d1: Bytes, d2: Bytes)
    ensures Put(Put(c, b, k, d1), b, k, d2) == Put(c, b, k, d2)
  {
  }

  /** An S3 server reached through the client: buckets and the objects
      stored in them. */
  class Store {
    var buckets: set<string>
    var objects: map<(string, string), Bytes>

    ghost function State(): Contents
      reads this
    {
      Contents(buckets, objects)
    }

    ghost predicate Valid()
      reads this
    {
      WellFormed(State())
    }

    /** A store holding the given buckets and objects. */
    constructor (bs: set<string>, os: map<(string, string), Bytes>)
      requires WellFormed(Contents(bs, os))
      ensures Valid() && State() == Contents(bs, os)
    {
      buckets := bs;
      objects := os;
    }

    /** `client.bucket_exists(b)`. */
    method BucketExists(b: string) returns (r: bool)
      ensures r <==> b in State().buckets
    {
      r := b in buckets;
    }

    /** `client.make_bucket(b)`, for a bucket that does not exist yet. */
    method MakeBucket(b: string)
      requires Valid() && b !in buckets
      modifies this
      ensures Valid() && State() == WithBucket(old(State()), b)
    {
      buckets := buckets + {b};
    }

    /** `client.put_object(b, k, data)` into an existing bucket. */
    method PutObject(b: string, k: string, data: Bytes)
      requires Valid() && b in buckets
      modifies this
      ensures Valid() && State() == Put(old(State()), b, k, data)
    {
      objects := objects[(b, k) := data];
    }

    /** `client.get_object(b, k).read()`; `None` where the server answers
        NoSuchKey. */
    method GetObject(b: string, k: string) returns (r: Option<Bytes>)
      ensures r == Get(State(), b, k)
    {
      if (b, k) in objects {
        r := Some(objects[(b, k)]);
      } else {
        r := None;
      }
    }
  }

  // ---------------------------------------------------------------------
  // The check

  /** `b"hello-dtp"`. */
  const Payload: Bytes := [104, 101, 108, 108, 111, 45, 100, 116, 112]

  /** `f"tenant-demo/{id}.txt"`. */
  function ObjectKey(id: string): (k: string)
    ensures |k| == |id| + 16
    ensures k[..12] == "tenant-demo/" && k[|k| - 4..] == ".txt"
    ensures k[12..|k| - 4] == id
  {
    "tenant-demo/" + id + ".txt"
  }

  /** Different identifiers give different keys. */
  lemma ObjectKeyInjective(a: string, b: string)
    ensures ObjectKey(a) == ObjectKey(b) ==> a == b
  {
    if ObjectKey(a) == ObjectKey(b) {
      assert a == ObjectKey(a)[12..|ObjectKey(a)| - 4];
    }
  }

  /** The record `run()` returns: `{"key": key, "len": len(body)}`. */
  datatype RunRecord = RunRecord(key: string, len: nat)

  datatype RunError =
    | ContentMismatch   // the `assert body == b"hello-dtp"` fails
    | NoSuchKey         // the object is not there to be read

  /** The verdict on what was read back under `key`. */
  function CheckBody(key: string, got: Option<Bytes>): (r: Result<RunRecord, RunError>)
    ensures r.Success? <==> got == Some(Payload)
    ensures r.Success? ==> r.value == RunRecord(key, 9)
    ensures got.None? ==> r == Failure(NoSuchKey)
  {
    match got
    case None => Failure(NoSuchKey)
    case Some(body) =>
      if body == Payload then Success(RunRecord(key, |body|)) else Failure(ContentMismatch)
  }

  /** `run()`: make sure the bucket exists, put the payload under a fresh key,
      read it back and compare. Against a store that keeps what it is given
      the comparison always holds, and the store ends up with the bucket and
      the one new object. */
  method Run(store: Store, bucket: string, id: string) returns (r: Result<RunRecord, RunError>)
    requires store.Valid()
    modifies store
    ensures store.Valid()
    ensures store.State() == Put(WithBucket(old(store.State()), bucket), bucket, ObjectKey(id), Payload)
    ensures r == Success(RunRecord(ObjectKey(id), 9))
  {
    var present := store.BucketExists(bucket);
    if !present {
      store.MakeBucket(bucket);
    }
    var key := ObjectKey(id);
    store.PutObject(bucket, key, Payload);
    var got := store.GetObject(bucket, key);
    r := CheckBody(key, got);
  }
}
