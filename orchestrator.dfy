/** The smoke-test runner of scripts/test/test_all.py: it imports the four
    checkers, runs the relational, graph and time-series checks, runs the
    object-store check unless it is switched off, and gathers what each
    check returned into one ordered summary. A check that raises ends the
    run. The checks themselves talk to servers and are taken as given. */
module Orchestrator {
  import opened Wrappers
  import opened Text
  import opened Environment
  import ObjectStore

  // ---------------------------------------------------------------------
  // Checkers and what they return

  datatype Checker = Postgres | Neo4j | Influx | Minio

  /** The summary key of each checker. */
  function Name(c: Checker): string {
    match c
    case Postgres => "postgres_timescale"
    case Neo4j => "neo4j"
    case Influx => "influx"
    case Minio => "minio"
  }

  /** The order in which `main()` calls the checkers. */
  const Order: seq<Checker> := [Postgres, Neo4j, Influx, Minio]

  /** A value in a checker's record. */
  datatype Value = Str(s: string) | Int(n: int)

  /** The dictionary a checker returns, entries in insertion order. */
  type Record = seq<(string, Value)>

  /** A checker either returns its record or raises (a failed `assert`, a
      refused connection). */
  datatype Outcome = Ok(record: Record) | Raised

  /** The record the object-store check returns: `{"key": key, "len": n}`. */
  function MinioRecord(r: ObjectStore.RunRecord): Record {
    [("key", Str(r.key)), ("len", Int(r.len))]
  }

  // ---------------------------------------------------------------------
  // `results`, a Python dict: entries in insertion order, each key once

  type Results = seq<(string, Record)>

  function Keys(rs: Results): (ks: seq<string>)
    ensures |ks| == |rs| && forall i :: 0 <= i < |rs| ==> ks[i] == rs[i].0
  {
    if rs == [] then [] else [rs[0].0] + Keys(rs[1..])
  }

  predicate UniqueKeys(rs: Results) {
    forall i, j :: 0 <= i < j < |rs| ==> rs[i].0 != rs[j].0
  }

  /** `d.get(k)`. */
  function Lookup(rs: Results, k: string): Option<Record> {
    if rs == [] then None
    else if rs[0].0 == k then Some(rs[0].1)
    else Lookup(rs[1..], k)
  }

  /** `d[k] = v`: an existing key keeps its place and takes the new value; a
      new key goes at the end. */
  function Assign(rs: Results, k: string, v: Record): Results {
    if rs == [] then [(k, v)]
    else if rs[0].0 == k then [(k, v)] + rs[1..]
    else [rs[0]] + Assign(rs[1..], k, v)
  }

  /** After `d[k] = v`, `k` maps to `v` and every other key to what it did. */
  lemma {:induction false} AssignLookup(rs: Results, k: string, v: Record, k': string)
    ensures Lookup(Assign(rs, k, v), k') == if k' == k then Some(v) else Lookup(rs, k')
  {
    if rs != [] && rs[0].0 != k {
      AssignLookup(rs[1..], k, v, k');
      assert Assign(rs, k, v)[1..] == Assign(rs[1..], k, v);
    }
  }

  /** A new key is appended to the keys; an existing one leaves them as they are. */
  lemma {:induction false} AssignKeys(rs: Results, k: string, v: Record)
    ensures k !in Keys(rs) ==> Keys(Assign(rs, k, v)) == Keys(rs) + [k]
    ensures k in Keys(rs) ==> Keys(Assign(rs, k, v)) == Keys(rs)
  {
    if rs != [] && rs[0].0 != k {
      AssignKeys(rs[1..], k, v);
      assert Assign(rs, k, v)[1..] == Assign(rs[1..], k, v);
    } else if rs != [] {
      assert Assign(rs, k, v)[1..] == rs[1..];
    }
  }

  /** The keys of a dict stay distinct under assignment. */
  lemma AssignUnique(rs: Results, k: string, v: Record)
    requires UniqueKeys(rs)
    ensures UniqueKeys(Assign(rs, k, v))
  {
    AssignKeys(rs, k, v);
    var ks := Keys(Assign(rs, k, v));
    assert forall i, j :: 0 <= i < j < |ks| ==> ks[i] != ks[j] by {
      if k !in Keys(rs) {
        assert ks == Keys(rs) + [k];
      }
    }
  }

  // ---------------------------------------------------------------------
  // Whether the object-store check runs

  const SkipVar := "DTP_SKIP_MINIO"

  /** `os.getenv("DTP_SKIP_MINIO", "").lower() in ("1", "true", "yes")`. */
  predicate SkipFlag(env: Env) {
    Lower(GetEnv(env, SkipVar, "")) in ["1", "true", "yes"]
  }

  /** The check is skipped when the flag is set or `MINIO_ENDPOINT` is unset
      or empty; here an unset endpoint counts as empty. */
  predicate SkipMinio(env: Env) {
    SkipFlag(env) || GetEnv(env, ObjectStore.EndpointVar, "") == ""
  }

  /** The flag is one of the three words in any mixture of cases, and is off
      when unset. */
  lemma SkipFlagIgnoresCase(env: Env)
    ensures SkipVar !in env ==> !SkipFlag(env)
    ensures SkipVar in env ==>
      (SkipFlag(env) <==>
         SameIgnoringCase(env[SkipVar], "1") ||
         SameIgnoringCase(env[SkipVar], "true") ||
         SameIgnoringCase(env[SkipVar], "yes"))
  {
    var v := GetEnv(env, SkipVar, "");
    LowerIsWord(v, "1");
    LowerIsWord(v, "true");
    LowerIsWord(v, "yes");
  }

  /** `"TRUE"` and `"Yes"` switch the check off; `""`, `"0"` and `"no"` do not. */
  lemma SkipFlagExamples(env: Env)
    requires SkipVar in env
    ensures env[SkipVar] in ["TRUE", "Yes"] ==> SkipFlag(env)
    ensures env[SkipVar] in ["", "0", "no"] ==> !SkipFlag(env)
  {
    var v := env[SkipVar];
    if v == "TRUE" {
      assert Lower(v) == "true";
    } else if v == "Yes" {
      assert Lower(v) == "yes";
    } else if v == "" {
      assert Lower(v) == "";
    } else if v == "0" {
      assert Lower(v) == "0";
    } else if v == "no" {
      assert Lower(v) == "no";
    }
  }

  /** Without an endpoint the check is skipped whatever the flag says, and
      with one it is skipped exactly when the flag is set. */
  lemma SkipWithoutEndpoint(env: Env)
    ensures ObjectStore.EndpointVar !in env ==> SkipMinio(env)
    ensures ObjectStore.EndpointVar in env && env[ObjectStore.EndpointVar] == "" ==> SkipMinio(env)
    ensures ObjectStore.EndpointVar in env && env[ObjectStore.EndpointVar] != "" ==> (SkipMinio(env) <==> SkipFlag(env))
  {
  }

  /** The two defaults disagree: with `MINIO_ENDPOINT` unset the object-store
      check is skipped, yet the client the checker module builds on import
      points at `localhost:9000`. */
  lemma DefaultsDisagree(env: Env)
    requires ObjectStore.EndpointVar !in env
    ensures SkipMinio(env)
    ensures ObjectStore.BuildClient(env).Success?
    ensures ObjectStore.BuildClient(env).value.endpoint == "localhost:9000"
  {
    ObjectStore.BuildClientDefault(env);
  }

  /** Importing test_minio.py does not look at the skip flag: the client is
      built, or fails to be built, whatever the flag says. */
  lemma ImportIgnoresSkipFlag(env: Env, v: string)
    ensures ObjectStore.ImportSettings(env[SkipVar := v]) == ObjectStore.ImportSettings(env)
  {
    var env' := env[SkipVar := v];
    assert SkipVar != ObjectStore.EndpointVar && SkipVar != ObjectStore.BucketVar;
    assert SkipVar != "MINIO_ACCESS_KEY" && SkipVar != "MINIO_SECRET_KEY";
    ObjectStore.ImportReadsOnly(env', env);
  }

  /** So an endpoint with an unmatched bracket ends the run on import, before
      any checker is called, whatever the skip flag says: the environment is
      not constrained on `DTP_SKIP_MINIO`. */
  lemma ImportFailsEvenWhenSkipped(env: Env, sc: string, host: string,
                                   imported: Result<ObjectStore.Settings, ObjectStore.UrlError>,
                                   check: Checker -> Outcome)
    requires ObjectStore.EndpointVar in env && env[ObjectStore.EndpointVar] == sc + "://" + host + ""
    requires ObjectStore.IsScheme(sc) && ObjectStore.Unbalanced(host)
    requires forall i :: 0 <= i < |host| ==> host[i] !in ObjectStore.NetlocEnd && !ObjectStore.IsUnsafe(host[i])
    requires imported == ObjectStore.ImportSettings(env)
    ensures imported.Failure?
    ensures Main(env, imported, check).calls == [] && Main(env, imported, check).report.ImportFailed?
  {
    ObjectStore.ClientForRefusesBracket(sc, host, "",
      GetEnv(env, "MINIO_ACCESS_KEY", "miniouser"), GetEnv(env, "MINIO_SECRET_KEY", "miniopass123"));
    MainImportFailed(env, imported, check);
  }

  // ---------------------------------------------------------------------
  // `main()`

  datatype Report =
    | ImportFailed(error: ObjectStore.UrlError)   // importing test_minio.py raised
    | Aborted(failed: Checker)                    // a checker raised; no summary
    | Summary(skipped: bool, results: Results)    // the printed summary; `skipped`: `[S3] SKIP` was printed

  /** The checkers a run invoked, in order, and how it ended. */
  datatype Run = Run(calls: seq<Checker>, report: Report)

  /** Importing the checker modules and then running `main()`. `imported`
      is what importing test_minio.py gave (`ObjectStore.ImportSettings` of
      the same environment). */
  function Main(env: Env, imported: Result<ObjectStore.Settings, ObjectStore.UrlError>, check: Checker -> Outcome): Run {
    if imported.Failure? then Run([], ImportFailed(imported.error))
    else RunChecks(SkipMinio(env), check)
  }

  /** The body of `main()` once the imports succeeded, with the skip
      decision of lines 14-15 given. */
  function RunChecks(skip: bool, check: Checker -> Outcome): Run {
    if check(Postgres).Raised? then Run([Postgres], Aborted(Postgres))
    else if check(Neo4j).Raised? then Run([Postgres, Neo4j], Aborted(Neo4j))
    else if check(Influx).Raised? then Run([Postgres, Neo4j, Influx], Aborted(Influx))
    else
      var rs := FirstResults(check(Postgres).record, check(Neo4j).record, check(Influx).record);
      if skip then Run([Postgres, Neo4j, Influx], Summary(true, rs))
      else if check(Minio).Raised? then Run(Order, Aborted(Minio))
      else Run(Order, Summary(false, Assign(rs, Name(Minio), check(Minio).record)))
  }

  /** The dict display of lines 8-12. */
  function FirstResults(pg: Record, neo: Record, influx: Record): Results {
    Assign(Assign(Assign([], Name(Postgres), pg), Name(Neo4j), neo), Name(Influx), influx)
  }

  /** The checkers run in their fixed order until one raises; the run aborts
      exactly when the last one invoked raised, and that one is named. */
  lemma RunChecksCalls(skip: bool, check: Checker -> Outcome)
    ensures var r := RunChecks(skip, check);
      1 <= |r.calls| <= 4 && r.calls == Order[..|r.calls|] && !r.report.ImportFailed? &&
      (forall i :: 0 <= i < |r.calls| - 1 ==> check(r.calls[i]).Ok?) &&
      (r.report.Aborted? <==> check(r.calls[|r.calls| - 1]).Raised?) &&
      (r.report.Aborted? ==> r.report.failed == r.calls[|r.calls| - 1])
  {
    assert Order[..1] == [Postgres] && Order[..2] == [Postgres, Neo4j];
    assert Order[..3] == [Postgres, Neo4j, Influx] && Order[..4] == Order;
  }

  /** The object-store checker is invoked exactly when it is not skipped and
      the three checks before it returned. */
  lemma RunChecksMinio(skip: bool, check: Checker -> Outcome)
    ensures Minio in RunChecks(skip, check).calls <==>
      !skip && check(Postgres).Ok? && check(Neo4j).Ok? && check(Influx).Ok?
  {
  }

  /** A run that reaches the summary says whether the object-store check was
      skipped, and its dict holds one entry per checker invoked, in calling
      order, each with what that checker returned. */
  lemma RunChecksSummary(skip: bool, check: Checker -> Outcome)
    ensures var r := RunChecks(skip, check);
      r.report.Summary? ==>
        r.report.skipped == skip &&
        r.calls == (if skip then Order[..3] else Order) &&
        Keys(r.report.results) == seq(|r.calls|, i requires 0 <= i < |r.calls| => Name(r.calls[i])) &&
        forall c :: c in r.calls ==> Lookup(r.report.results, Name(c)) == Some(check(c).record)
  {
    var r := RunChecks(skip, check);
    if r.report.Summary? {
      var pg, neo, influx := check(Postgres).record, check(Neo4j).record, check(Influx).record;
      ThreeResults(pg, neo, influx);
      var rs := FirstResults(pg, neo, influx);
      assert Order[..3] == [Postgres, Neo4j, Influx];
      var names := seq(|r.calls|, i requires 0 <= i < |r.calls| => Name(r.calls[i]));
      if skip {
        assert names == [Name(Postgres), Name(Neo4j), Name(Influx)];
      } else {
        MinioResult(rs, check(Minio).record);
        assert names == [Name(Postgres), Name(Neo4j), Name(Influx), Name(Minio)];
      }
    }
  }

  /** A failed import ends the run before any checker is invoked. */
  lemma MainImportFailed(env: Env, imported: Result<ObjectStore.Settings, ObjectStore.UrlError>, check: Checker -> Outcome)
    ensures imported.Failure? <==> Main(env, imported, check).calls == []
    ensures imported.Failure? ==> Main(env, imported, check).report == ImportFailed(imported.error)
  {
    if imported.Success? {
      RunChecksCalls(SkipMinio(env), check);
    }
  }

  /** Drives the checkers the way `main()` does: the outcome is `Main`. */
  method RunAll(env: Env, imported: Result<ObjectStore.Settings, ObjectStore.UrlError>, check: Checker -> Outcome)
    returns (calls: seq<Checker>, report: Report)
    ensures Run(calls, report) == Main(env, imported, check)
  {
    if imported.Failure? {
      calls, report := [], ImportFailed(imported.error);
      return;
    }
    calls := [Postgres];
    var pg := check(Postgres);
    if pg.Raised? {
      report := Aborted(Postgres);
      return;
    }
    calls := calls + [Neo4j];
    var neo := check(Neo4j);
    if neo.Raised? {
      report := Aborted(Neo4j);
      return;
    }
    calls := calls + [Influx];
    var influx := check(Influx);
    if influx.Raised? {
      report := Aborted(Influx);
      return;
    }
    var results := Assign([], Name(Postgres), pg.record);
    results := Assign(results, Name(Neo4j), neo.record);
    results := Assign(results, Name(Influx), influx.record);
    var skip := SkipMinio(env);
    if !skip {
      calls := calls + [Minio];
      var minio := check(Minio);
      if minio.Raised? {
        report := Aborted(Minio);
        return;
      }
      results := Assign(results, Name(Minio), minio.record);
    }
    report := Summary(skip, results);
  }

  /** `test_minio()` as `main()` calls it: the object-store check run against
      `store`, with the record it returns as a dictionary. */
  method MinioCheck(store: ObjectStore.Store, bucket: string, id: string) returns (o: Outcome)
    requires store.Valid()
    modifies store
    ensures store.Valid()
    ensures store.State() == ObjectStore.Put(ObjectStore.WithBucket(old(store.State()), bucket),
                                             bucket, ObjectStore.ObjectKey(id), ObjectStore.Payload)
    ensures o == Ok(MinioRecord(ObjectStore.RunRecord(ObjectStore.ObjectKey(id), 9)))
  {
    var r := ObjectStore.Run(store, bucket, id);
    o := if r.Success? then Ok(MinioRecord(r.value)) else Raised;
  }

  /** With the object-store checker being that check, a run that is not
      skipped and whose first three checks return reaches the summary, and
      the summary's `minio` entry holds the key written and the length 9. */
  lemma MinioEntry(skip: bool, check: Checker -> Outcome, id: string)
    requires check(Minio) == Ok(MinioRecord(ObjectStore.RunRecord(ObjectStore.ObjectKey(id), 9)))
    ensures var r := RunChecks(skip, check);
      (!skip && check(Postgres).Ok? && check(Neo4j).Ok? && check(Influx).Ok? ==> r.report.Summary?) &&
      (r.report.Summary? && Minio in r.calls ==>
         Lookup(r.report.results, Name(Minio)) == Some([("key", Str(ObjectStore.ObjectKey(id))), ("len", Int(9))]))
  {
    RunChecksSummary(skip, check);
  }

  /** The dict of lines 8-12 has the three names in order, each with its record. */
  lemma ThreeResults(pg: Record, neo: Record, influx: Record)
    ensures var rs := FirstResults(pg, neo, influx);
      Keys(rs) == [Name(Postgres), Name(Neo4j), Name(Influx)] &&
      Lookup(rs, Name(Postgres)) == Some(pg) &&
      Lookup(rs, Name(Neo4j)) == Some(neo) &&
      Lookup(rs, Name(Influx)) == Some(influx)
  {
    var r1 := Assign([], Name(Postgres), pg);
    var r2 := Assign(r1, Name(Neo4j), neo);
    var r3 := Assign(r2, Name(Influx), influx);
    AssignKeys([], Name(Postgres), pg);
    AssignKeys(r1, Name(Neo4j), neo);
    AssignKeys(r2, Name(Influx), influx);
    AssignLookup(r2, Name(Influx), influx, Name(Postgres));
    AssignLookup(r1, Name(Neo4j), neo, Name(Postgres));
    AssignLookup(r2, Name(Influx), influx, Name(Neo4j));
    AssignLookup(r2, Name(Influx), influx, Name(Influx));
  }

  /** Line 19 on the dict of lines 8-12. */
  lemma MinioResult(rs: Results, m: Record)
    requires Keys(rs) == [Name(Postgres), Name(Neo4j), Name(Influx)]
    ensures Keys(Assign(rs, Name(Minio), m)) == [Name(Postgres), Name(Neo4j), Name(Influx), Name(Minio)]
    ensures Lookup(Assign(rs, Name(Minio), m), Name(Minio)) == Some(m)
    ensures forall c :: c != Minio ==> Lookup(Assign(rs, Name(Minio), m), Name(c)) == Lookup(rs, Name(c))
  {
    AssignKeys(rs, Name(Minio), m);
    AssignLookup(rs, Name(Minio), m, Name(Minio));
    forall c | c != Minio
      ensures Lookup(Assign(rs, Name(Minio), m), Name(c)) == Lookup(rs, Name(c))
    {
      AssignLookup(rs, Name(Minio), m, Name(c));
    }
  }
}
