# A verified model of the polyglot-dtp helper scripts

This project models three small Python scripts from the polyglot-dtp
repository in Dafny and proves what they promise.

- **gen_ssh.py** reads the services of the Docker Compose file. It collects
  the public port of every `ports` entry, sorts those ports and prints two SSH
  `Host` entries for the machine. The second entry forwards every public port
  to the same port on the local machine.
- **scripts/test/test_minio.py** is the object-store smoke check. On import
  it reads the client settings from the environment: the endpoint (through
  `urlparse`), the access key, the secret key and the bucket. `run()` makes
  sure the bucket exists, puts `b"hello-dtp"` under a key
  `tenant-demo/<uuid>.txt`, reads it back, compares it and returns
  `{"key", "len"}`.
- **scripts/test/test_all.py** is the runner. It imports the four checkers,
  calls the Postgres/TimescaleDB, Neo4j and InfluxDB checks, then the object
  store check unless `DTP_SKIP_MINIO` or an empty `MINIO_ENDPOINT` switches it
  off, and prints a summary. A checker that raises ends the run.

Each file has one module:

| file | module | models |
|---|---|---|
| wrappers.dfy | `Wrappers` | `Option` and `Result` |
| environment.dfy | `Environment` | the process environment and `os.getenv(name, default)` |
| text.dfy | `Text` | `str.lower`, `str.split(sep)[0]`, `int(str)` and the decimal text `f"{n}"` writes |
| ssh_config.dfy | `SshConfig` | gen_ssh.py |
| object_store.dfy | `ObjectStore` | test_minio.py, with the part of `urlparse` it depends on, and an S3 store as a class |
| orchestrator.dfy | `Orchestrator` | test_all.py |

The model has the scripts' own shape:
- Pure computations are functions.
- The printing in gen_ssh.py is a method with a loop. It is proved equal to the function `ConfigLines`.
- The S3 server is a `Store` class. Its `buckets` and `objects` fields are changed by `MakeBucket` and `PutObject`.
- `run()` is a method over a `Store`.
- `main()` is a method proved equal to the function `Main`.

Some inputs become parameters:
- the parsed services of the compose file;
- the host name and IP address of the machine;
- the environment map;
- the UUID text;
- each checker's outcome, as a function from checker to outcome.

Each print of a script is one line of output.

The environment map is the environment as `main()` reads it, after the
imports. Importing test_neo4j.py and test_influx.py runs `load_dotenv()` at
module level (scripts/test/test_neo4j.py:5, scripts/test/test_influx.py:7).
That happens before test_minio.py is imported and before `main()` reads
`DTP_SKIP_MINIO` and `MINIO_ENDPOINT`. It fills in the `.env` value of every
variable the shell left unset. So a `.env` file can switch the object-store
check on or off, and "unset" in the lemmas below means unset after that
loading.

The two `MINIO_ENDPOINT` defaults are modelled as written. The runner treats
an unset endpoint as empty and skips the object-store check. The checker
module falls back to `http://localhost:9000` when it builds its client.
`Orchestrator.DefaultsDisagree` states both facts together.

The checker module is imported, and so builds its client, before `main()`
runs, whatever the skip flag says:
- `Orchestrator.ImportIgnoresSkipFlag` proves the flag does not change what the import computes.
- `Orchestrator.ImportFailsEvenWhenSkipped` proves that an endpoint `<scheme>://<host>` whose host has an unmatched bracket ends the run during the import, before any checker is called. Its environment is unconstrained on `DTP_SKIP_MINIO`, so this holds when the check is switched off too.

## Model

| member | source | states |
|---|---|---|
| SshConfig.AbsentPortsContributeNothing | gen_ssh.py:33 | a service without a `ports` key adds no entries, wherever it stands among the services |
| SshConfig.EntriesCount | gen_ssh.py:33-37 | flattening loses nothing: the entries number exactly the ports the services declare |
| SshConfig.FlattenMembers | gen_ssh.py:37 | an entry of the flattened list comes from one service's list, and every entry of every list is kept |
| SshConfig.PublicPortOfMapping | gen_ssh.py:40 | the public port of `"<n>:<anything>"` is `n` |
| SshConfig.InfluxMapping | gen_ssh.py:40 | `"8086:8086"` gives 8086 |
| SshConfig.MinioMapping | gen_ssh.py:40 | `"9000:9000"` gives 9000 |
| SshConfig.NonNumericFieldFails | gen_ssh.py:40 | an entry whose first field holds a character `int()` never accepts stops the script with that field as the error |
| SshConfig.PortRangeFails | gen_ssh.py:40 | an entry `"<a>-<b>:<rest>"` with a port range stops the script, with the range as the error |
| SshConfig.AddressMappingFails | gen_ssh.py:40 | `"127.0.0.1:80:80"` stops the script: its first field `127.0.0.1` is not an integer |
| SshConfig.MapAllSuccess | gen_ssh.py:40 | the comprehension succeeds exactly when every entry has a public port, and then holds each entry's port at that entry's position |
| SshConfig.MapAllFailure | gen_ssh.py:40 | a failing comprehension raises the error of the first entry without a public port |
| SshConfig.Sort | gen_ssh.py:40 | `sorted` returns an ascending permutation of its argument |
| SshConfig.SortedUnique | gen_ssh.py:40 | two ascending permutations of the same list are equal, so `Sort` agrees with Python's `sorted` |
| SshConfig.MapAllCounts | gen_ssh.py:40 | each port appears once per entry that produced it, so duplicates are kept |
| SshConfig.PublicPorts | gen_ssh.py:33-40 | the port list exists exactly when every entry parses; it is then sorted and a permutation of the parsed ports; otherwise it is the first entry's error |
| SshConfig.PublicPortsSucceed | gen_ssh.py:33-40 | success exactly when every entry has a public port, with one port per declared entry |
| SshConfig.ComposeExample | gen_ssh.py:33-40 | services publishing `q`, nothing, then `p` and `q` give `[p, q, q]` when `p <= q` |
| SshConfig.HeaderLayout | gen_ssh.py:43-51 | a blank line, `Host <hostname>`, its `Hostname` and `User ubuntu` lines, a blank line, then `Host <hostname>-ports` with the same two lines |
| SshConfig.ConfigLayout | gen_ssh.py:43-54 | the output is the eight header lines, one forward line per port in the order given, and a closing blank line |
| SshConfig.ForwardLineRoundTrip | gen_ssh.py:53 | reading the port back out of `  LocalForward 127.0.0.1:<p> 127.0.0.1:<p>` gives `p` |
| SshConfig.HeaderNotForwards | gen_ssh.py:43-51 | no header line and no blank line reads as a forward line |
| SshConfig.ConfigForwards | gen_ssh.py:52-53 | the forward lines of the output are exactly the ports, in order and with duplicates; no other line is a forward line, and they all stand in the second entry |
| SshConfig.Render | gen_ssh.py:43-54 | the printed lines equal `ConfigLines` of the host name, the IP address and the ports |
| SshConfig.Generate | gen_ssh.py:33-54 | the script fails exactly when some entry has no public port, with the first such error; otherwise it prints the configuration for the sorted public ports |
| Text.LowerProperties | scripts/test/test_all.py:14 | the lower-cased text has no upper-case ASCII letter, lower-casing it again changes nothing, and it equals the original when case is ignored |
| Text.LowerIsWord | scripts/test/test_all.py:14 | lower-casing gives a lower-case word exactly when the text spells that word in any mixture of cases |
| Text.BeforeSeparator | gen_ssh.py:40 | `(a + sep + b).split(sep)[0]` is `a` when `a` holds no `sep` |
| Text.ParseIntChars | gen_ssh.py:40 | `int()` accepts only white space, signs, digits and underscores, and at least one digit |
| Text.RangeRefused | gen_ssh.py:40 | a port range `<a>-<b>` of two digit runs is not an integer text |
| Text.ParseDigits | gen_ssh.py:40 | a run of digits is read as the number it spells |
| Text.Decimal | gen_ssh.py:53 | `f"{n}"` is digits, with a leading `-` exactly for negative `n` |
| Text.ParseDecimal | gen_ssh.py:53 | `int(f"{n}") == n` |
| Text.DecimalInjective | gen_ssh.py:53 | different ports are printed as different texts |
| ObjectStore.CleanKeeps | scripts/test/test_minio.py:10 | a URL starting with a visible character and holding no tab or line break is not changed by `urlsplit`'s cleaning |
| ObjectStore.SplitSchemeOf | scripts/test/test_minio.py:10 | the scheme before the first `:` is taken off and lower-cased |
| ObjectStore.SplitNetlocOf | scripts/test/test_minio.py:10 | after `//` the network location runs to the first `/`, `?` or `#`; an unmatched bracket raises |
| ObjectStore.UrlParseAuthority | scripts/test/test_minio.py:10 | `<scheme>://<host><path>` parses to the lower-cased scheme, the host and the path, or raises for an unmatched bracket |
| ObjectStore.UrlParseNoSlash | scripts/test/test_minio.py:10-11 | a text without `/` parses to an empty network location |
| ObjectStore.ClientForUrl | scripts/test/test_minio.py:9-18 | a URL endpoint connects to its host, with TLS exactly when the scheme is `https` in any case |
| ObjectStore.ClientForRefusesBracket | scripts/test/test_minio.py:10 | an endpoint whose host has an unmatched bracket makes building the client raise |
| ObjectStore.ClientForLocalStack | scripts/test/test_minio.py:7-11 | `http://localhost:4566` gives endpoint `localhost:4566` without TLS |
| ObjectStore.ClientForUpperCaseHttps | scripts/test/test_minio.py:12 | `HTTPS://minio:9000/` gives endpoint `minio:9000` with TLS |
| ObjectStore.ClientForBareEndpoint | scripts/test/test_minio.py:11 | a setting with no `/` in it has no network location and is passed to the client whole |
| ObjectStore.ParseDefaultEndpoint | scripts/test/test_minio.py:9 | the default endpoint parses to scheme `http` and host `localhost:9000` |
| ObjectStore.BuildClientDefault | scripts/test/test_minio.py:9-15 | with `MINIO_ENDPOINT` unset the client goes to `localhost:9000` without TLS; unset keys fall back to `miniouser` and `miniopass123` |
| ObjectStore.BuildClientEmptyEndpoint | scripts/test/test_minio.py:9-11 | an empty `MINIO_ENDPOINT` is used as it is, not replaced by the default |
| ObjectStore.ImportSettings | scripts/test/test_minio.py:21-22 | the import succeeds exactly when the client can be built; the bucket is `MINIO_BUCKET` when set and `dtp-artifacts` otherwise |
| ObjectStore.ImportReadsOnly | scripts/test/test_minio.py:6-22 | the import depends on its four environment variables only |
| ObjectStore.WithBucketIdempotent | scripts/test/test_minio.py:27-28 | ensuring the bucket a second time changes nothing, and an existing bucket is left as it is |
| ObjectStore.OperationsKeepWellFormed | scripts/test/test_minio.py:27-39 | creating a bucket, and putting into an existing one, keep every object inside an existing bucket |
| ObjectStore.GetAfterPut | scripts/test/test_minio.py:33-43 | what was put under a key is what is read back, and every other object is unchanged |
| ObjectStore.PutOverwrites | scripts/test/test_minio.py:33-39 | a second put under the same key replaces the first |
| ObjectStore.Store.MakeBucket | scripts/test/test_minio.py:28 | the store gains the bucket and nothing else changes |
| ObjectStore.Store.PutObject | scripts/test/test_minio.py:33-39 | the store holds the data under the bucket and key, and nothing else changes |
| ObjectStore.Store.GetObject | scripts/test/test_minio.py:42-43 | returns the stored object, or nothing where the server has none |
| ObjectStore.ObjectKey | scripts/test/test_minio.py:31 | the key is `tenant-demo/`, then the identifier, then `.txt` |
| ObjectStore.ObjectKeyInjective | scripts/test/test_minio.py:31 | different identifiers give different keys |
| ObjectStore.CheckBody | scripts/test/test_minio.py:43-47 | the check passes exactly when the body read back is `hello-dtp`; it then returns the key and length 9; a missing object fails |
| ObjectStore.Run | scripts/test/test_minio.py:25-47 | against a faithful store the check passes with the key written and length 9, and afterwards the store holds the bucket and the one new object |
| Orchestrator.MinioCheck | scripts/test/test_minio.py:25-47 | the object-store checker called from `main()` returns `{"key": <key written>, "len": 9}` and leaves the store with the bucket and the one new object |
| Orchestrator.MinioEntry | scripts/test/test_all.py:16-19 | when that checker is the one called, a run that is not skipped and whose first three checks return reaches the summary, and its `minio` entry holds the key written and length 9 |
| Orchestrator.AssignLookup | scripts/test/test_all.py:19 | after `d[k] = v`, `k` maps to `v` and every other key is unchanged |
| Orchestrator.AssignKeys | scripts/test/test_all.py:19 | a new key goes at the end of the keys, and an existing key keeps its place |
| Orchestrator.AssignUnique | scripts/test/test_all.py:8-19 | the keys of the results stay distinct |
| Orchestrator.ThreeResults | scripts/test/test_all.py:8-12 | the first dict has the keys `postgres_timescale`, `neo4j` and `influx`, in that order, each with its checker's record |
| Orchestrator.MinioResult | scripts/test/test_all.py:19 | adding `minio` appends its key and leaves the three earlier entries alone |
| Orchestrator.SkipFlagIgnoresCase | scripts/test/test_all.py:14 | the flag is set exactly when its value is `1`, `true` or `yes` in any mixture of cases; it is off when unset |
| Orchestrator.SkipFlagExamples | scripts/test/test_all.py:14 | `TRUE` and `Yes` switch the check off; the empty text, `0` and `no` do not |
| Orchestrator.SkipWithoutEndpoint | scripts/test/test_all.py:14-16 | an unset or empty endpoint skips the check whatever the flag says; with an endpoint the flag decides |
| Orchestrator.DefaultsDisagree | scripts/test/test_all.py:15-16 | with `MINIO_ENDPOINT` unset (after `.env` is loaded) the runner skips the check, yet the checker's client points at `localhost:9000` |
| Orchestrator.ImportIgnoresSkipFlag | scripts/test/test_all.py:5 | importing the object-store checker computes the same whatever `DTP_SKIP_MINIO` holds |
| Orchestrator.ImportFailsEvenWhenSkipped | scripts/test/test_all.py:5 | with the import outcome that of the environment, an endpoint `<scheme>://<host>` whose host has an unmatched bracket makes the import fail and the run end before any checker is called, whatever the skip flag says |
| Orchestrator.RunChecksCalls | scripts/test/test_all.py:8-19 | the checkers are called in the order Postgres, Neo4j, InfluxDB, object store, until one raises; the run aborts exactly when the last one called raised, and names it |
| Orchestrator.RunChecksMinio | scripts/test/test_all.py:14-19 | the object-store checker is called exactly when it is not skipped and the three checks before it returned |
| Orchestrator.RunChecksSummary | scripts/test/test_all.py:8-21 | a summary records whether the skip message of line 17 was printed (the printed JSON itself does not say); its keys are the names of the checkers called, in calling order, each with that checker's record |
| Orchestrator.MainImportFailed | scripts/test/test_all.py:2-5 | a failed import ends the run before any checker is called, and only then are no checkers called |
| Orchestrator.RunAll | scripts/test/test_all.py:2-21 | running the imports and `main()` gives the calls and the report of `Main` |

## Left out

- Reading the compose file is left out. So are `load_dotenv`, `envsub` and the YAML loader. The model starts from the loaded services.
- The IP-address lookup (`get_ip_address`) and `socket.gethostname()` are parameters. The script reads the host name twice; the model reads it once, assuming both reads agree.
- A `services` value that is not a mapping, a service that is `null`, and a `ports` value that is not a list are left out. The model's services always have a `ports` list or none.
- Text.ParseInt: only ASCII digits and ASCII white space are recognised. `int()` also accepts other Unicode decimal digits and white space.
- Text.ParseInt: the limit of 4300 digits that Python 3.11 and later enforce in `int()` is not modelled. A longer text parses here; there it raises `ValueError`. Port numbers are far shorter.
- Text.Decimal: the same 4300-digit limit on `f"{n}"` is not modelled. Here every integer gets its text.
- Text.Lower: lower-cases ASCII letters only. Lower-casing any other character cannot produce the letters of `1`, `true` or `yes`, so the skip decision is unaffected.
- ObjectStore.UrlParse: only the scheme and network location are modelled. Left out:
  - splitting off the query and fragment;
  - the validation `_check_bracketed_netloc` applies inside brackets;
  - the NFKC normalisation check.

  The modelled cleaning follows `urlsplit` as in Python 3.12 (and 3.11.4 and later): leading controls and spaces are stripped, tabs and line breaks are deleted, and an unmatched bracket in the network location (after `//`) raises. A bracket anywhere else, as in `[abc` or `http://h/[x`, does not. Nothing else in the modelled part raises.
- ObjectStore.Store.MakeBucket: the server's refusal of an existing bucket is a precondition, which `run()` always meets.
- ObjectStore.Store.PutObject: the server's refusal of a missing bucket is a precondition, which `run()` always meets.
- The `Minio` client constructor's own validation of its arguments is not modelled. Neither are network errors, credentials, the content type or the stream object.
- Python's `uuid.uuid4()` is a parameter, the identifier text.
- Orchestrator.RunAll: the import outcome is a parameter. The lemmas about `ObjectStore.ImportSettings` (`ImportIgnoresSkipFlag`, `ImportFailsEvenWhenSkipped`) describe it.
- The Postgres/TimescaleDB, Neo4j and InfluxDB checkers are abstract. Each is an outcome: a record or a raise.
- The imports' `load_dotenv()` calls are not modelled as a step. The environment map is the environment after them.
- infrastructure/django/health.py is not part of this model: none of the modelled scripts calls it.
- `json.dumps` and the exact text of the summary are not modelled. The skip message and the `[S3] OK` line are not modelled as output lines. The summary's `skipped` flag records whether the skip message was printed; the printed JSON does not say.
- Concurrency and timing are not modelled; the scripts have none of their own.
