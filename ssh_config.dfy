/** The SSH configuration generator: from the services of a compose file it
    collects the published ports, and it writes two `Host` entries for the
    machine, the second forwarding every published port to the same port on
    the local machine. The machine's host name, its IP address and the loaded
    compose services are inputs. */
module SshConfig {
  import opened Wrappers
  import opened Text

  // ---------------------------------------------------------------------
  // Input: the `services` section of the compose file

  /** One entry of a `ports` list as the YAML loader returns it: a string such
      as `"8086:8086"`, or anything else (a bare number, a mapping). */
  datatype PortItem = StringItem(text: string) | NonStringItem

  /** A service's `ports` key, absent or holding a list. */
  datatype PortsField = Absent | Present(items: seq<PortItem>)

  datatype Service = Service(name: string, ports: PortsField)

  /** Why the generator stops before writing anything: `.split` on an entry
      that is not a string, or `int()` on a first field that is not a number. */
  datatype ScriptError = NotAString | NotAnInteger(text: string)

  // ---------------------------------------------------------------------
  // Collecting the port entries

  /** `service.get('ports', [])`. */
  function PortsOf(s: Service): seq<PortItem> {
    match s.ports
    case Absent => []
    case Present(items) => items
  }

  /** The concatenation of a list of lists, in order. */
  function Flatten<T>(ls: seq<seq<T>>): seq<T> {
    if ls == [] then [] else ls[0] + Flatten(ls[1..])
  }

  /** The total number of elements of a list of lists. */
  function TotalLength<T>(ls: seq<seq<T>>): nat {
    if ls == [] then 0 else |ls[0]| + TotalLength(ls[1..])
  }

  lemma {:induction false} FlattenLength<T>(ls: seq<seq<T>>)
    ensures |Flatten(ls)| == TotalLength(ls)
  {
    if ls != [] {
      FlattenLength(ls[1..]);
    }
  }

  lemma {:induction false} FlattenAppend<T>(a: seq<seq<T>>, b: seq<seq<T>>)
    ensures Flatten(a + b) == Flatten(a) + Flatten(b)
  {
    if a == [] {
      assert a + b == b;
    } else {
      assert (a + b)[1..] == a[1..] + b;
      FlattenAppend(a[1..], b);
    }
  }

  /** An element of the flattened list comes from one of the lists, and every
      element of every list is kept. */
  lemma {:induction false} FlattenMembers<T>(ls: seq<seq<T>>, x: T)
    ensures x in Flatten(ls) <==> exists i :: 0 <= i < |ls| && x in ls[i]
  {
    if ls != [] {
      FlattenMembers(ls[1..], x);
      if x in Flatten(ls[1..]) {
        var i :| 0 <= i < |ls[1..]| && x in ls[1..][i];
        assert x in ls[i + 1];
      }
      if exists i :: 0 <= i < |ls| && x in ls[i] {
        var i :| 0 <= i < |ls| && x in ls[i];
        if i > 0 {
          assert x in ls[1..][i - 1];
        }
      }
    }
  }

  /** The per-service port lists, in the order of the services. */
  function PortLists(services: seq<Service>): seq<seq<PortItem>> {
    seq(|services|, i requires 0 <= i < |services| => PortsOf(services[i]))
  }

  /** Every port entry of every service, service by service. */
  function Entries(services: seq<Service>): seq<PortItem> {
    Flatten(PortLists(services))
  }

  /** The number of port entries the services declare. */
  function PortCount(services: seq<Service>): nat {
    if services == [] then 0 else |PortsOf(services[0])| + PortCount(services[1..])
  }

  lemma {:induction false} TotalLengthOfPortLists(services: seq<Service>)
    ensures TotalLength(PortLists(services)) == PortCount(services)
  {
    if services != [] {
      assert PortLists(services)[1..] == PortLists(services[1..]);
      TotalLengthOfPortLists(services[1..]);
    }
  }

  /** Flattening loses nothing: there is one entry per declared port. */
  lemma EntriesCount(services: seq<Service>)
    ensures |Entries(services)| == PortCount(services)
  {
    FlattenLength(PortLists(services));
    TotalLengthOfPortLists(services);
  }

  /** A service without a `ports` key contributes no entries, wherever it
      stands in the list. */
  lemma AbsentPortsContributeNothing(before: seq<Service>, name: string, after: seq<Service>)
    ensures Entries(before + [Service(name, Absent)] + after) == Entries(before + after)
  {
    var s := Service(name, Absent);
    assert PortLists(before + [s] + after) == PortLists(before) + [[]] + PortLists(after);
    assert PortLists(before + after) == PortLists(before) + PortLists(after);
    FlattenAppend(PortLists(before) + [[]], PortLists(after));
    FlattenAppend(PortLists(before), [[]]);
    FlattenAppend(PortLists(before), PortLists(after));
    assert Flatten<PortItem>([[]]) == [];
  }

  // ---------------------------------------------------------------------
  // The public port of one entry

  /** `int(p.split(':')[0])` for one entry. */
  function PublicPort(item: PortItem): Result<int, ScriptError> {
    match item
    case NonStringItem => Failure(NotAString)
    case StringItem(text) =>
      var field := Before(text, ':');
      match ParseInt(field)
      case Some(n) => Success(n)
      case None => Failure(NotAnInteger(field))
  }

  /** The public port of `"<n>:<anything>"` is `n`, whatever follows the
      first colon. */
  lemma PublicPortOfMapping(n: int, rest: string)
    ensures PublicPort(StringItem(Decimal(n) + ":" + rest)) == Success(n)
  {
    assert Decimal(n) + ":" + rest == Decimal(n) + [':'] + rest;
    BeforeSeparator(Decimal(n), ':', rest);
    ParseDecimal(n);
  }

  /** An entry whose first field holds a character no integer text can hold
      (a `.` of a host address, say) stops the generator with that field as
      the error. */
  lemma NonNumericFieldFails(field: string, rest: string, i: nat)
    requires ':' !in field
    requires i < |field| && !IsNumberChar(field[i])
    ensures PublicPort(StringItem(field + ":" + rest)) == Failure(NotAnInteger(field))
  {
    assert field + ":" + rest == field + [':'] + rest;
    BeforeSeparator(field, ':', rest);
    ParseIntChars(field);
  }

  /** A port range `"<a>-<b>:<rest>"` stops the generator: its first field
      `<a>-<b>` is not an integer text. */
  lemma PortRangeFails(a: string, b: string, rest: string)
    requires |a| > 0 && forall i :: 0 <= i < |a| ==> IsDigit(a[i])
    requires |b| > 0 && forall i :: 0 <= i < |b| ==> IsDigit(b[i])
    ensures PublicPort(StringItem(a + "-" + b + ":" + rest)) == Failure(NotAnInteger(a + "-" + b))
  {
    var field := a + "-" + b;
    forall i | 0 <= i < |field| ensures field[i] != ':' {
      if i < |a| { assert field[i] == a[i]; }
      else if i > |a| { assert field[i] == b[i - |a| - 1]; }
    }
    assert a + "-" + b + ":" + rest == field + [':'] + rest;
    BeforeSeparator(field, ':', rest);
    RangeRefused(a, b);
  }

  // ---------------------------------------------------------------------
  // All public ports, sorted

  /** `[f(x) for x in xs]` when `f` may raise: the results in order, or the
      error of the first element on which `f` fails. */
  function MapAll<A, B, E>(f: A -> Result<B, E>, xs: seq<A>): Result<seq<B>, E> {
    if xs == [] then Success([])
    else
      match f(xs[0])
      case Failure(e) => Failure(e)
      case Success(y) =>
        match MapAll(f, xs[1..])
        case Failure(e) => Failure(e)
        case Success(ys) => Success([y] + ys)
  }

  /** The comprehension succeeds exactly when `f` succeeds on every element,
      and then holds the result for each element at that element's position. */
  lemma {:induction false} MapAllSuccess<A, B, E>(f: A -> Result<B, E>, xs: seq<A>)
    ensures MapAll(f, xs).Success? <==> forall i :: 0 <= i < |xs| ==> f(xs[i]).Success?
    ensures MapAll(f, xs).Success? ==>
      |MapAll(f, xs).value| == |xs| &&
      forall i :: 0 <= i < |xs| ==> MapAll(f, xs).value[i] == f(xs[i]).value
  {
    if xs != [] {
      MapAllSuccess(f, xs[1..]);
      assert forall j :: 1 <= j < |xs| ==> xs[j] == xs[1..][j - 1];
    }
  }

  /** When the comprehension fails, its error is that of the first element on
      which `f` fails: it succeeds on every element before it. */
  lemma {:induction false} MapAllFailure<A, B, E>(f: A -> Result<B, E>, xs: seq<A>) returns (k: nat)
    requires MapAll(f, xs).Failure?
    ensures k < |xs| && f(xs[k]) == Failure(MapAll(f, xs).error)
    ensures forall j :: 0 <= j < k ==> f(xs[j]).Success?
  {
    if f(xs[0]).Failure? {
      k := 0;
    } else {
      var k' := MapAllFailure(f, xs[1..]);
      k := k' + 1;
      assert forall j :: 1 <= j < |xs| ==> xs[j] == xs[1..][j - 1];
    }
  }

  /** Line 40's comprehension: the public port of each entry, in order. */
  function ParseAll(entries: seq<PortItem>): Result<seq<int>, ScriptError> {
    MapAll(PublicPort, entries)
  }

  predicate Sorted(s: seq<int>) {
    forall i, j :: 0 <= i < j < |s| ==> s[i] <= s[j]
  }

  /** `x` placed into a sorted list before the first element not below it. */
  function Insert(x: int, s: seq<int>): seq<int> {
    if s == [] || x <= s[0] then [x] + s else [s[0]] + Insert(x, s[1..])
  }

  lemma {:induction false} InsertKeeps(x: int, s: seq<int>)
    ensures multiset(Insert(x, s)) == multiset(s) + multiset{x}
  {
    if s != [] && x > s[0] {
      InsertKeeps(x, s[1..]);
      assert s == [s[0]] + s[1..];
    }
  }

  lemma {:induction false} InsertSorted(x: int, s: seq<int>)
    requires Sorted(s)
    ensures Sorted(Insert(x, s))
    ensures |Insert(x, s)| == |s| + 1
    ensures s != [] ==> Insert(x, s)[0] == if x <= s[0] then x else s[0]
  {
    if s != [] && x > s[0] {
      InsertSorted(x, s[1..]);
      var t := Insert(x, s[1..]);
      assert forall i :: 0 <= i < |t| ==> s[0] <= t[i] by {
        if |s| > 1 {
          assert t[0] == x || t[0] == s[1];
        }
        forall i | 0 <= i < |t| ensures s[0] <= t[i] {
          assert t[0] <= t[i];
        }
      }
    }
  }

  /** `sorted(s)`: the same elements, duplicates included, in ascending order. */
  function Sort(s: seq<int>): (r: seq<int>)
    ensures Sorted(r)
    ensures multiset(r) == multiset(s)
  {
    if s == [] then []
    else
      var rest := Sort(s[1..]);
      InsertSorted(s[0], rest);
      InsertKeeps(s[0], rest);
      assert s == [s[0]] + s[1..];
      Insert(s[0], rest)
  }

  /** Two ascending lists with the same elements are the same list, so `Sort`
      agrees with any other sorting algorithm, Python's included. */
  lemma {:induction false} SortedUnique(a: seq<int>, b: seq<int>)
    requires Sorted(a) && Sorted(b) && multiset(a) == multiset(b)
    ensures a == b
  {
    if a != [] {
      SortedHeads(a, b);
      MultisetTail(a);
      MultisetTail(b);
      SortedUnique(a[1..], b[1..]);
      assert a == [a[0]] + a[1..] && b == [b[0]] + b[1..];
    }
  }

  lemma SortedHeads(a: seq<int>, b: seq<int>)
    requires Sorted(a) && Sorted(b) && multiset(a) == multiset(b) && a != []
    ensures b != [] && a[0] == b[0]
  {
    assert a[0] in multiset(b);
    var i :| 0 <= i < |b| && b[i] == a[0];
    assert b[0] in multiset(a);
    var j :| 0 <= j < |a| && a[j] == b[0];
    assert b[0] <= b[i] && a[0] <= a[j];
  }

  lemma MultisetTail(a: seq<int>)
    requires a != []
    ensures multiset(a[1..]) == multiset(a) - multiset{a[0]}
  {
    assert a == [a[0]] + a[1..];
  }

  /** `Sort` gives the one ascending list with the elements of its input. */
  lemma SortIs(s: seq<int>, t: seq<int>)
    requires Sorted(t) && multiset(s) == multiset(t)
    ensures Sort(s) == t
  {
    SortedUnique(Sort(s), t);
  }

  /** Lines 33 to 40: the public port of every entry of every service,
      sorted, or the error that makes the script stop. */
  function PublicPorts(services: seq<Service>): (r: Result<seq<int>, ScriptError>)
    ensures r.Success? <==> ParseAll(Entries(services)).Success?
    ensures r.Failure? ==> r == ParseAll(Entries(services))
    ensures r.Success? ==> Sorted(r.value)
    ensures r.Success? ==> multiset(r.value) == multiset(ParseAll(Entries(services)).value)
  {
    match ParseAll(Entries(services))
    case Failure(e) => Failure(e)
    case Success(ps) => Success(Sort(ps))
  }

  /** The generator gets its port list exactly when every entry of every
      service has a public port, and the list then has one port per entry. */
  lemma PublicPortsSucceed(services: seq<Service>)
    ensures PublicPorts(services).Success? <==> forall e :: e in Entries(services) ==> PublicPort(e).Success?
    ensures PublicPorts(services).Success? ==> |PublicPorts(services).value| == PortCount(services)
  {
    var entries := Entries(services);
    EntriesCount(services);
    MapAllSuccess(PublicPort, entries);
    if PublicPorts(services).Success? {
      var ps := ParseAll(entries).value;
      assert |multiset(PublicPorts(services).value)| == |ps|;
    }
  }

  /** Each result of a successful comprehension occurs in it once per element
      that produced it. */
  lemma MapAllCounts<A, B, E>(f: A -> Result<B, E>, xs: seq<A>, y: B)
    requires MapAll(f, xs).Success?
    ensures multiset(MapAll(f, xs).value)[y] == |set i | 0 <= i < |xs| && f(xs[i]) == Success(y)|
  {
    MapAllSuccess(f, xs);
    var ys := MapAll(f, xs).value;
    CountOccurrences(ys, y);
    assert (set i | 0 <= i < |ys| && ys[i] == y) == (set i | 0 <= i < |xs| && f(xs[i]) == Success(y));
  }

  /** The multiplicity of `x` in `s` is the number of positions holding it. */
  lemma {:induction false} CountOccurrences<T>(s: seq<T>, x: T)
    ensures multiset(s)[x] == |set i | 0 <= i < |s| && s[i] == x|
  {
    if s != [] {
      var t := s[..|s| - 1];
      assert s == t + [s[|s| - 1]];
      CountOccurrences(t, x);
      var before := set i | 0 <= i < |t| && t[i] == x;
      var all := set i | 0 <= i < |s| && s[i] == x;
      if s[|s| - 1] == x {
        assert all == before + {|s| - 1};
      } else {
        assert all == before;
      }
    }
  }

  // ---------------------------------------------------------------------
  // The SSH configuration text

  function HostLine(name: string): string { "Host " + name }

  function HostnameLine(ip: string): string { "  Hostname " + ip }

  const UserLine: string := "  User ubuntu"

  const ForwardPrefix: string := "  LocalForward 127.0.0.1:"

  /** `  LocalForward 127.0.0.1:<port> 127.0.0.1:<port>`. */
  function ForwardLine(port: int): string {
    ForwardPrefix + Decimal(port) + " 127.0.0.1:" + Decimal(port)
  }

  /** The two entries with their blank lines, and between them the forward
      line of each port in turn: what the script prints, one print per line. */
  function ConfigLines(hostname: string, ip: string, ports: seq<int>): seq<string> {
    Header(hostname, ip) + ForwardLines(ports) + [""]
  }

  /** The lines before the forwards: a blank line and the first entry, a blank
      line and the opening of the second entry. */
  function Header(hostname: string, ip: string): seq<string> {
    ["", HostLine(hostname), HostnameLine(ip), UserLine,
     "", HostLine(hostname + "-ports"), HostnameLine(ip), UserLine]
  }

  function ForwardLines(ports: seq<int>): seq<string> {
    MapSeq(ForwardLine, ports)
  }

  /** Reads a forward line back into its port; `None` for any line that is not
      one. */
  function ParseForwardLine(line: string): Option<int> {
    if |line| < |ForwardPrefix| || line[..|ForwardPrefix|] != ForwardPrefix then None
    else
      var rest := line[|ForwardPrefix|..];
      var port := Before(rest, ' ');
      if rest != port + " 127.0.0.1:" + port then None else ParseInt(port)
  }

  predicate IsForwardLine(line: string) {
    ParseForwardLine(line).Some?
  }

  lemma ForwardLineRoundTrip(port: int)
    ensures ParseForwardLine(ForwardLine(port)) == Some(port)
  {
    var line := ForwardLine(port);
    var d := Decimal(port);
    assert line[..|ForwardPrefix|] == ForwardPrefix;
    var rest := line[|ForwardPrefix|..];
    assert rest == d + [' '] + ("127.0.0.1:" + d);
    assert ' ' !in d;
    BeforeSeparator(d, ' ', "127.0.0.1:" + d);
    assert Before(rest, ' ') == d;
    assert rest == d + " 127.0.0.1:" + d;
    ParseDecimal(port);
  }

  /** `[g(x) for x in xs]`. */
  function MapSeq<A, B>(g: A -> B, xs: seq<A>): (r: seq<B>)
    ensures |r| == |xs| && forall i :: 0 <= i < |xs| ==> r[i] == g(xs[i])
  {
    if xs == [] then [] else [g(xs[0])] + MapSeq(g, xs[1..])
  }

  lemma MapSeqSnoc<A, B>(g: A -> B, xs: seq<A>, x: A)
    ensures MapSeq(g, xs + [x]) == MapSeq(g, xs) + [g(x)]
  {
    var l, r := MapSeq(g, xs + [x]), MapSeq(g, xs) + [g(x)];
    forall i | 0 <= i < |l| ensures l[i] == r[i] {
      if i < |xs| {
        assert (xs + [x])[i] == xs[i];
      }
    }
  }

  /** The values `f` finds among `xs`, in order. */
  function Found<A, B>(f: A -> Option<B>, xs: seq<A>): seq<B> {
    if xs == [] then []
    else (match f(xs[0]) case Some(y) => [y] case None => []) + Found(f, xs[1..])
  }

  lemma {:induction false} FoundAppend<A, B>(f: A -> Option<B>, a: seq<A>, b: seq<A>)
    ensures Found(f, a + b) == Found(f, a) + Found(f, b)
  {
    if a == [] {
      assert a + b == b;
    } else {
      assert (a + b)[1..] == a[1..] + b;
      FoundAppend(f, a[1..], b);
    }
  }

  lemma {:induction false} FoundNothing<A, B>(f: A -> Option<B>, xs: seq<A>)
    requires forall i :: 0 <= i < |xs| ==> f(xs[i]).None?
    ensures Found(f, xs) == []
  {
    if xs != [] {
      FoundNothing(f, xs[1..]);
    }
  }

  /** The ports of the forward lines among `lines`, in order. */
  function ForwardedPorts(lines: seq<string>): seq<int> {
    Found(ParseForwardLine, lines)
  }

  /** `f` finds back every value from its image under `g`, and nothing else
      among those images. */
  lemma {:induction false} FoundInverse<A, B>(f: A -> Option<B>, g: B -> A, ys: seq<B>)
    requires forall y :: f(g(y)) == Some(y)
    ensures Found(f, MapSeq(g, ys)) == ys
  {
    var xs := MapSeq(g, ys);
    if ys != [] {
      assert xs[1..] == MapSeq(g, ys[1..]);
      FoundInverse(f, g, ys[1..]);
      assert f(xs[0]) == Some(ys[0]);
      assert ys == [ys[0]] + ys[1..];
    }
  }

  /** The eight lines before the forwards: a blank line, the entry
      `<hostname>`, a blank line and the opening of the entry
      `<hostname>-ports`; each entry names the IP address and the user
      `ubuntu`. */
  lemma HeaderLayout(hostname: string, ip: string)
    ensures var h := Header(hostname, ip);
      |h| == 8 && h[0] == "" && h[4] == "" &&
      h[1] == "Host " + hostname && h[5] == "Host " + hostname + "-ports" &&
      h[2] == h[6] == "  Hostname " + ip &&
      h[3] == h[7] == "  User ubuntu"
  {
    assert HostLine(hostname + "-ports") == "Host " + hostname + "-ports";
  }

  /** The layout of the output: the header, then the forward line of each
      port at its own position, then a closing blank line. */
  lemma ConfigLayout(hostname: string, ip: string, ports: seq<int>)
    ensures var out := ConfigLines(hostname, ip, ports);
      |out| == 9 + |ports| && out[..8] == Header(hostname, ip) && out[|out| - 1] == "" &&
      forall i :: 0 <= i < |ports| ==> out[8 + i] == ForwardLine(ports[i])
  {
    Between(Header(hostname, ip), ForwardLines(ports), "");
  }

  /** Where the parts of `head + mid + [last]` stand. */
  lemma Between<T>(head: seq<T>, mid: seq<T>, last: T)
    ensures var s := head + mid + [last];
      |s| == |head| + |mid| + 1 && s[..|head|] == head && s[|s| - 1] == last &&
      forall i :: 0 <= i < |mid| ==> s[|head| + i] == mid[i]
  {
    var s := head + mid + [last];
    assert s[..|head|] == head;
  }

  /** What `f` finds in a text laid out as a part where it finds nothing, the
      images of `ys` under a `g` it inverts, and another part where it finds
      nothing: exactly `ys`, and only at the positions of those images. */
  lemma {:induction false} FoundInLayout<B>(f: string -> Option<B>, g: B -> string,
                                            head: seq<string>, ys: seq<B>, tail: seq<string>)
    requires forall i :: 0 <= i < |head| ==> f(head[i]).None?
    requires forall i :: 0 <= i < |tail| ==> f(tail[i]).None?
    requires forall y :: f(g(y)) == Some(y)
    ensures var out := head + MapSeq(g, ys) + tail;
      Found(f, out) == ys &&
      forall i :: 0 <= i < |out| ==> (f(out[i]).Some? <==> |head| <= i < |head| + |ys|)
  {
    var mid := MapSeq(g, ys);
    var out := head + mid + tail;
    FoundAppend(f, head + mid, tail);
    FoundAppend(f, head, mid);
    FoundInverse(f, g, ys);
    FoundNothing(f, head);
    FoundNothing(f, tail);
    forall i | 0 <= i < |out| ensures f(out[i]).Some? <==> |head| <= i < |head| + |ys| {
      if i < |head| {
        assert out[i] == head[i];
      } else if i < |head| + |ys| {
        assert out[i] == g(ys[i - |head|]);
      } else {
        assert out[i] == tail[i - |head| - |ys|];
      }
    }
  }

  lemma ForwardLinesInverse()
    ensures forall p: int :: ParseForwardLine(ForwardLine(p)) == Some(p)
  {
    forall p: int ensures ParseForwardLine(ForwardLine(p)) == Some(p) {
      ForwardLineRoundTrip(p);
    }
  }

  /** None of the lines around the forwards reads as a forward line. */
  lemma HeaderNotForwards(hostname: string, ip: string)
    ensures !IsForwardLine("")
    ensures forall i :: 0 <= i < |Header(hostname, ip)| ==> ParseForwardLine(Header(hostname, ip)[i]).None?
  {
    assert HostLine(hostname)[0] != ForwardPrefix[0];
    assert HostLine(hostname + "-ports")[0] != ForwardPrefix[0];
    assert |HostnameLine(ip)| >= |ForwardPrefix| ==> HostnameLine(ip)[2] != ForwardPrefix[2];
    assert !IsForwardLine(UserLine);
  }

  /** Reading the forward lines back out of the whole output gives the ports,
      in their order, each once per occurrence; and the forward lines stand
      together in the second entry: no other line of the output is one. */
  lemma ConfigForwards(hostname: string, ip: string, ports: seq<int>)
    ensures ForwardedPorts(ConfigLines(hostname, ip, ports)) == ports
    ensures var out := ConfigLines(hostname, ip, ports);
      forall i :: 0 <= i < |out| ==> (IsForwardLine(out[i]) <==> 8 <= i < 8 + |ports|)
  {
    HeaderNotForwards(hostname, ip);
    ForwardLinesInverse();
    FoundInLayout(ParseForwardLine, ForwardLine, Header(hostname, ip), ports, [""]);
  }

  // ---------------------------------------------------------------------
  // The script

  lemma HeaderLines(hostname: string, ip: string, out: seq<string>)
    requires out == [""] + [HostLine(hostname)] + [HostnameLine(ip)] + [UserLine] +
                    [""] + [HostLine(hostname + "-ports")] + [HostnameLine(ip)] + [UserLine]
    ensures out == Header(hostname, ip)
  {
  }

  /** One more element extends a printed list by that element's image. */
  lemma MapSeqStep<A, B>(g: A -> B, head: seq<B>, xs: seq<A>, k: nat)
    requires k < |xs|
    ensures head + MapSeq(g, xs[..k]) + [g(xs[k])] == head + MapSeq(g, xs[..k + 1])
  {
    MapSeqSnoc(g, xs[..k], xs[k]);
    assert xs[..k + 1] == xs[..k] + [xs[k]];
  }

  lemma LastLine(hostname: string, ip: string, ports: seq<int>, header: seq<string>)
    requires header == Header(hostname, ip)
    ensures header + ForwardLines(ports[..|ports|]) + [""] == ConfigLines(hostname, ip, ports)
  {
    assert ports[..|ports|] == ports;
  }

  /** Lines 43 to 54: prints the two entries, one `LocalForward` line per
      port in the order given. */
  method Render(hostname: string, ip: string, ports: seq<int>) returns (out: seq<string>)
    ensures out == ConfigLines(hostname, ip, ports)
  {
    out := [""];
    out := out + [HostLine(hostname)];
    out := out + [HostnameLine(ip)];
    out := out + [UserLine];
    out := out + [""];
    out := out + [HostLine(hostname + "-ports")];
    out := out + [HostnameLine(ip)];
    out := out + [UserLine];
    ghost var header := out;
    HeaderLines(hostname, ip, header);
    for k := 0 to |ports|
      invariant out == header + ForwardLines(ports[..k])
    {
      MapSeqStep(ForwardLine, header, ports, k);
      out := out + [ForwardLine(ports[k])];
    }
    LastLine(hostname, ip, ports, header);
    out := out + [""];
  }

  /** The whole script with its inputs given: either it stops before printing
      anything, with the error of the first entry that has no public port, or
      it prints the configuration for the sorted public ports. */
  method Generate(services: seq<Service>, hostname: string, ip: string)
    returns (r: Result<seq<string>, ScriptError>)
    ensures r.Failure? <==> exists e :: e in Entries(services) && PublicPort(e).Failure?
    ensures r.Failure? ==> ParseAll(Entries(services)) == Failure(r.error)
    ensures r.Success? ==> PublicPorts(services).Success?
    ensures r.Success? ==> r.value == ConfigLines(hostname, ip, PublicPorts(services).value)
  {
    var ports := PublicPorts(services);
    PublicPortsSucceed(services);
    if ports.Failure? {
      return Failure(ports.error);
    }
    var out := Render(hostname, ip, ports.value);
    r := Success(out);
  }

  lemma DigitsValue8086()
    ensures DigitsValue("8086") == 8086
  {
    assert "8086"[..3] == "808" && "808"[..2] == "80" && "80"[..1] == "8" && "8"[..0] == "";
  }

  lemma DigitsValue9000()
    ensures DigitsValue("9000") == 9000
  {
    assert "9000"[..3] == "900" && "900"[..2] == "90" && "90"[..1] == "9" && "9"[..0] == "";
  }

  /** A mapping's public port is the number before its first colon. */
  lemma InfluxMapping()
    ensures PublicPort(StringItem("8086:8086")) == Success(8086)
  {
    var d := "8086";
    assert "8086:8086" == d + [':'] + d;
    BeforeSeparator(d, ':', d);
    ParseDigits(d);
    DigitsValue8086();
  }

  lemma MinioMapping()
    ensures PublicPort(StringItem("9000:9000")) == Success(9000)
  {
    var d := "9000";
    assert "9000:9000" == d + [':'] + d;
    BeforeSeparator(d, ':', d);
    ParseDigits(d);
    DigitsValue9000();
  }

  lemma AddressField()
    ensures Before("127.0.0.1:80:80", ':') == "127.0.0.1"
  {
    var field, rest := "127.0.0.1", "80:80";
    assert ':' !in field;
    BeforeSeparator(field, ':', rest);
    assert field + [':'] + rest == "127.0.0.1:80:80";
  }

  lemma AddressNotAnInteger()
    ensures ParseInt("127.0.0.1") == None
  {
    var field := "127.0.0.1";
    assert !IsNumberChar(field[3]);
    ParseIntChars(field);
  }

  /** A mapping bound to a host address has that address as its first field,
      and `int()` refuses it. */
  lemma AddressMappingFails()
    ensures PublicPort(StringItem("127.0.0.1:80:80")) == Failure(NotAnInteger("127.0.0.1"))
  {
    AddressField();
    AddressNotAnInteger();
  }

  /** The entry `"<n>:<n>"`. */
  function Mapping(n: int): PortItem {
    StringItem(Decimal(n) + ":" + Decimal(n))
  }

  lemma MappingPort(n: int)
    ensures PublicPort(Mapping(n)) == Success(n)
  {
    PublicPortOfMapping(n, Decimal(n));
  }

  /** A small compose file: a service publishing `q`, one without `ports`,
      and one publishing `p` and `q` again. */
  function ExampleServices(p: int, q: int): seq<Service> {
    [Service("influxdb", Present([Mapping(q)])), Service("django", Absent),
     Service("minio", Present([Mapping(p), Mapping(q)]))]
  }

  lemma ExampleEntries(p: int, q: int)
    ensures Entries(ExampleServices(p, q)) == [Mapping(q), Mapping(p), Mapping(q)]
  {
    var lists := PortLists(ExampleServices(p, q));
    assert lists == [[Mapping(q)]] + [[]] + [[Mapping(p), Mapping(q)]];
    FlattenAppend([[Mapping(q)]] + [[]], [[Mapping(p), Mapping(q)]]);
    FlattenAppend([[Mapping(q)]], [[]]);
    assert Flatten([[Mapping(q)]]) == [Mapping(q)] + Flatten<PortItem>([]);
    assert Flatten<PortItem>([[]]) == [] + Flatten<PortItem>([]);
    assert Flatten([[Mapping(p), Mapping(q)]]) == [Mapping(p), Mapping(q)] + Flatten<PortItem>([]);
  }

  /** A three-element comprehension whose function succeeds on each element. */
  lemma MapAllThree<A, B, E>(f: A -> Result<B, E>, a: A, b: A, c: A, ya: B, yb: B, yc: B)
    requires f(a) == Success(ya) && f(b) == Success(yb) && f(c) == Success(yc)
    ensures MapAll(f, [a, b, c]) == Success([ya, yb, yc])
  {
    assert MapAll(f, []) == Success([]);
    assert [c][1..] == [] && [yc] + [] == [yc];
    assert MapAll(f, [c]) == Success([yc]);
    assert [b, c][1..] == [c] && [yb] + [yc] == [yb, yc];
    assert MapAll(f, [b, c]) == Success([yb, yc]);
    assert [a, b, c][1..] == [b, c] && [ya] + [yb, yc] == [ya, yb, yc];
  }

  lemma MappingsParse(p: int, q: int)
    ensures ParseAll([Mapping(q), Mapping(p), Mapping(q)]) == Success([q, p, q])
  {
    MappingPort(p);
    MappingPort(q);
    MapAllThree(PublicPort, Mapping(q), Mapping(p), Mapping(q), q, p, q);
  }

  lemma ExampleParsed(p: int, q: int)
    ensures ParseAll(Entries(ExampleServices(p, q))) == Success([q, p, q])
  {
    ExampleEntries(p, q);
    MappingsParse(p, q);
  }

  lemma SameThree(p: int, q: int)
    requires p <= q
    ensures Sorted([p, q, q]) && multiset([q, p, q]) == multiset([p, q, q])
  {
    assert [q, p, q] == [q] + [p] + [q] && [p, q, q] == [p] + [q] + [q];
  }

  lemma ExampleSorted(p: int, q: int)
    requires p <= q
    ensures Sort([q, p, q]) == [p, q, q]
  {
    SameThree(p, q);
    SortIs([q, p, q], [p, q, q]);
  }

  /** The example's ports come out sorted, with `q` kept twice. */
  lemma ComposeExample(p: int, q: int)
    requires p <= q
    ensures PublicPorts(ExampleServices(p, q)) == Success([p, q, q])
  {
    ExampleParsed(p, q);
    ExampleSorted(p, q);
  }
}
