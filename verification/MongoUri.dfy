/** Splitting a MongoDB connection string by hand, and the printed form it inverts.

    JavaScript's `Number` and `decodeURIComponent` are parameters; only what is stated of them is used. */
module MongoUri {
  import opened Options
  import opened Strings

  const DEFAULT_DB: string := "TezGPT-e2e"
  const DEFAULT_PORT: int := 27017

  /** `Number` restricted to integers (nothing for every other result), and percent-decoding. */
  datatype Runtime = Runtime(number: string -> Option<int>, decode: string -> string)

  /** `Number` reads the decimal numerals of port numbers exactly and gives 0 for the empty string; larger numerals may
      be rounded or infinite but stay out of range.  Decoding leaves text without `%` alone. */
  ghost predicate RuntimeOk(rt: Runtime) {
    && rt.number("") == Some(0)
    && (forall n: nat :: n <= 65535 ==> rt.number(Numeral(n)) == Some(n))
    && (forall n: nat :: n > 65535 ==> rt.number(Numeral(n)).None? || rt.number(Numeral(n)).value > 65535)
    && (forall s :: '%' !in s ==> rt.decode(s) == s)
  }

  // ---------------------------------------------------------------- string functions

  /** `s.split(/[...]/, 1)[0]`: everything before the first stop character. */
  function Until(s: string, stops: set<char>): string {
    if s == [] || s[0] in stops then [] else [s[0]] + Until(s[1..], stops)
  }

  function IndexOf(s: string, c: char): (i: int)
    ensures -1 <= i < |s|
  {
    if s == [] then -1
    else if s[0] == c then 0
    else
      var i := IndexOf(s[1..], c);
      if i == -1 then -1 else i + 1
  }

  /** The index of "://", or -1. */
  function SchemeEnd(s: string): (i: int)
    ensures -1 <= i && (i >= 0 ==> i + 3 <= |s|)
  {
    if |s| < 3 then -1
    else if s[..3] == "://" then 0
    else
      var i := SchemeEnd(s[1..]);
      if i == -1 then -1 else i + 1
  }

  /** `s.split(c)`: always at least one piece. */
  function Split(s: string, c: char): (pieces: seq<string>)
    ensures |pieces| >= 1
  {
    var i := IndexOf(s, c);
    if i == -1 then [s] else [s[..i]] + Split(s[i + 1..], c)
  }

  function NonEmpty(pieces: seq<string>): seq<string> {
    if pieces == [] then [] else (if pieces[0] == "" then [] else [pieces[0]]) + NonEmpty(pieces[1..])
  }

  function AfterLast(s: string, c: char): string {
    s[LastIndexOf(s, c) + 1..]
  }

  function Lower(s: string): string {
    if s == [] then []
    else [if 'A' <= s[0] <= 'Z' then s[0] - 'A' + 'a' else s[0]] + Lower(s[1..])
  }

  // ---------------------------------------------------------------- the parser

  function GetMongoScheme(uri: string): string {
    var schemeEnd := SchemeEnd(uri);
    if schemeEnd == -1 then "" else Lower(uri[..schemeEnd])
  }

  function GetMongoAuthority(uri: string): string {
    var schemeEnd := SchemeEnd(uri);
    if schemeEnd == -1 then "" else Until(uri[schemeEnd + 3..], {'/', '?', '#'})
  }

  /** The database named after the first slash, if any. */
  function PathDb(withoutScheme: string, rt: Runtime): string {
    var pathStart := IndexOf(withoutScheme, '/');
    if pathStart == -1 then DEFAULT_DB
    else
      var dbName := FirstSegment(withoutScheme[pathStart + 1..]);
      if dbName == "" then DEFAULT_DB else rt.decode(dbName)
  }

  function FirstSegment(path: string): string {
    var pathname := Until(path, {'?', '#'});
    Until(pathname, {'/'})
  }

  function GetMongoDbName(uri: string, rt: Runtime): string {
    var schemeEnd := SchemeEnd(uri);
    if schemeEnd == -1 then DEFAULT_DB else PathDb(uri[schemeEnd + 3..], rt)
  }

  /** An undefined port is not a number. */
  function NormalizeMongoPort(port: Option<string>, rt: Runtime): (p: int)
    ensures 1 <= p <= 65535
  {
    var parsed := if port.None? then None else rt.number(port.value);
    if parsed.Some? && 0 < parsed.value <= 65535 then parsed.value else DEFAULT_PORT
  }

  datatype HostPort = HostPort(host: string, port: int)

  function ParseMongoHost(entry: string, rt: Runtime): Option<HostPort> {
    if entry == "" then None
    else if entry[0] == '[' then
      var hostEnd := IndexOf(entry, ']');
      if hostEnd == -1 then None
      else
        IndexOfFound(entry, ']');
        var port := if hostEnd + 1 < |entry| && entry[hostEnd + 1] == ':' then entry[hostEnd + 2..] else "";
        Some(HostPort(entry[1..hostEnd], NormalizeMongoPort(Some(port), rt)))
    else
      var pieces := Split(entry, ':');
      if pieces[0] == "" then None
      else Some(HostPort(pieces[0], NormalizeMongoPort(if |pieces| > 1 then Some(pieces[1]) else None, rt)))
  }

  /** What the parser returns. */
  datatype Parsed = Parsed(dbName: string, host: string, port: int, canProbe: bool)

  function ParseMongoUri(uri: string, rt: Runtime): Parsed {
    var hosts := NonEmpty(Split(AfterLast(GetMongoAuthority(uri), '@'), ','));
    var parsedHost := if GetMongoScheme(uri) == "mongodb+srv" || |hosts| != 1 then None else ParseMongoHost(hosts[0], rt);
    Parsed(GetMongoDbName(uri, rt),
           if parsedHost.Some? then parsedHost.value.host else "",
           if parsedHost.Some? then parsedHost.value.port else DEFAULT_PORT,
           parsedHost.Some?)
  }

  // ---------------------------------------------------------------- string lemmas

  lemma {:induction false} IndexOfFound(s: string, c: char)
    ensures IndexOf(s, c) == -1 <==> c !in s
    ensures IndexOf(s, c) >= 0 ==> s[IndexOf(s, c)] == c && c !in s[..IndexOf(s, c)]
  {
    if s != [] {
      IndexOfFound(s[1..], c);
      assert s == [s[0]] + s[1..];
      if s[0] != c && IndexOf(s, c) >= 0 {
        var i := IndexOf(s, c);
        assert s[..i] == [s[0]] + s[1..][..i - 1];
      }
    }
  }

  lemma {:induction false} UntilStop(a: string, b: string, stops: set<char>)
    requires forall c :: c in a ==> c !in stops
    requires b == [] || b[0] in stops
    ensures Until(a + b, stops) == a
  {
    if a == [] {
      assert a + b == b;
    } else {
      assert a[0] in a;
      UntilStop(a[1..], b, stops);
      assert (a + b)[1..] == a[1..] + b;
    }
  }

  lemma {:induction false} IndexOfFirst(a: string, c: char, b: string)
    requires c !in a
    ensures IndexOf(a + [c] + b, c) == |a|
  {
    var s := a + [c] + b;
    if a != [] {
      assert s[0] == a[0] && a[0] in a;
      assert s[1..] == a[1..] + [c] + b;
      IndexOfFirst(a[1..], c, b);
    }
  }

  lemma {:induction false} SchemeEndFirst(a: string, b: string)
    requires ':' !in a
    ensures SchemeEnd(a + "://" + b) == |a|
  {
    var s := a + "://" + b;
    if a == [] {
      assert s[..3] == "://";
    } else {
      assert s[0] == a[0] && a[0] in a;
      assert s[..3][0] != "://"[0];
      assert s[1..] == a[1..] + "://" + b;
      SchemeEndFirst(a[1..], b);
    }
  }

  lemma SplitFirst(a: string, c: char, b: string)
    requires c !in a
    ensures Split(a + [c] + b, c) == [a] + Split(b, c)
  {
    IndexOfFirst(a, c, b);
    var s := a + [c] + b;
    assert s[..|a|] == a && s[|a| + 1..] == b;
  }

  lemma SplitNone(a: string, c: char)
    requires c !in a
    ensures Split(a, c) == [a]
  {
    IndexOfFound(a, c);
  }

  lemma AfterLastAt(a: string, c: char, b: string)
    requires c !in b
    ensures AfterLast(a + [c] + b, c) == b
    ensures AfterLast(b, c) == b
  {
    var s := a + [c] + b;
    assert s[|a|] == c && forall j :: |a| < j < |s| ==> s[j] == b[j - |a| - 1];
    assert LastIndexOf(s, c) == |a|;
    assert LastIndexOf(b, c) == -1;
  }

  // ---------------------------------------------------------------- printing

  /** A host as written: a name or IPv4 address, or a bracketed IPv6 address, with an optional port. */
  datatype Host = Host(name: string, bracketed: bool, port: Option<nat>)

  /** What follows the hosts: nothing, a query right away, or a path with a possibly empty database and a query. */
  datatype Tail = NoTail | BareQuery(query: string) | Path(db: string, pathQuery: Option<string>)

  datatype Uri = Uri(scheme: string, userinfo: Option<string>, hosts: seq<Host>, tail: Tail)

  predicate Free(s: string, cs: set<char>) {
    forall c :: c in s ==> c !in cs
  }

  predicate HostOk(h: Host) {
    && Free(h.name, {',', '@', '/', '?', '#'})
    && if h.bracketed then ']' !in h.name else h.name != "" && ':' !in h.name && h.name[0] != '['
  }

  predicate UriOk(u: Uri) {
    && ':' !in u.scheme
    && (u.userinfo.Some? ==> Free(u.userinfo.value, {'/', '?', '#'}))
    && (forall h :: h in u.hosts ==> HostOk(h))
    && (u.tail.Path? ==> Free(u.tail.db, {'/', '?', '#', '%'}))
  }

  function PrintHost(h: Host): string {
    (if h.bracketed then "[" + h.name + "]" else h.name)
    + if h.port.Some? then ":" + Numeral(h.port.value) else ""
  }

  function PrintHosts(hosts: seq<Host>): string {
    if hosts == [] then ""
    else if |hosts| == 1 then PrintHost(hosts[0])
    else PrintHost(hosts[0]) + "," + PrintHosts(hosts[1..])
  }

  function PrintTail(tail: Tail): string {
    match tail
    case NoTail => ""
    case BareQuery(query) => "?" + query
    case Path(db, query) => "/" + db + if query.Some? then "?" + query.value else ""
  }

  function PrintAuthority(u: Uri): string {
    (if u.userinfo.Some? then u.userinfo.value + "@" else "") + PrintHosts(u.hosts)
  }

  function Print(u: Uri): string {
    u.scheme + "://" + (PrintAuthority(u) + PrintTail(u.tail))
  }

  // ---------------------------------------------------------------- reading back what was printed

  lemma {:induction false} NumeralIsDigits(n: nat)
    ensures forall c :: c in Numeral(n) ==> '0' <= c <= '9'
  {
    if n >= 10 {
      NumeralIsDigits(n / 10);
    }
  }

  lemma PrintedHostIsFree(h: Host)
    requires HostOk(h)
    ensures Free(PrintHost(h), {',', '@', '/', '?', '#'}) && PrintHost(h) != ""
  {
    if h.port.Some? {
      NumeralIsDigits(h.port.value);
    }
  }

  lemma {:induction false} PrintedHostsAreFree(hosts: seq<Host>)
    requires forall h :: h in hosts ==> HostOk(h)
    ensures Free(PrintHosts(hosts), {'@', '/', '?', '#'})
  {
    if hosts != [] {
      PrintedHostIsFree(hosts[0]);
      PrintedHostsAreFree(hosts[1..]);
    }
  }

  function PrintEach(hosts: seq<Host>): seq<string> {
    if hosts == [] then [] else [PrintHost(hosts[0])] + PrintEach(hosts[1..])
  }

  lemma {:induction false} HostsSplitBack(hosts: seq<Host>)
    requires forall h :: h in hosts ==> HostOk(h)
    ensures NonEmpty(Split(PrintHosts(hosts), ',')) == PrintEach(hosts)
  {
    if hosts == [] {
      SplitNone("", ',');
      assert [""][1..] == [];
    } else {
      var first, rest := PrintHost(hosts[0]), hosts[1..];
      PrintedHostIsFree(hosts[0]);
      assert ',' !in first;
      if |hosts| == 1 {
        SplitNone(first, ',');
        assert [first][1..] == [] && rest == [];
      } else {
        HostsSplitBack(rest);
        SplitFirst(first, ',', PrintHosts(rest));
        assert ([first] + Split(PrintHosts(rest), ','))[1..] == Split(PrintHosts(rest), ',');
      }
    }
  }

  /** The port a printed one reads back as: itself if it is a port number, else the default. */
  function PortOf(port: Option<nat>): int {
    if port.Some? && 1 <= port.value <= 65535 then port.value else DEFAULT_PORT
  }

  lemma HostReadsBack(h: Host, rt: Runtime)
    requires HostOk(h) && RuntimeOk(rt)
    ensures ParseMongoHost(PrintHost(h), rt) == Some(HostPort(h.name, PortOf(h.port)))
  {
    var s := PrintHost(h);
    if h.bracketed {
      var after := if h.port.Some? then ":" + Numeral(h.port.value) else "";
      assert s == ("[" + h.name) + "]" + after;
      IndexOfFirst("[" + h.name, ']', after);
      var hostEnd := |h.name| + 1;
      assert s[1..hostEnd] == h.name;
      if h.port.Some? {
        assert s[hostEnd + 1] == ':' && s[hostEnd + 2..] == Numeral(h.port.value);
      }
    } else {
      assert s[0] == h.name[0];
      if h.port.Some? {
        var numeral := Numeral(h.port.value);
        NumeralIsDigits(h.port.value);
        assert s == h.name + ":" + numeral;
        SplitFirst(h.name, ':', numeral);
        SplitNone(numeral, ':');
      } else {
        assert s == h.name;
        SplitNone(h.name, ':');
      }
    }
  }

  lemma AuthorityReadsBack(u: Uri)
    requires UriOk(u)
    ensures SchemeEnd(Print(u)) == |u.scheme|
    ensures Print(u)[|u.scheme| + 3..] == PrintAuthority(u) + PrintTail(u.tail)
    ensures GetMongoAuthority(Print(u)) == PrintAuthority(u)
    ensures AfterLast(PrintAuthority(u), '@') == PrintHosts(u.hosts)
  {
    SchemeEndFirst(u.scheme, PrintAuthority(u) + PrintTail(u.tail));
    PrintedHostsAreFree(u.hosts);
    UntilStop(PrintAuthority(u), PrintTail(u.tail), {'/', '?', '#'});
    if u.userinfo.Some? {
      AfterLastAt(u.userinfo.value, '@', PrintHosts(u.hosts));
    } else {
      AfterLastAt("", '@', PrintHosts(u.hosts));
      assert PrintAuthority(u) == PrintHosts(u.hosts);
    }
  }

  /** What a query without a path would name as database: the text between its first slash and the next stop. */
  function QueryDb(query: string): string {
    var slash := IndexOf(query, '/');
    if slash == -1 then "" else FirstSegment(query[slash + 1..])
  }

  /** The database a printed connection string reads back as. */
  function DbOf(tail: Tail, rt: Runtime): string {
    if tail.Path? && tail.db != "" then tail.db
    else if tail.BareQuery? && QueryDb(tail.query) != "" then rt.decode(QueryDb(tail.query))
    else DEFAULT_DB
  }

  lemma PathDbAfter(front: string, after: string, rt: Runtime)
    requires '/' !in front
    ensures PathDb(front + "/" + after, rt) == if FirstSegment(after) == "" then DEFAULT_DB else rt.decode(FirstSegment(after))
  {
    var rest := front + "/" + after;
    IndexOfFirst(front, '/', after);
    assert rest[|front| + 1..] == after;
  }

  lemma PathDbNone(rest: string, rt: Runtime)
    requires '/' !in rest
    ensures PathDb(rest, rt) == DEFAULT_DB
  {
    IndexOfFound(rest, '/');
  }

  lemma SegmentOfDb(db: string, query: string)
    requires Free(db, {'/', '?', '#'}) && (query == "" || query[0] == '?')
    ensures FirstSegment(db + query) == db
  {
    UntilStop(db, query, {'?', '#'});
    UntilStop(db, "", {'/'});
    assert db + "" == db;
  }

  lemma SplitAtSlash(authority: string, query: string, slash: nat)
    requires slash < |query| && query[slash] == '/'
    ensures authority + ("?" + query) == (authority + "?" + query[..slash]) + "/" + query[slash + 1..]
  {
    assert query == query[..slash] + "/" + query[slash + 1..];
  }

  lemma NoSlashBefore(authority: string, query: string)
    requires '/' !in authority && '/' !in query
    ensures '/' !in authority + ("?" + query) && '/' !in authority + "?" + query
  {
  }

  lemma QueryReadsBack(authority: string, query: string, rt: Runtime)
    requires '/' !in authority
    ensures PathDb(authority + ("?" + query), rt) == DbOf(BareQuery(query), rt)
  {
    var slash := IndexOf(query, '/');
    if slash == -1 {
      QueryWithoutSlash(authority, query, rt);
    } else {
      IndexOfFound(query, '/');
      QueryWithSlash(authority, query, slash, rt);
      DbOfQuery(query, slash, rt);
    }
  }

  lemma DbOfQuery(query: string, slash: nat, rt: Runtime)
    requires IndexOf(query, '/') == slash
    ensures var db := FirstSegment(query[slash + 1..]);
            DbOf(BareQuery(query), rt) == if db == "" then DEFAULT_DB else rt.decode(db)
  {
  }

  lemma QueryWithoutSlash(authority: string, query: string, rt: Runtime)
    requires '/' !in authority && IndexOf(query, '/') == -1
    ensures PathDb(authority + ("?" + query), rt) == DEFAULT_DB == DbOf(BareQuery(query), rt)
  {
    IndexOfFound(query, '/');
    NoSlashBefore(authority, query);
    PathDbNone(authority + ("?" + query), rt);
  }

  lemma QueryWithSlash(authority: string, query: string, slash: nat, rt: Runtime)
    requires '/' !in authority && slash < |query| && query[slash] == '/' && '/' !in query[..slash]
    ensures var db := FirstSegment(query[slash + 1..]);
            PathDb(authority + ("?" + query), rt) == if db == "" then DEFAULT_DB else rt.decode(db)
  {
    NoSlashBefore(authority, query[..slash]);
    SplitAtSlash(authority, query, slash);
    PathDbAfter(authority + "?" + query[..slash], query[slash + 1..], rt);
  }

  lemma PathReadsBack(authority: string, db: string, query: string, rt: Runtime)
    requires '/' !in authority && RuntimeOk(rt)
    requires Free(db, {'/', '?', '#', '%'}) && (query == "" || query[0] == '?')
    ensures PathDb(authority + ("/" + db + query), rt) == if db == "" then DEFAULT_DB else db
  {
    assert authority + ("/" + db + query) == authority + "/" + (db + query);
    PathDbAfter(authority, db + query, rt);
    SegmentOfDb(db, query);
  }

  lemma TailReadsBack(authority: string, tail: Tail, rt: Runtime)
    requires '/' !in authority && RuntimeOk(rt)
    requires tail.Path? ==> Free(tail.db, {'/', '?', '#', '%'})
    ensures PathDb(authority + PrintTail(tail), rt) == DbOf(tail, rt)
  {
    match tail
    case NoTail =>
      assert authority + "" == authority;
      PathDbNone(authority, rt);
    case BareQuery(query) => QueryReadsBack(authority, query, rt);
    case Path(db, pathQuery) =>
      PathReadsBack(authority, db, if pathQuery.Some? then "?" + pathQuery.value else "", rt);
  }

  lemma PrintedParts(u: Uri, rest: string, rt: Runtime)
    requires ':' !in u.scheme && Print(u) == u.scheme + "://" + rest
    ensures GetMongoScheme(Print(u)) == Lower(u.scheme)
    ensures GetMongoDbName(Print(u), rt) == PathDb(rest, rt)
  {
    SchemeEndFirst(u.scheme, rest);
    var uri := u.scheme + "://" + rest;
    assert uri[..|u.scheme|] == u.scheme;
    assert uri[|u.scheme| + 3..] == rest;
  }

  lemma DbReadsBack(u: Uri, rt: Runtime)
    requires UriOk(u) && RuntimeOk(rt)
    ensures GetMongoDbName(Print(u), rt) == DbOf(u.tail, rt)
  {
    PrintedParts(u, PrintAuthority(u) + PrintTail(u.tail), rt);
    PrintedHostsAreFree(u.hosts);
    TailReadsBack(PrintAuthority(u), u.tail, rt);
  }

  lemma HostsReadBack(u: Uri, rt: Runtime)
    requires UriOk(u)
    ensures GetMongoScheme(Print(u)) == Lower(u.scheme)
    ensures NonEmpty(Split(AfterLast(GetMongoAuthority(Print(u)), '@'), ',')) == PrintEach(u.hosts)
  {
    PrintedParts(u, PrintAuthority(u) + PrintTail(u.tail), rt);
    AuthorityReadsBack(u);
    HostsSplitBack(u.hosts);
  }

  // ---------------------------------------------------------------- main results

  /** Reading back a printed connection string gives its host and port when there is exactly one host and no SRV
      scheme, and only then can it be probed; and it gives its database, or the default when the path names none. */
  lemma ParseInvertsPrint(u: Uri, rt: Runtime)
    requires UriOk(u) && RuntimeOk(rt)
    ensures var p := ParseMongoUri(Print(u), rt);
            && (p.canProbe <==> |u.hosts| == 1 && Lower(u.scheme) != "mongodb+srv")
            && (p.canProbe ==> p.host == u.hosts[0].name && p.port == PortOf(u.hosts[0].port))
            && (!p.canProbe ==> p.host == "" && p.port == DEFAULT_PORT)
            && p.dbName == DbOf(u.tail, rt)
    ensures var p := ParseMongoUri(Print(u), rt);
            && (p.canProbe ==>
                  var port := u.hosts[0].port;
                  p.port == if port.Some? && 1 <= port.value <= 65535 then port.value else 27017)
            && (!p.canProbe ==> p.port == 27017)
            && (u.tail.NoTail? ==> p.dbName == "TezGPT-e2e")
            && (u.tail.Path? ==> p.dbName == if u.tail.db == "" then "TezGPT-e2e" else u.tail.db)
  {
    HostsReadBack(u, rt);
    PrintEachLength(u.hosts);
    if |u.hosts| == 1 {
      HostReadsBack(u.hosts[0], rt);
    }
    DbReadsBack(u, rt);
  }

  lemma {:induction false} PrintEachLength(hosts: seq<Host>)
    ensures |PrintEach(hosts)| == |hosts|
    ensures hosts != [] ==> PrintEach(hosts)[0] == PrintHost(hosts[0])
  {
    if hosts != [] {
      PrintEachLength(hosts[1..]);
    }
  }

  /** A query without a path is taken for one exactly when it has a slash with a name after it that does not decode
      to the default; every other connection string without a path reads as the default database. */
  lemma QueryIsMistakenForPath(u: Uri, rt: Runtime)
    requires UriOk(u) && RuntimeOk(rt) && !u.tail.Path?
    ensures ParseMongoUri(Print(u), rt).dbName != DEFAULT_DB <==>
            u.tail.BareQuery? && QueryDb(u.tail.query) != "" && rt.decode(QueryDb(u.tail.query)) != DEFAULT_DB
  {
    DbReadsBack(u, rt);
  }

  lemma QueryDbExample()
    ensures QueryDb("a=/x") == "x"
  {
    IndexOfFirst("a=", '/', "x");
    assert "a=" + ['/'] + "x" == "a=/x" && "a=/x"[3..] == "x";
    SegmentOfDb("x", "");
    assert "x" + "" == "x";
  }

  function Example(): Uri {
    Uri("mongodb", None, [Host("h", false, None)], BareQuery("a=/x"))
  }

  lemma ExampleIsPrinted()
    ensures UriOk(Example())
    ensures Print(Example()) == "mongodb://h?a=/x"
  {
    var hosts := [Host("h", false, None)];
    assert PrintHosts(hosts) == PrintHost(hosts[0]) == "h";
    assert PrintAuthority(Example()) == "h" && PrintTail(Example().tail) == "?a=/x";
    assert "h" + "?a=/x" == "h?a=/x";
  }

  lemma BareQueryDb(u: Uri, rt: Runtime)
    requires UriOk(u) && RuntimeOk(rt) && u.tail.BareQuery? && QueryDb(u.tail.query) != ""
    ensures ParseMongoUri(Print(u), rt).dbName == rt.decode(QueryDb(u.tail.query))
  {
    DbReadsBack(u, rt);
  }

  /** `mongodb://h?a=/x` names no path, and yet its database reads as `x`. */
  lemma QueryMistakenExample(rt: Runtime)
    requires RuntimeOk(rt)
    ensures ParseMongoUri("mongodb://h?a=/x", rt).dbName == "x"
  {
    ExampleIsPrinted();
    QueryDbExample();
    BareQueryDb(Example(), rt);
    assert '%' !in "x";
  }

  // ---------------------------------------------------------------- on the characters

  /** The same text but for capitals in `s`. */
  ghost predicate SameButForCapitals(s: string, t: string) {
    |s| == |t| && forall i :: 0 <= i < |s| ==> s[i] == t[i] || ('a' <= t[i] <= 'z' && s[i] as int == t[i] as int - 32)
  }

  lemma LowerIgnoresCapitals(s: string, t: string)
    requires forall i :: 0 <= i < |t| ==> !('A' <= t[i] <= 'Z')
    ensures Lower(s) == t <==> SameButForCapitals(s, t)
  {
    LowerEach(s);
    if |s| == |t| {
      forall i | 0 <= i < |s|
        ensures Lower(s)[i] == t[i] <==> s[i] == t[i] || ('a' <= t[i] <= 'z' && s[i] as int == t[i] as int - 32)
      {
      }
    }
  }

  lemma {:induction false} LowerEach(s: string)
    ensures |Lower(s)| == |s|
    ensures forall i :: 0 <= i < |s| ==>
              Lower(s)[i] == if 'A' <= s[i] <= 'Z' then (s[i] as int + 32) as char else s[i]
  {
    if s != [] {
      LowerEach(s[1..]);
    }
  }

  /** A connection string can be probed exactly with one host and a scheme other than `mongodb+srv`, in whatever case. */
  lemma ProbedUnlessSrv(u: Uri, rt: Runtime)
    requires UriOk(u) && RuntimeOk(rt)
    ensures ParseMongoUri(Print(u), rt).canProbe <==> |u.hosts| == 1 && !SameButForCapitals(u.scheme, "mongodb+srv")
  {
    LowerIgnoresCapitals(u.scheme, "mongodb+srv");
    ParseInvertsPrint(u, rt);
  }

  /** A database name is the text up to the first slash, question mark or hash. */
  lemma FirstSegmentStops(name: string, after: string)
    requires forall c :: c in name ==> c != '/' && c != '?' && c != '#'
    requires after == "" || after[0] == '/' || after[0] == '?' || after[0] == '#'
    ensures FirstSegment(name + after) == name
  {
    var path := name + after;
    var head := Until(after, {'?', '#'});
    UntilAppends(name, after, {'?', '#'});
    assert head == "" || head[0] == after[0];
    UntilStop(name, head, {'/'});
  }

  lemma {:induction false} UntilAppends(a: string, b: string, stops: set<char>)
    requires forall c :: c in a ==> c !in stops
    ensures Until(a + b, stops) == a + Until(b, stops)
  {
    if a == [] {
      assert a + b == b && [] + Until(b, stops) == Until(b, stops);
    } else {
      assert a[0] in a;
      assert (a + b)[1..] == a[1..] + b;
      UntilAppends(a[1..], b, stops);
      assert [a[0]] + (a[1..] + Until(b, stops)) == a + Until(b, stops);
    }
  }

  /** What a query without a path is taken to name: the text between its first slash and the next slash, question mark or
      hash; without a slash, nothing. */
  lemma QueryDbOnText(before: string, name: string, after: string)
    requires '/' !in before && forall c :: c in name ==> c != '/' && c != '?' && c != '#'
    requires after == "" || after[0] == '/' || after[0] == '?' || after[0] == '#'
    ensures QueryDb(before + "/" + (name + after)) == name && QueryDb(before) == ""
  {
    IndexOfFirst(before, '/', name + after);
    var query := before + "/" + (name + after);
    assert query[|before| + 1..] == name + after;
    FirstSegmentStops(name, after);
    IndexOfFound(before, '/');
  }

  /** A host entry with any text for its port: what the text reads as if that is a port number, else 27017; what follows
      another colon is ignored. */
  lemma HostWithPortText(name: string, text: string, more: string, rt: Runtime)
    requires name != "" && name[0] != '[' && ':' !in name && ':' !in text && (more == "" || more[0] == ':')
    ensures var number := rt.number(text);
            ParseMongoHost(name + ":" + (text + more), rt) ==
            Some(HostPort(name, if number.Some? && 1 <= number.value <= 65535 then number.value else 27017))
  {
    var entry := name + ":" + (text + more);
    assert entry[0] == name[0];
    SplitFirst(name, ':', text + more);
    if more == "" {
      assert text + more == text;
      SplitNone(text, ':');
    } else {
      assert text + more == text + ":" + more[1..];
      SplitFirst(text, ':', more[1..]);
    }
  }

  /** Entries that name no host: an empty one, one that starts with its port, a bracket that is not closed. */
  lemma NoHost(entry: string, rt: Runtime)
    requires entry == "" || entry[0] == ':' || (entry[0] == '[' && ']' !in entry)
    ensures ParseMongoHost(entry, rt).None?
  {
    IndexOfFound(entry, ']');
    if entry != "" && entry[0] == ':' {
      assert [] + ":" + entry[1..] == entry;
      SplitFirst([], ':', entry[1..]);
    }
  }

  /** Empty entries between commas do not count. */
  lemma {:induction false} EmptyEntriesDrop(a: seq<string>, entry: string, b: seq<string>)
    ensures NonEmpty(a + [entry] + b) == NonEmpty(a) + (if entry == "" then [] else [entry]) + NonEmpty(b)
  {
    var all := a + [entry] + b;
    if a == [] {
      assert all[0] == entry && all[1..] == b;
    } else {
      assert all[0] == a[0] && all[1..] == a[1..] + [entry] + b;
      EmptyEntriesDrop(a[1..], entry, b);
    }
  }

  /** Text without "://" names nothing: no host, the default database, and no probe. */
  lemma NoSchemeNoHost(uri: string, rt: Runtime)
    requires forall i :: 0 <= i < |uri| - 2 ==> !(uri[i] == ':' && uri[i + 1] == '/' && uri[i + 2] == '/')
    ensures GetMongoDbName(uri, rt) == "TezGPT-e2e" && !ParseMongoUri(uri, rt).canProbe
  {
    NoSchemeEnd(uri);
    AfterLastAt("", '@', "");
    NoHostsInNothing();
    ProbeNeedsOneHost(uri, rt);
  }

  lemma ProbeNeedsOneHost(uri: string, rt: Runtime)
    ensures ParseMongoUri(uri, rt).canProbe ==> |NonEmpty(Split(AfterLast(GetMongoAuthority(uri), '@'), ','))| == 1
  {
  }

  lemma NoHostsInNothing()
    ensures NonEmpty(Split("", ',')) == []
  {
    SplitNone("", ',');
    assert [""][1..] == [];
  }

  lemma {:induction false} NoSchemeEnd(uri: string)
    requires forall i :: 0 <= i < |uri| - 2 ==> !(uri[i] == ':' && uri[i + 1] == '/' && uri[i + 2] == '/')
    ensures SchemeEnd(uri) == -1
  {
    if |uri| >= 3 {
      var rest := uri[1..];
      forall i | 0 <= i < |rest| - 2 ensures !(rest[i] == ':' && rest[i + 1] == '/' && rest[i + 2] == '/') {
        assert rest[i] == uri[i + 1] && rest[i + 1] == uri[i + 1 + 1] && rest[i + 2] == uri[i + 1 + 2];
      }
      NoSchemeEnd(rest);
      assert !(uri[0] == ':' && uri[0 + 1] == '/' && uri[0 + 2] == '/');
    }
  }
}
