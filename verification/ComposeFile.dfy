/**
  The indentation parser of compose files (backend/internal/compose/compose.go) and the
  whole of ParseCompose: text, services block, boot order, image check.
 */
module ComposeFile {
  import opened Compose
  import opened Strconv
  import opened Strings
  import opened Wrappers

  // ---------------------------------------------------------------------------
  // Lines
  // ---------------------------------------------------------------------------

  /** Tabs count as four spaces. */
  function Untab(s: string): string {
    if s == "" then "" else (if s[0] == '\t' then "    " else [s[0]]) + Untab(s[1..])
  }

  /** White space in the sense of the comment pattern. */
  predicate Blank(c: char) {
    c == ' ' || c == '\t' || c == '\n' || c == '\r' || c as int == 12
  }

  /** Where a comment begins: at the first blank that a hash follows. */
  function CommentStart(s: string): (n: nat)
    ensures n <= |s|
  {
    if |s| < 2 then |s|
    else if Blank(s[0]) && s[1] == '#' then 0
    else 1 + CommentStart(s[1..])
  }

  function StripComment(s: string): string {
    if s != "" && s[0] == '#' then "" else s[..CommentStart(s)]
  }

  function Indent(s: string): nat {
    if s != "" && s[0] == ' ' then 1 + Indent(s[1..]) else 0
  }

  /** The parts around the first occurrence; the second is empty without one. */
  function Cut(s: string, c: char): (string, string) {
    var i := IndexOf(s, c);
    (s[..i], if i < |s| then s[i + 1..] else "")
  }

  // ---------------------------------------------------------------------------
  // Values
  // ---------------------------------------------------------------------------

  /** `[host:]container[/protocol]`; a host that is no number reads as none. */
  function ParsePort(item: string): Result<Port, Error> {
    var text := TrimQuotes(item);
    var (port, protocol) := Cut(text, '/');
    var parts := Split(port, ':');
    var container := AtoiText(parts[|parts| - 1]);
    if container.None? then Err(InvalidPort(port))
    else
      var host := if |parts| > 1 then AtoiText(parts[0]) else None;
      Ok(Port(container.value, if host.Some? then host.value else 0, if '/' in text then protocol else "tcp"))
  }

  /** A pair around `=`, or failing that around `:`. */
  function ParseKV(item: string): Result<(string, string), Error> {
    var text := TrimQuotes(item);
    if '=' in text then
      var (k, v) := Cut(text, '=');
      Ok((TrimSpace(k), TrimSpace(v)))
    else if ':' in text then
      var (k, v) := Cut(text, ':');
      Ok((TrimSpace(k), TrimQuotes(TrimSpace(v))))
    else Err(InvalidEnvironment(text))
  }

  function ParseDuration(s: string): int {
    var text := TrimSpace(s);
    if text != "" && text[|text| - 1] == 's' then AtoiLenient(text[..|text| - 1]) else AtoiLenient(text)
  }

  /** The sections of a service, and no section. */
  datatype Kind = Nowhere | Ports | Environment | DependsOn | Networks | Deploy | Health

  function KindOf(key: string): Kind {
    if key == "ports" then Ports
    else if key == "environment" then Environment
    else if key == "depends_on" then DependsOn
    else if key == "networks" then Networks
    else if key == "deploy" then Deploy
    else if key == "healthcheck" then Health
    else Nowhere
  }

  // ---------------------------------------------------------------------------
  // The parser
  // ---------------------------------------------------------------------------

  /**
    What the parser carries from line to line.  `current` is the service being filled in,
    the one declared last; an indentation of -1 means that none has been seen.
   */
  datatype Parser = Parser(
    services: Services,
    order: seq<string>,
    current: string,
    inServices: bool,
    servicesIndent: int,
    svcIndent: int,
    section: Kind,
    sectionIndent: int,
    stopped: bool)

  function Start(): Parser {
    Parser(map[], [], "", false, -1, -1, Nowhere, -1, false)
  }

  /** A service as its header declares it. */
  function Bare(name: string): Service {
    Service(name, "", "", [], map[], 1, [], [], None)
  }

  /** A line at the level of the service names. */
  function ReadHeader(b: Parser, indent: nat, text: string): Result<Parser, Error> {
    if text == "" || text[|text| - 1] != ':' then Err(ExpectedServiceName)
    else
      var name := text[..|text| - 1];
      if name == "" then Err(EmptyServiceName)
      else Ok(b.(services := b.services[name := Bare(name)], order := b.order + [name], current := name,
                 svcIndent := indent, section := Nowhere, sectionIndent := -1))
  }

  function Update(b: Parser, s: Service): Parser {
    b.(services := b.services[b.current := s])
  }

  function TrimDash(text: string): string {
    if "- " <= text then text[2..] else text
  }

  /** What a health check item makes of the check so far. */
  function Checked(h: Option<Healthcheck>, item: string): Healthcheck {
    var (k, v) := Cut(item, ':');
    var base := if h.Some? then h.value else Healthcheck("tcp", 0);
    if TrimSpace(k) == "test" then base.(kind := "http")
    else if TrimSpace(k) == "interval" then base.(intervalSec := ParseDuration(TrimQuotes(TrimSpace(v))))
    else base
  }

  /** A line inside a section, as an edit of the service. */
  function ItemOn(section: Kind, s: Service, text: string): Result<Service, Error> {
    var item := TrimDash(text);
    if section == Ports then
      var p := ParsePort(item);
      if p.Err? then Err(p.error) else Ok(s.(ports := s.ports + [p.value]))
    else if section == Environment then
      var kv := ParseKV(item);
      if kv.Err? then Err(kv.error) else Ok(s.(env := s.env[kv.value.0 := kv.value.1]))
    else if section == DependsOn then Ok(s.(dependsOn := s.dependsOn + [item]))
    else if section == Networks then Ok(s.(networks := s.networks + [item]))
    else if section == Deploy then
      var (k, v) := Cut(item, ':');
      if ':' in item && TrimSpace(k) == "replicas" then
        var n := AtoiText(TrimSpace(v));
        if n.None? then Err(InvalidReplicas) else Ok(s.(replicas := n.value))
      else Ok(s)
    else if section == Health then Ok(s.(healthcheck := Some(Checked(s.healthcheck, item))))
    else Ok(s)
  }

  function ReadItem(b: Parser, s: Service, text: string): Result<Parser, Error> {
    var r := ItemOn(b.section, s, text);
    if r.Err? then Err(r.error) else Ok(Update(b, r.value))
  }

  /** A key of the service itself. */
  function ReadKey(b: Parser, s: Service, indent: nat, text: string): Result<Parser, Error> {
    var (k, v) := Cut(text, ':');
    var key, val := TrimSpace(k), TrimQuotes(TrimSpace(v));
    if key == "image" then Ok(Update(b, s.(image := val)))
    else if key == "restart" then Ok(Update(b, s.(restart := val)))
    else if key == "build" then Err(BuildUnsupported(s.name))
    else if KindOf(key) != Nowhere then Ok(b.(section := KindOf(key), sectionIndent := indent))
    else Ok(b)
  }

  /** A line with something on it. */
  function ReadText(b: Parser, indent: nat, text: string): Result<Parser, Error> {
    if !b.inServices then Ok(if text == "services:" then b.(inServices := true, servicesIndent := indent) else b)
    else if indent <= b.servicesIndent && text != "services:" then Ok(b.(stopped := true))
    else if b.svcIndent == -1 || indent == b.svcIndent then ReadHeader(b, indent, text)
    else if b.current !in b.services then Err(OutsideService)
    else if b.section != Nowhere && indent > b.sectionIndent then ReadItem(b, b.services[b.current], text)
    else ReadKey(b, b.services[b.current], indent, text)
  }

  function ReadLine(b: Parser, raw: string): Result<Parser, Error> {
    var line := StripComment(raw);
    var text := TrimSpace(line);
    if b.stopped || text == "" then Ok(b) else ReadText(b, Indent(line), text)
  }

  function ReadFrom(b: Parser, lines: seq<string>): Result<Parser, Error>
    decreases |lines|
  {
    if lines == [] then Ok(b)
    else
      var r := ReadLine(b, lines[0]);
      if r.Err? then r else ReadFrom(r.value, lines[1..])
  }

  /** The services block of a compose file. */
  function Parsed(text: string): Result<Parser, Error> {
    ReadFrom(Start(), Split(Untab(text), '\n'))
  }

  // ---------------------------------------------------------------------------
  // What one line means
  // ---------------------------------------------------------------------------

  lemma {:induction false} CutAt(a: string, c: char, b: string)
    requires c !in a
    ensures Cut(a + [c] + b, c) == (a, b) && Cut(a, c) == (a, "") && c in a + [c] + b
  {
    IndexOfFirst(a, c, b);
    IndexOfNone(a, c);
    var s := a + [c] + b;
    assert s[..|a|] == a && s[|a| + 1..] == b && s[|a|] == c;
    assert a[..|a|] == a;
  }

  lemma {:induction false} SplitLast(s: string, sep: char, last: string)
    requires sep !in last
    ensures var r := Split(s + [sep] + last, sep); |r| > 1 && r[|r| - 1] == last && r[0] == s[..IndexOf(s, sep)]
    decreases |s|
  {
    var i := IndexOf(s, sep);
    var whole := s + [sep] + last;
    if i == |s| {
      SplitAt(s, sep, last);
      SplitAt(last, sep, "");
      assert s[..i] == s;
    } else {
      assert whole == s[..i] + [sep] + (s[i + 1..] + [sep] + last);
      SplitAt(s[..i], sep, s[i + 1..] + [sep] + last);
      SplitLast(s[i + 1..], sep, last);
    }
  }

  /** The number a port text stands for when it is one, and zero for a host that is none. */
  ghost function NumberOr(s: string, other: int): int {
    if AtoiText(s).Some? then AtoiText(s).value else other
  }

  /** A port text with its protocol, or without one for TCP. */
  lemma {:induction false} PortReads(item: string, port: string, protocol: string)
    requires '/' !in port
    ensures TrimQuotes(item) == port ==> ParsePort(item) == PortOf(port, "tcp")
    ensures TrimQuotes(item) == port + "/" + protocol ==> ParsePort(item) == PortOf(port, protocol)
  {
    hide TrimQuotes, AtoiText, Split;
    assert port + "/" + protocol == port + ['/'] + protocol;
    CutAt(port, '/', protocol);
  }

  ghost function PortOf(port: string, protocol: string): Result<Port, Error> {
    var parts := Split(port, ':');
    var container := AtoiText(parts[|parts| - 1]);
    if container.None? then Err(InvalidPort(port))
    else Ok(Port(container.value, if |parts| > 1 then NumberOr(parts[0], 0) else 0, protocol))
  }

  /** One number is the container's port; before the last colon the first number is the host's. */
  lemma {:induction false} PortNumbers(host: string, middle: string, container: string, protocol: string)
    requires ':' !in container && ':' !in host
    ensures AtoiText(container).None? ==>
              && PortOf(container, protocol) == Err(InvalidPort(container))
              && PortOf(host + ":" + container, protocol) == Err(InvalidPort(host + ":" + container))
    ensures AtoiText(container).Some? ==>
              && PortOf(container, protocol) == Ok(Port(AtoiText(container).value, 0, protocol))
              && PortOf(host + ":" + container, protocol) ==
                 Ok(Port(AtoiText(container).value, NumberOr(host, 0), protocol))
              && PortOf(host + ":" + middle + ":" + container, protocol) ==
                 Ok(Port(AtoiText(container).value, NumberOr(host, 0), protocol))
  {
    hide AtoiText, Split;
    SplitAt(container, ':', "");
    SplitAt(host, ':', container);
    assert host + ":" + container == host + [':'] + container;
    var front := host + ":" + middle;
    assert front + ":" + container == front + [':'] + container;
    assert front == host + [':'] + middle;
    IndexOfFirst(host, ':', middle);
    assert front[..|host|] == host;
    SplitLast(front, ':', container);
  }

  /** A pair around the first equals sign, or around the first colon without one. */
  lemma {:induction false} PairReads(item: string, k: string, v: string)
    ensures TrimQuotes(item) == k + "=" + v && '=' !in k ==> ParseKV(item) == Ok((TrimSpace(k), TrimSpace(v)))
    ensures TrimQuotes(item) == k + ":" + v && ':' !in k && '=' !in k && '=' !in v ==>
              ParseKV(item) == Ok((TrimSpace(k), TrimQuotes(TrimSpace(v))))
    ensures '=' !in TrimQuotes(item) && ':' !in TrimQuotes(item) ==>
              ParseKV(item) == Err(InvalidEnvironment(TrimQuotes(item)))
  {
    hide TrimQuotes, TrimSpace;
    assert k + "=" + v == k + ['='] + v && k + ":" + v == k + [':'] + v;
    if '=' !in k {
      CutAt(k, '=', v);
    }
    if ':' !in k {
      CutAt(k, ':', v);
    }
  }

  /** Seconds, with or without their unit; text that is no number is none. */
  lemma {:induction false} DurationReads(s: string, n: string)
    ensures TrimSpace(s) == n + "s" ==> ParseDuration(s) == AtoiLenient(n)
    ensures TrimSpace(s) == n && (n == "" || n[|n| - 1] != 's') ==> ParseDuration(s) == AtoiLenient(n)
  {
    hide TrimSpace, AtoiLenient;
    assert (n + "s")[..|n|] == n && (n + "s")[|n|] == 's';
  }

  /** Until the services key nothing is read; with it the block begins. */
  lemma {:induction false} BlockBegins(b: Parser, indent: nat, text: string)
    requires !b.inServices
    ensures text != "services:" ==> ReadText(b, indent, text) == Ok(b)
    ensures text == "services:" ==>
              ReadText(b, indent, text) == Ok(b.(inServices := true, servicesIndent := indent))
  {
    hide ReadHeader, ReadItem, ReadKey;
  }

  /** A line indented no deeper than the services key ends the block, and nothing after it is read. */
  lemma {:induction false} BlockEnds(b: Parser, indent: nat, text: string, lines: seq<string>)
    requires b.inServices && indent <= b.servicesIndent && text != "services:"
    ensures ReadText(b, indent, text) == Ok(b.(stopped := true))
    ensures ReadFrom(b.(stopped := true), lines) == Ok(b.(stopped := true))
  {
    hide ReadHeader, ReadItem, ReadKey, ReadFrom;
    StoppedStays(b.(stopped := true), lines);
  }

  /** Inside of the block, at the level of its first line. */
  ghost predicate AtServices(b: Parser, indent: nat, text: string) {
    && b.inServices && (indent > b.servicesIndent || text == "services:")
    && (b.svcIndent == -1 || indent == b.svcIndent)
  }

  /** A name and a colon declare a service with one replica and nothing else. */
  lemma {:induction false} HeaderReads(b: Parser, indent: nat, name: string)
    requires AtServices(b, indent, name + ":")
    ensures name == "" ==> ReadText(b, indent, name + ":") == Err(EmptyServiceName)
    ensures name != "" ==>
              ReadText(b, indent, name + ":") ==
              Ok(b.(services := b.services[name := Service(name, "", "", [], map[], 1, [], [], None)],
                    order := b.order + [name], current := name,
                    svcIndent := indent, section := Nowhere, sectionIndent := -1))
  {
    hide ReadItem, ReadKey;
    assert (name + ":")[..|name|] == name && (name + ":")[|name|] == ':';
  }

  lemma {:induction false} HeaderRefused(b: Parser, indent: nat, text: string)
    requires AtServices(b, indent, text) && (text == "" || text[|text| - 1] != ':')
    ensures ReadText(b, indent, text) == Err(ExpectedServiceName)
  {
    hide ReadItem, ReadKey;
  }

  /** Below a service's name. */
  ghost predicate InService(b: Parser, indent: nat, text: string) {
    && b.inServices && (indent > b.servicesIndent || text == "services:")
    && b.svcIndent != -1 && indent != b.svcIndent && b.current in b.services
  }

  /** A key of the service itself: outside of a section, or no deeper than its key. */
  lemma {:induction false} KeyReads(b: Parser, indent: nat, k: string, v: string)
    requires ':' !in k && InService(b, indent, k + ":" + v) && (b.section == Nowhere || indent <= b.sectionIndent)
    ensures var r, s, key, val := ReadText(b, indent, k + ":" + v), b.services[b.current], TrimSpace(k),
                                  TrimQuotes(TrimSpace(v));
            && (key == "image" ==> r == Ok(b.(services := b.services[b.current := s.(image := val)])))
            && (key == "restart" ==> r == Ok(b.(services := b.services[b.current := s.(restart := val)])))
            && (key == "build" ==> r == Err(BuildUnsupported(s.name)))
            && (forall kind | Opens(key, kind) :: r == Ok(b.(section := kind, sectionIndent := indent)))
            && (key !in {"image", "restart", "build"} && (forall kind :: !Opens(key, kind)) ==> r == Ok(b))
  {
    hide TrimSpace, TrimQuotes, ReadHeader, ReadItem;
    var text := k + ":" + v;
    assert text == k + [':'] + v;
    CutAt(k, ':', v);
    var key := TrimSpace(k);
    OpensWhen(key);
    assert ReadText(b, indent, text) == ReadKey(b, b.services[b.current], indent, text);
    hide Opens, KindOf;
    assert Opens(key, KindOf(key)) <==> KindOf(key) != Nowhere;
  }

  /** The six keys that open a section. */
  ghost predicate Opens(key: string, kind: Kind) {
    match kind
    case Nowhere => false
    case Ports => key == "ports"
    case Environment => key == "environment"
    case DependsOn => key == "depends_on"
    case Networks => key == "networks"
    case Deploy => key == "deploy"
    case Health => key == "healthcheck"
  }

  lemma {:induction false} KeysDiffer(a: string, b: string)
    requires |a| != |b| || (a != "" && b != "" && a[0] != b[0])
    ensures a != b
  {
  }

  lemma {:induction false} OpensWhen(key: string)
    ensures forall kind :: Opens(key, kind) <==> kind != Nowhere && KindOf(key) == kind
    ensures forall kind :: Opens(key, kind) ==> key !in {"image", "restart", "build"}
  {
    assert |"ports"| == 5 && |"environment"| == 11 && |"depends_on"| == 10 && |"networks"| == 8;
    assert |"deploy"| == 6 && |"healthcheck"| == 11 && |"image"| == 5 && |"restart"| == 7;
    KeysDiffer("environment", "healthcheck");
    KeysDiffer("ports", "image");
    KeysDiffer("ports", "build");
  }

  /** A line deeper than the key of its section is an item of it, with or without its dash. */
  lemma {:induction false} ItemReads(b: Parser, indent: nat, text: string)
    requires InService(b, indent, text) && b.section != Nowhere && indent > b.sectionIndent
    ensures var r, s, item := ReadText(b, indent, text), b.services[b.current], TrimDash(text);
            match b.section
            case Ports => (match ParsePort(item)
                           case Err(e) => r == Err(e)
                           case Ok(p) => r == Ok(b.(services := b.services[b.current := s.(ports := s.ports + [p])])))
            case Environment =>
              (match ParseKV(item)
               case Err(e) => r == Err(e)
               case Ok(kv) => r == Ok(b.(services := b.services[b.current := s.(env := s.env[kv.0 := kv.1])])))
            case DependsOn => r == Ok(b.(services := b.services[b.current := s.(dependsOn := s.dependsOn + [item])]))
            case Networks => r == Ok(b.(services := b.services[b.current := s.(networks := s.networks + [item])]))
            case _ => r == ReadItem(b, s, text)
  {
    hide ParsePort, ParseKV, TrimDash, ReadHeader, ReadKey, Checked;
    hide AtoiText, TrimSpace;
  }

  /** An item of a deploy section sets the replica count, or is ignored. */
  lemma {:induction false} DeployReads(b: Parser, s: Service, text: string, k: string, v: string)
    requires b.section == Deploy && ':' !in k
    ensures TrimDash(text) == k + ":" + v && TrimSpace(k) == "replicas" && AtoiText(TrimSpace(v)).None? ==>
              ReadItem(b, s, text) == Err(InvalidReplicas)
    ensures TrimDash(text) == k + ":" + v && TrimSpace(k) == "replicas" && AtoiText(TrimSpace(v)).Some? ==>
              ReadItem(b, s, text) ==
              Ok(b.(services := b.services[b.current := s.(replicas := AtoiText(TrimSpace(v)).value)]))
    ensures TrimDash(text) == k || (TrimDash(text) == k + ":" + v && TrimSpace(k) != "replicas") ==>
              ReadItem(b, s, text) == Ok(b.(services := b.services[b.current := s]))
  {
    hide ParsePort, ParseKV, TrimDash, Checked, AtoiText, TrimSpace;
    assert k + ":" + v == k + [':'] + v;
    CutAt(k, ':', v);
  }

  /** A health check starts out as a TCP one; a test makes it HTTP, an interval sets its seconds. */
  lemma {:induction false} HealthReads(b: Parser, s: Service, text: string, k: string, v: string)
    requires b.section == Health && ':' !in k && (TrimDash(text) == k + ":" + v || (TrimDash(text) == k && v == ""))
    ensures var was := if s.healthcheck.Some? then s.healthcheck.value else Healthcheck("tcp", 0);
            var key, sec := TrimSpace(k), ParseDuration(TrimQuotes(TrimSpace(v)));
            var now := if key == "test" then Healthcheck("http", was.intervalSec)
                       else if key == "interval" then Healthcheck(was.kind, sec) else was;
            ReadItem(b, s, text) == Ok(b.(services := b.services[b.current := s.(healthcheck := Some(now))]))
  {
    hide ParsePort, ParseKV, TrimDash, AtoiText, TrimSpace, TrimQuotes, ParseDuration;
    assert k + ":" + v == k + [':'] + v;
    CutAt(k, ':', v);
  }

  lemma {:induction false} DashDropped(text: string)
    ensures TrimDash("- " + text) == text
    ensures (|text| < 2 || text[0] != '-' || text[1] != ' ') ==> TrimDash(text) == text
  {
    assert ("- " + text)[2..] == text;
    if |text| < 2 || text[0] != '-' || text[1] != ' ' {
      assert !("- " <= text);
    }
  }

  // ---------------------------------------------------------------------------
  // What the parser keeps
  // ---------------------------------------------------------------------------

  /** The declaration order covers exactly the declared services, and after the first one a current one exists. */
  ghost predicate Covers(b: Parser) {
    && Keyed(b.services) && (forall n :: n in b.order <==> n in b.services)
    && (b.svcIndent != -1 ==> b.current in b.services)
  }

  /** The same declarations; only the contents of the current service differ. */
  ghost predicate SameNames(b: Parser, b': Parser) {
    && b'.order == b.order && b'.current == b.current && b'.svcIndent == b.svcIndent
    && b'.services.Keys == b.services.Keys
    && forall n :: n in b.services ==> b'.services[n].name == b.services[n].name
  }

  lemma {:induction false} SameNamesCovers(b: Parser, b': Parser)
    requires Covers(b) && SameNames(b, b')
    ensures Covers(b')
  {
  }

  lemma {:induction false} UpdateNames(b: Parser, s: Service)
    requires b.current in b.services && s.name == b.services[b.current].name
    ensures SameNames(b, Update(b, s))
  {
  }

  lemma {:induction false} ItemOnNames(section: Kind, s: Service, text: string)
    ensures ItemOn(section, s, text) != Err(OutsideService)
    ensures ItemOn(section, s, text).Ok? ==> ItemOn(section, s, text).value.name == s.name
  {
    hide AtoiText, Split, TrimSpace, TrimQuotes, TrimDash, Checked, Cut;
  }

  lemma {:induction false} ReadItemNames(b: Parser, text: string)
    requires b.current in b.services
    ensures var r := ReadItem(b, b.services[b.current], text);
            r != Err(OutsideService) && (r.Ok? ==> SameNames(b, r.value))
  {
    hide ItemOn, Update, SameNames;
    var s := b.services[b.current];
    ItemOnNames(b.section, s, text);
    var r := ItemOn(b.section, s, text);
    if r.Ok? {
      UpdateNames(b, r.value);
    }
  }

  lemma {:induction false} SameNamesSelf(b: Parser)
    ensures SameNames(b, b)
    ensures forall section, indent :: SameNames(b, b.(section := section, sectionIndent := indent))
  {
  }

  lemma {:induction false} ReadKeyNames(b: Parser, indent: nat, text: string)
    requires b.current in b.services
    ensures var r := ReadKey(b, b.services[b.current], indent, text);
            r != Err(OutsideService) && (r.Ok? ==> SameNames(b, r.value))
  {
    hide TrimSpace, TrimQuotes, KindOf, Update, SameNames;
    var s, val := b.services[b.current], TrimQuotes(TrimSpace(Cut(text, ':').1));
    SameNamesSelf(b);
    UpdateNames(b, s.(image := val));
    UpdateNames(b, s.(restart := val));
  }

  lemma {:induction false} ReadHeaderCovers(b: Parser, indent: nat, text: string)
    requires Covers(b)
    ensures var r := ReadHeader(b, indent, text); r != Err(OutsideService) && (r.Ok? ==> Covers(r.value))
  {
    var r := ReadHeader(b, indent, text);
    if r.Ok? {
      var b' := r.value;
      forall n ensures n in b'.order <==> n in b'.services {
        assert n in b'.order <==> n in b.order || n == b'.current;
      }
    }
  }

  lemma {:induction false} ReadTextCovers(b: Parser, indent: nat, text: string)
    requires Covers(b)
    ensures ReadText(b, indent, text) != Err(OutsideService)
    ensures ReadText(b, indent, text).Ok? ==> Covers(ReadText(b, indent, text).value)
  {
    hide ReadHeader, ReadItem, ReadKey;
    if b.current in b.services {
      ReadItemNames(b, text);
      ReadKeyNames(b, indent, text);
      var i, k := ReadItem(b, b.services[b.current], text), ReadKey(b, b.services[b.current], indent, text);
      if i.Ok? {
        SameNamesCovers(b, i.value);
      }
      if k.Ok? {
        SameNamesCovers(b, k.value);
      }
    }
    ReadHeaderCovers(b, indent, text);
  }

  /**
    Repeats included, every declared service is in the declaration order and nothing else
    is; the error for a value outside of a service never occurs.
   */
  lemma {:induction false} OrderCovers(b: Parser, lines: seq<string>)
    requires Covers(b)
    ensures ReadFrom(b, lines) != Err(OutsideService)
    ensures ReadFrom(b, lines).Ok? ==> Covers(ReadFrom(b, lines).value)
    decreases |lines|
  {
    if lines != [] {
      hide Covers, ReadText, StripComment, TrimSpace, Indent;
      var line := StripComment(lines[0]);
      ReadTextCovers(b, Indent(line), TrimSpace(line));
      if ReadLine(b, lines[0]).Ok? {
        OrderCovers(ReadLine(b, lines[0]).value, lines[1..]);
      }
    }
  }

  lemma {:induction false} StoppedStays(b: Parser, lines: seq<string>)
    requires b.stopped
    ensures ReadFrom(b, lines) == Ok(b)
    decreases |lines|
  {
    hide ReadText;
    if lines != [] {
      StoppedStays(b, lines[1..]);
    }
  }

  lemma {:induction false} ReadFromAppend(b: Parser, a: seq<string>, c: seq<string>)
    ensures ReadFrom(b, a + c) ==
            if ReadFrom(b, a).Err? then ReadFrom(b, a) else ReadFrom(ReadFrom(b, a).value, c)
    decreases |a|
  {
    hide ReadLine;
    if a == [] {
      assert a + c == c;
    } else {
      assert (a + c)[1..] == a[1..] + c;
      if ReadLine(b, a[0]).Ok? {
        ReadFromAppend(ReadLine(b, a[0]).value, a[1..], c);
      }
    }
  }

  /** Lines that are empty but for white space and a comment can stand anywhere without changing anything. */
  lemma {:induction false} EmptyLinesIgnored(a: seq<string>, line: string, c: seq<string>)
    requires TrimSpace(StripComment(line)) == ""
    ensures ReadFrom(Start(), a + [line] + c) == ReadFrom(Start(), a + c)
  {
    assert a + [line] + c == a + ([line] + c);
    ReadFromAppend(Start(), a, [line] + c);
    ReadFromAppend(Start(), a, c);
    if ReadFrom(Start(), a).Ok? {
      var b := ReadFrom(Start(), a).value;
      assert ReadLine(b, line) == Ok(b);
      hide ReadLine;
      assert ([line] + c)[1..] == c;
    }
  }

  /** A comment at the end of any line is ignored. */
  lemma {:induction false} CommentsIgnored(b: Parser, line: string, comment: string)
    ensures ReadLine(b, line + " #" + comment) == ReadLine(b, line)
  {
    var longer := line + " #" + comment;
    CommentCuts(line, comment);
    if line == "" {
      assert longer[0] == ' ';
    }
    assert StripComment(longer) == StripComment(line);
  }

  lemma {:induction false} CommentCuts(line: string, comment: string)
    ensures CommentStart(line + " #" + comment) == CommentStart(line)
    decreases |line|
  {
    var longer := line + " #" + comment;
    if line == "" {
      assert longer[0] == ' ' && longer[1] == '#';
    } else if |line| == 1 {
      assert longer[0] == line[0] && longer[1] == ' ';
      assert longer[1..] == "" + " #" + comment;
      CommentCuts("", comment);
    } else if !(Blank(line[0]) && line[1] == '#') {
      assert longer[1..] == line[1..] + " #" + comment;
      CommentCuts(line[1..], comment);
    }
  }

  /** A line that begins with a hash is a comment, and one without any comment is read whole. */
  lemma {:induction false} CommentLines(b: Parser, text: string, line: string)
    ensures ReadLine(b, "#" + text) == Ok(b)
    ensures (line == "" || line[0] != '#') && (forall i :: 0 < i < |line| && Blank(line[i - 1]) ==> line[i] != '#') ==>
              StripComment(line) == line
  {
    assert ("#" + text)[0] == '#';
    assert TrimSpace("") == "";
    if forall i :: 0 < i < |line| && Blank(line[i - 1]) ==> line[i] != '#' {
      NoComment(line);
      assert line[..|line|] == line;
    }
  }

  lemma {:induction false} NoComment(line: string)
    requires forall i :: 0 < i < |line| && Blank(line[i - 1]) ==> line[i] != '#'
    ensures CommentStart(line) == |line|
  {
    if |line| >= 2 {
      NoComment(line[1..]);
    }
  }

  /** The indentation is the number of leading spaces, and of nothing else. */
  lemma {:induction false} IndentCounts(s: string, n: nat)
    ensures Indent(s) == n <==>
            n <= |s| && (forall i :: 0 <= i < n ==> s[i] == ' ') && (n < |s| ==> s[n] != ' ')
  {
    if s != "" && s[0] == ' ' && n > 0 {
      IndentCounts(s[1..], n - 1);
      assert n <= |s| ==> (forall i :: 0 <= i < n - 1 ==> s[1..][i] == s[i + 1]);
      assert (forall i :: 0 <= i < n && i < |s| ==> s[i] == ' ') <==>
             (forall i :: 0 <= i < n - 1 && i < |s[1..]| ==> s[1..][i] == ' ') by {
        assert forall i :: 0 < i < n && i < |s| ==> s[i] == s[1..][i - 1];
      }
    }
  }

  /** A tab anywhere reads like four spaces. */
  lemma {:induction false} TabsAreSpaces(a: string, b: string)
    ensures Parsed(a + "\t" + b) == Parsed(a + Spaces(4) + b)
  {
    UntabAppend(a + "\t", b);
    UntabAppend(a + Spaces(4), b);
    UntabAppend(a, "\t");
    UntabAppend(a, Spaces(4));
    assert Untab("\t") == Spaces(4) by {
      assert "\t"[1..] == "" && "    " + "" == Spaces(4);
    }
    assert '\t' !in Spaces(4);
    NoTabs(Spaces(4));
  }

  lemma {:induction false} NoTabs(s: string)
    requires '\t' !in s
    ensures Untab(s) == s
  {
    if s != "" {
      NoTabs(s[1..]);
      assert s == [s[0]] + s[1..];
    }
  }

  lemma {:induction false} UntabAppend(a: string, b: string)
    ensures Untab(a + b) == Untab(a) + Untab(b)
  {
    if a == "" {
      assert a + b == b;
    } else {
      assert (a + b)[1..] == a[1..] + b;
      UntabAppend(a[1..], b);
    }
  }

  // ---------------------------------------------------------------------------
  // ParseCompose
  // ---------------------------------------------------------------------------

  ghost predicate AllHaveImages(services: Services) {
    forall n :: n in services ==> services[n].image != ""
  }

  ghost predicate AllCounted(services: Services) {
    forall n :: n in services ==> services[n].replicas >= 1
  }

  lemma {:induction false} StartCovers()
    ensures Covers(Start())
  {
  }

  /**
    Parsing succeeds exactly for a readable, non-empty block of image-based services whose
    dependencies are declared and free of cycles, and then returns them in boot order, each
    as it was read.  So every count returned is at least one exactly when every count read
    is: the loop that resets the others updates copies.
   */
  method ParseCompose(text: string) returns (r: Result<seq<Service>, Error>)
    ensures r.Ok? <==> Parsed(text).Ok? && var s := Parsed(text).value.services;
                       s != map[] && Acyclic(s) && Closed(s) && AllHaveImages(s)
    ensures r.Ok? ==> BootOrder(Parsed(text).value.services, r.value)
    ensures r.Ok? ==> Fronted(Parsed(text).value.services, Parsed(text).value.order, Names(r.value))
    ensures Parsed(text).Err? ==> r == Err(Parsed(text).error)
    ensures Parsed(text).Ok? ==>
              var s := Parsed(text).value.services;
              && (s == map[] ==> r == Err(NoServices))
              && (s != map[] && !(Acyclic(s) && Closed(s)) ==> r.Err? && Justified(s, r.error))
              && (s != map[] && Acyclic(s) && Closed(s) && !AllHaveImages(s) ==>
                    r.Err? && r.error.MissingImage? && r.error.service in s && s[r.error.service].image == "")
    ensures r.Ok? ==>
              ((forall i :: 0 <= i < |r.value| ==> r.value[i].replicas >= 1) <==>
               AllCounted(Parsed(text).value.services))
  {
    hide ReadLine, Untab, Split, Order, Acyclic, Closed, BootOrder, AllHaveImages, AllCounted, Covers;
    hide Fronted, Justified;
    var lines := Split(Untab(text), '\n');
    var b := Start();
    var i := 0;
    assert lines[0..] == lines;
    while i < |lines| && !b.stopped
      invariant 0 <= i <= |lines|
      invariant ReadFrom(b, lines[i..]) == ReadFrom(Start(), lines)
    {
      assert lines[i..][1..] == lines[i + 1..];
      var step := ReadLine(b, lines[i]);
      if step.Err? {
        return Err(step.error);
      }
      b := step.value;
      i := i + 1;
    }
    if b.stopped {
      StoppedStays(b, lines[i..]);
    }
    assert Parsed(text) == Ok(b);
    StartCovers();
    OrderCovers(Start(), lines);
    if b.services == map[] {
      return Err(NoServices);
    }
    CoversIs(b);
    var sorter := new TopoSorter(b.services);
    var ordered := sorter.Sort(b.order);
    if ordered.Err? {
      return Err(ordered.error);
    }
    var missing := FirstWithoutImage(b.services, ordered.value);
    if missing.Some? {
      return Err(MissingImage(missing.value));
    }
    CountsKept(b.services, ordered.value);
    return ordered;
  }

  lemma {:induction false} CountsKept(services: Services, out: seq<Service>)
    requires BootOrder(services, out)
    ensures (forall i :: 0 <= i < |out| ==> out[i].replicas >= 1) <==> AllCounted(services)
  {
    if forall i :: 0 <= i < |out| ==> out[i].replicas >= 1 {
      forall n | n in services ensures services[n].replicas >= 1 {
        assert Listed(out, n, |out|);
      }
    }
  }

  lemma {:induction false} CoversIs(b: Parser)
    requires Covers(b)
    ensures Keyed(b.services) && forall n :: n in b.order <==> n in b.services
  {
  }

  /** The image check after the sort, in boot order. */
  method FirstWithoutImage(services: Services, out: seq<Service>) returns (r: Option<string>)
    requires BootOrder(services, out)
    ensures r.None? <==> AllHaveImages(services)
    ensures r.Some? ==> r.value in services && services[r.value].image == ""
    ensures r.Some? ==> exists k ::
              && 0 <= k < |out| && out[k].name == r.value && out[k].image == ""
              && forall j :: 0 <= j < k ==> out[j].image != ""
  {
    var i := 0;
    while i < |out|
      invariant 0 <= i <= |out|
      invariant forall j :: 0 <= j < i ==> out[j].image != ""
    {
      if out[i].image == "" {
        return Some(out[i].name);
      }
      i := i + 1;
    }
    forall n | n in services ensures services[n].image != "" {
      assert Listed(out, n, |out|);
    }
    return None;
  }
}
