/**
  A writer for compose files, and the round trip through the parser of ComposeFile: what is
  written is read back, field by field and in order.
 */
module ComposeRender {
  import opened Compose
  import opened ComposeFile
  import opened Strconv
  import opened Strings
  import opened Wrappers

  // ---------------------------------------------------------------------------
  // The writer
  // ---------------------------------------------------------------------------

  /** Text that stays as it is on a line of its own: no white space, and no comment at its start. */
  ghost predicate Token(s: string) {
    s != "" && s[0] != '#' && forall i :: 0 <= i < |s| ==> !IsSpace(s[i])
  }

  ghost predicate Unquoted(s: string) {
    s != "" ==> !IsQuote(s[0]) && !IsQuote(s[|s| - 1])
  }

  /** A service to write, with an order of its environment. */
  datatype Written = Written(service: Service, env: seq<(string, string)>)

  ghost predicate WritablePort(p: Port) {
    && MIN_INT <= p.container <= MAX_INT && MIN_INT <= p.host <= MAX_INT
    && Token(p.protocol) && Unquoted(p.protocol)
  }

  ghost predicate WritablePair(kv: (string, string)) {
    && Token(kv.0) && '=' !in kv.0 && Unquoted(kv.0)
    && (kv.1 == "" || Token(kv.1)) && Unquoted(kv.1)
  }

  ghost predicate WritableCheck(h: Option<Healthcheck>) {
    h.Some? ==> (h.value.kind == "tcp" || h.value.kind == "http") && MIN_INT <= h.value.intervalSec <= MAX_INT
  }

  function EnvOf(env: seq<(string, string)>): map<string, string> {
    if env == [] then map[] else EnvOf(env[..|env| - 1])[env[|env| - 1].0 := env[|env| - 1].1]
  }

  ghost predicate Writable(w: Written) {
    var s := w.service;
    && Token(s.name)
    && Token(s.image) && Unquoted(s.image)
    && (s.restart == "" || Token(s.restart)) && Unquoted(s.restart)
    && (forall i :: 0 <= i < |s.ports| ==> WritablePort(s.ports[i]))
    && (forall i :: 0 <= i < |w.env| ==> WritablePair(w.env[i])) && s.env == EnvOf(w.env)
    && MIN_INT <= s.replicas <= MAX_INT
    && (forall i :: 0 <= i < |s.dependsOn| ==> Token(s.dependsOn[i]))
    && (forall i :: 0 <= i < |s.networks| ==> Token(s.networks[i]))
    && WritableCheck(s.healthcheck)
  }

  function DashTexts(items: seq<string>): seq<string> {
    if items == [] then [] else DashTexts(items[..|items| - 1]) + ["- " + items[|items| - 1]]
  }

  function PortText(p: Port): string {
    ItoaText(p.host) + ":" + ItoaText(p.container) + "/" + p.protocol
  }

  function PortTexts(ports: seq<Port>): seq<string> {
    if ports == [] then [] else PortTexts(ports[..|ports| - 1]) + ["- " + PortText(ports[|ports| - 1])]
  }

  function EnvTexts(env: seq<(string, string)>): seq<string> {
    if env == [] then []
    else EnvTexts(env[..|env| - 1]) + ["- " + (env[|env| - 1].0 + "=" + env[|env| - 1].1)]
  }

  function CheckTexts(h: Option<Healthcheck>): seq<string> {
    if h.None? then []
    else
      (if h.value.kind == "http" then ["test: curl"] else []) +
      ["interval: " + (ItoaText(h.value.intervalSec) + "s")]
  }

  function ItemLines(texts: seq<string>): seq<string> {
    seq(|texts|, i requires 0 <= i < |texts| => Spaces(6) + texts[i])
  }

  function KeyText(kind: Kind): string {
    match kind
    case Nowhere => ""
    case Ports => "ports"
    case Environment => "environment"
    case DependsOn => "depends_on"
    case Networks => "networks"
    case Deploy => "deploy"
    case Health => "healthcheck"
  }

  function Section(kind: Kind, texts: seq<string>): seq<string> {
    [Spaces(4) + (KeyText(kind) + ":")] + ItemLines(texts)
  }

  function Quoted(s: string): string {
    "\"" + s + "\""
  }

  function TopLines(s: Service): seq<string> {
    [Spaces(2) + (s.name + ":"), Spaces(4) + ("image: " + s.image), Spaces(4) + ("restart: " + Quoted(s.restart))]
  }

  function ServiceLines(w: Written): seq<string> {
    var s := w.service;
    TopLines(s) + (Section(Ports, PortTexts(s.ports)) + (Section(Environment, EnvTexts(w.env)) +
    (Section(Networks, DashTexts(s.networks)) + (Section(Deploy, ["replicas: " + ItoaText(s.replicas)]) +
    (Section(Health, CheckTexts(s.healthcheck)) + Section(DependsOn, DashTexts(s.dependsOn)))))))
  }

  function AllLines(ws: seq<Written>): seq<string> {
    if ws == [] then [] else ServiceLines(ws[0]) + AllLines(ws[1..])
  }

  function Render(ws: seq<Written>): string {
    JoinLines(["services:"] + AllLines(ws))
  }

  /** No blank is followed by a hash. */
  ghost predicate Commentless(s: string) {
    forall i :: 0 <= i < |s| - 1 ==> !(Blank(s[i]) && s[i + 1] == '#')
  }

  lemma {:induction false} CommentlessKept(s: string)
    requires Commentless(s)
    ensures CommentStart(s) == |s|
  {
    if |s| >= 2 {
      var u := s[1..];
      forall i | 0 <= i < |u| - 1 ensures !(Blank(u[i]) && u[i + 1] == '#') {
        assert u[i] == s[i + 1] && u[i + 1] == s[i + 2];
      }
      CommentlessKept(s[1..]);
    }
  }

  lemma {:induction false} IndentSpaces(n: nat, s: string)
    requires s != "" && s[0] != ' '
    ensures Indent(Spaces(n) + s) == n
  {
    if n == 0 {
      assert Spaces(0) + s == s;
    } else {
      assert (Spaces(n) + s)[1..] == Spaces(n - 1) + s;
      IndentSpaces(n - 1, s);
    }
  }

  /** Text that a line holds without loss. */
  ghost predicate Body(s: string) {
    s != "" && s[0] != '#' && !IsSpace(s[0]) && !IsSpace(s[|s| - 1]) && Commentless(s)
  }

  lemma {:induction false} ReadBody(b: Parser, n: nat, body: string)
    requires Body(body) && !b.stopped
    ensures ReadLine(b, Spaces(n) + body) == ReadText(b, n, body)
  {
    hide ReadText, TrimSpace;
    var line := Spaces(n) + body;
    assert Commentless(line) by {
      forall i | 0 <= i < |line| - 1 ensures !(Blank(line[i]) && line[i + 1] == '#') {
        if i >= n {
          assert line[i] == body[i - n] && line[i + 1] == body[i - n + 1];
        }
      }
    }
    CommentlessKept(line);
    assert line[..|line|] == line && line[0] != '#';
    TrimSpaces(n, body);
    IndentSpaces(n, body);
  }

  lemma {:induction false} PrefixedBody(prefix: string, w: string)
    requires prefix != "" && Token(w) && prefix[0] != '#' && !IsSpace(prefix[0]) && '#' !in prefix
    ensures Body(prefix + w)
  {
    var s := prefix + w;
    forall i | 0 <= i < |s| - 1 ensures !(Blank(s[i]) && s[i + 1] == '#') {
      if i >= |prefix| {
        assert !IsSpace(w[i - |prefix|]);
      }
    }
    assert s[|s| - 1] == w[|w| - 1];
  }

  lemma {:induction false} TokenBody(w: string)
    requires Token(w)
    ensures Body(w + ":")
  {
    var s := w + ":";
    forall i | 0 <= i < |s| - 1 ensures !(Blank(s[i]) && s[i + 1] == '#') {
      assert !IsSpace(w[i]);
    }
  }

  /** The parser is inside a block written by Render. */
  ghost predicate Inside(b: Parser) {
    b.inServices && !b.stopped && b.servicesIndent == 0
  }

  lemma {:induction false} HeaderRead(b: Parser, name: string)
    requires Inside(b) && (b.svcIndent == -1 || b.svcIndent == 2) && Token(name)
    ensures ReadLine(b, Spaces(2) + (name + ":")) ==
            Ok(b.(services := b.services[name := Bare(name)], order := b.order + [name], current := name,
                  svcIndent := 2, section := Nowhere, sectionIndent := -1))
  {
    hide ReadLine;
    TokenBody(name);
    ReadBody(b, 2, name + ":");
    assert (name + ":")[..|name|] == name;
  }

  lemma {:induction false} KeyParts(key: string, w: string)
    requires Token(key) && Token(w) && ':' !in key
    ensures var (k, v) := Cut(key + ": " + w, ':'); TrimSpace(k) == key && TrimSpace(v) == w
  {
    var s := key + ": " + w;
    assert s == key + [':'] + (" " + w);
    IndexOfFirst(key, ':', " " + w);
    assert s[..|key|] == key && s[|key| + 1..] == " " + w;
    assert Spaces(0) + key == key && Spaces(1) + w == " " + w;
    TrimSpaces(0, key);
    TrimSpaces(1, w);
  }

  /** A line deeper than the service names goes to the open section, or is a key of the service. */
  lemma {:induction false} BelowHeader(b: Parser, indent: nat, text: string)
    requires Inside(b) && b.svcIndent == 2 && b.current in b.services && indent > 2
    ensures ReadText(b, indent, text) ==
            if b.section != Nowhere && indent > b.sectionIndent then ReadItem(b, b.services[b.current], text)
            else ReadKey(b, b.services[b.current], indent, text)
  {
    hide ReadItem, ReadKey;
  }

  lemma {:induction false} TrimUnquoted(s: string)
    requires Unquoted(s)
    ensures TrimQuotes(s) == s && TrimQuotes(Quoted(s)) == s
  {
    var q := Quoted(s);
    var tail := s + "\"";
    assert q[0] == '"' && q[1..] == tail && tail[|s|] == '"' && tail[..|s|] == s;
    assert TrimLeftQuotes(q) == TrimLeftQuotes(tail);
    if s == "" {
      assert tail[1..] == "";
      assert TrimLeftQuotes(tail) == "";
    } else {
      assert TrimLeftQuotes(tail) == tail;
      assert TrimRightQuotes(tail) == TrimRightQuotes(s);
    }
  }

  /** A key of the service with a value: `image` or `restart`. */
  lemma {:induction false} ValueKey(b: Parser, s: Service, key: string, text: string, val: string)
    requires (key == "image" || key == "restart") && Token(text) && TrimQuotes(text) == val
    ensures Token(key) && ReadKey(b, s, 4, key + ": " + text) ==
            Ok(Update(b, if key == "image" then s.(image := val) else s.(restart := val)))
  {
    KeyPrefix(key);
    KeyParts(key, text);
    hide Cut, TrimSpace, TrimQuotes, Update, KindOf, Token;
    assert "restart" != "image";
  }

  /** The keys written with a value on their line. */
  lemma {:induction false} KeyPrefix(key: string)
    requires key == "image" || key == "restart" || key == "replicas" || key == "interval" || key == "test"
    ensures Token(key) && ':' !in key && '#' !in key && key[0] != '-'
    ensures var prefix := key + ": ";
            prefix != "" && prefix[0] != '#' && !IsSpace(prefix[0]) && '#' !in prefix
  {
  }

  lemma {:induction false} ValueRead(b: Parser, key: string, text: string, val: string)
    requires Inside(b) && b.svcIndent == 2 && b.section == Nowhere && b.current in b.services
    requires (key == "image" || key == "restart") && Token(text) && TrimQuotes(text) == val
    ensures var s := b.services[b.current];
            ReadLine(b, Spaces(4) + (key + ": " + text)) ==
            Ok(Update(b, if key == "image" then s.(image := val) else s.(restart := val)))
  {
    hide ReadLine, ReadText, ReadKey, Update, Body, Token, TrimQuotes;
    ValueKey(b, b.services[b.current], key, text, val);
    KeyPrefix(key);
    PrefixedBody(key + ": ", text);
    ReadBody(b, 4, key + ": " + text);
    BelowHeader(b, 4, key + ": " + text);
  }

  ghost predicate Letters(s: string) {
    s != "" && forall i :: 0 <= i < |s| ==> 'a' <= s[i] <= 'z' || s[i] == '_'
  }

  lemma {:induction false} LettersToken(s: string)
    requires Letters(s)
    ensures Token(s) && ':' !in s
  {
    assert s[0] != '#';
  }

  lemma {:induction false} SectionTokens(kind: Kind)
    requires kind != Nowhere
    ensures Token(KeyText(kind)) && ':' !in KeyText(kind)
  {
    hide Token;
    match kind {
      case Ports => assert Letters("ports");
      case Environment => assert Letters("environment");
      case DependsOn => assert Letters("depends_on");
      case Networks => assert Letters("networks");
      case Deploy => assert Letters("deploy");
      case Health => assert Letters("healthcheck");
    }
    LettersToken(KeyText(kind));
  }

  lemma {:induction false} KindOfKey(kind: Kind)
    requires kind != Nowhere
    ensures var key := KeyText(kind); KindOf(key) == kind && key != "image" && key != "restart" && key != "build"
  {
    var key := KeyText(kind);
    assert |key| == 6 ==> key == "deploy";
    assert |key| == 5 ==> key == "ports";
    assert |key| == 8 ==> key == "networks";
    assert |key| == 10 ==> key == "depends_on";
    assert |key| == 11 ==> key == "environment" || key == "healthcheck";
    assert "environment"[0] == 'e' && "healthcheck"[0] == 'h' && "ports"[0] == 'p';
  }

  lemma {:induction false} SectionKey(b: Parser, s: Service, kind: Kind)
    requires kind != Nowhere
    ensures ReadKey(b, s, 4, KeyText(kind) + ":") == Ok(b.(section := kind, sectionIndent := 4))
  {
    var key := KeyText(kind);
    SectionTokens(kind);
    KindOfKey(kind);
    hide KindOf, KeyText;
    var text := key + ":";
    assert text == key + [':'] + "";
    IndexOfFirst(key, ':', "");
    assert text[..|key|] == key && Spaces(0) + key == key;
    TrimSpaces(0, key);
    hide TrimSpace, TrimQuotes, IndexOf, Token;
  }

  /** The current service is being filled in, and a section is open or may be opened. */
  ghost predicate Filling(b: Parser, s: Service) {
    && Inside(b) && b.svcIndent == 2 && b.current in b.services && b.services[b.current] == s
    && (b.section == Nowhere || b.sectionIndent == 4)
  }

  lemma {:induction false} SectionOpens(b: Parser, s: Service, kind: Kind)
    requires Filling(b, s) && kind != Nowhere
    ensures ReadLine(b, Spaces(4) + (KeyText(kind) + ":")) == Ok(b.(section := kind, sectionIndent := 4))
  {
    SectionTokens(kind);
    SectionKey(b, s, kind);
    hide ReadLine, ReadText, ReadKey, ReadItem, KeyText;
    var key := KeyText(kind);
    TokenBody(key);
    ReadBody(b, 4, key + ":");
    BelowHeader(b, 4, key + ":");
  }

  /** Items of a section, one after the other. */
  function ItemsOn(section: Kind, s: Service, texts: seq<string>): Result<Service, Error> {
    if texts == [] then Ok(s)
    else
      var r := ItemsOn(section, s, texts[..|texts| - 1]);
      if r.Err? then r else ItemOn(section, r.value, texts[|texts| - 1])
  }

  lemma {:induction false} FillingUpdate(b: Parser, s: Service, s': Service)
    requires Filling(b, s)
    ensures Filling(Update(b, s'), s') && Update(b, s) == b
    ensures Update(b, s').section == b.section && Update(b, s').sectionIndent == b.sectionIndent
  {
    assert b.services[b.current := s] == b.services;
  }

  lemma {:induction false} UpdateTwice(b: Parser, s: Service, s': Service)
    ensures Update(Update(b, s), s') == Update(b, s')
  {
  }

  lemma {:induction false} ItemRead(b: Parser, s: Service, s': Service, text: string)
    requires Filling(b, s) && b.section != Nowhere && Body(text) && ItemOn(b.section, s, text) == Ok(s')
    ensures ReadLine(b, Spaces(6) + text) == Ok(Update(b, s'))
  {
    hide ReadLine, ReadText, ItemOn, Update;
    ReadBody(b, 6, text);
    BelowHeader(b, 6, text);
  }

  lemma {:induction false} ReadFromSnoc(b: Parser, lines: seq<string>, line: string, b1: Parser, b2: Parser)
    requires ReadFrom(b, lines) == Ok(b1) && ReadLine(b1, line) == Ok(b2)
    ensures ReadFrom(b, lines + [line]) == Ok(b2)
  {
    ReadFromAppend(b, lines, [line]);
    hide ReadLine;
    assert [line][1..] == [];
  }

  lemma {:induction false} ItemsRead(b: Parser, s: Service, s': Service, texts: seq<string>)
    requires Filling(b, s) && b.section != Nowhere && (forall i :: 0 <= i < |texts| ==> Body(texts[i]))
    requires ItemsOn(b.section, s, texts) == Ok(s')
    ensures ReadFrom(b, ItemLines(texts)) == Ok(Update(b, s'))
    decreases |texts|
  {
    hide ReadLine, ReadFrom, ItemOn, Update, Filling, Body;
    if texts == [] {
      assert ItemLines(texts) == [];
      FillingUpdate(b, s, s);
      ReadNothing(b);
    } else {
      var init, text := texts[..|texts| - 1], texts[|texts| - 1];
      var mid := ItemsOn(b.section, s, init).value;
      ItemsRead(b, s, mid, init);
      FillingUpdate(b, s, mid);
      ItemRead(Update(b, mid), mid, s', text);
      UpdateTwice(b, mid, s');
      ReadFromSnoc(b, ItemLines(init), Spaces(6) + text, Update(b, mid), Update(b, s'));
      assert ItemLines(texts) == ItemLines(init) + [Spaces(6) + text];
    }
  }

  lemma {:induction false} ReadNothing(b: Parser)
    ensures ReadFrom(b, []) == Ok(b)
  {
  }

  /** A whole section turns the service into what its items make of it. */
  lemma {:induction false} SectionRead(b: Parser, s: Service, s': Service, kind: Kind, texts: seq<string>)
    requires Filling(b, s) && kind != Nowhere && (forall i :: 0 <= i < |texts| ==> Body(texts[i]))
    requires ItemsOn(kind, s, texts) == Ok(s')
    ensures ReadFrom(b, Section(kind, texts)) == Ok(Update(b, s').(section := kind, sectionIndent := 4))
    ensures Filling(Update(b, s').(section := kind, sectionIndent := 4), s')
  {
    hide KeyText, ReadLine, ItemsOn, Body;
    SectionOpens(b, s, kind);
    var begun := b.(section := kind, sectionIndent := 4);
    ItemsRead(begun, s, s', texts);
    FillingUpdate(begun, s, s');
    assert Section(kind, texts)[1..] == ItemLines(texts);
    ReadFromCons(b, begun, Section(kind, texts));
    assert Update(begun, s') == Update(b, s').(section := kind, sectionIndent := 4);
  }

  lemma {:induction false} ReadFromCons(b: Parser, b': Parser, lines: seq<string>)
    requires lines != [] && ReadLine(b, lines[0]) == Ok(b')
    ensures ReadFrom(b, lines) == ReadFrom(b', lines[1..])
  {
    hide ReadLine;
  }

  // ---------------------------------------------------------------------------
  // The sections, item by item
  // ---------------------------------------------------------------------------

  lemma {:induction false} DashText(w: string)
    requires Token(w)
    ensures Body("- " + w) && TrimDash("- " + w) == w
  {
    PrefixedBody("- ", w);
  }

  lemma {:induction false} ItemsSnoc(kind: Kind, s: Service, texts: seq<string>, text: string, s1: Service, s2: Service)
    requires ItemsOn(kind, s, texts) == Ok(s1) && ItemOn(kind, s1, text) == Ok(s2)
    ensures ItemsOn(kind, s, texts + [text]) == Ok(s2)
  {
    hide ItemOn;
    assert (texts + [text])[..|texts|] == texts;
  }

  lemma {:induction false} NoItems(kind: Kind, s: Service)
    ensures ItemsOn(kind, s, []) == Ok(s)
  {
  }

  lemma {:induction false} ListItem(s: Service, w: string)
    requires TrimDash("- " + w) == w
    ensures ItemOn(DependsOn, s, "- " + w) == Ok(s.(dependsOn := s.dependsOn + [w]))
    ensures ItemOn(Networks, s, "- " + w) == Ok(s.(networks := s.networks + [w]))
  {
    hide TrimDash, ParsePort, ParseKV, Checked, Cut, TrimSpace, AtoiText;
  }

  lemma {:induction false} DependenciesOn(s: Service, deps: seq<string>)
    requires forall i :: 0 <= i < |deps| ==> Token(deps[i])
    ensures ItemsOn(DependsOn, s, DashTexts(deps)) == Ok(s.(dependsOn := s.dependsOn + deps))
    ensures forall i :: 0 <= i < |DashTexts(deps)| ==> Body(DashTexts(deps)[i])
  {
    hide Token, Body, TrimDash, ItemOn, ItemsOn;
    if deps == [] {
      assert s.dependsOn + deps == s.dependsOn;
      NoItems(DependsOn, s);
    } else {
      var init, d := deps[..|deps| - 1], deps[|deps| - 1];
      DependenciesOn(s, init);
      DashText(d);
      var s1 := s.(dependsOn := s.dependsOn + init);
      ListItem(s1, d);
      assert s.dependsOn + init + [d] == s.dependsOn + deps;
      ItemsSnoc(DependsOn, s, DashTexts(init), "- " + d, s1, s.(dependsOn := s.dependsOn + deps));
    }
  }

  lemma {:induction false} NetworksOn(s: Service, networks: seq<string>)
    requires forall i :: 0 <= i < |networks| ==> Token(networks[i])
    ensures ItemsOn(Networks, s, DashTexts(networks)) == Ok(s.(networks := s.networks + networks))
    ensures forall i :: 0 <= i < |DashTexts(networks)| ==> Body(DashTexts(networks)[i])
  {
    hide Token, Body, TrimDash, ItemOn, ItemsOn;
    if networks == [] {
      assert s.networks + networks == s.networks;
      NoItems(Networks, s);
    } else {
      var init, n := networks[..|networks| - 1], networks[|networks| - 1];
      NetworksOn(s, init);
      DashText(n);
      var s1 := s.(networks := s.networks + init);
      ListItem(s1, n);
      assert s.networks + init + [n] == s.networks + networks;
      ItemsSnoc(Networks, s, DashTexts(init), "- " + n, s1, s.(networks := s.networks + networks));
    }
  }

  lemma {:induction false} IndexOfSlash(a: string, b: string, rest: string)
    requires '/' !in a && '/' !in b
    ensures Cut(a + ":" + b + "/" + rest, '/') == (a + ":" + b, rest)
  {
    var x := a + ":" + b;
    assert x + "/" + rest == x + ['/'] + rest;
    IndexOfFirst(x, '/', rest);
    assert (x + ['/'] + rest)[..|x|] == x && (x + ['/'] + rest)[|x| + 1..] == rest;
  }

  lemma {:induction false} SplitPair(a: string, b: string)
    requires ':' !in a && ':' !in b
    ensures Split(a + ":" + b, ':') == [a, b]
  {
    var s := a + [':'] + b;
    assert s == a + ":" + b;
    IndexOfFirst(a, ':', b);
    IndexOfNone(b, ':');
    assert s[..|a|] == a && s[|a| + 1..] == b;
    assert Split(b, ':') == [b];
  }

  lemma {:induction false} NumberText(n: int)
    ensures Token(ItoaText(n)) && Unquoted(ItoaText(n))
    ensures ':' !in ItoaText(n) && '/' !in ItoaText(n) && '=' !in ItoaText(n)
  {
    var b, s := Itoa(n), ItoaText(n);
    assert |s| == |b| && forall i :: 0 <= i < |s| ==> s[i] as int == b[i] && (b[i] == 45 || 48 <= b[i] <= 57);
  }

  lemma {:induction false} TokenAppend(a: string, b: string)
    requires Token(a) && (b == "" || Token(b))
    ensures Token(a + b)
  {
  }

  lemma {:induction false} PortToken(p: Port)
    requires WritablePort(p)
    ensures Token(PortText(p)) && Unquoted(PortText(p))
  {
    var h, c := ItoaText(p.host), ItoaText(p.container);
    NumberText(p.host);
    NumberText(p.container);
    assert Token(":") && Token("/");
    hide ItoaText;
    TokenAppend(h, ":");
    TokenAppend(h + ":", c);
    TokenAppend(h + ":" + c, "/");
    TokenAppend(h + ":" + c + "/", p.protocol);
    var text := PortText(p);
    assert text[0] == h[0] && text[|text| - 1] == p.protocol[|p.protocol| - 1];
  }

  lemma {:induction false} PortTextRead(p: Port)
    requires WritablePort(p)
    ensures Token(PortText(p)) && ParsePort(PortText(p)) == Ok(p)
  {
    PortToken(p);
    TrimUnquoted(PortText(p));
    NumberText(p.host);
    NumberText(p.container);
    AtoiItoaText(p.host);
    AtoiItoaText(p.container);
    hide ItoaText, AtoiText, TrimQuotes, Token, Unquoted, Split, Cut;
    var h, c := ItoaText(p.host), ItoaText(p.container);
    IndexOfSlash(h, c, p.protocol);
    SplitPair(h, c);
    var text := PortText(p);
    assert text[|h| + 1 + |c|] == '/' && '/' in text;
  }

  lemma {:induction false} PortItem(s: Service, w: string, p: Port)
    requires TrimDash("- " + w) == w && ParsePort(w) == Ok(p)
    ensures ItemOn(Ports, s, "- " + w) == Ok(s.(ports := s.ports + [p]))
  {
    hide TrimDash, ParsePort, ParseKV, Checked, Cut, TrimSpace, AtoiText;
  }

  lemma {:induction false} PortsOn(s: Service, ports: seq<Port>)
    requires forall i :: 0 <= i < |ports| ==> WritablePort(ports[i])
    ensures ItemsOn(Ports, s, PortTexts(ports)) == Ok(s.(ports := s.ports + ports))
    ensures forall i :: 0 <= i < |PortTexts(ports)| ==> Body(PortTexts(ports)[i])
  {
    hide WritablePort, Token, Body, TrimDash, ParsePort, PortText, ItemOn, ItemsOn;
    if ports == [] {
      assert s.ports + ports == s.ports;
      NoItems(Ports, s);
    } else {
      var init, p := ports[..|ports| - 1], ports[|ports| - 1];
      PortsOn(s, init);
      PortTextRead(p);
      DashText(PortText(p));
      var s1 := s.(ports := s.ports + init);
      PortItem(s1, PortText(p), p);
      assert s.ports + init + [p] == s.ports + ports;
      ItemsSnoc(Ports, s, PortTexts(init), "- " + PortText(p), s1, s.(ports := s.ports + ports));
    }
  }

  lemma {:induction false} PairRead(kv: (string, string))
    requires WritablePair(kv)
    ensures Token(kv.0 + "=" + kv.1) && ParseKV(kv.0 + "=" + kv.1) == Ok(kv)
  {
    var text := kv.0 + "=" + kv.1;
    assert Token("=");
    TokenAppend(kv.0, "=");
    TokenAppend(kv.0 + "=", kv.1);
    assert text[0] == kv.0[0] && text[|kv.0|] == '=';
    assert kv.1 != "" ==> text[|text| - 1] == kv.1[|kv.1| - 1];
    assert Unquoted(text);
    TrimUnquoted(text);
    assert text == kv.0 + ['='] + kv.1;
    IndexOfFirst(kv.0, '=', kv.1);
    assert text[..|kv.0|] == kv.0 && text[|kv.0| + 1..] == kv.1;
    TrimToken(kv.0);
    TrimToken(kv.1);
    hide TrimQuotes, TrimSpace, IndexOf;
  }

  lemma {:induction false} TrimToken(s: string)
    requires s == "" || Token(s)
    ensures TrimSpace(s) == s
  {
    if s != "" {
      assert Spaces(0) + s == s;
      TrimSpaces(0, s);
    }
  }

  lemma {:induction false} PairItem(s: Service, w: string, kv: (string, string))
    requires TrimDash("- " + w) == w && ParseKV(w) == Ok(kv)
    ensures ItemOn(Environment, s, "- " + w) == Ok(s.(env := s.env[kv.0 := kv.1]))
  {
    hide TrimDash, ParsePort, ParseKV, Checked, Cut, TrimSpace, AtoiText;
  }

  lemma {:induction false} EnvironmentOn(s: Service, env: seq<(string, string)>)
    requires s.env == map[] && forall i :: 0 <= i < |env| ==> WritablePair(env[i])
    ensures ItemsOn(Environment, s, EnvTexts(env)) == Ok(s.(env := EnvOf(env)))
    ensures forall i :: 0 <= i < |EnvTexts(env)| ==> Body(EnvTexts(env)[i])
  {
    hide WritablePair, Token, Body, TrimDash, ParseKV, ItemOn, ItemsOn;
    if env == [] {
      NoItems(Environment, s);
    } else {
      var init, kv := env[..|env| - 1], env[|env| - 1];
      var w := kv.0 + "=" + kv.1;
      EnvironmentOn(s, init);
      PairRead(kv);
      DashText(w);
      PairItem(s.(env := EnvOf(init)), w, kv);
      ItemsSnoc(Environment, s, EnvTexts(init), "- " + w, s.(env := EnvOf(init)), s.(env := EnvOf(env)));
    }
  }

  /** An item of the form `key: value`. */
  lemma {:induction false} KeyItem(key: string, w: string)
    requires Token(key) && Token(w) && ':' !in key && '#' !in key && key[0] != '-'
    ensures var text := key + ": " + w;
            && Body(text) && TrimDash(text) == text && ':' in text
            && TrimSpace(Cut(text, ':').0) == key && TrimSpace(Cut(text, ':').1) == w
  {
    KeyParts(key, w);
    assert '#' !in key + ": " && (key + ": ")[0] == key[0];
    PrefixedBody(key + ": ", w);
    hide Cut, TrimSpace, Token, Body;
    var text := key + ": " + w;
    assert text[0] == key[0] && text[|key|] == ':';
  }

  lemma {:induction false} DeployItem(s: Service, text: string, w: string, n: int)
    requires TrimDash(text) == text && ':' in text && AtoiText(w) == Some(n)
    requires TrimSpace(Cut(text, ':').0) == "replicas" && TrimSpace(Cut(text, ':').1) == w
    ensures ItemOn(Deploy, s, text) == Ok(s.(replicas := n))
  {
    hide TrimDash, ParsePort, ParseKV, Checked, Cut, TrimSpace, AtoiText;
  }

  lemma {:induction false} ReplicasOn(s: Service, n: int)
    requires MIN_INT <= n <= MAX_INT
    ensures var text := "replicas: " + ItoaText(n);
            Body(text) && ItemsOn(Deploy, s, [text]) == Ok(s.(replicas := n))
  {
    hide ItoaText, AtoiText, Token, Unquoted, Body, Cut, TrimSpace, TrimDash, ItemOn, ItemsOn;
    var w := ItoaText(n);
    NumberText(n);
    AtoiItoaText(n);
    KeyPrefix("replicas");
    KeyItem("replicas", w);
    assert "replicas" + ": " + w == "replicas: " + w;
    DeployItem(s, "replicas: " + w, w, n);
    OneItem(Deploy, s, "replicas: " + w);
  }

  lemma {:induction false} OneItem(section: Kind, s: Service, text: string)
    ensures ItemsOn(section, s, [text]) == ItemOn(section, s, text)
  {
    hide ItemOn;
    assert [text][..0] == [];
  }

  lemma {:induction false} DurationRead(n: int)
    requires MIN_INT <= n <= MAX_INT
    ensures var w := ItoaText(n) + "s"; Token(w) && TrimQuotes(w) == w && ParseDuration(w) == n
  {
    var d := ItoaText(n);
    NumberText(n);
    AtoiItoaText(n);
    assert Token("s");
    TokenAppend(d, "s");
    var w := d + "s";
    hide ItoaText, AtoiText;
    assert w[0] == d[0] && w[|w| - 1] == 's' && w[..|w| - 1] == d;
    assert Unquoted(w);
    TrimUnquoted(w);
    TrimToken(w);
    hide TrimSpace, TrimQuotes;
  }

  /** The check an item starts from. */
  function BaseCheck(s: Service): Healthcheck {
    if s.healthcheck.Some? then s.healthcheck.value else Healthcheck("tcp", 0)
  }

  lemma {:induction false} HealthItem(s: Service, text: string)
    requires TrimDash(text) == text
    ensures ItemOn(Health, s, text) == Ok(s.(healthcheck := Some(Checked(s.healthcheck, text))))
  {
    hide TrimDash, ParsePort, ParseKV, Checked, Cut, TrimSpace, AtoiText;
  }

  lemma {:induction false} IntervalChecked(s: Service, text: string, w: string, n: int)
    requires TrimSpace(Cut(text, ':').0) == "interval" && TrimSpace(Cut(text, ':').1) == w
    requires TrimQuotes(w) == w && ParseDuration(w) == n
    ensures Checked(s.healthcheck, text) == BaseCheck(s).(intervalSec := n)
  {
    hide Cut, TrimSpace, TrimQuotes, ParseDuration;
    assert "interval" != "test";
  }

  lemma {:induction false} IntervalOn(s: Service, n: int)
    requires MIN_INT <= n <= MAX_INT
    ensures var text := "interval: " + (ItoaText(n) + "s");
            Body(text) && ItemOn(Health, s, text) == Ok(s.(healthcheck := Some(BaseCheck(s).(intervalSec := n))))
  {
    hide ItoaText, ParseDuration, TrimQuotes, Token, Body, Cut, TrimSpace, TrimDash, ItemOn, Checked;
    DurationRead(n);
    var w := ItoaText(n) + "s";
    KeyPrefix("interval");
    KeyItem("interval", w);
    assert "interval" + ": " + w == "interval: " + w;
    HealthItem(s, "interval: " + w);
    IntervalChecked(s, "interval: " + w, w, n);
  }

  lemma {:induction false} TestChecked(s: Service, text: string)
    requires TrimSpace(Cut(text, ':').0) == "test"
    ensures Checked(s.healthcheck, text) == BaseCheck(s).(kind := "http")
  {
    hide Cut, TrimSpace, TrimQuotes, ParseDuration;
  }

  lemma {:induction false} TestOn(s: Service)
    ensures Body("test: curl")
    ensures ItemOn(Health, s, "test: curl") == Ok(s.(healthcheck := Some(BaseCheck(s).(kind := "http"))))
  {
    hide Token, Body, Cut, TrimSpace, TrimDash, ItemOn, Checked;
    assert Letters("curl");
    LettersToken("curl");
    KeyPrefix("test");
    KeyItem("test", "curl");
    assert "test" + ": " + "curl" == "test: curl";
    HealthItem(s, "test: curl");
    TestChecked(s, "test: curl");
  }

  lemma {:induction false} HttpOn(s: Service, n: int, last: string)
    requires s.healthcheck == None && MIN_INT <= n <= MAX_INT && last == "interval: " + (ItoaText(n) + "s")
    ensures ItemsOn(Health, s, ["test: curl"] + [last]) == Ok(s.(healthcheck := Some(Healthcheck("http", n))))
    ensures Body("test: curl") && Body(last)
  {
    hide ItemOn, ItemsOn, Body, ItoaText;
    var s' := s.(healthcheck := Some(Healthcheck("http", 0)));
    TestOn(s);
    OneItem(Health, s, "test: curl");
    IntervalOn(s', n);
    ItemsSnoc(Health, s, ["test: curl"], last, s', s.(healthcheck := Some(Healthcheck("http", n))));
  }

  lemma {:induction false} TcpOn(s: Service, n: int, last: string)
    requires s.healthcheck == None && MIN_INT <= n <= MAX_INT && last == "interval: " + (ItoaText(n) + "s")
    ensures ItemsOn(Health, s, [last]) == Ok(s.(healthcheck := Some(Healthcheck("tcp", n)))) && Body(last)
  {
    hide ItemOn, ItemsOn, Body, ItoaText;
    IntervalOn(s, n);
    OneItem(Health, s, last);
  }

  lemma {:induction false} HealthcheckOn(s: Service, h: Option<Healthcheck>)
    requires s.healthcheck == None && WritableCheck(h)
    ensures ItemsOn(Health, s, CheckTexts(h)) == Ok(s.(healthcheck := h))
    ensures forall i :: 0 <= i < |CheckTexts(h)| ==> Body(CheckTexts(h)[i])
  {
    hide ItemsOn, Body, ItoaText;
    if h.None? {
      NoItems(Health, s);
    } else {
      var n := h.value.intervalSec;
      var last := "interval: " + (ItoaText(n) + "s");
      if h.value.kind == "http" {
        HttpOn(s, n, last);
        assert h.value == Healthcheck("http", n);
      } else {
        TcpOn(s, n, last);
        assert CheckTexts(h) == [last] && h.value == Healthcheck("tcp", n);
      }
    }
  }

  // ---------------------------------------------------------------------------
  // Whole services
  // ---------------------------------------------------------------------------

  /** What reading a written service leaves: the service, declared and complete. */
  function Declared(b: Parser, s: Service): Parser {
    b.(services := b.services[s.name := s], order := b.order + [s.name], current := s.name,
       svcIndent := 2, section := DependsOn, sectionIndent := 4)
  }

  lemma {:induction false} TopRead(b: Parser, s: Service)
    requires Inside(b) && (b.svcIndent == -1 || b.svcIndent == 2)
    requires Token(s.name) && Token(s.image) && Unquoted(s.image)
    requires (s.restart == "" || Token(s.restart)) && Unquoted(s.restart)
    ensures var top := Bare(s.name).(image := s.image, restart := s.restart);
            var b' := Declared(b, top).(section := Nowhere, sectionIndent := -1);
            ReadFrom(b, TopLines(s)) == Ok(b') && Filling(b', top)
  {
    hide ReadLine, ReadFrom;
    var bare := Bare(s.name);
    var b1 := b.(services := b.services[s.name := bare], order := b.order + [s.name], current := s.name,
                 svcIndent := 2, section := Nowhere, sectionIndent := -1);
    HeaderRead(b, s.name);
    var b2 := Update(b1, bare.(image := s.image));
    TrimUnquoted(s.image);
    TrimUnquoted(s.restart);
    QuotedToken(s.restart);
    hide TrimQuotes, Token, Quoted;
    ValueRead(b1, "image", s.image, s.image);
    assert "image" + ": " + s.image == "image: " + s.image;
    var b3 := Update(b2, bare.(image := s.image, restart := s.restart));
    ValueRead(b2, "restart", Quoted(s.restart), s.restart);
    assert "restart" + ": " + Quoted(s.restart) == "restart: " + Quoted(s.restart);
    var l := TopLines(s);
    ReadFromCons(b, b1, l);
    ReadFromCons(b1, b2, l[1..]);
    ReadFromCons(b2, b3, l[1..][1..]);
    assert l[1..][1..][1..] == [];
    ReadNothing(b3);
    assert b3.services == b.services[s.name := bare.(image := s.image, restart := s.restart)];
  }

  lemma {:induction false} QuotedToken(s: string)
    requires s == "" || Token(s)
    ensures Token(Quoted(s))
  {
  }

  /** The service is declared as it stands, and the section has just been read. */
  function Reached(b: Parser, s: Service, kind: Kind): Parser {
    Declared(b, s).(section := kind, sectionIndent := if kind == Nowhere then -1 else 4)
  }

  lemma {:induction false} ReachedNext(b: Parser, s: Service, kind: Kind, s': Service, kind': Kind)
    requires s'.name == s.name && kind' != Nowhere
    ensures Update(Reached(b, s, kind), s').(section := kind', sectionIndent := 4) == Reached(b, s', kind')
  {
    assert b.services[s.name := s][s.name := s'] == b.services[s.name := s'];
  }

  /** What has been read up to and including a section leads to the service as it stands. */
  ghost predicate ReadUpTo(b: Parser, lines: seq<string>, s: Service, kind: Kind) {
    ReadFrom(b, lines) == Ok(Reached(b, s, kind)) && Filling(Reached(b, s, kind), s)
  }

  /** One more section behind what has been read. */
  lemma {:induction false} ThenSection(b: Parser, lines: seq<string>, s: Service, kind: Kind,
                                       s': Service, kind': Kind, texts: seq<string>)
    requires ReadUpTo(b, lines, s, kind) && s'.name == s.name && kind' != Nowhere
    requires (forall i :: 0 <= i < |texts| ==> Body(texts[i])) && ItemsOn(kind', s, texts) == Ok(s')
    ensures ReadUpTo(b, lines + Section(kind', texts), s', kind')
  {
    hide ReadFrom, Section, Update, Filling, Body, ItemsOn, Reached;
    SectionRead(Reached(b, s, kind), s, s', kind', texts);
    ReadFromAppend(b, lines, Section(kind', texts));
    ReachedNext(b, s, kind, s', kind');
  }

  lemma {:induction false} ThenPorts(b: Parser, lines: seq<string>, s: Service, kind: Kind, ports: seq<Port>)
    requires ReadUpTo(b, lines, s, kind) && s.ports == [] && forall i :: 0 <= i < |ports| ==> WritablePort(ports[i])
    ensures ReadUpTo(b, lines + Section(Ports, PortTexts(ports)), s.(ports := ports), Ports)
  {
    hide ReadUpTo, Section, Body, ItemsOn, PortTexts, WritablePort;
    PortsOn(s, ports);
    assert [] + ports == ports;
    ThenSection(b, lines, s, kind, s.(ports := ports), Ports, PortTexts(ports));
  }

  lemma {:induction false} ThenEnvironment(b: Parser, lines: seq<string>, s: Service, kind: Kind, env: seq<(string,
                                           string)>)
    requires ReadUpTo(b, lines, s, kind) && s.env == map[] && forall i :: 0 <= i < |env| ==> WritablePair(env[i])
    ensures ReadUpTo(b, lines + Section(Environment, EnvTexts(env)), s.(env := EnvOf(env)), Environment)
  {
    hide ReadUpTo, Section, Body, ItemsOn, EnvTexts, WritablePair;
    EnvironmentOn(s, env);
    ThenSection(b, lines, s, kind, s.(env := EnvOf(env)), Environment, EnvTexts(env));
  }

  lemma {:induction false} ThenNetworks(b: Parser, lines: seq<string>, s: Service, kind: Kind, networks: seq<string>)
    requires ReadUpTo(b, lines, s, kind) && s.networks == [] && forall i :: 0 <= i < |networks| ==> Token(networks[i])
    ensures ReadUpTo(b, lines + Section(Networks, DashTexts(networks)), s.(networks := networks), Networks)
  {
    hide ReadUpTo, Section, Body, ItemsOn, DashTexts, Token;
    NetworksOn(s, networks);
    assert [] + networks == networks;
    ThenSection(b, lines, s, kind, s.(networks := networks), Networks, DashTexts(networks));
  }

  lemma {:induction false} ThenDeploy(b: Parser, lines: seq<string>, s: Service, kind: Kind, n: int)
    requires ReadUpTo(b, lines, s, kind) && MIN_INT <= n <= MAX_INT
    ensures ReadUpTo(b, lines + Section(Deploy, ["replicas: " + ItoaText(n)]), s.(replicas := n), Deploy)
  {
    hide ReadUpTo, Section, Body, ItemsOn, ItoaText;
    ReplicasOn(s, n);
    ThenSection(b, lines, s, kind, s.(replicas := n), Deploy, ["replicas: " + ItoaText(n)]);
  }

  lemma {:induction false} ThenHealth(b: Parser, lines: seq<string>, s: Service, kind: Kind, h: Option<Healthcheck>)
    requires ReadUpTo(b, lines, s, kind) && s.healthcheck == None && WritableCheck(h)
    ensures ReadUpTo(b, lines + Section(Health, CheckTexts(h)), s.(healthcheck := h), Health)
  {
    hide ReadUpTo, Section, Body, ItemsOn, CheckTexts, WritableCheck;
    HealthcheckOn(s, h);
    ThenSection(b, lines, s, kind, s.(healthcheck := h), Health, CheckTexts(h));
  }

  lemma {:induction false} ThenDependencies(b: Parser, lines: seq<string>, s: Service, kind: Kind, deps: seq<string>)
    requires ReadUpTo(b, lines, s, kind) && s.dependsOn == [] && forall i :: 0 <= i < |deps| ==> Token(deps[i])
    ensures ReadUpTo(b, lines + Section(DependsOn, DashTexts(deps)), s.(dependsOn := deps), DependsOn)
  {
    hide ReadUpTo, Section, Body, ItemsOn, DashTexts, Token;
    DependenciesOn(s, deps);
    assert [] + deps == deps;
    ThenSection(b, lines, s, kind, s.(dependsOn := deps), DependsOn, DashTexts(deps));
  }

  /** The lines of a service, grouped from the left. */
  lemma {:induction false} ServiceGrouped(w: Written)
    ensures var s := w.service;
            ServiceLines(w) == TopLines(s) + Section(Ports, PortTexts(s.ports)) +
              Section(Environment, EnvTexts(w.env)) + Section(Networks, DashTexts(s.networks)) +
              Section(Deploy, ["replicas: " + ItoaText(s.replicas)]) +
              Section(Health, CheckTexts(s.healthcheck)) + Section(DependsOn, DashTexts(s.dependsOn))
  {
    hide Section, TopLines, PortTexts, EnvTexts, DashTexts, CheckTexts, ItoaText;
  }

  lemma {:induction false} ServiceRead(b: Parser, w: Written)
    requires Inside(b) && (b.svcIndent == -1 || b.svcIndent == 2) && Writable(w)
    ensures ReadFrom(b, ServiceLines(w)) == Ok(Declared(b, w.service))
  {
    var s := w.service;
    ServiceGrouped(w);
    TopRead(b, s);
    var s0 := Bare(s.name).(image := s.image, restart := s.restart);
    var l0 := TopLines(s);
    assert ReadUpTo(b, l0, s0, Nowhere);
    hide ReadUpTo, Section, TopLines, PortTexts, EnvTexts, DashTexts, CheckTexts, ItoaText, ServiceLines, EnvOf;
    hide Token, Unquoted, WritablePort, WritablePair, WritableCheck;
    ThenPorts(b, l0, s0, Nowhere, s.ports);
    var l1, s1 := l0 + Section(Ports, PortTexts(s.ports)), s0.(ports := s.ports);
    ThenEnvironment(b, l1, s1, Ports, w.env);
    var l2, s2 := l1 + Section(Environment, EnvTexts(w.env)), s1.(env := s.env);
    ThenNetworks(b, l2, s2, Environment, s.networks);
    var l3, s3 := l2 + Section(Networks, DashTexts(s.networks)), s2.(networks := s.networks);
    ThenDeploy(b, l3, s3, Networks, s.replicas);
    var l4, s4 := l3 + Section(Deploy, ["replicas: " + ItoaText(s.replicas)]), s3.(replicas := s.replicas);
    ThenHealth(b, l4, s4, Deploy, s.healthcheck);
    var l5, s5 := l4 + Section(Health, CheckTexts(s.healthcheck)), s4.(healthcheck := s.healthcheck);
    ThenDependencies(b, l5, s5, Health, s.dependsOn);
    assert s5.(dependsOn := s.dependsOn) == s;
    Finished(b, l5 + Section(DependsOn, DashTexts(s.dependsOn)), s);
  }

  lemma {:induction false} Finished(b: Parser, lines: seq<string>, s: Service)
    requires ReadUpTo(b, lines, s, DependsOn)
    ensures ReadFrom(b, lines) == Ok(Declared(b, s))
  {
    hide ReadFrom;
  }

  /** Declared one after the other; a repeated name keeps the last. */
  function AllDeclared(b: Parser, ws: seq<Written>): Parser
    decreases |ws|
  {
    if ws == [] then b else AllDeclared(Declared(b, ws[0].service), ws[1..])
  }

  lemma {:induction false} AllRead(b: Parser, ws: seq<Written>)
    requires Inside(b) && (b.svcIndent == -1 || b.svcIndent == 2) && forall i :: 0 <= i < |ws| ==> Writable(ws[i])
    ensures ReadFrom(b, AllLines(ws)) == Ok(AllDeclared(b, ws))
    decreases |ws|
  {
    hide Writable, ServiceLines;
    if ws == [] {
      ReadNothing(b);
    } else {
      hide ReadFrom;
      ServiceRead(b, ws[0]);
      ReadFromAppend(b, ServiceLines(ws[0]), AllLines(ws[1..]));
      AllRead(Declared(b, ws[0].service), ws[1..]);
    }
  }

  /** The services written, in order. */
  function ServicesOf(ws: seq<Written>): seq<Service> {
    seq(|ws|, i requires 0 <= i < |ws| => ws[i].service)
  }

  /** The parser holds exactly the services of the list on top of what it held before. */
  ghost predicate Holds(b: Parser, b': Parser, ss: seq<Service>) {
    && b'.order == b.order + Names(ss)
    && (forall n :: n in b'.services <==> n in b.services || n in Names(ss))
    && (forall i :: 0 <= i < |ss| ==> ss[i].name in b'.services && b'.services[ss[i].name] == ss[i])
    && (forall n :: n in b.services && n !in Names(ss) ==> b'.services[n] == b.services[n])
  }

  ghost predicate NamesDiffer(ss: seq<Service>) {
    forall i, j :: 0 <= i < j < |ss| ==> ss[i].name != ss[j].name
  }

  lemma {:induction false} HoldsCons(b: Parser, b': Parser, s: Service, rest: seq<Service>)
    requires Holds(Declared(b, s), b', rest) && NamesDiffer([s] + rest)
    ensures Holds(b, b', [s] + rest)
  {
    var ss := [s] + rest;
    assert Names(ss) == [s.name] + Names(rest);
    assert b.order + [s.name] + Names(rest) == b.order + Names(ss);
    forall i | 0 <= i < |rest| ensures rest[i].name != s.name {
      assert ss[0] == s && ss[i + 1] == rest[i];
    }
    assert s.name !in Names(rest);
    forall i | 0 <= i < |ss| ensures ss[i].name in b'.services && b'.services[ss[i].name] == ss[i] {
      assert i > 0 ==> ss[i] == rest[i - 1];
    }
  }

  lemma {:induction false} DeclaredServices(b: Parser, ws: seq<Written>)
    requires NamesDiffer(ServicesOf(ws))
    ensures Holds(b, AllDeclared(b, ws), ServicesOf(ws))
    decreases |ws|
  {
    if ws == [] {
      assert Names(ServicesOf(ws)) == [] && b.order + [] == b.order;
    } else {
      var s, rest := ws[0].service, ServicesOf(ws[1..]);
      assert ServicesOf(ws) == [s] + rest;
      assert NamesDiffer(rest) by {
        assert forall i :: 0 <= i < |rest| ==> ServicesOf(ws)[i + 1] == rest[i];
      }
      hide Holds, Declared, NamesDiffer;
      DeclaredServices(Declared(b, s), ws[1..]);
      HoldsCons(b, AllDeclared(b, ws), s, rest);
    }
  }

  /** A line of written text: no line break and no tab in it. */
  ghost predicate OneLine(s: string) {
    '\n' !in s && '\t' !in s
  }

  ghost predicate OneLines(lines: seq<string>) {
    forall i :: 0 <= i < |lines| ==> OneLine(lines[i])
  }

  lemma {:induction false} OneLinesAppend(a: seq<string>, b: seq<string>)
    requires OneLines(a) && OneLines(b)
    ensures OneLines(a + b)
  {
  }

  lemma {:induction false} JoinOneLines(lines: seq<string>)
    requires lines != [] && OneLines(lines)
    ensures '\t' !in JoinLines(lines)
  {
    if |lines| > 1 {
      JoinOneLines(lines[1..]);
    }
  }

  lemma {:induction false} OneLineJoin(a: string, b: string)
    requires OneLine(a) && OneLine(b)
    ensures OneLine(a + b)
  {
  }

  lemma {:induction false} TokenOneLine(w: string)
    requires w == "" || Token(w)
    ensures OneLine(w)
  {
    forall i | 0 <= i < |w| ensures w[i] != '\n' && w[i] != '\t' {
      assert !IsSpace(w[i]);
    }
  }

  lemma {:induction false} SectionOneLines(kind: Kind, texts: seq<string>)
    requires kind != Nowhere && OneLines(texts)
    ensures OneLines(Section(kind, texts))
  {
    var key := KeyText(kind);
    SectionTokens(kind);
    hide KeyText;
    TokenOneLine(key);
    OneLineJoin(key, ":");
    OneLineJoin(Spaces(4), key + ":");
    hide OneLine;
    forall i | 0 <= i < |texts| ensures OneLine(Spaces(6) + texts[i]) {
      assert OneLine(Spaces(6)) by {
        SixSpaces();
      }
      OneLineJoin(Spaces(6), texts[i]);
    }
  }

  lemma {:induction false} SixSpaces()
    ensures OneLine(Spaces(6)) && OneLine(Spaces(4)) && OneLine(Spaces(2))
  {
  }

  lemma {:induction false} DashOneLines(items: seq<string>)
    requires forall i :: 0 <= i < |items| ==> Token(items[i])
    ensures OneLines(DashTexts(items))
  {
    hide Token;
    if items != [] {
      DashOneLines(items[..|items| - 1]);
      TokenOneLine(items[|items| - 1]);
      OneLineJoin("- ", items[|items| - 1]);
    }
  }

  lemma {:induction false} PortOneLines(ports: seq<Port>)
    requires forall i :: 0 <= i < |ports| ==> WritablePort(ports[i])
    ensures OneLines(PortTexts(ports))
  {
    hide WritablePort, PortText;
    if ports != [] {
      PortOneLines(ports[..|ports| - 1]);
      PortTextRead(ports[|ports| - 1]);
      TokenOneLine(PortText(ports[|ports| - 1]));
      OneLineJoin("- ", PortText(ports[|ports| - 1]));
    }
  }

  lemma {:induction false} EnvOneLines(env: seq<(string, string)>)
    requires forall i :: 0 <= i < |env| ==> WritablePair(env[i])
    ensures OneLines(EnvTexts(env))
  {
    hide WritablePair, Token;
    if env != [] {
      var kv := env[|env| - 1];
      EnvOneLines(env[..|env| - 1]);
      PairRead(kv);
      TokenOneLine(kv.0 + "=" + kv.1);
      OneLineJoin("- ", kv.0 + "=" + kv.1);
    }
  }

  lemma {:induction false} CheckLiterals()
    ensures OneLine("interval: ") && OneLine("test: curl")
  {
  }

  lemma {:induction false} CheckOneLines(h: Option<Healthcheck>)
    requires WritableCheck(h)
    ensures OneLines(CheckTexts(h))
  {
    if h.Some? {
      CheckLiterals();
      DurationRead(h.value.intervalSec);
      hide ItoaText, Token, OneLine, ParseDuration, TrimQuotes;
      var w := ItoaText(h.value.intervalSec) + "s";
      TokenOneLine(w);
      OneLineJoin("interval: ", w);
      if h.value.kind == "http" {
        assert CheckTexts(h) == ["test: curl", "interval: " + w];
      } else {
        assert CheckTexts(h) == ["interval: " + w];
      }
    }
  }

  lemma {:induction false} TopOneLines(s: Service)
    requires Token(s.name) && Token(s.image) && (s.restart == "" || Token(s.restart))
    ensures OneLines(TopLines(s))
  {
    SixSpaces();
    QuotedToken(s.restart);
    TokenOneLine(s.name);
    TokenOneLine(s.image);
    TokenOneLine(Quoted(s.restart));
    assert OneLine(":") && OneLine("image: ") && OneLine("restart: ");
    hide OneLine, Token, Quoted;
    OneLineJoin(s.name, ":");
    OneLineJoin("image: ", s.image);
    OneLineJoin("restart: ", Quoted(s.restart));
    OneLineJoin(Spaces(2), s.name + ":");
    OneLineJoin(Spaces(4), "image: " + s.image);
    OneLineJoin(Spaces(4), "restart: " + Quoted(s.restart));
  }

  lemma {:induction false} ReplicasOneLine(n: int)
    ensures OneLines(["replicas: " + ItoaText(n)])
  {
    NumberText(n);
    hide ItoaText;
    TokenOneLine(ItoaText(n));
    OneLineJoin("replicas: ", ItoaText(n));
  }

  lemma {:induction false} ServiceOneLines(w: Written)
    requires Writable(w)
    ensures OneLines(ServiceLines(w))
  {
    var s := w.service;
    TopOneLines(s);
    PortOneLines(s.ports);
    EnvOneLines(w.env);
    DashOneLines(s.networks);
    DashOneLines(s.dependsOn);
    CheckOneLines(s.healthcheck);
    ReplicasOneLine(s.replicas);
    hide OneLines, Section, TopLines, PortTexts, EnvTexts, DashTexts, CheckTexts, ItoaText, Writable;
    SectionOneLines(Ports, PortTexts(s.ports));
    SectionOneLines(Environment, EnvTexts(w.env));
    SectionOneLines(Networks, DashTexts(s.networks));
    SectionOneLines(Deploy, ["replicas: " + ItoaText(s.replicas)]);
    SectionOneLines(Health, CheckTexts(s.healthcheck));
    SectionOneLines(DependsOn, DashTexts(s.dependsOn));
    var l5 := Section(Health, CheckTexts(s.healthcheck)) + Section(DependsOn, DashTexts(s.dependsOn));
    OneLinesAppend(Section(Health, CheckTexts(s.healthcheck)), Section(DependsOn, DashTexts(s.dependsOn)));
    var l4 := Section(Deploy, ["replicas: " + ItoaText(s.replicas)]) + l5;
    OneLinesAppend(Section(Deploy, ["replicas: " + ItoaText(s.replicas)]), l5);
    var l3 := Section(Networks, DashTexts(s.networks)) + l4;
    OneLinesAppend(Section(Networks, DashTexts(s.networks)), l4);
    var l2 := Section(Environment, EnvTexts(w.env)) + l3;
    OneLinesAppend(Section(Environment, EnvTexts(w.env)), l3);
    var l1 := Section(Ports, PortTexts(s.ports)) + l2;
    OneLinesAppend(Section(Ports, PortTexts(s.ports)), l2);
    OneLinesAppend(TopLines(s), l1);
  }

  lemma {:induction false} AllOneLines(ws: seq<Written>)
    requires forall i :: 0 <= i < |ws| ==> Writable(ws[i])
    ensures OneLines(AllLines(ws))
  {
    if ws != [] {
      hide Writable, ServiceLines, OneLines;
      ServiceOneLines(ws[0]);
      AllOneLines(ws[1..]);
      OneLinesAppend(ServiceLines(ws[0]), AllLines(ws[1..]));
    }
  }

  lemma {:induction false} RenderSplits(ws: seq<Written>)
    requires forall i :: 0 <= i < |ws| ==> Writable(ws[i])
    ensures Split(Untab(Render(ws)), '\n') == ["services:"] + AllLines(ws)
  {
    hide Writable, Split, AllLines;
    var lines := ["services:"] + AllLines(ws);
    AllOneLines(ws);
    assert OneLine("services:") && OneLines(["services:"]);
    OneLinesAppend(["services:"], AllLines(ws));
    JoinOneLines(lines);
    NoTabs(JoinLines(lines));
    SplitJoin(lines);
  }

  /**
    Services written out as a compose file are read back exactly, every field of them and in
    the order written, for every list of services with distinct names.
   */
  lemma {:induction false} ParseRender(ws: seq<Written>)
    requires (forall i :: 0 <= i < |ws| ==> Writable(ws[i])) && NamesDiffer(ServicesOf(ws))
    ensures Parsed(Render(ws)).Ok?
    ensures Holds(Start(), Parsed(Render(ws)).value, ServicesOf(ws))
  {
    hide Writable, AllLines, Render, Split, Untab, ReadLine, AllDeclared, Holds, NamesDiffer;
    RenderSplits(ws);
    var begun := Start().(inServices := true, servicesIndent := 0);
    FirstLine(begun);
    var lines := ["services:"] + AllLines(ws);
    assert lines[0] == "services:" && lines[1..] == AllLines(ws);
    AllRead(begun, ws);
    assert ReadFrom(Start(), lines) == Ok(AllDeclared(begun, ws));
    DeclaredServices(begun, ws);
    HoldsFromStart(begun, AllDeclared(begun, ws), ServicesOf(ws));
  }

  lemma {:induction false} HoldsFromStart(begun: Parser, b: Parser, ss: seq<Service>)
    requires begun == Start().(inServices := true, servicesIndent := 0) && Holds(begun, b, ss)
    ensures Holds(Start(), b, ss)
  {
  }

  lemma {:induction false} FirstLine(begun: Parser)
    requires begun == Start().(inServices := true, servicesIndent := 0)
    ensures ReadLine(Start(), "services:") == Ok(begun)
  {
    assert Body("services:");
    assert Spaces(0) + "services:" == "services:";
    hide ReadLine;
    ReadBody(Start(), 0, "services:");
  }

  // ---------------------------------------------------------------------------
  // The lost reset
  // ---------------------------------------------------------------------------

  lemma {:induction false} NoEdges(services: Services)
    requires forall n :: n in services ==> services[n].dependsOn == []
    ensures Acyclic(services) && Closed(services)
  {
    assert forall x, y :: !Edge(services, x, y);
    forall p ensures !Cycle(services, p) {
      if Cycle(services, p) {
        CycleHasEdge(services, p);
      }
    }
  }

  lemma {:induction false} CycleHasEdge(services: Services, p: seq<string>)
    requires Cycle(services, p)
    ensures Edge(services, p[0], p[1])
  {
  }

  /** A service that keeps a replica count of zero. */
  function Idle(): Service {
    Bare("a").(image := "i", replicas := 0)
  }

  lemma {:induction false} IdleWritable()
    ensures Writable(Written(Idle(), []))
  {
    assert Token("a") && Token("i") && Unquoted("i");
  }

  lemma {:induction false} OneServiceRead(w: Written)
    requires Writable(w)
    ensures Parsed(Render([w])).Ok?
    ensures Parsed(Render([w])).value.services == map[w.service.name := w.service]
  {
    hide Writable, Render, Parsed;
    var s := w.service;
    assert ServicesOf([w]) == [s] && NamesDiffer([s]) && Names([s]) == [s.name];
    ParseRender([w]);
    var services := Parsed(Render([w])).value.services;
    assert [s][0].name in services && services[s.name] == s;
    assert services.Keys == {s.name};
  }

  /** A file that ParseCompose accepts and whose one service keeps its count of zero. */
  lemma {:induction false} ResetIsLost()
    ensures var p := Parsed(Render([Written(Idle(), [])]));
            && p.Ok? && Acyclic(p.value.services) && Closed(p.value.services) && AllHaveImages(p.value.services)
            && p.value.services != map[] && !AllCounted(p.value.services)
  {
    hide Parsed, Render, Acyclic, Closed, Writable;
    IdleWritable();
    OneServiceRead(Written(Idle(), []));
    var services := Parsed(Render([Written(Idle(), [])])).value.services;
    assert "a" in services && services["a"] == Idle();
    NoEdges(services);
  }
}
