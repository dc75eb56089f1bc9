/**
  The PID-1 script generated from an OCI image config (backend/internal/buildkit/initshim.go).

  The generator is a small compiler into POSIX sh.  The reference is an evaluator of
  the shell subset it emits, written from POSIX.1-2017 XCU: token recognition (section
  2.3), single quotes and backslash (sections 2.2.1 and 2.2.2), and the export, cd,
  exec and exit utilities.  The evaluator gives up (None) on every construct whose
  meaning would involve an expansion, so an answer means the text was literal.
  Which directories exist is a parameter.
 */
module InitShim {
  import opened Sequences
  import opened Strings
  import opened Wrappers

  datatype Error = NoCommand

  // ---------------------------------------------------------------------------
  // Shell tokens
  // ---------------------------------------------------------------------------

  datatype Token = Word(text: string) | NewLine | OrIf

  /** Characters taken literally wherever they stand; any other needs quoting here. */
  predicate Plain(c: char) {
    NameStart(c) || Digit(c) || c == '/' || c == ':' || c == '=' || c == '.' || c == '-' || c == ','
  }

  function Grow(cur: Option<string>, s: string): Option<string> {
    Some((if cur.Some? then cur.value else "") + s)
  }

  function Flush(cur: Option<string>, acc: seq<Token>): seq<Token> {
    if cur.Some? then acc + [Word(cur.value)] else acc
  }

  /** `quoted` says whether the position is inside single quotes; `cur` is the word being built. */
  function Lex(s: string, quoted: bool, cur: Option<string>, acc: seq<Token>): Option<seq<Token>> {
    if s == [] then
      if quoted then None else Some(Flush(cur, acc))
    else
      var c, rest := s[0], s[1..];
      if c == '\0' then None
      else if quoted then
        if c == '\'' then Lex(rest, false, cur, acc) else Lex(rest, true, Grow(cur, [c]), acc)
      else if c == '\'' then Lex(rest, true, Grow(cur, ""), acc)
      else if c == '\\' then
        if rest == [] || rest[0] == '\0' then None
        else if rest[0] == '\n' then Lex(rest[1..], false, cur, acc)
        else Lex(rest[1..], false, Grow(cur, [rest[0]]), acc)
      else if c == ' ' || c == '\t' then Lex(rest, false, None, Flush(cur, acc))
      else if c == '\n' then Lex(rest, false, None, Flush(cur, acc) + [NewLine])
      else if c == '|' then
        if rest == [] || rest[0] != '|' then None
        else Lex(rest[1..], false, None, Flush(cur, acc) + [OrIf])
      else if Plain(c) then Lex(rest, false, Grow(cur, [c]), acc)
      else None
  }

  function Tokens(s: string): Option<seq<Token>> {
    Lex(s, false, None, [])
  }

  // ---------------------------------------------------------------------------
  // Shell execution
  // ---------------------------------------------------------------------------

  datatype Shell = Shell(env: map<string, string>, cwd: string)

  /**
    `Execed`: the shell hands over to a program.  `Aborted`: it exits on a usage error of a
    special built-in.  `Ended`: it reached the end of the script.
   */
  datatype Outcome =
    | Execed(argv: seq<string>, env: map<string, string>, cwd: string)
    | Exited(code: int)
    | Aborted
    | Ended

  datatype Effect = Done(sh: Shell, success: bool) | Stop(outcome: Outcome)

  /** The part before and after the first `=`, or None without one. */
  function Cut(s: string): (r: Option<(string, string)>)
    ensures r.Some? ==> s == r.value.0 + "=" + r.value.1 && '=' !in r.value.0
    ensures r.None? ==> '=' !in s
  {
    if s == [] then None
    else if s[0] == '=' then Some(("", s[1..]))
    else
      var r := Cut(s[1..]);
      if r.None? then None else Some(([s[0]] + r.value.0, r.value.1))
  }

  predicate NameStart(c: char) {
    c == '_' || 'A' <= c <= 'Z' || 'a' <= c <= 'z'
  }

  predicate Digit(c: char) {
    '0' <= c <= '9'
  }

  /** A name in the sense of POSIX.1-2017 XBD section 3.235. */
  predicate IsName(k: string) {
    k != "" && NameStart(k[0]) && forall i :: 0 <= i < |k| ==> NameStart(k[i]) || Digit(k[i])
  }

  /** Where an absolute path leads: the name of the directory there, None when there is none. */
  type Dirs = string -> Option<string>

  function Join(dir: string, path: string): string {
    if dir != "" && dir[|dir| - 1] == '/' then dir + path else dir + "/" + path
  }

  /** A path as seen from the working directory. */
  function At(cwd: string, path: string): string {
    if path != "" && path[0] == '/' then path else Join(cwd, path)
  }

  predicate DotPath(d: string) {
    d == "." || d == ".." || "./" <= d || "../" <= d
  }

  /** `--`, or any of the options `-L` and `-P` together. */
  predicate CdOptions(w: string) {
    |w| >= 2 && w[0] == '-' && (w == "--" || forall i :: 1 <= i < |w| ==> w[i] == 'L' || w[i] == 'P')
  }

  function Lookup(env: map<string, string>, k: string): Option<string> {
    if k in env && env[k] != "" then Some(env[k]) else None
  }

  /**
    What a lone cd argument stands for: itself, the previous directory for `-`, HOME when
    it is only options; another option is a usage error.
   */
  function Destination(w: string, env: map<string, string>): Option<string> {
    if w == "-" then Lookup(env, "OLDPWD")
    else if w == "" || w[0] != '-' then Some(w)
    else if CdOptions(w) then Lookup(env, "HOME")
    else None
  }

  /** The paths CDPATH puts before a destination; an empty entry is the working directory. */
  function Detours(d: string, env: map<string, string>): seq<string> {
    if (d != "" && d[0] == '/') || DotPath(d) || "CDPATH" !in env then []
    else
      var entries := Split(env["CDPATH"], ':');
      seq(|entries|, i requires 0 <= i < |entries| => if entries[i] == "" then d else Join(entries[i], d))
  }

  /** The paths cd tries, in order. */
  function Candidates(d: string, env: map<string, string>): seq<string> {
    Detours(d, env) + [d]
  }

  function FirstDir(paths: seq<string>, cwd: string, dir: Dirs): Option<string> {
    if paths == [] then None
    else if dir(At(cwd, paths[0])).Some? then dir(At(cwd, paths[0]))
    else FirstDir(paths[1..], cwd, dir)
  }

  /** The directory cd changes to, None when it fails. */
  function Entered(w: string, sh: Shell, dir: Dirs): Option<string> {
    var d := Destination(w, sh.env);
    if d.None? then None else FirstDir(Candidates(d.value, sh.env), sh.cwd, dir)
  }

  /** A successful cd also sets PWD and OLDPWD. */
  function Moved(sh: Shell, d: string): Shell {
    Shell(sh.env["PWD" := d]["OLDPWD" := sh.cwd], d)
  }

  /** exec discards a leading `--`; it takes no options, and without a command it changes nothing. */
  function Exec(argv: seq<string>, sh: Shell): Effect {
    if argv == [] || argv == ["--"] then Done(sh, true)
    else if argv[0] == "--" then Stop(Execed(argv[1..], sh.env, sh.cwd))
    else if !Operand(argv[0]) then Stop(Aborted)
    else Stop(Execed(argv, sh.env, sh.cwd))
  }

  /** No option and no `--`; a lone `-` is an operand. */
  predicate Operand(w: string) {
    |w| < 2 || w[0] != '-'
  }

  function Simple(ws: seq<string>, sh: Shell, dir: Dirs): Option<Effect> {
    if ws == [] then None
    else if ws[0] == "export" then
      if |ws| != 2 || Cut(ws[1]).None? || !IsName(Cut(ws[1]).value.0) then None
      else
        var (k, v) := Cut(ws[1]).value;
        Some(Done(sh.(env := sh.env[k := v]), true))
    else if ws[0] == "cd" then
      if |ws| != 2 || ws[1] == "" then None
      else
        var d := Entered(ws[1], sh, dir);
        Some(if d.Some? then Done(Moved(sh, d.value), true) else Done(sh, false))
    else if ws[0] == "exec" then Some(Exec(ws[1..], sh))
    else if ws == ["exit", "1"] then Some(Stop(Exited(1)))
    else None
  }

  function Texts(toks: seq<Token>): Option<seq<string>> {
    if toks == [] then Some([])
    else if !toks[|toks| - 1].Word? then None
    else
      var ws := Texts(toks[..|toks| - 1]);
      if ws.None? then None else Some(ws.value + [toks[|toks| - 1].text])
  }

  function Find(toks: seq<Token>, t: Token): (n: nat)
    ensures n <= |toks| && (n < |toks| ==> toks[n] == t)
  {
    if toks == [] || toks[0] == t then 0 else 1 + Find(toks[1..], t)
  }

  /** One line: a simple command, or two joined by `||`. */
  function Line(toks: seq<Token>, sh: Shell, dir: Dirs): Option<Effect> {
    var n := Find(toks, OrIf);
    var left := Texts(toks[..n]);
    if left.None? then None
    else
      var e := Simple(left.value, sh, dir);
      if n == |toks| || e.None? || e.value.Stop? || e.value.success then e
      else
        var right := Texts(toks[n + 1..]);
        if right.None? then None else Simple(right.value, e.value.sh, dir)
  }

  /** Runs lines until one ends the shell; an unfinished last line is outside the subset. */
  function Run(toks: seq<Token>, sh: Shell, dir: Dirs): Option<Outcome>
    decreases |toks|
  {
    var n := Find(toks, NewLine);
    if toks == [] then Some(Ended)
    else if n == |toks| then None
    else
      var e := Line(toks[..n], sh, dir);
      if e.None? then None
      else if e.value.Stop? then Some(e.value.outcome)
      else Run(toks[n + 1..], e.value.sh, dir)
  }

  function Eval(script: string, sh: Shell, dir: Dirs): Option<Outcome> {
    var toks := Tokens(script);
    if toks.None? then None else Run(toks.value, sh, dir)
  }

  // ---------------------------------------------------------------------------
  // The generated text
  // ---------------------------------------------------------------------------

  /** strings.ReplaceAll of each single quote. */
  function Escape(s: string): string {
    if s == [] then "" else (if s[0] == '\'' then "'\\''" else [s[0]]) + Escape(s[1..])
  }

  function ShQuote(s: string): string {
    "'" + Escape(s) + "'"
  }

  /** Shebang, comment and mounts: the same for every image. */
  ghost function Preamble(): string {
    "#!/bin/sh\n# generated by porter: OCI config -> PID 1\n" +
    "mount -t proc proc /proc 2>/dev/null\n" +
    "mount -t sysfs sys /sys 2>/dev/null\n" +
    "mount -t devtmpfs dev /dev 2>/dev/null\n" +
    "mkdir -p /dev/pts /dev/shm && mount -t devpts devpts /dev/pts 2>/dev/null\n" +
    "mount -t tmpfs tmpfs /tmp 2>/dev/null\n"
  }

  const DEFAULT_PATH := "/usr/local/sbin" + ":/usr/local/bin" + ":/usr/sbin" + ":/usr/bin" + ":/sbin" + ":/bin"

  /** An image entry that is exported: it has a `=` and a legal name before it. */
  predicate Exported(kv: string) {
    Cut(kv).Some? && IsName(Cut(kv).value.0)
  }

  function ExportLine(kv: string): string {
    if Exported(kv) then "export " + Cut(kv).value.0 + "=" + ShQuote(Cut(kv).value.1) + "\n" else ""
  }

  function Exports(env: seq<string>): string {
    if env == [] then "" else Exports(env[..|env| - 1]) + ExportLine(env[|env| - 1])
  }

  function CdLine(workdir: string): string {
    if workdir == "" then "" else "cd " + ShQuote(workdir) + " || exit 1\n"
  }

  function Args(argv: seq<string>): string {
    if argv == [] then "" else Args(argv[..|argv| - 1]) + (" " + ShQuote(argv[|argv| - 1]))
  }

  function PathLine(): string {
    "export PATH=" + DEFAULT_PATH + "\n"
  }

  /** Everything after the mounts. */
  function Tail(argv: seq<string>, env: seq<string>, workdir: string): string {
    PathLine() + Exports(env) + CdLine(workdir) + "exec" + Args(argv) + "\n"
  }

  // ---------------------------------------------------------------------------
  // What the script is meant to do
  // ---------------------------------------------------------------------------

  /** The image entries, one after the other, over the inherited environment and PATH. */
  function EnvOf(inherited: map<string, string>, env: seq<string>): map<string, string> {
    if env == [] then inherited["PATH" := DEFAULT_PATH]
    else
      var low, kv := EnvOf(inherited, env[..|env| - 1]), env[|env| - 1];
      if Exported(kv) then low[Cut(kv).value.0 := Cut(kv).value.1] else low
  }

  predicate Sets(kv: string, k: string) {
    Exported(kv) && Cut(kv).value.0 == k
  }

  /** Later entries win: a name has the value of the last entry that sets it. */
  lemma {:induction false} LastEntryWins(inherited: map<string, string>, env: seq<string>, k: string, i: nat)
    requires i < |env| && Sets(env[i], k) && forall j :: i < j < |env| ==> !Sets(env[j], k)
    ensures k in EnvOf(inherited, env) && EnvOf(inherited, env)[k] == Cut(env[i]).value.1
    decreases |env|
  {
    hide Cut, IsName;
    if i < |env| - 1 {
      LastEntryWins(inherited, env[..|env| - 1], k, i);
      assert !Sets(env[|env| - 1], k);
    }
  }

  /** Entries that are dropped, and names no entry sets, leave the environment as it was. */
  lemma {:induction false} OtherNamesKept(inherited: map<string, string>, env: seq<string>, k: string)
    requires forall i :: 0 <= i < |env| ==> !Sets(env[i], k)
    ensures var path := "/usr/local/sbin" + ":/usr/local/bin" + ":/usr/sbin" + ":/usr/bin" + ":/sbin" + ":/bin";
            var base := inherited["PATH" := path];
            (k in EnvOf(inherited, env) <==> k in base) && (k in base ==> EnvOf(inherited, env)[k] == base[k])
  {
    hide Cut, IsName;
    if env != [] {
      OtherNamesKept(inherited, env[..|env| - 1], k);
      assert !Sets(env[|env| - 1], k);
    }
  }

  predicate NulFree(s: string) {
    '\0' !in s
  }

  ghost predicate AllNulFree(ss: seq<string>) {
    forall i :: 0 <= i < |ss| ==> NulFree(ss[i])
  }

  // ---------------------------------------------------------------------------
  // Lexing the generated text
  // ---------------------------------------------------------------------------

  lemma {:induction false} GrowTwice(cur: Option<string>, a: string, b: string)
    ensures Grow(Grow(cur, a), b) == Grow(cur, a + b)
  {
    var base := if cur.Some? then cur.value else "";
    assert base + a + b == base + (a + b);
  }

  lemma {:induction false} LexPlain(w: string, rest: string, cur: Option<string>, acc: seq<Token>)
    requires w != "" && forall i :: 0 <= i < |w| ==> Plain(w[i])
    ensures Lex(w + rest, false, cur, acc) == Lex(rest, false, Grow(cur, w), acc)
  {
    assert (w + rest)[1..] == w[1..] + rest;
    if |w| == 1 {
      assert w == [w[0]] && w[1..] + rest == rest;
    } else {
      LexPlain(w[1..], rest, Grow(cur, [w[0]]), acc);
      GrowTwice(cur, [w[0]], w[1..]);
      assert [w[0]] + w[1..] == w;
    }
  }

  /** Inside single quotes, up to and including the closing one. */
  lemma {:induction false} LexQuoted(s: string, rest: string, cur: Option<string>, acc: seq<Token>)
    requires NulFree(s) && cur.Some?
    ensures Lex(Escape(s) + "'" + rest, true, cur, acc) == Lex(rest, false, Grow(cur, s), acc)
  {
    if s == [] {
      assert ("'" + rest)[1..] == rest && Escape(s) + "'" + rest == "'" + rest;
      assert Grow(cur, "") == Some(cur.value + "");
      assert cur.value + "" == cur.value;
    } else {
      var c := s[0];
      var tail := Escape(s[1..]) + "'" + rest;
      LexQuoted(s[1..], rest, Grow(cur, [c]), acc);
      GrowTwice(cur, [c], s[1..]);
      assert [c] + s[1..] == s;
      if c == '\'' {
        LexEscapedQuote(tail, cur, acc);
        assert Escape(s) + "'" + rest == "'\\''" + tail;
      } else {
        assert Escape(s) + "'" + rest == [c] + tail;
        assert ([c] + tail)[1..] == tail;
      }
    }
  }

  /** The four characters that stand for a single quote inside a quoted string. */
  lemma {:induction false} LexEscapedQuote(tail: string, cur: Option<string>, acc: seq<Token>)
    requires cur.Some?
    ensures Lex("'\\''" + tail, true, cur, acc) == Lex(tail, true, Grow(cur, "'"), acc)
  {
    var s := "'\\''" + tail;
    var s1, s2 := "\\''" + tail, "'" + tail;
    assert s[1..] == s1 && s1[1..][1..] == s2 && s2[1..] == tail;
    assert s1[0] == '\\' && s1[1..][0] == '\'';
    var grown := Grow(cur, "'");
    assert Lex(s1, false, cur, acc) == Lex(s2, false, grown, acc);
    assert Lex(s2, false, grown, acc) == Lex(tail, true, Grow(grown, ""), acc);
    assert Grow(grown, "") == grown by {
      assert grown.value + "" == grown.value;
    }
  }

  lemma {:induction false} LexShQuote(s: string, rest: string, cur: Option<string>, acc: seq<Token>)
    requires NulFree(s)
    ensures Lex(ShQuote(s) + rest, false, cur, acc) == Lex(rest, false, Grow(cur, s), acc)
  {
    var body := Escape(s) + "'" + rest;
    assert ShQuote(s) + rest == "'" + body && ("'" + body)[1..] == body;
    LexQuoted(s, rest, Grow(cur, ""), acc);
    GrowTwice(cur, "", s);
    assert "" + s == s;
  }

  lemma {:induction false} LexBreak(c: char, rest: string, cur: Option<string>, acc: seq<Token>)
    requires c == ' ' || c == '\n'
    ensures Lex([c] + rest, false, cur, acc) ==
            Lex(rest, false, None, if c == '\n' then Flush(cur, acc) + [NewLine] else Flush(cur, acc))
  {
    assert ([c] + rest)[1..] == rest;
  }

  // ---------------------------------------------------------------------------
  // Lines of the script as tokens
  // ---------------------------------------------------------------------------

  function ExportTokens(kv: string): seq<Token> {
    if Exported(kv) then [Word("export"), Word(kv), NewLine] else []
  }

  lemma {:induction false} NameIsPlain(k: string)
    requires IsName(k)
    ensures forall i :: 0 <= i < |k + "="| ==> Plain((k + "=")[i])
  {
    forall i | 0 <= i < |k| ensures Plain(k[i]) {
      assert NameStart(k[i]) || Digit(k[i]);
    }
  }

  lemma {:induction false} LexWordThen(w: string, c: char, rest: string, acc: seq<Token>)
    requires w != "" && (forall i :: 0 <= i < |w| ==> Plain(w[i])) && (c == ' ' || c == '\n')
    ensures Lex(w + [c] + rest, false, None, acc) ==
            Lex(rest, false, None, if c == '\n' then acc + [Word(w)] + [NewLine] else acc + [Word(w)])
  {
    hide Lex;
    assert w + [c] + rest == w + ([c] + rest);
    LexPlain(w, [c] + rest, None, acc);
    LexBreak(c, rest, Grow(None, w), acc);
    assert "" + w == w;
  }

  lemma {:induction false} LexExportLine(kv: string, rest: string, acc: seq<Token>)
    requires NulFree(kv)
    ensures Lex(ExportLine(kv) + rest, false, None, acc) == Lex(rest, false, None, acc + ExportTokens(kv))
  {
    hide Lex, ShQuote, IsName;
    if Exported(kv) {
      var (k, v) := Cut(kv).value;
      assert NulFree(v);
      NameIsPlain(k);
      var after := "\n" + rest;
      var value := ShQuote(v) + after;
      var pair := k + "=" + value;
      assert ExportLine(kv) + rest == "export" + [' '] + pair;
      LexWordThen("export", ' ', pair, acc);
      var acc1 := acc + [Word("export")];
      assert pair == (k + "=") + value;
      LexPlain(k + "=", value, None, acc1);
      assert Grow(None, k + "=") == Some(k + "=") by {
        assert "" + (k + "=") == k + "=";
      }
      LexShQuote(v, after, Some(k + "="), acc1);
      assert Grow(Some(k + "="), v) == Some(kv);
      LexBreak('\n', rest, Some(kv), acc1);
      assert acc1 + [Word(kv)] + [NewLine] == acc + ExportTokens(kv);
    } else {
      assert ExportLine(kv) + rest == rest && acc + ExportTokens(kv) == acc;
    }
  }

  function ExportsTokens(env: seq<string>): seq<Token> {
    if env == [] then [] else ExportsTokens(env[..|env| - 1]) + ExportTokens(env[|env| - 1])
  }

  lemma {:induction false} LexExports(env: seq<string>, rest: string, acc: seq<Token>)
    requires AllNulFree(env)
    ensures Lex(Exports(env) + rest, false, None, acc) == Lex(rest, false, None, acc + ExportsTokens(env))
  {
    hide Lex, ExportLine, ExportTokens;
    if env == [] {
      assert Exports(env) + rest == rest && acc + ExportsTokens(env) == acc;
    } else {
      var init, kv := env[..|env| - 1], env[|env| - 1];
      assert Exports(env) + rest == Exports(init) + (ExportLine(kv) + rest);
      LexExports(init, ExportLine(kv) + rest, acc);
      LexExportLine(kv, rest, acc + ExportsTokens(init));
      assert acc + ExportsTokens(init) + ExportTokens(kv) == acc + ExportsTokens(env);
    }
  }

  function CdTokens(workdir: string): seq<Token> {
    if workdir == "" then []
    else [Word("cd"), Word(workdir), OrIf, Word("exit"), Word("1"), NewLine]
  }

  lemma {:induction false} LexOr(rest: string, acc: seq<Token>)
    ensures Lex("|| " + rest, false, None, acc) == Lex(rest, false, None, acc + [OrIf])
  {
    var s := "|| " + rest;
    assert s[1..][1..] == " " + rest;
    assert Lex(s, false, None, acc) == Lex(" " + rest, false, None, acc + [OrIf]);
    LexBreak(' ', rest, None, acc + [OrIf]);
  }

  lemma {:induction false} CdText(workdir: string, rest: string)
    requires workdir != ""
    ensures CdLine(workdir) + rest ==
            "cd" + [' '] + (ShQuote(workdir) + ([' '] + ("|| " + ("exit" + [' '] + ("1" + ['\n'] + rest)))))
  {
    hide ShQuote;
    assert " || exit 1\n" == [' '] + ("|| " + ("exit" + [' '] + ("1" + ['\n'])));
  }

  lemma {:induction false} LexCd(workdir: string, rest: string, acc: seq<Token>)
    requires NulFree(workdir)
    ensures Lex(CdLine(workdir) + rest, false, None, acc) == Lex(rest, false, None, acc + CdTokens(workdir))
  {
    hide Lex, ShQuote;
    if workdir == "" {
      assert CdLine(workdir) + rest == rest && acc + CdTokens(workdir) == acc;
    } else {
      var last := "1" + ['\n'] + rest;
      var exit1 := "exit" + [' '] + last;
      var or := "|| " + exit1;
      var operand := ShQuote(workdir) + ([' '] + or);
      CdText(workdir, rest);
      hide CdLine;
      LexWordThen("cd", ' ', operand, acc);
      var a1 := acc + [Word("cd")];
      LexShQuote(workdir, [' '] + or, None, a1);
      assert Grow(None, workdir) == Some(workdir) by {
        assert "" + workdir == workdir;
      }
      LexBreak(' ', or, Some(workdir), a1);
      var a2 := a1 + [Word(workdir)];
      LexOr(exit1, a2);
      var a3 := a2 + [OrIf];
      LexWordThen("exit", ' ', last, a3);
      LexWordThen("1", '\n', rest, a3 + [Word("exit")]);
      assert a3 + [Word("exit")] + [Word("1")] + [NewLine] == acc + CdTokens(workdir);
    }
  }

  function Words(argv: seq<string>): seq<Token> {
    seq(|argv|, i requires 0 <= i < |argv| => Word(argv[i]))
  }

  lemma {:induction false} ArgsCons(argv: seq<string>)
    requires argv != []
    ensures Args(argv) == " " + ShQuote(argv[0]) + Args(argv[1..])
  {
    hide ShQuote;
    if |argv| == 1 {
      assert argv[..0] == [] && argv[1..] == [];
    } else {
      var init, a := argv[..|argv| - 1], argv[|argv| - 1];
      ArgsCons(init);
      assert argv[1..][..|argv| - 2] == init[1..];
      Assoc(" " + ShQuote(argv[0]), Args(init[1..]), " " + ShQuote(a));
    }
  }

  lemma {:induction false} LexArg(a: string, rest: string, last: string, acc: seq<Token>)
    requires NulFree(a)
    ensures Lex(" " + ShQuote(a) + rest, false, Some(last), acc) == Lex(rest, false, Some(a), acc + [Word(last)])
  {
    hide Lex, ShQuote;
    assert " " + ShQuote(a) + rest == [' '] + (ShQuote(a) + rest);
    LexBreak(' ', ShQuote(a) + rest, Some(last), acc);
    LexShQuote(a, rest, None, acc + [Word(last)]);
    assert "" + a == a;
  }

  /** `last` is the word before the arguments, still unfinished when they begin. */
  lemma {:induction false} LexArgs(argv: seq<string>, last: string, acc: seq<Token>)
    requires AllNulFree(argv)
    ensures Lex(Args(argv) + "\n", false, Some(last), acc) == Some(acc + ([Word(last)] + Words(argv) + [NewLine]))
  {
    if argv == [] {
      LexBreak('\n', "", Some(last), acc);
      assert Args(argv) + "\n" == ['\n'] + "";
      assert acc + [Word(last)] + [NewLine] == acc + ([Word(last)] + Words(argv) + [NewLine]);
    } else {
      hide Lex, ShQuote, Args;
      ArgsCons(argv);
      Assoc(" " + ShQuote(argv[0]), Args(argv[1..]), "\n");
      LexArg(argv[0], Args(argv[1..]) + "\n", last, acc);
      LexArgs(argv[1..], argv[0], acc + [Word(last)]);
      assert acc + [Word(last)] + ([Word(argv[0])] + Words(argv[1..]) + [NewLine])
          == acc + ([Word(last)] + Words(argv) + [NewLine]);
    }
  }

  function PathTokens(): seq<Token> {
    [Word("export"), Word("PATH=" + DEFAULT_PATH), NewLine]
  }

  function ExecTokens(argv: seq<string>): seq<Token> {
    [Word("exec")] + Words(argv) + [NewLine]
  }

  predicate AllPlain(w: string) {
    forall i :: 0 <= i < |w| ==> Plain(w[i])
  }

  lemma {:induction false} PathIsPlain()
    ensures AllPlain("PATH=" + DEFAULT_PATH)
  {
    assert AllPlain("PATH=");
    assert AllPlain("/usr/local/sbin");
    assert AllPlain(":/usr/local/bin");
    assert AllPlain(":/usr/sbin");
    assert AllPlain(":/usr/bin");
    assert AllPlain(":/sbin");
    assert AllPlain(":/bin");
    hide AllPlain;
    PlainJoin("/usr/local/sbin", ":/usr/local/bin");
    PlainJoin("/usr/local/sbin" + ":/usr/local/bin", ":/usr/sbin");
    PlainJoin("/usr/local/sbin" + ":/usr/local/bin" + ":/usr/sbin", ":/usr/bin");
    PlainJoin("/usr/local/sbin" + ":/usr/local/bin" + ":/usr/sbin" + ":/usr/bin", ":/sbin");
    PlainJoin("/usr/local/sbin" + ":/usr/local/bin" + ":/usr/sbin" + ":/usr/bin" + ":/sbin", ":/bin");
    PlainJoin("PATH=", DEFAULT_PATH);
  }

  lemma {:induction false} PlainJoin(a: string, b: string)
    requires AllPlain(a) && AllPlain(b)
    ensures AllPlain(a + b)
  {
  }

  lemma {:induction false} LexPath(rest: string, acc: seq<Token>)
    ensures Lex(PathLine() + rest, false, None, acc) ==
            Lex(rest, false, None, acc + PathTokens())
  {
    hide Lex;
    var word := "PATH=" + DEFAULT_PATH;
    var tail := word + ['\n'] + rest;
    assert "export PATH=" == "export " + "PATH=";
    assert PathLine() + rest == "export" + [' '] + tail;
    LexWordThen("export", ' ', tail, acc);
    PathIsPlain();
    LexWordThen(word, '\n', rest, acc + [Word("export")]);
    assert acc + [Word("export")] + [Word(word)] + [NewLine] == acc + PathTokens();
  }

  lemma {:induction false} LexExec(argv: seq<string>, acc: seq<Token>)
    requires AllNulFree(argv)
    ensures Lex("exec" + Args(argv) + "\n", false, None, acc) == Some(acc + ExecTokens(argv))
  {
    hide Lex, Args;
    Assoc("exec", Args(argv), "\n");
    LexPlain("exec", Args(argv) + "\n", None, acc);
    assert "" + "exec" == "exec";
    LexArgs(argv, "exec", acc);
  }

  function ScriptTokens(argv: seq<string>, env: seq<string>, workdir: string): seq<Token> {
    PathTokens() + (ExportsTokens(env) + (CdTokens(workdir) + ExecTokens(argv)))
  }

  lemma {:induction false} LexTail(argv: seq<string>, env: seq<string>, workdir: string)
    requires AllNulFree(argv) && AllNulFree(env) && NulFree(workdir)
    ensures Tokens(Tail(argv, env, workdir)) == Some(ScriptTokens(argv, env, workdir))
  {
    hide Lex, PathLine, Exports, CdLine, Args, PathTokens, ExportsTokens, CdTokens, ExecTokens;
    var t3 := "exec" + Args(argv) + "\n";
    var t2 := CdLine(workdir) + t3;
    var t1 := Exports(env) + t2;
    assert Tail(argv, env, workdir) == PathLine() + t1;
    LexPath(t1, []);
    var a1 := [] + PathTokens();
    LexExports(env, t2, a1);
    var a2 := a1 + ExportsTokens(env);
    LexCd(workdir, t3, a2);
    var a3 := a2 + CdTokens(workdir);
    LexExec(argv, a3);
    assert a3 + ExecTokens(argv) == ScriptTokens(argv, env, workdir);
  }

  // ---------------------------------------------------------------------------
  // Running the tokens
  // ---------------------------------------------------------------------------

  lemma {:induction false} FindFirst(a: seq<Token>, t: Token, b: seq<Token>)
    requires t !in a
    ensures Find(a + [t] + b, t) == |a|
  {
    if a != [] {
      FindFirst(a[1..], t, b);
      assert (a + [t] + b)[1..] == a[1..] + [t] + b;
    }
  }

  lemma {:induction false} FindNone(a: seq<Token>, t: Token)
    requires t !in a
    ensures Find(a, t) == |a|
  {
    if a != [] {
      FindNone(a[1..], t);
    }
  }

  lemma {:induction false} TextsOfWords(ws: seq<string>)
    ensures Texts(Words(ws)) == Some(ws)
  {
    if ws != [] {
      var init := ws[..|ws| - 1];
      TextsOfWords(init);
      assert Words(ws)[..|ws| - 1] == Words(init);
      assert init + [ws[|ws| - 1]] == ws;
    } else {
      assert Words(ws) == [];
    }
  }

  lemma {:induction false} RunLine(ws: seq<string>, more: seq<Token>, sh: Shell, dir: Dirs)
    ensures Run(Words(ws) + [NewLine] + more, sh, dir) ==
            match Simple(ws, sh, dir)
            case None => None
            case Some(Stop(o)) => Some(o)
            case Some(Done(sh', _)) => Run(more, sh', dir)
  {
    hide Simple, Texts, Find;
    var toks := Words(ws) + [NewLine] + more;
    FindFirst(Words(ws), NewLine, more);
    FindNone(Words(ws), OrIf);
    TextsOfWords(ws);
    assert toks[..|ws|] == Words(ws) && toks[|ws| + 1..] == more;
    assert Words(ws)[..|ws|] == Words(ws);
    assert Line(Words(ws), sh, dir) == Simple(ws, sh, dir);
  }

  /** Two commands joined by `||`: the second runs exactly when the first one fails. */
  function OrElse(l: seq<string>, r: seq<string>, sh: Shell, dir: Dirs): Option<Effect> {
    var e := Simple(l, sh, dir);
    if e.None? || e.value.Stop? || e.value.success then e else Simple(r, e.value.sh, dir)
  }

  lemma {:induction false} LineOr(l: seq<string>, r: seq<string>, sh: Shell, dir: Dirs)
    ensures Line(Words(l) + [OrIf] + Words(r), sh, dir) == OrElse(l, r, sh, dir)
  {
    hide Simple, Texts, Find;
    var line := Words(l) + [OrIf] + Words(r);
    FindFirst(Words(l), OrIf, Words(r));
    TextsOfWords(l);
    TextsOfWords(r);
    assert line[..|l|] == Words(l) && line[|l| + 1..] == Words(r);
  }

  lemma {:induction false} RunOrLine(l: seq<string>, r: seq<string>, more: seq<Token>, sh: Shell, dir: Dirs)
    ensures Run(Words(l) + [OrIf] + Words(r) + [NewLine] + more, sh, dir) ==
            match OrElse(l, r, sh, dir)
            case None => None
            case Some(Stop(o)) => Some(o)
            case Some(Done(sh', _)) => Run(more, sh', dir)
  {
    hide OrElse, Line, Find;
    var line := Words(l) + [OrIf] + Words(r);
    var toks := line + [NewLine] + more;
    FindFirst(line, NewLine, more);
    LineOr(l, r, sh, dir);
    assert toks[..|line|] == line && toks[|line| + 1..] == more;
  }

  lemma {:induction false} CutPair(k: string, v: string)
    requires '=' !in k
    ensures Cut(k + "=" + v) == Some((k, v))
  {
    var s := k + "=" + v;
    if k == "" {
      assert s[1..] == v;
    } else {
      CutPair(k[1..], v);
      assert s[1..] == k[1..] + "=" + v;
      assert [k[0]] + k[1..] == k;
    }
  }

  lemma {:induction false} RunExports(env: seq<string>, more: seq<Token>, inherited: map<string, string>,
                                      cwd: string, dir: Dirs)
    ensures Run(PathTokens() + (ExportsTokens(env) + more), Shell(inherited, cwd), dir) ==
            Run(more, Shell(EnvOf(inherited, env), cwd), dir)
  {
    hide Run, Cut;
    if env == [] {
      var ws := ["export", "PATH=" + DEFAULT_PATH];
      assert "PATH=" == "PATH" + "=";
      CutPair("PATH", DEFAULT_PATH);
      RunLine(ws, more, Shell(inherited, cwd), dir);
      assert Words(ws) == [Word("export"), Word("PATH=" + DEFAULT_PATH)];
      assert PathTokens() + (ExportsTokens(env) + more) == Words(ws) + [NewLine] + more;
    } else {
      var init, kv := env[..|env| - 1], env[|env| - 1];
      var sh := Shell(EnvOf(inherited, init), cwd);
      var tail := ExportTokens(kv) + more;
      assert ExportsTokens(env) + more == ExportsTokens(init) + tail;
      RunExports(init, tail, inherited, cwd, dir);
      if Exported(kv) {
        var ws := ["export", kv];
        RunLine(ws, more, sh, dir);
        assert Words(ws) == [Word("export"), Word(kv)];
        assert tail == Words(ws) + [NewLine] + more;
      } else {
        assert tail == more;
      }
    }
  }

  /** How the script ends once the environment is set and the directory entered. */
  function HandOver(argv: seq<string>, sh: Shell): Outcome {
    var e := Exec(argv, sh);
    if e.Stop? then e.outcome else Ended
  }

  lemma {:induction false} RunNothing(sh: Shell, dir: Dirs)
    ensures Run([], sh, dir) == Some(Ended)
  {
  }

  lemma {:induction false} RunExec(argv: seq<string>, sh: Shell, dir: Dirs)
    ensures Run(ExecTokens(argv), sh, dir) == Some(HandOver(argv, sh))
  {
    var ws := ["exec"] + argv;
    hide Run, Exec;
    if Exec(argv, sh).Done? {
      RunNothing(Exec(argv, sh).sh, dir);
    }
    RunLine(ws, [], sh, dir);
    assert Words(ws) + [NewLine] + [] == ExecTokens(argv);
    assert ws[0] == "exec" && ws[1..] == argv;
  }

  /** How the script ends for a working directory, from the shell that has made the exports. */
  function Outturn(argv: seq<string>, workdir: string, sh: Shell, dir: Dirs): Outcome {
    if workdir == "" then HandOver(argv, sh)
    else
      var d := Entered(workdir, sh, dir);
      if d.None? then Exited(1) else HandOver(argv, Moved(sh, d.value))
  }

  lemma {:induction false} RunCdExec(argv: seq<string>, workdir: string, sh: Shell, dir: Dirs)
    ensures Run(CdTokens(workdir) + ExecTokens(argv), sh, dir) == Some(Outturn(argv, workdir, sh, dir))
  {
    hide Run, Entered, Moved, ExecTokens, HandOver;
    RunExec(argv, sh, dir);
    if workdir == "" {
      assert CdTokens(workdir) + ExecTokens(argv) == ExecTokens(argv);
    } else {
      var l, r := ["cd", workdir], ["exit", "1"];
      assert l[0] != "export" && l[0] == "cd";
      assert r[0] != "export" && r[0] != "cd" && r[0] != "exec";
      RunOrLine(l, r, ExecTokens(argv), sh, dir);
      assert Words(l) == [Word("cd"), Word(workdir)] && Words(r) == [Word("exit"), Word("1")];
      assert CdTokens(workdir) + ExecTokens(argv) == Words(l) + [OrIf] + Words(r) + [NewLine] + ExecTokens(argv);
      var d := Entered(workdir, sh, dir);
      if d.Some? {
        RunExec(argv, Moved(sh, d.value), dir);
      }
    }
  }

  /**
    Evaluating the generated text under the shell's own rules makes exactly the image's
    exports, enters a directory and hands over, for all NUL-free strings: no character
    of an argument, a value or the working directory is lost or reinterpreted.
   */
  lemma {:induction false} ScriptRuns(argv: seq<string>, env: seq<string>, workdir: string,
                                      inherited: map<string, string>, cwd: string, dir: Dirs)
    requires AllNulFree(argv) && AllNulFree(env) && NulFree(workdir)
    ensures Eval(Tail(argv, env, workdir), Shell(inherited, cwd), dir) ==
            Some(Outturn(argv, workdir, Shell(EnvOf(inherited, env), cwd), dir))
  {
    hide Run, Tokens, Tail, PathTokens, ExportsTokens, CdTokens, ExecTokens, EnvOf, Outturn;
    LexTail(argv, env, workdir);
    RunExports(env, CdTokens(workdir) + ExecTokens(argv), inherited, cwd, dir);
    RunCdExec(argv, workdir, Shell(EnvOf(inherited, env), cwd), dir);
  }

  // ---------------------------------------------------------------------------
  // When the image runs as configured
  // ---------------------------------------------------------------------------

  /** `paths[i]` is the first of the paths that leads to a directory. */
  ghost predicate First(paths: seq<string>, cwd: string, dir: Dirs, i: nat) {
    && i < |paths| && dir(At(cwd, paths[i])).Some?
    && forall j :: 0 <= j < i ==> dir(At(cwd, paths[j])).None?
  }

  lemma {:induction false} FirstDirFound(paths: seq<string>, cwd: string, dir: Dirs, i: nat)
    requires First(paths, cwd, dir, i)
    ensures FirstDir(paths, cwd, dir) == dir(At(cwd, paths[i]))
  {
    if i > 0 {
      assert dir(At(cwd, paths[0])).None?;
      FirstDirFound(paths[1..], cwd, dir, i - 1);
    }
  }

  lemma {:induction false} FirstDirIndex(paths: seq<string>, cwd: string, dir: Dirs) returns (i: nat)
    requires FirstDir(paths, cwd, dir).Some?
    ensures First(paths, cwd, dir, i)
  {
    if dir(At(cwd, paths[0])).Some? {
      i := 0;
    } else {
      var k := FirstDirIndex(paths[1..], cwd, dir);
      i := k + 1;
      forall j | 0 <= j < i ensures dir(At(cwd, paths[j])).None? {
        assert j > 0 ==> paths[1..][j - 1] == paths[j];
      }
    }
  }

  /** The directory a configured path names from where the script starts. */
  function Named(cwd: string, path: string, dir: Dirs): Option<string> {
    dir(At(cwd, path))
  }

  /**
    The condition on a working directory: it exists, and the first existing path among
    those cd looks at is that very directory.
   */
  ghost predicate Reachable(workdir: string, env: map<string, string>, cwd: string, dir: Dirs) {
    && Named(cwd, workdir, dir).Some?
    && Destination(workdir, env).Some?
    && exists i: nat ::
         && First(Candidates(Destination(workdir, env).value, env), cwd, dir, i)
         && Named(cwd, Candidates(Destination(workdir, env).value, env)[i], dir) == Named(cwd, workdir, dir)
  }

  lemma {:induction false} EntersWhenReachable(workdir: string, sh: Shell, dir: Dirs)
    ensures Named(sh.cwd, workdir, dir).Some? && Entered(workdir, sh, dir) == Named(sh.cwd, workdir, dir) <==>
            Reachable(workdir, sh.env, sh.cwd, dir)
  {
    hide Destination, Candidates, At, FirstDir;
    var d := Destination(workdir, sh.env);
    if d.Some? {
      var paths := Candidates(d.value, sh.env);
      if FirstDir(paths, sh.cwd, dir).Some? {
        var i := FirstDirIndex(paths, sh.cwd, dir);
        FirstDirFound(paths, sh.cwd, dir, i);
      }
      forall i: nat | First(paths, sh.cwd, dir, i)
        ensures FirstDir(paths, sh.cwd, dir) == dir(At(sh.cwd, paths[i]))
      {
        FirstDirFound(paths, sh.cwd, dir, i);
      }
    }
  }

  /** The program runs with the image's argv, in the directory its config names. */
  ghost predicate RunsIn(o: Outcome, argv: seq<string>, workdir: string, cwd: string, dir: Dirs) {
    && o.Execed? && o.argv == argv
    && Some(o.cwd) == if workdir == "" then Some(cwd) else Named(cwd, workdir, dir)
  }

  lemma {:induction false} HandsOver(argv: seq<string>, sh: Shell)
    requires argv != []
    ensures HandOver(argv, sh).Execed? && HandOver(argv, sh).argv == argv <==> Operand(argv[0])
    ensures HandOver(argv, sh).Execed? ==> HandOver(argv, sh).env == sh.env && HandOver(argv, sh).cwd == sh.cwd
    ensures HandOver(argv, sh) != Exited(1)
  {
    assert |argv[1..]| < |argv|;
  }

  lemma {:induction false} OutturnAsConfigured(argv: seq<string>, workdir: string, sh: Shell, dir: Dirs)
    requires argv != []
    ensures RunsIn(Outturn(argv, workdir, sh, dir), argv, workdir, sh.cwd, dir) <==>
            Operand(argv[0]) && (workdir == "" || Reachable(workdir, sh.env, sh.cwd, dir))
  {
    hide Entered, Reachable, Operand, HandOver, Named;
    HandsOver(argv, sh);
    if workdir != "" {
      EntersWhenReachable(workdir, sh, dir);
      var d := Entered(workdir, sh, dir);
      if d.Some? {
        HandsOver(argv, Moved(sh, d.value));
      }
    }
  }

  /** What cd changes, and nothing else does: PWD and OLDPWD. */
  lemma {:induction false} OutturnEnv(argv: seq<string>, workdir: string, sh: Shell, dir: Dirs)
    requires argv != [] && Outturn(argv, workdir, sh, dir).Execed?
    ensures var o := Outturn(argv, workdir, sh, dir);
            && o.env == (if workdir == "" then sh.env else sh.env["PWD" := o.cwd]["OLDPWD" := sh.cwd])
  {
    hide Entered, HandOver;
    HandsOver(argv, sh);
    if workdir != "" {
      var d := Entered(workdir, sh, dir);
      if d.Some? {
        HandsOver(argv, Moved(sh, d.value));
      }
    }
  }

  lemma {:induction false} SameEnv(env: map<string, string>, d: string, cwd: string)
    ensures env["PWD" := d]["OLDPWD" := cwd] == env <==>
            "PWD" in env && "OLDPWD" in env && env["PWD"] == d && env["OLDPWD"] == cwd
  {
    var after := env["PWD" := d]["OLDPWD" := cwd];
    assert "PWD" != "OLDPWD" by {
      assert "PWD"[0] != "OLDPWD"[0];
    }
    assert "PWD" in after && after["PWD"] == d && "OLDPWD" in after && after["OLDPWD"] == cwd;
  }

  /**
    The generated script runs the image's argv in the directory its config names exactly
    when the first argument is an operand of exec and the directory is the one cd reaches.
    Whenever a program is run, every variable other than PWD and OLDPWD is as the image
    configures it, and the whole environment is exactly when no directory is configured
    or those two already have the values cd gives them.
   */
  lemma {:induction false} RunsAsConfigured(argv: seq<string>, env: seq<string>, workdir: string,
                                            inherited: map<string, string>, cwd: string, dir: Dirs)
    requires argv != [] && AllNulFree(argv) && AllNulFree(env) && NulFree(workdir)
    ensures Eval(Tail(argv, env, workdir), Shell(inherited, cwd), dir).Some?
    ensures var o, e := Eval(Tail(argv, env, workdir), Shell(inherited, cwd), dir).value, EnvOf(inherited, env);
            && (RunsIn(o, argv, workdir, cwd, dir) <==>
                Operand(argv[0]) && (workdir == "" || Reachable(workdir, e, cwd, dir)))
            && (o.Execed? ==>
                && (forall k :: k != "PWD" && k != "OLDPWD" ==>
                      (k in o.env <==> k in e) && (k in e ==> o.env[k] == e[k]))
                && (o.env == e <==>
                    workdir == "" || ("PWD" in e && "OLDPWD" in e && e["PWD"] == o.cwd && e["OLDPWD"] == cwd)))
  {
    hide Eval, Tail, EnvOf, Outturn, Reachable, RunsIn;
    ScriptRuns(argv, env, workdir, inherited, cwd, dir);
    var sh := Shell(EnvOf(inherited, env), cwd);
    var o := Outturn(argv, workdir, sh, dir);
    OutturnAsConfigured(argv, workdir, sh, dir);
    if o.Execed? {
      OutturnEnv(argv, workdir, sh, dir);
      SameEnv(sh.env, o.cwd, cwd);
    }
  }

  /**
    A working directory that is no option is reached as soon as it exists and no entry of
    CDPATH holds a directory of that name; an absolute or dotted one has no such entries.
   */
  lemma {:induction false} PlainWorkdir(workdir: string, env: map<string, string>, cwd: string, dir: Dirs)
    requires workdir != "" && workdir[0] != '-'
    requires forall p :: p in Detours(workdir, env) ==> dir(At(cwd, p)).None?
    ensures Reachable(workdir, env, cwd, dir) <==> Named(cwd, workdir, dir).Some?
  {
    hide Detours, At;
    var paths := Candidates(workdir, env);
    var n := |Detours(workdir, env)|;
    assert paths[n] == workdir;
    assert forall j :: 0 <= j < n ==> paths[j] in Detours(workdir, env);
    if Named(cwd, workdir, dir).Some? {
      assert First(paths, cwd, dir, n);
    }
  }

  /** An entry of CDPATH that does hold another directory of that name wins over the configured one. */
  lemma {:induction false} DetouredWorkdir(workdir: string, env: map<string, string>, cwd: string, dir: Dirs, i: nat)
    requires workdir != "" && workdir[0] != '-' && First(Candidates(workdir, env), cwd, dir, i)
    requires Named(cwd, Candidates(workdir, env)[i], dir) != Named(cwd, workdir, dir)
    ensures !Reachable(workdir, env, cwd, dir)
  {
    hide Candidates, At;
    var paths := Candidates(workdir, env);
    forall k: nat | First(paths, cwd, dir, k) ensures k == i {
    }
  }

  /**
    A working directory named "-" is never entered by that name: without OLDPWD in the
    environment the script exits, and otherwise it runs the program in OLDPWD's directory
    or exits when there is none.
   */
  lemma {:induction false} DashWorkdir(argv: seq<string>, env: seq<string>,
                                       inherited: map<string, string>, cwd: string, dir: Dirs)
    requires argv != [] && Operand(argv[0]) && AllNulFree(argv) && AllNulFree(env)
    ensures var o, e := Eval(Tail(argv, env, "-"), Shell(inherited, cwd), dir), EnvOf(inherited, env);
            match Lookup(e, "OLDPWD")
            case None => o == Some(Exited(1))
            case Some(previous) =>
              match FirstDir(Candidates(previous, e), cwd, dir)
              case None => o == Some(Exited(1))
              case Some(d) => o == Some(Execed(argv, e["PWD" := d]["OLDPWD" := cwd], d))
  {
    hide Eval, Tail, EnvOf, Candidates, FirstDir, Lookup;
    ScriptRuns(argv, env, "-", inherited, cwd, dir);
    var sh := Shell(EnvOf(inherited, env), cwd);
    assert Entered("-", sh, dir) ==
           if Lookup(sh.env, "OLDPWD").None? then None
           else FirstDir(Candidates(Lookup(sh.env, "OLDPWD").value, sh.env), cwd, dir);
    assert argv[0] != "--";
  }

  lemma {:induction false} LexEnd(w: string)
    ensures Lex("", false, Grow(None, w), []) == Some([Word(w)])
  {
    assert "" + w == w;
    assert [] + [Word(w)] == [Word(w)];
  }

  /** Quoting is injective: two values never share a quoted form. */
  lemma {:induction false} QuoteInjective(a: string, b: string)
    requires NulFree(a) && NulFree(b) && ShQuote(a) == ShQuote(b)
    ensures a == b
  {
    LexEnd(a);
    LexEnd(b);
    hide Lex;
    LexShQuote(a, "", None, []);
    LexShQuote(b, "", None, []);
    assert ShQuote(a) + "" == ShQuote(b) + "";
    assert [Word(a)][0] == [Word(b)][0];
  }

  // ---------------------------------------------------------------------------
  // The generator
  // ---------------------------------------------------------------------------

  method ValidEnvName(k: string) returns (ok: bool)
    ensures ok <==> IsName(k)
    ensures ok <==>
            && k != "" && !('0' <= k[0] <= '9')
            && forall i :: 0 <= i < |k| ==>
                 k[i] == '_' || 'A' <= k[i] <= 'Z' || 'a' <= k[i] <= 'z' || '0' <= k[i] <= '9'
  {
    if k == "" {
      return false;
    }
    var i := 0;
    while i < |k|
      invariant 0 <= i <= |k|
      invariant forall j :: 0 <= j < i ==> NameStart(k[j]) || Digit(k[j])
      invariant i > 0 ==> NameStart(k[0])
    {
      var c := k[i];
      if !(c == '_' || 'A' <= c <= 'Z' || 'a' <= c <= 'z' || ('0' <= c <= '9' && i > 0)) {
        assert !NameStart(k[i]);
        return false;
      }
      i := i + 1;
    }
    return true;
  }

  lemma {:induction false} NoExports()
    ensures PathLine() == PathLine() + Exports([])
  {
  }

  lemma {:induction false} ExportsSnoc(env: seq<string>, i: nat)
    requires i < |env|
    ensures Exports(env[..i + 1]) == Exports(env[..i]) + ExportLine(env[i])
  {
    assert env[..i + 1][..i] == env[..i];
  }

  /** The fixed lines at the head of every script. */
  method Mounts() returns (head: string)
    ensures head == Preamble()
  {
    head := "#!/bin/sh\n# generated by porter: OCI config -> PID 1\n" +
      "mount -t proc proc /proc 2>/dev/null\n" +
      "mount -t sysfs sys /sys 2>/dev/null\n" +
      "mount -t devtmpfs dev /dev 2>/dev/null\n" +
      "mkdir -p /dev/pts /dev/shm && mount -t devpts devpts /dev/pts 2>/dev/null\n" +
      "mount -t tmpfs tmpfs /tmp 2>/dev/null\n";
  }

  method BuildInitScript(entrypoint: seq<string>, cmd: seq<string>, env: seq<string>, workdir: string)
    returns (r: Result<string, Error>)
    ensures r == Err(NoCommand) <==> entrypoint + cmd == []
    ensures r.Ok? ==> r.value == Preamble() + Tail(entrypoint + cmd, env, workdir)
  {
    hide Preamble, PathLine, Exports, ShQuote, Cut, IsName;
    var argv := entrypoint + cmd;
    if |argv| == 0 {
      return Err(NoCommand);
    }
    var b := PathLine();
    var i := 0;
    NoExports();
    while i < |env|
      invariant 0 <= i <= |env|
      invariant b == PathLine() + Exports(env[..i])
    {
      ExportsSnoc(env, i);
      ghost var before := b;
      var kv := env[i];
      var cut := Cut(kv);
      if cut.Some? {
        var valid := ValidEnvName(cut.value.0);
        if valid {
          b := b + ("export " + cut.value.0 + "=" + ShQuote(cut.value.1) + "\n");
        }
      }
      assert b == before + ExportLine(kv);
      Assoc(PathLine(), Exports(env[..i]), ExportLine(kv));
      i := i + 1;
    }
    assert env[..i] == env;
    if workdir != "" {
      b := b + ("cd " + ShQuote(workdir) + " || exit 1\n");
    }
    b := b + "exec";
    ghost var upTo := b;
    i := 0;
    while i < |argv|
      invariant 0 <= i <= |argv|
      invariant b == upTo + Args(argv[..i])
    {
      assert argv[..i + 1][..i] == argv[..i];
      b := b + (" " + ShQuote(argv[i]));
      i := i + 1;
    }
    assert argv[..i] == argv;
    b := b + "\n";
    assert b == Tail(argv, env, workdir);
    var head := Mounts();
    return Ok(head + b);
  }
}
