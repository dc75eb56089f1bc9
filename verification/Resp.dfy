/**
  The RESP v2 wire format (backend/internal/cache/resp.go).

  `Encode` writes a reply tree the way a server does; `Decode` is what the reader
  computes on a byte stream.  The reader and the writer themselves are the classes
  and methods at the end, proved against these functions.
 */
module Resp {
  import opened Sequences
  import opened Strconv
  import opened Wrappers

  const CR: byte := 13
  const LF: byte := 10
  const CRLF: bytes := [13, 10]
  const COLON: byte := 58
  const DOLLAR: byte := 36
  const STAR: byte := 42

  // ---------------------------------------------------------------------------
  // Replies on the wire, and the values they stand for
  // ---------------------------------------------------------------------------

  datatype Reply =
    | Simple(text: bytes)
    | Error(text: bytes)
    | Int(n: int)
    | Bulk(data: bytes)
    | NilBulk
    | NilArray
    | Array(items: seq<Reply>)

  /** What the client sees: simple and bulk strings are both byte slices. */
  datatype Value = Bytes(b: bytes) | Number(n: int) | Nil | List(items: seq<Value>)

  /** `Panicked` stands for the runtime panic of a make whose size is out of range. */
  datatype Failure = ServerError(text: bytes) | Malformed | EndOfStream | Panicked

  /** Largest allocation of the Go runtime on linux/amd64, and how many interface values fit in it. */
  const MAX_ALLOC: int := 0x1_0000_0000_0000
  const MAX_ITEMS: int := 0x1000_0000_0000

  predicate LineSafe(s: bytes) {
    LF !in s
  }

  /** What the reader can take: one-line texts, 64-bit numbers, and sizes it can allocate. */
  ghost predicate Sendable(r: Reply) {
    match r
    case Simple(t) => LineSafe(t)
    case Error(t) => LineSafe(t)
    case Int(n) => MIN_INT <= n <= MAX_INT
    case Bulk(d) => |d| + 2 <= MAX_ALLOC
    case Array(items) => |items| <= MAX_ITEMS && forall i :: 0 <= i < |items| ==> Sendable(items[i])
    case _ => true
  }

  function Line(kind: byte, body: bytes): bytes {
    [kind] + body + CRLF
  }

  function Encode(r: Reply): bytes {
    match r
    case Simple(t) => Line(PLUS, t)
    case Error(t) => Line(MINUS, t)
    case Int(n) => Line(COLON, Itoa(n))
    case Bulk(d) => Line(DOLLAR, Itoa(|d|)) + d + CRLF
    case NilBulk => Line(DOLLAR, Itoa(-1))
    case NilArray => Line(STAR, Itoa(-1))
    case Array(items) => Line(STAR, Itoa(|items|)) + EncodeAll(items)
  }

  function EncodeAll(rs: seq<Reply>): bytes {
    if rs == [] then [] else Encode(rs[0]) + EncodeAll(rs[1..])
  }

  /** The value of a reply tree; an error anywhere in it surfaces, first one first. */
  function Meaning(r: Reply): Result<Value, Failure> {
    match r
    case Simple(t) => Ok(Bytes(t))
    case Error(t) => Err(ServerError(t))
    case Int(n) => Ok(Number(n))
    case Bulk(d) => Ok(Bytes(d))
    case NilBulk => Ok(Nil)
    case NilArray => Ok(Nil)
    case Array(items) =>
      var vs := Meanings(items);
      if vs.Ok? then Ok(List(vs.value)) else Err(vs.error)
  }

  function Meanings(rs: seq<Reply>): Result<seq<Value>, Failure> {
    if rs == [] then Ok([])
    else
      var v := Meaning(rs[0]);
      if v.Err? then Err(v.error)
      else
        var vs := Meanings(rs[1..]);
        if vs.Ok? then Ok([v.value] + vs.value) else vs
  }

  // ---------------------------------------------------------------------------
  // Decoding a stream
  // ---------------------------------------------------------------------------

  /** Offset just past the first LF, or None when the stream ends before one. */
  function LineEnd(s: bytes): (r: Option<nat>)
    ensures r.Some? ==> 0 < r.value <= |s|
  {
    if s == [] then None
    else if s[0] == LF then Some(1)
    else
      var k := LineEnd(s[1..]);
      if k.None? then None else Some(k.value + 1)
  }

  lemma {:induction false} LineEndIsFirst(s: bytes)
    ensures match LineEnd(s)
            case Some(k) => s[k - 1] == LF && LineSafe(s[..k - 1])
            case None => LineSafe(s)
  {
    if s != [] && s[0] != LF {
      LineEndIsFirst(s[1..]);
      if LineEnd(s).Some? {
        var k := LineEnd(s).value;
        assert s[..k - 1] == [s[0]] + s[1..][..k - 2];
      }
    }
  }

  /** readCRLFLine: the text of the next line, and the stream after it. */
  function NextLine(s: bytes): (r: (Result<bytes, Failure>, bytes))
    ensures r.0.Ok? ==> |r.1| + 2 <= |s|
    ensures |r.1| <= |s|
  {
    var e := LineEnd(s);
    if e.None? then (Err(EndOfStream), [])
    else if e.value < 2 || s[e.value - 2] != CR then (Err(Malformed), s[e.value..])
    else (Ok(s[..e.value - 2]), s[e.value..])
  }

  /** What the first line of a reply announces. */
  datatype Head = Text(t: bytes) | Fault(t: bytes) | Num(n: int) | BulkOf(size: int) | ArrayOf(size: int)

  function HeadOf(line: bytes): Result<Head, Failure> {
    if line == [] then Err(Malformed)
    else
      var kind, body := line[0], line[1..];
      if kind == PLUS then Ok(Text(body))
      else if kind == MINUS then Ok(Fault(body))
      else if kind != COLON && kind != DOLLAR && kind != STAR then Err(Malformed)
      else
        var n := Atoi(body);
        if n.None? then Err(Malformed)
        else Ok(Announce(kind, n.value))
  }

  function NextHead(s: bytes): (r: (Result<Head, Failure>, bytes))
    ensures |r.1| <= |s|
    ensures r.0.Ok? ==> |r.1| < |s|
  {
    var (l, rest) := NextLine(s);
    (if l.Ok? then HeadOf(l.value) else Err(l.error), rest)
  }

  function Decode(s: bytes): (r: (Result<Value, Failure>, bytes))
    ensures |r.1| <= |s|
    ensures r.0.Ok? ==> |r.1| < |s|
    decreases |s|, 0
  {
    var (h, rest) := NextHead(s);
    if h.Err? then (Err(h.error), rest) else DecodeBody(h.value, rest)
  }

  /** What follows the announcing line: nothing, a payload with its CRLF, or items. */
  function DecodeBody(h: Head, rest: bytes): (r: (Result<Value, Failure>, bytes))
    ensures |r.1| <= |rest|
    decreases |rest|, 2
  {
    match h
    case Text(t) => (Ok(Bytes(t)), rest)
    case Fault(t) => (Err(ServerError(t)), rest)
    case Num(n) => (Ok(Number(n)), rest)
    case BulkOf(n) =>
      if n < 0 then (Ok(Nil), rest)
      else if n + 2 > MAX_ALLOC then (Err(Panicked), rest)
      else if |rest| < n + 2 then (Err(EndOfStream), [])
      else (Ok(Bytes(rest[..n])), rest[n + 2..])
    case ArrayOf(n) =>
      if n < 0 then (Ok(Nil), rest)
      else if n > MAX_ITEMS then (Err(Panicked), rest)
      else
        var (vs, rest') := DecodeItems([], n, rest);
        (if vs.Ok? then Ok(List(vs.value)) else Err(vs.error), rest')
  }

  /** Reads `n` more items behind those already read. */
  function DecodeItems(items: seq<Value>, n: nat, s: bytes): (r: (Result<seq<Value>, Failure>, bytes))
    ensures |r.1| <= |s|
    decreases |s|, 1, n
  {
    if n == 0 then (Ok(items), s)
    else
      var (v, rest) := Decode(s);
      if v.Err? then (Err(v.error), rest)
      else DecodeItems(items + [v.value], n - 1, rest)
  }

  lemma {:induction false} ItemsStep(items: seq<Value>, n: nat, s: bytes, v: Result<Value, Failure>, rest: bytes)
    requires n > 0 && Decode(s) == (v, rest)
    ensures v.Err? ==> DecodeItems(items, n, s) == (Err(v.error), rest)
    ensures v.Ok? ==> DecodeItems(items, n, s) == DecodeItems(items + [v.value], n - 1, rest)
  {
  }

  // ---------------------------------------------------------------------------
  // Round trip
  // ---------------------------------------------------------------------------

  lemma {:induction false} LineEndOf(text: bytes, rest: bytes)
    requires LineSafe(text)
    ensures LineEnd(text + [LF] + rest) == Some(|text| + 1)
  {
    var s := text + [LF] + rest;
    if text != [] {
      LineEndOf(text[1..], rest);
      assert s[1..] == text[1..] + [LF] + rest;
    }
  }

  lemma {:induction false} NextLineOf(kind: byte, body: bytes, rest: bytes)
    requires kind != LF && LineSafe(body)
    ensures NextLine(Line(kind, body) + rest) == (Ok([kind] + body), rest)
  {
    var text := [kind] + body + [CR];
    LineEndOf(text, rest);
    assert Line(kind, body) + rest == text + [LF] + rest;
    assert (text + [LF] + rest)[..|text| - 1] == [kind] + body;
  }

  lemma {:induction false} NextHeadOf(kind: byte, body: bytes, rest: bytes)
    requires kind != LF && LineSafe(body)
    ensures NextHead(Line(kind, body) + rest) == (HeadOf([kind] + body), rest)
  {
    NextLineOf(kind, body, rest);
  }

  function Announce(kind: byte, n: int): Head {
    if kind == COLON then Num(n) else if kind == DOLLAR then BulkOf(n) else ArrayOf(n)
  }

  lemma {:induction false} SizedLine(kind: byte, n: int, rest: bytes)
    requires kind == COLON || kind == DOLLAR || kind == STAR
    requires MIN_INT <= n <= MAX_INT
    ensures NextHead(Line(kind, Itoa(n)) + rest) == (Ok(Announce(kind, n)), rest)
  {
    AtoiItoa(n);
    assert ([kind] + Itoa(n))[1..] == Itoa(n);
    NextHeadOf(kind, Itoa(n), rest);
  }

  /**
    Reading back a reply yields its value, whatever bytes follow, and a successful
    read leaves exactly those bytes.  Bulk payloads may hold CR and LF freely.
   */
  lemma {:induction false} DecodeEncode(r: Reply, rest: bytes)
    requires Sendable(r)
    ensures Decode(Encode(r) + rest).0 == Meaning(r)
    ensures Meaning(r).Ok? ==> Decode(Encode(r) + rest).1 == rest
    decreases r, 0
  {
    match r
    case Simple(t) => LeafRoundTrip(r, rest);
    case Error(t) => LeafRoundTrip(r, rest);
    case Int(n) => LeafRoundTrip(r, rest);
    case NilBulk => LeafRoundTrip(r, rest);
    case NilArray => LeafRoundTrip(r, rest);
    case Bulk(d) => BulkRoundTrip(d, rest);
    case Array(items) =>
      DecodeEncodeAll([], items, rest);
      BehindNothing(Meanings(items));
      ArrayRoundTrip(items, rest);
  }

  lemma {:induction false} LeafRoundTrip(r: Reply, rest: bytes)
    requires Sendable(r) && !r.Bulk? && !r.Array?
    ensures Decode(Encode(r) + rest) == (Meaning(r), rest)
  {
    hide NextHead;
    match r
    case Simple(t) => NextHeadOf(PLUS, t, rest);
    case Error(t) => NextHeadOf(MINUS, t, rest);
    case Int(n) => SizedLine(COLON, n, rest);
    case NilBulk => SizedLine(DOLLAR, -1, rest);
    case NilArray => SizedLine(STAR, -1, rest);
  }

  lemma {:induction false} ArrayHead(items: seq<Reply>, rest: bytes)
    requires |items| <= MAX_ITEMS
    ensures NextHead(Encode(Array(items)) + rest) == (Ok(ArrayOf(|items|)), EncodeAll(items) + rest)
  {
    Assoc(Line(STAR, Itoa(|items|)), EncodeAll(items), rest);
    SizedLine(STAR, |items|, EncodeAll(items) + rest);
  }

  lemma {:induction false} ArrayRoundTrip(items: seq<Reply>, rest: bytes)
    requires |items| <= MAX_ITEMS
    requires DecodeItems([], |items|, EncodeAll(items) + rest).0 == Meanings(items)
    requires Meanings(items).Ok? ==> DecodeItems([], |items|, EncodeAll(items) + rest).1 == rest
    ensures Decode(Encode(Array(items)) + rest).0 == Meaning(Array(items))
    ensures Meaning(Array(items)).Ok? ==> Decode(Encode(Array(items)) + rest).1 == rest
  {
    hide Decode, DecodeBody, DecodeItems, NextHead, EncodeAll;
    ArrayHead(items, rest);
    DecodeBy(Encode(Array(items)) + rest, ArrayOf(|items|), EncodeAll(items) + rest);
    ArrayBody(|items|, EncodeAll(items) + rest);
  }

  lemma {:induction false} DecodeBy(s: bytes, h: Head, rest: bytes)
    requires NextHead(s) == (Ok(h), rest)
    ensures Decode(s) == DecodeBody(h, rest)
  {
  }

  lemma {:induction false} ArrayBody(n: nat, s: bytes)
    requires n <= MAX_ITEMS
    ensures var (vs, rest) := DecodeItems([], n, s);
            DecodeBody(ArrayOf(n), s) == (if vs.Ok? then Ok(List(vs.value)) else Err(vs.error), rest)
  {
  }

  lemma {:induction false} BulkRoundTrip(d: bytes, rest: bytes)
    requires |d| + 2 <= MAX_ALLOC
    ensures Decode(Encode(Bulk(d)) + rest) == (Ok(Bytes(d)), rest)
  {
    hide NextHead;
    var after := d + CRLF + rest;
    Assoc(Line(DOLLAR, Itoa(|d|)) + d, CRLF, rest);
    Assoc(Line(DOLLAR, Itoa(|d|)), d, CRLF + rest);
    Assoc(d, CRLF, rest);
    SizedLine(DOLLAR, |d|, after);
    assert after[..|d|] == d && after[|d| + 2..] == rest;
  }

  /**
    A flat walk over the announcing lines of a stream with `due` replies still to come: some
    size met before the walk ends is larger than an allocation can be.  It looks at heads and
    byte counts only, ends at the first error, and never builds a value.
   */
  ghost predicate Oversized(s: bytes, due: nat)
    decreases |s|
  {
    if due == 0 then false
    else
      var (h, rest) := NextHead(s);
      if h.Err? then false
      else
        match h.value
        case Fault(_) => false
        case BulkOf(n) =>
          if n < 0 then Oversized(rest, due - 1)
          else n + 2 > MAX_ALLOC || (n + 2 <= |rest| && Oversized(rest[n + 2..], due - 1))
        case ArrayOf(n) =>
          if n < 0 then Oversized(rest, due - 1) else n > MAX_ITEMS || Oversized(rest, due - 1 + n)
        case _ => Oversized(rest, due - 1)
  }

  /** What the walk finds after a read that ended in `r` with `rest` left. */
  ghost predicate OversizedAfter<T>(r: Result<T, Failure>, rest: bytes, due: nat) {
    if r.Ok? then Oversized(rest, due) else r.error == Panicked
  }

  lemma {:induction false} WalkDecode(s: bytes, due: nat)
    ensures Oversized(s, due + 1) <==> OversizedAfter(Decode(s).0, Decode(s).1, due)
    decreases |s|, 0
  {
    hide NextHead, Decode, DecodeBody, DecodeItems, Oversized;
    var (h, rest) := NextHead(s);
    if h.Err? {
      WalkStops(s);
    } else {
      DecodeBy(s, h.value, rest);
      if h.value.ArrayOf? && 0 <= h.value.size <= MAX_ITEMS {
        WalkItems([], h.value.size, rest, due);
        ArrayBody(h.value.size, rest);
        OversizedArray(s, h.value.size, rest, due);
      } else {
        WalkLeaf(s, h.value, rest, due);
      }
    }
  }

  lemma {:induction false} WalkStops(s: bytes)
    requires NextHead(s).0.Err?
    ensures Decode(s).0.Err? && Decode(s).0 != Err(Panicked) && forall due :: !Oversized(s, due)
  {
    HeadNeverPanics(s);
    hide NextHead;
  }

  /** Everything but a list that is read item by item. */
  lemma {:induction false} WalkLeaf(s: bytes, h: Head, rest: bytes, due: nat)
    requires NextHead(s) == (Ok(h), rest) && !(h.ArrayOf? && 0 <= h.size <= MAX_ITEMS)
    ensures Oversized(s, due + 1) <==> OversizedAfter(DecodeBody(h, rest).0, DecodeBody(h, rest).1, due)
  {
    hide NextHead, DecodeItems;
  }

  lemma {:induction false} HeadNeverPanics(s: bytes)
    ensures NextHead(s).0 != Err(Panicked)
  {
  }

  lemma {:induction false} OversizedArray(s: bytes, n: nat, rest: bytes, due: nat)
    requires NextHead(s) == (Ok(ArrayOf(n)), rest) && n <= MAX_ITEMS
    ensures Oversized(s, due + 1) <==> Oversized(rest, n + due)
  {
    hide NextHead;
  }

  lemma {:induction false} WalkItems(items: seq<Value>, n: nat, s: bytes, due: nat)
    ensures Oversized(s, n + due) <==>
            OversizedAfter(DecodeItems(items, n, s).0, DecodeItems(items, n, s).1, due)
    decreases |s|, 1, n
  {
    hide Decode, NextHead, Oversized;
    if n > 0 {
      var (v, rest) := Decode(s);
      WalkDecode(s, n - 1 + due);
      ItemsStep(items, n, s, v, rest);
      if v.Ok? {
        WalkItems(items + [v.value], n - 1, rest, due);
      }
    }
  }

  /**
    Over every stream the reader panics exactly when the walk meets a size, of a bulk string
    or of a list at any depth, whose buffer is larger than an allocation can be.
   */
  lemma {:induction false} AnnouncedSizePanics(s: bytes)
    ensures Decode(s).0 == Err(Panicked) <==> Oversized(s, 1)
  {
    hide Decode;
    WalkDecode(s, 0);
    assert !Oversized(Decode(s).1, 0);
  }

  lemma {:induction false} DecodeEncodeAll(items: seq<Value>, rs: seq<Reply>, rest: bytes)
    requires forall i :: 0 <= i < |rs| ==> Sendable(rs[i])
    ensures DecodeItems(items, |rs|, EncodeAll(rs) + rest).0 == Behind(items, Meanings(rs))
    ensures Meanings(rs).Ok? ==> DecodeItems(items, |rs|, EncodeAll(rs) + rest).1 == rest
    decreases rs, 1
  {
    if rs == [] {
      assert EncodeAll(rs) + rest == rest;
      assert items + [] == items;
    } else {
      var tail := EncodeAll(rs[1..]) + rest;
      Assoc(Encode(rs[0]), EncodeAll(rs[1..]), rest);
      DecodeEncode(rs[0], tail);
      var v := Meaning(rs[0]);
      if v.Ok? {
        DecodeEncodeAll(items + [v.value], rs[1..], rest);
        BehindSnoc(items, v.value, Meanings(rs[1..]));
      }
    }
  }

  ghost function Behind(items: seq<Value>, vs: Result<seq<Value>, Failure>): Result<seq<Value>, Failure> {
    if vs.Ok? then Ok(items + vs.value) else vs
  }

  lemma BehindNothing(vs: Result<seq<Value>, Failure>)
    ensures Behind([], vs) == vs
  {
    if vs.Ok? {
      assert [] + vs.value == vs.value;
    }
  }

  lemma BehindSnoc(items: seq<Value>, v: Value, vs: Result<seq<Value>, Failure>)
    ensures vs.Ok? ==> Behind(items + [v], vs) == Ok(items + ([v] + vs.value))
  {
    if vs.Ok? {
      assert items + [v] + vs.value == items + ([v] + vs.value);
    }
  }

  // ---------------------------------------------------------------------------
  // Stream stability: an answer depends only on the bytes it consumed
  // ---------------------------------------------------------------------------

  lemma {:induction false} LineEndStable(s: bytes, more: bytes)
    requires LineEnd(s).Some?
    ensures LineEnd(s + more) == LineEnd(s)
  {
    if s[0] != LF {
      assert (s + more)[1..] == s[1..] + more;
      LineEndStable(s[1..], more);
    }
  }

  lemma {:induction false} NextLineStable(s: bytes, more: bytes)
    requires NextLine(s).0 != Err(EndOfStream)
    ensures NextLine(s + more) == (NextLine(s).0, NextLine(s).1 + more)
  {
    LineEndStable(s, more);
    var k := LineEnd(s).value;
    assert (s + more)[k..] == s[k..] + more;
    if k >= 2 {
      assert (s + more)[..k - 2] == s[..k - 2];
    }
  }

  /**
    Unless the stream ran out, bytes arriving later change neither the answer nor
    what was consumed: reading a reply never depends on how the stream is cut.
   */
  lemma {:induction false} DecodeStable(s: bytes, more: bytes)
    requires Decode(s).0 != Err(EndOfStream)
    ensures Decode(s + more) == (Decode(s).0, Decode(s).1 + more)
    decreases |s|, 0
  {
    NextLineStable(s, more);
    var (h, rest) := NextHead(s);
    if h.Ok? {
      DecodeBodyStable(h.value, rest, more);
    }
  }

  lemma {:induction false} DecodeBodyStable(h: Head, rest: bytes, more: bytes)
    requires DecodeBody(h, rest).0 != Err(EndOfStream)
    ensures DecodeBody(h, rest + more) == (DecodeBody(h, rest).0, DecodeBody(h, rest).1 + more)
    decreases |rest|, 2
  {
    if h.BulkOf? && 0 <= h.size <= MAX_ALLOC - 2 {
      SliceStable(rest, more, h.size);
    } else if h.ArrayOf? && 0 <= h.size <= MAX_ITEMS {
      DecodeItemsStable([], h.size, rest, more);
    }
  }

  lemma SliceStable(s: bytes, more: bytes, n: nat)
    requires n + 2 <= |s|
    ensures (s + more)[..n] == s[..n] && (s + more)[n + 2..] == s[n + 2..] + more
  {
  }

  lemma {:induction false} DecodeItemsStable(items: seq<Value>, n: nat, s: bytes, more: bytes)
    requires DecodeItems(items, n, s).0 != Err(EndOfStream)
    ensures DecodeItems(items, n, s + more) == (DecodeItems(items, n, s).0, DecodeItems(items, n, s).1 + more)
    decreases |s|, 1, n
  {
    hide Decode, NextHead;
    if n > 0 {
      DecodeStable(s, more);
      var (v, rest) := Decode(s);
      ItemsStep(items, n, s, v, rest);
      ItemsStep(items, n, s + more, v, rest + more);
      if v.Ok? {
        DecodeItemsStable(items + [v.value], n - 1, rest, more);
      }
    }
  }

  // ---------------------------------------------------------------------------
  // One reply, byte by byte
  // ---------------------------------------------------------------------------

  /** The n items are read one after the other, up to the first that fails. */
  ghost predicate ItemsRead(n: nat, s: bytes, r: Result<seq<Value>, Failure>, rest: bytes) {
    if r.Ok? then
      exists cuts: seq<bytes> :: Cuts(cuts, s, r.value, n) && cuts[n] == rest
    else
      exists cuts: seq<bytes>, vs: seq<Value> :: |vs| < n && Cuts(cuts, s, vs, |vs|) &&
        Decode(cuts[|vs|]) == (Err(r.error), rest)
  }

  /** Item i is read from the i-th remainder of the stream and leaves the next one. */
  ghost predicate Cuts(cuts: seq<bytes>, s: bytes, vs: seq<Value>, n: nat) {
    && |cuts| == n + 1 && |vs| == n && cuts[0] == s
    && forall i :: 0 <= i < n ==> Decode(cuts[i]) == (Ok(vs[i]), cuts[i + 1])
  }

  lemma {:induction false} ItemsAre(cuts: seq<bytes>, first: bytes, vs: seq<Value>, m: nat, n: nat, s: bytes)
    requires Cuts(cuts, first, vs, m) && cuts[m] == s && m <= n
    ensures var (r, rest) := DecodeItems(vs, n - m, s); ItemsRead(n, first, r, rest)
    decreases n - m
  {
    hide Decode;
    if m < n {
      var (v, rest) := Decode(s);
      ItemsStep(vs, n - m, s, v, rest);
      if v.Ok? {
        ItemsAre(cuts + [rest], first, vs + [v.value], m + 1, n, rest);
      }
    }
  }

  /** What a number line announces, with the stream behind it: an integer, a payload, or items. */
  ghost predicate Announces(kind: byte, n: int, s: bytes, r: Result<Value, Failure>, rest: bytes) {
    if kind == 58 then r == Ok(Number(n)) && rest == s
    else if n < 0 then r == Ok(Nil) && rest == s
    else if kind == 36 then
      && (n + 2 > 0x1_0000_0000_0000 ==> r == Err(Panicked) && rest == s)
      && (n + 2 <= 0x1_0000_0000_0000 && |s| < n + 2 ==> r == Err(EndOfStream) && rest == [])
      && (n + 2 <= 0x1_0000_0000_0000 && |s| >= n + 2 ==> r == Ok(Bytes(s[..n])) && rest == s[n + 2..])
    else
      && (n > 0x1000_0000_0000 ==> r == Err(Panicked) && rest == s)
      && (n <= 0x1000_0000_0000 ==>
            && (r.Ok? ==> r.value.List? && ItemsRead(n, s, Ok(r.value.items), rest))
            && (r.Err? ==> ItemsRead(n, s, Err(r.error), rest)))
  }

  /** What a whole line says. */
  ghost predicate LineSays(line: bytes, s: bytes, r: Result<Value, Failure>, rest: bytes) {
    if line != [] && line[0] == 43 then r == Ok(Bytes(line[1..])) && rest == s
    else if line != [] && line[0] == 45 then r == Err(ServerError(line[1..])) && rest == s
    else if line != [] && line[0] in {58, 36, 42} && exists n :: Numeral(line[1..], n) then
      exists n :: Numeral(line[1..], n) && Announces(line[0], n, s, r, rest)
    else r == Err(Malformed) && rest == s
  }

  /** The stream begins with a line that ends in LF, with its CR or without. */
  ghost predicate StartsWith(s: bytes, line: bytes, after: bytes) {
    s == line + [10] + after && 10 !in line
  }

  /** One reply off the stream: what was read, and what is left. */
  ghost predicate ReplyIs(s: bytes, r: Result<Value, Failure>, rest: bytes) {
    && (10 !in s ==> r == Err(EndOfStream) && rest == [])
    && forall line, after :: StartsWith(s, line, after) ==>
         if line != [] && line[|line| - 1] == 13 then LineSays(line[..|line| - 1], after, r, rest)
         else r == Err(Malformed) && rest == after
  }

  lemma {:induction false} AnnouncedBody(kind: byte, n: int, s: bytes)
    requires kind in {58, 36, 42}
    ensures var (r, rest) := DecodeBody(Announce(kind, n), s); Announces(kind, n, s, r, rest)
  {
    if kind == 42 && 0 <= n <= MAX_ITEMS {
      hide Decode, DecodeItems, ItemsRead;
      assert Cuts([s], s, [], 0);
      ItemsAre([s], s, [], 0, n, s);
    }
  }

  lemma {:induction false} LineBody(line: bytes, s: bytes)
    ensures var h := HeadOf(line);
            if h.Ok? then var (r, rest) := DecodeBody(h.value, s); LineSays(line, s, r, rest)
            else LineSays(line, s, Err(h.error), s)
  {
    hide DecodeItems, Decode, ItemsRead, Numeral, Atoi, Announces;
    if line != [] {
      var kind, body := line[0], line[1..];
      if kind in {58, 36, 42} {
        hide DecodeBody, Announce;
        forall n ensures Atoi(body) == Some(n) <==> Numeral(body, n) {
          AtoiReads(body, n);
        }
        if Atoi(body).Some? {
          AnnouncedBody(kind, Atoi(body).value, s);
        }
      }
    }
  }

  lemma {:induction false} FirstLineIs(s: bytes, line: bytes, after: bytes)
    requires StartsWith(s, line, after)
    ensures NextLine(s) ==
            if line != [] && line[|line| - 1] == 13 then (Ok(line[..|line| - 1]), after) else (Err(Malformed), after)
  {
    LineEndOf(line, after);
    assert s[|line| + 1..] == after;
    if line != [] {
      assert s[..|line| - 1] == line[..|line| - 1];
    }
  }

  lemma {:induction false} NoLine(s: bytes)
    requires 10 !in s
    ensures NextLine(s) == (Err(EndOfStream), [])
  {
    LineEndIsFirst(s);
  }

  /** Reading one reply, for every stream. */
  lemma {:induction false} DecodeReads(s: bytes)
    ensures ReplyIs(s, Decode(s).0, Decode(s).1)
  {
    hide NextLine, HeadOf, DecodeBody, LineSays;
    if 10 !in s {
      NoLine(s);
    }
    forall line, after | StartsWith(s, line, after)
      ensures if line != [] && line[|line| - 1] == 13 then LineSays(line[..|line| - 1], after, Decode(s).0, Decode(s).1)
              else Decode(s) == (Err(Malformed), after)
    {
      FirstLineIs(s, line, after);
      if line != [] && line[|line| - 1] == 13 {
        LineBody(line[..|line| - 1], after);
      }
    }
  }

  // ---------------------------------------------------------------------------
  // Commands
  // ---------------------------------------------------------------------------

  function Command(args: seq<bytes>): bytes {
    Line(STAR, Itoa(|args|)) + EncodeArgs(args)
  }

  function EncodeArg(a: bytes): bytes {
    Line(DOLLAR, Itoa(|a|)) + a + CRLF
  }

  function EncodeArgs(args: seq<bytes>): bytes {
    if args == [] then [] else EncodeArgs(args[..|args| - 1]) + EncodeArg(args[|args| - 1])
  }

  function Bulks(args: seq<bytes>): seq<Reply> {
    seq(|args|, i requires 0 <= i < |args| => Bulk(args[i]))
  }

  function Slices(args: seq<bytes>): seq<Value> {
    seq(|args|, i requires 0 <= i < |args| => Bytes(args[i]))
  }

  lemma {:induction false} EncodeAllSnoc(rs: seq<Reply>, r: Reply)
    ensures EncodeAll(rs + [r]) == EncodeAll(rs) + Encode(r)
  {
    hide Encode;
    if rs == [] {
      assert rs + [r] == [r] && [r][1..] == [];
      assert EncodeAll([r]) == Encode(r) + EncodeAll([]);
    } else {
      EncodeAllSnoc(rs[1..], r);
      assert (rs + [r])[1..] == rs[1..] + [r];
      Assoc(Encode(rs[0]), EncodeAll(rs[1..]), Encode(r));
    }
  }

  lemma {:induction false} ArgIsBulk(a: bytes)
    ensures EncodeArg(a) == Encode(Bulk(a))
  {
  }

  lemma {:induction false} ArgsAreBulks(args: seq<bytes>)
    ensures EncodeArgs(args) == EncodeAll(Bulks(args))
  {
    hide EncodeArg, Encode;
    if args != [] {
      var init, a := args[..|args| - 1], args[|args| - 1];
      ArgsAreBulks(init);
      ArgIsBulk(a);
      assert Bulks(args) == Bulks(init) + [Bulk(a)];
      hide EncodeAll;
      EncodeAllSnoc(Bulks(init), Bulk(a));
    }
  }

  lemma {:induction false} BulkMeanings(args: seq<bytes>)
    ensures Meanings(Bulks(args)) == Ok(Slices(args))
  {
    if args == [] {
      assert Slices(args) == [];
    } else {
      BulkMeanings(args[1..]);
      assert Bulks(args)[1..] == Bulks(args[1..]);
      assert Slices(args) == [Bytes(args[0])] + Slices(args[1..]);
    }
  }

  /** Sizes a Go slice can have; every argument list of a running program has them. */
  ghost predicate Writable(args: seq<bytes>) {
    |args| <= MAX_ITEMS && forall i :: 0 <= i < |args| ==> |args[i]| + 2 <= MAX_ALLOC
  }

  /** A written command reads back as its arguments, and the following bytes stay unread. */
  lemma {:induction false} CommandRoundTrip(args: seq<bytes>, rest: bytes)
    requires Writable(args)
    ensures Decode(Command(args) + rest) == (Ok(List(Slices(args))), rest)
  {
    ArgsAreBulks(args);
    BulkMeanings(args);
    var r := Array(Bulks(args));
    DecodeEncode(r, rest);
  }

  /** Two argument lists never share an encoding, so a server cannot confuse commands. */
  lemma {:induction false} CommandInjective(args: seq<bytes>, args': seq<bytes>, rest: bytes, rest': bytes)
    requires Writable(args)
    requires Writable(args')
    requires Command(args) + rest == Command(args') + rest'
    ensures args == args' && rest == rest'
  {
    CommandRoundTrip(args, rest);
    CommandRoundTrip(args', rest');
    forall i | 0 <= i < |args| ensures args[i] == args'[i] {
      assert Slices(args)[i] == Slices(args')[i];
    }
  }

  // ---------------------------------------------------------------------------
  // The buffered writer and the buffered reader
  // ---------------------------------------------------------------------------

  lemma {:induction false} OneArg(buf: bytes, a: bytes)
    ensures buf + ([DOLLAR] + Itoa(|a|) + CRLF) + a + CRLF == buf + EncodeArg(a)
  {
    hide Itoa;
  }

  lemma {:induction false} ArgsSnoc(args: seq<bytes>, i: nat)
    requires i < |args|
    ensures EncodeArgs(args[..i + 1]) == EncodeArgs(args[..i]) + EncodeArg(args[i])
  {
    hide EncodeArg;
    assert args[..i + 1][..i] == args[..i];
  }

  class Writer {
    var sent: bytes

    constructor ()
      ensures sent == []
    {
      sent := [];
    }

    method WriteCommand(args: seq<bytes>)
      modifies this
      ensures sent == old(sent) + Command(args)
    {
      hide Itoa, EncodeArg;
      var buf := [STAR] + Itoa(|args|) + CRLF;
      var i := 0;
      while i < |args|
        invariant 0 <= i <= |args| && sent == old(sent)
        invariant buf == Line(STAR, Itoa(|args|)) + EncodeArgs(args[..i])
      {
        ghost var before := buf;
        buf := buf + ([DOLLAR] + Itoa(|args[i]|) + CRLF);
        buf := buf + args[i];
        buf := buf + CRLF;
        OneArg(before, args[i]);
        ArgsSnoc(args, i);
        Assoc(Line(STAR, Itoa(|args|)), EncodeArgs(args[..i]), EncodeArg(args[i]));
        i := i + 1;
      }
      assert args[..i] == args;
      assert buf == Command(args);
      sent := sent + buf;
    }
  }

  class Reader {
    var rest: bytes

    constructor (stream: bytes)
      ensures rest == stream
    {
      rest := stream;
    }

    method ReadBytesToLF() returns (r: Option<bytes>)
      modifies this
      ensures LineEnd(old(rest)).None? ==> r == None && rest == []
      ensures LineEnd(old(rest)).Some? ==>
                var k := LineEnd(old(rest)).value;
                r == Some(old(rest)[..k]) && rest == old(rest)[k..]
    {
      var k := LineEnd(rest);
      if k.None? {
        r, rest := None, [];
      } else {
        r, rest := Some(rest[..k.value]), rest[k.value..];
      }
    }

    method ReadCRLFLine() returns (r: Result<bytes, Failure>)
      modifies this
      ensures (r, rest) == NextLine(old(rest))
    {
      var line := ReadBytesToLF();
      if line.None? {
        return Err(EndOfStream);
      }
      var l := line.value;
      if |l| < 2 || l[|l| - 2] != CR {
        return Err(Malformed);
      }
      assert l[..|l| - 2] == old(rest)[..|l| - 2];
      return Ok(l[..|l| - 2]);
    }

    /** Terminates on every finite stream: each call consumes a line before it recurses. */
    method ReadReply() returns (r: Result<Value, Failure>)
      modifies this
      ensures (r, rest) == Decode(old(rest))
      ensures ReplyIs(old(rest), r, rest)
      decreases |rest|, 0
    {
      DecodeReads(rest);
      hide ReplyIs;
      hide NextLine, Atoi, DecodeItems;
      var line := ReadCRLFLine();
      if line.Err? {
        return Err(line.error);
      }
      if |line.value| == 0 {
        return Err(Malformed);
      }
      var kind, body := line.value[0], line.value[1..];
      if kind == PLUS {
        return Ok(Bytes(body));
      }
      if kind == MINUS {
        return Err(ServerError(body));
      }
      if kind != COLON && kind != DOLLAR && kind != STAR {
        return Err(Malformed);
      }
      var n := Atoi(body);
      if n.None? {
        return Err(Malformed);
      }
      if kind == COLON {
        return Ok(Number(n.value));
      }
      if n.value < 0 {
        return Ok(Nil);
      }
      if kind == DOLLAR {
        if n.value + 2 > MAX_ALLOC {
          return Err(Panicked);
        }
        if |rest| < n.value + 2 {
          rest := [];
          return Err(EndOfStream);
        }
        var data := rest[..n.value];
        rest := rest[n.value + 2..];
        return Ok(Bytes(data));
      }
      if n.value > MAX_ITEMS {
        return Err(Panicked);
      }
      var items := ReadItems(n.value);
      if items.Err? {
        return Err(items.error);
      }
      return Ok(List(items.value));
    }

    /** The item loop of an array reply; its bound is announced by the peer. */
    method ReadItems(n: nat) returns (r: Result<seq<Value>, Failure>)
      modifies this
      ensures (r, rest) == DecodeItems([], n, old(rest))
      decreases |rest|, 1
    {
      hide Decode, NextHead;
      var items := [];
      var i := 0;
      while i < n
        invariant 0 <= i <= n && |rest| <= |old(rest)|
        invariant DecodeItems(items, n - i, rest) == DecodeItems([], n, old(rest))
      {
        ghost var before := rest;
        var v := ReadReply();
        ItemsStep(items, n - i, before, v, rest);
        if v.Err? {
          return Err(v.error);
        }
        items := items + [v.value];
        i := i + 1;
      }
      return Ok(items);
    }
  }
}
