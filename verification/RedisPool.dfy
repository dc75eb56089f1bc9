/**
  The Redis connection pool (backend/internal/cache/redis.go) under concurrent use.

  Each mutex section (acquire, release, Close) is one atomic step, and so is each
  thing a call does alone (dial, handshake, round trip).  Calls interleave freely.
 */
module RedisPool {
  import opened Sequences
  import opened Wrappers

  /** Connections are numbered in the order they were dialled. */
  type Conn = nat

  type CallId = nat

  /** Where a call of `do` stands; `retry` marks the second, freshly dialled attempt. */
  datatype Stage =
    | Acquiring
    | Dialling(retry: bool)
    | Handshaking(conn: Conn, retry: bool)
    | Sending(conn: Conn, retry: bool)
    | Releasing(conn: Conn, retry: bool)
    | Returned(ok: bool)

  /** `sent` counts the round trips made with the command itself. */
  datatype Call = Call(stage: Stage, sent: nat)

  datatype State = State(
    maxIdle: nat,
    dialled: nat,
    pool: seq<Conn>,
    closed: set<Conn>,
    calls: map<CallId, Call>)

  datatype Action =
    | Begin(c: CallId)
    | Acquire(c: CallId)
    | DialFails(c: CallId)
    | DialOpens(c: CallId)
    | HandshakeFails(c: CallId)
    | HandshakeDone(c: CallId)
    | RoundTrip(c: CallId, ok: bool)
    | Release(c: CallId)
    | CloseAll

  // ---------------------------------------------------------------------------
  // The mutex sections
  // ---------------------------------------------------------------------------

  function Released(pool: seq<Conn>, closed: set<Conn>, maxIdle: nat, conn: Conn): (seq<Conn>, set<Conn>) {
    if |pool| >= maxIdle then (pool, closed + {conn}) else (pool + [conn], closed)
  }

  class Redis {
    const maxIdle: nat
    var pool: seq<Conn>
    var closed: set<Conn>
    var dialled: nat

    constructor (maxIdle: nat)
      ensures this.maxIdle == maxIdle && pool == [] && closed == {} && dialled == 0
    {
      this.maxIdle := maxIdle;
      pool, closed, dialled := [], {}, 0;
    }

    /** With no call in flight, every dialled connection is pooled once or closed. */
    ghost predicate Quiet()
      reads this
    {
      Settled(pool, closed, dialled, maxIdle)
    }

    method AcquireConn() returns (found: bool, conn: Conn)
      modifies this
      ensures found <==> old(pool) != []
      ensures found ==> old(pool) == pool + [conn]
      ensures !found ==> pool == old(pool)
      ensures closed == old(closed) && dialled == old(dialled)
    {
      var n := |pool|;
      if n > 0 {
        conn := pool[n - 1];
        pool := pool[..n - 1];
        return true, conn;
      }
      return false, 0;
    }

    method ReleaseConn(conn: Conn)
      modifies this
      ensures |old(pool)| < maxIdle ==> pool == old(pool) + [conn] && closed == old(closed)
      ensures |old(pool)| >= maxIdle ==> pool == old(pool) && closed == old(closed) + {conn}
      ensures (pool, closed) == Released(old(pool), old(closed), maxIdle, conn) && dialled == old(dialled)
    {
      if |pool| >= maxIdle {
        closed := closed + {conn};
        return;
      }
      pool := pool + [conn];
    }

    method Close()
      modifies this
      ensures pool == [] && closed == old(closed) + Elements(old(pool)) && dialled == old(dialled)
    {
      var i := 0;
      while i < |pool|
        invariant 0 <= i <= |pool| && pool == old(pool) && dialled == old(dialled)
        invariant closed == old(closed) + Elements(pool[..i])
      {
        closed := closed + {pool[i]};
        assert pool[..i + 1] == pool[..i] + [pool[i]];
        i := i + 1;
      }
      assert pool[..i] == pool;
      pool := [];
    }

    /** Opens a connection; one whose handshake fails is closed again. */
    method Dial(a: Attempt) returns (ok: bool, conn: Conn)
      modifies this
      ensures pool == old(pool) && ok == (a.opens && a.handshake) && conn == old(dialled)
      ensures dialled == old(dialled) + (if a.opens then 1 else 0)
      ensures closed == if a.opens && !a.handshake then old(closed) + {conn} else old(closed)
    {
      conn := dialled;
      if !a.opens {
        return false, conn;
      }
      dialled := dialled + 1;
      if !a.handshake {
        closed := closed + {conn};
        return false, conn;
      }
      return true, conn;
    }

    /**
      One call, undisturbed: a failed round trip is retried once on a fresh connection,
      pooled or not, the connection that answered goes back to the pool while there is room,
      and whatever happens no connection is leaked or pooled twice.  `trace` is the same call
      as steps of the protocol below.
     */
    method Do(first: Attempt, second: Attempt) returns (ok: bool, sent: nat, ghost trace: seq<Action>)
      requires Quiet()
      modifies this
      ensures Quiet()
      ensures var reached := old(pool) != [] || (first.opens && first.handshake);
              && (ok <==> reached && (first.replies || (second.opens && second.handshake && second.replies)))
              && sent == (if !reached then 0 else if first.replies || !(second.opens && second.handshake) then 1 else 2)
      ensures old(pool) != [] && first.replies ==>
                pool == old(pool) && closed == old(closed) && dialled == old(dialled)
      ensures old(pool) == [] && first.opens && first.handshake && first.replies && maxIdle > 0 ==>
                pool == [old(dialled)] && closed == old(closed) && dialled == old(dialled) + 1
      ensures !first.replies && ok ==>
                dialled >= 1 && (maxIdle > 0 ==> pool != [] && pool[|pool| - 1] == dialled - 1)
      ensures !ok ==> pool == if old(pool) == [] then [] else old(pool)[..|old(pool)| - 1]
      ensures Continue(State(maxIdle, old(dialled), old(pool), old(closed), map[]), trace) ==
              State(maxIdle, dialled, pool, closed, map[0 := Call(Returned(ok), sent)])
    {
      PoolFits(pool, closed, dialled, maxIdle);
      hide Settled, Held, Continue, Released;
      ghost var start := At(pool, closed, dialled);
      var taken, conn;
      taken, conn, trace := Take(first);
      if !taken {
        return false, 0, trace;
      }
      trace := Answered(start, trace, At(pool, closed, dialled), conn, false, first.replies);
      if !first.replies {
        ok, sent, trace := Again(conn, second, start, trace);
        return;
      }
      ReleaseSettled(pool, closed, dialled, maxIdle, conn);
      trace := Finished(start, trace, At(pool, closed, dialled), conn, false, 1);
      ReleaseConn(conn);
      return true, 1, trace;
    }

    /** The connection of the first attempt: a pooled one, or a fresh one when the pool is empty. */
    method Take(first: Attempt) returns (ok: bool, conn: Conn, ghost trace: seq<Action>)
      requires Quiet()
      modifies this
      ensures ok <==> old(pool) != [] || (first.opens && first.handshake)
      ensures old(pool) != [] ==> old(pool) == pool + [conn] && dialled == old(dialled) && closed == old(closed)
      ensures old(pool) == [] ==> pool == [] && conn == old(dialled)
      ensures old(pool) == [] && ok ==> dialled == old(dialled) + 1 && closed == old(closed)
      ensures if ok then Held(pool, closed, dialled, maxIdle, conn) else Quiet()
      ensures Continue(old(At(pool, closed, dialled)), trace) ==
              With(At(pool, closed, dialled), if ok then Sending(conn, false) else Returned(false), 0)
    {
      hide Settled, Held, Continue;
      ghost var start := At(pool, closed, dialled);
      trace := Begun(start);
      var found;
      found, conn := AcquireConn();
      trace := Acquired(start, trace, pool, if found then Some(conn) else None);
      if found {
        TakeSettled(old(pool), pool, conn, closed, dialled, maxIdle);
        return true, conn, trace;
      }
      ok, conn := Dial(first);
      DialSettled(old(pool), old(closed), old(dialled), maxIdle, first);
      trace := Dialled(start, trace, start, false, first);
    }

    /** The failed connection is closed, and a fresh one tried exactly once. */
    method Again(conn: Conn, second: Attempt, ghost start: State, ghost before: seq<Action>)
      returns (ok: bool, sent: nat, ghost trace: seq<Action>)
      requires Held(pool, closed, dialled, maxIdle, conn)
      requires Continue(start, before) == With(At(pool, closed + {conn}, dialled), Dialling(true), 1)
      modifies this
      ensures Quiet()
      ensures ok <==> second.opens && second.handshake && second.replies
      ensures sent == if second.opens && second.handshake then 2 else 1
      ensures dialled == if second.opens then old(dialled) + 1 else old(dialled)
      ensures ok && |old(pool)| < maxIdle ==> pool == old(pool) + [old(dialled)]
      ensures !ok || |old(pool)| >= maxIdle ==> pool == old(pool)
      ensures Continue(start, trace) == With(At(pool, closed, dialled), Returned(ok), sent)
    {
      hide Settled, Held, Continue;
      closed := closed + {conn};
      HeldSettles(pool, old(closed), dialled, maxIdle, conn);
      ghost var shut := closed;
      var dialOk, renewed := Dial(second);
      DialSettled(pool, shut, old(dialled), maxIdle, second);
      trace := Dialled(start, before, At(pool, shut, old(dialled)), true, second);
      if !dialOk {
        return false, 1, trace;
      }
      trace := Answered(start, trace, At(pool, closed, dialled), renewed, true, second.replies);
      if !second.replies {
        HeldSettles(pool, closed, dialled, maxIdle, renewed);
        closed := closed + {renewed};
        return false, 2, trace;
      }
      ReleaseSettled(pool, closed, dialled, maxIdle, renewed);
      trace := Finished(start, trace, At(pool, closed, dialled), renewed, true, 2);
      ReleaseConn(renewed);
      return true, 2, trace;
    }

    ghost function At(pool: seq<Conn>, closed: set<Conn>, dialled: nat): State {
      State(maxIdle, dialled, pool, closed, map[])
    }
  }

  lemma {:induction false} PoolFits(pool: seq<Conn>, closed: set<Conn>, dialled: nat, maxIdle: nat)
    requires Settled(pool, closed, dialled, maxIdle)
    ensures |pool| <= maxIdle
  {
  }

  /** The state with call 0 alone. */
  ghost function With(s: State, stage: Stage, sent: nat): State {
    s.(calls := map[0 := Call(stage, sent)])
  }

  lemma {:induction false} OnlyCall(a: Call, b: Call)
    ensures map[0 as CallId := a][0 := b] == map[0 as CallId := b] && map[][0 as CallId := a] == map[0 as CallId := a]
  {
  }

  lemma {:induction false} ContinueSnoc(s: State, actions: seq<Action>, a: Action)
    ensures Continue(s, actions + [a]) == Next(Continue(s, actions), a)
    decreases |actions|
  {
    hide Next;
    if actions == [] {
      assert [] + [a] == [a] && [a][1..] == [];
      assert Continue(Next(s, a), []) == Next(s, a);
    } else {
      assert (actions + [a])[1..] == actions[1..] + [a];
      ContinueSnoc(Next(s, actions[0]), actions[1..], a);
    }
  }

  lemma {:induction false} Begun(s: State) returns (trace: seq<Action>)
    requires s.calls == map[]
    ensures Continue(s, trace) == With(s, Acquiring, 0)
  {
    trace := [Begin(0)];
    ContinueSnoc(s, [], Begin(0));
    assert [] + [Begin(0)] == trace;
  }

  lemma {:induction false} Acquired(s: State, before: seq<Action>, pool: seq<Conn>, got: Option<Conn>)
    returns (trace: seq<Action>)
    requires Continue(s, before) == With(s, Acquiring, 0)
    requires got.Some? ==> s.pool == pool + [got.value]
    requires got.None? ==> s.pool == [] && pool == []
    ensures Continue(s, trace) ==
            With(s.(pool := pool), if got.Some? then Sending(got.value, false) else Dialling(false), 0)
  {
    hide Continue;
    trace := before + [Acquire(0)];
    ContinueSnoc(s, before, Acquire(0));
    assert got.Some? ==> s.pool[..|s.pool| - 1] == pool;
    OnlyCall(Call(Acquiring, 0), Call(if got.Some? then Sending(got.value, false) else Dialling(false), 0));
  }

  lemma {:induction false} Dialled(s: State, before: seq<Action>, at: State, retry: bool, a: Attempt)
    returns (trace: seq<Action>)
    requires Continue(s, before) == With(at, Dialling(retry), if retry then 1 else 0)
    ensures var sent := if retry then 1 else 0;
            Continue(s, trace) ==
            if !a.opens then With(at, Returned(false), sent)
            else if !a.handshake then
              With(at.(dialled := at.dialled + 1, closed := at.closed + {at.dialled}), Returned(false), sent)
            else With(at.(dialled := at.dialled + 1), Sending(at.dialled, retry), sent)
  {
    hide Continue;
    var sent := if retry then 1 else 0;
    if !a.opens {
      trace := before + [DialFails(0)];
      ContinueSnoc(s, before, DialFails(0));
      OnlyCall(Call(Dialling(retry), sent), Call(Returned(false), sent));
    } else {
      var open := before + [DialOpens(0)];
      ContinueSnoc(s, before, DialOpens(0));
      OnlyCall(Call(Dialling(retry), sent), Call(Handshaking(at.dialled, retry), sent));
      var last := if a.handshake then HandshakeDone(0) else HandshakeFails(0);
      trace := open + [last];
      ContinueSnoc(s, open, last);
      OnlyCall(Call(Handshaking(at.dialled, retry), sent),
               Call(if a.handshake then Sending(at.dialled, retry) else Returned(false), sent));
    }
  }

  lemma {:induction false} Answered(s: State, before: seq<Action>, at: State, conn: Conn, retry: bool, replies: bool)
    returns (trace: seq<Action>)
    requires Continue(s, before) == With(at, Sending(conn, retry), if retry then 1 else 0)
    ensures var sent := if retry then 2 else 1;
            Continue(s, trace) ==
            if replies then With(at, Releasing(conn, retry), sent)
            else With(at.(closed := at.closed + {conn}), if retry then Returned(false) else Dialling(true), sent)
  {
    hide Continue;
    var sent := if retry then 2 else 1;
    trace := before + [RoundTrip(0, replies)];
    ContinueSnoc(s, before, RoundTrip(0, replies));
    OnlyCall(Call(Sending(conn, retry), sent - 1),
             Call(if replies then Releasing(conn, retry) else if retry then Returned(false) else Dialling(true), sent));
  }

  lemma {:induction false} Finished(s: State, before: seq<Action>, at: State, conn: Conn, retry: bool, sent: nat)
    returns (trace: seq<Action>)
    requires Continue(s, before) == With(at, Releasing(conn, retry), sent)
    ensures var (pool, closed) := Released(at.pool, at.closed, at.maxIdle, conn);
            Continue(s, trace) == With(at.(pool := pool, closed := closed), Returned(true), sent)
  {
    hide Continue;
    trace := before + [Release(0)];
    ContinueSnoc(s, before, Release(0));
    OnlyCall(Call(Releasing(conn, retry), sent), Call(Returned(true), sent));
  }

  /** What the network does with one attempt of a call. */
  datatype Attempt = Attempt(opens: bool, handshake: bool, replies: bool)

  ghost predicate Settled(pool: seq<Conn>, closed: set<Conn>, dialled: nat, maxIdle: nat) {
    && |pool| <= maxIdle && Once(pool)
    && forall k: Conn :: (k < dialled <==> k in pool || k in closed) && !(k in pool && k in closed)
  }

  /** All but one connection, the one a call holds, are settled. */
  ghost predicate Held(pool: seq<Conn>, closed: set<Conn>, dialled: nat, maxIdle: nat, conn: Conn) {
    && |pool| <= maxIdle && Once(pool) && conn < dialled && conn !in pool && conn !in closed
    && forall k: Conn :: (k < dialled <==> k in pool || k in closed || k == conn) && !(k in pool && k in closed)
  }

  lemma {:induction false} TakeSettled(before: seq<Conn>, pool: seq<Conn>, conn: Conn, closed: set<Conn>,
                                       dialled: nat, maxIdle: nat)
    requires Settled(before, closed, dialled, maxIdle) && before == pool + [conn]
    ensures Held(pool, closed, dialled, maxIdle, conn)
  {
    assert conn in before;
    forall k: Conn ensures k in before <==> k in pool || k == conn {
    }
    forall i | 0 <= i < |pool| ensures pool[i] == before[i] && pool[i] != conn {
      assert before[i] != before[|pool|];
    }
  }

  lemma {:induction false} DialSettled(pool: seq<Conn>, closed: set<Conn>, dialled: nat, maxIdle: nat, a: Attempt)
    requires Settled(pool, closed, dialled, maxIdle)
    ensures !a.opens ==> Settled(pool, closed, dialled, maxIdle)
    ensures Settled(pool, closed + {dialled}, dialled + 1, maxIdle)
    ensures Held(pool, closed, dialled + 1, maxIdle, dialled)
  {
    assert dialled !in pool && dialled !in closed;
  }

  lemma {:induction false} HeldSettles(pool: seq<Conn>, closed: set<Conn>, dialled: nat, maxIdle: nat, conn: Conn)
    requires Held(pool, closed, dialled, maxIdle, conn)
    ensures Settled(pool, closed + {conn}, dialled, maxIdle)
  {
  }

  lemma {:induction false} ReleaseSettled(pool: seq<Conn>, closed: set<Conn>, dialled: nat, maxIdle: nat, conn: Conn)
    requires Held(pool, closed, dialled, maxIdle, conn)
    ensures var (p, c) := Released(pool, closed, maxIdle, conn); Settled(p, c, dialled, maxIdle)
  {
    var (p, c) := Released(pool, closed, maxIdle, conn);
    forall k: Conn ensures k in p || k in c <==> k in pool || k in closed || k == conn {
    }
  }

  // ---------------------------------------------------------------------------
  // Steps
  // ---------------------------------------------------------------------------

  predicate Enabled(s: State, a: Action) {
    match a
    case CloseAll => true
    case Begin(c) => c !in s.calls
    case Acquire(c) => c in s.calls && s.calls[c].stage.Acquiring?
    case DialFails(c) => c in s.calls && s.calls[c].stage.Dialling?
    case DialOpens(c) => c in s.calls && s.calls[c].stage.Dialling?
    case HandshakeFails(c) => c in s.calls && s.calls[c].stage.Handshaking?
    case HandshakeDone(c) => c in s.calls && s.calls[c].stage.Handshaking?
    case RoundTrip(c, _) => c in s.calls && s.calls[c].stage.Sending?
    case Release(c) => c in s.calls && s.calls[c].stage.Releasing?
  }

  function Moved(s: State, c: CallId, st: Stage): State
    requires c in s.calls
  {
    s.(calls := s.calls[c := s.calls[c].(stage := st)])
  }

  function Step(s: State, a: Action): State
    requires Enabled(s, a)
  {
    match a
    case Begin(c) => s.(calls := s.calls[c := Call(Acquiring, 0)])
    case Acquire(c) =>
      if s.pool == [] then Moved(s, c, Dialling(false))
      else
        var n := |s.pool| - 1;
        Moved(s, c, Sending(s.pool[n], false)).(pool := s.pool[..n])
    case DialFails(c) => Moved(s, c, Returned(false))
    case DialOpens(c) =>
      Moved(s, c, Handshaking(s.dialled, s.calls[c].stage.retry)).(dialled := s.dialled + 1)
    case HandshakeFails(c) =>
      Moved(s, c, Returned(false)).(closed := s.closed + {s.calls[c].stage.conn})
    case HandshakeDone(c) => Moved(s, c, Sending(s.calls[c].stage.conn, s.calls[c].stage.retry))
    case RoundTrip(c, ok) =>
      var Sending(conn, retry) := s.calls[c].stage;
      var sent := s.calls[c].sent + 1;
      if ok then s.(calls := s.calls[c := Call(Releasing(conn, retry), sent)])
      else s.(calls := s.calls[c := Call(if retry then Returned(false) else Dialling(true), sent)],
              closed := s.closed + {conn})
    case Release(c) =>
      var (pool, closed) := Released(s.pool, s.closed, s.maxIdle, s.calls[c].stage.conn);
      Moved(s, c, Returned(true)).(pool := pool, closed := closed)
    case CloseAll => s.(pool := [], closed := s.closed + Elements(s.pool))
  }

  function Init(maxIdle: nat): State {
    State(maxIdle, 0, [], {}, map[])
  }

  // ---------------------------------------------------------------------------
  // Ownership
  // ---------------------------------------------------------------------------

  ghost predicate Holds(st: Stage, k: Conn) {
    (st.Handshaking? || st.Sending? || st.Releasing?) && st.conn == k
  }

  ghost predicate Owns(s: State, c: CallId, k: Conn) {
    c in s.calls && Holds(s.calls[c].stage, k)
  }

  ghost predicate InFlight(s: State, k: Conn) {
    exists c :: Owns(s, c, k)
  }

  ghost predicate Once(pool: seq<Conn>) {
    forall i, j :: 0 <= i < j < |pool| ==> pool[i] != pool[j]
  }

  /** A dialled connection is in exactly one of the three places, and nothing else is anywhere. */
  ghost predicate Placed(s: State, k: Conn) {
    && (InFlight(s, k) ==> k !in s.pool && k !in s.closed)
    && (k in s.pool ==> k !in s.closed)
    && (k < s.dialled <==> InFlight(s, k) || k in s.pool || k in s.closed)
  }

  ghost predicate OneOwner(s: State) {
    forall c, d, k :: Owns(s, c, k) && Owns(s, d, k) ==> c == d
  }

  /** How often the command may have been sent by the time a call is at a stage. */
  ghost predicate Counted(call: Call) {
    match call.stage
    case Acquiring => call.sent == 0
    case Returned(_) => call.sent <= 2
    case Releasing(_, retry) => call.sent == if retry then 2 else 1
    case _ => call.sent == if call.stage.retry then 1 else 0
  }

  ghost predicate Sound(s: State) {
    && |s.pool| <= s.maxIdle && Once(s.pool)
    && OneOwner(s)
    && (forall k :: Placed(s, k))
    && (forall c :: c in s.calls ==> Counted(s.calls[c]))
  }

  // ---------------------------------------------------------------------------
  // Every step keeps the ownership discipline
  // ---------------------------------------------------------------------------

  /** One call trades `given` connections for `taken` ones; everybody else keeps theirs. */
  lemma {:induction false} FlightAfter(s: State, s': State, c: CallId)
    requires OneOwner(s)
    requires c in s'.calls && forall d :: d != c ==>
               (d in s.calls <==> d in s'.calls) && (d in s.calls ==> s.calls[d] == s'.calls[d])
    ensures forall k :: InFlight(s', k) <==> Owns(s', c, k) || (InFlight(s, k) && !Owns(s, c, k))
  {
    forall k ensures InFlight(s', k) <==> Owns(s', c, k) || (InFlight(s, k) && !Owns(s, c, k)) {
      if InFlight(s', k) && !Owns(s', c, k) {
        var d :| Owns(s', d, k);
        assert Owns(s, d, k);
      }
      if InFlight(s, k) && !Owns(s, c, k) {
        var d :| Owns(s, d, k);
        assert Owns(s', d, k);
      }
    }
  }

  lemma {:induction false} OwnersAfter(s: State, s': State, c: CallId)
    requires OneOwner(s)
    requires c in s'.calls && forall d :: d != c ==>
               (d in s.calls <==> d in s'.calls) && (d in s.calls ==> s.calls[d] == s'.calls[d])
    requires forall k :: Owns(s', c, k) ==> Owns(s, c, k) || !InFlight(s, k)
    ensures OneOwner(s')
  {
    forall d, e, k | Owns(s', d, k) && Owns(s', e, k) ensures d == e {
      if d != c {
        assert Owns(s, d, k);
      }
      if e != c {
        assert Owns(s, e, k);
      }
    }
  }

  lemma {:induction false} Popped(pool: seq<Conn>)
    requires pool != [] && Once(pool)
    ensures var rest, k := pool[..|pool| - 1], pool[|pool| - 1];
            Once(rest) && k !in rest && forall x :: x in pool <==> x in rest || x == k
  {
    assert pool == pool[..|pool| - 1] + [pool[|pool| - 1]];
  }

  lemma {:induction false} AcquireKeeps(s: State, c: CallId)
    requires Sound(s) && Enabled(s, Acquire(c))
    ensures Sound(Step(s, Acquire(c)))
  {
    var s' := Step(s, Acquire(c));
    FlightAfter(s, s', c);
    if s.pool != [] {
      Popped(s.pool);
      assert Placed(s, s.pool[|s.pool| - 1]);
    }
    assert forall k :: (k in s.pool <==> k in s'.pool || Owns(s', c, k)) && !(k in s'.pool && Owns(s', c, k));
    OwnersAfter(s, s', c);
    forall k ensures Placed(s', k) {
      assert Placed(s, k);
    }
  }

  lemma {:induction false} ReleaseKeeps(s: State, c: CallId)
    requires Sound(s) && Enabled(s, Release(c))
    ensures Sound(Step(s, Release(c)))
  {
    var s' := Step(s, Release(c));
    var conn := s.calls[c].stage.conn;
    assert Owns(s, c, conn) && Placed(s, conn);
    FlightAfter(s, s', c);
    OwnersAfter(s, s', c);
    forall k ensures Placed(s', k) {
      assert Placed(s, k);
      assert k in s'.pool || k in s'.closed <==> k in s.pool || k in s.closed || k == conn;
    }
  }

  /** A call moves on alone: it keeps, opens or closes its own connection. */
  lemma {:induction false} AloneKeeps(s: State, a: Action)
    requires Sound(s) && Enabled(s, a) && !a.CloseAll? && !a.Acquire? && !a.Release?
    ensures Sound(Step(s, a))
  {
    var s' := Step(s, a);
    FlightAfter(s, s', a.c);
    assert Placed(s, s.dialled);
    OwnersAfter(s, s', a.c);
    forall k ensures Placed(s', k) {
      assert Placed(s, k);
      assert Owns(s, a.c, k) ==> InFlight(s, k);
    }
  }

  lemma {:induction false} CloseKeeps(s: State)
    requires Sound(s)
    ensures Sound(Step(s, CloseAll))
  {
    var s' := Step(s, CloseAll);
    forall c, k ensures Owns(s', c, k) <==> Owns(s, c, k) {
    }
    forall k ensures InFlight(s', k) <==> InFlight(s, k) {
      if InFlight(s, k) {
        var c :| Owns(s, c, k);
        assert Owns(s', c, k);
      }
    }
    forall k ensures Placed(s', k) {
      assert Placed(s, k);
    }
  }

  lemma {:induction false} StepKeeps(s: State, a: Action)
    requires Sound(s) && Enabled(s, a)
    ensures Sound(Step(s, a)) && Step(s, a).maxIdle == s.maxIdle
  {
    hide Sound;
    match a
    case Acquire(c) => AcquireKeeps(s, c);
    case Release(c) => ReleaseKeeps(s, c);
    case CloseAll => CloseKeeps(s);
    case _ => AloneKeeps(s, a);
  }

  // ---------------------------------------------------------------------------
  // Every run
  // ---------------------------------------------------------------------------

  /** Any sequence of actions is a schedule; one that is not enabled does nothing. */
  function Next(s: State, a: Action): State {
    if Enabled(s, a) then Step(s, a) else s
  }

  function Run(maxIdle: nat, schedule: seq<Action>): State {
    if schedule == [] then Init(maxIdle)
    else Next(Run(maxIdle, schedule[..|schedule| - 1]), schedule[|schedule| - 1])
  }

  lemma {:induction false} RunIsSound(maxIdle: nat, schedule: seq<Action>)
    ensures Sound(Run(maxIdle, schedule)) && Run(maxIdle, schedule).maxIdle == maxIdle
  {
    if schedule == [] {
      assert forall k :: !InFlight(Init(maxIdle), k);
    } else {
      hide Sound, Step, Enabled;
      var before, a := Run(maxIdle, schedule[..|schedule| - 1]), schedule[|schedule| - 1];
      RunIsSound(maxIdle, schedule[..|schedule| - 1]);
      if Enabled(before, a) {
        StepKeeps(before, a);
      }
    }
  }

  /**
    In every interleaving of calls and Close, each dialled connection is owned by one
    call, pooled once or closed; the pool respects its bound; a call that has returned
    owns nothing and sent its command at most twice.
   */
  lemma {:induction false} EveryRun(maxIdle: nat, schedule: seq<Action>)
    ensures var s := Run(maxIdle, schedule);
            && |s.pool| <= maxIdle && Once(s.pool) && OneOwner(s)
            && (forall k :: Placed(s, k))
            && (forall c, k :: c in s.calls && s.calls[c].stage.Returned? ==> s.calls[c].sent <= 2 && !Owns(s, c, k))
  {
    RunIsSound(maxIdle, schedule);
    var s := Run(maxIdle, schedule);
    assert forall c :: c in s.calls ==> Counted(s.calls[c]);
  }

  // ---------------------------------------------------------------------------
  // A call ends, and what Close leaves behind
  // ---------------------------------------------------------------------------

  /** Steps a call can still take. */
  function Left(st: Stage): nat {
    match st
    case Acquiring => 8
    case Dialling(retry) => if retry then 4 else 7
    case Handshaking(_, retry) => if retry then 3 else 6
    case Sending(_, retry) => if retry then 2 else 5
    case Releasing(_, _) => 1
    case Returned(_) => 0
  }

  /** Every step of a call brings it closer to returning, and no one else's step delays it. */
  lemma {:induction false} CallsEnd(s: State, a: Action, c: CallId)
    requires Enabled(s, a) && c in s.calls
    ensures c in Step(s, a).calls
    ensures !a.CloseAll? && a.c == c ==> Left(Step(s, a).calls[c].stage) < Left(s.calls[c].stage)
    ensures a.CloseAll? || a.c != c ==> Step(s, a).calls[c] == s.calls[c]
  {
    if !a.CloseAll? && a.c == c {
      assert !a.Begin?;
    }
  }

  /** After Close exactly the connections in flight are open. */
  lemma {:induction false} CloseLeavesInFlight(s: State, k: Conn)
    requires Sound(s)
    ensures var s' := Step(s, CloseAll); k < s'.dialled && k !in s'.closed <==> InFlight(s, k)
  {
    assert Placed(s, k);
  }

  /** So Close closes everything exactly when no call is in flight with a connection. */
  lemma {:induction false} CloseClosesAll(s: State)
    requires Sound(s)
    ensures (forall k: Conn :: k < s.dialled ==> k in Step(s, CloseAll).closed) <==> (forall k :: !InFlight(s, k))
  {
    hide Sound;
    var closed := Step(s, CloseAll).closed;
    forall k: Conn ensures k < s.dialled && k !in closed <==> InFlight(s, k) {
      CloseLeavesInFlight(s, k);
    }
    if exists k: Conn :: InFlight(s, k) {
      var k: Conn :| InFlight(s, k);
      assert k < s.dialled && k !in closed;
    }
  }

  // ---------------------------------------------------------------------------
  // The pool after Close
  // ---------------------------------------------------------------------------

  /** The state after further actions. */
  function Continue(s: State, actions: seq<Action>): State
    decreases |actions|
  {
    if actions == [] then s else Continue(Next(s, actions[0]), actions[1..])
  }

  lemma {:induction false} RunAppend(maxIdle: nat, a: seq<Action>, b: seq<Action>)
    ensures Run(maxIdle, a + b) == Continue(Run(maxIdle, a), b)
    decreases |b|
  {
    hide Next;
    if b == [] {
      assert a + b == a;
    } else {
      assert a + b == a + [b[0]] + b[1..] && (a + [b[0]])[..|a|] == a;
      RunAppend(maxIdle, a + [b[0]], b[1..]);
    }
  }

  ghost predicate NoBegin(actions: seq<Action>) {
    forall i :: 0 <= i < |actions| ==> !actions[i].Begin?
  }

  ghost predicate AllReturned(s: State) {
    forall c :: c in s.calls ==> s.calls[c].stage.Returned?
  }

  /** With every call returned, only new calls could do anything but close again. */
  lemma {:induction false} NothingLeft(s: State, actions: seq<Action>)
    requires s.pool == [] && AllReturned(s) && NoBegin(actions)
    ensures Continue(s, actions).pool == []
    decreases |actions|
  {
    if actions != [] {
      var a := actions[0];
      assert Enabled(s, a) ==> a.CloseAll?;
      NothingLeft(Next(s, a), actions[1..]);
    }
  }

  /** A pool without room stays empty under every action. */
  lemma {:induction false} NoRoom(s: State, actions: seq<Action>)
    requires s.pool == [] && s.maxIdle == 0
    ensures Continue(s, actions).pool == []
    decreases |actions|
  {
    if actions != [] {
      NoRoom(Next(s, actions[0]), actions[1..]);
    }
  }

  /** The next step of a call that goes well. */
  function Onward(st: Stage, c: CallId): Action {
    match st
    case Acquiring => Acquire(c)
    case Dialling(_) => DialOpens(c)
    case Handshaking(_, _) => HandshakeDone(c)
    case Sending(_, _) => RoundTrip(c, true)
    case _ => Release(c)
  }

  /** Any call that has not returned can finish well on its own and pool its connection. */
  lemma {:induction false} Refill(s: State, c: CallId) returns (actions: seq<Action>)
    requires s.pool == [] && s.maxIdle > 0 && c in s.calls && !s.calls[c].stage.Returned?
    ensures NoBegin(actions) && Continue(s, actions).pool != []
    decreases Left(s.calls[c].stage)
  {
    var a := Onward(s.calls[c].stage, c);
    var s' := Next(s, a);
    if s.calls[c].stage.Releasing? {
      actions := [a];
      assert Continue(s', actions[1..]) == s';
    } else {
      var more := Refill(s', c);
      actions := [a] + more;
      assert actions[1..] == more;
    }
  }

  lemma {:induction false} EmptyAfterClose(s: State)
    requires s.pool == []
    ensures (forall actions :: NoBegin(actions) ==> Continue(s, actions).pool == []) <==>
            s.maxIdle == 0 || AllReturned(s)
  {
    hide Continue, NoBegin;
    if s.maxIdle == 0 || AllReturned(s) {
      forall actions | NoBegin(actions) ensures Continue(s, actions).pool == [] {
        if s.maxIdle == 0 {
          NoRoom(s, actions);
        } else {
          NothingLeft(s, actions);
        }
      }
    } else {
      var c :| c in s.calls && !s.calls[c].stage.Returned?;
      var actions := Refill(s, c);
    }
  }

  /**
    After Close, and with no new call begun, the pool of the closed client stays empty
    whatever happens exactly when it has no room or every call had returned by then.
    A call at any other stage, even one that has not dialled yet, can refill it.
   */
  lemma {:induction false} PoolRefillsAfterClose(maxIdle: nat, schedule: seq<Action>)
    ensures (forall actions :: NoBegin(actions) ==> Run(maxIdle, schedule + [CloseAll] + actions).pool == []) <==>
            maxIdle == 0 || AllReturned(Run(maxIdle, schedule))
  {
    RunIsSound(maxIdle, schedule);
    var s := Run(maxIdle, schedule);
    var shut := Step(s, CloseAll);
    assert Run(maxIdle, schedule + [CloseAll]) == shut by {
      assert (schedule + [CloseAll])[..|schedule|] == schedule;
    }
    assert AllReturned(shut) <==> AllReturned(s);
    hide Run, Sound, Step, AllReturned, NoBegin;
    EmptyAfterClose(shut);
    forall actions ensures Run(maxIdle, schedule + [CloseAll] + actions) == Continue(shut, actions) {
      RunAppend(maxIdle, schedule + [CloseAll], actions);
    }
  }
}
