/**
  The server-sent-events hub (backend/internal/event/hub.go): broadcasts fan out to
  bounded client channels, slow clients lose events, and clients come and go.

  Steps interleave freely: a join, a broadcast, a client taking one event, and the two
  halves of leaving, which are removing the channel from the hub and closing it.
 */
module Hub {

  type Chan = nat

  datatype Event = Event(name: string, data: string)

  /** Capacity of a client channel. */
  const CAPACITY: nat := 32

  /** A channel with its history: what was taken from it, what it lost, where its client joined. */
  datatype Client = Client(
    buffer: seq<Event>,
    taken: seq<Event>,
    dropped: nat,
    joined: nat,
    left: nat,
    registered: bool,
    closed: bool)

  /** `log` lists all broadcasts so far; `panicked` records a send on a closed channel. */
  datatype State = State(clients: map<Chan, Client>, log: seq<Event>, panicked: bool)

  datatype Action =
    | Join(ch: Chan)
    | Broadcast(e: Event)
    | Receive(ch: Chan)
    | Unregister(ch: Chan)
    | Close(ch: Chan)

  // ---------------------------------------------------------------------------
  // Steps
  // ---------------------------------------------------------------------------

  /** The non-blocking send. */
  ghost function Offered(c: Client, e: Event): Client {
    if |c.buffer| < CAPACITY then c.(buffer := c.buffer + [e]) else c.(dropped := c.dropped + 1)
  }

  ghost function Step(s: State, a: Action): State {
    match a
    case Join(ch) =>
      if ch in s.clients then s
      else s.(clients := s.clients[ch := Client([], [], 0, |s.log|, 0, true, false)])
    case Broadcast(e) =>
      State(map ch | ch in s.clients :: if s.clients[ch].registered then Offered(s.clients[ch], e) else s.clients[ch],
            s.log + [e],
            s.panicked || exists ch :: ch in s.clients && s.clients[ch].registered && s.clients[ch].closed)
    case Receive(ch) =>
      if ch !in s.clients || !s.clients[ch].registered || s.clients[ch].buffer == [] then s
      else
        var c := s.clients[ch];
        s.(clients := s.clients[ch := c.(taken := c.taken + [c.buffer[0]], buffer := c.buffer[1..])])
    case Unregister(ch) =>
      if ch !in s.clients || !s.clients[ch].registered then s
      else s.(clients := s.clients[ch := s.clients[ch].(registered := false, left := |s.log|)])
    case Close(ch) =>
      if ch !in s.clients || s.clients[ch].registered then s
      else s.(clients := s.clients[ch := s.clients[ch].(closed := true)])
  }

  ghost function Run(schedule: seq<Action>): State {
    if schedule == [] then State(map[], [], false)
    else Step(Run(schedule[..|schedule| - 1]), schedule[|schedule| - 1])
  }

  // ---------------------------------------------------------------------------
  // What a client sees
  // ---------------------------------------------------------------------------

  /** `a` arises from `b` by leaving elements out. */
  ghost predicate Subsequence(a: seq<Event>, b: seq<Event>) {
    a == [] ||
    (b != [] &&
     ((a[|a| - 1] == b[|b| - 1] && Subsequence(a[..|a| - 1], b[..|b| - 1])) || Subsequence(a, b[..|b| - 1])))
  }

  /** The broadcasts made while the client was registered. */
  ghost function Heard(log: seq<Event>, c: Client): seq<Event>
    requires c.joined <= |log| && c.left <= |log|
  {
    if c.registered then log[c.joined..]
    else if c.joined <= c.left then log[c.joined..c.left] else []
  }

  ghost predicate Faithful(log: seq<Event>, c: Client) {
    && c.joined <= |log| && c.left <= |log| && (!c.registered ==> c.joined <= c.left)
    && |c.buffer| <= CAPACITY
    && (c.closed ==> !c.registered)
    && var seen := c.taken + c.buffer;
       && Subsequence(seen, Heard(log, c))
       && |seen| + c.dropped == |Heard(log, c)|
       && (c.dropped == 0 ==> seen == Heard(log, c))
  }

  ghost predicate Sound(s: State) {
    !s.panicked && forall ch :: ch in s.clients ==> Faithful(s.log, s.clients[ch])
  }

  lemma {:induction false} SubsequenceSnoc(a: seq<Event>, b: seq<Event>, e: Event)
    requires Subsequence(a, b)
    ensures Subsequence(a, b + [e]) && Subsequence(a + [e], b + [e])
  {
    var longer := b + [e];
    assert longer[..|longer| - 1] == b;
    assert (a + [e])[..|a|] == a;
  }

  lemma {:induction false} HeardGrows(log: seq<Event>, c: Client, c': Client, e: Event)
    requires c.registered && c'.registered && c'.joined == c.joined <= |log| && c'.left == c.left <= |log|
    ensures Heard(log + [e], c') == Heard(log, c) + [e]
  {
  }

  lemma {:induction false} OfferKeeps(log: seq<Event>, c: Client, e: Event)
    requires Faithful(log, c) && c.registered
    ensures Faithful(log + [e], Offered(c, e))
  {
    hide Subsequence, Heard;
    var c', seen := Offered(c, e), c.taken + c.buffer;
    HeardGrows(log, c, c', e);
    SubsequenceSnoc(seen, Heard(log, c), e);
    assert |c.buffer| < CAPACITY ==> c'.taken + c'.buffer == seen + [e];
  }

  lemma {:induction false} GoneKeeps(log: seq<Event>, c: Client, e: Event)
    requires Faithful(log, c) && !c.registered
    ensures Faithful(log + [e], c)
  {
    hide Subsequence;
    assert (log + [e])[c.joined..c.left] == log[c.joined..c.left];
  }

  lemma {:induction false} ReceiveKeeps(log: seq<Event>, c: Client)
    requires Faithful(log, c) && c.buffer != []
    ensures Faithful(log, c.(taken := c.taken + [c.buffer[0]], buffer := c.buffer[1..]))
  {
    hide Subsequence;
    assert c.taken + [c.buffer[0]] + c.buffer[1..] == c.taken + c.buffer;
  }

  lemma {:induction false} UnregisterKeeps(log: seq<Event>, c: Client)
    requires Faithful(log, c) && c.registered
    ensures Faithful(log, c.(registered := false, left := |log|))
  {
    hide Subsequence;
    assert log[c.joined..|log|] == log[c.joined..];
  }

  lemma {:induction false} CloseKeeps(log: seq<Event>, c: Client)
    requires Faithful(log, c) && !c.registered
    ensures Faithful(log, c.(closed := true))
  {
    hide Subsequence;
  }

  lemma {:induction false} ClientKeeps(s: State, a: Action, ch: Chan)
    requires ch in s.clients && Faithful(s.log, s.clients[ch])
    ensures ch in Step(s, a).clients && Faithful(Step(s, a).log, Step(s, a).clients[ch])
  {
    hide Faithful, Offered;
    var c := s.clients[ch];
    match a
    case Broadcast(e) =>
      if c.registered {
        OfferKeeps(s.log, c, e);
      } else {
        GoneKeeps(s.log, c, e);
      }
    case Receive(_) =>
      if c.buffer != [] {
        ReceiveKeeps(s.log, c);
      }
    case Unregister(_) =>
      if c.registered {
        UnregisterKeeps(s.log, c);
      }
    case Close(_) =>
      if !c.registered {
        CloseKeeps(s.log, c);
      }
    case Join(_) =>
  }

  lemma {:induction false} StepKeeps(s: State, a: Action)
    requires Sound(s)
    ensures Sound(Step(s, a))
  {
    hide Faithful;
    var s' := Step(s, a);
    assert !s'.panicked by {
      NeverClosedWhileRegistered(s);
    }
    forall ch | ch in s'.clients ensures Faithful(s'.log, s'.clients[ch]) {
      if ch !in s.clients {
        NewcomerFaithful(s, ch);
      } else {
        ClientKeeps(s, a, ch);
      }
    }
  }

  lemma {:induction false} NeverClosedWhileRegistered(s: State)
    requires Sound(s)
    ensures !exists ch :: ch in s.clients && s.clients[ch].registered && s.clients[ch].closed
  {
  }

  lemma {:induction false} NewcomerFaithful(s: State, ch: Chan)
    requires ch !in s.clients
    ensures Faithful(Step(s, Join(ch)).log, Step(s, Join(ch)).clients[ch])
  {
  }

  /**
    In every interleaving, what a client has taken followed by what waits in its channel
    is an in-order selection of the broadcasts made while it was registered; it is all of
    them unless something was dropped, and every missing one is a counted drop.  Channels
    hold at most 32 events, and nothing is ever sent on a closed channel.
   */
  lemma {:induction false} EveryRun(schedule: seq<Action>)
    ensures Sound(Run(schedule))
  {
    if schedule != [] {
      EveryRun(schedule[..|schedule| - 1]);
      hide Step, Sound;
      StepKeeps(Run(schedule[..|schedule| - 1]), schedule[|schedule| - 1]);
    }
  }

  /** The channel is registered and 32 events wait in it. */
  ghost predicate Full(s: State, ch: Chan) {
    ch in s.clients && s.clients[ch].registered && |s.clients[ch].buffer| >= CAPACITY
  }

  /** The channel is registered and has room. */
  ghost predicate Open(s: State, ch: Chan) {
    ch in s.clients && s.clients[ch].registered && |s.clients[ch].buffer| < CAPACITY
  }

  /** How many broadcasts of the schedule met the channel when it was full. */
  ghost function MetFull(schedule: seq<Action>, ch: Chan): nat {
    if schedule == [] then 0
    else
      var init, a := schedule[..|schedule| - 1], schedule[|schedule| - 1];
      MetFull(init, ch) + if a.Broadcast? && Full(Run(init), ch) then 1 else 0
  }

  /** The broadcasts of the schedule that met the channel registered and with room, in order. */
  ghost function MetOpen(schedule: seq<Action>, ch: Chan): seq<Event> {
    if schedule == [] then []
    else
      var init, a := schedule[..|schedule| - 1], schedule[|schedule| - 1];
      MetOpen(init, ch) + if a.Broadcast? && Open(Run(init), ch) then [a.e] else []
  }

  lemma {:induction false} StepDrops(s: State, a: Action, ch: Chan)
    ensures ch in Step(s, a).clients ==>
              Step(s, a).clients[ch].dropped ==
              if ch !in s.clients then 0
              else s.clients[ch].dropped + if a.Broadcast? && Full(s, ch) then 1 else 0
    ensures ch in s.clients ==> ch in Step(s, a).clients
  {
  }

  /** What a client has been given, taken or still waiting. */
  ghost function Given(s: State, ch: Chan): seq<Event> {
    if ch in s.clients then s.clients[ch].taken + s.clients[ch].buffer else []
  }

  lemma {:induction false} StepGives(s: State, a: Action, ch: Chan)
    ensures Given(Step(s, a), ch) == Given(s, ch) + if a.Broadcast? && Open(s, ch) then [a.e] else []
  {
    var s' := Step(s, a);
    if ch in s.clients {
      var c, c' := s.clients[ch], s'.clients[ch];
      if a.Broadcast? && Open(s, ch) {
        assert c'.taken + c'.buffer == c.taken + c.buffer + [a.e];
      } else if a.Receive? && a.ch == ch && c.registered && c.buffer != [] {
        assert c.taken + [c.buffer[0]] + c.buffer[1..] == c.taken + c.buffer;
      } else {
        assert c'.taken == c.taken && c'.buffer == c.buffer;
      }
    }
  }

  /**
    Over every run a client has been given exactly the broadcasts that met its channel
    registered and with room, in order, and has lost exactly as many as met it full.
   */
  lemma {:induction false} DropsOnlyWhenFull(schedule: seq<Action>, ch: Chan)
    ensures Given(Run(schedule), ch) == MetOpen(schedule, ch)
    ensures if ch in Run(schedule).clients then Run(schedule).clients[ch].dropped == MetFull(schedule, ch)
            else MetFull(schedule, ch) == 0
  {
    hide Step;
    if schedule != [] {
      var init, a := schedule[..|schedule| - 1], schedule[|schedule| - 1];
      DropsOnlyWhenFull(init, ch);
      StepDrops(Run(init), a, ch);
      StepGives(Run(init), a, ch);
    }
  }

  // ---------------------------------------------------------------------------
  // The hub itself
  // ---------------------------------------------------------------------------

  /** The buffers after the non-blocking send to the visited channels. */
  ghost function SentTo(buffers: map<Chan, seq<Event>>, visited: set<Chan>, e: Event): map<Chan, seq<Event>> {
    map ch | ch in buffers ::
      if ch in visited && |buffers[ch]| < CAPACITY then buffers[ch] + [e] else buffers[ch]
  }

  lemma {:induction false} SentOne(buffers: map<Chan, seq<Event>>, visited: set<Chan>, ch: Chan, e: Event)
    requires ch in buffers && ch !in visited
    ensures SentTo(buffers, visited, e)[ch] == buffers[ch]
    ensures SentTo(buffers, visited + {ch}, e) ==
            if |buffers[ch]| < CAPACITY then SentTo(buffers, visited, e)[ch := buffers[ch] + [e]]
            else SentTo(buffers, visited, e)
  {
  }

  lemma {:induction false} SentNone(buffers: map<Chan, seq<Event>>, e: Event)
    ensures SentTo(buffers, {}, e) == buffers
  {
  }

  /** The event joined exactly the registered channels that held fewer than 32. */
  ghost predicate Delivered(before: map<Chan, seq<Event>>, clients: set<Chan>, e: Event, after: map<Chan, seq<Event>>) {
    && after.Keys == before.Keys
    && forall ch :: ch in after ==>
         after[ch] == if ch in clients && |before[ch]| < 32 then before[ch] + [e] else before[ch]
  }

  lemma {:induction false} SentAll(buffers: map<Chan, seq<Event>>, visited: set<Chan>, e: Event)
    ensures Delivered(buffers, visited, e, SentTo(buffers, visited, e))
  {
  }

  /** The channels are those of a state of the machine: the registered ones, and every buffer. */
  ghost predicate Mirrors(clients: set<Chan>, buffers: map<Chan, seq<Event>>, s: State) {
    && buffers.Keys == s.clients.Keys
    && (forall ch :: ch in s.clients ==> buffers[ch] == s.clients[ch].buffer)
    && (forall ch :: ch in clients <==> ch in s.clients && s.clients[ch].registered)
  }

  lemma {:induction false} MirrorsBroadcast(clients: set<Chan>, buffers: map<Chan, seq<Event>>, s: State, e: Event)
    requires Mirrors(clients, buffers, s)
    ensures Mirrors(clients, SentTo(buffers, clients, e), Step(s, Broadcast(e)))
  {
  }

  class EventHub {
    var clients: set<Chan>
    var buffers: map<Chan, seq<Event>>

    constructor ()
      ensures clients == {} && buffers == map[]
    {
      clients, buffers := {}, map[];
    }

    ghost predicate Reflects(s: State)
      reads this
    {
      Mirrors(clients, buffers, s)
    }

    method Register(ch: Chan, ghost s: State)
      requires Reflects(s) && ch !in buffers
      modifies this
      ensures Reflects(Step(s, Join(ch)))
      ensures clients == old(clients) + {ch} && buffers == old(buffers)[ch := []]
    {
      buffers := buffers[ch := []];
      clients := clients + {ch};
    }

    method DeleteClient(ch: Chan, ghost s: State)
      requires Reflects(s)
      modifies this
      ensures Reflects(Step(s, Unregister(ch)))
      ensures clients == old(clients) - {ch} && buffers == old(buffers)
    {
      clients := clients - {ch};
    }

    /** The receiving end of a client's channel. */
    method TakeEvent(ch: Chan, ghost s: State) returns (e: Event)
      requires Reflects(s) && ch in clients && buffers[ch] != []
      modifies this
      ensures Reflects(Step(s, Receive(ch)))
      ensures e == old(buffers)[ch][0] && clients == old(clients)
      ensures buffers == old(buffers)[ch := old(buffers)[ch][1..]]
    {
      e := buffers[ch][0];
      buffers := buffers[ch := buffers[ch][1..]];
    }

    /** Visits the registered channels in any order; never blocks, never touches the others. */
    method SendToAll(e: Event, ghost s: State)
      requires Reflects(s)
      modifies this
      ensures Reflects(Step(s, Broadcast(e)))
      ensures clients == old(clients) && buffers == SentTo(old(buffers), clients, e)
      ensures Delivered(old(buffers), clients, e, buffers)
    {
      MirrorsBroadcast(clients, buffers, s, e);
      assert clients <= buffers.Keys;
      hide Step, SentTo, Mirrors, Delivered;
      SentNone(buffers, e);
      var todo := clients;
      assert clients - todo == {};
      while todo != {}
        invariant todo <= clients && clients == old(clients)
        invariant buffers == SentTo(old(buffers), clients - todo, e) && buffers.Keys == old(buffers).Keys
      {
        var ch :| ch in todo;
        SentOne(old(buffers), clients - todo, ch, e);
        assert clients - todo + {ch} == clients - (todo - {ch});
        if |buffers[ch]| < CAPACITY {
          buffers := buffers[ch := buffers[ch] + [e]];
        }
        todo := todo - {ch};
      }
      assert clients - todo == clients;
      SentAll(old(buffers), clients, e);
    }
  }
}
