/** The gateway's fan-out buses. Publishers hold the bus for reading while they send,
    subscribers come and go with the bus held for writing, and a full buffer drops. The
    two buses differ in their capacity, 32 and 8; everything here holds for any. */
module Bus {
  type Event = string

  /** A send that never blocks. */
  function Offer<T>(buffer: seq<T>, capacity: nat, m: T): seq<T> {
    if |buffer| < capacity then buffer + [m] else buffer
  }

  // ---- The bus as it is written ----

  class Channel {
    var buffer: seq<Event>
    var closed: bool
    const capacity: nat

    constructor (capacity: nat)
      ensures buffer == [] && !closed && this.capacity == capacity
    {
      buffer, closed, this.capacity := [], false, capacity;
    }

    /** Sending on a closed channel panics, which `requires` rules out. */
    method TrySend(m: Event)
      requires !closed
      modifies this
      ensures buffer == Offer(old(buffer), capacity, m) && closed == old(closed)
    {
      if |buffer| < capacity {
        buffer := buffer + [m];
      }
    }
  }

  class EventBus {
    var clients: set<Channel>
    const capacity: nat

    ghost predicate Valid()
      reads this, clients
    {
      forall ch :: ch in clients ==> !ch.closed && ch.capacity == capacity && |ch.buffer| <= capacity
    }

    constructor (capacity: nat)
      ensures Valid() && clients == {} && this.capacity == capacity
    {
      clients, this.capacity := {}, capacity;
    }

    method Subscribe() returns (ch: Channel)
      requires Valid()
      modifies this
      ensures Valid() && fresh(ch) && clients == old(clients) + {ch} && ch.buffer == []
    {
      ch := new Channel(capacity);
      clients := clients + {ch};
    }

    method Unsubscribe(ch: Channel)
      requires Valid() && !ch.closed
      modifies this, ch
      ensures Valid() && clients == old(clients) - {ch} && ch.closed && ch.buffer == old(ch.buffer)
    {
      clients := clients - {ch};
      ch.closed := true;
    }

    /** Every client is offered the event once; none is waited for. */
    method Publish(evt: Event)
      requires Valid()
      modifies clients
      ensures Valid() && clients == old(clients)
      ensures forall ch :: ch in clients ==> ch.buffer == Offer(old(ch.buffer), capacity, evt)
    {
      var rest := clients;
      while rest != {}
        invariant rest <= clients && Valid()
        invariant forall ch :: ch in clients ==>
                    ch.buffer == if ch in rest then old(ch.buffer) else Offer(old(ch.buffer), capacity, evt)
        decreases rest
      {
        var ch :| ch in rest;
        ch.TrySend(evt);
        rest := rest - {ch};
      }
    }
  }

  // ---- The bus with its operations interleaved ----

  type ChanId = nat
  type PubId = nat

  datatype Message = Message(pub: PubId, event: Event)

  datatype Pipe = Pipe(buffer: seq<Message>, received: seq<Message>, closed: bool)

  /** A publication under way, with the clients its loop has still to visit. */
  datatype Publication = Publication(message: Message, pending: set<ChanId>)

  datatype State = State(
    clients: set<ChanId>, pipes: map<ChanId, Pipe>, active: map<PubId, Publication>, next: PubId,
    leaving: map<nat, ChanId>, sentToClosed: bool, closedTwice: bool)

  /** A step that a lock or the program's order holds back changes nothing. `call`
      numbers an Unsubscribe, which removes the client first and closes it later. */
  datatype Step =
    | Subscribe(ch: ChanId)
    | Begin(event: Event)
    | Send(pub: PubId, ch: ChanId)
    | End(pub: PubId)
    | Remove(call: nat, ch: ChanId)
    | Close(call: nat)
    | Receive(ch: ChanId)

  const IDLE := State({}, map[], map[], 0, map[], false, false)

  function Next(s: State, capacity: nat, step: Step): State {
    match step
    case Subscribe(ch) =>
      if ch in s.pipes || s.active != map[] then s
      else s.(clients := s.clients + {ch}, pipes := s.pipes[ch := Pipe([], [], false)])
    case Begin(event) =>
      s.(active := s.active[s.next := Publication(Message(s.next, event), s.clients)], next := s.next + 1)
    case Send(p, ch) =>
      if p !in s.active || ch !in s.active[p].pending || ch !in s.pipes then s
      else
        var pub, pipe := s.active[p], s.pipes[ch];
        s.(active := s.active[p := pub.(pending := pub.pending - {ch})],
           pipes := s.pipes[ch := pipe.(buffer := Offer(pipe.buffer, capacity, pub.message))],
           sentToClosed := s.sentToClosed || pipe.closed)
    case End(p) =>
      if p in s.active && s.active[p].pending == {} then s.(active := s.active - {p}) else s
    case Remove(call, ch) =>
      if ch !in s.pipes || s.active != map[] || call in s.leaving then s
      else s.(clients := s.clients - {ch}, leaving := s.leaving[call := ch])
    case Close(call) =>
      if call !in s.leaving || s.leaving[call] !in s.pipes then s
      else
        var ch := s.leaving[call];
        s.(leaving := s.leaving - {call}, pipes := s.pipes[ch := s.pipes[ch].(closed := true)],
           closedTwice := s.closedTwice || s.pipes[ch].closed)
    case Receive(ch) =>
      if ch !in s.pipes || s.pipes[ch].buffer == [] then s
      else
        var pipe := s.pipes[ch];
        s.(pipes := s.pipes[ch := pipe.(buffer := pipe.buffer[1..], received := pipe.received + [pipe.buffer[0]])])
  }

  function Run(capacity: nat, steps: seq<Step>): State {
    if steps == [] then IDLE else Next(Run(capacity, steps[..|steps| - 1]), capacity, steps[|steps| - 1])
  }

  // ---- No send reaches a closed channel ----

  predicate Open(s: State) {
    && (forall ch :: ch in s.clients ==> ch in s.pipes && !s.pipes[ch].closed)
    && (forall p :: p in s.active ==> s.active[p].pending <= s.clients && s.active[p].message.pub == p < s.next)
    && (forall call :: call in s.leaving ==> s.leaving[call] in s.pipes && s.leaving[call] !in s.clients)
    && !s.sentToClosed
  }

  lemma StepKeepsOpen(s: State, capacity: nat, step: Step)
    requires Open(s)
    ensures Open(Next(s, capacity, step))
  {
  }

  /** In every interleaving no send reaches a closed channel. */
  lemma {:induction false} AlwaysOpen(capacity: nat, steps: seq<Step>)
    ensures Open(Run(capacity, steps)) && !Run(capacity, steps).sentToClosed
  {
    if steps != [] {
      AlwaysOpen(capacity, steps[..|steps| - 1]);
      StepKeepsOpen(Run(capacity, steps[..|steps| - 1]), capacity, steps[|steps| - 1]);
    }
  }

  // ---- What a client was offered, and what was dropped ----

  /** The publications begun while the client was subscribed. */
  function Offered(capacity: nat, steps: seq<Step>, ch: ChanId): seq<Message> {
    if steps == [] then []
    else
      var front, step := steps[..|steps| - 1], steps[|steps| - 1];
      var s := Run(capacity, front);
      Offered(capacity, front, ch) + if step.Begin? && ch in s.clients then [Message(s.next, step.event)] else []
  }

  /** A send of this step visits the client. */
  predicate Visits(s: State, step: Step, ch: ChanId) {
    && step.Send? && step.ch == ch && step.pub in s.active && ch in s.active[step.pub].pending && ch in s.pipes
  }

  predicate Drops(s: State, capacity: nat, step: Step, ch: ChanId) {
    Visits(s, step, ch) && |s.pipes[ch].buffer| >= capacity
  }

  /** The messages that met a full buffer. */
  function Dropped(capacity: nat, steps: seq<Step>, ch: ChanId): seq<Message> {
    if steps == [] then []
    else
      var front, step := steps[..|steps| - 1], steps[|steps| - 1];
      var s := Run(capacity, front);
      Dropped(capacity, front, ch) + if Drops(s, capacity, step, ch) then [s.active[step.pub].message] else []
  }

  /** What a client got: received already, or waiting in its buffer. */
  function Got(s: State, ch: ChanId): seq<Message> {
    if ch in s.pipes then s.pipes[ch].received + s.pipes[ch].buffer else []
  }

  /** The publication's loop has still to visit the client. */
  predicate Pends(s: State, p: PubId, ch: ChanId) {
    p in s.active && ch in s.active[p].pending
  }

  predicate OnItsWay(s: State, m: Message, ch: ChanId) {
    Pends(s, m.pub, ch) && s.active[m.pub].message == m
  }

  predicate Has(ms: seq<Message>, p: PubId) {
    exists i :: 0 <= i < |ms| && ms[i].pub == p
  }

  predicate NoRepeats(ms: seq<Message>) {
    forall i, j :: 0 <= i < j < |ms| ==> ms[i].pub != ms[j].pub
  }

  /** Every message offered was got, was dropped or is on its way: one of these, and once. */
  ghost predicate Accounted(s: State, offered: seq<Message>, dropped: seq<Message>, ch: ChanId) {
    var got := Got(s, ch);
    && (forall m :: m in offered <==> m in got || m in dropped || OnItsWay(s, m, ch))
    && NoRepeats(got) && NoRepeats(dropped)
    && (forall p: PubId :: !(Has(got, p) && Has(dropped, p)))
    && (forall p: PubId :: Has(got, p) || Has(dropped, p) ==> p < s.next && !Pends(s, p, ch))
  }

  lemma GotEffect(s: State, capacity: nat, step: Step, ch: ChanId)
    requires Open(s)
    ensures Got(Next(s, capacity, step), ch) == Got(s, ch) +
            if Visits(s, step, ch) && !Drops(s, capacity, step, ch) then [s.active[step.pub].message] else []
  {
    if step.Receive? && step.ch == ch && ch in s.pipes && s.pipes[ch].buffer != [] {
      var pipe := s.pipes[ch];
      assert pipe.buffer == [pipe.buffer[0]] + pipe.buffer[1..];
      assert pipe.received + pipe.buffer == pipe.received + [pipe.buffer[0]] + pipe.buffer[1..];
    }
  }

  lemma Grown(ms: seq<Message>, m: Message)
    ensures forall p :: Has(ms + [m], p) <==> Has(ms, p) || p == m.pub
    ensures NoRepeats(ms) && !Has(ms, m.pub) ==> NoRepeats(ms + [m])
  {
    var grown := ms + [m];
    assert grown[|ms|] == m;
    forall i | 0 <= i < |ms| ensures grown[i] == ms[i] {
    }
    forall p ensures Has(grown, p) <==> Has(ms, p) || p == m.pub {
      if Has(ms, p) {
        var i :| 0 <= i < |ms| && ms[i].pub == p;
        assert grown[i].pub == p;
      }
    }
  }

  /** A step leaves a publication's visit to a client as it was, unless it makes that
      visit or begins the publication. */
  lemma PendsEffect(s: State, capacity: nat, step: Step, ch: ChanId, p: PubId)
    requires Open(s)
    ensures var after := Next(s, capacity, step);
            && (Pends(after, p, ch) <==>
                  if step.Begin? && ch in s.clients && p == s.next then true
                  else Pends(s, p, ch) && !(Visits(s, step, ch) && p == step.pub))
            && (p in after.active ==>
                  if step.Begin? && p == s.next then after.active[p].message == Message(p, step.event)
                  else p in s.active && after.active[p].message == s.active[p].message)
            && s.next <= after.next && (step.Begin? ==> after.next == s.next + 1)
  {
  }

  lemma VisitAccounts(s: State, after: State, offered: seq<Message>, dropped: seq<Message>, ch: ChanId, m: Message)
    requires Accounted(s, offered, dropped, ch) && OnItsWay(s, m, ch) && s.next <= after.next
    requires forall p: PubId :: Pends(after, p, ch) <==> Pends(s, p, ch) && p != m.pub
    requires forall p: PubId :: Pends(after, p, ch) ==> p in s.active && after.active[p].message == s.active[p].message
    requires m.pub < s.next
    ensures Got(after, ch) == Got(s, ch) + [m] ==> Accounted(after, offered, dropped, ch)
    ensures Got(after, ch) == Got(s, ch) ==> Accounted(after, offered, dropped + [m], ch)
  {
    assert !Has(Got(s, ch), m.pub) && !Has(dropped, m.pub);
    Grown(Got(s, ch), m);
    Grown(dropped, m);
    hide Got, Has, NoRepeats, Pends;
  }

  lemma StepAccounts(s: State, capacity: nat, step: Step, offered: seq<Message>, dropped: seq<Message>, ch: ChanId)
    requires Open(s) && Accounted(s, offered, dropped, ch)
    ensures var offered2 := offered + if step.Begin? && ch in s.clients then [Message(s.next, step.event)] else [];
            var dropped2 := dropped + if Drops(s, capacity, step, ch) then [s.active[step.pub].message] else [];
            Accounted(Next(s, capacity, step), offered2, dropped2, ch)
  {
    var after := Next(s, capacity, step);
    GotEffect(s, capacity, step, ch);
    forall p: PubId
      ensures Pends(after, p, ch) <==>
              if step.Begin? && ch in s.clients && p == s.next then true
              else Pends(s, p, ch) && !(Visits(s, step, ch) && p == step.pub)
      ensures p in after.active ==>
                if step.Begin? && p == s.next then after.active[p].message == Message(p, step.event)
                else p in s.active && after.active[p].message == s.active[p].message
    {
      PendsEffect(s, capacity, step, ch, p);
    }
    PendsEffect(s, capacity, step, ch, 0);
    if Visits(s, step, ch) {
      hide Next;
      VisitAccounts(s, after, offered, dropped, ch, s.active[step.pub].message);
      assert dropped + [] == dropped && offered + [] == offered && Got(s, ch) + [] == Got(s, ch);
    } else {
      assert dropped + [] == dropped && offered + [] == offered && Got(s, ch) + [] == Got(s, ch);
      hide Next, Got, Has, NoRepeats;
    }
  }

  /** No client gets a publication twice, and every publication begun while it was
      subscribed reached it, met its full buffer, or is still on its way to it. */
  lemma {:induction false} EverythingAccounted(capacity: nat, steps: seq<Step>, ch: ChanId)
    ensures Accounted(Run(capacity, steps), Offered(capacity, steps, ch), Dropped(capacity, steps, ch), ch)
  {
    if steps != [] {
      var front, step := steps[..|steps| - 1], steps[|steps| - 1];
      EverythingAccounted(capacity, front, ch);
      AlwaysOpen(capacity, front);
      var offered, dropped := Offered(capacity, front, ch), Dropped(capacity, front, ch);
      StepAccounts(Run(capacity, front), capacity, step, offered, dropped, ch);
    }
  }

  // ---- Operations left alone ----

  function RunFrom(s: State, capacity: nat, steps: seq<Step>): State
    decreases |steps|
  {
    if steps == [] then s else RunFrom(Next(s, capacity, steps[0]), capacity, steps[1..])
  }

  lemma {:induction false} RunOn(capacity: nat, before: seq<Step>, steps: seq<Step>)
    ensures Run(capacity, before + steps) == RunFrom(Run(capacity, before), capacity, steps)
    decreases |steps|
  {
    hide Next;
    if steps == [] {
      assert before + steps == before;
    } else {
      RunOn(capacity, before + [steps[0]], steps[1..]);
      assert before + [steps[0]] + steps[1..] == before + steps;
      assert (before + [steps[0]])[..|before|] == before;
    }
  }

  /** A publication's loop over these clients, and its end. */
  function Sends(p: PubId, clients: seq<ChanId>): seq<Step> {
    if clients == [] then [End(p)] else [Send(p, clients[0])] + Sends(p, clients[1..])
  }

  ghost predicate Enumerates(clients: seq<ChanId>, all: set<ChanId>) {
    && (forall ch :: ch in all <==> ch in clients)
    && (forall i, j :: 0 <= i < j < |clients| ==> clients[i] != clients[j])
  }

  function OfferedAll(pipes: map<ChanId, Pipe>, all: set<ChanId>, capacity: nat, m: Message): map<ChanId, Pipe> {
    map ch | ch in pipes ::
      if ch in all then pipes[ch].(buffer := Offer(pipes[ch].buffer, capacity, m)) else pipes[ch]
  }

  lemma {:induction false} SendsReach(s: State, capacity: nat, p: PubId, clients: seq<ChanId>)
    requires p in s.active && Enumerates(clients, s.active[p].pending)
    requires forall ch :: ch in clients ==> ch in s.pipes && !s.pipes[ch].closed
    ensures RunFrom(s, capacity, Sends(p, clients))
         == s.(active := s.active - {p},
               pipes := OfferedAll(s.pipes, s.active[p].pending, capacity, s.active[p].message))
    decreases |clients|
  {
    var pub := s.active[p];
    if clients == [] {
      assert pub.pending == {};
      assert Sends(p, clients)[1..] == [];
      assert OfferedAll(s.pipes, {}, capacity, pub.message) == s.pipes;
    } else {
      hide OfferedAll, Sends;
      var ch, rest := clients[0], clients[1..];
      SendsFirst(p, clients);
      var t := Next(s, capacity, Send(p, ch));
      assert t == s.(active := s.active[p := pub.(pending := pub.pending - {ch})],
                     pipes := s.pipes[ch := s.pipes[ch].(buffer := Offer(s.pipes[ch].buffer, capacity, pub.message))]);
      hide Next;
      EnumeratesRest(clients, pub.pending);
      hide Enumerates;
      SendsReach(t, capacity, p, rest);
      assert t.active - {p} == s.active - {p};
      OneOffered(s.pipes, pub.pending, capacity, pub.message, ch);
    }
  }

  lemma SendsFirst(p: PubId, clients: seq<ChanId>)
    requires clients != []
    ensures var steps := Sends(p, clients);
            steps != [] && steps[0] == Send(p, clients[0]) && steps[1..] == Sends(p, clients[1..])
  {
  }

  lemma EnumeratesRest(clients: seq<ChanId>, all: set<ChanId>)
    requires clients != [] && Enumerates(clients, all)
    ensures Enumerates(clients[1..], all - {clients[0]})
  {
    assert clients == [clients[0]] + clients[1..];
  }

  lemma OneOffered(pipes: map<ChanId, Pipe>, all: set<ChanId>, capacity: nat, m: Message, ch: ChanId)
    requires ch in all && ch in pipes
    ensures OfferedAll(pipes[ch := pipes[ch].(buffer := Offer(pipes[ch].buffer, capacity, m))], all - {ch}, capacity, m)
         == OfferedAll(pipes, all, capacity, m)
  {
  }

  /** After any run that left no publication under way, one more that nothing comes
      between offers its event to every client once, as the bus's own method does. */
  lemma PublishCompletes(capacity: nat, before: seq<Step>, event: Event, clients: seq<ChanId>)
    requires Run(capacity, before).active == map[] && Enumerates(clients, Run(capacity, before).clients)
    ensures var s := Run(capacity, before);
            Run(capacity, before + ([Begin(event)] + Sends(s.next, clients)))
            == s.(next := s.next + 1, pipes := OfferedAll(s.pipes, s.clients, capacity, Message(s.next, event)))
  {
    var s := Run(capacity, before);
    AlwaysOpen(capacity, before);
    var steps := [Begin(event)] + Sends(s.next, clients);
    RunOn(capacity, before, steps);
    assert steps[0] == Begin(event) && steps[1..] == Sends(s.next, clients);
    var begun := Next(s, capacity, Begin(event));
    hide Run, Sends, OfferedAll;
    SendsReach(begun, capacity, s.next, clients);
    assert begun.active - {s.next} == map[];
  }

  /** A client that receives for as long as something waits gets all of it in order. */
  lemma {:induction false} ReceivesAll(s: State, capacity: nat, ch: ChanId)
    requires ch in s.pipes
    ensures var pipe := s.pipes[ch];
            RunFrom(s, capacity, seq(|pipe.buffer|, _ => Receive(ch)))
            == s.(pipes := s.pipes[ch := pipe.(buffer := [], received := pipe.received + pipe.buffer)])
    decreases |s.pipes[ch].buffer|
  {
    var pipe := s.pipes[ch];
    var steps := seq(|pipe.buffer|, _ => Receive(ch));
    if pipe.buffer == [] {
      assert pipe.received + pipe.buffer == pipe.received;
      assert s.pipes[ch := pipe] == s.pipes;
    } else {
      var t := Next(s, capacity, Receive(ch));
      assert steps[0] == Receive(ch) && steps[1..] == seq(|pipe.buffer| - 1, _ => Receive(ch));
      ReceivesAll(t, capacity, ch);
      assert pipe.received + [pipe.buffer[0]] + pipe.buffer[1..] == pipe.received + pipe.buffer;
      var after := pipe.(buffer := [], received := pipe.received + pipe.buffer);
      assert t.pipes[ch := after] == s.pipes[ch := after];
    }
  }

  /** Subscribing a new client and unsubscribing one leave what the bus's methods leave. */
  lemma ComesAndGoes(s: State, capacity: nat, ch: ChanId, call: nat)
    requires s.active == map[]
    ensures ch !in s.pipes ==>
              Next(s, capacity, Subscribe(ch))
              == s.(clients := s.clients + {ch}, pipes := s.pipes[ch := Pipe([], [], false)])
    ensures ch in s.pipes && !s.pipes[ch].closed && call !in s.leaving ==>
              Next(Next(s, capacity, Remove(call, ch)), capacity, Close(call))
              == s.(clients := s.clients - {ch}, pipes := s.pipes[ch := s.pipes[ch].(closed := true)])
  {
    if ch in s.pipes && call !in s.leaving {
      assert s.leaving[call := ch] - {call} == s.leaving;
    }
  }

  // ---- One publication at a time ----

  predicate OneAtATime(capacity: nat, steps: seq<Step>) {
    steps == [] ||
    (var front := steps[..|steps| - 1];
     OneAtATime(capacity, front) && (steps[|steps| - 1].Begin? ==> Run(capacity, front).active == map[]))
  }

  /** `a` is `b` with some elements left out. */
  predicate Within<T(==)>(a: seq<T>, b: seq<T>) {
    a == [] ||
    (b != [] &&
     (Within(a, b[..|b| - 1]) || (a[|a| - 1] == b[|b| - 1] && Within(a[..|a| - 1], b[..|b| - 1]))))
  }

  lemma WithinGrows<T>(a: seq<T>, b: seq<T>, x: T)
    requires Within(a, b)
    ensures Within(a, b + [x]) && Within(a + [x], b + [x])
  {
    assert (b + [x])[..|b|] == b && (a + [x])[..|a|] == a;
  }

  predicate Coming(s: State, ch: ChanId) {
    exists p :: p in s.active && Pends(s, p, ch)
  }

  /** With at most one publication under way: what the client got is a part, in order, of
      what it was offered, all of it but a last message still coming when none was dropped. */
  predicate InOrder(s: State, offered: seq<Message>, dropped: seq<Message>, ch: ChanId) {
    var settled := if Coming(s, ch) && offered != [] then offered[..|offered| - 1] else offered;
    && (forall p, q :: p in s.active && q in s.active ==> p == q)
    && (forall p :: p in s.active && Pends(s, p, ch) ==>
          offered != [] && offered[|offered| - 1] == s.active[p].message)
    && Within(Got(s, ch), settled)
    && (dropped == [] ==> Got(s, ch) == settled)
  }

  lemma StepKeepsOrder(s: State, capacity: nat, step: Step, offered: seq<Message>, dropped: seq<Message>, ch: ChanId)
    requires Open(s) && InOrder(s, offered, dropped, ch) && (step.Begin? ==> s.active == map[])
    ensures var offered2 := offered + if step.Begin? && ch in s.clients then [Message(s.next, step.event)] else [];
            var dropped2 := dropped + if Drops(s, capacity, step, ch) then [s.active[step.pub].message] else [];
            InOrder(Next(s, capacity, step), offered2, dropped2, ch)
  {
    var after := Next(s, capacity, step);
    GotEffect(s, capacity, step, ch);
    assert offered + [] == offered && dropped + [] == dropped && Got(s, ch) + [] == Got(s, ch);
    if Visits(s, step, ch) {
      VisitEnds(s, capacity, step, ch);
      VisitKeepsOrder(s, after, offered, dropped, ch, s.active[step.pub].message);
    } else if step.Begin? {
      BeginKeepsOrder(s, after, offered, dropped, ch, Message(s.next, step.event));
    } else {
      ComingKept(s, capacity, step, ch);
      hide Next, Got, Pends, Coming, Within;
    }
  }

  lemma VisitEnds(s: State, capacity: nat, step: Step, ch: ChanId)
    requires Visits(s, step, ch) && forall p, q :: p in s.active && q in s.active ==> p == q
    ensures Coming(s, ch) && Pends(s, step.pub, ch) && !Coming(Next(s, capacity, step), ch)
    ensures Next(s, capacity, step).active.Keys == s.active.Keys
  {
  }

  lemma VisitKeepsOrder(s: State, after: State, offered: seq<Message>, dropped: seq<Message>, ch: ChanId, m: Message)
    requires InOrder(s, offered, dropped, ch) && Coming(s, ch) && !Coming(after, ch)
    requires after.active.Keys == s.active.Keys && offered != [] && offered[|offered| - 1] == m
    ensures Got(after, ch) == Got(s, ch) + [m] ==> InOrder(after, offered, dropped, ch)
    ensures Got(after, ch) == Got(s, ch) ==> InOrder(after, offered, dropped + [m], ch)
  {
    var settled := offered[..|offered| - 1];
    assert offered == settled + [m];
    WithinGrows(Got(s, ch), settled, m);
    hide Got, Within;
  }

  lemma BeginKeepsOrder(s: State, after: State, offered: seq<Message>, dropped: seq<Message>, ch: ChanId, m: Message)
    requires InOrder(s, offered, dropped, ch) && s.active == map[] && m.pub == s.next
    requires after.active == map[s.next := Publication(m, s.clients)] && Got(after, ch) == Got(s, ch)
    ensures InOrder(after, if ch in s.clients then offered + [m] else offered, dropped, ch)
  {
    assert !Coming(s, ch);
    assert (offered + [m])[..|offered|] == offered;
    if ch in s.clients {
      assert Pends(after, s.next, ch);
    }
    hide Got, Within;
  }

  lemma ComingKept(s: State, capacity: nat, step: Step, ch: ChanId)
    requires Open(s) && !step.Begin? && !Visits(s, step, ch)
    ensures Coming(Next(s, capacity, step), ch) <==> Coming(s, ch)
    ensures Next(s, capacity, step).active.Keys <= s.active.Keys
    ensures forall p :: p in Next(s, capacity, step).active ==>
                        Next(s, capacity, step).active[p].message == s.active[p].message
  {
    var after := Next(s, capacity, step);
    forall p ensures p in s.active && Pends(s, p, ch) <==> p in after.active && Pends(after, p, ch) {
      if p in s.active {
        PendsEffect(s, capacity, step, ch, p);
      }
    }
  }

  lemma {:induction false} ClientsSeeOrder(capacity: nat, steps: seq<Step>, ch: ChanId)
    requires OneAtATime(capacity, steps)
    ensures InOrder(Run(capacity, steps), Offered(capacity, steps, ch), Dropped(capacity, steps, ch), ch)
  {
    if steps != [] {
      var front, step := steps[..|steps| - 1], steps[|steps| - 1];
      ClientsSeeOrder(capacity, front, ch);
      AlwaysOpen(capacity, front);
      var offered, dropped := Offered(capacity, front, ch), Dropped(capacity, front, ch);
      StepKeepsOrder(Run(capacity, front), capacity, step, offered, dropped, ch);
    }
  }

  // ---- Unsubscribing twice ----

  /** How often the client was passed to Unsubscribe. */
  function Calls(capacity: nat, steps: seq<Step>, ch: ChanId): nat {
    if steps == [] then 0
    else
      var front, step := steps[..|steps| - 1], steps[|steps| - 1];
      Calls(capacity, front, ch) + if Called(Run(capacity, front), step, ch) then 1 else 0
  }

  /** The step is the first half of a call, which removes the client. */
  predicate Called(s: State, step: Step, ch: ChanId) {
    step.Remove? && step.ch == ch && ch in s.pipes && s.active == map[] && step.call !in s.leaving
  }

  /** The calls with this client that have not closed its channel yet. */
  function Unfinished(s: State, ch: ChanId): set<nat> {
    set call | call in s.leaving && s.leaving[call] == ch
  }

  /** How often the client's channel was closed. */
  function Closes(capacity: nat, steps: seq<Step>, ch: ChanId): nat {
    if steps == [] then 0
    else
      var front, step := steps[..|steps| - 1], steps[|steps| - 1];
      Closes(capacity, front, ch) + if ClosesNow(Run(capacity, front), step, ch) then 1 else 0
  }

  predicate ClosesNow(s: State, step: Step, ch: ChanId) {
    step.Close? && step.call in s.leaving && s.leaving[step.call] == ch && ch in s.pipes
  }

  lemma ClosedEffect(s: State, capacity: nat, step: Step, ch: ChanId)
    requires Open(s)
    ensures var after := Next(s, capacity, step);
            ch in after.pipes && after.pipes[ch].closed
            <==> ClosesNow(s, step, ch) || (ch in s.pipes && s.pipes[ch].closed)
  {
  }

  lemma {:induction false} ClosedOnce(capacity: nat, steps: seq<Step>, ch: ChanId)
    ensures Closes(capacity, steps, ch) >= 1 <==>
            ch in Run(capacity, steps).pipes && Run(capacity, steps).pipes[ch].closed
  {
    if steps != [] {
      var front, step := steps[..|steps| - 1], steps[|steps| - 1];
      var s := Run(capacity, front);
      ClosedOnce(capacity, front, ch);
      AlwaysOpen(capacity, front);
      ClosedEffect(s, capacity, step, ch);
      hide Next, Open;
    }
  }

  lemma {:induction false} TwiceIsNoticed(capacity: nat, steps: seq<Step>, ch: ChanId)
    requires Closes(capacity, steps, ch) >= 2
    ensures Run(capacity, steps).closedTwice
  {
    var front, step := steps[..|steps| - 1], steps[|steps| - 1];
    if Closes(capacity, front, ch) >= 2 {
      TwiceIsNoticed(capacity, front, ch);
    } else {
      ClosedOnce(capacity, front, ch);
    }
  }

  lemma {:induction false} NoticedWasTwice(capacity: nat, steps: seq<Step>) returns (ch: ChanId)
    requires Run(capacity, steps).closedTwice
    ensures Closes(capacity, steps, ch) >= 2
  {
    var front, step := steps[..|steps| - 1], steps[|steps| - 1];
    var s := Run(capacity, front);
    if s.closedTwice {
      ch := NoticedWasTwice(capacity, front);
    } else {
      ch := s.leaving[step.call];
      ClosedOnce(capacity, front, ch);
    }
  }

  lemma TwiceExactly(capacity: nat, steps: seq<Step>)
    ensures Run(capacity, steps).closedTwice <==> exists ch :: Closes(capacity, steps, ch) >= 2
  {
    hide Closes, Run;
    if Run(capacity, steps).closedTwice {
      var ch := NoticedWasTwice(capacity, steps);
    } else if exists ch :: Closes(capacity, steps, ch) >= 2 {
      var ch :| Closes(capacity, steps, ch) >= 2;
      TwiceIsNoticed(capacity, steps, ch);
    }
  }

  lemma UnfinishedEffect(s: State, capacity: nat, step: Step, ch: ChanId)
    requires Open(s)
    ensures |Unfinished(Next(s, capacity, step), ch)|
         == |Unfinished(s, ch)| + (if Called(s, step, ch) then 1 else 0) - (if ClosesNow(s, step, ch) then 1 else 0)
  {
    var before, after := Unfinished(s, ch), Unfinished(Next(s, capacity, step), ch);
    assert after == if Called(s, step, ch) then before + {step.call}
                    else if ClosesNow(s, step, ch) then before - {step.call} else before;
    assert Called(s, step, ch) ==> step.call !in before;
    assert ClosesNow(s, step, ch) ==> step.call in before;
    hide Next, Open, Unfinished;
  }

  /** Every call closes the channel once, or has still to do so. */
  lemma {:induction false} CallsClose(capacity: nat, steps: seq<Step>, ch: ChanId)
    ensures Calls(capacity, steps, ch) == Closes(capacity, steps, ch) + |Unfinished(Run(capacity, steps), ch)|
  {
    if steps == [] {
      assert Unfinished(IDLE, ch) == {};
    } else {
      var front, step := steps[..|steps| - 1], steps[|steps| - 1];
      CallsClose(capacity, front, ch);
      AlwaysOpen(capacity, front);
      UnfinishedEffect(Run(capacity, front), capacity, step, ch);
      hide Next, Open, Called, ClosesNow, Unfinished;
    }
  }

  /** A close panics exactly when two calls of Unsubscribe with one client have come to
      their end. */
  lemma PanicsExactly(capacity: nat, steps: seq<Step>)
    ensures Run(capacity, steps).closedTwice
            <==> exists ch :: Calls(capacity, steps, ch) - |Unfinished(Run(capacity, steps), ch)| >= 2
  {
    hide Closes, Calls, Run, Unfinished;
    TwiceExactly(capacity, steps);
    if ch :| Closes(capacity, steps, ch) >= 2 {
      CallsClose(capacity, steps, ch);
      assert Calls(capacity, steps, ch) - |Unfinished(Run(capacity, steps), ch)| >= 2;
    } else if ch :| Calls(capacity, steps, ch) - |Unfinished(Run(capacity, steps), ch)| >= 2 {
      CallsClose(capacity, steps, ch);
    }
  }

  /** So nothing panics in any interleaving in which no client is unsubscribed twice, and
      where all calls have ended the converse holds too. */
  lemma NoPanic(capacity: nat, steps: seq<Step>)
    ensures var s, once := Run(capacity, steps), forall ch :: Calls(capacity, steps, ch) <= 1;
            && (once ==> !s.closedTwice && !s.sentToClosed)
            && (s.leaving == map[] ==> (once <==> !s.closedTwice))
  {
    hide Calls, Run;
    PanicsExactly(capacity, steps);
    AlwaysOpen(capacity, steps);
    var s := Run(capacity, steps);
    if s.leaving == map[] {
      forall ch ensures Unfinished(s, ch) == {} {
      }
      if ch :| Calls(capacity, steps, ch) >= 2 {
        assert Calls(capacity, steps, ch) - |Unfinished(s, ch)| >= 2;
      }
    }
  }
}
