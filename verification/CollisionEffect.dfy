/**
 What each step of a connection collision does to the speaker that takes it, and what a
 session is built on in every run: a finished handshake, an OPEN and a KEEPALIVE.
 */
module CollisionEffect {
  import opened BgpTypes
  import opened Collision

  /** A step of `x` changes neither the other speaker nor any connection but `c`. */
  ghost predicate Leaves(w: World, r: World, x: Side, c: Side) {
    r.nodes.At(x.Other()) == w.nodes.At(x.Other()) && r.conns.At(c.Other()) == w.conns.At(c.Other())
  }

  /** Everything of a connection but whether this end of it lives. */
  predicate EndOnly(k: Conn, r: Conn, x: Side) {
    r == k.(live := r.live) && r.live.At(x.Other()) == k.live.At(x.Other())
  }

  /** A dial is made by a speaker without a transport, and once; a listener waits for the neighbour. */
  lemma DialEffect(w: World, x: Side)
    ensures var r, n := Next(w, DialStep(x)), w.nodes.At(x);
            if n.main.Some? || n.state !in {Idle, Active} || w.conns.At(x).dialed then r == w
            else
              && Leaves(w, r, x, x) && r.nodes.At(x) == n.(main := Some(x), state := Connect)
              && r.conns.At(x) == w.conns.At(x).(dialed := true, live := Pair(true, true))
    ensures var r, n := Next(w, ListenStep(x)), w.nodes.At(x);
            if n.main.Some? || n.state != Idle then r == w
            else Leaves(w, r, x, x) && Leaves(w, r, x, x.Other()) && r.nodes.At(x) == n.(state := Active)
  {}

  /** The handshake is finished only while both ends are there. */
  lemma HandshakeEffect(w: World, c: Side)
    ensures var r, k := Next(w, HandshakeStep(c)), w.conns.At(c);
            if k.dialed && k.live.a && k.live.b
            then r.nodes == w.nodes && r.conns.At(c.Other()) == w.conns.At(c.Other()) && r.conns.At(c) == k.(up := true)
            else r == w
  {}

  /** A speaker without a transport takes the neighbour's connection; one still setting up its session holds it; any other refuses it. */
  lemma AcceptEffect(w: World, x: Side)
    ensures var r, n, c := Next(w, AcceptStep(x)), w.nodes.At(x), x.Other();
            var k := w.conns.At(c);
            if !k.dialed || k.accepted then r == w
            else
              && Leaves(w, r, x, c) && r.conns.At(c).accepted
              && if n.main.None? && n.state in {Idle, Active} then
                   r.nodes.At(x) == n.(main := Some(c), state := Active) && r.conns.At(c) == k.(accepted := true)
                 else if n.main.Some? && n.held.None? && n.state != Established then
                   r.nodes.At(x) == n.(held := Some(c)) && r.conns.At(c) == k.(accepted := true)
                 else
                   r.nodes.At(x) == n && !r.conns.At(c).live.At(x) && EndOnly(k.(accepted := true), r.conns.At(c), x)
  {}

  /** The OPEN goes out on the speaker's own transport, once its handshake is finished. */
  lemma SendOpenEffect(w: World, x: Side)
    ensures var r, n := Next(w, SendOpenStep(x)), w.nodes.At(x);
            if n.main.Some? && n.state in {Connect, Active} && w.conns.At(n.main.value).up && w.conns.At(n.main.value).live.At(x)
            then
              var c, k := n.main.value, w.conns.At(n.main.value);
              && Leaves(w, r, x, c) && r.nodes.At(x) == n.(state := OpenSent)
              && r.conns.At(c) == k.(sent := k.sent.With(x, k.sent.At(x) + [Open(n.id)]))
            else r == w
  {}

  /** The end of a session gives up both the transport and what is held. */
  ghost predicate Ended(w: World, r: World, x: Side) {
    var n := w.nodes.At(x);
    && r.nodes.At(x) == n.(state := Idle, main := None, held := None) && r.nodes.At(x.Other()) == w.nodes.At(x.Other())
    && (n.main.Some? ==> !r.conns.At(n.main.value).live.At(x))
    && (n.held.Some? ==> !r.conns.At(n.held.value).live.At(x))
    && (n.main != Some(A) && n.held != Some(A) ==> r.conns.At(A).live == w.conns.At(A).live)
    && (n.main != Some(B) && n.held != Some(B) ==> r.conns.At(B).live == w.conns.At(B).live)
    && r.conns.At(A).sent == w.conns.At(A).sent && r.conns.At(B).sent == w.conns.At(B).sent
  }

  lemma TeardownEffect(w: World, x: Side)
    ensures Ended(w, Next(w, TeardownStep(x)), x)
  {}

  /** What a message makes of a session: the neighbour's OPEN is answered, a KEEPALIVE establishes it or keeps it up, anything else ends it. */
  lemma ReceiveEffect(w: World, x: Side)
    requires w.nodes.At(x).main.Some? && w.nodes.At(x).state in {OpenSent, OpenConfirm, Established}
    requires CanRead(w, x, w.nodes.At(x).main.value)
    ensures var r, n, c := Next(w, ReceiveStep(x)), w.nodes.At(x), w.nodes.At(x).main.value;
            var k, m := w.conns.At(c), NextMessage(w, x, c);
            && r.conns.At(c).taken == k.taken.With(x, k.taken.At(x) + 1)
            && if n.state == OpenSent && m.Open? && m.id != n.id then
                 && Leaves(w, r, x, c) && r.nodes.At(x) == n.(state := OpenConfirm)
                 && r.conns.At(c).sent == k.sent.With(x, k.sent.At(x) + [Keepalive]) && r.conns.At(c).live == k.live
               else if n.state != OpenSent && m == Keepalive then
                 && Leaves(w, r, x, c) && r.nodes.At(x) == n.(state := Established)
                 && r.conns.At(c).sent == k.sent && r.conns.At(c).live == k.live
               else Ended(w, r, x)
  {
    var c := w.nodes.At(x).main.value;
    ReadOutcome(w, x, c);
    TeardownEffect(Consume(w, x, c), x);
    TeardownRecords(Consume(w, x, c), x);
  }

  /**
   A held connection is let go as soon as there is something to decide it by: it died, or its
   first message is there. It takes the place of the speaker's own connection exactly if that
   message is the OPEN of a higher identifier, and is refused otherwise.
   */
  lemma ServiceEffect(w: World, x: Side)
    ensures var r, n := Next(w, ServiceStep(x)), w.nodes.At(x);
            if n.held.None? then r == w
            else
              var c := n.held.value;
              var k := w.conns.At(c);
              if !k.live.At(x) then r.nodes.At(x) == n.(held := None) && Leaves(w, r, x, A) && Leaves(w, r, x, B)
              else if !CanRead(w, x, c) then r == w
              else
                && r.nodes.At(x).held.None? && r.nodes.At(x.Other()) == w.nodes.At(x.Other())
                && if n.main == Some(x) && NextMessage(w, x, c).Open? && n.id < NextMessage(w, x, c).id then
                     && r.nodes.At(x) == n.(main := Some(c), held := None, state := Active)
                     && !r.conns.At(x).live.At(x) && (c != x ==> r.conns.At(c) == k)
                   else
                     && r.nodes.At(x) == n.(held := None)
                     && !r.conns.At(c).live.At(x) && EndOnly(k, r.conns.At(c), x) && r.conns.At(c.Other()) == w.conns.At(c.Other())
  {}

  // -------------------------------------------------- what a session is built on

  /** The neighbour's messages a session has consumed, by its state. */
  predicate HeardEnough(w: World, x: Side) {
    var n, y := w.nodes.At(x), x.Other();
    n.main.Some? ==>
      var k := w.conns.At(n.main.value);
      var taken, sent := k.taken.At(x), k.sent.At(y);
      && (n.state in {Connect, Active, OpenSent} ==> taken == 0)
      && (n.state == OpenConfirm ==> taken == 1 && |sent| >= 1 && sent[0].Open?)
      && (n.state == Established ==> taken >= 2 && |sent| >= 2 && sent[0].Open? && sent[1] == Keepalive)
      && n.state != Idle
  }

  /** Nothing was said or read on a connection nobody dialled, and nothing said before its handshake. */
  predicate SaidInOrder(k: Conn) {
    && (!k.dialed ==> k.taken == Pair(0, 0))
    && (k.sent.a != [] || k.sent.b != [] ==> k.up)
  }

  predicate Proper(w: World) {
    HeardEnough(w, A) && HeardEnough(w, B) && SaidInOrder(w.conns.At(A)) && SaidInOrder(w.conns.At(B))
  }

  /** What `x` did can only add to what the other speaker has to read. */
  predicate Grows(k: Conn, r: Conn, x: Side) {
    && r.taken.At(x.Other()) == k.taken.At(x.Other()) && r.sent.At(x.Other()) == k.sent.At(x.Other()) && k.sent.At(x) <= r.sent.At(x)
  }

  ghost predicate StepOf(w: World, r: World, x: Side) {
    r.nodes.At(x.Other()) == w.nodes.At(x.Other()) && Grows(w.conns.a, r.conns.a, x) && Grows(w.conns.b, r.conns.b, x)
  }

  lemma OtherHeard(w: World, r: World, x: Side)
    requires StepOf(w, r, x) && HeardEnough(w, x.Other())
    ensures HeardEnough(r, x.Other())
  {}

  lemma ProperThen(w: World, r: World, x: Side)
    requires Proper(w) && StepOf(w, r, x) && HeardEnough(r, x) && SaidInOrder(r.conns.a) && SaidInOrder(r.conns.b)
    ensures Proper(r)
  {
    OtherHeard(w, r, x);
  }

  /** The records of a connection: everything but which ends live and whether it was accepted. */
  predicate SameRecord(k: Conn, r: Conn) {
    r.dialed == k.dialed && r.up == k.up && r.sent == k.sent && r.taken == k.taken
  }

  ghost predicate SameRecords(w: World, r: World) {
    SameRecord(w.conns.a, r.conns.a) && SameRecord(w.conns.b, r.conns.b)
  }

  lemma AbortRecords(w: World, x: Side, c: Option<Side>)
    ensures SameRecords(w, Abort(w, x, c)) && Abort(w, x, c).nodes == w.nodes
  {}

  /** Nothing recorded, and the speaker in a state its transport allows. */
  lemma QuietProper(w: World, r: World, x: Side)
    requires Proper(w) && SameRecords(w, r) && r.nodes.At(x.Other()) == w.nodes.At(x.Other()) && HeardEnough(r, x)
    ensures Proper(r)
  {
    ProperThen(w, r, x);
  }

  lemma DialProper(w: World, x: Side)
    requires Inv(w) && Proper(w)
    ensures Proper(Dial(w, x))
  {
    ProperThen(w, Dial(w, x), x);
  }

  lemma ListenProper(w: World, x: Side)
    requires Proper(w)
    ensures Proper(Listen(w, x))
  {
    QuietProper(w, Listen(w, x), x);
  }

  lemma HandshakeProper(w: World, c: Side)
    requires Proper(w)
    ensures Proper(Handshake(w, c))
  {
    var r := Handshake(w, c);
    OtherHeard(w, r, A);
    OtherHeard(w, r, B);
  }

  lemma AcceptedRecords(w: World, x: Side)
    ensures SameRecords(w, Accept(w, x)) && Accept(w, x).nodes.At(x.Other()) == w.nodes.At(x.Other())
  {}

  lemma AcceptProper(w: World, x: Side)
    requires Inv(w) && Proper(w)
    ensures Proper(Accept(w, x))
  {
    AcceptedRecords(w, x);
    QuietProper(w, Accept(w, x), x);
  }

  lemma SendProper(w: World, x: Side)
    requires Inv(w) && Proper(w)
    ensures Proper(SendOpen(w, x))
  {
    ProperThen(w, SendOpen(w, x), x);
  }

  lemma TeardownRecords(w: World, x: Side)
    ensures var r := Teardown(w, x);
            SameRecords(w, r) && r.nodes.At(x).main.None? && r.nodes.At(x.Other()) == w.nodes.At(x.Other())
  {
    var w1 := Abort(w, x, w.nodes.At(x).main);
    AbortRecords(w, x, w.nodes.At(x).main);
    AbortRecords(w1, x, w.nodes.At(x).held);
  }

  lemma TeardownProper(w: World, x: Side)
    requires Proper(w)
    ensures Proper(Teardown(w, x))
  {
    TeardownRecords(w, x);
    QuietProper(w, Teardown(w, x), x);
  }

  lemma FailProper(w: World, c: Side, x: Side)
    requires Proper(w)
    ensures Proper(Fail(w, c, x))
  {
    AbortRecords(w, x, Some(c));
    QuietProper(w, Fail(w, c, x), x);
  }

  /** One more message read: nothing the other speaker relies on. */
  lemma ConsumeSteps(w: World, x: Side, c: Side)
    requires w.conns.At(c).dialed && SaidInOrder(w.conns.a) && SaidInOrder(w.conns.b)
    ensures var r := Consume(w, x, c);
            && StepOf(w, r, x) && SaidInOrder(r.conns.a) && SaidInOrder(r.conns.b) && r.nodes == w.nodes
            && r.conns.At(c).taken.At(x) == w.conns.At(c).taken.At(x) + 1
            && r.conns.At(c).sent == w.conns.At(c).sent && r.conns.At(c).up == w.conns.At(c).up
  {}

  lemma EndedProper(w: World, r: World, x: Side)
    requires Proper(w) && StepOf(w, r, x) && r.nodes == w.nodes && SaidInOrder(r.conns.a) && SaidInOrder(r.conns.b)
    ensures Proper(Teardown(r, x))
  {
    TeardownRecords(r, x);
    ProperThen(w, Teardown(r, x), x);
  }

  lemma AnsweredProper(w: World, r: World, x: Side, c: Side)
    requires Proper(w) && StepOf(w, r, x) && r.nodes == w.nodes && SaidInOrder(r.conns.a) && SaidInOrder(r.conns.b)
    requires w.nodes.At(x).main == Some(c) && r.conns.At(c).taken.At(x) == 1 && r.conns.At(c).up
    requires r.conns.At(c).sent.At(x.Other()) != [] && r.conns.At(c).sent.At(x.Other())[0].Open?
    ensures Proper(Write(r, x, c, Keepalive).SetNode(x, w.nodes.At(x).(state := OpenConfirm)))
  {
    ProperThen(w, Write(r, x, c, Keepalive).SetNode(x, w.nodes.At(x).(state := OpenConfirm)), x);
  }

  lemma EstablishedProper(w: World, r: World, x: Side, c: Side)
    requires Proper(w) && StepOf(w, r, x) && r.nodes == w.nodes && SaidInOrder(r.conns.a) && SaidInOrder(r.conns.b)
    requires w.nodes.At(x).main == Some(c) && r.conns.At(c).taken.At(x) >= 2 && |r.conns.At(c).sent.At(x.Other())| >= 2
    requires r.conns.At(c).sent.At(x.Other())[0].Open? && r.conns.At(c).sent.At(x.Other())[1] == Keepalive
    ensures Proper(r.SetNode(x, w.nodes.At(x).(state := Established)))
  {
    ProperThen(w, r.SetNode(x, w.nodes.At(x).(state := Established)), x);
  }

  /** What a readable message makes of the session, given where the session stands. */
  lemma ReadOutcome(w: World, x: Side, c: Side)
    requires w.nodes.At(x).main == Some(c) && InSession(w.nodes.At(x).state) && CanRead(w, x, c)
    ensures var n, m, w1 := w.nodes.At(x), NextMessage(w, x, c), Consume(w, x, c);
            Receive(w, x) == if !Handles(n, m) then Teardown(w1, x)
                             else if m.Open? then Write(w1, x, c, Keepalive).SetNode(x, n.(state := OpenConfirm))
                             else w1.SetNode(x, n.(state := Established))
  {}

  lemma ReceiveProper(w: World, x: Side)
    requires Inv(w) && Proper(w)
    ensures Proper(Receive(w, x))
  {
    var n := w.nodes.At(x);
    if n.main.Some? && InSession(n.state) && CanRead(w, x, n.main.value) {
      var c := n.main.value;
      var w1, m := Consume(w, x, c), NextMessage(w, x, c);
      ConsumeSteps(w, x, c);
      ReadOutcome(w, x, c);
      if !Handles(n, m) {
        EndedProper(w, w1, x);
      } else if m.Open? {
        AnsweredProper(w, w1, x, c);
      } else {
        EstablishedProper(w, w1, x, c);
      }
    }
  }

  lemma ServicedRecords(w: World, x: Side)
    ensures SameRecords(w, ServiceCollision(w, x)) && ServiceCollision(w, x).nodes.At(x.Other()) == w.nodes.At(x.Other())
  {
    var n := w.nodes.At(x);
    AbortRecords(w, x, n.main);
    AbortRecords(w, x, n.held);
  }

  lemma ServicedHeard(w: World, x: Side, r: World)
    requires Inv(w) && HeardEnough(w, x) && SameRecords(w, r) && r == ServiceCollision(w, x)
    ensures HeardEnough(r, x)
  {
    var n := w.nodes.At(x);
    ServiceEffect(w, x);
    assert r.nodes.At(x) == n.(held := r.nodes.At(x).held) || (n.held.Some? && r.nodes.At(x) == n.(main := n.held, held := None, state := Active));
  }

  lemma ServiceProper(w: World, x: Side)
    requires Inv(w) && Proper(w)
    ensures Proper(ServiceCollision(w, x))
  {
    ServicedRecords(w, x);
    ServicedHeard(w, x, ServiceCollision(w, x));
    QuietProper(w, ServiceCollision(w, x), x);
  }

  lemma NextProper(w: World, s: Step)
    requires Inv(w) && Proper(w)
    ensures Proper(Next(w, s))
  {
    match s
    case DialStep(x) => DialProper(w, x);
    case ListenStep(x) => ListenProper(w, x);
    case HandshakeStep(c) => HandshakeProper(w, c);
    case FailStep(c, x) => FailProper(w, c, x);
    case AcceptStep(x) => AcceptProper(w, x);
    case SendOpenStep(x) => SendProper(w, x);
    case ReceiveStep(x) => ReceiveProper(w, x);
    case ServiceStep(x) => ServiceProper(w, x);
    case TeardownStep(x) => TeardownProper(w, x);
  }

  lemma {:induction false} RunProper(idA: Address, idB: Address, steps: seq<Step>)
    ensures Proper(Run(Initial(idA, idB), steps))
    decreases |steps|
  {
    if steps != [] {
      RunKeeps(idA, idB, steps[..|steps| - 1]);
      RunProper(idA, idB, steps[..|steps| - 1]);
      NextProper(Run(Initial(idA, idB), steps[..|steps| - 1]), steps[|steps| - 1]);
    }
  }

  /**
   In every run an Established session has read the neighbour's OPEN and KEEPALIVE, in this
   order, on a connection whose handshake was finished, having sent its own OPEN on it.
   */
  lemma EstablishedIsEarned(idA: Address, idB: Address, steps: seq<Step>, x: Side)
    ensures var w := Run(Initial(idA, idB), steps);
            w.nodes.At(x).state.Established? ==>
              && w.nodes.At(x).main.Some?
              && var k := w.conns.At(w.nodes.At(x).main.value);
                 && k.up && k.taken.At(x) >= 2 && |k.sent.At(x.Other())| >= 2
                 && k.sent.At(x.Other())[0] == Open(w.nodes.At(x.Other()).id) && k.sent.At(x.Other())[1] == Keepalive
                 && k.sent.At(x) != [] && k.sent.At(x)[0] == Open(w.nodes.At(x).id)
  {
    RunKeeps(idA, idB, steps);
    RunProper(idA, idB, steps);
  }
}
