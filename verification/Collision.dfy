/**
 Connection collision (section 6.8 of RFC 4271) between two speakers, each of which
 opens one TCP connection to the other. Every interleaving of dialling, accepting,
 OPEN arrival, resolution, session teardown and transport failure is a run. The two
 ends of a connection learn of each other's aborts independently and at any later time.
 */
module Collision {
  import opened BgpTypes

  datatype Side = A | B {
    function Other(): Side {
      if A? then B else A
    }
  }

  datatype Pair<+T> = Pair(a: T, b: T) {
    function At(s: Side): T {
      if s.A? then a else b
    }

    function With(s: Side, v: T): Pair<T> {
      if s.A? then Pair(v, b) else Pair(a, v)
    }
  }

  datatype Msg = Open(id: Address) | Keepalive

  /** The connection one side dialled: which ends still exist, what each end wrote and has consumed. */
  datatype Conn = Conn(dialed: bool, up: bool, accepted: bool, live: Pair<bool>, sent: Pair<seq<Msg>>, taken: Pair<nat>)

  /** One speaker's view of its neighbour. A connection is named by the side that dialled it. */
  datatype Node = Node(id: Address, state: State, main: Option<Side>, held: Option<Side>)

  datatype Nodes = Nodes(a: Node, b: Node) {
    function At(s: Side): Node {
      if s.A? then a else b
    }

    function With(s: Side, n: Node): Nodes {
      if s.A? then Nodes(n, b) else Nodes(a, n)
    }
  }

  datatype Conns = Conns(a: Conn, b: Conn) {
    function At(s: Side): Conn {
      if s.A? then a else b
    }

    function With(s: Side, k: Conn): Conns {
      if s.A? then Conns(k, b) else Conns(a, k)
    }
  }

  datatype World = World(nodes: Nodes, conns: Conns) {
    function SetNode(x: Side, n: Node): World {
      this.(nodes := nodes.With(x, n))
    }

    function SetConn(c: Side, k: Conn): World {
      this.(conns := conns.With(c, k))
    }
  }

  // -------------------------------------------------------------------- actions

  function Abort(w: World, x: Side, c: Option<Side>): World {
    if c.None? then w
    else
      var k := w.conns.At(c.value);
      w.SetConn(c.value, k.(live := k.live.With(x, false)))
  }

  function Write(w: World, x: Side, c: Side, m: Msg): World {
    var k := w.conns.At(c);
    w.SetConn(c, k.(sent := k.sent.With(x, k.sent.At(x) + [m])))
  }

  function Teardown(w: World, x: Side): World {
    var n := w.nodes.At(x);
    Abort(Abort(w, x, n.main), x, n.held).SetNode(x, n.(state := Idle, main := None, held := None))
  }

  function Dial(w: World, x: Side): World {
    var n := w.nodes.At(x);
    if n.main.None? && (n.state.Idle? || n.state.Active?) && !w.conns.At(x).dialed then
      w.SetConn(x, w.conns.At(x).(dialed := true, live := Pair(true, true)))
       .SetNode(x, n.(main := Some(x), state := Connect))
    else w
  }

  /** A passive speaker, or one whose dial failed, waits for the neighbour to call. */
  function Listen(w: World, x: Side): World {
    var n := w.nodes.At(x);
    if n.main.None? && n.state.Idle? then w.SetNode(x, n.(state := Active)) else w
  }

  function Handshake(w: World, c: Side): World {
    var k := w.conns.At(c);
    if k.dialed && k.live == Pair(true, true) then w.SetConn(c, k.(up := true)) else w
  }

  /** The neighbour's connection becomes the transport, is held, or is refused. */
  function Accept(w: World, x: Side): World {
    var c := x.Other();
    var k := w.conns.At(c);
    if !k.dialed || k.accepted then w
    else
      var w1 := w.SetConn(c, k.(accepted := true));
      var n := w.nodes.At(x);
      if n.main.None? && (n.state.Idle? || n.state.Active?) then
        w1.SetNode(x, n.(main := Some(c), state := Active))
      else if n.held.None? && !n.state.Established? && n.main.Some? then
        w1.SetNode(x, n.(held := Some(c)))
      else
        Abort(w1, x, Some(c))
  }

  function SendOpen(w: World, x: Side): World {
    var n := w.nodes.At(x);
    if n.main.Some? && (n.state.Connect? || n.state.Active?)
       && w.conns.At(n.main.value).up && w.conns.At(n.main.value).live.At(x) then
      Write(w, x, n.main.value, Open(n.id)).SetNode(x, n.(state := OpenSent))
    else w
  }

  predicate CanRead(w: World, x: Side, c: Side) {
    var k := w.conns.At(c);
    k.live.At(x) && k.taken.At(x) < |k.sent.At(x.Other())|
  }

  function NextMessage(w: World, x: Side, c: Side): Msg
    requires CanRead(w, x, c)
  {
    w.conns.At(c).sent.At(x.Other())[w.conns.At(c).taken.At(x)]
  }

  function Consume(w: World, x: Side, c: Side): World {
    var k := w.conns.At(c);
    w.SetConn(c, k.(taken := k.taken.With(x, k.taken.At(x) + 1)))
  }

  predicate InSession(s: State) {
    s.OpenSent? || s.OpenConfirm? || s.Established?
  }

  predicate Handles(n: Node, m: Msg) {
    match n.state
    case OpenSent => m.Open? && m.id != n.id
    case OpenConfirm => m.Keepalive?
    case Established => m.Keepalive?
    case _ => false
  }

  /** The FSM takes the next message off its own transport; one it does not expect ends the session. */
  function Receive(w: World, x: Side): World {
    var n := w.nodes.At(x);
    if n.main.None? || !InSession(n.state) || !CanRead(w, x, n.main.value) then w
    else
      var m := NextMessage(w, x, n.main.value);
      var w1 := Consume(w, x, n.main.value);
      if !Handles(n, m) then Teardown(w1, x)
      else if m.Open? then Write(w1, x, n.main.value, Keepalive).SetNode(x, n.(state := OpenConfirm))
      else w1.SetNode(x, n.(state := Established))
  }

  /** Looks at the first message on the held connection without consuming it. */
  function ServiceCollision(w: World, x: Side): World {
    var n := w.nodes.At(x);
    if n.held.None? then w
    else
      var c := n.held.value;
      if !w.conns.At(c).live.At(x) then w.SetNode(x, n.(held := None))
      else if !CanRead(w, x, c) then w
      else
        match NextMessage(w, x, c)
        case Keepalive => Abort(w, x, Some(c)).SetNode(x, n.(held := None))
        case Open(id) => Resolve(w, x, c, id)
  }

  /** The lower identifier gives up the connection it dialled; everybody else keeps what it has. */
  function Resolve(w: World, x: Side, c: Side, remote: Address): World {
    var n := w.nodes.At(x);
    if n.main == Some(x) && n.id < remote then
      Abort(w, x, n.main).SetNode(x, n.(main := Some(c), held := None, state := Active))
    else
      Abort(w, x, Some(c)).SetNode(x, n.(held := None))
  }

  /** One end of a connection notices that the transport is gone. */
  function Fail(w: World, c: Side, x: Side): World {
    Abort(w, x, Some(c))
  }

  datatype Step =
    | DialStep(x: Side) | ListenStep(x: Side) | HandshakeStep(c: Side) | AcceptStep(x: Side)
    | SendOpenStep(x: Side) | ReceiveStep(x: Side) | ServiceStep(x: Side)
    | TeardownStep(x: Side) | FailStep(c: Side, x: Side)

  function Next(w: World, s: Step): World {
    match s
    case DialStep(x) => Dial(w, x)
    case ListenStep(x) => Listen(w, x)
    case HandshakeStep(c) => Handshake(w, c)
    case AcceptStep(x) => Accept(w, x)
    case SendOpenStep(x) => SendOpen(w, x)
    case ReceiveStep(x) => Receive(w, x)
    case ServiceStep(x) => ServiceCollision(w, x)
    case TeardownStep(x) => Teardown(w, x)
    case FailStep(c, x) => Fail(w, c, x)
  }

  function Run(w: World, steps: seq<Step>): World {
    if steps == [] then w else Next(Run(w, steps[..|steps| - 1]), steps[|steps| - 1])
  }

  const CLOSED: Conn := Conn(false, false, false, Pair(false, false), Pair([], []), Pair(0, 0))

  function Initial(idA: Address, idB: Address): World {
    World(Nodes(Node(idA, Idle, None, None), Node(idB, Idle, None, None)), Conns(CLOSED, CLOSED))
  }

  // ------------------------------------------------------------------ invariant

  predicate Opened(w: World, x: Side, c: Side) {
    w.conns.At(c).sent.At(x) != []
  }

  predicate Confirmed(w: World, x: Side, c: Side) {
    w.nodes.At(x).main == Some(c) && (w.nodes.At(x).state.OpenConfirm? || w.nodes.At(x).state.Established?)
  }

  /** What one side keeps, whatever the other does. */
  predicate SideOk(w: World, x: Side) {
    var n, y := w.nodes.At(x), x.Other();
    && (n.main.Some? ==> w.conns.At(n.main.value).dialed)
    && (n.main.None? ==> n.held.None? && (n.state.Idle? || n.state.Active?))
    && (n.held.Some? ==> n.held == Some(y) && n.main == Some(x) && w.conns.At(y).dialed)
    && (n.main == Some(y) || n.held == Some(y) ==> w.conns.At(y).accepted)
    && (n.main.Some? && InSession(n.state) ==> Opened(w, x, n.main.value))
    && (n.main.Some? && (n.state.OpenConfirm? || n.state.Established?) ==> Opened(w, y, n.main.value))
    && (n.held.Some? ==> w.conns.At(y).taken.At(x) == 0)
  }

  /** A connection carries only what its dialler started, and a speaker that opened on it is on it or left it for good. */
  predicate ConnOk(w: World, x: Side, c: Side) {
    && (Opened(w, x, c) ==> w.conns.At(c).dialed)
    && (Opened(w, x, c) ==> w.nodes.At(x).main == Some(c) || !w.conns.At(c).live.At(x))
    && (Opened(w, x, c) ==> w.conns.At(c).sent.At(x)[0] == Open(w.nodes.At(x).id))
    && (w.conns.At(c).accepted ==> w.conns.At(c).dialed)
    && (x == c.Other() && !w.conns.At(c).accepted ==> !Opened(w, x, c) && w.conns.At(c).taken.At(x) == 0)
  }

  /** Both speakers sit on their own connection having opened on the other one: this never happens. */
  predicate Crossed(w: World) {
    && w.nodes.At(A).main == Some(A) && w.nodes.At(B).main == Some(B)
    && Opened(w, A, B) && Opened(w, B, A)
  }

  predicate Inv(w: World) {
    && SideOk(w, A) && SideOk(w, B)
    && ConnOk(w, A, A) && ConnOk(w, A, B) && ConnOk(w, B, A) && ConnOk(w, B, B)
    && !Crossed(w)
  }

  lemma TeardownKeeps(w: World, x: Side)
    requires Inv(w)
    ensures Inv(Teardown(w, x))
  {}

  lemma ConsumeKeeps(w: World, x: Side, c: Side)
    requires Inv(w) && w.nodes.At(x).main == Some(c)
    ensures Inv(Consume(w, x, c))
  {}

  lemma SendKeeps(w: World, x: Side)
    requires Inv(w)
    ensures Inv(SendOpen(w, x))
  {}

  lemma ReplyKeeps(w: World, x: Side, c: Side, m: Msg, state: State)
    requires Inv(w) && w.nodes.At(x).main == Some(c) && Opened(w, x, c) && Opened(w, x.Other(), c)
    ensures Inv(Write(w, x, c, m).SetNode(x, w.nodes.At(x).(state := state)))
  {
    assert (w.conns.At(c).sent.At(x) + [m])[0] == w.conns.At(c).sent.At(x)[0];
  }

  lemma AdvanceKeeps(w: World, x: Side, c: Side, state: State)
    requires Inv(w) && w.nodes.At(x).main == Some(c) && Opened(w, x, c) && Opened(w, x.Other(), c)
    ensures Inv(w.SetNode(x, w.nodes.At(x).(state := state)))
  {}

  lemma ReceiveKeeps(w: World, x: Side)
    requires Inv(w)
    ensures Inv(Receive(w, x))
  {
    var n := w.nodes.At(x);
    if n.main.Some? && InSession(n.state) && CanRead(w, x, n.main.value) {
      var w1 := Consume(w, x, n.main.value);
      ConsumeKeeps(w, x, n.main.value);
      TeardownKeeps(w1, x);
      ReplyKeeps(w1, x, n.main.value, Keepalive, OpenConfirm);
      AdvanceKeeps(w1, x, n.main.value, Established);
    }
  }

  lemma DropHeldKeeps(w: World, x: Side)
    requires Inv(w) && w.nodes.At(x).held.Some?
    ensures Inv(w.SetNode(x, w.nodes.At(x).(held := None)))
    ensures Inv(Abort(w, x, w.nodes.At(x).held).SetNode(x, w.nodes.At(x).(held := None)))
  {}

  lemma AdoptKeeps(w: World, x: Side)
    requires Inv(w) && w.nodes.At(x).held.Some?
    ensures var n := w.nodes.At(x);
            Inv(Abort(w, x, n.main).SetNode(x, n.(main := n.held, held := None, state := Active)))
  {}

  lemma ServiceKeeps(w: World, x: Side)
    requires Inv(w)
    ensures Inv(ServiceCollision(w, x))
  {
    if w.nodes.At(x).held.Some? {
      DropHeldKeeps(w, x);
      AdoptKeeps(w, x);
    }
  }

  lemma AcceptKeeps(w: World, x: Side)
    requires Inv(w)
    ensures Inv(Accept(w, x))
  {}

  lemma DialKeeps(w: World, x: Side)
    requires Inv(w)
    ensures Inv(Dial(w, x)) && Inv(Listen(w, x))
  {}

  lemma HandshakeKeeps(w: World, c: Side)
    requires Inv(w)
    ensures Inv(Handshake(w, c))
  {}

  lemma FailKeeps(w: World, c: Side, x: Side)
    requires Inv(w)
    ensures Inv(Fail(w, c, x))
  {}

  lemma NextKeeps(w: World, s: Step)
    requires Inv(w)
    ensures Inv(Next(w, s))
  {
    match s
    case DialStep(x) => DialKeeps(w, x);
    case ListenStep(x) => DialKeeps(w, x);
    case HandshakeStep(c) => HandshakeKeeps(w, c);
    case FailStep(c, x) => FailKeeps(w, c, x);
    case AcceptStep(x) => AcceptKeeps(w, x);
    case SendOpenStep(x) => SendKeeps(w, x);
    case ReceiveStep(x) => ReceiveKeeps(w, x);
    case ServiceStep(x) => ServiceKeeps(w, x);
    case TeardownStep(x) => TeardownKeeps(w, x);
  }

  lemma {:induction false} RunKeeps(idA: Address, idB: Address, steps: seq<Step>)
    ensures Inv(Run(Initial(idA, idB), steps))
    decreases |steps|
  {
    if steps != [] {
      RunKeeps(idA, idB, steps[..|steps| - 1]);
      NextKeeps(Run(Initial(idA, idB), steps[..|steps| - 1]), steps[|steps| - 1]);
    }
  }

  // ------------------------------------------------------------ at most one session

  /**
   In every run, two sessions in OpenConfirm or beyond are on the same connection, or
   each speaker has already abandoned its own connection, the very one the other is on.
   */
  lemma SessionsMeetOrAreAbandoned(idA: Address, idB: Address, steps: seq<Step>, c: Side, d: Side)
    ensures var w := Run(Initial(idA, idB), steps);
            Confirmed(w, A, c) && Confirmed(w, B, d) && c != d ==>
              c == B && d == A && !w.conns.At(A).live.At(A) && !w.conns.At(B).live.At(B)
  {
    RunKeeps(idA, idB, steps);
  }

  /** The step ends the session of `x`. */
  predicate Ends(w: World, s: Step, x: Side) {
    || s == TeardownStep(x)
    || (&& s == ReceiveStep(x) && w.nodes.At(x).main.Some? && InSession(w.nodes.At(x).state)
        && CanRead(w, x, w.nodes.At(x).main.value)
        && !Handles(w.nodes.At(x), NextMessage(w, x, w.nodes.At(x).main.value)))
  }

  ghost predicate NeverEnds(w: World, steps: seq<Step>, x: Side) {
    forall k :: 0 <= k < |steps| ==> !Ends(Run(w, steps[..k]), steps[k], x)
  }

  lemma NeverEndsPrefix(w: World, steps: seq<Step>, x: Side)
    requires steps != [] && NeverEnds(w, steps, x)
    ensures NeverEnds(w, steps[..|steps| - 1], x)
  {
    var init := steps[..|steps| - 1];
    forall k | 0 <= k < |init| ensures !Ends(Run(w, init[..k]), init[k], x) {
      assert init[..k] == steps[..k];
    }
  }

  /** The speaker with the higher identifier is still where it started. */
  predicate Anchored(w: World, h: Side) {
    && w.nodes.At(h.Other()).id < w.nodes.At(h).id
    && (w.conns.At(h).dialed ==> w.nodes.At(h).main == Some(h))
    && (Opened(w, h, h.Other()) ==> w.nodes.At(h).main == Some(h.Other()))
  }

  lemma AnchoredReceive(w: World, x: Side, h: Side)
    requires Inv(w) && Anchored(w, h) && !Ends(w, ReceiveStep(x), h)
    ensures Anchored(Receive(w, x), h)
  {}

  lemma AnchoredService(w: World, x: Side, h: Side)
    requires Inv(w) && Anchored(w, h)
    ensures Anchored(ServiceCollision(w, x), h)
  {}

  lemma AnchoredAccept(w: World, x: Side, h: Side)
    requires Inv(w) && Anchored(w, h)
    ensures Anchored(Accept(w, x), h)
  {}

  lemma AnchoredTeardown(w: World, x: Side, h: Side)
    requires Inv(w) && Anchored(w, h) && x != h
    ensures Anchored(Teardown(w, x), h)
  {}

  lemma AnchoredNext(w: World, s: Step, h: Side)
    requires Inv(w) && Anchored(w, h) && !Ends(w, s, h)
    ensures Anchored(Next(w, s), h)
  {
    match s
    case ReceiveStep(x) => AnchoredReceive(w, x, h);
    case ServiceStep(x) => AnchoredService(w, x, h);
    case AcceptStep(x) => AnchoredAccept(w, x, h);
    case TeardownStep(x) => AnchoredTeardown(w, x, h);
    case _ =>
  }

  function Higher(idA: Address, idB: Address): Side {
    if idA > idB then A else B
  }

  lemma {:induction false} AnchoredRun(idA: Address, idB: Address, steps: seq<Step>)
    requires idA != idB && NeverEnds(Initial(idA, idB), steps, Higher(idA, idB))
    ensures Anchored(Run(Initial(idA, idB), steps), Higher(idA, idB))
    decreases |steps|
  {
    if steps != [] {
      var n := |steps| - 1;
      NeverEndsPrefix(Initial(idA, idB), steps, Higher(idA, idB));
      AnchoredRun(idA, idB, steps[..n]);
      RunKeeps(idA, idB, steps[..n]);
      AnchoredNext(Run(Initial(idA, idB), steps[..n]), steps[n], Higher(idA, idB));
    }
  }

  /** As long as the higher identifier's session is not torn down, both speakers only ever meet on one connection. */
  lemma AtMostOneSession(idA: Address, idB: Address, steps: seq<Step>, c: Side, d: Side)
    requires idA != idB && NeverEnds(Initial(idA, idB), steps, Higher(idA, idB))
    requires Confirmed(Run(Initial(idA, idB), steps), A, c) && Confirmed(Run(Initial(idA, idB), steps), B, d)
    ensures c == d
  {
    RunKeeps(idA, idB, steps);
    AnchoredRun(idA, idB, steps);
  }

  // --------------------------------------------------------------- both pick the same

  /**
   When each side holds the other's connection and has its OPEN, both keep the one the
   higher identifier dialled, in whichever order they decide, and the OPEN on it is
   still there for the lower side's FSM to read.
   */
  lemma BothKeepTheSame(w: World, first: Side, h: Side)
    requires Inv(w) && w.nodes.At(h.Other()).id < w.nodes.At(h).id
    requires forall x: Side :: w.nodes.At(x).held == Some(x.Other()) && CanRead(w, x, x.Other())
    ensures var l := h.Other();
            var r := ServiceCollision(ServiceCollision(w, first), first.Other());
            && r.nodes.At(h).main == Some(h) && r.nodes.At(l).main == Some(h)
            && r.nodes.At(h).held.None? && r.nodes.At(l).held.None?
            && r.conns.At(h) == w.conns.At(h) && r.nodes.At(l).state.Active?
            && CanRead(r, l, h) && NextMessage(r, l, h) == Open(w.nodes.At(h).id)
  {
    assert w.nodes.At(A).held == Some(B) && w.nodes.At(B).held == Some(A);
    assert CanRead(w, A, B) && CanRead(w, B, A);
    assert w.conns.At(h).sent.At(h)[0] == Open(w.nodes.At(h).id);
    assert w.conns.At(h.Other()).sent.At(h.Other())[0] == Open(w.nodes.At(h.Other()).id);
  }

  // ----------------------------------------------------- the winner is never dropped

  ghost predicate WinnerUndisturbed(w: World, steps: seq<Step>, h: Side) {
    && NeverEnds(w, steps, A) && NeverEnds(w, steps, B)
    && forall k :: 0 <= k < |steps| ==> !(steps[k].FailStep? && steps[k].c == h)
  }

  predicate WinnerLives(w: World, h: Side) {
    w.conns.At(h).dialed ==> w.conns.At(h).live == Pair(true, true)
  }

  lemma WinnerAccept(w: World, x: Side, h: Side)
    requires Inv(w) && Anchored(w, h) && WinnerLives(w, h)
    ensures WinnerLives(Accept(w, x), h)
  {}

  lemma WinnerReceive(w: World, x: Side, h: Side)
    requires Inv(w) && Anchored(w, h) && WinnerLives(w, h) && !Ends(w, ReceiveStep(x), x)
    ensures WinnerLives(Receive(w, x), h)
  {}

  lemma WinnerService(w: World, x: Side, h: Side)
    requires Inv(w) && Anchored(w, h) && WinnerLives(w, h)
    ensures WinnerLives(ServiceCollision(w, x), h)
  {}

  lemma WinnerNext(w: World, s: Step, h: Side)
    requires Inv(w) && Anchored(w, h) && WinnerLives(w, h)
    requires !Ends(w, s, A) && !Ends(w, s, B) && !(s.FailStep? && s.c == h)
    ensures WinnerLives(Next(w, s), h)
  {
    match s
    case AcceptStep(x) => WinnerAccept(w, x, h);
    case ReceiveStep(x) => WinnerReceive(w, x, h);
    case ServiceStep(x) => WinnerService(w, x, h);
    case _ =>
  }

  /** Without teardowns and failures the higher identifier's connection survives every collision at both ends. */
  lemma {:induction false} WinnerIsNeverDropped(idA: Address, idB: Address, steps: seq<Step>)
    requires idA != idB && WinnerUndisturbed(Initial(idA, idB), steps, Higher(idA, idB))
    ensures WinnerLives(Run(Initial(idA, idB), steps), Higher(idA, idB))
    decreases |steps|
  {
    if steps != [] {
      var n := |steps| - 1;
      var h := Higher(idA, idB);
      NeverEndsPrefix(Initial(idA, idB), steps, A);
      NeverEndsPrefix(Initial(idA, idB), steps, B);
      WinnerIsNeverDropped(idA, idB, steps[..n]);
      RunKeeps(idA, idB, steps[..n]);
      AnchoredRun(idA, idB, steps[..n]);
      WinnerNext(Run(Initial(idA, idB), steps[..n]), steps[n], h);
    }
  }

  // -------------------------------------------------------------- where it goes wrong

  lemma RunSnoc(w: World, steps: seq<Step>, s: Step)
    ensures Run(w, steps + [s]) == Next(Run(w, steps), s)
  {
    assert (steps + [s])[..|steps|] == steps;
  }

  /** Both speakers have their OPENs out on the connections they dialled. */
  function BothDialled(idA: Address, idB: Address): World {
    World(Nodes(Node(idA, OpenSent, Some(A), None), Node(idB, OpenSent, Some(B), None)),
          Conns(Conn(true, true, false, Pair(true, true), Pair([Open(idA)], []), Pair(0, 0)),
                Conn(true, true, false, Pair(true, true), Pair([], [Open(idB)]), Pair(0, 0))))
  }

  lemma Follow(w: World, steps: seq<Step>, here: World, s: Step) returns (longer: seq<Step>, there: World)
    requires Run(w, steps) == here
    ensures longer == steps + [s] && there == Next(here, s) && Run(w, longer) == there
  {
    RunSnoc(w, steps, s);
    longer, there := steps + [s], Next(here, s);
  }

  /** As `Follow`, in a run that never ends the session of `x`. */
  lemma FollowKeeping(w: World, steps: seq<Step>, here: World, s: Step, x: Side) returns (longer: seq<Step>, there: World)
    requires Run(w, steps) == here && NeverEnds(w, steps, x) && !Ends(here, s, x)
    ensures longer == steps + [s] && there == Next(here, s) && Run(w, longer) == there && NeverEnds(w, longer, x)
  {
    longer, there := Follow(w, steps, here, s);
    forall k | 0 <= k < |longer| ensures !Ends(Run(w, longer[..k]), longer[k], x) {
      assert longer[..k] == steps[..k];
      assert k == |steps| ==> steps[..k] == steps;
    }
  }

  function Ringing(k: Conn, c: Side, id: Address): Conn {
    Conn(true, true, false, Pair(true, true), k.sent.With(c, k.sent.At(c) + [Open(id)]), Pair(0, 0))
  }

  /** A connection is dialled, comes up, and carries its dialler's OPEN. */
  lemma Dials(here: World, c: Side)
    requires here.conns.At(c) == CLOSED && here.nodes.At(c) == Node(here.nodes.At(c).id, Idle, None, None)
    ensures SendOpen(Handshake(Dial(here, c), c), c) ==
            here.SetConn(c, Ringing(CLOSED, c, here.nodes.At(c).id))
                .SetNode(c, Node(here.nodes.At(c).id, OpenSent, Some(c), None))
  {
    var w1 := here.SetConn(c, CLOSED.(dialed := true, live := Pair(true, true)))
                  .SetNode(c, Node(here.nodes.At(c).id, Connect, Some(c), None));
    assert Dial(here, c) == w1;
    var w2 := w1.SetConn(c, CLOSED.(dialed := true, up := true, live := Pair(true, true)));
    assert Handshake(w1, c) == w2;
  }

  lemma ReachDialled(w: World, before: seq<Step>, here: World, c: Side, x: Side) returns (steps: seq<Step>, at: World)
    requires Run(w, before) == here && NeverEnds(w, before, x)
    ensures Run(w, steps) == at && NeverEnds(w, steps, x) && at == SendOpen(Handshake(Dial(here, c), c), c)
  {
    steps, at := FollowKeeping(w, before, here, DialStep(c), x);
    steps, at := FollowKeeping(w, steps, at, HandshakeStep(c), x);
    steps, at := FollowKeeping(w, steps, at, SendOpenStep(c), x);
  }

  lemma ReachBothDialled(idA: Address, idB: Address, x: Side) returns (steps: seq<Step>)
    ensures Run(Initial(idA, idB), steps) == BothDialled(idA, idB) && NeverEnds(Initial(idA, idB), steps, x)
  {
    var w := Initial(idA, idB);
    var at: World;
    steps, at := ReachDialled(w, [], w, A, x);
    Dials(w, A);
    Dials(at, B);
    steps, at := ReachDialled(w, steps, at, B, x);
    assert [] + [Open(idA)] == [Open(idA)] && [] + [Open(idB)] == [Open(idB)];
  }

  /** A neighbour's OPEN, and nothing else, waits on the transport of `x`. */
  predicate Called(w: World, x: Side, c: Side) {
    var n, k := w.nodes.At(x), w.conns.At(c);
    && n.main == Some(c) && n.state.Active? && k.up && k.live.At(x) && k.taken.At(x) == 0
    && |k.sent.At(x.Other())| == 1 && k.sent.At(x.Other())[0].Open? && k.sent.At(x.Other())[0].id != n.id
  }

  /** Sending the own OPEN and answering the one that waits confirms the session. */
  lemma Answers(w: World, x: Side, c: Side)
    requires Called(w, x, c)
    ensures var k, n := w.conns.At(c), w.nodes.At(x);
            Receive(SendOpen(w, x), x) ==
            w.SetConn(c, k.(sent := k.sent.With(x, k.sent.At(x) + [Open(n.id)] + [Keepalive]), taken := k.taken.With(x, 1)))
             .SetNode(x, n.(state := OpenConfirm))
    ensures !Ends(SendOpen(w, x), ReceiveStep(x), x)
  {
    var w1 := SendOpen(w, x);
    assert w1.nodes.At(x).state.OpenSent? && CanRead(w1, x, c);
  }

  lemma ReachConfirmed(w: World, before: seq<Step>, here: World, x: Side, c: Side, y: Side) returns (steps: seq<Step>, at: World)
    requires Run(w, before) == here && NeverEnds(w, before, y) && Called(here, x, c)
    ensures Run(w, steps) == at && NeverEnds(w, steps, y) && at == Receive(SendOpen(here, x), x)
  {
    Answers(here, x, c);
    steps, at := FollowKeeping(w, before, here, SendOpenStep(x), y);
    steps, at := FollowKeeping(w, steps, at, ReceiveStep(x), y);
  }

  /** The lower identifier holds the other connection, and its OPEN is there to be read. */
  function HoldsOther(idA: Address, idB: Address, l: Side): World {
    var w := BothDialled(idA, idB);
    w.SetConn(l.Other(), w.conns.At(l.Other()).(accepted := true)).SetNode(l, w.nodes.At(l).(held := Some(l.Other())))
  }

  lemma ReachHeld(idA: Address, idB: Address, l: Side) returns (steps: seq<Step>)
    ensures Run(Initial(idA, idB), steps) == HoldsOther(idA, idB, l) && NeverEnds(Initial(idA, idB), steps, l)
  {
    var at: World;
    steps := ReachBothDialled(idA, idB, l);
    steps, at := FollowKeeping(Initial(idA, idB), steps, BothDialled(idA, idB), AcceptStep(l), l);
  }

  lemma Moves(idA: Address, idB: Address, l: Side)
    requires BothDialled(idA, idB).nodes.At(l).id < BothDialled(idA, idB).nodes.At(l.Other()).id
    ensures var w, n := HoldsOther(idA, idB, l), BothDialled(idA, idB).nodes.At(l);
            ServiceCollision(w, l) ==
            w.SetConn(l, w.conns.At(l).(live := Pair(true, true).With(l, false)))
             .SetNode(l, n.(main := Some(l.Other()), held := None, state := Active))
  {}

  /** The lower identifier moves to the higher one's connection and confirms there. */
  lemma ReachMoved(idA: Address, idB: Address) returns (steps: seq<Step>, at: World)
    requires idA != idB
    ensures var w, h := Initial(idA, idB), Higher(idA, idB);
            && Run(w, steps) == at && NeverEnds(w, steps, h.Other())
            && Confirmed(at, h.Other(), h) && at.nodes.At(h) == BothDialled(idA, idB).nodes.At(h)
            && at.conns.At(h.Other()) == BothDialled(idA, idB).conns.At(h.Other()).(live := Pair(true, true).With(h.Other(), false))
  {
    var w, l := Initial(idA, idB), Higher(idA, idB).Other();
    steps := ReachHeld(idA, idB, l);
    Moves(idA, idB, l);
    steps, at := FollowKeeping(w, steps, HoldsOther(idA, idB, l), ServiceStep(l), l);
    Answers(at, l, l.Other());
    steps, at := ReachConfirmed(w, steps, at, l, l.Other(), l);
  }

  lemma Recalled(w: World, h: Side)
    requires w.nodes.At(h).main == Some(h) && w.nodes.At(h).held.None?
    requires w.conns.At(h.Other()).dialed && !w.conns.At(h.Other()).accepted
    ensures var l := h.Other();
            Accept(Teardown(w, h), h) ==
            w.SetConn(h, w.conns.At(h).(live := w.conns.At(h).live.With(h, false)))
             .SetConn(l, w.conns.At(l).(accepted := true))
             .SetNode(h, w.nodes.At(h).(main := Some(l), held := None, state := Active))
  {}

  /** The higher identifier gives up its own connection and takes the lower one's. */
  lemma ReachRecall(w: World, before: seq<Step>, here: World, h: Side) returns (steps: seq<Step>, at: World)
    requires Run(w, before) == here && NeverEnds(w, before, h.Other())
    ensures Run(w, steps) == at && NeverEnds(w, steps, h.Other()) && at == Accept(Teardown(here, h), h)
  {
    steps, at := FollowKeeping(w, before, here, TeardownStep(h), h.Other());
    steps, at := FollowKeeping(w, steps, at, AcceptStep(h), h.Other());
  }

  /** Tearing down the higher identifier's session alone is enough for the two to confirm on different connections. */
  lemma OneTeardownCrosses(idA: Address, idB: Address) returns (steps: seq<Step>)
    requires idA != idB
    ensures var w, h := Run(Initial(idA, idB), steps), Higher(idA, idB);
            && NeverEnds(Initial(idA, idB), steps, h.Other())
            && Confirmed(w, h, h.Other()) && Confirmed(w, h.Other(), h)
  {
    var w, h := Initial(idA, idB), Higher(idA, idB);
    var at: World;
    steps, at := ReachMoved(idA, idB);
    Recalled(at, h);
    steps, at := ReachRecall(w, steps, at, h);
    Answers(at, h, h.Other());
    steps, at := ReachConfirmed(w, steps, at, h, h.Other(), h.Other());
  }

  /** Whatever sessions are confirmed are on one connection. */
  ghost predicate OneConnection(w: World) {
    forall c, d :: Confirmed(w, A, c) && Confirmed(w, B, d) ==> c == d
  }

  /**
   Whose teardowns matter: if the session of `x` never ends, both speakers only ever meet
   on one connection, in every run, if and only if `x` has the higher identifier.
   */
  lemma OneConnectionIff(idA: Address, idB: Address, x: Side)
    requires idA != idB
    ensures (forall steps :: NeverEnds(Initial(idA, idB), steps, x) ==> OneConnection(Run(Initial(idA, idB), steps)))
            <==> x == Higher(idA, idB)
  {
    if x == Higher(idA, idB) {
      forall steps | NeverEnds(Initial(idA, idB), steps, x) ensures OneConnection(Run(Initial(idA, idB), steps)) {
        forall c, d | Confirmed(Run(Initial(idA, idB), steps), A, c) && Confirmed(Run(Initial(idA, idB), steps), B, d) ensures c == d {
          AtMostOneSession(idA, idB, steps, c, d);
        }
      }
    } else {
      var steps := OneTeardownCrosses(idA, idB);
      assert !OneConnection(Run(Initial(idA, idB), steps));
    }
  }

  // ------------------------------------------------- displacing an Established session

  /** An Established session stops being one although the step does not end it. */
  predicate Displaces(w: World, s: Step, x: Side) {
    w.nodes.At(x).state.Established? && !Next(w, s).nodes.At(x).state.Established? && !Ends(w, s, x)
  }

  lemma HeldOpen(w: World, x: Side)
    requires Inv(w) && w.nodes.At(x).held.Some? && CanRead(w, x, w.nodes.At(x).held.value)
    ensures w.nodes.At(x).main == Some(x) && w.nodes.At(x).held == Some(x.Other())
    ensures NextMessage(w, x, x.Other()) == Open(w.nodes.At(x.Other()).id)
  {}

  /**
   Resolution does not ask for the state of the session it replaces: an Established session
   is displaced exactly by servicing a held connection on which a higher identifier's OPEN waits.
   */
  lemma EstablishedDisplacedIff(w: World, s: Step, x: Side)
    requires Inv(w) && w.nodes.At(x).state.Established?
    ensures Displaces(w, s, x) <==>
            && s == ServiceStep(x) && w.nodes.At(x).held.Some? && CanRead(w, x, w.nodes.At(x).held.value)
            && w.nodes.At(x).id < w.nodes.At(x.Other()).id
  {
    if s == ServiceStep(x) {
      if w.nodes.At(x).held.Some? && CanRead(w, x, w.nodes.At(x).held.value) {
        HeldOpen(w, x);
      }
    } else {
      DisplacedByServiceAlone(w, s, x);
    }
  }

  lemma DisplacedByServiceAlone(w: World, s: Step, x: Side)
    requires Inv(w) && w.nodes.At(x).state.Established? && s != ServiceStep(x)
    ensures !Displaces(w, s, x)
  {}

  ghost predicate NothingDisplaced(w: World) {
    forall s, x :: !Displaces(w, s, x)
  }

  lemma {:induction false} IdentifiersStay(idA: Address, idB: Address, steps: seq<Step>)
    ensures var w := Run(Initial(idA, idB), steps); w.nodes.a.id == idA && w.nodes.b.id == idB
    decreases |steps|
  {
    if steps != [] {
      IdentifiersStay(idA, idB, steps[..|steps| - 1]);
      NextKeepsIdentifiers(Run(Initial(idA, idB), steps[..|steps| - 1]), steps[|steps| - 1]);
    }
  }

  lemma NextKeepsIdentifiers(w: World, s: Step)
    ensures Next(w, s).nodes.a.id == w.nodes.a.id && Next(w, s).nodes.b.id == w.nodes.b.id
  {}

  lemma AnchoredDisplacesNothing(w: World, h: Side)
    requires Inv(w) && Anchored(w, h)
    ensures NothingDisplaced(w)
  {
    forall s, x ensures !Displaces(w, s, x) {
      if w.nodes.At(x).state.Established? {
        EstablishedDisplacedIff(w, s, x);
      }
    }
  }

  /**
   The higher identifier gives up its own connection, takes the lower one's, whose owner
   still holds the other, and answers the OPEN it finds there.
   */
  lemma ReachAnswered(idA: Address, idB: Address) returns (steps: seq<Step>, at: World)
    requires idA != idB
    ensures var w, h := Initial(idA, idB), Higher(idA, idB);
            var l, start := h.Other(), BothDialled(idA, idB);
            && Run(w, steps) == at && NeverEnds(w, steps, l)
            && at.nodes.At(l) == start.nodes.At(l).(held := Some(h))
            && at.conns.At(l).live.At(l) && at.conns.At(l).taken.At(l) == 0
            && at.conns.At(l).sent.At(h) == [Open(start.nodes.At(h).id), Keepalive]
            && CanRead(at, l, h)
  {
    var w, h := Initial(idA, idB), Higher(idA, idB);
    var l := h.Other();
    steps := ReachHeld(idA, idB, l);
    at := HoldsOther(idA, idB, l);
    Recalled(at, h);
    steps, at := ReachRecall(w, steps, at, h);
    Answers(at, h, l);
    steps, at := ReachConfirmed(w, steps, at, h, l, l);
  }

  /** An OPEN and a KEEPALIVE complete the session; a connection that is held stays held. */
  lemma Completes(w: World, x: Side, c: Side, id: Address)
    requires w.nodes.At(x).main == Some(c) && w.nodes.At(x).state.OpenSent? && id != w.nodes.At(x).id
    requires w.conns.At(c).live.At(x) && w.conns.At(c).taken.At(x) == 0
    requires w.conns.At(c).sent.At(x.Other()) == [Open(id), Keepalive]
    ensures !Ends(w, ReceiveStep(x), x) && !Ends(Receive(w, x), ReceiveStep(x), x)
    ensures var r := Receive(Receive(w, x), x);
            && r.nodes.At(x) == w.nodes.At(x).(state := Established)
            && r.conns.At(c.Other()) == w.conns.At(c.Other())
  {}

  /** The lower identifier's session is Established on its own connection, the higher one's OPEN waits on the held one. */
  lemma ReachEstablished(idA: Address, idB: Address) returns (steps: seq<Step>)
    requires idA != idB
    ensures var w, h := Run(Initial(idA, idB), steps), Higher(idA, idB);
            && NeverEnds(Initial(idA, idB), steps, h.Other()) && w.nodes.At(h.Other()).state.Established?
            && w.nodes.At(h.Other()).held == Some(h) && CanRead(w, h.Other(), h)
  {
    var w, h := Initial(idA, idB), Higher(idA, idB);
    var at: World;
    steps, at := ReachAnswered(idA, idB);
    Completes(at, h.Other(), h.Other(), BothDialled(idA, idB).nodes.At(h).id);
    steps, at := FollowKeeping(w, steps, at, ReceiveStep(h.Other()), h.Other());
    steps, at := FollowKeeping(w, steps, at, ReceiveStep(h.Other()), h.Other());
  }

  /** In every run without an end of `x`'s session nothing Established is displaced if and only if `x` has the higher identifier. */
  lemma NothingDisplacedIff(idA: Address, idB: Address, x: Side)
    requires idA != idB
    ensures (forall steps :: NeverEnds(Initial(idA, idB), steps, x) ==> NothingDisplaced(Run(Initial(idA, idB), steps)))
            <==> x == Higher(idA, idB)
  {
    if x == Higher(idA, idB) {
      forall steps | NeverEnds(Initial(idA, idB), steps, x) ensures NothingDisplaced(Run(Initial(idA, idB), steps)) {
        RunKeeps(idA, idB, steps);
        AnchoredRun(idA, idB, steps);
        AnchoredDisplacesNothing(Run(Initial(idA, idB), steps), x);
      }
    } else {
      var steps := ReachEstablished(idA, idB);
      var l := Higher(idA, idB).Other();
      RunKeeps(idA, idB, steps);
      IdentifiersStay(idA, idB, steps);
      EstablishedDisplacedIff(Run(Initial(idA, idB), steps), ServiceStep(l), l);
    }
  }

  /**
   The restriction in `WinnerIsNeverDropped` is needed: when the loser learns that its own
   connection was aborted before the winner's OPEN arrives, its teardown drops the held
   winner as well, and no connection is left with two ends.
   */
  lemma ResetCanOvertakeTheOpen(idA: Address, idB: Address) returns (steps: seq<Step>)
    requires idA < idB
    ensures var w := Run(Initial(idA, idB), steps);
            && w.conns.a.dialed && w.conns.b.dialed && w.nodes.b.main == Some(B)
            && !(w.conns.a.live.a && w.conns.a.live.b) && !(w.conns.b.live.a && w.conns.b.live.b)
  {
    var w := Initial(idA, idB);
    var at := w;
    steps := [];
    steps, at := Follow(w, steps, at, DialStep(A));
    steps, at := Follow(w, steps, at, DialStep(B));
    steps, at := Follow(w, steps, at, AcceptStep(A));
    steps, at := Follow(w, steps, at, AcceptStep(B));
    steps, at := Follow(w, steps, at, HandshakeStep(A));
    steps, at := Follow(w, steps, at, SendOpenStep(A));
    steps, at := Follow(w, steps, at, ServiceStep(B));
    steps, at := Follow(w, steps, at, FailStep(A, A));
    steps, at := Follow(w, steps, at, TeardownStep(A));
  }
}
