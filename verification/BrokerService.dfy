/**
  What one request achieves when its task runs undisturbed, from every reachable state of the broker,
  and what a client's record says of its hello, over every interleaving
  (crates/tetris-adapter/src/adapter/server.rs:763-986).
*/
module BrokerService {
  import opened Types
  import opened Broker
  import opened BrokerTenure

  // ---- requests served to their end ------------------------------------

  /** A connection is given the message, then runs n sections. */
  function Request(id: nat, m: Message, room: bool, n: nat): seq<Step> {
    [Receive(id, m)] + seq(n, _ => Proceed(id, room))
  }

  /** n sections of client id's task in a row. */
  ghost function Sections(s: System, id: nat, room: bool, n: nat): System
    decreases n
  {
    if n == 0 then s else Sections(Next(s, Proceed(id, room)), id, room, n - 1)
  }

  lemma {:induction false} SectionsAre(s: System, id: nat, room: bool, n: nat)
    ensures After(s, seq(n, _ => Proceed(id, room))) == Sections(s, id, room, n)
    decreases n
  {
    hide Next;
    if n == 0 {
    } else {
      SectionsAre(Next(s, Proceed(id, room)), id, room, n - 1);
      assert seq(n, _ => Proceed(id, room))[1..] == seq(n - 1, _ => Proceed(id, room));
    }
  }

  lemma RequestIs(s: System, id: nat, m: Message, room: bool, n: nat)
    ensures After(s, Request(id, m, room, n)) == Sections(Next(s, Receive(id, m)), id, room, n)
  {
    hide Next;
    var r := Request(id, m, room, n);
    assert r[1..] == seq(n, _ => Proceed(id, room));
    SectionsAre(Next(s, Receive(id, m)), id, room, n);
  }

  lemma OneSection(s: System, id: nat, room: bool, n: nat)
    requires n > 0
    ensures Sections(s, id, room, n) == Sections(Next(s, Proceed(id, room)), id, room, n - 1)
  {
    hide Next;
  }

  ghost predicate Ready(s: System, id: nat) {
    Inv(s) && Known(s, id) && Conn(s, id).task == Reading
  }

  /** A reading task does nothing until it is handed a line. */
  lemma {:induction false} Idles(s: System, id: nat, room: bool, n: nat)
    requires Known(s, id) && Conn(s, id).task == Reading
    ensures Sections(s, id, room, n) == s
    decreases n
  {
    if n == 0 {
    } else {
      Idles(s, id, room, n - 1);
    }
  }

  /** The number is above hello's 1 and above every number accepted from the client before. */
  predicate Fresh(s: System, id: nat, seqNo: u64)
    requires Known(s, id)
  {
    1 < seqNo && forall n: u64 :: Passed(n) in Conn(s, id).trail ==> n < seqNo
  }

  lemma FreshIs(s: System, id: nat, seqNo: u64)
    requires Ready(s, id) && IsHandshaken(s.broker, id)
    ensures Sequenced(s.broker, id, seqNo).1 <==> Fresh(s, id, seqNo)
  {
    hide TrailOk;
    assert ConnOk(s.broker, s.live, id, Conn(s, id));
  }

  /** The gate and the sequence check, for any request but hello. */
  lemma Admitted(s: System, id: nat, m: Message, room: bool, n: nat)
    requires Ready(s, id) && (m.Command? || m.Claim? || m.Release?) && n >= 2
    ensures var u := Sections(Next(s, Receive(id, m)), id, room, n);
      if !IsHandshaken(s.broker, id) || !Fresh(s, id, m.seqNo) then
        && Known(u, id) && Conn(u, id).task == Reading && u.broker == s.broker && u.live == s.live
        && Conn(u, id).trail ==
             Conn(s, id).trail + (if IsHandshaken(s.broker, id) then [SawHandshake] else [])
      else
        u == Sections(Onward(s, id, Sequenced(s.broker, id, m.seqNo).0, Busy(Act, m), [SawHandshake, Passed(m.seqNo)]),
                      id, room, n - 2)
  {
    hide Inv, Sections;
    var a := Next(s, Receive(id, m));
    var trail := Conn(s, id).trail;
    OneSection(a, id, room, n);
    NothingNew(trail);
    if !IsHandshaken(s.broker, id) {
      Idles(Next(a, Proceed(id, room)), id, room, n - 1);
    } else {
      FreshIs(s, id, m.seqNo);
      var b := Next(a, Proceed(id, room));
      OneSection(b, id, room, n - 1);
      assert trail + [] + [SawHandshake] + [Passed(m.seqNo)] == trail + [SawHandshake, Passed(m.seqNo)];
      assert trail + [] + [SawHandshake] + [] == trail + [SawHandshake];
      if !Fresh(s, id, m.seqNo) {
        Idles(Next(b, Proceed(id, room)), id, room, n - 2);
      } else {
        assert Next(b, Proceed(id, room)) ==
          Onward(s, id, Sequenced(s.broker, id, m.seqNo).0, Busy(Act, m), [SawHandshake, Passed(m.seqNo)]);
      }
    }
  }

  lemma ReadyNow(steps: seq<Step>, id: nat)
    requires Known(After(START, steps), id) && Conn(After(START, steps), id).task == Reading
    ensures Ready(After(START, steps), id)
  {
    hide After, Inv;
    AfterKeeps(START, steps) by { StartOk(); }
  }

  /** A claim was in time, and what control is then. */
  lemma ControlAfterClaim(s: System, id: nat, seqNo: u64)
    requires Ready(s, id) && IsHandshaken(s.broker, id)
    ensures Claimed(Sequenced(s.broker, id, seqNo).0, id, s.live).controller ==
      if s.broker.controller.Some? && s.broker.controller.value in s.live then s.broker.controller else Some(id)
  {
    hide TrailOk, RecordOk, ConnOk;
  }

  /**
    A command served without interruption is enqueued exactly if its sender has shaken hands, its
    number is above every number accepted before, its sender is controller, it can be mapped and the
    queue has room. It never moves control.
  */
  lemma CommandServed(steps: seq<Step>, id: nat, seqNo: u64, mapped: bool, room: bool)
    requires Known(After(START, steps), id) && Conn(After(START, steps), id).task == Reading
    ensures var s := After(START, steps);
      var u := After(s, Request(id, Command(seqNo, mapped), room, 4));
      && Known(u, id) && Conn(u, id).task == Reading && u.broker.controller == s.broker.controller
      && (|Conn(u, id).trail| > |Conn(s, id).trail|
          && Conn(u, id).trail[|Conn(u, id).trail| - 1] == Enqueued(seqNo) <==>
            IsHandshaken(s.broker, id) && Fresh(s, id, seqNo) && s.broker.controller == Some(id) && mapped && room)
  {
    hide After, Inv, Sections;
    ReadyNow(steps, id);
    var s := After(START, steps);
    var m := Command(seqNo, mapped);
    RequestIs(s, id, m, room, 4);
    Admitted(s, id, m, room, 4);
    if IsHandshaken(s.broker, id) && Fresh(s, id, seqNo) {
      var a := Onward(s, id, Sequenced(s.broker, id, seqNo).0, Busy(Act, m), [SawHandshake, Passed(seqNo)]);
      var b := Next(a, Proceed(id, room));
      OneSection(a, id, room, 2);
      if s.broker.controller == Some(id) && mapped {
        OneSection(b, id, room, 1);
        Idles(Next(b, Proceed(id, room)), id, room, 0);
      } else {
        Idles(b, id, room, 1);
      }
    }
  }

  /** A claim served without interruption takes control exactly where no live client holds it. */
  lemma ClaimServed(steps: seq<Step>, id: nat, seqNo: u64, room: bool)
    requires Known(After(START, steps), id) && Conn(After(START, steps), id).task == Reading
    ensures var s := After(START, steps);
      var u := After(s, Request(id, Claim(seqNo), room, 3));
      && Known(u, id) && Conn(u, id).task == Reading
      && u.broker.controller ==
           if !IsHandshaken(s.broker, id) || !Fresh(s, id, seqNo) then s.broker.controller
           else if s.broker.controller.Some? && s.broker.controller.value in s.live then s.broker.controller
           else Some(id)
  {
    hide After, Inv, Sections;
    ReadyNow(steps, id);
    var s := After(START, steps);
    var m := Claim(seqNo);
    RequestIs(s, id, m, room, 3);
    Admitted(s, id, m, room, 3);
    if IsHandshaken(s.broker, id) && Fresh(s, id, seqNo) {
      var a := Onward(s, id, Sequenced(s.broker, id, seqNo).0, Busy(Act, m), [SawHandshake, Passed(seqNo)]);
      OneSection(a, id, room, 1);
      ControlAfterClaim(s, id, seqNo);
      Idles(Next(a, Proceed(id, room)), id, room, 0);
    }
  }

  /** A release served without interruption leaves its sender without control. */
  lemma ReleaseServed(steps: seq<Step>, id: nat, seqNo: u64, room: bool)
    requires Known(After(START, steps), id) && Conn(After(START, steps), id).task == Reading
    ensures var s := After(START, steps);
      var u := After(s, Request(id, Release(seqNo), room, 3));
      && Known(u, id) && Conn(u, id).task == Reading
      && u.broker.controller ==
           if IsHandshaken(s.broker, id) && Fresh(s, id, seqNo) && s.broker.controller == Some(id) then None
           else s.broker.controller
  {
    hide After, Inv, Sections;
    ReadyNow(steps, id);
    var s := After(START, steps);
    var m := Release(seqNo);
    RequestIs(s, id, m, room, 3);
    Admitted(s, id, m, room, 3);
    if IsHandshaken(s.broker, id) && Fresh(s, id, seqNo) {
      var a := Onward(s, id, Sequenced(s.broker, id, seqNo).0, Busy(Act, m), [SawHandshake, Passed(seqNo)]);
      OneSection(a, id, room, 1);
      Idles(Next(a, Proceed(id, room)), id, room, 0);
    }
  }

  /** Control after a hello that is let in: a live holder's, else the newcomer's unless it observes. */
  function ControlAfterHello(s: System, id: nat, role: Role): Option<nat> {
    if s.broker.controller.Some? && s.broker.controller.value in s.live then s.broker.controller
    else if role == Observer then None
    else Some(id)
  }

  lemma AssignedAfterHello(s: System, id: nat, m: Message)
    requires Ready(s, id) && m.Hello?
    ensures Assigned(Shaken(s.broker, id, 1, m.role, m.mode, m.stream), id, m.role, s.live).controller ==
      ControlAfterHello(s, id, m.role)
  {
    hide TrailOk, RecordOk, PhaseOk;
    assert ConnOk(s.broker, s.live, id, Conn(s, id));
  }

  /** A first hello up to its checks. */
  lemma HelloChecked(s: System, id: nat, m: Message, room: bool) returns (c: System)
    requires Ready(s, id) && m.Hello? && m.seqNo == 1 && !IsHandshaken(s.broker, id)
    ensures Conn(s, id).trail == [] && id in s.broker.clients
    ensures c == s.(connections := s.connections[id - 1 := Connection(Busy(Checks, m), [])])
    ensures Sections(Next(s, Receive(id, m)), id, room, 5) == Sections(c, id, room, 4)
  {
    hide Inv, Sections, TrailOk, RecordOk;
    NoTrailYet(s, id);
    var a := Next(s, Receive(id, m));
    c := Next(a, Proceed(id, room));
    NothingNew([]);
    assert c.connections == s.connections[id - 1 := Connection(Busy(Checks, m), [])];
    OneSection(a, id, room, 5);
  }

  lemma HelloAccepted(s: System, c: System, id: nat, m: Message, room: bool)
    requires Ready(s, id) && m.Hello? && m.seqNo == 1 && m.compatible && m.json
    requires Conn(s, id).trail == [] && id in s.broker.clients
    requires c == s.(connections := s.connections[id - 1 := Connection(Busy(Checks, m), [])])
    ensures var u := Sections(c, id, room, 4);
      && id in u.broker.clients && u.broker.clients[id] == Client(m.role, m.mode, m.stream, true, Some(1))
      && u.broker.controller == ControlAfterHello(s, id, m.role)
      && Known(u, id) && Conn(u, id).task == (if !m.stream || room then Reading else Leaving)
      && Conn(u, id).trail == [Handshook] + (if m.stream && room then [AskedSnapshot] else [])
  {
    hide Inv, Sections, TrailOk, RecordOk;
    OneSection(c, id, room, 4);
    var d := Next(c, Proceed(id, room));
    OneSection(d, id, room, 3);
    var e := Next(d, Proceed(id, room));
    OneSection(e, id, room, 2);
    var f := Next(e, Proceed(id, room));
    AssignedAfterHello(s, id, m);
    if m.stream {
      OneSection(f, id, room, 1);
      NoSection(Next(f, Proceed(id, room)), id, room);
    } else {
      Idles(f, id, room, 1);
    }
  }

  lemma HelloRefused(s: System, c: System, id: nat, m: Message, room: bool)
    requires Ready(s, id) && m.Hello? && !(m.compatible && m.json)
    requires Conn(s, id).trail == []
    requires c == s.(connections := s.connections[id - 1 := Connection(Busy(Checks, m), [])])
    ensures var u := Sections(c, id, room, 4);
      && (!m.compatible ==> id !in u.broker.clients && Known(u, id) && Conn(u, id).task == Gone)
      && (m.compatible ==> u == s)
  {
    hide Inv, Sections;
    OneSection(c, id, room, 4);
    var d := Next(c, Proceed(id, room));
    NothingNew([]);
    if m.compatible {
      assert s.connections[id - 1] == Connection(Reading, []);
      assert d.connections == s.connections;
      Idles(d, id, room, 3);
    } else {
      OneSection(d, id, room, 3);
      Departs(Next(d, Proceed(id, room)), id, room, 2);
    }
  }

  /**
    A first hello with number 1, served without interruption, shakes hands exactly if its version is
    compatible and its format known; the record then holds what it asked for and control is settled,
    and a snapshot is asked for if it wants the stream and there is room. An incompatible one ends the
    connection, which then leaves.
  */
  lemma HelloServed(steps: seq<Step>, id: nat, m: Message, room: bool)
    requires Known(After(START, steps), id) && Conn(After(START, steps), id).task == Reading
    requires m.Hello? && m.seqNo == 1 && !IsHandshaken(After(START, steps).broker, id)
    ensures var s := After(START, steps);
      var u := After(s, Request(id, m, room, 5));
      && (IsHandshaken(u.broker, id) <==> m.compatible && m.json)
      && (m.compatible && m.json ==>
            && u.broker.clients[id] == Client(m.role, m.mode, m.stream, true, Some(1))
            && u.broker.controller == ControlAfterHello(s, id, m.role)
            && Known(u, id) && Conn(u, id).task == (if !m.stream || room then Reading else Leaving)
            && (AskedSnapshot in Conn(u, id).trail <==> m.stream && room))
      && (!m.compatible ==> id !in u.broker.clients && Known(u, id) && Conn(u, id).task == Gone)
      && (m.compatible && !m.json ==> u == s)
  {
    hide After, Inv, Sections, ControlAfterHello;
    ReadyNow(steps, id);
    var s := After(START, steps);
    RequestIs(s, id, m, room, 5);
    var c := HelloChecked(s, id, m, room);
    if m.compatible && m.json {
      HelloAccepted(s, c, id, m, room);
    } else {
      HelloRefused(s, c, id, m, room);
    }
  }

  lemma NoSection(s: System, id: nat, room: bool)
    ensures Sections(s, id, room, 0) == s
  {
  }

  lemma NoTrailYet(s: System, id: nat)
    requires Ready(s, id) && !IsHandshaken(s.broker, id)
    ensures Conn(s, id).trail == [] && id in s.broker.clients
  {
    hide TrailOk;
    assert ConnOk(s.broker, s.live, id, Conn(s, id));
  }

  /** A connection that is gone stays gone. */
  lemma {:induction false} Departs(s: System, id: nat, room: bool, n: nat)
    requires Known(s, id) && Conn(s, id).task == Gone
    ensures Sections(s, id, room, n) == s
    decreases n
  {
    if n == 0 {
    } else {
      Departs(s, id, room, n - 1);
    }
  }

  // ---- what a record says of the hello ---------------------------------

  /** Step k is the mark section of client id, which has this hello in hand. */
  ghost predicate Marks(s: System, step: Step, id: nat) {
    && step.Proceed? && step.id == id && Known(s, id)
    && Conn(s, id).task.Busy? && Conn(s, id).task.phase == Mark && Conn(s, id).task.message.Hello?
  }

  /** Only a compatible hello of a known format gets past the checks. */
  ghost predicate Checked(s: System) {
    forall id :: Known(s, id) && Conn(s, id).task.Busy? && Conn(s, id).task.phase in {Mark, Assign, Snapshot} ==>
      Conn(s, id).task.message.Hello? && Conn(s, id).task.message.compatible && Conn(s, id).task.message.json
  }

  /** A step changes at most the connection it names. */
  lemma Untouched(s: System, step: Step, id: nat)
    requires Known(s, id) && (step.Accept? || step.Drop? || step.id != id)
    ensures Known(Next(s, step), id) && Conn(Next(s, step), id) == Conn(s, id)
  {
    hide Lowest;
  }

  lemma OthersKnown(s: System, step: Step, id: nat)
    requires Known(Next(s, step), id) && !Known(s, id)
    ensures Conn(Next(s, step), id).task == Starting
  {
    hide Lowest;
  }

  predicate PastChecks(task: Task) {
    task.Busy? && task.phase in {Mark, Assign, Snapshot} ==>
      task.message.Hello? && task.message.compatible && task.message.json
  }

  lemma OwnChecked(s: System, step: Step)
    requires Inv(s) && !step.Accept? && !step.Drop? && Known(s, step.id) && PastChecks(Conn(s, step.id).task)
    ensures Known(Next(s, step), step.id) && PastChecks(Conn(Next(s, step), step.id).task)
  {
    hide TrailOk, RecordOk, EndsWith, Lowest, PhaseOk, Inv;
  }

  lemma CheckedKeeps(s: System, step: Step)
    requires Inv(s) && Checked(s)
    ensures Checked(Next(s, step))
  {
    hide Inv, Next;
    var t := Next(s, step);
    forall id | Known(t, id)
      ensures PastChecks(Conn(t, id).task)
    {
      if !Known(s, id) {
        OthersKnown(s, step, id);
      } else if step.Accept? || step.Drop? || step.id != id {
        Untouched(s, step, id);
      } else {
        OwnChecked(s, step);
      }
    }
  }

  /** What a step of its own adds to a connection's trail: the handshake in a mark section only. */
  lemma OwnNotes(s: System, step: Step) returns (notes: seq<Note>)
    requires !step.Accept? && !step.Drop? && Known(s, step.id)
    ensures Known(Next(s, step), step.id) && Conn(Next(s, step), step.id).trail == Conn(s, step.id).trail + notes
    ensures Handshook in notes <==> Marks(s, step, step.id)
  {
    hide Lowest;
    var id := step.id;
    notes := Conn(Next(s, step), id).trail[|Conn(s, id).trail|..];
    NothingNew(Conn(s, id).trail);
  }

  lemma FirstNote(trail: seq<Note>, notes: seq<Note>)
    requires OneHandshake(trail + notes)
    ensures trail + notes != [] <==> trail != [] || Handshook in notes
  {
    if trail == [] && notes != [] { assert (trail + notes)[0] == notes[0]; }
  }

  lemma OneEach(s: System, id: nat)
    requires Inv(s) && Known(s, id)
    ensures OneHandshake(Conn(s, id).trail)
  {
    assert ConnOk(s.broker, s.live, id, Conn(s, id));
  }

  lemma OwnTrail(s: System, step: Step)
    requires Inv(s) && Inv(Next(s, step)) && !step.Accept? && !step.Drop? && Known(s, step.id)
    ensures var id, t := step.id, Next(s, step);
      Known(t, id) && (Conn(t, id).trail != [] <==> Conn(s, id).trail != [] || Marks(s, step, id))
  {
    hide Inv, Next, Marks, OneHandshake;
    var notes := OwnNotes(s, step);
    OneEach(Next(s, step), step.id);
    FirstNote(Conn(s, step.id).trail, notes);
  }

  lemma TrailStep(s: System, step: Step, id: nat)
    requires Inv(s) && Known(s, id)
    ensures var t := Next(s, step);
      Known(t, id) && (Conn(t, id).trail != [] <==> Conn(s, id).trail != [] || Marks(s, step, id))
  {
    hide Inv, Next;
    NextKeeps(s, step);
    if step.Accept? || step.Drop? || step.id != id {
      Untouched(s, step, id);
    } else {
      OwnTrail(s, step);
    }
  }

  /** The record keeps what hello asked for, as long as the client stays. */
  predicate SameWishes(a: Client, b: Client) {
    a.role == b.role && a.mode == b.mode && a.stream == b.stream
  }

  lemma RecordStep(s: System, step: Step, id: nat)
    requires Inv(s) && Known(s, id) && Conn(s, id).trail != [] && !Marks(s, step, id)
    requires id in Next(s, step).broker.clients
    ensures id in s.broker.clients && SameWishes(Next(s, step).broker.clients[id], s.broker.clients[id])
  {
    hide TrailOk, RecordOk, EndsWith, Lowest;
    assert ConnOk(s.broker, s.live, id, Conn(s, id));
    if step.Proceed? && Known(s, step.id) { assert ConnOk(s.broker, s.live, step.id, Conn(s, step.id)); }
  }

  lemma MarkStep(s: System, step: Step, id: nat)
    requires Inv(s) && Checked(s) && Marks(s, step, id)
    ensures var m, t := Conn(s, id).task.message, Next(s, step);
      && m.compatible && m.json && m.seqNo == 1 && Conn(s, id).trail == []
      && id in t.broker.clients && SameWishes(t.broker.clients[id], Client(m.role, m.mode, m.stream, true, Some(1)))
  {
    hide TrailOk, EndsWith, Lowest;
    assert ConnOk(s.broker, s.live, id, Conn(s, id));
  }

  /** Step k is the mark section that serves this hello of client id. */
  ghost predicate MarkedBy(steps: seq<Step>, k: nat, id: nat, m: Message)
    requires k < |steps|
  {
    Marks(Upto(steps, k), steps[k], id) && Conn(Upto(steps, k), id).task.message == m
  }

  ghost predicate Hailed(steps: seq<Step>, n: nat, id: nat, k: nat, m: Message)
    requires n <= |steps|
  {
    && k < n && MarkedBy(steps, k, id, m) && m.Hello? && m.compatible && m.json && m.seqNo == 1
    && (id in Upto(steps, n).broker.clients ==>
          SameWishes(Upto(steps, n).broker.clients[id], Client(m.role, m.mode, m.stream, true, Some(1))))
    && forall j, q :: 0 <= j < n && MarkedBy(steps, j, id, q) ==> j == k
  }

  lemma {:induction false} CheckedUpto(steps: seq<Step>, n: nat)
    requires n <= |steps|
    ensures Inv(Upto(steps, n)) && Checked(Upto(steps, n))
  {
    hide Inv, Next, Upto;
    if n == 0 {
      NobodyYet(steps);
    } else {
      CheckedUpto(steps, n - 1);
      UptoNext(steps, n - 1);
      CheckedKeeps(Upto(steps, n - 1), steps[n - 1]);
      NextKeeps(Upto(steps, n - 1), steps[n - 1]);
    }
  }

  lemma NobodyYet(steps: seq<Step>)
    ensures Inv(Upto(steps, 0)) && Checked(Upto(steps, 0)) && forall id :: !Known(Upto(steps, 0), id)
  {
    assert steps[..0] == [];
  }

  lemma NobodyMarked(s: System, step: Step, id: nat)
    requires !Known(s, id)
    ensures !Marks(s, step, id)
  {
  }

  lemma NewTrail(s: System, step: Step, id: nat)
    requires Inv(s) && !Known(s, id) && Known(Next(s, step), id)
    ensures Conn(Next(s, step), id).trail == []
  {
    hide Lowest;
  }

  /** A connection has a trail exactly if it has run a mark section, and then only one. */
  lemma {:induction false} TrailTells(steps: seq<Step>, n: nat, id: nat)
    requires n <= |steps|
    ensures Known(Upto(steps, n), id) && Conn(Upto(steps, n), id).trail != [] <==>
      exists k, m :: 0 <= k < n && MarkedBy(steps, k, id, m)
    ensures forall k, m :: 0 <= k < n && MarkedBy(steps, k, id, m) ==> Hailed(steps, n, id, k, m)
    decreases n
  {
    hide Inv, Next, Upto, Marks, Checked;
    CheckedUpto(steps, n);
    if n == 0 {
      NobodyYet(steps);
    } else {
      TrailTells(steps, n - 1, id);
      CheckedUpto(steps, n - 1);
      UptoNext(steps, n - 1);
      var s, t := Upto(steps, n - 1), Upto(steps, n);
      if Known(s, id) {
        TrailStep(s, steps[n - 1], id);
        if Marks(s, steps[n - 1], id) {
          MarkStep(s, steps[n - 1], id);
          MarksHello(s, steps[n - 1], id);
          assert MarkedBy(steps, n - 1, id, Conn(s, id).task.message);
          assert Hailed(steps, n, id, n - 1, Conn(s, id).task.message);
        } else if Conn(s, id).trail != [] {
          if id in t.broker.clients { RecordStep(s, steps[n - 1], id); }
        }
      } else {
        NobodyMarked(s, steps[n - 1], id);
        if Known(t, id) { NewTrail(s, steps[n - 1], id); }
      }
    }
  }

  lemma MarksHello(s: System, step: Step, id: nat)
    requires Marks(s, step, id)
    ensures Known(s, id) && Conn(s, id).task.Busy? && Conn(s, id).task.message.Hello?
  {
  }

  lemma ShakenIsTrail(s: System, id: nat)
    requires Inv(s) && id in s.broker.clients
    ensures Known(s, id) && (IsHandshaken(s.broker, id) <==> Conn(s, id).trail != [])
  {
    hide TrailOk, PhaseOk;
    assert ConnOk(s.broker, s.live, id, Conn(s, id));
  }

  /**
    Over every interleaving, a registered client has shaken hands exactly if its connection has served
    a hello; there is one such hello only, its version is compatible, its format known and its number
    1, and the client's record holds the role, mode and stream it asked for.
  */
  lemma ShakenByHello(steps: seq<Step>, id: nat)
    requires id in Upto(steps, |steps|).broker.clients
    ensures IsHandshaken(Upto(steps, |steps|).broker, id) <==>
      exists k, m :: 0 <= k < |steps| && Hailed(steps, |steps|, id, k, m)
  {
    hide Inv, Upto, Checked;
    CheckedUpto(steps, |steps|);
    ShakenIsTrail(Upto(steps, |steps|), id);
    TrailTells(steps, |steps|, id);
    if k, m :| 0 <= k < |steps| && MarkedBy(steps, k, id, m) { assert Hailed(steps, |steps|, id, k, m); }
  }
}
