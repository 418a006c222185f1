/**
  The control broker (crates/tetris-adapter/src/adapter/server.rs) as interleaved steps. Every
  connection runs its own task; each step below is one stretch that task runs under the broker
  lock (or without shared state), and steps of different tasks interleave freely. Whether a
  client's outbound channel is live is a flag that can only be dropped, at any moment.
*/
module Broker {
  import opened Types

  datatype Role = Auto | Controller | Observer

  datatype Mode = ByAction | ByPlace

  datatype Client = Client(role: Role, mode: Mode, stream: bool, handshaken: bool, lastSeq: Option<u64>)

  datatype BrokerView = BrokerView(clients: map<nat, Client>, controller: Option<nat>)

  // ---- sections run under the broker lock ------------------------------

  const NEWCOMER := Client(Auto, ByAction, false, false, None)

  function Registered(b: BrokerView, id: nat): BrokerView {
    b.(clients := b.clients[id := NEWCOMER])
  }

  function Unstale(b: BrokerView, live: set<nat>): BrokerView {
    if b.controller.Some? && !(b.controller.value in b.clients && b.controller.value in live)
    then b.(controller := None) else b
  }

  /** Least member of a set of ids. */
  ghost function Lowest(ids: set<nat>): (r: Option<nat>)
    ensures r.None? <==> ids == {}
    ensures r.Some? ==> r.value in ids && forall i :: i in ids ==> r.value <= i
    decreases ids
  {
    if ids == {} then None
    else
      var i :| i in ids;
      var rest := Lowest(ids - {i});
      assert ids == (ids - {i}) + {i};
      if rest.Some? && rest.value < i then rest else Some(i)
  }

  /** Clients the control may pass to: live and not asking to observe. */
  ghost function Candidates(clients: map<nat, Client>, live: set<nat>): set<nat> {
    set i | i in clients && i in live && clients[i].role != Observer
  }

  ghost function Removed(b: BrokerView, id: nat, live: set<nat>): BrokerView {
    var rest := b.clients - {id};
    BrokerView(rest, if b.controller == Some(id) then Lowest(Candidates(rest, live)) else b.controller)
  }

  /** Accepts a sequence number iff it exceeds the last one; an unknown client is never refused. */
  function Sequenced(b: BrokerView, id: nat, seqNo: u64): (BrokerView, bool) {
    if id !in b.clients then (b, true)
    else if b.clients[id].lastSeq.Some? && seqNo <= b.clients[id].lastSeq.value then (b, false)
    else (b.(clients := b.clients[id := b.clients[id].(lastSeq := Some(seqNo))]), true)
  }

  function Shaken(b: BrokerView, id: nat, seqNo: u64, role: Role, mode: Mode, stream: bool): BrokerView {
    if id !in b.clients then b
    else b.(clients := b.clients[id := Client(role, mode, stream, true, Some(seqNo))])
  }

  function Assigned(b: BrokerView, id: nat, role: Role, live: set<nat>): BrokerView {
    var c := Unstale(b, live);
    if c.controller.None? && role != Observer then c.(controller := Some(id)) else c
  }

  function Claimed(b: BrokerView, id: nat, live: set<nat>): BrokerView {
    var c := Unstale(b, live);
    if c.controller.None? then c.(controller := Some(id)) else c
  }

  function Released(b: BrokerView, id: nat): BrokerView {
    if b.controller == Some(id) then b.(controller := None) else b
  }

  predicate IsHandshaken(b: BrokerView, id: nat) {
    id in b.clients && b.clients[id].handshaken
  }

  // ---- connection tasks ------------------------------------------------

  datatype Message =
    | Hello(seqNo: u64, role: Role, mode: Mode, stream: bool, compatible: bool, json: bool)
    | Command(seqNo: u64, mapped: bool)
    | Claim(seqNo: u64)
    | Release(seqNo: u64)
    | Unknown(seqNo: u64)
    | Garbled

  /** What a busy task does next. */
  datatype Phase = Gate | Sequence | Checks | Mark | Assign | Snapshot | Act | Send

  datatype Task = Starting | Reading | Busy(phase: Phase, message: Message) | Leaving | Gone

  /** What a connection has done so far, in order. */
  datatype Note =
    | Handshook
    | AskedSnapshot
    | SawHandshake
    | Passed(seqNo: u64)
    | SawControl
    | Enqueued(seqNo: u64)

  datatype Connection = Connection(task: Task, trail: seq<Note>)

  /** Connection number i serves client i + 1: the accept loop counts ids up from one. */
  datatype System = System(broker: BrokerView, live: set<nat>, connections: seq<Connection>)

  const START := System(BrokerView(map[], None), {}, [])

  /**
    Accept a connection; lose a client's outbound channel; hand a reading task a line; end a
    reading task's input; let a task run its next section, where room says that the queue it may
    send to accepts.
  */
  datatype Step =
    | Accept
    | Drop(id: nat)
    | Receive(id: nat, message: Message)
    | Hangup(id: nat)
    | Proceed(id: nat, room: bool)

  predicate Known(s: System, id: nat) {
    1 <= id <= |s.connections|
  }

  function Conn(s: System, id: nat): Connection
    requires Known(s, id)
  {
    s.connections[id - 1]
  }

  /** Client id's task continues with this task, having added these notes to its trail. */
  function Onward(s: System, id: nat, b: BrokerView, task: Task, notes: seq<Note>): System
    requires Known(s, id)
  {
    s.(broker := b, connections := s.connections[id - 1 := Connection(task, Conn(s, id).trail + notes)])
  }

  function Received(s: System, id: nat, m: Message): System
    requires Known(s, id)
  {
    if m.Garbled? || (m.Hello? && m.seqNo != 1) then s
    else Onward(s, id, s.broker, Busy(Gate, m), [])
  }

  function AtGate(s: System, id: nat, m: Message): System
    requires Known(s, id)
  {
    if m.Hello? then
      Onward(s, id, s.broker, Busy(if IsHandshaken(s.broker, id) then Sequence else Checks, m), [])
    else if IsHandshaken(s.broker, id) then Onward(s, id, s.broker, Busy(Sequence, m), [SawHandshake])
    else Onward(s, id, s.broker, Reading, [])
  }

  function AtSequence(s: System, id: nat, m: Message): System
    requires Known(s, id) && !m.Garbled?
  {
    var (b, ok) := Sequenced(s.broker, id, m.seqNo);
    var next := if !ok || m.Unknown? then Reading else if m.Hello? then Busy(Checks, m) else Busy(Act, m);
    Onward(s, id, b, next, if ok then [Passed(m.seqNo)] else [])
  }

  function AtHello(s: System, id: nat, phase: Phase, m: Message, room: bool): System
    requires Known(s, id) && m.Hello?
  {
    match phase
    case Checks =>
      Onward(s, id, s.broker, if !m.compatible then Leaving else if !m.json then Reading else Busy(Mark, m), [])
    case Mark =>
      Onward(s, id, Shaken(s.broker, id, m.seqNo, m.role, m.mode, m.stream), Busy(Assign, m), [Handshook])
    case Assign =>
      Onward(s, id, Assigned(s.broker, id, m.role, s.live), if m.stream then Busy(Snapshot, m) else Reading, [])
    case Snapshot =>
      Onward(s, id, s.broker, if room then Reading else Leaving, if room then [AskedSnapshot] else [])
    case _ => s
  }

  function AtAct(s: System, id: nat, m: Message): System
    requires Known(s, id)
  {
    match m
    case Command(_, mapped) =>
      if s.broker.controller == Some(id)
      then Onward(s, id, s.broker, if mapped then Busy(Send, m) else Reading, [SawControl])
      else Onward(s, id, s.broker, Reading, [])
    case Claim(_) => Onward(s, id, Claimed(s.broker, id, s.live), Reading, [])
    case Release(_) => Onward(s, id, Released(s.broker, id), Reading, [])
    case _ => s
  }

  function AtSend(s: System, id: nat, m: Message, room: bool): System
    requires Known(s, id) && !m.Garbled?
  {
    Onward(s, id, s.broker, Reading, if room then [Enqueued(m.seqNo)] else [])
  }

  ghost function Proceeded(s: System, id: nat, room: bool): System
    requires Known(s, id)
  {
    match Conn(s, id).task
    case Starting => Onward(s, id, Registered(s.broker, id), Reading, [])
    case Reading => s
    case Busy(phase, m) =>
      if m.Garbled? then s
      else if phase == Gate then AtGate(s, id, m)
      else if phase == Sequence then AtSequence(s, id, m)
      else if phase == Act then AtAct(s, id, m)
      else if phase == Send then AtSend(s, id, m, room)
      else if m.Hello? then AtHello(s, id, phase, m, room)
      else s
    case Leaving => Onward(s, id, Removed(s.broker, id, s.live), Gone, [])
    case Gone => s
  }

  /** One step; a step that is not possible now changes nothing. */
  ghost function Next(s: System, step: Step): System {
    match step
    case Accept =>
      s.(live := s.live + {|s.connections| + 1}, connections := s.connections + [Connection(Starting, [])])
    case Drop(id) => s.(live := s.live - {id})
    case Receive(id, m) => if Known(s, id) && Conn(s, id).task == Reading then Received(s, id, m) else s
    case Hangup(id) =>
      if Known(s, id) && Conn(s, id).task == Reading then Onward(s, id, s.broker, Leaving, []) else s
    case Proceed(id, room) => if Known(s, id) then Proceeded(s, id, room) else s
  }

  ghost function After(s: System, steps: seq<Step>): System
    decreases |steps|
  {
    if steps == [] then s else After(Next(s, steps[0]), steps[1..])
  }

  // ---- what every connection's trail keeps -----------------------------

  /** The last notes of a trail. */
  predicate EndsWith(trail: seq<Note>, notes: seq<Note>) {
    |notes| <= |trail| && trail[|trail| - |notes|..] == notes
  }

  /** Nothing precedes the handshake, which happens once. */
  predicate OneHandshake(trail: seq<Note>) {
    && (trail != [] ==> trail[0] == Handshook)
    && forall i :: 0 < i < |trail| ==> trail[i] != Handshook
  }

  /** Sequence numbers taken after hello's 1 strictly increase. */
  predicate Increasing(trail: seq<Note>) {
    && (forall i :: 0 <= i < |trail| && trail[i].Passed? ==> 1 < trail[i].seqNo)
    && forall i, j :: 0 <= i < j < |trail| && trail[i].Passed? && trail[j].Passed? ==> trail[i].seqNo < trail[j].seqNo
  }

  /** Each command enqueued was let through by the three checks just before it, with its own number. */
  predicate Guarded(trail: seq<Note>) {
    forall i :: 0 <= i < |trail| && trail[i].Enqueued? ==>
      EndsWith(trail[..i], [SawHandshake, Passed(trail[i].seqNo), SawControl])
  }

  predicate TrailOk(trail: seq<Note>) {
    OneHandshake(trail) && Increasing(trail) && Guarded(trail)
  }

  /** The last number recorded is the greatest accepted: hello's 1 until another passes. */
  predicate UpTo(trail: seq<Note>, last: u64) {
    && 1 <= last
    && (last == 1 || Passed(last) in trail)
    && forall i :: 0 <= i < |trail| && trail[i].Passed? ==> trail[i].seqNo <= last
  }

  /** What a registered client's record says about its trail. */
  predicate RecordOk(client: Client, trail: seq<Note>) {
    && (client.handshaken <==> trail != [])
    && (client.lastSeq.Some? <==> client.handshaken)
    && (client.handshaken ==> UpTo(trail, client.lastSeq.value))
  }

  /** Where a busy task stands, given its record and trail. */
  predicate PhaseOk(phase: Phase, m: Message, client: Client, trail: seq<Note>) {
    && !m.Garbled?
    && (m.Hello? ==> m.seqNo == 1)
    && match phase
       case Gate => true
       case Sequence =>
         client.handshaken && (!m.Hello? ==> EndsWith(trail, [SawHandshake]))
       case Checks => m.Hello? && !client.handshaken
       case Mark => m.Hello? && !client.handshaken
       case Assign => m.Hello? && client.handshaken && client.role == m.role
       case Snapshot => m.Hello? && client.handshaken
       case Act =>
         && (m.Command? || m.Claim? || m.Release?) && client.handshaken
         && EndsWith(trail, [SawHandshake, Passed(m.seqNo)])
       case Send =>
         m.Command? && client.handshaken && EndsWith(trail, [SawHandshake, Passed(m.seqNo), SawControl])
  }

  predicate ConnOk(b: BrokerView, live: set<nat>, id: nat, c: Connection) {
    && TrailOk(c.trail)
    && (id in b.clients <==> c.task.Reading? || c.task.Busy? || c.task.Leaving?)
    && (c.task.Starting? ==> c.trail == [])
    && (id in b.clients ==> RecordOk(b.clients[id], c.trail))
    && (c.task.Busy? && id in b.clients ==> PhaseOk(c.task.phase, c.task.message, b.clients[id], c.trail))
    && (c.task.Busy? && c.task.phase == Send && id in live ==> b.controller == Some(id))
  }

  ghost predicate BrokerOk(s: System) {
    && (forall id :: id in s.broker.clients ==> Known(s, id))
    && (s.broker.controller.Some? ==> s.broker.controller.value in s.broker.clients)
  }

  ghost predicate Inv(s: System) {
    && BrokerOk(s)
    && forall id :: Known(s, id) ==> ConnOk(s.broker, s.live, id, Conn(s, id))
  }

  // ---- trails grow safely ----------------------------------------------

  lemma TrailGrows(trail: seq<Note>, note: Note)
    requires TrailOk(trail)
    requires note == Handshook <==> trail == []
    requires note.Passed? ==> 1 < note.seqNo
    requires note.Passed? ==> forall i :: 0 <= i < |trail| && trail[i].Passed? ==> trail[i].seqNo < note.seqNo
    requires note.Enqueued? ==> EndsWith(trail, [SawHandshake, Passed(note.seqNo), SawControl])
    ensures TrailOk(trail + [note])
  {
  }

  lemma EndsGrow(trail: seq<Note>, notes: seq<Note>, note: Note)
    requires EndsWith(trail, notes)
    ensures EndsWith(trail + [note], notes + [note])
  {
  }

  lemma NothingNew(trail: seq<Note>)
    ensures trail + [] == trail
  {
  }

  // ---- every step keeps the invariant ----------------------------------

  /** A step of client id leaves what the other connections rely on alone. */
  ghost predicate Apart(s: System, t: System, id: nat) {
    && |s.connections| == |t.connections|
    && t.live <= s.live
    && (forall k :: Known(s, k) && k != id ==> Conn(t, k) == Conn(s, k))
    && (forall k :: k != id ==> (k in t.broker.clients <==> k in s.broker.clients))
    && (forall k :: k != id && k in s.broker.clients && k in t.broker.clients ==>
          t.broker.clients[k] == s.broker.clients[k])
    && (forall k :: k != id && k in t.live && k in s.broker.clients && s.broker.controller == Some(k) ==>
          t.broker.controller == Some(k))
  }

  lemma ApartKeeps(s: System, t: System, id: nat)
    requires Inv(s) && Known(s, id) && Apart(s, t, id)
    requires ConnOk(t.broker, t.live, id, Conn(t, id))
    requires t.broker.controller.Some? ==> t.broker.controller.value in t.broker.clients
    ensures Inv(t)
  {
  }

  /** The shape of almost every section: one task moves on, the broker keeps others' records. */
  lemma OnwardKeeps(s: System, id: nat, b: BrokerView, task: Task, notes: seq<Note>)
    requires Inv(s) && Known(s, id)
    requires forall k :: k != id ==> (k in b.clients <==> k in s.broker.clients)
    requires forall k :: k != id && k in b.clients && k in s.broker.clients ==> b.clients[k] == s.broker.clients[k]
    requires forall k :: k != id && k in s.live && k in s.broker.clients && s.broker.controller == Some(k) ==>
               b.controller == Some(k)
    requires b.controller.Some? ==> b.controller.value in b.clients
    requires ConnOk(b, s.live, id, Connection(task, Conn(s, id).trail + notes))
    ensures Inv(Onward(s, id, b, task, notes))
  {
    hide ConnOk, Inv;
    ApartKeeps(s, Onward(s, id, b, task, notes), id);
  }

  lemma GateKeeps(s: System, id: nat, m: Message)
    requires Inv(s) && Known(s, id) && Conn(s, id).task == Busy(Gate, m)
    ensures Inv(AtGate(s, id, m))
  {
    hide TrailOk;
    var c := Conn(s, id);
    assert ConnOk(s.broker, s.live, id, c);
    NothingNew(c.trail);
    var client := s.broker.clients[id];
    if m.Hello? {
      OnwardKeeps(s, id, s.broker, Busy(if client.handshaken then Sequence else Checks, m), []);
    } else if client.handshaken {
      TrailGrows(c.trail, SawHandshake);
      OnwardKeeps(s, id, s.broker, Busy(Sequence, m), [SawHandshake]);
    } else {
      OnwardKeeps(s, id, s.broker, Reading, []);
    }
  }

  /** A handshaken client's second hello never gets past its sequence check. */
  lemma SecondHelloRefused(s: System, id: nat, m: Message)
    requires Inv(s) && Known(s, id) && Conn(s, id).task == Busy(Sequence, m) && m.Hello?
    ensures !Sequenced(s.broker, id, m.seqNo).1
  {
    assert ConnOk(s.broker, s.live, id, Conn(s, id));
  }

  lemma SequenceKeeps(s: System, id: nat, m: Message)
    requires Inv(s) && Known(s, id) && Conn(s, id).task == Busy(Sequence, m)
    ensures Inv(AtSequence(s, id, m))
  {
    hide TrailOk, EndsWith;
    var c := Conn(s, id);
    assert ConnOk(s.broker, s.live, id, c);
    NothingNew(c.trail);
    var (b, ok) := Sequenced(s.broker, id, m.seqNo);
    if !ok {
      OnwardKeeps(s, id, s.broker, Reading, []);
    } else {
      if m.Hello? { SecondHelloRefused(s, id, m); }
      var note := Passed(m.seqNo);
      TrailGrows(c.trail, note);
      EndsGrow(c.trail, [SawHandshake], note);
      assert [SawHandshake] + [note] == [SawHandshake, note];
      SequencedRecord(s.broker.clients[id], c.trail, m.seqNo);
      OnwardKeeps(s, id, b, if m.Unknown? then Reading else Busy(Act, m), [note]);
    }
  }

  lemma SequencedRecord(client: Client, trail: seq<Note>, seqNo: u64)
    requires RecordOk(client, trail) && client.handshaken && client.lastSeq.value < seqNo
    ensures RecordOk(client.(lastSeq := Some(seqNo)), trail + [Passed(seqNo)])
  {
  }

  lemma HelloKeeps(s: System, id: nat, phase: Phase, m: Message, room: bool)
    requires Inv(s) && Known(s, id) && Conn(s, id).task == Busy(phase, m) && m.Hello?
    ensures Inv(AtHello(s, id, phase, m, room))
  {
    hide TrailOk, EndsWith;
    var c := Conn(s, id);
    assert ConnOk(s.broker, s.live, id, c);
    NothingNew(c.trail);
    match phase
    case Checks =>
      OnwardKeeps(s, id, s.broker, if !m.compatible then Leaving else if !m.json then Reading else Busy(Mark, m), []);
    case Mark =>
      TrailGrows(c.trail, Handshook);
      OnwardKeeps(s, id, Shaken(s.broker, id, m.seqNo, m.role, m.mode, m.stream), Busy(Assign, m), [Handshook]);
    case Assign =>
      OnwardKeeps(s, id, Assigned(s.broker, id, m.role, s.live), if m.stream then Busy(Snapshot, m) else Reading, []);
    case Snapshot =>
      TrailGrows(c.trail, AskedSnapshot);
      OnwardKeeps(s, id, s.broker, if room then Reading else Leaving, if room then [AskedSnapshot] else []);
    case _ =>
  }

  lemma ActKeeps(s: System, id: nat, m: Message)
    requires Inv(s) && Known(s, id) && Conn(s, id).task == Busy(Act, m)
    ensures Inv(AtAct(s, id, m))
  {
    hide TrailOk, EndsWith;
    var c := Conn(s, id);
    assert ConnOk(s.broker, s.live, id, c);
    NothingNew(c.trail);
    match m
    case Command(_, mapped) =>
      if s.broker.controller == Some(id) {
        TrailGrows(c.trail, SawControl);
        EndsGrow(c.trail, [SawHandshake, Passed(m.seqNo)], SawControl);
        assert [SawHandshake, Passed(m.seqNo)] + [SawControl] == [SawHandshake, Passed(m.seqNo), SawControl];
        OnwardKeeps(s, id, s.broker, if mapped then Busy(Send, m) else Reading, [SawControl]);
      } else {
        OnwardKeeps(s, id, s.broker, Reading, []);
      }
    case Claim(_) => OnwardKeeps(s, id, Claimed(s.broker, id, s.live), Reading, []);
    case Release(_) => OnwardKeeps(s, id, Released(s.broker, id), Reading, []);
    case _ =>
  }

  lemma SendKeeps(s: System, id: nat, m: Message, room: bool)
    requires Inv(s) && Known(s, id) && Conn(s, id).task == Busy(Send, m)
    ensures Inv(AtSend(s, id, m, room))
  {
    hide TrailOk, EndsWith;
    var c := Conn(s, id);
    assert ConnOk(s.broker, s.live, id, c);
    NothingNew(c.trail);
    TrailGrows(c.trail, Enqueued(m.seqNo));
    OnwardKeeps(s, id, s.broker, Reading, if room then [Enqueued(m.seqNo)] else []);
  }

  lemma EndsKeep(s: System, id: nat)
    requires Inv(s) && Known(s, id)
    ensures Conn(s, id).task.Starting? ==> Inv(Onward(s, id, Registered(s.broker, id), Reading, []))
    ensures Conn(s, id).task.Leaving? ==> Inv(Onward(s, id, Removed(s.broker, id, s.live), Gone, []))
    ensures Conn(s, id).task.Reading? ==> Inv(Onward(s, id, s.broker, Leaving, []))
  {
    hide TrailOk;
    var c := Conn(s, id);
    assert ConnOk(s.broker, s.live, id, c);
    NothingNew(c.trail);
    match c.task
    case Starting => OnwardKeeps(s, id, Registered(s.broker, id), Reading, []);
    case Leaving => OnwardKeeps(s, id, Removed(s.broker, id, s.live), Gone, []);
    case Reading => OnwardKeeps(s, id, s.broker, Leaving, []);
    case _ =>
  }

  lemma AcceptKeeps(s: System)
    requires Inv(s)
    ensures Inv(Next(s, Accept))
  {
    hide TrailOk, RecordOk, PhaseOk;
    var t := Next(s, Accept);
    forall k | Known(t, k)
      ensures ConnOk(t.broker, t.live, k, Conn(t, k))
    {
      if Known(s, k) {
        assert ConnOk(s.broker, s.live, k, Conn(s, k));
      } else {
        assert TrailOk([]) by { NoTrail(); }
      }
    }
  }

  lemma NoTrail()
    ensures TrailOk([])
  {
  }

  lemma ReceiveKeeps(s: System, id: nat, m: Message)
    requires Inv(s) && Known(s, id) && Conn(s, id).task == Reading
    ensures Inv(Received(s, id, m))
  {
    hide TrailOk, RecordOk;
    var c := Conn(s, id);
    assert ConnOk(s.broker, s.live, id, c);
    NothingNew(c.trail);
    if !m.Garbled? && !(m.Hello? && m.seqNo != 1) { OnwardKeeps(s, id, s.broker, Busy(Gate, m), []); }
  }

  lemma NextKeeps(s: System, step: Step)
    requires Inv(s)
    ensures Inv(Next(s, step))
  {
    hide Inv, ConnOk, AtGate, AtSequence, AtHello, AtAct, AtSend, Received, Onward;
    match step
    case Accept => AcceptKeeps(s);
    case Drop(id) => DropKeeps(s, id);
    case Receive(id, m) => if Known(s, id) && Conn(s, id).task == Reading { ReceiveKeeps(s, id, m); }
    case Hangup(id) => if Known(s, id) { EndsKeep(s, id); }
    case Proceed(id, room) =>
      if Known(s, id) {
        EndsKeep(s, id);
        match Conn(s, id).task
        case Busy(Gate, m) => if !m.Garbled? { GateKeeps(s, id, m); }
        case Busy(Sequence, m) => if !m.Garbled? { SequenceKeeps(s, id, m); }
        case Busy(Act, m) => if !m.Garbled? { ActKeeps(s, id, m); }
        case Busy(Send, m) => if !m.Garbled? { SendKeeps(s, id, m, room); }
        case Busy(phase, m) => if m.Hello? { HelloKeeps(s, id, phase, m, room); }
        case _ =>
      }
  }

  lemma DropKeeps(s: System, id: nat)
    requires Inv(s)
    ensures Inv(Next(s, Drop(id)))
  {
    hide TrailOk, RecordOk, PhaseOk;
    var t := Next(s, Drop(id));
    forall k | Known(t, k)
      ensures ConnOk(t.broker, t.live, k, Conn(t, k))
    {
      assert ConnOk(s.broker, s.live, k, Conn(s, k));
    }
  }

  lemma {:induction false} AfterKeeps(s: System, steps: seq<Step>)
    requires Inv(s)
    ensures Inv(After(s, steps))
    decreases |steps|
  {
    hide Inv, Next;
    if steps == [] {
    } else {
      NextKeeps(s, steps[0]);
      AfterKeeps(Next(s, steps[0]), steps[1..]);
    }
  }

  // ---- safety over every interleaving ----------------------------------

  /**
    Whatever the interleaving: a controller is a registered client; every connection shakes hands
    at most once and does nothing before it; the sequence numbers accepted from it strictly
    increase from hello's 1; and each command it got enqueued followed directly on a step that saw
    it handshaken, one that accepted the command's number and one that saw it controller.
  */
  lemma Safety(steps: seq<Step>)
    ensures var s := After(START, steps);
      && (s.broker.controller.Some? ==> s.broker.controller.value in s.broker.clients)
      && (forall id :: id in s.broker.clients ==> Known(s, id))
      && forall id :: Known(s, id) ==>
           OneHandshake(Conn(s, id).trail) && Increasing(Conn(s, id).trail) && Guarded(Conn(s, id).trail)
  {
    hide After;
    AfterKeeps(START, steps);
    var s := After(START, steps);
    forall id | Known(s, id)
      ensures TrailOk(Conn(s, id).trail)
    {
      assert ConnOk(s.broker, s.live, id, Conn(s, id));
    }
  }

  /** A number is accepted exactly when it exceeds hello's 1 and every number accepted before it. */
  lemma AcceptedExactly(steps: seq<Step>, id: nat, m: Message)
    requires Known(After(START, steps), id) && Conn(After(START, steps), id).task == Busy(Sequence, m) && !m.Garbled?
    ensures var s := After(START, steps);
      Sequenced(s.broker, id, m.seqNo).1 <==>
        1 < m.seqNo && forall n: u64 :: Passed(n) in Conn(s, id).trail ==> n < m.seqNo
  {
    hide After, TrailOk;
    AfterKeeps(START, steps);
    var s := After(START, steps);
    assert ConnOk(s.broker, s.live, id, Conn(s, id));
  }

  /** Why the controller of s is not that of t, which one step of s leads to. */
  ghost predicate Accounted(s: System, step: Step, t: System) {
    step.Proceed? && Known(s, step.id) &&
    var id, was, now := step.id, s.broker.controller, t.broker.controller;
    match Conn(s, id).task
    case Busy(Assign, m) =>
      // Hello: the holder is gone or dead; only a client that does not ask to observe takes over.
      && m.Hello? && IsHandshaken(t.broker, id)
      && (was.Some? ==> was.value !in s.live)
      && now == (if m.role == Observer then None else Some(id))
      && (now.Some? ==> t.broker.clients[id].role != Observer)
    case Busy(Act, m) =>
      // Claim: the holder is gone or dead, and the claimer takes over. Release: the holder lets go.
      && IsHandshaken(t.broker, id)
      && (m.Claim? || m.Release?)
      && (m.Claim? ==> (was.Some? ==> was.value !in s.live) && now == Some(id))
      && (m.Release? ==> was == Some(id) && now == None)
    case Leaving =>
      // Disconnect of the holder: the lowest live client that is no observer, or nobody.
      && was == Some(id) && id !in t.broker.clients
      && (now.None? <==> forall k :: k in t.broker.clients && k in t.live ==> t.broker.clients[k].role == Observer)
      && (now.Some? ==>
            && now.value in t.broker.clients && now.value in t.live
            && t.broker.clients[now.value].role != Observer
            && forall k :: k in t.broker.clients && k in t.live && t.broker.clients[k].role != Observer ==>
                 now.value <= k)
    case _ => false
  }

  /** Control never moves for any other reason, in any reachable state. */
  lemma ControlMoves(steps: seq<Step>, step: Step)
    ensures var s := After(START, steps);
      var t := Next(s, step);
      s.broker.controller != t.broker.controller ==> Accounted(s, step, t)
  {
    hide After;
    AfterKeeps(START, steps);
    MoveAccounted(After(START, steps), step);
  }

  lemma MoveAccounted(s: System, step: Step)
    requires Inv(s)
    ensures s.broker.controller != Next(s, step).broker.controller ==> Accounted(s, step, Next(s, step))
  {
    hide Accounted, Inv, Proceeded;
    if step.Proceed? && Known(s, step.id) { ProceedAccounted(s, step.id, step.room); }
  }

  lemma ProceedAccounted(s: System, id: nat, room: bool)
    requires Inv(s) && Known(s, id)
    ensures s.broker.controller != Proceeded(s, id, room).broker.controller ==>
              Accounted(s, Proceed(id, room), Proceeded(s, id, room))
  {
    hide TrailOk, RecordOk, EndsWith, Removed;
    assert ConnOk(s.broker, s.live, id, Conn(s, id));
    if Conn(s, id).task.Leaving? {
      if s.broker.controller == Some(id) {
        PassedOn(s, id);
      } else {
        assert Removed(s.broker, id, s.live).controller == s.broker.controller by { OthersStay(s.broker, id, s.live); }
      }
    }
  }

  lemma OthersStay(b: BrokerView, id: nat, live: set<nat>)
    requires b.controller != Some(id)
    ensures Removed(b, id, live).controller == b.controller
  {
  }

  lemma PassedOn(s: System, id: nat)
    requires Inv(s) && Known(s, id) && Conn(s, id).task.Leaving? && s.broker.controller == Some(id)
    ensures forall room :: Accounted(s, Proceed(id, room), Proceeded(s, id, room))
  {
    hide ConnOk;
    var rest := s.broker.clients - {id};
    forall k | k in rest && k in s.live && rest[k].role != Observer
      ensures k in Candidates(rest, s.live)
    {
    }
  }

  /** A live controller keeps control until it releases it or disconnects itself. */
  lemma LiveControllerKeepsControl(steps: seq<Step>, step: Step, id: nat)
    ensures var s := After(START, steps);
      var t := Next(s, step);
      s.broker.controller == Some(id) && id in s.live ==>
        || t.broker.controller == Some(id)
        || (step.Proceed? && step.id == id
            && (Conn(s, id).task.Leaving? || exists n :: Conn(s, id).task == Busy(Act, Release(n))))
  {
    hide After, Next;
    ControlMoves(steps, step);
  }

  /**
    When a command goes into the queue its sender has shaken hands, and unless the sender's channel
    has died since the check, it is the controller at that very moment.
  */
  lemma EnqueuedByController(steps: seq<Step>, step: Step, id: nat, seqNo: u64)
    requires var s := After(START, steps);
      Known(s, id) && Conn(Next(s, step), id).trail == Conn(s, id).trail + [Enqueued(seqNo)]
    ensures var s := After(START, steps);
      && IsHandshaken(s.broker, id)
      && EndsWith(Conn(s, id).trail, [SawHandshake, Passed(seqNo), SawControl])
      && (id in s.live ==> s.broker.controller == Some(id))
  {
    hide After;
    AfterKeeps(START, steps);
    EnqueueStep(After(START, steps), step, id, seqNo);
  }

  lemma EnqueueStep(s: System, step: Step, id: nat, seqNo: u64)
    requires Inv(s) && Known(s, id)
    requires Conn(Next(s, step), id).trail == Conn(s, id).trail + [Enqueued(seqNo)]
    ensures IsHandshaken(s.broker, id) && (id in s.live ==> s.broker.controller == Some(id))
    ensures EndsWith(Conn(s, id).trail, [SawHandshake, Passed(seqNo), SawControl])
  {
    hide TrailOk, RecordOk, EndsWith;
    var c := Conn(s, id);
    assert ConnOk(s.broker, s.live, id, c);
    var grown := Conn(Next(s, step), id).trail;
    assert grown[|c.trail|] == Enqueued(seqNo);
    assert step.Proceed? && step.id == id;
    assert c.task.Busy? && c.task.phase == Send && grown == c.trail + [Enqueued(c.task.message.seqNo)];
  }

  /**
    Hello settles control at once: a live holder keeps it, else the newcomer takes it unless it asks
    to observe. The welcome names exactly the controller of that moment.
  */
  lemma HelloDecides(steps: seq<Step>, id: nat, m: Message, room: bool)
    requires Known(After(START, steps), id) && Conn(After(START, steps), id).task == Busy(Assign, m) && m.Hello?
    ensures var s := After(START, steps);
      Next(s, Proceed(id, room)).broker.controller ==
        if s.broker.controller.Some? && s.broker.controller.value in s.live then s.broker.controller
        else if m.role == Observer then None
        else Some(id)
  {
    hide After;
    AfterKeeps(START, steps);
    var s := After(START, steps);
    assert ConnOk(s.broker, s.live, id, Conn(s, id));
  }

  /** A claim leaves control with a live holder and otherwise gives it to the claimer. */
  lemma ClaimDecides(steps: seq<Step>, id: nat, seqNo: u64, room: bool)
    requires Known(After(START, steps), id) && Conn(After(START, steps), id).task == Busy(Act, Claim(seqNo))
    ensures var s := After(START, steps);
      Next(s, Proceed(id, room)).broker.controller ==
        if s.broker.controller.Some? && s.broker.controller.value in s.live then s.broker.controller else Some(id)
  {
    hide After;
    AfterKeeps(START, steps);
    var s := After(START, steps);
    assert ConnOk(s.broker, s.live, id, Conn(s, id));
  }

  /** A release by the controller leaves nobody in control; by another it changes nothing. */
  lemma ReleaseDecides(steps: seq<Step>, id: nat, seqNo: u64, room: bool)
    requires Known(After(START, steps), id) && Conn(After(START, steps), id).task == Busy(Act, Release(seqNo))
    ensures var s := After(START, steps);
      Next(s, Proceed(id, room)).broker ==
        s.broker.(controller := if s.broker.controller == Some(id) then None else s.broker.controller)
  {
    hide After;
    AfterKeeps(START, steps);
  }

  // ---- what does not hold ----------------------------------------------

  lemma {:induction false} AfterOneMore(s: System, steps: seq<Step>, step: Step)
    ensures After(s, steps + [step]) == Next(After(s, steps), step)
    decreases |steps|
  {
    hide Next;
    if steps == [] {
      assert After(s, [step]) == After(Next(s, step), []);
    } else {
      assert (steps + [step])[1..] == steps[1..] + [step];
      AfterOneMore(Next(s, steps[0]), steps[1..], step);
    }
  }

  /** A client arrives: accepted and registered. */
  lemma Arrives(steps: seq<Step>) returns (more: seq<Step>)
    ensures var s := After(START, steps);
      var id := |s.connections| + 1;
      After(START, more) == System(Registered(s.broker, id), s.live + {id}, s.connections + [Connection(Reading, [])])
    ensures forall k :: 0 <= k < |more| && more[k].Receive? ==> k < |steps| && more[k] == steps[k]
  {
    hide After;
    var s := After(START, steps);
    more := steps + [Accept] + [Proceed(|s.connections| + 1, true)];
    AfterOneMore(START, steps, Accept);
    AfterOneMore(START, steps + [Accept], Proceed(|s.connections| + 1, true));
    NothingNew([]);
    assert (s.connections + [Connection(Starting, [])])[|s.connections| := Connection(Reading, [])]
        == s.connections + [Connection(Reading, [])];
  }

  /** A reading client's first hello runs undisturbed. */
  lemma Greets(steps: seq<Step>, id: nat, role: Role) returns (more: seq<Step>)
    requires var s := After(START, steps);
      Known(s, id) && Conn(s, id).task == Reading && id in s.broker.clients && !s.broker.clients[id].handshaken
    ensures var s := After(START, steps);
      After(START, more) ==
        Onward(s, id, Assigned(Shaken(s.broker, id, 1, role, ByAction, false), id, role, s.live), Reading, [Handshook])
    ensures forall k :: 0 <= k < |more| && more[k].Receive? ==>
              more[k].message.Hello? || (k < |steps| && more[k] == steps[k])
  {
    hide After;
    var s := After(START, steps);
    var m := Hello(1, role, ByAction, false, true, true);
    var go := Proceed(id, true);
    more := steps + [Receive(id, m)] + [go] + [go] + [go] + [go];
    AfterOneMore(START, steps, Receive(id, m));
    AfterOneMore(START, steps + [Receive(id, m)], go);
    AfterOneMore(START, steps + [Receive(id, m)] + [go], go);
    AfterOneMore(START, steps + [Receive(id, m)] + [go] + [go], go);
    AfterOneMore(START, steps + [Receive(id, m)] + [go] + [go] + [go], go);
    var trail := Conn(s, id).trail;
    NothingNew(trail);
    NothingNew(trail + [Handshook]);
  }

  /**
    The controller need not have shaken hands: two clients arrive, the first says hello and leaves,
    and control passes to the second, which has not said anything.
  */
  lemma PromotionIgnoresHandshake() returns (steps: seq<Step>)
    ensures var s := After(START, steps);
      && s.broker.controller == Some(2) && 2 in s.broker.clients && !s.broker.clients[2].handshaken
      && 2 in s.live && Known(s, 2) && Conn(s, 2).task == Reading
    ensures forall k :: 0 <= k < |steps| && steps[k].Receive? ==> steps[k].message.Hello?
  {
    hide After;
    steps := Arrives([]);
    assert After(START, []) == START by { Nowhere(); }
    steps := Arrives(steps);
    steps := Greets(steps, 1, Auto);
    var s := After(START, steps);
    assert s.broker.controller == Some(1);
    AfterOneMore(START, steps, Hangup(1));
    AfterOneMore(START, steps + [Hangup(1)], Proceed(1, true));
    var rest := s.broker.clients - {1};
    assert rest == map[2 := NEWCOMER];
    assert 2 in Candidates(rest, s.live);
    steps := steps + [Hangup(1)] + [Proceed(1, true)];
  }

  lemma Nowhere()
    ensures After(START, []) == START
  {
  }

  /** An observer may still claim control. */
  lemma ObserverMayClaim() returns (steps: seq<Step>)
    ensures var s := After(START, steps);
      && s.broker.controller == Some(1) && 1 in s.broker.clients && s.broker.clients[1].role == Observer
  {
    hide After;
    steps := Arrives([]);
    Nowhere();
    steps := Greets(steps, 1, Observer);
    var go := Proceed(1, true);
    var ask := Receive(1, Claim(2));
    AfterOneMore(START, steps, ask);
    AfterOneMore(START, steps + [ask], go);
    AfterOneMore(START, steps + [ask] + [go], go);
    AfterOneMore(START, steps + [ask] + [go] + [go], go);
    steps := steps + [ask] + [go] + [go] + [go];
  }

  /**
    Why the last clause of EnqueuedByController needs the channel alive: a client passes the
    controller check, its channel dies, another client's hello takes control, and the command of
    the first still goes into the queue.
  */
  lemma LateCommand() returns (steps: seq<Step>)
    ensures var s := After(START, steps);
      var t := Next(s, Proceed(1, true));
      && s.broker.controller == Some(2)
      && Known(s, 1) && Conn(t, 1).trail == Conn(s, 1).trail + [Enqueued(2)]
  {
    hide After;
    steps := Arrives([]);
    Nowhere();
    steps := Arrives(steps);
    steps := Greets(steps, 1, Auto);
    var s := After(START, steps);
    assert s.broker.controller == Some(1) && Conn(s, 1).task == Reading && IsHandshaken(s.broker, 1);
    assert s.broker.clients[2] == NEWCOMER && Conn(s, 2).task == Reading;
    var sent := Asks(steps, 2);
    var t := After(START, sent);
    AfterOneMore(START, sent, Drop(1));
    steps := Greets(sent + [Drop(1)], 2, Auto);
  }

  /** A handshaken controller's command gets as far as its controller check. */
  lemma Asks(steps: seq<Step>, seqNo: u64) returns (more: seq<Step>)
    requires var s := After(START, steps);
      && Known(s, 1) && Conn(s, 1).task == Reading && IsHandshaken(s.broker, 1)
      && s.broker.controller == Some(1) && Sequenced(s.broker, 1, seqNo).1
    ensures var s := After(START, steps);
      && After(START, more) ==
         Onward(s, 1, Sequenced(s.broker, 1, seqNo).0, Busy(Send, Command(seqNo, true)),
                [SawHandshake, Passed(seqNo), SawControl])
  {
    hide After;
    var s := After(START, steps);
    var go := Proceed(1, true);
    var ask := Receive(1, Command(seqNo, true));
    more := steps + [ask] + [go] + [go] + [go];
    AfterOneMore(START, steps, ask);
    AfterOneMore(START, steps + [ask], go);
    AfterOneMore(START, steps + [ask] + [go], go);
    AfterOneMore(START, steps + [ask] + [go] + [go], go);
    var t := Conn(s, 1).trail;
    assert t + [] + [SawHandshake] + [Passed(seqNo)] + [SawControl] == t + [SawHandshake, Passed(seqNo), SawControl];
  }
}
