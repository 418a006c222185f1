/**
  How a controller came by its role, over every interleaving of the broker's steps
  (crates/tetris-adapter/src/adapter/server.rs): exactly when it has not shaken hands, exactly when
  it asked to observe, and exactly when a checked command's sender is no longer controller.
*/
module BrokerTenure {
  import opened Types
  import opened Broker

  /** The system after the first k steps. */
  ghost function Upto(steps: seq<Step>, k: nat): System
    requires k <= |steps|
  {
    After(START, steps[..k])
  }

  lemma UptoNext(steps: seq<Step>, k: nat)
    requires k < |steps|
    ensures Upto(steps, k + 1) == Next(Upto(steps, k), steps[k])
    ensures Inv(Upto(steps, k))
  {
    hide After, Next, Inv;
    assert steps[..k + 1] == steps[..k] + [steps[k]];
    AfterOneMore(START, steps[..k], steps[k]);
    StartOk();
    AfterKeeps(START, steps[..k]);
  }

  lemma StartOk()
    ensures Inv(START)
  {
  }

  ghost function Holder(steps: seq<Step>, k: nat): Option<nat>
    requires k <= |steps|
  {
    Upto(steps, k).broker.controller
  }

  // ---- what a step does to a standing controller -----------------------

  /** Step k is client c's mark section, for a hello that asks for this role. */
  ghost predicate MarksAt(steps: seq<Step>, k: nat, c: nat, role: Role)
    requires k < |steps|
  {
    var s := Upto(steps, k);
    && steps[k].Proceed? && steps[k].id == c && Known(s, c)
    && Conn(s, c).task.Busy? && Conn(s, c).task.phase == Mark
    && Conn(s, c).task.message.Hello? && Conn(s, c).task.message.role == role
  }

  /** Step k is the cleanup of a controller, which passes control on. */
  ghost predicate PassesOn(steps: seq<Step>, k: nat)
    requires k < |steps|
  {
    var s := Upto(steps, k);
    steps[k].Proceed? && Known(s, steps[k].id) && Conn(s, steps[k].id).task.Leaving?
  }

  /** Step k is client c's claim section. */
  ghost predicate ClaimsAt(steps: seq<Step>, k: nat, c: nat)
    requires k < |steps|
  {
    var s := Upto(steps, k);
    && steps[k].Proceed? && steps[k].id == c && Known(s, c)
    && Conn(s, c).task.Busy? && Conn(s, c).task.phase == Act && Conn(s, c).task.message.Claim?
  }

  /** Client c has been controller since step i, which gave it the role. */
  ghost predicate ControlsSince(steps: seq<Step>, n: nat, i: nat, c: nat)
    requires n <= |steps|
  {
    i < n && Holder(steps, i) != Some(c) && forall k :: i < k <= n ==> Holder(steps, k) == Some(c)
  }

  function RecordOf(s: System, c: nat): Client {
    if c in s.broker.clients then s.broker.clients[c] else NEWCOMER
  }

  lemma RecordKept(s: System, step: Step, c: nat)
    requires Inv(s) && s.broker.controller == Some(c) && Next(s, step).broker.controller == Some(c)
    requires !(step.Proceed? && step.id == c && Known(s, c) && Conn(s, c).task.Busy?
               && Conn(s, c).task.phase == Mark && Conn(s, c).task.message.Hello?)
    ensures var before, after := RecordOf(s, c), RecordOf(Next(s, step), c);
      after.handshaken == before.handshaken && after.role == before.role
  {
    hide TrailOk, RecordOk, EndsWith, Lowest;
    if step.Proceed? && Known(s, step.id) { assert ConnOk(s.broker, s.live, step.id, Conn(s, step.id)); }
  }

  lemma RecordMarked(s: System, step: Step, c: nat)
    requires Inv(s) && c in s.broker.clients
    requires step.Proceed? && step.id == c && Known(s, c) && Conn(s, c).task.Busy?
    requires Conn(s, c).task.phase == Mark && Conn(s, c).task.message.Hello?
    ensures !RecordOf(s, c).handshaken
    ensures var after := RecordOf(Next(s, step), c);
      after.handshaken && after.role == Conn(s, c).task.message.role
  {
    hide TrailOk, RecordOk, EndsWith, Lowest;
    assert ConnOk(s.broker, s.live, c, Conn(s, c));
  }

  /** How step i gave c the role, and what that says of its record. */
  ghost predicate Gained(steps: seq<Step>, i: nat, c: nat)
    requires i < |steps|
  {
    var a := RecordOf(Upto(steps, i + 1), c);
    if PassesOn(steps, i) then steps[i].id != c && a.role != Observer
    else a.handshaken && (!ClaimsAt(steps, i, c) ==> a.role != Observer)
  }

  /** c's record at n is the one it took the role with, unless it has shaken hands since. */
  ghost predicate Told(steps: seq<Step>, i: nat, n: nat, c: nat)
    requires i < n <= |steps|
  {
    var a, b := RecordOf(Upto(steps, i + 1), c), RecordOf(Upto(steps, n), c);
    && ((forall j, r :: i < j < n ==> !MarksAt(steps, j, c, r)) ==> b.handshaken == a.handshaken && b.role == a.role)
    && forall j, r :: i < j < n && MarksAt(steps, j, c, r) ==> !a.handshaken && b.handshaken && b.role == r
  }

  lemma GainedNow(steps: seq<Step>, i: nat, c: nat)
    requires i < |steps| && Holder(steps, i) != Some(c) && Holder(steps, i + 1) == Some(c)
    ensures Gained(steps, i, c)
  {
    hide After, Inv, Next, Lowest;
    UptoNext(steps, i);
    MoveAccounted(Upto(steps, i), steps[i]);
  }

  lemma ToldOneMore(steps: seq<Step>, i: nat, n: nat, c: nat)
    requires i < n < |steps| && Told(steps, i, n, c)
    requires Holder(steps, n) == Some(c) && Holder(steps, n + 1) == Some(c)
    ensures Told(steps, i, n + 1, c)
  {
    hide Upto, Inv, Next, MarksAt;
    UptoNext(steps, n);
    var s := Upto(steps, n);
    HolderRegistered(s);
    if r :| MarksAt(steps, n, c, r) {
      MarkSection(steps, n, c, r);
      RecordMarked(s, steps[n], c);
      assert forall j, q :: i < j < n ==> !MarksAt(steps, j, c, q);
    } else {
      NoMarkSection(steps, n, c);
      RecordKept(s, steps[n], c);
    }
  }

  lemma HolderRegistered(s: System)
    requires Inv(s)
    ensures s.broker.controller.Some? ==> s.broker.controller.value in s.broker.clients
  {
  }

  lemma MarkSection(steps: seq<Step>, n: nat, c: nat, r: Role)
    requires n < |steps| && MarksAt(steps, n, c, r)
    ensures var s := Upto(steps, n);
      && steps[n].Proceed? && steps[n].id == c && Known(s, c) && Conn(s, c).task.Busy?
      && Conn(s, c).task.phase == Mark && Conn(s, c).task.message.Hello? && Conn(s, c).task.message.role == r
    ensures forall q :: MarksAt(steps, n, c, q) ==> q == r
  {
  }

  lemma NoMarkSection(steps: seq<Step>, n: nat, c: nat)
    requires n < |steps| && forall r :: !MarksAt(steps, n, c, r)
    ensures var s := Upto(steps, n);
      !(steps[n].Proceed? && steps[n].id == c && Known(s, c) && Conn(s, c).task.Busy?
        && Conn(s, c).task.phase == Mark && Conn(s, c).task.message.Hello?)
  {
    var s := Upto(steps, n);
    if steps[n].Proceed? && steps[n].id == c && Known(s, c) && Conn(s, c).task.Busy?
       && Conn(s, c).task.phase == Mark && Conn(s, c).task.message.Hello? {
      assert MarksAt(steps, n, c, Conn(s, c).task.message.role);
    }
  }

  /** Every controller took the role at some step, and its record tells how. */
  lemma {:induction false} Tenure(steps: seq<Step>, n: nat, c: nat) returns (i: nat)
    requires n <= |steps| && Holder(steps, n) == Some(c)
    ensures ControlsSince(steps, n, i, c) && Gained(steps, i, c) && Told(steps, i, n, c)
    decreases n
  {
    hide Upto, Gained, Told, Holder;
    if n == 0 {
      NobodyAtFirst(steps);
      assert false;
    } else if Holder(steps, n - 1) == Some(c) {
      i := Tenure(steps, n - 1, c);
      ToldOneMore(steps, i, n - 1, c);
    } else {
      i := n - 1;
      GainedNow(steps, i, c);
      assert Told(steps, i, n, c) by { NothingSince(steps, i, c); }
    }
  }

  lemma NobodyAtFirst(steps: seq<Step>)
    ensures Holder(steps, 0) == None
  {
    assert steps[..0] == [];
  }

  lemma NothingSince(steps: seq<Step>, i: nat, c: nat)
    requires i < |steps|
    ensures Told(steps, i, i + 1, c)
  {
    hide Upto, MarksAt;
  }

  // ---- exact conditions ------------------------------------------------

  /**
    A controller has not shaken hands exactly if the last change of control was another client's
    disconnect that promoted it before its handshake, and it has run no mark section since.
  */
  lemma UnshakenExactly(steps: seq<Step>, c: nat) returns (i: nat)
    requires Holder(steps, |steps|) == Some(c)
    ensures ControlsSince(steps, |steps|, i, c)
    ensures !IsHandshaken(Upto(steps, |steps|).broker, c) <==>
      && PassesOn(steps, i) && steps[i].id != c && !IsHandshaken(Upto(steps, i + 1).broker, c)
      && forall j, r :: i < j < |steps| ==> !MarksAt(steps, j, c, r)
  {
    hide Upto, MarksAt, PassesOn, ClaimsAt;
    i := Tenure(steps, |steps|, c);
    HolderIsRegistered(steps, |steps|, c);
    HolderIsRegistered(steps, i + 1, c);
  }

  lemma HolderIsRegistered(steps: seq<Step>, n: nat, c: nat)
    requires n <= |steps| && Holder(steps, n) == Some(c)
    ensures c in Upto(steps, n).broker.clients
  {
    hide After, Inv;
    StartOk();
    AfterKeeps(START, steps[..n]);
    HolderRegistered(Upto(steps, n));
  }

  /**
    A controller is on record as an observer exactly if it took the role by a claim, its hello
    having asked to observe, or was promoted before its hello, which then asked to observe.
  */
  lemma ObserverExactly(steps: seq<Step>, c: nat) returns (i: nat)
    requires Holder(steps, |steps|) == Some(c)
    ensures ControlsSince(steps, |steps|, i, c)
    ensures RecordOf(Upto(steps, |steps|), c).role == Observer <==>
      || (ClaimsAt(steps, i, c) && RecordOf(Upto(steps, i + 1), c).role == Observer)
      || (PassesOn(steps, i) && !IsHandshaken(Upto(steps, i + 1).broker, c)
          && exists j :: i < j < |steps| && MarksAt(steps, j, c, Observer))
  {
    hide Upto, MarksAt, PassesOn, ClaimsAt;
    i := Tenure(steps, |steps|, c);
    HolderIsRegistered(steps, |steps|, c);
    HolderIsRegistered(steps, i + 1, c);
    ClaimIsNoPassing(steps, i, c);
  }

  lemma ClaimIsNoPassing(steps: seq<Step>, i: nat, c: nat)
    requires i < |steps|
    ensures !(ClaimsAt(steps, i, c) && PassesOn(steps, i))
  {
  }

  // ---- a checked command's sender --------------------------------------

  /** Client id's task is about to put a checked command into the queue. */
  ghost predicate AboutToSend(s: System, id: nat) {
    Known(s, id) && Conn(s, id).task.Busy? && Conn(s, id).task.phase == Send
  }

  /** Step k is another client's hello assignment or claim section, run while id's channel is dead. */
  ghost predicate DisplacesAt(steps: seq<Step>, k: nat, id: nat)
    requires k < |steps|
  {
    Displaces(Upto(steps, k), steps[k], id)
  }

  ghost predicate Displaces(s: System, step: Step, id: nat) {
    && step.Proceed? && step.id != id && id !in s.live && Known(s, step.id) && Conn(s, step.id).task.Busy?
    && (Conn(s, step.id).task.phase == Assign
        || (Conn(s, step.id).task.phase == Act && Conn(s, step.id).task.message.Claim?))
  }

  /** In step k id's own task saw it controller, and it has not run since. */
  ghost predicate CheckedAt(steps: seq<Step>, k: nat, n: nat, id: nat)
    requires k < n <= |steps|
  {
    && steps[k].Proceed? && steps[k].id == id && Holder(steps, k) == Some(id)
    && forall j :: k < j < n ==> !(steps[j].Proceed? && steps[j].id == id)
  }

  lemma EntersSend(s: System, step: Step, id: nat)
    requires Inv(s) && AboutToSend(Next(s, step), id) && !(AboutToSend(s, id) && !(step.Proceed? && step.id == id))
    ensures step.Proceed? && step.id == id
    ensures s.broker.controller == Some(id) && Next(s, step).broker.controller == Some(id)
  {
    hide TrailOk, RecordOk, EndsWith, Lowest;
    if Known(s, id) { assert ConnOk(s.broker, s.live, id, Conn(s, id)); }
  }

  /** While a sender waits, another's section takes control from it or leaves it lost exactly if its channel is dead. */
  lemma SenderWaits(s: System, step: Step, id: nat)
    requires Inv(s) && AboutToSend(s, id) && !(step.Proceed? && step.id == id)
    ensures Next(s, step).broker.controller != Some(id) <==>
              s.broker.controller != Some(id) || Displaces(s, step, id)
  {
    hide TrailOk, RecordOk, EndsWith, Accounted;
    MoveAccounted(s, step);
    assert ConnOk(s.broker, s.live, id, Conn(s, id));
    if s.broker.controller != Next(s, step).broker.controller { Mover(s, step, id); }
    if Displaces(s, step, id) { assert ConnOk(s.broker, s.live, step.id, Conn(s, step.id)); }
  }

  /** What the account of a control change says of a waiting sender. */
  lemma Mover(s: System, step: Step, id: nat)
    requires Inv(s) && AboutToSend(s, id) && !(step.Proceed? && step.id == id)
    requires Accounted(s, step, Next(s, step))
    ensures s.broker.controller == Some(id) ==> Displaces(s, step, id)
    ensures Next(s, step).broker.controller == Some(id) ==> s.broker.controller == Some(id)
  {
    hide TrailOk, RecordOk, EndsWith, Lowest;
    assert ConnOk(s.broker, s.live, id, Conn(s, id));
  }

  lemma {:induction false} SenderTold(steps: seq<Step>, n: nat, id: nat) returns (k: nat)
    requires n <= |steps| && AboutToSend(Upto(steps, n), id)
    ensures k < n && CheckedAt(steps, k, n, id)
    ensures Holder(steps, n) != Some(id) <==> exists j :: k < j < n && DisplacesAt(steps, j, id)
    decreases n
  {
    hide Upto, Inv, Next, AboutToSend, Displaces;
    if n == 0 {
      NobodySends(steps, id);
      assert false;
    } else {
      UptoNext(steps, n - 1);
      var s, step := Upto(steps, n - 1), steps[n - 1];
      if AboutToSend(s, id) && !(step.Proceed? && step.id == id) {
        k := SenderTold(steps, n - 1, id);
        SenderWaits(s, step, id);
        assert DisplacesAt(steps, n - 1, id) == Displaces(s, step, id);
      } else {
        k := n - 1;
        EntersSend(s, step, id);
      }
    }
  }

  lemma NobodySends(steps: seq<Step>, id: nat)
    ensures !AboutToSend(Upto(steps, 0), id)
  {
    assert steps[..0] == [];
  }

  /**
    At the moment a checked command goes into the queue its sender is no longer controller exactly
    if, since the step that saw it controller, another client's hello assignment or claim section
    ran while the sender's channel was dead.
  */
  lemma SenderDisplacedExactly(steps: seq<Step>, id: nat) returns (k: nat)
    requires AboutToSend(Upto(steps, |steps|), id)
    ensures k < |steps| && CheckedAt(steps, k, |steps|, id)
    ensures Holder(steps, |steps|) != Some(id) <==> exists j :: k < j < |steps| && DisplacesAt(steps, j, id)
  {
    k := SenderTold(steps, |steps|, id);
  }

  // ---- a run for the second route --------------------------------------

  /**
    A controller may be an observer without any claim: promoted before its hello, it then asks to
    observe and keeps control.
  */
  lemma PromotedThenObserves() returns (steps: seq<Step>)
    ensures var s := After(START, steps);
      && s.broker.controller == Some(2) && IsHandshaken(s.broker, 2) && s.broker.clients[2].role == Observer
      && forall k :: 0 <= k < |steps| && steps[k].Receive? ==> steps[k].message.Hello?
  {
    hide After;
    steps := PromotionIgnoresHandshake();
    steps := Greets(steps, 2, Observer);
  }
}
