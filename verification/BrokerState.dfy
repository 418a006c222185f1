/**
  The broker's own fields, a list of client handles and the controller id, changed in place
  (crates/tetris-adapter/src/adapter/server.rs). Each method is one section run under the broker
  lock and is proved to be the corresponding section of module Broker.
*/
module BrokerStates {
  import opened Types
  import opened Broker

  datatype ClientHandle = ClientHandle(id: nat, client: Client)

  /** Index of the first handle with this id, or the length of the list. */
  function Position(hs: seq<ClientHandle>, id: nat): (k: nat)
    ensures k <= |hs|
    ensures k < |hs| ==> hs[k].id == id
    ensures forall j :: 0 <= j < k ==> hs[j].id != id
  {
    if hs == [] || hs[0].id == id then 0 else 1 + Position(hs[1..], id)
  }

  ghost predicate Distinct(hs: seq<ClientHandle>) {
    forall i, j :: 0 <= i < j < |hs| ==> hs[i].id != hs[j].id
  }

  /** The records by id. */
  ghost function ById(hs: seq<ClientHandle>): map<nat, Client> {
    map id | id in (set h | h in hs :: h.id) :: (var k := Position(hs, id); if k < |hs| then hs[k].client else NEWCOMER)
  }

  lemma ByIdAt(hs: seq<ClientHandle>, k: nat)
    requires Distinct(hs) && k < |hs|
    ensures hs[k].id in ById(hs) && ById(hs)[hs[k].id] == hs[k].client
  {
  }

  lemma ByIdHas(hs: seq<ClientHandle>, id: nat)
    ensures id in ById(hs) <==> exists k :: 0 <= k < |hs| && hs[k].id == id
  {
  }

  /** A map with exactly these records is the one by id. */
  lemma ByIdIs(hs: seq<ClientHandle>, m: map<nat, Client>)
    requires Distinct(hs)
    requires forall k :: 0 <= k < |hs| ==> hs[k].id in m && m[hs[k].id] == hs[k].client
    requires forall id :: id in m ==> exists k :: 0 <= k < |hs| && hs[k].id == id
    ensures ById(hs) == m
  {
  }

  lemma Overwritten(hs: seq<ClientHandle>, k: nat, c: Client)
    requires Distinct(hs) && k < |hs|
    ensures var u := hs[k := hs[k].(client := c)];
      Distinct(u) && ById(u) == ById(hs)[hs[k].id := c]
  {
    hide ById;
    var u := hs[k := hs[k].(client := c)];
    var m := ById(hs)[hs[k].id := c];
    forall j | 0 <= j < |u|
      ensures u[j].id == hs[j].id && u[j].id in m && m[u[j].id] == u[j].client
    {
      ByIdAt(hs, j);
    }
    forall id | id in m
      ensures exists j :: 0 <= j < |u| && u[j].id == id
    {
      ByIdHas(hs, id);
      if id == hs[k].id {
        assert u[k].id == id;
      } else {
        var j :| 0 <= j < |hs| && hs[j].id == id;
        assert u[j].id == id;
      }
    }
    ByIdIs(u, m);
  }

  lemma Appended(hs: seq<ClientHandle>, h: ClientHandle)
    requires Distinct(hs) && h.id !in ById(hs)
    ensures Distinct(hs + [h]) && ById(hs + [h]) == ById(hs)[h.id := h.client]
  {
    hide ById;
    ByIdHas(hs, h.id);
    var u := hs + [h];
    var m := ById(hs)[h.id := h.client];
    forall j | 0 <= j < |u|
      ensures u[j].id in m && m[u[j].id] == u[j].client
    {
      if j < |hs| { ByIdAt(hs, j); }
    }
    forall id | id in m
      ensures exists j :: 0 <= j < |u| && u[j].id == id
    {
      ByIdHas(hs, id);
      if id == h.id {
        assert u[|hs|].id == id;
      } else {
        var j :| 0 <= j < |hs| && hs[j].id == id;
        assert u[j].id == id;
      }
    }
    ByIdIs(u, m);
  }

  /** kept holds exactly the handles of hs with other ids, once each. */
  ghost predicate Retained(hs: seq<ClientHandle>, id: nat, kept: seq<ClientHandle>) {
    && Distinct(kept)
    && (forall j :: 0 <= j < |kept| ==> kept[j].id != id && kept[j] in hs)
    && (forall j :: 0 <= j < |hs| && hs[j].id != id ==> hs[j] in kept)
  }

  lemma RetainedIs(hs: seq<ClientHandle>, id: nat, kept: seq<ClientHandle>)
    requires Distinct(hs) && Retained(hs, id, kept)
    ensures ById(kept) == ById(hs) - {id}
  {
    hide ById;
    var m := ById(hs) - {id};
    forall j | 0 <= j < |kept|
      ensures kept[j].id in m && m[kept[j].id] == kept[j].client
    {
      var k :| 0 <= k < |hs| && hs[k] == kept[j];
      ByIdAt(hs, k);
    }
    forall i | i in m
      ensures exists j :: 0 <= j < |kept| && kept[j].id == i
    {
      ByIdHas(hs, i);
      var k :| 0 <= k < |hs| && hs[k].id == i;
      assert hs[k] in kept;
    }
    ByIdIs(kept, m);
  }

  predicate Eligible(h: ClientHandle, live: set<nat>) {
    h.id in live && h.client.role != Observer
  }

  /** Least eligible id among the handles. */
  ghost predicate LeastEligible(hs: seq<ClientHandle>, live: set<nat>, best: Option<nat>) {
    && (best.None? ==> forall j :: 0 <= j < |hs| ==> !Eligible(hs[j], live))
    && (best.Some? ==>
          && (exists j :: 0 <= j < |hs| && Eligible(hs[j], live) && hs[j].id == best.value)
          && forall j :: 0 <= j < |hs| && Eligible(hs[j], live) ==> best.value <= hs[j].id)
  }

  lemma LeastIsLowest(hs: seq<ClientHandle>, live: set<nat>, best: Option<nat>)
    requires Distinct(hs) && LeastEligible(hs, live, best)
    ensures best == Lowest(Candidates(ById(hs), live))
  {
    hide ById;
    var ids := Candidates(ById(hs), live);
    forall id
      ensures id in ids <==> exists j :: 0 <= j < |hs| && Eligible(hs[j], live) && hs[j].id == id
    {
      ByIdHas(hs, id);
      if id in ById(hs) {
        var k :| 0 <= k < |hs| && hs[k].id == id;
        ByIdAt(hs, k);
      }
    }
    var low := Lowest(ids);
    if best.Some? {
      assert best.value in ids;
      assert low.value <= best.value;
    }
  }

  class BrokerState {
    var clients: seq<ClientHandle>
    var controllerId: Option<nat>

    ghost predicate Valid()
      reads this
    {
      Distinct(clients)
    }

    ghost function Abs(): BrokerView
      reads this
    {
      BrokerView(ById(clients), controllerId)
    }

    constructor ()
      ensures Valid() && Abs() == START.broker
    {
      clients, controllerId := [], None;
    }

    /** First client with this id, if any. */
    method Find(id: nat) returns (k: nat)
      ensures k == Position(clients, id)
      ensures k < |clients| <==> id in Abs().clients
    {
      k := 0;
      while k < |clients| && clients[k].id != id
        invariant k <= |clients|
        invariant forall j :: 0 <= j < k ==> clients[j].id != id
      {
        k := k + 1;
      }
      ByIdHas(clients, id);
    }

    /** Registration of a new connection, whose id the accept loop has not given out before. */
    method Register(id: nat)
      requires Valid() && id !in Abs().clients
      modifies this
      ensures Valid() && Abs() == Registered(old(Abs()), id)
    {
      hide ById;
      Appended(clients, ClientHandle(id, NEWCOMER));
      clients := clients + [ClientHandle(id, NEWCOMER)];
    }

    method ClearStaleController(live: set<nat>)
      requires Valid()
      modifies this`controllerId
      ensures Valid() && Abs() == Unstale(old(Abs()), live)
    {
      hide ById;
      if controllerId.Some? {
        var k := Find(controllerId.value);
        if !(k < |clients| && controllerId.value in live) { controllerId := None; }
      }
    }

    /** Drops every handle with this id and keeps every other. */
    method Retain(id: nat)
      requires Valid()
      modifies this`clients
      ensures Valid() && ById(clients) == old(ById(clients)) - {id}
    {
      hide ById;
      var kept, i := [], 0;
      while i < |clients|
        invariant i <= |clients|
        invariant Retained(clients[..i], id, kept)
        invariant forall j :: 0 <= j < |kept| ==> kept[j] in clients[..i]
      {
        assert clients[..i + 1] == clients[..i] + [clients[i]];
        if clients[i].id != id { kept := kept + [clients[i]]; }
        i := i + 1;
      }
      assert clients[..i] == clients;
      RetainedIs(clients, id, kept);
      clients := kept;
    }

    /** Least id among the live clients that do not ask to observe. */
    method LeastLive(live: set<nat>) returns (best: Option<nat>)
      requires Valid()
      ensures best == Lowest(Candidates(ById(clients), live))
    {
      hide ById;
      best := None;
      var i := 0;
      while i < |clients|
        invariant i <= |clients|
        invariant LeastEligible(clients[..i], live, best)
      {
        assert clients[..i + 1] == clients[..i] + [clients[i]];
        assert clients[..i + 1][i] == clients[i];
        best := Better(clients[..i], clients[i], live, best);
        i := i + 1;
      }
      assert clients[..i] == clients;
      LeastIsLowest(clients, live, best);
    }

    static method Better(hs: seq<ClientHandle>, h: ClientHandle, live: set<nat>, best: Option<nat>)
      returns (next: Option<nat>)
      requires LeastEligible(hs, live, best)
      ensures LeastEligible(hs + [h], live, next)
    {
      next := if Eligible(h, live) && (best.None? || h.id < best.value) then Some(h.id) else best;
      assert (hs + [h])[|hs|] == h;
      if best.Some? {
        var j :| 0 <= j < |hs| && Eligible(hs[j], live) && hs[j].id == best.value;
        assert (hs + [h])[j] == hs[j];
      }
    }

    method RemoveAndPromote(id: nat, live: set<nat>)
      requires Valid()
      modifies this
      ensures Valid() && Abs() == Removed(old(Abs()), id, live)
    {
      hide ById, Lowest;
      var wasController := controllerId == Some(id);
      Retain(id);
      if wasController {
        controllerId := LeastLive(live);
      }
    }

    method CheckAndUpdateSeq(id: nat, seqNo: u64) returns (ok: bool)
      requires Valid()
      modifies this`clients
      ensures Valid() && (Abs(), ok) == Sequenced(old(Abs()), id, seqNo)
    {
      hide ById;
      var k := Find(id);
      if k == |clients| { return true; }
      ByIdAt(clients, k);
      var client := clients[k].client;
      if client.lastSeq.Some? && seqNo <= client.lastSeq.value { return false; }
      Overwritten(clients, k, client.(lastSeq := Some(seqNo)));
      clients := clients[k := clients[k].(client := client.(lastSeq := Some(seqNo)))];
      return true;
    }

    method IsClientHandshaken(id: nat) returns (yes: bool)
      requires Valid()
      ensures yes == IsHandshaken(Abs(), id)
    {
      hide ById;
      var k := Find(id);
      if k < |clients| { ByIdAt(clients, k); }
      yes := k < |clients| && clients[k].client.handshaken;
    }

    /** The gate before commands and control messages: handshaken, and a number accepted. */
    method EnforceHandshakeAndSeq(id: nat, seqNo: u64) returns (ok: bool)
      requires Valid()
      modifies this`clients
      ensures Valid()
      ensures ok == (IsHandshaken(old(Abs()), id) && Sequenced(old(Abs()), id, seqNo).1)
      ensures Abs() == if IsHandshaken(old(Abs()), id) then Sequenced(old(Abs()), id, seqNo).0 else old(Abs())
    {
      hide ById;
      ok := IsClientHandshaken(id);
      if ok { ok := CheckAndUpdateSeq(id, seqNo); }
    }

    /** Hello, first section: the record takes the requested capabilities. */
    method MarkHandshaken(id: nat, seqNo: u64, role: Role, mode: Mode, stream: bool)
      requires Valid()
      modifies this`clients
      ensures Valid() && Abs() == Shaken(old(Abs()), id, seqNo, role, mode, stream)
    {
      hide ById;
      var k := Find(id);
      if k < |clients| {
        Overwritten(clients, k, Client(role, mode, stream, true, Some(seqNo)));
        clients := clients[k := clients[k].(client := Client(role, mode, stream, true, Some(seqNo)))];
      }
    }

    /** Hello, second section: the welcome's role and controller. */
    method AssignOnHello(id: nat, role: Role, live: set<nat>) returns (controls: bool, controller: Option<nat>)
      requires Valid()
      modifies this`controllerId
      ensures Valid() && Abs() == Assigned(old(Abs()), id, role, live)
      ensures controller == Abs().controller && (controls <==> controller == Some(id))
    {
      hide ById;
      ClearStaleController(live);
      controls := false;
      if controllerId == Some(id) {
        controls := true;
      } else if controllerId.None? && role != Observer {
        controllerId := Some(id);
        controls := true;
      }
      controller := controllerId;
    }

    /** Acknowledged exactly when the claimer is controller afterwards. */
    method ClaimControl(id: nat, live: set<nat>) returns (acknowledged: bool)
      requires Valid()
      modifies this`controllerId
      ensures Valid() && Abs() == Claimed(old(Abs()), id, live)
      ensures acknowledged <==> Abs().controller == Some(id)
    {
      hide ById;
      ClearStaleController(live);
      if controllerId == Some(id) {
        acknowledged := true;
      } else if controllerId.None? {
        controllerId := Some(id);
        acknowledged := true;
      } else {
        acknowledged := false;
      }
    }

    /** Acknowledged exactly when the caller was controller, who then is not; nobody takes over. */
    method ReleaseControl(id: nat) returns (acknowledged: bool)
      requires Valid()
      modifies this`controllerId
      ensures Valid() && Abs() == Released(old(Abs()), id)
      ensures acknowledged <==> old(Abs()).controller == Some(id)
      ensures Abs().controller == if acknowledged then None else old(Abs()).controller
    {
      hide ById;
      acknowledged := controllerId == Some(id);
      if acknowledged { controllerId := None; }
    }
  }
}
