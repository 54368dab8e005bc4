/** The slots by themselves, with clients that take a slot and free it in turn. */
module Semaphore {
  import opened Context

  datatype Client = Out | Blocked | Holding | HandingOff

  datatype State = State(slots: Slots, clients: seq<Client>)

  datatype Action = Acquire(c: nat) | Free(c: nat) | HandOver(c: nat, to: nat)

  /** The main test holds a slot from the start. */
  function Init(maxParallel: int, others: nat): State {
    State(Slots(maxParallel, 1, 0), [Holding] + seq(others, _ => Out))
  }

  predicate Is(s: State, c: nat, client: Client) {
    c < |s.clients| && s.clients[c] == client
  }

  predicate Enabled(s: State, a: Action) {
    match a
    case Acquire(c) => Is(s, c, Out)
    case Free(c) => Is(s, c, Holding)
    case HandOver(c, to) => Is(s, c, HandingOff) && Is(s, to, Blocked)
  }

  function Step(s: State, a: Action): State
    requires Enabled(s, a)
  {
    match a
    case Acquire(c) =>
      State(s.slots.WaitParallel(), s.clients[c := if s.slots.running < s.slots.maxParallel then Holding else Blocked])
    case Free(c) =>
      State(s.slots.Release(), s.clients[c := if s.slots.numWaiting == 0 then Out else HandingOff])
    case HandOver(c, to) => s.(clients := s.clients[c := Out][to := Holding])
  }

  predicate Runs(s: State, actions: seq<Action>)
    decreases |actions|
  {
    actions == [] || (Enabled(s, actions[0]) && Runs(Step(s, actions[0]), actions[1..]))
  }

  function Exec(s: State, actions: seq<Action>): State
    requires Runs(s, actions)
    decreases |actions|
  {
    if actions == [] then s else Exec(Step(s, actions[0]), actions[1..])
  }

  function Number(client: Client, clients: seq<Client>): nat {
    multiset(clients)[client]
  }

  /** The counter counts the slots held and those on their way to another client; blocked clients are
      in the queue or about to be handed a slot; and no slot is free while clients wait. */
  predicate Accurate(s: State) {
    && s.slots.running == Number(Holding, s.clients) + Number(HandingOff, s.clients)
    && Number(Blocked, s.clients) == s.slots.numWaiting + Number(HandingOff, s.clients)
    && s.slots.Bounded()
  }

  /** The number of clients in state `x` after one has moved. */
  function Moved(n: int, from: Client, to: Client, x: Client): int {
    n - (if from == x then 1 else 0) + (if to == x then 1 else 0)
  }

  lemma Replace(clients: seq<Client>, c: nat, client: Client)
    requires c < |clients|
    ensures forall x :: Number(x, clients[c := client]) == Moved(Number(x, clients), clients[c], client, x)
  {
    assert multiset(clients[c := client]) == multiset(clients) - multiset{clients[c]} + multiset{client};
  }

  lemma StepAccurate(s: State, a: Action)
    requires Accurate(s) && Enabled(s, a)
    ensures Accurate(Step(s, a))
  {
    if a.HandOver? {
      Replace(s.clients, a.c, Out);
      Replace(s.clients[a.c := Out], a.to, Holding);
    } else {
      Replace(s.clients, a.c, Step(s, a).clients[a.c]);
    }
  }

  lemma {:induction false} RunAccurate(s: State, actions: seq<Action>)
    requires Accurate(s) && Runs(s, actions)
    ensures Accurate(Exec(s, actions))
    decreases |actions|
  {
    if actions != [] {
      StepAccurate(s, actions[0]);
      RunAccurate(Step(s, actions[0]), actions[1..]);
    }
  }

  lemma InitAccurate(maxParallel: int, others: nat)
    requires maxParallel >= 1
    ensures Accurate(Init(maxParallel, others))
  {
    var rest := seq(others, _ => Out);
    assert forall c <- rest :: c == Out;
    assert multiset(Init(maxParallel, others).clients) == multiset{Holding} + multiset(rest);
    assert multiset(rest)[Holding] == 0 && multiset(rest)[HandingOff] == 0 && multiset(rest)[Blocked] == 0;
  }

  /** Safety and work conservation, in every reachable state; and a client that hands its slot over
      always has somebody to hand it to. */
  lemma SlotsAreAccurate(maxParallel: int, others: nat, actions: seq<Action>)
    requires maxParallel >= 1 && Runs(Init(maxParallel, others), actions)
    ensures var s := Exec(Init(maxParallel, others), actions);
      Accurate(s) && forall c :: Is(s, c, HandingOff) ==> exists to :: Enabled(s, HandOver(c, to))
  {
    InitAccurate(maxParallel, others);
    RunAccurate(Init(maxParallel, others), actions);
    var s := Exec(Init(maxParallel, others), actions);
    forall c | Is(s, c, HandingOff) ensures exists to :: Enabled(s, HandOver(c, to)) {
      assert HandingOff in multiset(s.clients);
      assert Blocked in multiset(s.clients);
      var to: nat :| to < |s.clients| && s.clients[to] == Blocked;
      assert Enabled(s, HandOver(c, to));
    }
  }
}
