/** The admission gate of a promotion: its life cycle, its quota and the users it has admitted. */
module Gate {
  import opened Common

  datatype GateState = Created | Preheating | Running | Finished

  datatype Gate = Gate(quota: nat, admitted: nat, state: GateState, users: set<string>)

  datatype AdmissionCode = Accepted | Duplicate | NotStarted | GateFinished | Exhausted

  /** The counter is the number of admitted users and stays within the quota. */
  predicate Sound(g: Gate) {
    g.admitted == |g.users| && g.admitted <= g.quota
  }

  function Decide(g: Gate, user: string): AdmissionCode {
    if g.state == Created || g.state == Preheating then NotStarted
    else if g.state == Finished then GateFinished
    else if user in g.users then Duplicate
    else if g.admitted >= g.quota then Exhausted
    else Accepted
  }

  function Acquire(g: Gate, user: string): Gate {
    if Decide(g, user) == Accepted then g.(users := g.users + {user}, admitted := g.admitted + 1) else g
  }

  function Rollback(g: Gate, user: string): Gate {
    if user in g.users
    then g.(users := g.users - {user}, admitted := if g.admitted > 0 then g.admitted - 1 else 0)
    else g
  }

  /** The promotion runs, the user is new and the quota is not used up. */
  predicate HasPlace(g: Gate, user: string) {
    g.state == Running && user !in g.users && |g.users| < g.quota
  }

  /** Every answer, by the state of the promotion and its set of users alone. */
  lemma DecisionTable(g: Gate, user: string)
    requires Sound(g)
    ensures Decide(g, user) == Accepted <==> HasPlace(g, user)
    ensures Decide(g, user) == Exhausted <==> g.state == Running && user !in g.users && |g.users| == g.quota
    ensures Decide(g, user) == Duplicate <==> g.state == Running && user in g.users
    ensures Decide(g, user) == NotStarted <==> g.state == Created || g.state == Preheating
    ensures Decide(g, user) == GateFinished <==> g.state == Finished
  {}

  lemma AcquireIsSound(g: Gate, user: string)
    requires Sound(g)
    ensures Sound(Acquire(g, user))
    ensures Decide(g, user) == Accepted <==> Acquire(g, user).users != g.users
    ensures Decide(g, user) == Accepted ==> Rollback(Acquire(g, user), user) == g
  {
    if Decide(g, user) == Accepted { assert g.users + {user} - {user} == g.users; }
  }

  lemma RollbackIsSound(g: Gate, user: string)
    requires Sound(g)
    ensures Sound(Rollback(g, user)) && Rollback(g, user).users == g.users - {user}
  {
    if user !in g.users { assert g.users - {user} == g.users; }
  }

  function AcquireAll(g: Gate, users: seq<string>): Gate
    decreases |users|
  {
    if users == [] then g else AcquireAll(Acquire(g, users[0]), users[1..])
  }

  function SetOf(users: seq<string>): set<string> {
    set u | u in users
  }

  predicate AllNew(g: Gate, users: seq<string>) {
    && (forall i, j :: 0 <= i < j < |users| ==> users[i] != users[j])
    && (forall i :: 0 <= i < |users| ==> users[i] !in g.users)
  }

  /** The users that still find a place. */
  function Fitting(g: Gate, users: seq<string>): seq<string>
    requires Sound(g)
  {
    var places := g.quota - |g.users|;
    if |users| <= places then users else users[..places]
  }

  /** First come, first served: of new users exactly as many are admitted as there are places, in their order. */
  lemma {:induction false} FirstComeFirstServed(g: Gate, users: seq<string>)
    requires Sound(g) && g.state == Running && AllNew(g, users)
    ensures AcquireAll(g, users).users == g.users + SetOf(Fitting(g, users))
    decreases |users|
  {
    hide SetOf;
    if users == [] || |g.users| == g.quota {
      NoneAdmitted(g, users);
      assert Fitting(g, users) == [];
      NobodyMore(g);
    } else {
      var h := Acquire(g, users[0]);
      AcquireIsSound(g, users[0]);
      assert AllNew(h, users[1..]);
      FirstComeFirstServed(h, users[1..]);
      FittingStep(g, users);
    }
  }

  lemma NobodyMore(g: Gate)
    ensures g.users + SetOf([]) == g.users
  {}

  lemma FittingStep(g: Gate, users: seq<string>)
    requires Sound(g) && users != [] && HasPlace(g, users[0])
    requires Sound(Acquire(g, users[0]))
    ensures var h := Acquire(g, users[0]);
            h.users + SetOf(Fitting(h, users[1..])) == g.users + SetOf(Fitting(g, users))
  {
    var h := Acquire(g, users[0]);
    var rest := Fitting(h, users[1..]);
    assert Fitting(g, users) == [users[0]] + rest;
    assert SetOf([users[0]] + rest) == {users[0]} + SetOf(rest);
  }

  lemma {:induction false} NoneAdmitted(g: Gate, users: seq<string>)
    requires Sound(g) && g.state == Running && (users == [] || |g.users| == g.quota)
    ensures AcquireAll(g, users) == g
  {
    if users != [] { NoneAdmitted(g, users[1..]); }
  }

  class AdmissionGate {
    var gates: map<string, Gate>

    ghost predicate Valid()
      reads this
    {
      forall p :: p in gates ==> Sound(gates[p]) && gates[p].quota > 0
    }

    constructor ()
      ensures Valid() && gates == map[]
    {
      gates := map[];
    }

    method Configure(promotion: string, quota: nat) returns (status: Status)
      requires Valid()
      modifies this
      ensures Valid()
      ensures status == if promotion == "" || quota == 0 then InvalidArgument
                        else if promotion in old(gates) then AlreadyExists else Ok
      ensures gates == if status == Ok then old(gates)[promotion := Gate(quota, 0, Created, {})] else old(gates)
    {
      if promotion == "" || quota == 0 { return InvalidArgument; }
      if promotion in gates { return AlreadyExists; }
      gates := gates[promotion := Gate(quota, 0, Created, {})];
      return Ok;
    }

    /** `preheat`, `start` and `finish`: each admits one state and moves to the next. */
    method Advance(promotion: string, from: GateState, to: GateState) returns (status: Status)
      requires Valid()
      modifies this
      ensures Valid()
      ensures status == if promotion !in old(gates) then NotFound
                        else if old(gates)[promotion].state != from then FailedPrecondition else Ok
      ensures gates == if status == Ok then old(gates)[promotion := old(gates)[promotion].(state := to)] else old(gates)
    {
      if promotion !in gates { return NotFound; }
      if gates[promotion].state != from { return FailedPrecondition; }
      gates := gates[promotion := gates[promotion].(state := to)];
      return Ok;
    }

    method Preheat(promotion: string) returns (status: Status)
      requires Valid()
      modifies this
      ensures Valid()
      ensures status == Ok <==> promotion in old(gates) && old(gates)[promotion].state == Created
      ensures status == Ok ==> gates == old(gates)[promotion := old(gates)[promotion].(state := Preheating)]
      ensures status != Ok ==> gates == old(gates)
    {
      status := Advance(promotion, Created, Preheating);
    }

    method Start(promotion: string) returns (status: Status)
      requires Valid()
      modifies this
      ensures Valid()
      ensures status == Ok <==> promotion in old(gates) && old(gates)[promotion].state == Preheating
      ensures status == Ok ==> gates == old(gates)[promotion := old(gates)[promotion].(state := Running)]
      ensures status != Ok ==> gates == old(gates)
    {
      status := Advance(promotion, Preheating, Running);
    }

    method Finish(promotion: string) returns (status: Status)
      requires Valid()
      modifies this
      ensures Valid()
      ensures status == Ok <==> promotion in old(gates) && old(gates)[promotion].state == Running
      ensures status == Ok ==> gates == old(gates)[promotion := old(gates)[promotion].(state := Finished)]
      ensures status != Ok ==> gates == old(gates)
    {
      status := Advance(promotion, Running, Finished);
    }

    method TryAcquire(promotion: string, user: string) returns (status: Status, code: AdmissionCode, admitted: nat)
      requires Valid()
      modifies this
      ensures Valid()
      ensures status == if user == "" then InvalidArgument else if promotion !in old(gates) then NotFound else Ok
      ensures status == Ok ==>
                var g := old(gates)[promotion];
                && (code == Accepted <==> g.state == Running && user !in g.users && |g.users| < g.quota)
                && (code == Exhausted <==> g.state == Running && user !in g.users && |g.users| == g.quota)
                && (code == Duplicate <==> g.state == Running && user in g.users)
                && (code == NotStarted <==> g.state == Created || g.state == Preheating)
                && (code == GateFinished <==> g.state == Finished)
      ensures status == Ok ==>
                var g := old(gates)[promotion];
                var users := if code == Accepted then g.users + {user} else g.users;
                gates == old(gates)[promotion := g.(users := users, admitted := |users|)] && admitted == |users| <= g.quota
      ensures status == Ok ==>
                code == Decide(old(gates)[promotion], user) && gates[promotion] == Acquire(old(gates)[promotion], user)
      ensures status != Ok ==> gates == old(gates)
    {
      code, admitted := NotStarted, 0;
      if user == "" { return InvalidArgument, code, admitted; }
      if promotion !in gates { return NotFound, code, admitted; }
      status := Ok;
      var gate := gates[promotion];
      AcquireIsSound(gate, user);
      admitted := gate.admitted;
      if gate.state == Created || gate.state == Preheating {
        code := NotStarted;
      } else if gate.state == Finished {
        code := GateFinished;
      } else if user in gate.users {
        code := Duplicate;
      } else if gate.admitted >= gate.quota {
        code := Exhausted;
      } else {
        gates := gates[promotion := gate.(users := gate.users + {user}, admitted := gate.admitted + 1)];
        admitted := gate.admitted + 1;
        code := Accepted;
      }
    }

    method RollbackUser(promotion: string, user: string) returns (status: Status)
      requires Valid()
      modifies this
      ensures Valid()
      ensures status == if user == "" then InvalidArgument else if promotion !in old(gates) then NotFound else Ok
      ensures status == Ok ==>
                var g := old(gates)[promotion];
                var users := g.users - {user};
                gates == old(gates)[promotion := g.(users := users, admitted := |users|)]
                && gates[promotion] == Rollback(g, user)
      ensures status != Ok ==> gates == old(gates)
    {
      if user == "" { return InvalidArgument; }
      if promotion !in gates { return NotFound; }
      var gate := gates[promotion];
      RollbackIsSound(gate, user);
      gates := gates[promotion := Rollback(gate, user)];
      return Ok;
    }
  }
}
