/** The access list of the message broker and the sequence of requests that brings one controller's
    entry up to date. Every request may be the last one that gets through. */
module ControllerBroker {
  import opened Options

  /** A broker account; a password is known by the revision of the credential it belongs to. */
  datatype Client = Client(enabled: bool, password: nat)

  datatype Broker = Broker(clients: map<nat, Client>, roles: set<nat>)

  datatype Request = Look | CreateRole | CreateClient(password: nat) | Disable | SetPassword(password: nat) | Enable

  /** One request about the account and role of `uid`. */
  function Do(b: Broker, uid: nat, r: Request): Broker
  {
    match r
    case Look => b
    case CreateRole => b.(roles := b.roles + {uid})
    case CreateClient(password) => b.(clients := b.clients[uid := Client(true, password)])
    case Disable => if uid in b.clients then b.(clients := b.clients[uid := b.clients[uid].(enabled := false)]) else b
    case SetPassword(password) =>
      if uid in b.clients then b.(clients := b.clients[uid := b.clients[uid].(password := password)]) else b
    case Enable => if uid in b.clients then b.(clients := b.clients[uid := b.clients[uid].(enabled := true)]) else b
  }

  function Execute(b: Broker, uid: nat, requests: seq<Request>): Broker
  {
    if requests == [] then b else Do(Execute(b, uid, requests[..|requests| - 1]), uid, requests[|requests| - 1])
  }

  /** The requests `apply` makes, seen from the state it starts in. */
  function Plan(b: Broker, uid: nat, password: nat, revoked: bool): seq<Request>
  {
    if revoked then (if uid in b.clients then [Look, Disable] else [Look])
    else
      (if uid in b.roles then [Look, Look] else [Look, Look, CreateRole])
      + if uid in b.clients then [Disable, SetPassword(password), Enable] else [CreateClient(password)]
  }

  /** How many of `n` requests take effect if `budget` of them are answered; the answer to the
      next one may be all that is lost. */
  function Effective(budget: nat, lost: bool, n: nat): (k: nat)
    ensures k <= n
  {
    if n <= budget then n else if lost then budget + 1 else budget
  }

  /** The outcome of `apply`: the broker afterwards, and whether everything was confirmed. */
  function Applied(b: Broker, uid: nat, password: nat, revoked: bool, budget: nat, lost: bool): (Broker, bool)
  {
    var plan := Plan(b, uid, password, revoked);
    (Execute(b, uid, plan[..Effective(budget, lost, |plan|)]), |plan| <= budget)
  }

  /** The answers that come are answers to requests that took effect; the one that is lost may belong to
      one more. */
  lemma LostAnswerMayHaveActed(budget: nat, n: nat)
    ensures n <= budget ==> Effective(budget, true, n) == Effective(budget, false, n) == n
    ensures budget < n ==> Effective(budget, true, n) == budget + 1 && Effective(budget, false, n) == budget
  {
  }

  /** What the broker should say about an account. */
  predicate Settled(b: Broker, uid: nat, password: nat, revoked: bool)
  {
    if revoked then uid in b.clients ==> !b.clients[uid].enabled
    else uid in b.clients && b.clients[uid] == Client(true, password) && uid in b.roles
  }

  lemma {:induction false} ExecuteAppend(b: Broker, uid: nat, one: seq<Request>, other: seq<Request>)
    ensures Execute(b, uid, one + other) == Execute(Execute(b, uid, one), uid, other)
  {
    if other == [] {
      assert one + other == one;
    } else {
      var n := |other| - 1;
      ExecuteAppend(b, uid, one, other[..n]);
      assert (one + other)[..|one + other| - 1] == one + other[..n];
    }
  }

  lemma ExecuteOne(b: Broker, uid: nat, r: Request)
    ensures Execute(b, uid, [r]) == Do(b, uid, r)
  {
    assert [r][..0] == [];
    assert Execute(b, uid, [r][..0]) == b;
  }

  /** One by one. */
  lemma ExecuteNext(b: Broker, uid: nat, requests: seq<Request>, k: nat)
    requires k < |requests|
    ensures Execute(b, uid, requests[..k + 1]) == Do(Execute(b, uid, requests[..k]), uid, requests[k])
  {
    assert requests[..k + 1][..k] == requests[..k];
  }

  /** Nobody else's account or role is touched. */
  lemma {:induction false} OthersUntouched(b: Broker, uid: nat, requests: seq<Request>, other: nat)
    requires other != uid
    ensures
      var c := Execute(b, uid, requests);
      (other in c.clients <==> other in b.clients) && (other in b.clients ==> c.clients[other] == b.clients[other])
      && (other in c.roles <==> other in b.roles)
  {
    if requests != [] {
      OthersUntouched(b, uid, requests[..|requests| - 1], other);
    }
  }

  /** The account after the first `k` requests of the plan. */
  function AccountAfter(b: Broker, uid: nat, password: nat, revoked: bool, k: nat): Option<Client>
  {
    var setup := if uid in b.roles then 2 else 3;
    if uid !in b.clients then (if !revoked && k > setup then Some(Client(true, password)) else None)
    else
      var c := b.clients[uid];
      if revoked then Some(if k > 1 then c.(enabled := false) else c)
      else if k <= setup then Some(c)
      else if k == setup + 1 then Some(c.(enabled := false))
      else Some(Client(k > setup + 2, password))
  }

  function AccountOf(b: Broker, uid: nat): Option<Client> { if uid in b.clients then Some(b.clients[uid]) else None }

  lemma {:induction false} PrefixAccount(b: Broker, uid: nat, password: nat, revoked: bool, k: nat)
    requires k <= |Plan(b, uid, password, revoked)|
    ensures
      var c := Execute(b, uid, Plan(b, uid, password, revoked)[..k]);
      && AccountOf(c, uid) == AccountAfter(b, uid, password, revoked, k)
      && (uid in c.roles <==> uid in b.roles || (!revoked && k >= 3))
  {
    if k > 0 {
      PrefixAccount(b, uid, password, revoked, k - 1);
      ExecuteNext(b, uid, Plan(b, uid, password, revoked), k - 1);
    } else {
      assert Plan(b, uid, password, revoked)[..0] == [];
    }
  }

  /** However `apply` is cut short, the account is as it was, or off, or on with the new password
      only: once the disabling request took effect the old password never opens it again. */
  lemma OldPasswordStaysOff(b: Broker, uid: nat, password: nat, revoked: bool, k: nat, l: nat)
    requires k <= l <= |Plan(b, uid, password, revoked)|
    ensures
      var plan := Plan(b, uid, password, revoked);
      var mid, end := AccountOf(Execute(b, uid, plan[..k]), uid), AccountOf(Execute(b, uid, plan[..l]), uid);
      && (end == AccountOf(b, uid) || (end.Some? && (!end.value.enabled || end.value.password == password)))
      && (mid.Some? && !mid.value.enabled
        ==> end.Some? && (!end.value.enabled || (!revoked && end.value.password == password)))
  {
    PrefixAccount(b, uid, password, revoked, k);
    PrefixAccount(b, uid, password, revoked, l);
  }

  /** From any state an interrupted attempt may have left, a full attempt settles the account. */
  lemma FullApplySettles(b: Broker, uid: nat, password: nat, revoked: bool, budget: nat, lost: bool)
    requires Applied(b, uid, password, revoked, budget, lost).1
    ensures Settled(Applied(b, uid, password, revoked, budget, lost).0, uid, password, revoked)
    ensures
      var c := Applied(b, uid, password, revoked, budget, lost).0;
      && (revoked && uid in c.clients ==> !c.clients[uid].enabled)
      && (!revoked ==> uid in c.clients && uid in c.roles)
      && (!revoked ==> c.clients[uid].enabled && c.clients[uid].password == password)
  {
    var plan := Plan(b, uid, password, revoked);
    PrefixAccount(b, uid, password, revoked, |plan|);
  }

  /** Interrupted any number of times with any intents, and then applied in full. */
  datatype Attempt = Attempt(password: nat, revoked: bool, budget: nat, lost: bool)

  function Attempts(b: Broker, uid: nat, attempts: seq<Attempt>): Broker
  {
    if attempts == [] then b
    else
      var a := attempts[|attempts| - 1];
      Applied(Attempts(b, uid, attempts[..|attempts| - 1]), uid, a.password, a.revoked, a.budget, a.lost).0
  }

  lemma RetriesConverge(b: Broker, uid: nat, attempts: seq<Attempt>, password: nat, revoked: bool)
    ensures
      var left := Attempts(b, uid, attempts);
      && Applied(left, uid, password, revoked, 6, false).1
      && Settled(Applied(left, uid, password, revoked, 6, false).0, uid, password, revoked)
  {
    FullApplySettles(Attempts(b, uid, attempts), uid, password, revoked, 6, false);
  }

  // ---------------------------------------------------------------- the connection

  /** The broker as it is reached through a connection that survives `budget` more requests. */
  class ControllerBroker {
    var clients: map<nat, Client>
    var roles: set<nat>
    var budget: nat
    var lost: bool

    constructor (b: Broker, budget: nat, lost: bool)
      ensures State() == b && this.budget == budget && this.lost == lost
    {
      clients, roles := b.clients, b.roles;
      this.budget, this.lost := budget, lost;
    }

    function State(): Broker
      reads this`clients, this`roles
    {
      Broker(clients, roles)
    }

    /** One request; without an answer it may still have taken effect, and nothing follows it. */
    method Ask(uid: nat, r: Request) returns (answered: bool)
      modifies this
      ensures answered == (old(budget) > 0)
      ensures State() == if answered || old(lost) then Do(old(State()), uid, r) else old(State())
      ensures budget == (if answered then old(budget) - 1 else 0) && lost == (answered && old(lost))
    {
      answered := budget > 0;
      if answered || lost {
        match r
        case Look =>
        case CreateRole => roles := roles + {uid};
        case CreateClient(password) => clients := clients[uid := Client(true, password)];
        case Disable => if uid in clients { clients := clients[uid := clients[uid].(enabled := false)]; }
        case SetPassword(password) =>
          if uid in clients { clients := clients[uid := clients[uid].(password := password)]; }
        case Enable => if uid in clients { clients := clients[uid := clients[uid].(enabled := true)]; }
      }
      lost := answered && lost;
      budget := if answered then budget - 1 else 0;
    }

    /** The state in which the first `k` requests of a plan have been answered. */
    ghost predicate Reached(b: Broker, uid: nat, plan: seq<Request>, k: nat, budget: nat, lost: bool)
      reads this
    {
      k <= |plan| && k <= budget && State() == Execute(b, uid, plan[..k]) && this.budget == budget - k
        && this.lost == lost
    }

    /** The next request of the plan. */
    method Follow(ghost b: Broker, uid: nat, ghost plan: seq<Request>, ghost k: nat, r: Request)
      returns (answered: bool)
      requires k < |plan| && plan[k] == r && Reached(b, uid, plan, k, k + budget, lost)
      modifies this
      ensures answered == (old(budget) > 0)
      ensures answered ==> budget == old(budget) - 1 && lost == old(lost)
      ensures answered ==> Reached(b, uid, plan, k + 1, k + old(budget), lost)
      ensures !answered ==> State() == Execute(b, uid, plan[..Effective(k + old(budget), old(lost), |plan|)])
    {
      ExecuteNext(b, uid, plan, k);
      answered := Ask(uid, r);
    }

    lemma StartsHere(b: Broker, uid: nat, plan: seq<Request>)
      requires State() == b
      ensures Reached(b, uid, plan, 0, budget, lost)
    {
      assert plan[..0] == [];
    }

    lemma RolesAreKnown(b: Broker, uid: nat, plan: seq<Request>, budget: nat)
      requires |plan| >= 2 && plan[0] == plan[1] == Look && Reached(b, uid, plan, 2, budget, lost)
      ensures State() == b
    {
      ExecuteNext(b, uid, plan, 0);
      ExecuteNext(b, uid, plan, 1);
      assert plan[..0] == [];
    }

    lemma Finished(b: Broker, uid: nat, plan: seq<Request>, budget: nat)
      requires Reached(b, uid, plan, |plan|, budget, lost)
      ensures |plan| <= budget && State() == Execute(b, uid, plan[..|plan|])
    {
    }

    method Apply(uid: nat, password: nat, revoked: bool) returns (confirmed: bool)
      modifies this
      ensures (State(), confirmed) == Applied(old(State()), uid, password, revoked, old(budget), old(lost))
    {
      hide Execute, Do, Reached;
      ghost var b, plan := State(), Plan(State(), uid, password, revoked);
      var known := uid in clients;
      StartsHere(b, uid, plan);
      var ok := Follow(b, uid, plan, 0, Look);
      if !ok { return false; }
      if revoked {
        if known {
          ok := Follow(b, uid, plan, 1, Disable);
          if !ok { return false; }
        }
        Finished(b, uid, plan, old(budget));
        return true;
      }
      ok := Follow(b, uid, plan, 1, Look);
      if !ok { return false; }
      RolesAreKnown(b, uid, plan, old(budget));
      ghost var k := 2;
      if uid !in roles {
        ok := Follow(b, uid, plan, k, CreateRole);
        if !ok { return false; }
        k := k + 1;
      }
      if !known {
        ok := Follow(b, uid, plan, k, CreateClient(password));
        if !ok { return false; }
      } else {
        ok := Follow(b, uid, plan, k, Disable);
        if !ok { return false; }
        ok := Follow(b, uid, plan, k + 1, SetPassword(password));
        if !ok { return false; }
        ok := Follow(b, uid, plan, k + 2, Enable);
        if !ok { return false; }
      }
      Finished(b, uid, plan, old(budget));
      return true;
    }
  }
}
