/** The plans of a server: added, found, asked about, confirmed and taken, each
    under the store's lock (internal/mcpserver/plan.go). */
module PlanStore {
  import opened Options

  /** What a plan was made for: the hosts, how many, the cluster, and what would
      be sent. */
  datatype Terms = Terms(targets: string, count: int, cluster: string, commands: seq<string>)

  /** What changes about a plan: when it expires, the state of the question last
      put and not yet answered, and whether it was taken. */
  datatype Status = Status(expires: int, asked: string, used: bool)

  predicate Expired(p: Status, now: int) {
    now > p.expires
  }

  function AddedAt(p: Status, now: int, ttl: int): Status {
    p.(expires := now + ttl)
  }

  function AskedWith(p: Status, state: string): Status {
    p.(asked := state)
  }

  /** Whether an answer that carries this state is one to the question last put. */
  predicate Answers(p: Status, state: string) {
    p.asked != "" && state == p.asked
  }

  class Plan {
    const id: string
    const terms: Terms
    var expires: int
    var asked: string
    var used: bool

    constructor (id: string, terms: Terms)
      ensures this.id == id && this.terms == terms && Now() == Status(0, "", false)
    {
      this.id, this.terms, expires, asked, used := id, terms, 0, "", false;
    }

    function Now(): Status
      reads this
    {
      Status(expires, asked, used)
    }
  }

  function Unexpired(plans: map<string, Plan>, now: int): map<string, Plan>
    reads plans.Values
  {
    map id | id in plans && !Expired(plans[id].Now(), now) :: plans[id]
  }

  class Store {
    const ttl: int
    var plans: map<string, Plan>

    constructor (ttl: int)
      ensures this.ttl == ttl && plans == map[]
    {
      this.ttl := ttl;
      plans := map[];
    }

    /** `prune`. */
    method Prune(now: int)
      modifies `plans
      ensures plans == Unexpired(old(plans), now)
      ensures forall id :: id in plans <==> id in old(plans) && now <= old(plans)[id].expires
      ensures forall id :: id in plans ==> plans[id] == old(plans)[id]
    {
      var left := plans.Keys;
      while left != {}
        invariant left <= old(plans).Keys && plans.Keys <= old(plans).Keys
        invariant forall id :: id in plans ==> plans[id] == old(plans)[id]
        invariant forall id :: id in old(plans) && id in left ==> id in plans
        invariant forall id :: id in old(plans) && id !in left ==>
                                 (id in plans <==> !Expired(old(plans)[id].Now(), now))
        decreases |left|
      {
        var id :| id in left;
        left := left - {id};
        var p := plans[id];
        if now > p.expires {
          plans := plans - {id};
        }
      }
    }

    /** `add`. */
    method Add(p: Plan, now: int)
      modifies this, p
      ensures p.Now() == AddedAt(old(p.Now()), now, ttl)
      ensures plans == old(Unexpired(plans, now))[p.id := p]
      ensures p.expires == now + ttl && p.asked == old(p.asked) && p.used == old(p.used)
      ensures forall id :: id in plans <==> id == p.id || (id in old(plans) && now <= old(plans[id].expires))
      ensures forall id :: id in plans && id != p.id ==> plans[id] == old(plans)[id]
    {
      Prune(now);
      p.expires := now + ttl;
      plans := plans[p.id := p];
    }

    /** `get`: a plan that may still be applied. */
    method Get(id: string, now: int) returns (p: Option<Plan>)
      modifies `plans
      ensures plans == Unexpired(old(plans), now)
      ensures p == if id in plans then Some(plans[id]) else None
      ensures p.Some? <==> id in old(plans) && now <= old(plans)[id].expires
      ensures p.Some? ==> p.value == old(plans)[id]
    {
      Prune(now);
      if id in plans {
        return Some(plans[id]);
      }
      return None;
    }

    /** `ask`. */
    method Ask(p: Plan, state: string) returns (asked: string)
      modifies p
      ensures p.Now() == AskedWith(old(p.Now()), state) && asked == state
      ensures p.asked == state && p.expires == old(p.expires) && p.used == old(p.used)
    {
      p.asked := state;
      return p.asked;
    }

    /** `answered`: an answer is good once, and any answer at all forgets the
        question. */
    method Answered(p: Plan, state: string) returns (ok: bool)
      modifies p
      ensures ok == Answers(old(p.Now()), state)
      ensures p.Now() == AskedWith(old(p.Now()), "")
      ensures ok <==> old(p.asked) != "" && state == old(p.asked)
      ensures p.asked == "" && p.expires == old(p.expires) && p.used == old(p.used)
    {
      ok := p.asked != "" && state == p.asked;
      p.asked := "";
    }

    /** `take`: only one caller wins. */
    method Take(p: Plan) returns (ok: bool)
      modifies this, p
      ensures ok == !old(p.used)
      ensures p.Now() == old(p.Now()).(used := true)
      ensures plans == if ok then old(plans) - {p.id} else old(plans)
    {
      if p.used {
        return false;
      }
      p.used := true;
      plans := plans - {p.id};
      return true;
    }
  }
}
