/** The proposal record the application keeps, and how it is built from the
    ledger (`marshalProposal`). */
module Proposals {
  import opened Wrappers
  import opened Ledger
  import opened Constants
  import opened Description

  /** A proposal as the application state holds it. `status` is the status name
      (`None` for a code outside the table); `end` is the deadline in
      milliseconds; `challenger` is `None` while nobody has challenged. */
  datatype Proposal = Proposal(
    id: int,
    status: Option<string>,
    end: int,
    proposer: Address,
    challenger: Option<Address>,
    stake: int,
    reward: int,
    script: string,
    description: string)

  /** The ledger's null address stands for "no challenger"; any other address is kept. */
  function NormaliseChallenger(env: Env, challenger: Address): (r: Option<Address>)
    ensures r.None? <==> challenger == env.nullAddress
    ensures r.Some? ==> r.value == challenger
  {
    if challenger == env.nullAddress then None else Some(challenger)
  }

  /** A ledger deadline in seconds as a date in milliseconds. */
  function ToMillis(seconds: int): (ms: int)
    ensures ms % 1000 == 0
    ensures ms / 1000 == seconds
  {
    seconds * 1000
  }

  /** The proposal with the given id, read afresh from the ledger. */
  function Marshal(env: Env, id: int): (p: Proposal)
    ensures p.id == id
    ensures p.status == StatusName(env.statusOf(id))
    ensures p.status.Some? <==> 0 <= env.statusOf(id) < 7
    ensures p.end % 1000 == 0 && p.end / 1000 == env.proposals(id).end
    ensures p.challenger.None? <==> env.proposals(id).challenger == env.nullAddress
    ensures p.challenger.Some? ==> p.challenger.value == env.proposals(id).challenger
    ensures p.proposer == env.proposals(id).proposer
    ensures p.stake == env.proposals(id).stake && p.reward == env.proposals(id).reward
    ensures p.script == env.proposals(id).script
    ensures p.description == Describe(env, p.script)
  {
    var record := env.proposals(id);
    Proposal(
      id,
      StatusName(env.statusOf(id)),
      ToMillis(record.end),
      record.proposer,
      NormaliseChallenger(env, record.challenger),
      record.stake,
      record.reward,
      record.script,
      Describe(env, record.script))
  }

  /** Marshalling reads nothing of the ledger but the entry and status at that id. */
  lemma MarshalReadsOnlyItsId(env: Env, env': Env, id: int)
    requires env'.nullAddress == env.nullAddress
    requires env'.emptyCallscript == env.emptyCallscript
    requires env'.proposals(id) == env.proposals(id)
    requires env'.statusOf(id) == env.statusOf(id)
    requires env'.describeScript(env.proposals(id).script) == env.describeScript(env.proposals(id).script)
    ensures Marshal(env', id) == Marshal(env, id)
  {
  }
}
