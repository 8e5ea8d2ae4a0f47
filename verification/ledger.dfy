/** What the reducer reads from outside itself: the ledger's proposal getter,
    its status getter, the script describer, and the two sentinel constants of
    the application's utilities. All of them are parameters of the model. */
module Ledger {
  import opened Wrappers

  /** An account address, as the hex string the ledger returns. */
  type Address = string

  /** One entry of the ledger's `proposals(id)` getter. `end` is the deadline
      in seconds; `stake` and `reward` are token amounts. */
  datatype ProposalRecord = ProposalRecord(
    challenger: Address,
    proposer: Address,
    reward: int,
    script: string,
    stake: int,
    end: int)

  /** One step of a described call script. Optional fields that the describer
      leaves out are `None`. */
  datatype Step = Step(
    to: Address,
    name: Option<string>,
    identifier: Option<string>,
    description: Option<string>)

  /** The environment the reducer runs in.
      - `nullAddress`: the all-zero address the ledger reports for "no challenger";
      - `emptyCallscript`: the call script that performs nothing;
      - `proposals`, `statusOf`: the ledger's getters, by proposal id;
      - `describeScript`: the describer; `None` when it yields no path. */
  datatype Env = Env(
    nullAddress: Address,
    emptyCallscript: string,
    proposals: int -> ProposalRecord,
    statusOf: int -> int,
    describeScript: string -> Option<seq<Step>>)
}
