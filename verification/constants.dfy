/** The fixed lookup tables of the application: proposal statuses by ledger
    code and governance parameters by parameter id. */
module Constants {
  import opened Wrappers
  import opened Seqs

  const NONE: string := "NONE"
  const PROPOSED: string := "PROPOSED"
  const CHALLENGED: string := "CHALLENGED"
  const ACCEPTED: string := "ACCEPTED"
  const REJECTED: string := "REJECTED"
  const ACCEPT_ENDED: string := "ACCEPT_ENDED"
  const REJECT_ENDED: string := "REJECT_ENDED"

  /** Status names indexed by the code the ledger's `statusOf` returns. */
  const Statuses: seq<string> :=
    [NONE, PROPOSED, CHALLENGED, ACCEPTED, REJECTED, ACCEPT_ENDED, REJECT_ENDED]

  /** Parameter names indexed by parameter id; id 0 holds `null`. */
  const Parameters: seq<Option<string>> :=
    [None, Some("proposalStake"), Some("proposalReward"), Some("challengeFee"),
     Some("challengeTime"), Some("supportTime"), Some("proposalDelay")]

  /** `statuses[code]`: an index outside the table reads `undefined`. */
  function StatusName(code: int): (r: Option<string>)
    ensures r.Some? <==> 0 <= code < 7
    ensures r.Some? ==> r.value in Statuses
  {
    if 0 <= code < |Statuses| then Some(Statuses[code]) else None
  }

  /** The code of a status name: the inverse lookup of the table. */
  function StatusCode(name: string): (r: Option<nat>)
    ensures r.Some? <==> name in Statuses
    ensures r.Some? ==> r.value < 7
  {
    IndexOf(Statuses, name)
  }

  /** `parameters[id]`: id 0 reads `null` and ids outside the table read
      `undefined`; both carry no name. */
  function ParameterName(id: int): (r: Option<string>)
    ensures r.Some? <==> 1 <= id <= 6
    ensures r.Some? ==> Some(r.value) in Parameters
  {
    if 0 <= id < |Parameters| then Parameters[id] else None
  }

  /** The id of a parameter name: the inverse lookup of the table. */
  function ParameterId(name: string): (r: Option<nat>)
    ensures r.Some? <==> Some(name) in Parameters
    ensures r.Some? ==> 1 <= r.value <= 6
  {
    IndexOf(Parameters, Some(name))
  }

  /** The status table has seven pairwise distinct entries, in this order. */
  lemma StatusTable()
    ensures |Statuses| == 7
    ensures Statuses == ["NONE", "PROPOSED", "CHALLENGED", "ACCEPTED", "REJECTED",
                         "ACCEPT_ENDED", "REJECT_ENDED"]
    ensures Distinct(Statuses)
  {
  }

  /** The parameter table has seven entries: `null` at 0, then six distinct names. */
  lemma ParameterTable()
    ensures |Parameters| == 7
    ensures Parameters[0] == None
    ensures forall i :: 1 <= i < 7 ==> Parameters[i].Some?
    ensures Parameters[1..] == [Some("proposalStake"), Some("proposalReward"), Some("challengeFee"),
                                Some("challengeTime"), Some("supportTime"), Some("proposalDelay")]
    ensures Distinct(Parameters)
  {
  }

  /** Looking up a code and then its name gives the code back. */
  lemma StatusNameRoundTrip(code: int)
    requires 0 <= code < 7
    ensures StatusName(code).Some?
    ensures StatusCode(StatusName(code).value) == Some(code)
  {
    StatusTable();
    IndexOfDistinct(Statuses, code);
  }

  /** Looking up a name and then its code gives the name back. */
  lemma StatusCodeRoundTrip(name: string)
    requires StatusCode(name).Some?
    ensures StatusName(StatusCode(name).value) == Some(name)
  {
  }

  /** Two codes with the same status name are the same code. */
  lemma StatusNameInjective(c1: int, c2: int)
    requires StatusName(c1).Some?
    requires StatusName(c1) == StatusName(c2)
    ensures c1 == c2
  {
    StatusNameRoundTrip(c1);
    StatusNameRoundTrip(c2);
  }

  /** Looking up an id and then its name gives the id back. */
  lemma ParameterNameRoundTrip(id: int)
    requires 1 <= id <= 6
    ensures ParameterName(id).Some?
    ensures ParameterId(ParameterName(id).value) == Some(id)
  {
    ParameterTable();
    IndexOfDistinct(Parameters, id);
  }

  /** Looking up a name and then its id gives the name back. */
  lemma ParameterIdRoundTrip(name: string)
    requires ParameterId(name).Some?
    ensures ParameterName(ParameterId(name).value) == Some(name)
  {
  }

  /** Two ids with the same parameter name are the same id. */
  lemma ParameterNameInjective(i1: int, i2: int)
    requires ParameterName(i1).Some?
    requires ParameterName(i1) == ParameterName(i2)
    ensures i1 == i2
  {
    ParameterNameRoundTrip(i1);
    ParameterNameRoundTrip(i2);
  }
}
