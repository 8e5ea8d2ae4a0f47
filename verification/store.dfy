/** The application's event reducer: one ledger event and the current state
    give the next state. */
module Store {
  import opened Wrappers
  import opened Ledger
  import opened Constants
  import opened Proposals
  import opened Repository

  /** The application state. `proposals` is absent until the first `Propose`
      event; `fields` holds the settings read once at start-up (token manager,
      stake, reward, fee, periods, dates, count), which the reducer never reads. */
  datatype State = State(proposals: Option<seq<Proposal>>, fields: map<string, string>)

  /** A ledger event, by its name. `id` is the event's proposal id. */
  datatype Event =
    | Propose(id: int)
    | Challenge(id: int)
    | Support(id: int)
    | End(id: int)
    | Debug
    | Unrecognised(name: string)

  /** Replacing into a state that has no proposal list reads `findIndex` of
      `undefined`, which throws. */
  datatype Error = ProposalsMissing

  /** The event names the reducer has an arm for. */
  const KnownNames: set<string> := {"Propose", "Challenge", "Support", "End", "DEBUG"}

  /** The switch on the event name. */
  function Classify(name: string, id: int): (e: Event)
    ensures name == "Propose" <==> e == Propose(id)
    ensures name == "Challenge" <==> e == Challenge(id)
    ensures name == "Support" <==> e == Support(id)
    ensures name == "End" <==> e == End(id)
    ensures name == "DEBUG" <==> e == Debug
    ensures e.Unrecognised? <==> name !in KnownNames
    ensures e.Unrecognised? ==> e.name == name
  {
    if name == "Propose" then Propose(id)
    else if name == "Challenge" then Challenge(id)
    else if name == "Support" then Support(id)
    else if name == "End" then End(id)
    else if name == "DEBUG" then Debug
    else Unrecognised(name)
  }

  /** The events that re-read a proposal and replace it by id. */
  predicate Refreshes(e: Event) {
    e.Challenge? || e.Support? || e.End?
  }

  /** `state.proposals || []`. */
  function ProposalsOrEmpty(s: State): (r: seq<Proposal>)
    ensures s.proposals.None? ==> r == []
    ensures s.proposals.Some? ==> r == s.proposals.value
  {
    s.proposals.GetOr([])
  }

  /** The next state after one event, read against the ledger as it is when the
      event is handled. */
  function Apply(env: Env, s: State, e: Event): (r: Result<State, Error>)
    ensures r.Success? ==> r.value.fields == s.fields
    ensures e.Propose? ==> r.Success? && r.value.proposals.Some?
    ensures e.Propose? ==>
      r.value.proposals.value == [Marshal(env, e.id)] + ProposalsOrEmpty(s) &&
      |r.value.proposals.value| == |ProposalsOrEmpty(s)| + 1
    ensures Refreshes(e) ==> (r.Failure? <==> s.proposals.None?)
    ensures Refreshes(e) && s.proposals.Some? && FindIndex(s.proposals.value, e.id) >= 0 ==>
      var before := s.proposals.value;
      var i := FindIndex(before, e.id);
      r.Success? && r.value.proposals.Some? &&
      |r.value.proposals.value| == |before| &&
      r.value.proposals.value[i] == Marshal(env, e.id) &&
      forall j :: 0 <= j < |before| && j != i ==> r.value.proposals.value[j] == before[j]
    ensures Refreshes(e) && s.proposals.Some? && FindIndex(s.proposals.value, e.id) == -1 ==>
      var before := s.proposals.value;
      r.Success? && r.value.proposals.Some? &&
      r.value.proposals.value ==
        (if |before| == 0 then [Marshal(env, e.id)] else before[..|before| - 1] + [Marshal(env, e.id)])
    ensures e.Debug? || e.Unrecognised? ==> r == Success(s)
  {
    match e
    case Propose(id) =>
      Success(s.(proposals := Some([Marshal(env, id)] + ProposalsOrEmpty(s))))
    case Challenge(_) | Support(_) | End(_) =>
      if s.proposals.None? then Failure(ProposalsMissing)
      else Success(s.(proposals := Some(Replace(s.proposals.value, Marshal(env, e.id)))))
    case Debug => Success(s)
    case Unrecognised(_) => Success(s)
  }

  /** The state after a sequence of events, read against one ledger; the first
      event that throws stops the run. */
  function Replay(env: Env, s: State, events: seq<Event>): (r: Result<State, Error>)
    decreases |events|
  {
    if |events| == 0 then Success(s)
    else
      match Apply(env, s, events[0])
      case Failure(err) => Failure(err)
      case Success(s1) => Replay(env, s1, events[1..])
  }

  /** Handling a challenge, support or end event a second time, against the same
      ledger, changes nothing. */
  lemma RefreshIdempotent(env: Env, s: State, e: Event, s1: State)
    requires Refreshes(e)
    requires Apply(env, s, e) == Success(s1)
    ensures Apply(env, s1, e) == Success(s1)
  {
    ReplaceIdempotent(s.proposals.value, Marshal(env, e.id));
  }

  /** After any event that succeeds, a lookup of its id finds the record just read. */
  lemma ApplyShowsLedger(env: Env, s: State, e: Event, s1: State)
    requires e.Propose? || Refreshes(e)
    requires Apply(env, s, e) == Success(s1)
    ensures s1.proposals.Some?
    ensures Lookup(s1.proposals.value, e.id) == Some(Marshal(env, e.id))
  {
    if Refreshes(e) {
      LookupAfterReplace(s.proposals.value, Marshal(env, e.id));
    }
  }

  /** Replaying a log in two parts is replaying it whole. */
  lemma {:induction false} ReplayAppend(env: Env, s: State, a: seq<Event>, b: seq<Event>)
    ensures Replay(env, s, a + b) ==
      match Replay(env, s, a)
      case Failure(err) => Failure(err)
      case Success(t) => Replay(env, t, b)
    decreases |a|
  {
    if |a| == 0 {
      assert a + b == b;
    } else {
      assert (a + b)[0] == a[0];
      assert (a + b)[1..] == a[1..] + b;
      match Apply(env, s, a[0])
      case Failure(_) =>
      case Success(s1) => ReplayAppend(env, s1, a[1..], b);
    }
  }

  /** No sequence of events changes the start-up fields. */
  lemma {:induction false} ReplayKeepsFields(env: Env, s: State, events: seq<Event>, t: State)
    requires Replay(env, s, events) == Success(t)
    ensures t.fields == s.fields
    decreases |events|
  {
    if |events| > 0 {
      var s1 := Apply(env, s, events[0]).value;
      ReplayKeepsFields(env, s1, events[1..], t);
    }
  }

  /** The ids a state holds. */
  function HeldIds(s: State): (r: set<int>)
    ensures forall p :: p in ProposalsOrEmpty(s) ==> p.id in r
  {
    set p | p in ProposalsOrEmpty(s) :: p.id
  }

  /** The ids a sequence of events carries. */
  function EventIds(events: seq<Event>): (r: set<int>)
    ensures forall i :: 0 <= i < |events| && (events[i].Propose? || Refreshes(events[i])) ==> events[i].id in r
  {
    set i | 0 <= i < |events| && (events[i].Propose? || Refreshes(events[i])) :: events[i].id
  }

  /** Every proposal a replay leaves behind has an id that was already held or
      that some event carried: the reducer invents no proposals. */
  lemma {:induction false} ReplayIdsFromLog(env: Env, s: State, events: seq<Event>, t: State)
    requires Replay(env, s, events) == Success(t)
    ensures HeldIds(t) <= HeldIds(s) + EventIds(events)
    decreases |events|
  {
    if |events| > 0 {
      var e := events[0];
      var s1 := Apply(env, s, e).value;
      ApplyIdsFrom(env, s, e, s1);
      ReplayIdsFromLog(env, s1, events[1..], t);
      forall x | x in EventIds(events[1..]) ensures x in EventIds(events) {
        var i :| 0 <= i < |events[1..]| && (events[1..][i].Propose? || Refreshes(events[1..][i])) && events[1..][i].id == x;
        assert events[i + 1] == events[1..][i];
      }
      if e.Propose? || Refreshes(e) {
        assert e.id in EventIds(events);
      }
    }
  }

  /** One event adds at most its own id. */
  lemma ApplyIdsFrom(env: Env, s: State, e: Event, s1: State)
    requires Apply(env, s, e) == Success(s1)
    ensures HeldIds(s1) <= HeldIds(s) + (if e.Propose? || Refreshes(e) then {e.id} else {})
  {
    if Refreshes(e) {
      forall p | p in s1.proposals.value ensures p.id in HeldIds(s) + {e.id} {
        ReplaceElements(s.proposals.value, Marshal(env, e.id), p);
      }
    }
  }

  /** Every held proposal is exactly what the ledger reports for its id. */
  ghost predicate InSync(env: Env, s: State) {
    forall p :: p in ProposalsOrEmpty(s) ==> p == Marshal(env, p.id)
  }

  /** Against a ledger that does not change, one event keeps a state in step
      with the ledger. */
  lemma ApplyKeepsInSync(env: Env, s: State, e: Event, s1: State)
    requires InSync(env, s)
    requires Apply(env, s, e) == Success(s1)
    ensures InSync(env, s1)
  {
    if Refreshes(e) {
      forall p | p in s1.proposals.value ensures p == Marshal(env, p.id) {
        ReplaceElements(s.proposals.value, Marshal(env, e.id), p);
      }
    }
  }

  /** Against a ledger that does not change, a state in step with the ledger
      stays in step with it whatever events arrive. */
  lemma {:induction false} ReplayKeepsInSync(env: Env, s: State, events: seq<Event>, t: State)
    requires InSync(env, s)
    requires Replay(env, s, events) == Success(t)
    ensures InSync(env, t)
    decreases |events|
  {
    if |events| > 0 {
      var s1 := Apply(env, s, events[0]).value;
      ApplyKeepsInSync(env, s, events[0], s1);
      ReplayKeepsInSync(env, s1, events[1..], t);
    }
  }

  /** A proposal's life from start-up: proposed, challenged, ended. Each event is
      handled against the ledger as it then stands; the state ends with exactly
      one proposal, as last read, and the start-up fields untouched. */
  lemma ProposeChallengeEnd(fields: map<string, string>, env1: Env, env2: Env, env3: Env)
    requires env3.statusOf(1) == 6
    ensures Apply(env1, State(None, fields), Propose(1)).Success?
    ensures Apply(env2, Apply(env1, State(None, fields), Propose(1)).value, Challenge(1)).Success?
    ensures Apply(env3, Apply(env2, Apply(env1, State(None, fields), Propose(1)).value, Challenge(1)).value, End(1))
      == Success(State(Some([Marshal(env3, 1)]), fields))
    ensures Marshal(env3, 1).status == Some(REJECT_ENDED)
  {
    assert ProposalsOrEmpty(State(None, fields)) == [];
    assert [Marshal(env1, 1)] + [] == [Marshal(env1, 1)];
    var s1 := Apply(env1, State(None, fields), Propose(1)).value;
    assert s1 == State(Some([Marshal(env1, 1)]), fields);
    assert FindIndex([Marshal(env1, 1)], 1) == 0;
    assert Replace([Marshal(env1, 1)], Marshal(env2, 1)) == [Marshal(env2, 1)];
    var s2 := Apply(env2, s1, Challenge(1)).value;
    assert s2 == State(Some([Marshal(env2, 1)]), fields);
    assert FindIndex([Marshal(env2, 1)], 1) == 0;
    assert Replace([Marshal(env2, 1)], Marshal(env3, 1)) == [Marshal(env3, 1)];
    StatusTable();
  }

  /** A challenge, support or end event before any proposal has been seen throws. */
  lemma RefreshBeforeProposeThrows(env: Env, fields: map<string, string>, e: Event)
    requires Refreshes(e)
    ensures Apply(env, State(None, fields), e) == Failure(ProposalsMissing)
  {
  }
}
