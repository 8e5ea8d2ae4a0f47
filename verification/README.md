# Challenge app: proposal store reducer

A Dafny model of the state reducer of an Aragon "challenge" app. The app keeps a
list of governance proposals in sync with a ledger. Each ledger event (`Propose`,
`Challenge`, `Support`, `End`, plus a `DEBUG` event) reaches a reducer. The
reducer re-reads the affected proposal from the ledger (`marshalProposal`) and
puts it into the list. `Propose` puts it at the front. The other three replace
the entry with the same id (`replace`). A proposal's call script is rendered as
text (`parseDescription`). Status codes and parameter ids are names in two fixed
tables.

The ledger is not part of the model. Its proposal getter, its status getter and
the script describer are function-valued parameters, bundled in `Ledger.Env`. So
are the two sentinels of the app's utilities: the null address and the empty
call script.

Modules:
- `Wrappers`: `Option` (JavaScript's `undefined`/`null`) and `Result` (a thrown error).
- `Seqs`: `Distinct` and `IndexOf`.
- `Constants`: the status and parameter tables and their inverse lookups.
- `Ledger`: ledger record, script step, and the `Env` of oracles.
- `Description`: rendering call scripts, with `Join`/`Split` on newlines.
- `Proposals`: the proposal record and `Marshal`.
- `Repository`: `FindIndex`, the JavaScript `splice` used, `Replace`, `Lookup`.
- `Store`: events, the reducer `Apply`, and `Replay` over a log.

## Model

| member | source | states |
|---|---|---|
| Store.Apply | app/src/script.js:10-42 | Start-up fields never change. `Propose` puts the fresh record in front of the list (a missing list counts as empty), so the length grows by one. `Challenge`/`Support`/`End` fail exactly when there is no list. Otherwise, if the id is present, the length stays, the first index with the id holds the fresh record, and every other position is unchanged. If the id is absent, the fresh record overwrites the last proposal, or becomes the only one in an empty list. `DEBUG` and unknown names give the state back. |
| Store.ProposalsOrEmpty | app/src/script.js:17 | A missing list reads as empty. A present list, even an empty one, is used as it is. |
| Store.Classify | app/src/script.js:14-37 | Each of the five known names gives its own event, in both directions. Every other name gives the catch-all event, which carries that name. |
| Store.RefreshIdempotent | app/src/script.js:19-29 | Handling a challenge, support or end event twice against the same ledger gives the same state as handling it once. |
| Store.ApplyShowsLedger | app/src/script.js:15-29 | After a `Propose`, `Challenge`, `Support` or `End` event succeeds, looking up its id finds the record just read from the ledger. |
| Store.RefreshBeforeProposeThrows | app/src/script.js:21 | A challenge, support or end event on a state with no proposal list throws. |
| Store.ProposeChallengeEnd | app/src/script.js:15-29 | Start-up state, then propose, challenge and end id 1, each against its own ledger: one proposal remains, as last read; its status is `REJECT_ENDED` when the last status code is 6; start-up fields are kept. |
| Store.ReplayAppend | app/src/script.js:10-42 | Replaying a log in two parts gives the same result as replaying it whole, and a thrown error stops the run. |
| Store.ReplayKeepsFields | app/src/script.js:17-36 | A successful replay of any log leaves the start-up fields as they were. |
| Store.ApplyIdsFrom | app/src/script.js:15-29 | One event adds no id except the one it carries. |
| Store.ReplayIdsFromLog | app/src/script.js:10-42 | After a replay, every proposal id was held at the start or carried by some event. |
| Store.ApplyKeepsInSync | app/src/script.js:19-29 | When every held proposal equals the ledger's record for its id and the ledger does not change, one event keeps that true. |
| Store.ReplayKeepsInSync | app/src/script.js:10-42 | The same holds for any log. |
| Proposals.Marshal | app/src/script.js:60-76 | The record has the requested id. Its status is the table name of the ledger's code, and is absent exactly when the code is outside 0..6. Its end in ms divided by 1000 gives the ledger's seconds, with no remainder. Its challenger is absent exactly when the ledger reports the null address, and is that address otherwise. Proposer, stake, reward and script pass through. The description is that of the script. |
| Proposals.NormaliseChallenger | app/src/script.js:70 | The result is absent if and only if the address is the null address. A present result is the address itself. |
| Proposals.ToMillis | app/src/script.js:68 | A millisecond value with no remainder modulo 1000, whose quotient by 1000 is the seconds given. |
| Proposals.MarshalReadsOnlyItsId | app/src/script.js:60-64 | Two ledgers that agree on this id's entry, status and script description give the same record. |
| Repository.FindIndex | app/src/script.js:79 | The result is -1 exactly when no proposal has the id. Otherwise it is an index holding the id with no earlier index holding it. |
| Repository.SpliceOne | app/src/script.js:80 | A start inside the list overwrites that one position. A start of -1 overwrites the last element of a non-empty list. On an empty list the item is inserted. |
| Repository.Replace | app/src/script.js:78-82 | If the id is present, the first index holding it gets the item and all other positions stay, so the length stays. If the id is absent, the last proposal is overwritten. An empty list becomes the item alone. |
| Repository.ReplaceFirstOnly | app/src/script.js:79 | A later proposal with the same id is left untouched. |
| Repository.LookupAfterReplace | app/src/script.js:78-82 | Looking up the item's id after replacing finds the item, whether the id was present or not. |
| Repository.ReplaceKeepsIds | app/src/script.js:78-82 | With the id present, the ids by position are unchanged, and lookups of every other id give the same result. |
| Repository.ReplaceIdempotent | app/src/script.js:78-82 | Replacing with the same item twice gives the same list as replacing once. |
| Repository.ReplaceElements | app/src/script.js:78-82 | Every proposal in the replaced list is the item or was already in the list. |
| Seqs.IndexOf | app/src/script.js:79 | Absent exactly when the element does not occur. Otherwise an index holding it, with no earlier index holding it. |
| Description.Describe | app/src/script.js:84-104 | The empty script and the no-op script render as "". So does a script the describer gives no path or an empty path for. |
| Description.DescribeLines | app/src/script.js:92-101 | For a non-empty path whose rendered lines have no newline, splitting the description on newlines gives one rendered line per step, in order. |
| Description.SplitJoin | app/src/script.js:100 | Joining newline-free pieces with a separator and splitting again gives the pieces back. |
| Description.RenderStep | app/src/script.js:94-98 | A line is the app label, then ": ", then the step text, and nothing else. |
| Description.NamedStepLabel | app/src/script.js:95-98 | A named step is labelled by its name, followed by " (identifier)" exactly when it has a non-empty identifier. A step with a non-empty description shows that description. |
| Description.RenderAll | app/src/script.js:94 | One rendered line per step, in the steps' order. |
| Description.Join | app/src/script.js:100 | No pieces join to "" and one piece joins to itself. Otherwise the text starts with the first piece, followed by the separator when more pieces follow. |
| Description.IdentifierNeedsName | app/src/script.js:95-96 | A step without a name is labelled by its address. Its identifier does not affect the line. |
| Description.NameHidesAddress | app/src/script.js:96 | A step with a name renders the same whatever its address. |
| Description.MissingDescriptionFallback | app/src/script.js:98 | A step with no description, or an empty one, ends in "No description". |
| Description.DescribeTwoSteps | app/src/script.js:92-101 | A step addressed by target and a step addressed by app name render as "0xA: mint\nVault: transfer". |
| Constants.StatusName | app/src/constants.js:8 | Defined exactly for codes 0..6, and always a table entry. |
| Constants.StatusCode | app/src/constants.js:8 | Defined exactly for the table's names, and then below 7. |
| Constants.StatusTable | app/src/constants.js:1-8 | Seven entries, in the order NONE, PROPOSED, CHALLENGED, ACCEPTED, REJECTED, ACCEPT_ENDED, REJECT_ENDED, pairwise distinct. |
| Constants.StatusNameRoundTrip | app/src/constants.js:8 | For a code in 0..6, the name's code is that code. |
| Constants.StatusCodeRoundTrip | app/src/constants.js:8 | For a name in the table, the code's name is that name. |
| Constants.StatusNameInjective | app/src/constants.js:1-8 | Two codes with the same name are equal. |
| Constants.ParameterName | app/src/constants.js:9 | Defined exactly for ids 1..6. Id 0 (`null`) and ids outside the table have no name. |
| Constants.ParameterId | app/src/constants.js:9 | Defined exactly for the table's names, and then in 1..6. |
| Constants.ParameterTable | app/src/constants.js:9 | Seven entries: none at index 0, then proposalStake, proposalReward, challengeFee, challengeTime, supportTime and proposalDelay at 1..6, pairwise distinct. |
| Constants.ParameterNameRoundTrip | app/src/constants.js:9 | For an id in 1..6, the name's id is that id. |
| Constants.ParameterIdRoundTrip | app/src/constants.js:9 | For a name in the table, the id's name is that name. |
| Constants.ParameterNameInjective | app/src/constants.js:9 | Two ids with the same name are equal. |

## Behaviour worth knowing

- `replace` with an id not in the list overwrites the last proposal, or inserts into an empty list (app/src/script.js:79-80; see `Repository.Replace`).
- No event changes the governance parameters. The reducer never reads the `parameters` table (app/src/constants.js:9), and any other event name leaves the state unchanged (app/src/script.js:35-36).
- Events for a proposal in a final state re-read the ledger like any other event (app/src/script.js:19-29).
- The description is recomputed from the freshly read script on every challenge, support or end event (app/src/script.js:64).
- Proposal ids are not kept unique: `Propose` prepends without checking (app/src/script.js:17).

## Left out

- The start-up `init` block (app/src/script.js:44-56): it only makes remote reads. Its results are the opaque `State.fields`, string-valued as the ledger returns them.
- Async/await, promises, `console.log` and the transport. Ledger reads and the describer are pure functions in `Ledger.Env`.
- `NULL_ADDRESS` and `EMPTY_CALLSCRIPT` come from a utilities module that is not part of this model. They are the fields `Env.nullAddress` and `Env.emptyCallscript`.
- `replace` mutates the previous state's array in place, and the new state shares it. The model returns a new sequence and does not model the aliasing.
- `parseInt` of the event id and of the ledger's `end`: both are integers already in the model. A `NaN` id is not modelled.
- `new Date(...)`: the end is the integer millisecond count. The range beyond which JavaScript gives an invalid date is not modelled.
- `stake` and `reward` arrive as strings and pass through unchanged. The model keeps them as integers.
- A step whose `to` is undefined (rendered as "undefined") and step fields of non-string type are not modelled.
- What the surrounding store framework does after the reducer throws. `Store.Replay` stops at the first error.
- `Store.Replay` reads every event against one ledger. `Store.Apply` takes a ledger per event.
- Status-transition order, the challenger being set only once, and unique ids are properties of the ledger. The reducer neither checks nor maintains them.
- Description.Describe: for a non-empty path, the contract pins the text only through `Description.DescribeLines`. That lemma needs rendered lines free of newlines, because a newline inside a step makes the joined text ambiguous.
- The user interface (app/src/App.js) and its decimal display of amounts.
