# Online voting: a Dafny model of the ballot, the submissions and the results

This project models the core of a Django online-voting site and proves properties of the model.
An administrator creates elections with positions and candidates and registers voters by SIN.
Voters fill in a ballot and submit it, either through the SIN-based web form or through the
JSON API of a signed-in voter account. The administrator then reads the results report.

The model covers:

- **Tables** (`Models`). The five tables of voting/models.py are sequences of rows in key order,
  held in a `Db` value.
  - The mutable `class Store` holds the same tables as fields, and the views' methods update them
    in place.
  - `Valid` states the constraints: key and (sin, election) and (name, election) uniqueness,
    foreign keys, and vote rows that name a candidate of their own position.
  - The cascade deletes follow the foreign keys.
- **Results** (`Tally`).
  - `find_n_winners` is a loop over an array that removes the first maximum each round.
  - The single-winner rule of the report.
  - The per-position tally loops.
- **Administration** (`Admin`). Moving a position up or down, resetting an election's votes,
  adding a voter and adding a position.
- **Ballot** (`Ballot`). `generate_ballot` sorts an election's positions by priority (a stable
  sort), renumbers them 1..N as it goes, and gives each candidate a checkbox or a radio input
  under a form key.
- **Recording** (`Recording`). Saving vote rows, marking a voter, and the deletes both
  submissions use to clean up.
- **Web ballot** (`WebVoting`). `submit_ballot` and `preview_vote` of voting/views.py.
- **JSON ballot** (`ApiVoting`). `submit_ballot_api_view`, which rolls back the rows it created
  when it refuses a payload, and `preview_vote_api_view`.
- **Access** (`Access`). The middleware's pass-or-redirect decision.

Every view that changes tables is a `method` on a `Store`. Its `ensures` ties the new tables and
the reply to a function of the old tables, such as `WebSubmit` or `ApiSubmit`. The lemmas state
what the system promises about those functions. Every loop of the source is a loop here, with
its invariants. Three things are function parameters rather than definitions:

- Django's `slugify`.
- The coercion of a string key to an integer: `string -> Option<int>`, where `None` means the
  coercion raises.
- The paths `reverse` returns.

The two submission views treat a refused ballot differently. The JSON view deletes the rows the
attempt created whenever it stops (voting/api_views.py:190-191, 208, 238 and 263-264). The web view
stops at an over-full position or an unknown candidate without deleting anything
(voting/views.py:298-335). It deletes rows in one case only: the voter's row count does not match
(voting/views.py:337-339). So a refused web ballot can leave rows behind and a refused JSON ballot
cannot. That the web view should roll back too is a design intent the code does not follow. The
model follows the code: `WebVoting.RecordOutcome` states that such a stop keeps every row saved
before it, and `ApiVoting.ApiRecordOutcome` states the JSON view's rollback.

## Model

| member | source | states |
|---|---|---|
| Models.FindElection | voting/views.py:265-269 | the election found has the key asked for; none is found only when no election has it |
| Models.VoterBySin | voting/views.py:272 | the voter found is registered under that SIN and election; none is found only when nobody is |
| Models.FindCandidate | voting/views.py:306-307 | a candidate is found only under the position asked for, and none is found only when no candidate of that position has the key |
| Models.SchemaAllows | voting/models.py:33-56 | tables meeting every constraint can hold two identical selections of one voter, a `max_vote` below 1 and priorities that are not 1..N |
| Models.DeleteVoter | voting/models.py:54 | deleting a voter removes it and exactly its vote rows; the other tables and the key counters are as they were |
| Models.DeleteCandidate | voting/models.py:56 | deleting a candidate removes it and exactly its vote rows |
| Models.DeletePosition | voting/models.py:47-56 | deleting a position removes it, its candidates, and the vote rows of the position or of those candidates |
| Models.DeleteElection | voting/models.py:17-56 | deleting an election removes its voters and positions, and every candidate and vote row that then names a missing row |
| Models.DeleteVoterValid | voting/models.py:54 | a voter's cascade keeps every table constraint |
| Models.DeleteCandidateValid | voting/models.py:56 | a candidate's cascade keeps every table constraint |
| Models.DeletePositionValid | voting/models.py:47-56 | a position's cascade keeps every table constraint |
| Models.DeleteElectionValid | voting/models.py:17-56 | an election's cascade keeps every table constraint |
| Tally.FirstMaxIsMax | administrator/views.py:400 | `max` picks an entry with the largest count, and every earlier entry has strictly fewer votes (ties go to the first) |
| Tally.FindNWinners | administrator/views.py:393-404 | the loop over a copy of the array returns `TopN` of the input, and the array is not modified |
| Tally.TopNLength | administrator/views.py:396-399 | the result has min(n, number of candidates) entries, and none when n <= 0 |
| Tally.TopNSaturates | administrator/views.py:398-399 | rounds after the candidates run out add nothing |
| Tally.TopNPartition | administrator/views.py:400-403 | the winners and the entries left over together are the input, as a multiset |
| Tally.TopNFromInput | administrator/views.py:400-403 | each entry is picked at most as often as it occurs, and only entries of the input are picked |
| Tally.TopNSorted | administrator/views.py:400-403 | winners come in non-increasing vote order |
| Tally.TopNBest | administrator/views.py:400-403 | every winner has at least as many votes as every entry left over |
| Tally.TopNTies | administrator/views.py:400-403 | among entries with equal counts, the winners are a prefix of them in input order |
| Tally.Decide | administrator/views.py:447-461 | no candidates exactly when the tally is empty; ranked exactly when `max_vote` > 1, with `TopN` even when every count is 0; "no one voted" exactly for a single-vote position whose counts are all 0 |
| Tally.SingleWinner | administrator/views.py:453-461 | with top count v > 0, k > 1 entries at v give the tie message for k and v, and a single entry at v is the winner |
| Tally.SoleIsUnique | administrator/views.py:457-461 | a declared winner has the top count, and is the only entry with it |
| Tally.TallyPosition | administrator/views.py:438-445 | one entry per candidate of the position, in order, with its full name and its number of vote rows |
| Tally.Results | administrator/views.py:432-464 | no election selected gives no positions; otherwise one result per position of the election, with its tally and the winner rule applied to it |
| Admin.UpdateBallotPosition | administrator/views.py:471-506 | the new positions and the JSON reply are `Move` of the old positions; no other table changes |
| Admin.MoveGuards | administrator/views.py:476-495 | an unknown key gives the not-found message and no error flag; otherwise the error flag is set exactly at the top (up from 1) or the bottom (down past the election's count), and then nothing changes |
| Admin.MoveIsSwap | administrator/views.py:479-501 | only priorities change and only in the position's election; a move sets the position to the adjacent priority and gives the positions there the old priority |
| Admin.MoveKeepsDense | administrator/views.py:479-501 | a move keeps any election's 1..N priorities 1..N |
| Admin.MoveValid | administrator/views.py:479-501 | a move keeps every table constraint |
| Admin.ResetVote | administrator/views.py:343-351 | without a selected election nothing changes; otherwise the tables become `ResetVotes` of the election |
| Admin.DeleteElectionVotes | administrator/views.py:348 | exactly the vote rows whose position lies outside the election survive; no other table changes |
| Admin.ClearElectionVoters | administrator/views.py:349 | the election's voters get `voted` false; no other table changes |
| Admin.ResetVotesEffect | administrator/views.py:348-349 | a vote row survives exactly when its position is not in the election; the election's voters are unmarked and every other row is unchanged |
| Admin.ResetClearsTally | administrator/views.py:348 | after a reset, every candidate of the election has no votes |
| Admin.ResetValid | administrator/views.py:348-349 | a reset keeps every table constraint |
| Admin.AddVoterView | administrator/views.py:82-93 | the new tables and the reply are `AddVoter` of the old tables |
| Admin.AddVoterOutcome | administrator/views.py:72-93 | a voter is created exactly for a POST with a selected election, a non-empty SIN not yet registered in it, and an existing election; it is not voted; any other outcome writes nothing |
| Admin.AddVoterValid | administrator/views.py:82-93 | adding a voter keeps every table constraint |
| Admin.AddPositionView | administrator/views.py:158-166 | the new tables and the reply are `AddPosition` of the old tables |
| Admin.AddPositionAppends | administrator/views.py:147-166 | a position is created exactly for a valid POST form whose name is new in the selected, existing election; it takes priority count+1; otherwise nothing is written |
| Admin.AddPositionKeepsDense | administrator/views.py:162 | adding a position keeps any election's 1..N priorities 1..N |
| Admin.AddPositionValid | administrator/views.py:158-163 | adding a position keeps every table constraint |
| Recording.SavedRowsOfVoter | voting/views.py:308-312 | after saving, the voter's rows are its old rows followed by the new ones; other voters' rows are unchanged |
| Recording.RollbackRestores | voting/api_views.py:191 | deleting the rows one call created gives back the votes table it started from |
| Recording.SavedValid | voting/views.py:306-312 | saving picks of existing positions and their own candidates keeps every table constraint |
| Recording.KeepRows | voting/api_views.py:191 | the rows a delete leaves are exactly the filtered table, in order |
| Recording.DeleteCreatedRows | voting/api_views.py:191 | exactly the rows of the voter with a key this call allocated are deleted |
| Recording.DeleteVoterRows | voting/views.py:337-339 | exactly the voter's rows are deleted |
| Ballot.SortByPriority | voting/views.py:22 | the sorted positions are the election's positions, no more and no fewer |
| Ballot.SortOrdered | voting/views.py:22 | the positions come in non-decreasing priority order |
| Ballot.SortMultiset | voting/views.py:22 | sorting is a permutation |
| Ballot.RenumberedRank | voting/views.py:79-81 | the position at place t of the order gets priority t+1 and keeps every other field |
| Ballot.GenerateBallot | voting/views.py:21-83 | the new tables and the sections are `GenerateBallotSpec` of the old tables |
| Ballot.RenderPositions | voting/views.py:24-81 | the loop over the positions in order: when the first position has no candidates it stops with nothing saved; otherwise every position is saved with its rank and gets its section |
| Ballot.RenumberedDense | voting/views.py:79-81 | renumbering by an order that lists each of the election's positions once gives them exactly the priorities 1..N |
| Ballot.SectionInputs | voting/views.py:29-41 | one input per candidate of the position, in order; checkboxes under slug+"[]" when `max_vote` > 1, and a radio under the slug otherwise |
| Ballot.BallotRanks | voting/views.py:79-81 | only positions change; positions of other elections are untouched; each position of the election gets its rank in priority order |
| Ballot.BallotDense | voting/views.py:79-81 | after rendering, the election's priorities are exactly 1..N |
| Ballot.BallotKeepsOrder | voting/views.py:22-81 | a position that came before another in priority still does |
| Ballot.BallotFailsEarly | voting/views.py:31-64 | rendering fails exactly when the first position in order has no candidates (`instruction` unbound), and then nothing is renumbered; otherwise there is one section per position, in order |
| WebVoting.BallotInputAccepted | voting/views.py:293-331 | a ballot input sent back alone under its key, with its candidate's key as value, is taken by the submission as that candidate |
| WebVoting.SubmitBallot | voting/views.py:235-348 | the new tables and the redirect are `WebSubmit` of the old tables |
| WebVoting.RecordSelections | voting/views.py:286-335 | the loop saves the rows of `WebScan` and stops where it does; on a full run `form_count` is the number of rows |
| WebVoting.WebRefusesEarly | voting/views.py:236-269 | a non-POST, a missing SIN or election key, an unknown election and a key that does not coerce write nothing |
| WebVoting.CastOutcomes | voting/views.py:272-348 | once the election is found, none of the early refusals can occur |
| WebVoting.WebMissingSin | voting/views.py:248-254 | "enter your SIN" exactly for a POST without a SIN, redirecting to the ballot when an election key is present and to the index otherwise |
| WebVoting.WebInvalidElection | voting/views.py:265-269 | "Invalid Election" exactly when SIN and key are present, the key coerces, and no election has it |
| WebVoting.WebReachesCast | voting/views.py:245-272 | a request that passes the early checks goes on with its SIN, its election and the form minus the reserved keys |
| WebVoting.WebAlreadyVoted | voting/views.py:272-280 | "You have voted already" exactly when the (sin, election) voter exists and has voted; then nothing is written |
| WebVoting.WebVoterCreatedFirst | voting/views.py:272-284 | every refusal after the voter lookup leaves an unvoted voter for (sin, election); "select at least one" exactly when that voter has not voted and the form has no other key |
| WebVoting.RecordOutcome | voting/views.py:298-345 | a stop keeps every row saved so far (no rollback); thanks exactly on a full run for a voter without earlier rows, with the voter marked; "try again" exactly when it had rows, and then all its rows are gone and it stays unvoted |
| WebVoting.WebScanPicks | voting/views.py:303-331 | every saved row names a position of the election and a candidate of that position |
| WebVoting.WebSubmitValid | voting/views.py:235-348 | a submission keeps every table constraint |
| WebVoting.PreviewVote | voting/views.py:154-232 | without writing anything, the preview is `WebPreview` of the tables |
| WebVoting.PreviewAgrees | voting/views.py:176-227 | run over the same positions and the same form, the preview's error flag is set exactly when the submission's loop stops, and otherwise its blocks stand for exactly the rows the loop saves |
| WebVoting.WebPreviewMatchesSubmit | voting/views.py:154-348 | for a request that names an existing election, a voter who has not voted, some selections, and no position whose key is a popped key: the preview flags an error exactly when the submission stops with "too many" or an unknown candidate; otherwise the submission thanks the voter and saves exactly the rows the preview lists, or asks them to try again |
| ApiVoting.Items | voting/api_views.py:185-198 | a list is walked by element and a string by character; `len` of a number raises |
| ApiVoting.ApiLookup | voting/api_views.py:199-200 | a found candidate belongs to the position asked for; the lookup raises exactly for a string that does not coerce |
| ApiVoting.ApiLookups | voting/api_views.py:198-212 | the candidates found are those of the values in order, up to the first value that finds none, and the stop says whether that value was unknown or raised |
| ApiVoting.ApiSingleUsesFirst | voting/api_views.py:215-226 | a single-vote position is skipped when its value is missing or falsy, and a list counts as its first element alone |
| ApiVoting.SubmitBallotApi | voting/api_views.py:145-268 | the new tables and the reply are `ApiSubmit` of the old tables |
| ApiVoting.ApiRecordSelections | voting/api_views.py:172-242 | the loop creates the rows of `ApiScan` and stops where it does; `form_count` is the number of rows created |
| ApiVoting.ApiScanPicks | voting/api_views.py:199-232 | every created row names a position and a candidate of that position |
| ApiVoting.ApiRefusesEarly | voting/api_views.py:148-170 | 403 exactly for a non-voter account, a crash exactly when no voter row is linked, "already voted" and "select at least one" exactly in their cases; none of them writes |
| ApiVoting.ApiRecordOutcome | voting/api_views.py:189-268 | an over-full position, an unknown candidate or an exception deletes exactly the rows this call created, so the votes table is as before; it gives the matching reply; success exactly on a full run for a voter without earlier rows; otherwise all the voter's rows are deleted |
| ApiVoting.ApiLeavesNoStrayRows | voting/api_views.py:189-268 | every reply but success leaves only rows the table had before |
| ApiVoting.ApiVotesOnce | voting/api_views.py:158-162 | once a submission succeeds, every later one is refused with "already voted" and writes nothing |
| ApiVoting.ApiSubmitValid | voting/api_views.py:145-268 | a submission keeps every table constraint |
| ApiVoting.PreviewVoteApi | voting/api_views.py:43-142 | without writing anything, the preview is `ApiPreviewOf` of the tables |
| ApiVoting.ApiPreviewAgrees | voting/api_views.py:61-132 | the preview breaks where the submission stops, for the same reason, and otherwise its blocks stand for exactly the rows the submission creates |
| ApiVoting.ApiPreviewMatchesSubmit | voting/api_views.py:43-268 | for a voter who may submit, the preview lists exactly when the submission reaches its count check, the rows a success creates are those the list shows, and each refusal of the preview is the submission's |
| Access.AdminRule | account/middleware.py:12-21 | an administrator is redirected, with the message, exactly for the voting views other than the ballot fetch and the index |
| Access.OtherAccountsPass | account/middleware.py:22-24 | every other signed-in account passes |
| Access.VoterRule | account/middleware.py:26-30 | a voter session without an account is redirected to its dashboard exactly for the administrator's views |
| Access.GuestRule | account/middleware.py:32-37 | a guest passes exactly for the two login paths, the authentication views and the voting views, and is otherwise sent to the voter login without a message |
| Access.AccountBeforeSession | account/middleware.py:12-26 | for a signed-in account the session's `voter_id` changes nothing |
| Access.NoRedirectLoop | account/middleware.py:6-37 | the page a redirect leads to passes for the same requester, when served by a module that requester may use |

## Left out

- HTML and PDF output. The ballot is modelled as sections of inputs (candidate, widget, key). The
  previews are blocks of (position, candidates). The report is its tally and verdict per position.
- Message texts, and the string `find_n_winners` joins. These are the constructors of the reply
  datatypes. `FindNWinners` returns the entries, not the formatted text.
- WebVoting.PreviewAgrees: holds for one form and one list of positions. The two web views read
  different ones, so the lemma alone does not compare the views end to end. The preview drops only
  the CSRF token and never checks that the election exists (voting/views.py:160-178). The
  submission drops four keys and refuses an unknown election (voting/views.py:241-269). A position
  whose slug is one of those four keys is therefore read by the preview and not by the submission.
  Outside these cases, `WebVoting.WebPreviewMatchesSubmit` compares the two views end to end. It
  also leaves out a voter who has already voted and an empty selection.
- The web preview's `response` variable. It holds an error text and is never sent, so it is not
  modelled.
- Django's ORM, sessions and authentication. Tables are in-memory sequences in key order. A
  queryset without `order_by` is read in key order, and `order_by('priority')` is a stable sort
  that keeps key order among equal priorities (SQL leaves that order open).
- `slugify`, the integer coercion of keys, and `reverse`. These are parameters.
- Vote-row keys. Each call takes keys from a sequence that a rollback does not rewind, as a
  database sequence behaves.
- JSON booleans, numbers that are not integers, and nested objects inside `votes`. Only integers,
  strings, `null` and lists of them are modelled.
- A `votes` value that is not an object. A falsy one (`[]`, `""`, `0`, `null`) is refused like an
  empty object. A truthy one (`[3]`, `"x"`, `5`) passes that check, and the first
  `votes_data.get(...)` raises. In the submission the call is inside the `try`
  (voting/api_views.py:176-262), so the reply is the 500 error after the rollback. In the preview
  nothing catches it (voting/api_views.py:74, 107), so the request crashes. The model's payload is
  always an object, so it does not capture these two replies.
- `request.user.voter`. voting/models.py gives `Voter` no link to an account, so the link is an
  input (`User.voter`), and a missing link is the uncaught error it raises.
- The text of the 500 reply for an exception. It quotes the exception's message.
- The OTP and SMS views, the dashboard charts, the login and registration views, the
  serializers, the URL tables and the ad-hoc scripts. They lie outside this model.
- Concurrent requests. The model handles one request at a time.
- The flash messages other than the middleware's. Only their presence in the reply is modelled.
- Position forms. The form module is not part of this model, so the form's validity check is the
  input `PositionForm.valid`.
