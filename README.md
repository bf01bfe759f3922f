# Draft rooms and team balancing — a Dafny model

This project models three pieces of a League of Legends scrim helper's back
end:

- **The real-time ban/pick draft** (`socket/draft.js`), as module
  `DraftSocket`.
  - A `DraftServer` holds the `rooms` dictionary, the champion catalog and a
    log of every broadcast sent.
  - Each `Room` is a class whose fields the handlers update in place. The
    first join creates it and both sides ready it up. It then walks the
    fixed 20-turn ban/pick order, one turn per manual selection or timeout,
    and afterwards plays a best-of-N series through host-posted match
    results and side choices.
- **The team balancer behind `POST /make-teams`** (`routes/team.js`), as
  module `Team`.
  - It tries every five-player subset of ten players and assigns roles
    greedily inside each team, lowest score first.
  - It keeps the best split, falling back from plan A to the soft search to
    the score-only search.
  - The loops are methods proved against specification functions (`Greedy`,
    `Combos`, `LowestFirst`, `ClosestLast`). The properties the source
    promises are lemmas about those functions.
- **The in-memory room registry behind `/room`** (`routes/draftRoom.js`), as
  module `DraftRoom`. It is a map from room id to stored room, with the POST
  validation (400, 409, 201) and the GET defaults.

The following are parameters of the model:

- The clock (`Date.now()`) is the `now` parameter.
- The champion catalog is the `championIds` sequence.
- The random champion is a nondeterministic choice among those still
  available.
- The floating-point weighting of a split is the integer-valued function
  `finalScore`.

Socket emits are `Event` values. Each room method returns the events it
emits, in order. The server appends them, tagged with the room id, to its
`sent` log.

Behaviour the model keeps as written:

- No room is ever given a `hostId`, so `handleSideChosen` rejects every
  call. `DraftServer.HandleSideChosen` proves that the room is left unchanged
  and nothing is sent.
  `Room.SideChosen` states what an accepted call would do.
- Adding a win to a team that is not in the win table yields NaN
  (`WinCount.NotANumber`). No later comparison accepts NaN.
- With exactly ten players the score-only search always has C(10, 5)
  candidates, so the "team assignment failed" 400 of `/make-teams` cannot be
  reached. `Team.MakeTeams` proves it is never returned.
- Players are told apart by their position in the request, not by object
  identity. Subsets are taken over the positions 0..n-1.

## Model

| member | source | states |
|---|---|---|
| `DraftSocket.BanPickOrder` | socket/draft.js:201-214 | the ban/pick order has 20 turns |
| `DraftSocket.BanPickOrderBalanced` | socket/draft.js:201-214 | the order holds exactly five bans and five picks for each side |
| `DraftSocket.DisplaySeconds` | socket/draft.js:99-102 | the shown seconds are never negative, are 0 exactly when the deadline has passed, and are otherwise the remaining milliseconds rounded up to whole seconds |
| `DraftSocket.NeedWins` | socket/draft.js:157 | the wins needed are ceil(bo/2): at least half of bo and less than half of bo plus one |
| `DraftSocket.Remaining` | socket/draft.js:197 | a champion remains exactly when it is in the catalog and not used |
| `DraftSocket.RandomChampion` | socket/draft.js:196-199 | the choice is none exactly when no champion remains; otherwise it is a catalog champion that is not used |
| `DraftSocket.LoserSideIsLosersColour` | socket/draft.js:167-168 | with the side map current, the side named for the loser is the loser's colour and never the winner's |
| `DraftSocket.Room.constructor` | socket/draft.js:41-59 | a new room has both flags unset, the side map from its teams, both teams at 0 wins, game 1, no result posted, not over, and no hostId |
| `DraftSocket.Room.Ready` | socket/draft.js:65-75 | only the caller's flag is set; the room is broadcast first; the draft starts exactly when both flags are then set; otherwise nothing else changes |
| `DraftSocket.Room.StartDraft` | socket/draft.js:78-92 | the order is the fixed one, the cursor 0, the history empty, the result flag cleared and the deadline 30 s ahead; the start event and a 30-second tick are sent |
| `DraftSocket.Room.Tick` | socket/draft.js:95-104 | before the deadline only the remaining seconds are shown; after it the current turn is resolved by timeout |
| `DraftSocket.Room.HandleTimeout` | socket/draft.js:107-118 | one entry is appended and the cursor moves by one; a ban resolves to no champion; a pick resolves to a catalog champion not in the history, or to none only when none is left |
| `DraftSocket.Room.Select` | socket/draft.js:121-128 | applied exactly when the current turn exists and matches the submitted team and type; then exactly one entry is appended and the cursor moves by one; otherwise nothing changes and nothing is sent |
| `DraftSocket.Room.ApplyPick` | socket/draft.js:131-135 | appends exactly one entry holding the champion, team and type, and announces it |
| `DraftSocket.Room.NextTurn` | socket/draft.js:137-147 | the cursor moves by one, keeping the history as long as the cursor; the draft finishes exactly when the cursor reaches the end of the order; otherwise the deadline is re-armed |
| `DraftSocket.Room.MatchResult` | socket/draft.js:150-175 | accepted exactly with the host key and no result posted; adds one win to the winner; the series is over exactly when the winner has ceil(bo/2) wins; otherwise both flags are cleared and the loser's side is asked to choose |
| `DraftSocket.Room.SideChosen` | socket/draft.js:178-193 | accepted only from the hostId socket; the teams swap colours exactly when the chosen side is not the loser's; the side map follows; the game number rises by one; the wins are untouched |
| `DraftSocket.DraftServer.constructor` | socket/draft.js:5-14 | the server starts with no rooms, the given catalog and nothing sent |
| `DraftSocket.DraftServer.HandleJoin` | socket/draft.js:37-62 | creates a fresh, initial room only when none exists for the id; a later join changes no room; the room is broadcast either way |
| `DraftSocket.DraftServer.HandleReady` | socket/draft.js:65-75 | a missing room sends nothing; otherwise the room's events, and only those, are appended to the broadcasts, and the room does exactly what `Room.Ready` promises (`ReadyOutcome`): only the caller's flag is set, the room is broadcast with the new flags, the draft starts with the fixed order, cursor 0, empty history, deadline 30 s ahead and the result flag cleared once both flags are set, and otherwise nothing else changes or is sent |
| `DraftSocket.DraftServer.HandleSelect` | socket/draft.js:121-128 | a missing room or a mismatched turn leaves the room unchanged and sends nothing; otherwise the room does what `Room.Select` promises (`SelectOutcome`): exactly one entry is appended and announced, the cursor moves by one, and the draft finishes or the deadline is re-armed with a 30-second tick; exactly those events are broadcast |
| `DraftSocket.DraftServer.HandleTick` | socket/draft.js:95-118 | a missing room sends nothing; otherwise the room does what `Room.Tick` promises (`TickOutcome`): before the deadline only the remaining seconds are shown, after it a zero is shown and exactly the resolved timeout entry is appended, announced and followed by the finish or the next tick; exactly those events are broadcast |
| `DraftSocket.DraftServer.HandleMatchResult` | socket/draft.js:150-175 | a missing room, a wrong key or a posted result changes nothing and sends nothing; otherwise the room does what `Room.MatchResult` promises (`MatchResultOutcome`): only the winner's count rises by one, the series is over exactly when it is clinched and the final score is sent, or else both flags are cleared and the loser's side is asked to choose the next game; exactly those events are broadcast |
| `DraftSocket.DraftServer.HandleSideChosen` | socket/draft.js:178-193 | no room has a hostId, so every call is rejected: the room is left entirely unchanged and nothing is sent |
| `DraftRoom.PostedRoomView` | routes/draftRoom.js:41-75 | a room created by POST is answered by GET with every default in place |
| `DraftRoom.Registry.constructor` | routes/draftRoom.js:7 | the registry starts empty |
| `DraftRoom.Registry.CreateRoom` | routes/draftRoom.js:11-18 | only the entry for the id changes; it becomes the stored record, which GET then serves with its defaults |
| `DraftRoom.Registry.DeleteRoom` | routes/draftRoom.js:26-29 | only the id is removed, and GET then answers 404 for it |
| `DraftRoom.Registry.ExpireRoom` | routes/draftRoom.js:32-38 | the scheduled deletion removes the room only if it is still present, and nothing else |
| `DraftRoom.Registry.HandlePost` | routes/draftRoom.js:53-75 | a falsy field gives 400 and a stored id gives 409, neither changing the registry; otherwise 201, exactly the new room is added, and a GET for it answers the given teams, bo and mode, both flags false, no hostId, its creation time, no picks, turn 0 and the default series |
| `Team.Insert` | routes/team.js:11 | inserting a player adds exactly it to the multiset of players |
| `Team.InsertSorted` | routes/team.js:11 | inserting into a score-sorted list keeps it sorted |
| `Team.SortByScore` | routes/team.js:11 | the sorted team is a permutation of the team in ascending score order, a missing score counting as 0 |
| `Team.SortUnassigned` | routes/team.js:11 | sorting does not depend on the roles the players carry |
| `Team.FirstUnused` | routes/team.js:15 | a found role is one of the preferences and not used |
| `Team.FirstUnusedIsFirstFree` | routes/team.js:15 | nothing is found exactly when every preference is used; otherwise the first unused preference is found |
| `Team.GreedyLength` | routes/team.js:13-19 | a successful greedy run hands out one role per player |
| `Team.GreedyChoosesFirstFree` | routes/team.js:13-19 | a successful greedy run gives each player its first preference not taken by an earlier player, and that role is not falsy |
| `Team.GreedyPrefix` | routes/team.js:13-19 | a successful greedy run succeeds on every prefix with the prefix of its roles |
| `Team.GreedyFailsAtBlockedPlayer` | routes/team.js:13-19 | the greedy run fails exactly when some player, after the earlier ones are served, has no unused preference or only a falsy one |
| `Team.AssignRoles` | routes/team.js:7-22 | the loop returns exactly the greedy assignment of the team sorted by score, or null |
| `Team.RoleAssignmentKeepsPlayers` | routes/team.js:7-22 | a successful assignment returns the same players, as many as given, in ascending score order |
| `Team.RoleAssignmentGreedy` | routes/team.js:7-22 | a successful assignment gives every player a non-empty role from its own preferences, the first one no earlier player took, and no role twice |
| `Team.RoleAssignmentFails` | routes/team.js:13-16 | assignRoles returns null exactly when some player, in ascending score order, is blocked |
| `Team.RoleAssignmentKeepsScore` | routes/team.js:7-22 | assigning roles keeps the players and the team score |
| `Team.RecordedIsCombos` | routes/team.js:26-34 | one recursive call appends exactly the completions of its partial combination from its start on, in order |
| `Team.RecordedFromIsCombos` | routes/team.js:31-33 | the loop of one call appends the completions that take each later element, in order |
| `Team.Recur` | routes/team.js:26-34 | the recursion appends to the results exactly what one call records |
| `Team.GetCombinations` | routes/team.js:24-37 | the result is every r-element subsequence of the input, in the order of the recursion |
| `Team.CombosShape` | routes/team.js:24-37 | from increasing positions, every combination is k increasing positions taken from them |
| `Team.CombosComplete` | routes/team.js:24-37 | every choice of k increasing positions is one of the combinations |
| `Team.CombosInLexOrder` | routes/team.js:24-37 | the combinations come in strictly increasing lexicographic order |
| `Team.CombosDistinct` | routes/team.js:24-37 | no combination is listed twice |
| `Team.CombosCount` | routes/team.js:24-37 | there are C(n, k) combinations |
| `Team.Candidates` | routes/team.js:136 | every candidate teamA is five increasing positions among the players |
| `Team.CandidatesCount` | routes/team.js:136 | there are C(n, 5) candidates |
| `Team.CandidatesNonEmpty` | routes/team.js:136 | five or more players give at least one candidate |
| `Team.CandidatesCoverEachTeamOnce` | routes/team.js:136 | every five-player team is a candidate, and no candidate is listed twice |
| `Team.TeamOf` | routes/team.js:138 | teamA has one player per chosen position |
| `Team.SplitPartitions` | routes/team.js:139 | teamA and teamB together hold every player exactly once, and teamB has the players teamA lacks |
| `Team.SplitPartitionsPlayers` | routes/team.js:139 | the split's two teams partition the players, whatever roles they carry |
| `Team.TeamScoreAppend` | routes/team.js:39-41 | the score of two teams put together is the sum of their scores |
| `Team.TeamScorePermutation` | routes/team.js:39-41 | a team's score does not depend on the order of its players |
| `Team.SplitScoresAddUp` | routes/team.js:154-156 | the two teams of a split score, between them, what all the players score |
| `Team.SubAndMainRolesCoverTeam` | routes/team.js:43-49 | every player is counted by exactly one of the sub-role and main-role counters |
| `Team.MainRoleCount` | routes/team.js:131 | a role's main-role count is positive exactly when some player has it as main role |
| `Team.CountsCover` | routes/team.js:132 | the count table says every role is covered exactly when every role is somebody's main role |
| `Team.HasSufficientRoles` | routes/team.js:129-133 | true exactly when each of the five roles is the main role of at least one player |
| `Team.LowestFirstNone` | routes/team.js:135-147 | assignTeams finds nothing exactly when no candidate lets both teams be role-assigned |
| `Team.LowestFirstIsFirstMinimum` | routes/team.js:135-147 | otherwise it returns a candidate's evaluation that no candidate beats, with every earlier candidate strictly worse, so ties go to the first |
| `Team.AssignTeams` | routes/team.js:135-147 | the loop returns exactly that first lowest-finalScore evaluation |
| `Team.AssignTeamsWithSoftRoles` | routes/team.js:177-194 | the soft search returns exactly what assignTeams returns, marked as a fallback |
| `Team.ClosestLastSome` | routes/team.js:149-175 | the score search finds a split exactly when there is a candidate |
| `Team.ClosestLastIsLastMinimum` | routes/team.js:149-175 | the score search returns a record whose score difference no candidate beats, with every later candidate strictly worse, so ties go to the last |
| `Team.AssignTeamsByScore` | routes/team.js:149-175 | the loop returns exactly that last smallest-difference record |
| `Team.EvaluationPartitions` | routes/team.js:75-127 | an evaluated split partitions the players, is not a fallback, its team scores add up to the total and its sub- and main-role counts to ten |
| `Team.ScoreRecordPartitions` | routes/team.js:153-171 | a score-only record partitions the players and its team scores add up to the total |
| `Team.PlanAPartitions` | routes/team.js:135-147 | plan A's split, when there is one, partitions the players and is not a fallback |
| `Team.ByScorePartitions` | routes/team.js:149-175 | for ten players the score search always finds a split; it partitions the players and is marked as a fallback |
| `Team.MakeTeams` | routes/team.js:196-225 | anything but ten players is refused; plan A is tried when every role is covered, then the soft search, then the score search; every answer partitions the players; the assignment-failed 400 never occurs |

## Left out

- Socket.io plumbing is not modelled. This covers joining socket rooms, `socket.data`, and the `connection`, `disconnect` and `user-leave` handlers that only relay a notice.
- Timers are modelled only through the state step each firing triggers. This covers `setTimeout` and the tick chains, several of which can be outstanding at once. `DraftServer.HandleTick` is one firing. The room registry's one-hour timer is `Registry.ExpireRoom`, called by whoever fires it.
- The champion catalog `fetch` is the constructor's `championIds`; a failed fetch is the empty catalog.
- `Math.random` is a nondeterministic choice.
- `DraftSocket.Room.Tick`: requires that a passed deadline leaves a turn to resolve. The source dereferences a missing turn there and throws; the model does not describe that crash.
- `DraftSocket.DraftServer.HandleSelect`: requires that the draft has started. The source dereferences the unassigned order before that and throws.
- `DraftSocket.DraftServer.HandleTick`: requires the same two conditions as `Room.Tick`.
- `Team.EvaluateTeamSplit` has no row of its own: the floating-point weighting it performs is the opaque integer `finalScore`. The model does not cover `getRoleMatchupDiff`, `getTeamVariance`, `getTierPenaltyMultiplier`, `Math.pow`, `Math.floor`, `toFixed`, or the fields those produce (`roleMatchupDiff`, `variance`, `mainRoleBonusScore`, `scoreBreakdown`).
- `Team.SortByScore`: the ascending order and the permutation are proved. That ties keep their input order, as the source's stable sort does, holds by construction and is not stated as a lemma.
- `DraftRoom.Registry.GetRoom`: the registry is a plain JavaScript object, so in the source an inherited property name (such as `constructor` or `toString`) also reads as a stored room. The model looks up own entries only.
- `DraftRoom.Registry.HandleGet`: for an inherited property name the source answers 200 with the defaults filled in; the model answers 404.
- `DraftRoom.Registry.HandlePost`: for an inherited property name as `roomId` the source answers 409; the model answers 201 and stores the room.
- `DraftSocket.DraftServer.HandleJoin`: stores `bo` as the client sent it (socket/draft.js:48). For a value that is not a number, the wins needed (half of `bo`, rounded up) are NaN (socket/draft.js:157), no win count reaches it and the series never ends (socket/draft.js:158); the model's `bo` is an integer and cannot express that case.
- `DraftSocket.Room.View`: before the first `startDraft` the source's room object has no `order`, `turnIndex`, `history` or `timer` keys, so the `room-status` broadcasts of socket/draft.js:61 and :73 omit them; the model's view carries `[]`, `0`, `[]` and `0` there.
- `DraftSocket.DraftServer.HandleJoin`: for an inherited property name as `roomId` the source creates no room, and a later ready then fails; the model creates the room. The `rooms` dictionary is modelled as a map of own entries only.
- `Team.HasSufficientRoles`: the count table has only the five role keys. A player whose main role names an inherited property of a plain object (such as `constructor`) does not raise a count, in the model or in the source.
- `Team.GetCombinations`: modelled on sequences of positions. The source is generic, but it is only ever called on the ten players, whose identity the model takes to be their position.
- `Team.TeamOf`: its own contract states only the team's size. What teamA and teamB hold together is `Team.SplitPartitions`.
- Player objects are identified by their position in the request. Two players that are equal JSON values but distinct objects are therefore still distinct, as in the source.
- `Team.MakeTeams`: a request body is either a list of players or `Body.NotAList`. Malformed player objects inside an array are not modelled.
- `/make-teams` logs through `console.log`; the model does not, since logging changes no state.
