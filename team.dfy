/**
 * The team balancer behind `POST /make-teams` (routes/team.js): ten players
 * are split into two teams of five by trying every five-player subset,
 * assigning roles greedily inside each team, and keeping the best split.
 *
 * Players are JSON objects, and the source tells teams apart by object
 * identity when it builds teamB; the model identifies a player by its
 * position in the request, so the subsets are taken over the positions
 * 0..n-1 and a team is the players at the chosen positions. The floating
 * point weighting of evaluateTeamSplit is the integer-valued parameter
 * `finalScore`. A JavaScript-falsy role (a missing `mainRole`) is the
 * empty string.
 */
module Team {
  import opened Wrappers

  const Roles: seq<string> := ["TOP", "JUNGLE", "MIDDLE", "BOTTOM", "UTILITY"]

  /** The size of teamA: every search takes the five-player subsets. */
  const TeamSize: nat := 5

  /** The number of players `/make-teams` accepts. */
  const PlayerCount: nat := 10

  const NeedTenPlayers: string := "10명의 플레이어가 필요합니다."
  const AssignmentFailed: string := "팀 배정 실패"
  const WithRoleAssignment: string := "score-only fallback with role assignment"
  const WithoutRoleAssignment: string := "score-only fallback without role assignment"

  /** A player object; `backupRoles` is `[]` when the request leaves it out. */
  datatype Player = Player(mainRole: string, backupRoles: seq<string>, totalScore: Option<int>, assignedRole: Option<string>)

  /** The result of evaluateTeamSplit, without its floating-point breakdown. */
  datatype Evaluation = Evaluation(
    teamA: seq<Player>, teamB: seq<Player>, teamAScore: int, teamBScore: int, scoreDiff: nat,
    subPositionCount: nat, mainRoleCount: nat, finalScore: int, fallbackUsed: bool)

  /** The result of assignTeamsByScore. */
  datatype ScoreSplit = ScoreSplit(
    teamA: seq<Player>, teamB: seq<Player>, teamAScore: int, teamBScore: int, scoreDiff: nat,
    fallbackUsed: bool, fallbackReason: string)

  /** The request body: an array of players, or anything else. */
  datatype Body = PlayerList(players: seq<Player>) | NotAList

  /** The response of `/make-teams`. */
  datatype Response = Balanced(evaluation: Evaluation) | ByScore(split: ScoreSplit) | BadRequest(error: string)

  /** A player's total score; a missing score counts as 0. */
  function Score(p: Player): int {
    p.totalScore.GetOr(0)
  }

  /** The main role followed by the backup roles (none when absent). */
  function Preferences(p: Player): seq<string> {
    [p.mainRole] + p.backupRoles
  }

  function Abs(x: int): nat {
    if x < 0 then -x else x
  }

  function Elems(s: seq<string>): set<string> {
    set x | x in s
  }

  /** The players with any role assignment they carry taken off. */
  function Unassigned(team: seq<Player>): (r: seq<Player>)
    ensures |r| == |team|
    ensures forall i :: 0 <= i < |team| ==> r[i] == team[i].(assignedRole := None)
  {
    seq(|team|, i requires 0 <= i < |team| => team[i].(assignedRole := None))
  }

  /** Two teams hold exactly the given players, each once, whatever roles they were assigned. */
  ghost predicate Partition(teamA: seq<Player>, teamB: seq<Player>, players: seq<Player>) {
    multiset(Unassigned(teamA)) + multiset(Unassigned(teamB)) == multiset(Unassigned(players))
  }

  // ---------------------------------------------------------------------
  // Sorting a copy of the team by ascending score
  // ---------------------------------------------------------------------

  ghost predicate SortedByScore(s: seq<Player>) {
    forall i, j :: 0 <= i < j < |s| ==> Score(s[i]) <= Score(s[j])
  }

  /** Insert `p` before the first player whose score is not below its own. */
  function Insert(p: Player, s: seq<Player>): (r: seq<Player>)
    ensures |r| == |s| + 1
    ensures multiset(r) == multiset(s) + multiset{p}
  {
    if s == [] || Score(p) <= Score(s[0]) then [p] + s
    else
      assert s == [s[0]] + s[1..];
      [s[0]] + Insert(p, s[1..])
  }

  /** Every player of `s` scores at least `bound`. */
  ghost predicate AtLeast(s: seq<Player>, bound: int) {
    forall i :: 0 <= i < |s| ==> bound <= Score(s[i])
  }

  lemma {:induction false} InsertAtLeast(p: Player, s: seq<Player>, bound: int)
    requires AtLeast(s, bound) && bound <= Score(p)
    ensures AtLeast(Insert(p, s), bound)
  {
    if s != [] && Score(p) > Score(s[0]) {
      InsertAtLeast(p, s[1..], bound);
      var r := Insert(p, s);
      assert r == [s[0]] + Insert(p, s[1..]);
      forall i | 0 < i < |r| ensures bound <= Score(r[i]) {
        assert r[i] == Insert(p, s[1..])[i - 1];
      }
    }
  }

  lemma SortedCons(x: Player, s: seq<Player>)
    requires AtLeast(s, Score(x)) && SortedByScore(s)
    ensures SortedByScore([x] + s)
  {
    var r := [x] + s;
    forall i, j | 0 <= i < j < |r| ensures Score(r[i]) <= Score(r[j]) {
      assert r[j] == s[j - 1];
      if i > 0 {
        assert r[i] == s[i - 1];
      }
    }
  }

  lemma {:induction false} InsertSorted(p: Player, s: seq<Player>)
    requires SortedByScore(s)
    ensures SortedByScore(Insert(p, s))
  {
    if s == [] || Score(p) <= Score(s[0]) {
      forall i | 0 <= i < |s| ensures Score(p) <= Score(s[i]) {
        assert Score(s[0]) <= Score(s[i]);
      }
      SortedCons(p, s);
    } else {
      assert AtLeast(s[1..], Score(s[0])) by {
        forall i | 0 <= i < |s[1..]| ensures Score(s[0]) <= Score(s[1..][i]) {
          assert s[1..][i] == s[i + 1];
        }
      }
      assert SortedByScore(s[1..]) by {
        forall i, j | 0 <= i < j < |s[1..]| ensures Score(s[1..][i]) <= Score(s[1..][j]) {
          assert s[1..][i] == s[i + 1] && s[1..][j] == s[j + 1];
        }
      }
      InsertSorted(p, s[1..]);
      InsertAtLeast(p, s[1..], Score(s[0]));
      SortedCons(s[0], Insert(p, s[1..]));
    }
  }

  /**
   * The stable ascending sort by score: each player is inserted ahead of the
   * later players with the same score, as the source's stable sort keeps them.
   */
  function SortByScore(s: seq<Player>): (r: seq<Player>)
    ensures |r| == |s| && multiset(r) == multiset(s)
    ensures SortedByScore(r)
  {
    if s == [] then []
    else
      assert s == [s[0]] + s[1..];
      InsertSorted(s[0], SortByScore(s[1..]));
      Insert(s[0], SortByScore(s[1..]))
  }

  lemma UnassignedAppend(a: seq<Player>, b: seq<Player>)
    ensures Unassigned(a + b) == Unassigned(a) + Unassigned(b)
  {
  }

  lemma {:induction false} InsertUnassigned(p: Player, s: seq<Player>)
    ensures Unassigned(Insert(p, s)) == Insert(p.(assignedRole := None), Unassigned(s))
  {
    var q := p.(assignedRole := None);
    if s == [] || Score(p) <= Score(s[0]) {
      UnassignedAppend([p], s);
      assert Unassigned([p]) == [q];
    } else {
      var u := Unassigned(s);
      assert u[0] == s[0].(assignedRole := None) && Score(u[0]) == Score(s[0]);
      assert u[1..] == Unassigned(s[1..]);
      assert Insert(q, u) == [u[0]] + Insert(q, u[1..]);
      InsertUnassigned(p, s[1..]);
      UnassignedAppend([s[0]], Insert(p, s[1..]));
      assert Unassigned([s[0]]) == [u[0]];
    }
  }

  /** Sorting does not look at assigned roles. */
  lemma {:induction false} SortUnassigned(s: seq<Player>)
    ensures Unassigned(SortByScore(s)) == SortByScore(Unassigned(s))
  {
    if s != [] {
      UnassignedSplit(s);
      SortStep(s);
      SortStep(Unassigned(s));
      SortUnassigned(s[1..]);
      InsertUnassigned(s[0], SortByScore(s[1..]));
    }
  }

  lemma SortStep(s: seq<Player>)
    requires s != []
    ensures SortByScore(s) == Insert(s[0], SortByScore(s[1..]))
  {
  }

  lemma UnassignedSplit(s: seq<Player>)
    requires s != []
    ensures Unassigned(s)[0] == s[0].(assignedRole := None)
    ensures Unassigned(s)[1..] == Unassigned(s[1..])
  {
  }

  // ---------------------------------------------------------------------
  // assignRoles
  // ---------------------------------------------------------------------

  /** The first preference that is not used yet, if any. */
  function FirstUnused(prefs: seq<string>, used: set<string>): (r: Option<string>)
    ensures r.Some? ==> r.value in prefs && r.value !in used
  {
    if prefs == [] then None
    else if prefs[0] !in used then Some(prefs[0])
    else FirstUnused(prefs[1..], used)
  }

  /**
   * `find` yields nothing exactly when every preference is used, and
   * otherwise the unused preference that comes first.
   */
  lemma {:induction false} FirstUnusedIsFirstFree(prefs: seq<string>, used: set<string>)
    ensures FirstUnused(prefs, used).None? <==> forall i :: 0 <= i < |prefs| ==> prefs[i] in used
    ensures FirstUnused(prefs, used).Some? ==>
      exists k :: 0 <= k < |prefs| && prefs[k] == FirstUnused(prefs, used).value &&
                  forall j :: 0 <= j < k ==> prefs[j] in used
  {
    if prefs != [] && prefs[0] in used {
      FirstUnusedIsFirstFree(prefs[1..], used);
      var r := FirstUnused(prefs[1..], used);
      if r.Some? {
        var k :| 0 <= k < |prefs[1..]| && prefs[1..][k] == r.value &&
                 forall j :: 0 <= j < k ==> prefs[1..][j] in used;
        assert prefs[k + 1] == r.value;
      } else {
        forall i | 0 <= i < |prefs| ensures prefs[i] in used {
          if i > 0 {
            assert prefs[i] == prefs[1..][i - 1];
          }
        }
      }
    } else if prefs != [] {
      assert prefs[0] !in used;
    }
  }

  /** assignRoles gives up on a player with no unused preference, or whose first one is falsy. */
  predicate Blocked(p: Player, used: set<string>) {
    match FirstUnused(Preferences(p), used)
    case None => true
    case Some(role) => role == ""
  }

  /**
   * The roles the greedy loop hands out to `ps`, in order, when `used` are
   * taken already; None when some player is blocked.
   */
  function Greedy(ps: seq<Player>, used: set<string>): Option<seq<string>>
    decreases |ps|
  {
    if ps == [] then Some([])
    else match FirstUnused(Preferences(ps[0]), used)
      case None => None
      case Some(role) =>
        if role == "" then None
        else match Greedy(ps[1..], used + {role})
          case None => None
          case Some(rest) => Some([role] + rest)
  }

  /** Each player copied with its assigned role. */
  function Annotate(ps: seq<Player>, roles: seq<string>): (r: seq<Player>)
    requires |roles| == |ps|
    ensures |r| == |ps|
    ensures forall i :: 0 <= i < |ps| ==> r[i] == ps[i].(assignedRole := Some(roles[i]))
  {
    seq(|ps|, i requires 0 <= i < |ps| => ps[i].(assignedRole := Some(roles[i])))
  }

  /** What assignRoles returns for `team`. */
  function RoleAssignment(team: seq<Player>): Option<seq<Player>> {
    var sorted := SortByScore(team);
    match Greedy(sorted, {})
    case None => None
    case Some(roles) => if |roles| == |sorted| then Some(Annotate(sorted, roles)) else None
  }

  function Prepended(roles: seq<string>, rest: Option<seq<string>>): Option<seq<string>> {
    match rest
    case None => None
    case Some(r) => Some(roles + r)
  }

  /** A successful greedy run hands out one role per player. */
  lemma {:induction false} GreedyLength(ps: seq<Player>, used: set<string>)
    requires Greedy(ps, used).Some?
    ensures |Greedy(ps, used).value| == |ps|
  {
    if ps != [] {
      var role := FirstUnused(Preferences(ps[0]), used).value;
      GreedyLength(ps[1..], used + {role});
    }
  }

  /** The greedy run gives the player at `i` its first preference not taken beforehand or by earlier players. */
  lemma {:induction false} GreedyChoiceAt(ps: seq<Player>, used: set<string>, i: nat)
    requires Greedy(ps, used).Some? && i < |ps| && i < |Greedy(ps, used).value|
    ensures var rs := Greedy(ps, used).value;
      FirstUnused(Preferences(ps[i]), used + Elems(rs[..i])) == Some(rs[i]) && rs[i] != ""
    decreases i
  {
    var role := FirstUnused(Preferences(ps[0]), used).value;
    var rest := Greedy(ps[1..], used + {role}).value;
    var rs := Greedy(ps, used).value;
    assert rs == [role] + rest;
    if i == 0 {
      assert rs[..0] == [];
      assert used + Elems(rs[..0]) == used;
    } else {
      GreedyChoiceAt(ps[1..], used + {role}, i - 1);
      assert rs[..i] == [role] + rest[..i - 1];
      assert used + Elems(rs[..i]) == used + {role} + Elems(rest[..i - 1]);
      assert ps[i] == ps[1..][i - 1];
    }
  }

  /**
   * A successful greedy run gives every player, in order, its first
   * preference that is neither taken beforehand nor by an earlier player.
   */
  lemma GreedyChoosesFirstFree(ps: seq<Player>, used: set<string>)
    requires Greedy(ps, used).Some?
    ensures var rs := Greedy(ps, used).value;
      |rs| == |ps| &&
      forall i :: 0 <= i < |ps| ==>
        FirstUnused(Preferences(ps[i]), used + Elems(rs[..i])) == Some(rs[i]) && rs[i] != ""
  {
    GreedyLength(ps, used);
    forall i | 0 <= i < |ps|
      ensures FirstUnused(Preferences(ps[i]), used + Elems(Greedy(ps, used).value[..i])) == Some(Greedy(ps, used).value[i])
      ensures Greedy(ps, used).value[i] != ""
    {
      GreedyChoiceAt(ps, used, i);
    }
  }

  /** A successful greedy run succeeds on every prefix with the prefix of its roles. */
  lemma {:induction false} GreedyPrefix(ps: seq<Player>, used: set<string>, k: nat)
    requires Greedy(ps, used).Some? && k <= |ps|
    ensures |Greedy(ps, used).value| == |ps|
    ensures Greedy(ps[..k], used) == Some(Greedy(ps, used).value[..k])
  {
    GreedyChoosesFirstFree(ps, used);
    if k > 0 {
      var role := FirstUnused(Preferences(ps[0]), used).value;
      var rest := Greedy(ps[1..], used + {role}).value;
      assert Greedy(ps, used).value == [role] + rest;
      GreedyPrefix(ps[1..], used + {role}, k - 1);
      assert ps[..k][0] == ps[0];
      assert ps[..k][1..] == ps[1..][..k - 1];
      assert Greedy(ps[..k], used) == Some([role] + rest[..k - 1]);
      assert ([role] + rest)[..k] == [role] + rest[..k - 1];
    } else {
      assert ps[..0] == [];
    }
  }

  /**
   * Walking `ps` in order from `used`, the players before position `k` are
   * served and the player at `k` finds no preference left (or only a falsy one).
   */
  ghost predicate BlockedAt(ps: seq<Player>, used: set<string>, k: int) {
    0 <= k < |ps| && Greedy(ps[..k], used).Some? &&
    Blocked(ps[k], used + Elems(Greedy(ps[..k], used).value))
  }

  /** In a successful greedy run nobody is blocked. */
  lemma GreedyNotBlocked(ps: seq<Player>, used: set<string>, k: int)
    requires Greedy(ps, used).Some?
    ensures !BlockedAt(ps, used, k)
  {
    if 0 <= k < |ps| {
      GreedyPrefix(ps, used, k);
      GreedyChoosesFirstFree(ps, used);
    }
  }

  /** A failed greedy run has a blocked player. */
  lemma {:induction false} GreedyBlocked(ps: seq<Player>, used: set<string>) returns (k: nat)
    requires Greedy(ps, used).None?
    ensures BlockedAt(ps, used, k)
  {
    assert ps != [];
    assert ps[..0] == [];
    assert used + Elems([]) == used;
    var first := FirstUnused(Preferences(ps[0]), used);
    if first.None? || first.value == "" {
      k := 0;
    } else {
      var role := first.value;
      var j := GreedyBlocked(ps[1..], used + {role});
      var rest := Greedy(ps[1..][..j], used + {role}).value;
      assert ps[..j + 1][0] == ps[0];
      assert ps[..j + 1][1..] == ps[1..][..j];
      assert Greedy(ps[..j + 1], used) == Some([role] + rest);
      assert used + Elems([role] + rest) == used + {role} + Elems(rest);
      assert ps[j + 1] == ps[1..][j];
      k := j + 1;
    }
  }

  /** A greedy run fails exactly when some player is blocked. */
  lemma GreedyFailsAtBlockedPlayer(ps: seq<Player>, used: set<string>)
    ensures Greedy(ps, used).None? <==> exists k :: BlockedAt(ps, used, k)
  {
    if Greedy(ps, used).Some? {
      forall k ensures !BlockedAt(ps, used, k) {
        GreedyNotBlocked(ps, used, k);
      }
    } else {
      var k := GreedyBlocked(ps, used);
    }
  }

  /** One step of the greedy run, taken at position `i`. */
  lemma GreedyStep(ps: seq<Player>, i: nat, used: set<string>)
    requires i < |ps|
    ensures Greedy(ps[i..], used) ==
      match FirstUnused(Preferences(ps[i]), used)
      case None => None
      case Some(role) => if role == "" then None else Prepended([role], Greedy(ps[i + 1..], used + {role}))
  {
    assert ps[i..][0] == ps[i] && ps[i..][1..] == ps[i + 1..];
  }

  lemma PrependedNothing(rest: Option<seq<string>>)
    ensures Prepended([], rest) == rest
  {
    if rest.Some? {
      assert [] + rest.value == rest.value;
    }
  }

  lemma PrependedAssoc(roles: seq<string>, more: seq<string>, rest: Option<seq<string>>)
    ensures Prepended(roles, Prepended(more, rest)) == Prepended(roles + more, rest)
  {
    if rest.Some? {
      assert roles + (more + rest.value) == roles + more + rest.value;
    }
  }

  lemma ElemsSnoc(roles: seq<string>, role: string)
    ensures Elems(roles + [role]) == Elems(roles) + {role}
  {
  }

  lemma AnnotateSnoc(ps: seq<Player>, i: nat, roles: seq<string>, role: string)
    requires i < |ps| && |roles| == i
    ensures Annotate(ps[..i + 1], roles + [role]) == Annotate(ps[..i], roles) + [ps[i].(assignedRole := Some(role))]
  {
  }

  /**
   * assignRoles: players in ascending score order each take their first
   * preference no earlier player took; null as soon as one cannot.
   */
  method AssignRoles(team: seq<Player>) returns (result: Option<seq<Player>>)
    ensures result == RoleAssignment(team)
  {
    var used: set<string> := {};
    var list: seq<Player> := [];
    var sortedTeam := SortByScore(team);
    ghost var roles: seq<string> := [];
    assert sortedTeam[0..] == sortedTeam;
    PrependedNothing(Greedy(sortedTeam, {}));
    for i := 0 to |sortedTeam|
      invariant |roles| == i && list == Annotate(sortedTeam[..i], roles)
      invariant used == Elems(roles)
      invariant Greedy(sortedTeam, {}) == Prepended(roles, Greedy(sortedTeam[i..], used))
    {
      var player := sortedTeam[i];
      var preferences := Preferences(player);
      var available := FirstUnused(preferences, used);
      GreedyStep(sortedTeam, i, used);
      if available.None? || available.value == "" {
        return None;
      }
      var role := available.value;
      PrependedAssoc(roles, [role], Greedy(sortedTeam[i + 1..], used + {role}));
      ElemsSnoc(roles, role);
      AnnotateSnoc(sortedTeam, i, roles, role);
      used := used + {role};
      list := list + [player.(assignedRole := Some(role))];
      roles := roles + [role];
    }
    assert sortedTeam[|sortedTeam|..] == [];
    assert roles + [] == roles;
    assert sortedTeam[..|sortedTeam|] == sortedTeam;
    result := Some(list);
  }

  /** The roles a team was given, in order ("" where none). */
  function RolesOf(team: seq<Player>): (roles: seq<string>)
    ensures |roles| == |team|
    ensures forall i :: 0 <= i < |team| ==> roles[i] == team[i].assignedRole.GetOr("")
  {
    seq(|team|, i requires 0 <= i < |team| => team[i].assignedRole.GetOr(""))
  }

  /**
   * When assignRoles succeeds it returns one player per input player: the
   * same players, in ascending score order.
   */
  lemma RoleAssignmentKeepsPlayers(team: seq<Player>)
    requires RoleAssignment(team).Some?
    ensures var a := RoleAssignment(team).value;
      |a| == |team| && SortedByScore(a) && multiset(Unassigned(a)) == multiset(Unassigned(team))
  {
    var sorted := SortByScore(team);
    var a := RoleAssignment(team).value;
    assert Unassigned(a) == Unassigned(sorted);
    assert forall i :: 0 <= i < |a| ==> Score(a[i]) == Score(sorted[i]);
    SortUnassigned(team);
  }

  /**
   * When assignRoles succeeds every player holds a non-empty role from its
   * own preferences, namely the first one no earlier player took, and no
   * role is held twice.
   */
  lemma RoleAssignmentGreedy(team: seq<Player>)
    requires RoleAssignment(team).Some?
    ensures var a := RoleAssignment(team).value;
      (forall i :: 0 <= i < |a| ==>
         a[i].assignedRole == Some(RolesOf(a)[i]) && RolesOf(a)[i] != "" &&
         RolesOf(a)[i] in Preferences(a[i]) &&
         FirstUnused(Preferences(a[i]), Elems(RolesOf(a)[..i])) == a[i].assignedRole) &&
      (forall i, j :: 0 <= j < i < |a| ==> a[j].assignedRole != a[i].assignedRole)
  {
    var sorted := SortByScore(team);
    var roles := Greedy(sorted, {}).value;
    GreedyChoosesFirstFree(sorted, {});
    var a := Annotate(sorted, roles);
    assert RolesOf(a) == roles;
    forall i | 0 <= i < |a|
      ensures FirstUnused(Preferences(a[i]), Elems(roles[..i])) == Some(roles[i])
    {
      assert Preferences(a[i]) == Preferences(sorted[i]);
      assert {} + Elems(roles[..i]) == Elems(roles[..i]);
    }
    forall i, j | 0 <= j < i < |a| ensures a[j].assignedRole != a[i].assignedRole {
      assert roles[..i][j] == roles[j];
      assert roles[j] in Elems(roles[..i]);
    }
  }

  /**
   * assignRoles returns null exactly when some player, walking the team in
   * ascending score order from no role taken, is blocked.
   */
  lemma RoleAssignmentFails(team: seq<Player>)
    ensures RoleAssignment(team).None? <==> exists k :: BlockedAt(SortByScore(team), {}, k)
  {
    var sorted := SortByScore(team);
    var none: set<string> := {};
    GreedyFailsAtBlockedPlayer(sorted, none);
    if Greedy(sorted, none).Some? {
      GreedyLength(sorted, none);
      assert RoleAssignment(team).Some?;
    } else {
      var k := GreedyBlocked(sorted, none);
      assert BlockedAt(SortByScore(team), {}, k);
    }
  }

  // ---------------------------------------------------------------------
  // getCombinations
  // ---------------------------------------------------------------------

  /** `prefix` followed by each of `tails`. */
  function Extend<T>(prefix: seq<T>, tails: seq<seq<T>>): (r: seq<seq<T>>)
    ensures |r| == |tails|
    ensures forall i :: 0 <= i < |tails| ==> r[i] == prefix + tails[i]
  {
    seq(|tails|, i requires 0 <= i < |tails| => prefix + tails[i])
  }

  lemma ExtendAt<T>(prefix: seq<T>, tails: seq<seq<T>>, i: nat)
    requires i < |tails|
    ensures Extend(prefix, tails)[i] == prefix + tails[i]
  {
  }

  /**
   * The k-element subsequences of `s` in the order getCombinations yields
   * them: those that take `s[0]` first, then those that skip it.
   */
  function Combos<T>(s: seq<T>, k: nat): seq<seq<T>>
    decreases |s|
  {
    if k == 0 then [[]]
    else if s == [] then []
    else Extend([s[0]], Combos(s[1..], k - 1)) + Combos(s[1..], k)
  }

  lemma ExtendAppend<T>(prefix: seq<T>, xs: seq<seq<T>>, ys: seq<seq<T>>)
    ensures Extend(prefix, xs + ys) == Extend(prefix, xs) + Extend(prefix, ys)
  {
  }

  lemma ExtendExtend<T>(prefix: seq<T>, x: T, tails: seq<seq<T>>)
    ensures Extend(prefix, Extend([x], tails)) == Extend(prefix + [x], tails)
  {
    forall i | 0 <= i < |tails|
      ensures Extend(prefix, Extend([x], tails))[i] == Extend(prefix + [x], tails)[i]
    {
      assert prefix + ([x] + tails[i]) == prefix + [x] + tails[i];
    }
  }

  lemma CombosStep<T>(arr: seq<T>, i: nat, k: nat)
    requires i < |arr| && k > 0
    ensures Combos(arr[i..], k) == Extend([arr[i]], Combos(arr[i + 1..], k - 1)) + Combos(arr[i + 1..], k)
  {
    assert arr[i..][0] == arr[i] && arr[i..][1..] == arr[i + 1..];
  }

  /** The completions of `combo` from `i` on: those that take `arr[i]`, then those that skip it. */
  lemma ExtendStep<T>(arr: seq<T>, combo: seq<T>, k: nat, i: nat)
    requires i < |arr| && k > 0
    ensures Extend(combo + [arr[i]], Combos(arr[i + 1..], k - 1)) + Extend(combo, Combos(arr[i + 1..], k)) ==
            Extend(combo, Combos(arr[i..], k))
  {
    var taken := Combos(arr[i + 1..], k - 1);
    var skipped := Combos(arr[i + 1..], k);
    CombosStep(arr, i, k);
    ExtendAppend(combo, Extend([arr[i]], taken), skipped);
    ExtendExtend(combo, arr[i], taken);
  }

  lemma AppendAssoc<T>(a: seq<T>, b: seq<T>, c: seq<T>)
    ensures (a + b) + c == a + (b + c)
  {
  }

  lemma ExtendNothing<T>(tails: seq<seq<T>>)
    ensures Extend([], tails) == tails
  {
    forall i | 0 <= i < |tails| ensures Extend([], tails)[i] == tails[i] {
      assert [] + tails[i] == tails[i];
    }
  }

  /**
   * What `recur(start, combo)` appends to `results`: `combo` once it has r
   * positions, otherwise what its loop appends from `start` on.
   */
  ghost function Recorded(arr: seq<nat>, r: nat, start: nat, combo: seq<nat>): seq<seq<nat>>
    requires start <= |arr|
    decreases |arr| - start, 1
  {
    if |combo| == r then [combo] else RecordedFrom(arr, r, start, combo)
  }

  /** What recur's loop appends for the positions `i` onwards. */
  ghost function RecordedFrom(arr: seq<nat>, r: nat, i: nat, combo: seq<nat>): seq<seq<nat>>
    requires i <= |arr|
    decreases |arr| - i, 0
  {
    if i == |arr| then [] else Recorded(arr, r, i + 1, combo + [arr[i]]) + RecordedFrom(arr, r, i + 1, combo)
  }

  /** recur(start, combo) appends exactly the completions of `combo` by positions from `start` on, in order. */
  lemma {:induction false} RecordedIsCombos(arr: seq<nat>, r: nat, start: nat, combo: seq<nat>)
    requires start <= |arr| && |combo| <= r
    ensures Recorded(arr, r, start, combo) == Extend(combo, Combos(arr[start..], r - |combo|))
    decreases |arr| - start, 1
  {
    if |combo| == r {
      assert combo + [] == combo;
    } else {
      RecordedFromIsCombos(arr, r, start, combo);
    }
  }

  lemma {:induction false} RecordedFromIsCombos(arr: seq<nat>, r: nat, i: nat, combo: seq<nat>)
    requires i <= |arr| && |combo| < r
    ensures RecordedFrom(arr, r, i, combo) == Extend(combo, Combos(arr[i..], r - |combo|))
    decreases |arr| - i, 0
  {
    var k := r - |combo|;
    if i == |arr| {
      assert arr[i..] == [];
    } else {
      var next := combo + [arr[i]];
      assert RecordedFrom(arr, r, i, combo) == Recorded(arr, r, i + 1, next) + RecordedFrom(arr, r, i + 1, combo);
      assert r - |next| == k - 1;
      RecordedIsCombos(arr, r, i + 1, next);
      RecordedFromIsCombos(arr, r, i + 1, combo);
      ExtendStep(arr, combo, k, i);
    }
  }

  /** getCombinations: every r-element subsequence of `arr`, in the order of the recursion. */
  method GetCombinations(arr: seq<nat>, r: nat) returns (results: seq<seq<nat>>)
    ensures results == Combos(arr, r)
  {
    results := Recur(arr, r, 0, [], []);
    RecordedIsCombos(arr, r, 0, []);
    assert arr[0..] == arr;
    ExtendNothing(Combos(arr, r));
    assert [] + Combos(arr, r) == Combos(arr, r);
  }

  /** The inner `recur(start, combo)`, appending to `results`. */
  method Recur(arr: seq<nat>, r: nat, start: nat, combo: seq<nat>, results: seq<seq<nat>>)
    returns (out: seq<seq<nat>>)
    requires start <= |arr|
    ensures out == results + Recorded(arr, r, start, combo)
    decreases |arr| - start
  {
    if |combo| == r {
      return results + [combo];
    }
    out := results;
    var i := start;
    while i < |arr|
      invariant start <= i <= |arr|
      invariant out + RecordedFrom(arr, r, i, combo) == results + RecordedFrom(arr, r, start, combo)
    {
      ghost var before := out;
      out := Recur(arr, r, i + 1, combo + [arr[i]], out);
      AppendAssoc(before, Recorded(arr, r, i + 1, combo + [arr[i]]), RecordedFrom(arr, r, i + 1, combo));
      i := i + 1;
    }
    assert out + [] == out;
  }

  /** Strictly increasing positions. */
  predicate Increasing(c: seq<nat>) {
    forall i, j :: 0 <= i < j < |c| ==> c[i] < c[j]
  }

  predicate Within(c: seq<nat>, n: nat) {
    forall i :: 0 <= i < |c| ==> c[i] < n
  }

  /** `a` comes before `b` in lexicographic order. */
  predicate LexLess(a: seq<nat>, b: seq<nat>) {
    exists m :: 0 <= m < |a| && m < |b| && a[..m] == b[..m] && a[m] < b[m]
  }

  function Binomial(n: nat, k: nat): nat {
    if k == 0 then 1 else if n == 0 then 0 else Binomial(n - 1, k - 1) + Binomial(n - 1, k)
  }

  /** `c` is k increasing positions taken from `s`. */
  predicate ChosenFrom(c: seq<nat>, s: seq<nat>, k: nat) {
    |c| == k && Increasing(c) && forall x :: x in c ==> x in s
  }

  lemma HeadBelowTail(s: seq<nat>, x: nat)
    requires Increasing(s) && s != [] && x in s[1..]
    ensures s[0] < x
  {
    var j :| 0 <= j < |s[1..]| && s[1..][j] == x;
    assert s[j + 1] == x;
  }

  /** Putting the first position ahead of positions chosen from the rest still chooses from `s`. */
  lemma ChosenWithHead(s: seq<nat>, t: seq<nat>, k: nat)
    requires Increasing(s) && s != [] && ChosenFrom(t, s[1..], k)
    ensures ChosenFrom([s[0]] + t, s, k + 1)
  {
    var c := [s[0]] + t;
    forall x | x in t ensures s[0] < x && x in s {
      HeadBelowTail(s, x);
    }
    forall i, j | 0 <= i < j < |c| ensures c[i] < c[j] {
      assert c[j] == t[j - 1];
      if i > 0 {
        assert c[i] == t[i - 1];
      } else {
        assert t[j - 1] in t;
      }
    }
  }

  /** From increasing positions, every combination is k increasing positions taken from them. */
  lemma {:induction false} CombosShape(s: seq<nat>, k: nat)
    requires Increasing(s)
    ensures forall c :: c in Combos(s, k) ==> ChosenFrom(c, s, k)
  {
    if k > 0 && s != [] {
      var tails := Combos(s[1..], k - 1);
      var taken := Extend([s[0]], tails);
      var skipped := Combos(s[1..], k);
      CombosShape(s[1..], k - 1);
      CombosShape(s[1..], k);
      assert Combos(s, k) == taken + skipped;
      forall c | c in Combos(s, k) ensures ChosenFrom(c, s, k) {
        if c in skipped {
          assert ChosenFrom(c, s[1..], k);
        } else {
          var i :| 0 <= i < |taken| && taken[i] == c;
          ExtendAt([s[0]], tails, i);
          assert tails[i] in tails;
          ChosenWithHead(s, tails[i], k - 1);
        }
      }
    } else if k == 0 {
      assert Combos(s, k) == [[]];
    }
  }

  /** A position of `s` other than its first is a position of `s[1..]`. */
  lemma InTail(s: seq<nat>, x: nat)
    requires x in s && x != s[0]
    ensures x in s[1..]
  {
    var j :| 0 <= j < |s| && s[j] == x;
    assert s[1..][j - 1] == x;
  }

  lemma TakenMember<T>(s: seq<T>, tail: seq<T>)
    requires s != [] && tail in Combos(s[1..], |tail|)
    ensures [s[0]] + tail in Combos(s, |tail| + 1)
  {
    var tails := Combos(s[1..], |tail|);
    var i :| 0 <= i < |tails| && tails[i] == tail;
    ExtendAt([s[0]], tails, i);
    assert Combos(s, |tail| + 1) == Extend([s[0]], tails) + Combos(s[1..], |tail| + 1);
  }

  lemma SkippedMember<T>(s: seq<T>, c: seq<T>)
    requires s != [] && |c| > 0 && c in Combos(s[1..], |c|)
    ensures c in Combos(s, |c|)
  {
    assert Combos(s, |c|) == Extend([s[0]], Combos(s[1..], |c| - 1)) + Combos(s[1..], |c|);
  }

  /** A choice that starts with the first position continues with a choice from the rest. */
  lemma ChosenTail(s: seq<nat>, c: seq<nat>)
    requires Increasing(s) && ChosenFrom(c, s, |c|) && c != [] && s != [] && c[0] == s[0]
    ensures ChosenFrom(c[1..], s[1..], |c| - 1)
  {
    forall x | x in c[1..] ensures x in s[1..] {
      var j :| 0 <= j < |c[1..]| && c[1..][j] == x;
      assert c[j + 1] == x && c[0] < x;
      InTail(s, x);
    }
  }

  /** A choice that does not start with the first position is a choice from the rest. */
  lemma ChosenSkipsHead(s: seq<nat>, c: seq<nat>)
    requires Increasing(s) && ChosenFrom(c, s, |c|) && c != [] && s != [] && c[0] != s[0]
    ensures ChosenFrom(c, s[1..], |c|)
  {
    assert c[0] in c;
    InTail(s, c[0]);
    HeadBelowTail(s, c[0]);
    forall x | x in c ensures x in s[1..] {
      var j :| 0 <= j < |c| && c[j] == x;
      assert c[0] <= x;
      InTail(s, x);
    }
  }

  /** Every choice of k increasing positions among `s` is one of the combinations. */
  lemma {:induction false} CombosComplete(s: seq<nat>, c: seq<nat>)
    requires Increasing(s) && ChosenFrom(c, s, |c|)
    ensures c in Combos(s, |c|)
    decreases |s|
  {
    if c == [] {
      assert Combos(s, 0) == [[]];
    } else if c[0] in s && c[0] == s[0] {
      ChosenTail(s, c);
      CombosComplete(s[1..], c[1..]);
      TakenMember(s, c[1..]);
      assert c == [s[0]] + c[1..];
    } else {
      ChosenSkipsHead(s, c);
      CombosComplete(s[1..], c);
      SkippedMember(s, c);
    }
  }

  /** Prepending the same position keeps the lexicographic order. */
  lemma LexLessWithHead(x: nat, a: seq<nat>, b: seq<nat>)
    requires LexLess(a, b)
    ensures LexLess([x] + a, [x] + b)
  {
    var m :| 0 <= m < |a| && m < |b| && a[..m] == b[..m] && a[m] < b[m];
    assert ([x] + a)[..m + 1] == [x] + a[..m];
    assert ([x] + b)[..m + 1] == [x] + b[..m];
  }

  /** A combination that takes the first position comes before every one that skips it. */
  lemma HeadFirstLexLess(s: seq<nat>, tail: seq<nat>, other: seq<nat>, k: nat)
    requires Increasing(s) && s != [] && k > 0 && other in Combos(s[1..], k)
    ensures LexLess([s[0]] + tail, other)
  {
    CombosShape(s[1..], k);
    assert other[0] in other;
    HeadBelowTail(s, other[0]);
    assert ([s[0]] + tail)[..0] == other[..0];
  }

  /** Every entry of `cs` comes strictly before the later ones. */
  predicate LexOrdered(cs: seq<seq<nat>>) {
    forall i, j :: 0 <= i < j < |cs| ==> LexLess(cs[i], cs[j])
  }

  /** Two entries of the combinations of `s`, given that those of `s[1..]` are ordered. */
  lemma CombosPairInLexOrder(s: seq<nat>, k: nat, i: nat, j: nat)
    requires Increasing(s) && k > 0 && s != []
    requires LexOrdered(Combos(s[1..], k - 1)) && LexOrdered(Combos(s[1..], k))
    requires i < j < |Combos(s, k)|
    ensures LexLess(Combos(s, k)[i], Combos(s, k)[j])
  {
    var all := Combos(s, k);
    var tails := Combos(s[1..], k - 1);
    var taken := Extend([s[0]], tails);
    var skipped := Combos(s[1..], k);
    assert all == taken + skipped;
    if j < |taken| {
      ExtendAt([s[0]], tails, i);
      ExtendAt([s[0]], tails, j);
      assert all[i] == [s[0]] + tails[i] && all[j] == [s[0]] + tails[j];
      LexLessWithHead(s[0], tails[i], tails[j]);
    } else if i < |taken| {
      ExtendAt([s[0]], tails, i);
      assert all[i] == [s[0]] + tails[i] && all[j] == skipped[j - |taken|];
      assert skipped[j - |taken|] in skipped;
      HeadFirstLexLess(s, tails[i], skipped[j - |taken|], k);
    } else {
      assert all[i] == skipped[i - |taken|] && all[j] == skipped[j - |taken|];
    }
  }

  /**
   * getCombinations lists the combinations of increasing positions in
   * strictly increasing lexicographic order, so none is listed twice.
   */
  lemma {:induction false} CombosInLexOrder(s: seq<nat>, k: nat)
    requires Increasing(s)
    ensures LexOrdered(Combos(s, k))
  {
    if k > 0 && s != [] {
      CombosInLexOrder(s[1..], k - 1);
      CombosInLexOrder(s[1..], k);
      forall i, j | 0 <= i < j < |Combos(s, k)| ensures LexLess(Combos(s, k)[i], Combos(s, k)[j]) {
        CombosPairInLexOrder(s, k, i, j);
      }
    }
  }

  /** getCombinations never lists a team twice. */
  lemma CombosDistinct(s: seq<nat>, k: nat)
    requires Increasing(s)
    ensures forall i, j :: 0 <= i < j < |Combos(s, k)| ==> Combos(s, k)[i] != Combos(s, k)[j]
  {
    var all := Combos(s, k);
    CombosInLexOrder(s, k);
    forall i, j | 0 <= i < j < |all| ensures all[i] != all[j] {
      assert LexLess(all[i], all[j]);
      var m :| 0 <= m < |all[i]| && m < |all[j]| && all[i][..m] == all[j][..m] && all[i][m] < all[j][m];
    }
  }

  /** There are C(n, k) of them. */
  lemma {:induction false} CombosCount<T>(s: seq<T>, k: nat)
    ensures |Combos(s, k)| == Binomial(|s|, k)
    decreases |s|
  {
    if k > 0 && s != [] {
      CombosCount(s[1..], k - 1);
      CombosCount(s[1..], k);
      var taken := Combos(s[1..], k - 1);
      assert Combos(s, k) == Extend([s[0]], taken) + Combos(s[1..], k);
      assert |Extend([s[0]], taken)| == |taken|;
      assert Binomial(|s|, k) == Binomial(|s| - 1, k - 1) + Binomial(|s| - 1, k);
    }
  }

  lemma {:induction false} BinomialPositive(n: nat, k: nat)
    requires k <= n
    ensures Binomial(n, k) > 0
  {
    if k > 0 {
      BinomialPositive(n - 1, k - 1);
    }
  }

  /** The positions 0..n-1. */
  function Indices(n: nat): (r: seq<nat>)
    ensures |r| == n && Increasing(r)
    ensures forall i :: 0 <= i < n ==> r[i] == i
  {
    seq(n, i requires 0 <= i < n => i)
  }

  lemma CombosOfIndices(n: nat, k: nat)
    ensures forall i :: 0 <= i < |Combos(Indices(n), k)| ==>
      |Combos(Indices(n), k)[i]| == k && Increasing(Combos(Indices(n), k)[i]) && Within(Combos(Indices(n), k)[i], n)
  {
    var all := Combos(Indices(n), k);
    CombosShape(Indices(n), k);
    forall i | 0 <= i < |all| ensures |all[i]| == k && Increasing(all[i]) && Within(all[i], n) {
      assert all[i] in all;
      forall j | 0 <= j < |all[i]| ensures all[i][j] < n {
        assert all[i][j] in all[i];
      }
    }
  }

  /** The candidate teamA position sets of every search: the five-position combinations. */
  function Candidates(n: nat): (cs: seq<seq<nat>>)
    ensures forall i :: 0 <= i < |cs| ==> |cs[i]| == TeamSize && Increasing(cs[i]) && Within(cs[i], n)
  {
    CombosOfIndices(n, TeamSize);
    Combos(Indices(n), TeamSize)
  }

  /** There are C(n, 5) candidates. */
  lemma CandidatesCount(n: nat)
    ensures |Candidates(n)| == Binomial(n, TeamSize)
  {
    CombosCount(Indices(n), TeamSize);
  }

  /** As soon as there are five players there is a candidate. */
  lemma CandidatesNonEmpty(n: nat)
    requires n >= TeamSize
    ensures |Candidates(n)| > 0
  {
    CandidatesCount(n);
    BinomialPositive(n, TeamSize);
  }

  /** Every five-player team is a candidate exactly once. */
  lemma CandidatesCoverEachTeamOnce(n: nat, c: seq<nat>)
    requires |c| == TeamSize && Increasing(c) && Within(c, n)
    ensures c in Candidates(n)
    ensures forall i, j :: 0 <= i < j < |Candidates(n)| ==> Candidates(n)[i] != Candidates(n)[j]
  {
    forall x | x in c ensures x in Indices(n) {
      var i :| 0 <= i < |c| && c[i] == x;
      assert Indices(n)[x] == x;
    }
    CombosComplete(Indices(n), c);
    CombosDistinct(Indices(n), TeamSize);
  }

  // ---------------------------------------------------------------------
  // Splits
  // ---------------------------------------------------------------------

  /** teamA: the players at the chosen positions. */
  function TeamOf(players: seq<Player>, c: seq<nat>): (team: seq<Player>)
    requires Within(c, |players|)
    ensures |team| == |c|
  {
    seq(|c|, i requires 0 <= i < |c| => players[c[i]])
  }

  /** teamB: the players at the positions teamA does not take, in request order. */
  function Others(players: seq<Player>, c: seq<nat>): seq<Player>
  {
    if players == [] then []
    else Others(players[..|players| - 1], c) + (if |players| - 1 in c then [] else [players[|players| - 1]])
  }

  lemma {:induction false} OthersIgnoresLaterPositions(players: seq<Player>, c: seq<nat>, d: seq<nat>)
    requires forall i :: 0 <= i < |players| ==> (i in c <==> i in d)
    ensures Others(players, c) == Others(players, d)
  {
    if players != [] {
      OthersIgnoresLaterPositions(players[..|players| - 1], c, d);
    }
  }

  /** No position lies below 0. */
  lemma NothingWithinZero(c: seq<nat>)
    ensures Within(c, 0) <==> c == []
  {
    if c != [] {
      assert !(c[0] < 0);
    }
  }

  /** When the last position is chosen, teamA is the front's teamA plus the last player. */
  lemma TeamOfLastChosen(players: seq<Player>, c: seq<nat>)
    requires Increasing(c) && Within(c, |players|) && c != [] && c[|c| - 1] == |players| - 1
    ensures Increasing(c[..|c| - 1]) && Within(c[..|c| - 1], |players| - 1)
    ensures TeamOf(players, c) == TeamOf(players[..|players| - 1], c[..|c| - 1]) + [players[|players| - 1]]
  {
    var c' := c[..|c| - 1];
    forall i | 0 <= i < |c'| ensures c'[i] < |players| - 1 {
      assert c[i] < c[|c| - 1];
    }
  }

  /** When the last position is not chosen, teamA is the front's teamA. */
  lemma TeamOfLastSkipped(players: seq<Player>, c: seq<nat>)
    requires Increasing(c) && Within(c, |players|) && players != [] && (c == [] || c[|c| - 1] != |players| - 1)
    ensures Within(c, |players| - 1) && |players| - 1 !in c
    ensures TeamOf(players, c) == TeamOf(players[..|players| - 1], c)
  {
    forall i | 0 <= i < |c| ensures c[i] < |players| - 1 {
      assert c[i] <= c[|c| - 1];
    }
  }

  /** The split of all players when the last position is chosen, from the split of the others. */
  lemma SplitLastChosen(players: seq<Player>, c: seq<nat>)
    requires Increasing(c) && Within(c, |players|) && c != [] && c[|c| - 1] == |players| - 1
    requires Within(c[..|c| - 1], |players| - 1)
    requires var front := players[..|players| - 1];
      multiset(TeamOf(front, c[..|c| - 1])) + multiset(Others(front, c[..|c| - 1])) == multiset(front)
    ensures multiset(TeamOf(players, c)) + multiset(Others(players, c)) == multiset(players)
  {
    var n := |players|;
    var front := players[..n - 1];
    var c' := c[..|c| - 1];
    assert players == front + [players[n - 1]];
    TeamOfLastChosen(players, c);
    OthersIgnoresLaterPositions(front, c, c');
    assert Others(players, c) == Others(front, c');
  }

  /** The split of all players when the last position is not chosen, from the split of the others. */
  lemma SplitLastSkipped(players: seq<Player>, c: seq<nat>)
    requires Increasing(c) && Within(c, |players|) && players != [] && (c == [] || c[|c| - 1] != |players| - 1)
    requires Within(c, |players| - 1)
    requires var front := players[..|players| - 1];
      multiset(TeamOf(front, c)) + multiset(Others(front, c)) == multiset(front)
    ensures multiset(TeamOf(players, c)) + multiset(Others(players, c)) == multiset(players)
  {
    var n := |players|;
    var front := players[..n - 1];
    assert players == front + [players[n - 1]];
    TeamOfLastSkipped(players, c);
    assert Others(players, c) == Others(front, c) + [players[n - 1]];
  }

  /** teamA and teamB hold every player once. */
  lemma {:induction false} SplitPartitions(players: seq<Player>, c: seq<nat>)
    requires Increasing(c) && Within(c, |players|)
    ensures multiset(TeamOf(players, c)) + multiset(Others(players, c)) == multiset(players)
    ensures |Others(players, c)| == |players| - |c|
  {
    if players == [] {
      NothingWithinZero(c);
    } else {
      var front := players[..|players| - 1];
      if c != [] && c[|c| - 1] == |players| - 1 {
        TeamOfLastChosen(players, c);
        SplitPartitions(front, c[..|c| - 1]);
        SplitLastChosen(players, c);
      } else {
        TeamOfLastSkipped(players, c);
        SplitPartitions(front, c);
        SplitLastSkipped(players, c);
      }
      PartsSize(TeamOf(players, c), Others(players, c), players);
    }
  }

  lemma PartsSize(a: seq<Player>, b: seq<Player>, whole: seq<Player>)
    requires multiset(a) + multiset(b) == multiset(whole)
    ensures |b| == |whole| - |a|
  {
    assert |multiset(a) + multiset(b)| == |multiset(whole)|;
  }

  lemma {:induction false} OthersUnassigned(players: seq<Player>, c: seq<nat>)
    ensures Unassigned(Others(players, c)) == Others(Unassigned(players), c)
  {
    if players != [] {
      var n := |players|;
      assert Unassigned(players)[..n - 1] == Unassigned(players[..n - 1]);
      OthersUnassigned(players[..n - 1], c);
    }
  }

  /** The split's two teams partition the players, whatever roles they are given. */
  lemma SplitPartitionsPlayers(players: seq<Player>, c: seq<nat>)
    requires Increasing(c) && Within(c, |players|)
    ensures Partition(TeamOf(players, c), Others(players, c), players)
  {
    SplitPartitions(Unassigned(players), c);
    OthersUnassigned(players, c);
    assert Unassigned(TeamOf(players, c)) == TeamOf(Unassigned(players), c);
  }

  // ---------------------------------------------------------------------
  // Scores and role counters
  // ---------------------------------------------------------------------

  /** getTeamScore: the sum of the players' scores. */
  function TeamScore(team: seq<Player>): int {
    if team == [] then 0 else TeamScore(team[..|team| - 1]) + Score(team[|team| - 1])
  }

  lemma {:induction false} TeamScoreAppend(a: seq<Player>, b: seq<Player>)
    ensures TeamScore(a + b) == TeamScore(a) + TeamScore(b)
    decreases |b|
  {
    if b == [] {
      assert a + b == a;
    } else {
      assert (a + b)[..|a + b| - 1] == a + b[..|b| - 1];
      TeamScoreAppend(a, b[..|b| - 1]);
    }
  }

  /** Taking the last player out of `a` takes one copy of it out of the multiset. */
  lemma DropLastMultiset(a: seq<Player>)
    requires a != []
    ensures multiset(a[..|a| - 1]) == multiset(a) - multiset{a[|a| - 1]}
  {
    assert a == a[..|a| - 1] + [a[|a| - 1]];
  }

  /** Taking the player at `j` out of `b` takes one copy of it out of the multiset. */
  lemma RemoveAtMultiset(b: seq<Player>, j: nat)
    requires j < |b|
    ensures multiset(b[..j] + b[j + 1..]) == multiset(b) - multiset{b[j]}
  {
    assert b == b[..j] + [b[j]] + b[j + 1..];
  }

  /** Adding a player at the end adds its score. */
  lemma TeamScoreSnoc(front: seq<Player>, x: Player)
    ensures TeamScore(front + [x]) == TeamScore(front) + Score(x)
  {
    assert (front + [x])[..|front|] == front;
  }

  /** Taking the player at `j` out of `b` takes its score out of the team's. */
  lemma RemoveAtScore(b: seq<Player>, j: nat)
    requires j < |b|
    ensures TeamScore(b) == TeamScore(b[..j] + b[j + 1..]) + Score(b[j])
  {
    var front, x, back := b[..j], b[j], b[j + 1..];
    assert b == (front + [x]) + back;
    TeamScoreAppend(front + [x], back);
    TeamScoreSnoc(front, x);
    TeamScoreAppend(front, back);
  }

  /** The score of a team does not depend on the order of its players. */
  lemma {:induction false} TeamScorePermutation(a: seq<Player>, b: seq<Player>)
    requires multiset(a) == multiset(b)
    ensures TeamScore(a) == TeamScore(b)
    decreases |a|
  {
    if a != [] {
      var last := a[|a| - 1];
      assert last in multiset(a);
      var j :| 0 <= j < |b| && b[j] == last;
      DropLastMultiset(a);
      RemoveAtMultiset(b, j);
      RemoveAtScore(b, j);
      TeamScorePermutation(a[..|a| - 1], b[..j] + b[j + 1..]);
    }
  }

  lemma {:induction false} TeamScoreUnassigned(team: seq<Player>)
    ensures TeamScore(Unassigned(team)) == TeamScore(team)
  {
    if team != [] {
      assert Unassigned(team)[..|team| - 1] == Unassigned(team[..|team| - 1]);
      TeamScoreUnassigned(team[..|team| - 1]);
    }
  }

  /** The two teams of a split together score what all the players score. */
  lemma SplitScoresAddUp(players: seq<Player>, c: seq<nat>)
    requires Increasing(c) && Within(c, |players|)
    ensures TeamScore(TeamOf(players, c)) + TeamScore(Others(players, c)) == TeamScore(players)
  {
    SplitPartitions(players, c);
    TeamScoreAppend(TeamOf(players, c), Others(players, c));
    TeamScorePermutation(TeamOf(players, c) + Others(players, c), players);
  }

  /** Assigning roles changes neither the players nor their total score. */
  lemma RoleAssignmentKeepsScore(team: seq<Player>)
    requires RoleAssignment(team).Some?
    ensures multiset(Unassigned(RoleAssignment(team).value)) == multiset(Unassigned(team))
    ensures TeamScore(RoleAssignment(team).value) == TeamScore(team)
  {
    RoleAssignmentKeepsPlayers(team);
    var a := RoleAssignment(team).value;
    TeamScoreUnassigned(a);
    TeamScoreUnassigned(team);
    TeamScorePermutation(Unassigned(a), Unassigned(team));
  }

  /** countSubRoles: players whose assigned role is not their main role. */
  function CountSubRoles(team: seq<Player>): nat {
    if team == [] then 0
    else CountSubRoles(team[..|team| - 1]) + (if team[|team| - 1].assignedRole != Some(team[|team| - 1].mainRole) then 1 else 0)
  }

  /** countMainRoles: players whose assigned role is their main role. */
  function CountMainRoles(team: seq<Player>): nat {
    if team == [] then 0
    else CountMainRoles(team[..|team| - 1]) + (if team[|team| - 1].assignedRole == Some(team[|team| - 1].mainRole) then 1 else 0)
  }

  /** Every player is counted by exactly one of the two counters. */
  lemma {:induction false} SubAndMainRolesCoverTeam(team: seq<Player>)
    ensures CountSubRoles(team) + CountMainRoles(team) == |team|
  {
    if team != [] {
      SubAndMainRolesCoverTeam(team[..|team| - 1]);
    }
  }

  /** The number of players whose main role is `role`. */
  function MainRoleCount(players: seq<Player>, role: string): (n: nat)
    ensures n > 0 <==> exists i :: 0 <= i < |players| && players[i].mainRole == role
  {
    if players == [] then 0
    else
      var n := MainRoleCount(players[..|players| - 1], role);
      assert forall i :: 0 <= i < |players| - 1 ==> players[..|players| - 1][i] == players[i];
      n + (if players[|players| - 1].mainRole == role then 1 else 0)
  }

  /** Every one of the five roles is somebody's main role. */
  ghost predicate EveryRoleCovered(players: seq<Player>) {
    forall r :: r in Roles ==> exists i :: 0 <= i < |players| && players[i].mainRole == r
  }

  /** `counts` has one entry per role, holding its main-role count among `players`. */
  ghost predicate CountsOf(counts: map<string, nat>, players: seq<Player>) {
    counts.Keys == (set r | r in Roles) &&
    forall r :: r in counts ==> counts[r] == MainRoleCount(players, r)
  }

  /** One more player counted: only the entry of its main role, if it has one, goes up. */
  lemma CountsStep(before: map<string, nat>, after: map<string, nat>, players: seq<Player>, i: nat)
    requires i < |players| && CountsOf(before, players[..i])
    requires var role := players[i].mainRole;
      after == if role in before then before[role := before[role] + 1] else before
    ensures CountsOf(after, players[..i + 1])
  {
    forall r | r in after ensures after[r] == MainRoleCount(players[..i + 1], r) {
      MainRoleCountStep(players, i, r);
    }
  }

  /** The counts say every role is covered exactly when it is. */
  lemma CountsCover(counts: map<string, nat>, players: seq<Player>)
    requires CountsOf(counts, players)
    ensures (forall r :: r in Roles ==> counts[r] >= 1) <==> EveryRoleCovered(players)
  {
    forall r | r in Roles ensures counts[r] == MainRoleCount(players, r) {
      assert r in counts;
    }
  }

  /** hasSufficientRoles: count main roles per role, then require each of the five at least once. */
  method HasSufficientRoles(players: seq<Player>) returns (sufficient: bool)
    ensures sufficient <==> EveryRoleCovered(players)
  {
    var counts: map<string, nat> := map r | r in Roles :: 0;
    for i := 0 to |players|
      invariant CountsOf(counts, players[..i])
    {
      var p := players[i];
      ghost var before := counts;
      if p.mainRole in counts {
        counts := counts[p.mainRole := counts[p.mainRole] + 1];
      }
      CountsStep(before, counts, players, i);
    }
    assert players[..|players|] == players;
    CountsCover(counts, players);
    sufficient := forall r :: r in Roles ==> counts[r] >= 1;
  }

  lemma MainRoleCountStep(players: seq<Player>, i: nat, role: string)
    requires i < |players|
    ensures MainRoleCount(players[..i + 1], role) ==
      MainRoleCount(players[..i], role) + (if players[i].mainRole == role then 1 else 0)
  {
    assert players[..i + 1][..i] == players[..i];
  }

  // ---------------------------------------------------------------------
  // The three searches
  // ---------------------------------------------------------------------

  /** evaluateTeamSplit, with the floating-point weighting abstracted as `finalScore`. */
  function EvaluateTeamSplit(teamA: seq<Player>, teamB: seq<Player>, finalScore: (seq<Player>, seq<Player>) -> int): Evaluation {
    var teamAScore := TeamScore(teamA);
    var teamBScore := TeamScore(teamB);
    Evaluation(teamA, teamB, teamAScore, teamBScore, Abs(teamAScore - teamBScore),
               CountSubRoles(teamA) + CountSubRoles(teamB),
               CountMainRoles(teamA) + CountMainRoles(teamB),
               finalScore(teamA, teamB), false)
  }

  /** The evaluation of the split that takes teamA at positions `c`, when both teams get roles. */
  function EvaluateCandidate(players: seq<Player>, c: seq<nat>, finalScore: (seq<Player>, seq<Player>) -> int): Option<Evaluation>
    requires Within(c, |players|)
  {
    var assignedA := RoleAssignment(TeamOf(players, c));
    var assignedB := RoleAssignment(Others(players, c));
    if assignedA.Some? && assignedB.Some? then
      Some(EvaluateTeamSplit(assignedA.value, assignedB.value, finalScore))
    else None
  }


  ghost predicate AllWithin(cs: seq<seq<nat>>, n: nat) {
    forall i :: 0 <= i < |cs| ==> Within(cs[i], n)
  }

  /** The evaluation of every candidate split, in candidate order. */
  function Evaluations(players: seq<Player>, cs: seq<seq<nat>>, finalScore: (seq<Player>, seq<Player>) -> int): (es: seq<Option<Evaluation>>)
    requires AllWithin(cs, |players|)
    ensures |es| == |cs|
    ensures forall j :: 0 <= j < |cs| ==> es[j] == EvaluateCandidate(players, cs[j], finalScore)
  {
    seq(|cs|, j requires 0 <= j < |cs| && Within(cs[j], |players|) => EvaluateCandidate(players, cs[j], finalScore))
  }

  /**
   * assignTeams' `best` after the evaluations `es`: an evaluation replaces
   * the best so far only when its finalScore is strictly lower.
   */
  function LowestFirst(es: seq<Option<Evaluation>>): Option<Evaluation>
  {
    if es == [] then None
    else
      var best := LowestFirst(es[..|es| - 1]);
      match es[|es| - 1]
      case None => best
      case Some(evaluated) =>
        if best.None? || evaluated.finalScore < best.value.finalScore then Some(evaluated) else best
  }

  /** The search after one more candidate. */
  lemma LowestFirstStep(es: seq<Option<Evaluation>>, i: nat)
    requires i < |es|
    ensures LowestFirst(es[..i + 1]) ==
      match es[i]
      case None => LowestFirst(es[..i])
      case Some(evaluated) =>
        var best := LowestFirst(es[..i]);
        if best.None? || evaluated.finalScore < best.value.finalScore then Some(evaluated) else best
  {
    assert es[..i + 1][..i] == es[..i];
  }

  /**
   * Position `k` holds an evaluation whose finalScore no candidate beats,
   * and every earlier evaluated candidate is strictly worse.
   */
  ghost predicate FirstMinimumAt(es: seq<Option<Evaluation>>, k: int) {
    0 <= k < |es| && es[k].Some? &&
    (forall j :: 0 <= j < |es| && es[j].Some? ==> es[k].value.finalScore <= es[j].value.finalScore) &&
    (forall j :: 0 <= j < k && es[j].Some? ==> es[k].value.finalScore < es[j].value.finalScore)
  }

  /** assignTeams finds nothing exactly when no candidate lets both teams be role-assigned. */
  lemma {:induction false} LowestFirstNone(es: seq<Option<Evaluation>>)
    ensures LowestFirst(es).None? <==> forall j :: 0 <= j < |es| ==> es[j].None?
  {
    if es != [] {
      var front := es[..|es| - 1];
      LowestFirstNone(front);
      assert forall j :: 0 <= j < |es| - 1 ==> front[j] == es[j];
    }
  }

  /** A minimum of the earlier candidates stays one when the next is no better. */
  lemma FirstMinimumKept(es: seq<Option<Evaluation>>, k: nat)
    requires es != [] && FirstMinimumAt(es[..|es| - 1], k)
    requires es[|es| - 1].Some? ==> es[k].value.finalScore <= es[|es| - 1].value.finalScore
    ensures FirstMinimumAt(es, k)
  {
    var front := es[..|es| - 1];
    assert forall j :: 0 <= j < |es| - 1 ==> front[j] == es[j];
  }

  /** A candidate strictly better than the earlier minimum is the new one. */
  lemma FirstMinimumTaken(es: seq<Option<Evaluation>>, k: nat)
    requires es != [] && FirstMinimumAt(es[..|es| - 1], k)
    requires es[|es| - 1].Some? && es[|es| - 1].value.finalScore < es[k].value.finalScore
    ensures FirstMinimumAt(es, |es| - 1)
  {
    var front := es[..|es| - 1];
    assert forall j :: 0 <= j < |es| - 1 ==> front[j] == es[j];
  }

  /** A candidate that is the first one evaluated at all is the minimum so far. */
  lemma FirstMinimumFirst(es: seq<Option<Evaluation>>)
    requires es != [] && es[|es| - 1].Some?
    requires forall j :: 0 <= j < |es| - 1 ==> es[j].None?
    ensures FirstMinimumAt(es, |es| - 1)
  {
  }

  /**
   * Otherwise assignTeams returns a candidate's evaluation whose finalScore
   * no candidate beats, and every earlier candidate is strictly worse (ties
   * go to the first).
   */
  lemma {:induction false} LowestFirstIsFirstMinimum(es: seq<Option<Evaluation>>)
    ensures LowestFirst(es).Some? ==> exists k :: FirstMinimumAt(es, k) && es[k] == LowestFirst(es)
  {
    if es != [] {
      var n := |es|;
      var front := es[..n - 1];
      var previous := LowestFirst(front);
      LowestFirstIsFirstMinimum(front);
      LowestFirstNone(front);
      if previous.Some? {
        var k :| FirstMinimumAt(front, k) && front[k] == previous;
        assert es[k] == front[k];
        if es[n - 1].Some? && es[n - 1].value.finalScore < previous.value.finalScore {
          FirstMinimumTaken(es, k);
        } else {
          FirstMinimumKept(es, k);
        }
      } else if es[n - 1].Some? {
        assert forall j :: 0 <= j < n - 1 ==> es[j] == front[j];
        FirstMinimumFirst(es);
      }
    }
  }

  /** What assignTeams returns for `players`. */
  function PlanA(players: seq<Player>, finalScore: (seq<Player>, seq<Player>) -> int): Option<Evaluation> {
    LowestFirst(Evaluations(players, Candidates(|players|), finalScore))
  }

  /** Mark an evaluation as a fallback result by setting its `fallbackUsed` flag. */
  function MarkedFallback(best: Option<Evaluation>): Option<Evaluation> {
    match best
    case None => None
    case Some(e) => Some(e.(fallbackUsed := true))
  }

  /** assignTeams: the first split with the lowest finalScore among those where both teams get roles. */
  method AssignTeams(players: seq<Player>, finalScore: (seq<Player>, seq<Player>) -> int) returns (best: Option<Evaluation>)
    ensures best == PlanA(players, finalScore)
  {
    var combinations := GetCombinations(Indices(|players|), TeamSize);
    assert combinations == Candidates(|players|);
    ghost var es := Evaluations(players, combinations, finalScore);
    best := None;
    for i := 0 to |combinations|
      invariant best == LowestFirst(es[..i])
    {
      var teamA := combinations[i];
      LowestFirstStep(es, i);
      var assignedA := AssignRoles(TeamOf(players, teamA));
      var assignedB := AssignRoles(Others(players, teamA));
      if assignedA.Some? && assignedB.Some? {
        var evaluated := EvaluateTeamSplit(assignedA.value, assignedB.value, finalScore);
        if best.None? || evaluated.finalScore < best.value.finalScore {
          best := Some(evaluated);
        }
      }
    }
    assert es[..|es|] == es;
  }

  /**
   * assignTeamsWithSoftRoles: the same search with `bestScore` starting at
   * Infinity and the winner marked as a fallback. It returns exactly what
   * assignTeams returns, marked.
   */
  method AssignTeamsWithSoftRoles(players: seq<Player>, finalScore: (seq<Player>, seq<Player>) -> int) returns (best: Option<Evaluation>)
    ensures best == MarkedFallback(PlanA(players, finalScore))
  {
    var combinations := GetCombinations(Indices(|players|), TeamSize);
    assert combinations == Candidates(|players|);
    ghost var es := Evaluations(players, combinations, finalScore);
    best := None;
    var bestScore: Option<int> := None;
    for i := 0 to |combinations|
      invariant best == MarkedFallback(LowestFirst(es[..i]))
      invariant bestScore == (if best.Some? then Some(best.value.finalScore) else None)
    {
      var teamA := combinations[i];
      LowestFirstStep(es, i);
      var assignedA := AssignRoles(TeamOf(players, teamA));
      var assignedB := AssignRoles(Others(players, teamA));
      if assignedA.Some? && assignedB.Some? {
        var result := EvaluateTeamSplit(assignedA.value, assignedB.value, finalScore);
        if bestScore.None? || result.finalScore < bestScore.value {
          best := Some(result.(fallbackUsed := true));
          bestScore := Some(result.finalScore);
        }
      }
    }
    assert es[..|es|] == es;
  }

  /** The object assignTeamsByScore builds for the split that takes teamA at positions `c`. */
  function ScoreRecord(players: seq<Player>, c: seq<nat>): ScoreSplit
    requires Within(c, |players|)
  {
    var teamA := TeamOf(players, c);
    var teamB := Others(players, c);
    var scoreA := TeamScore(teamA);
    var scoreB := TeamScore(teamB);
    var assignedA := RoleAssignment(teamA);
    var assignedB := RoleAssignment(teamB);
    ScoreSplit(assignedA.GetOr(teamA), assignedB.GetOr(teamB), scoreA, scoreB, Abs(scoreA - scoreB), true,
               if assignedA.Some? && assignedB.Some? then WithRoleAssignment else WithoutRoleAssignment)
  }

  /** The score-only record of every candidate split, in candidate order. */
  function Records(players: seq<Player>, cs: seq<seq<nat>>): (rs: seq<ScoreSplit>)
    requires AllWithin(cs, |players|)
    ensures |rs| == |cs|
    ensures forall j :: 0 <= j < |cs| ==> rs[j] == ScoreRecord(players, cs[j])
  {
    seq(|cs|, j requires 0 <= j < |cs| && Within(cs[j], |players|) => ScoreRecord(players, cs[j]))
  }

  /**
   * assignTeamsByScore's `best` after the records `rs`: a record is skipped
   * only when its score difference is strictly larger than the best so far.
   */
  function ClosestLast(rs: seq<ScoreSplit>): Option<ScoreSplit>
  {
    if rs == [] then None
    else
      var best := ClosestLast(rs[..|rs| - 1]);
      var record := rs[|rs| - 1];
      if best.Some? && record.scoreDiff > best.value.scoreDiff then best else Some(record)
  }

  /** What assignTeamsByScore returns for `players`. */
  function ScoreFallback(players: seq<Player>): Option<ScoreSplit> {
    ClosestLast(Records(players, Candidates(|players|)))
  }

  /** The search after one more candidate. */
  lemma ClosestLastStep(rs: seq<ScoreSplit>, i: nat)
    requires i < |rs|
    ensures ClosestLast(rs[..i + 1]) ==
      var best := ClosestLast(rs[..i]);
      if best.Some? && rs[i].scoreDiff > best.value.scoreDiff then best else Some(rs[i])
  {
    assert rs[..i + 1][..i] == rs[..i];
  }

  /**
   * Position `k` holds a record whose score difference no candidate beats,
   * and every later candidate is strictly worse.
   */
  ghost predicate LastMinimumAt(rs: seq<ScoreSplit>, k: int) {
    0 <= k < |rs| &&
    (forall j :: 0 <= j < |rs| ==> rs[k].scoreDiff <= rs[j].scoreDiff) &&
    (forall j :: k < j < |rs| ==> rs[k].scoreDiff < rs[j].scoreDiff)
  }

  /** assignTeamsByScore finds a split exactly when there is a candidate. */
  lemma ClosestLastSome(rs: seq<ScoreSplit>)
    ensures ClosestLast(rs).Some? <==> |rs| > 0
  {
  }

  /** A minimum of the earlier candidates stays one when the next is strictly worse. */
  lemma LastMinimumKept(rs: seq<ScoreSplit>, k: nat)
    requires rs != [] && LastMinimumAt(rs[..|rs| - 1], k)
    requires rs[k].scoreDiff < rs[|rs| - 1].scoreDiff
    ensures LastMinimumAt(rs, k)
  {
    var front := rs[..|rs| - 1];
    assert forall j :: 0 <= j < |rs| - 1 ==> front[j] == rs[j];
  }

  /** A candidate no worse than the earlier minimum is the new one. */
  lemma LastMinimumTaken(rs: seq<ScoreSplit>, k: nat)
    requires rs != [] && LastMinimumAt(rs[..|rs| - 1], k)
    requires rs[|rs| - 1].scoreDiff <= rs[k].scoreDiff
    ensures LastMinimumAt(rs, |rs| - 1)
  {
    var front := rs[..|rs| - 1];
    assert forall j :: 0 <= j < |rs| - 1 ==> front[j] == rs[j];
  }

  /** One more record: the earlier winner stays when the new one is strictly worse, else the new one wins. */
  lemma ClosestLastAfter(rs: seq<ScoreSplit>, k: nat) returns (m: nat)
    requires rs != [] && LastMinimumAt(rs[..|rs| - 1], k)
    requires ClosestLast(rs[..|rs| - 1]) == Some(rs[k])
    ensures LastMinimumAt(rs, m) && ClosestLast(rs) == Some(rs[m])
  {
    var n := |rs|;
    assert rs[..n - 1][k] == rs[k];
    if rs[n - 1].scoreDiff > rs[k].scoreDiff {
      LastMinimumKept(rs, k);
      m := k;
    } else {
      LastMinimumTaken(rs, k);
      m := n - 1;
    }
  }

  /**
   * assignTeamsByScore returns a candidate's record whose score difference
   * no candidate beats, and every later candidate is strictly worse (ties go
   * to the last).
   */
  lemma {:induction false} ClosestLastIsLastMinimum(rs: seq<ScoreSplit>)
    ensures ClosestLast(rs).Some? ==> exists k :: LastMinimumAt(rs, k) && rs[k] == ClosestLast(rs).value
  {
    if rs != [] {
      var front := rs[..|rs| - 1];
      ClosestLastIsLastMinimum(front);
      ClosestLastSome(front);
      if front == [] {
        assert LastMinimumAt(rs, 0);
      } else {
        var k :| LastMinimumAt(front, k) && front[k] == ClosestLast(front).value;
        assert rs[k] == front[k];
        var m := ClosestLastAfter(rs, k);
      }
    }
  }

  /** assignTeamsByScore: the split with the smallest score difference, roles assigned where possible. */
  method AssignTeamsByScore(players: seq<Player>) returns (best: Option<ScoreSplit>)
    ensures best == ScoreFallback(players)
  {
    var combinations := GetCombinations(Indices(|players|), TeamSize);
    assert combinations == Candidates(|players|);
    ghost var rs := Records(players, combinations);
    best := None;
    var minDiff: Option<nat> := None;
    for i := 0 to |combinations|
      invariant best == ClosestLast(rs[..i])
      invariant minDiff == (if best.Some? then Some(best.value.scoreDiff) else None)
    {
      var teamA := combinations[i];
      ClosestLastStep(rs, i);
      var team := TeamOf(players, teamA);
      var teamB := Others(players, teamA);
      var scoreA := TeamScore(team);
      var scoreB := TeamScore(teamB);
      var diff := Abs(scoreA - scoreB);
      assert rs[i] == ScoreRecord(players, teamA);
      assert rs[i].scoreDiff == diff;
      if minDiff.Some? && diff > minDiff.value {
        continue;
      }
      var assignedA := AssignRoles(team);
      var assignedB := AssignRoles(teamB);
      best := Some(ScoreSplit(
        assignedA.GetOr(team), assignedB.GetOr(teamB), scoreA, scoreB, diff, true,
        if assignedA.Some? && assignedB.Some? then WithRoleAssignment else WithoutRoleAssignment));
      assert best == Some(rs[i]);
      minDiff := Some(diff);
    }
    assert rs[..|rs|] == rs;
  }

  /** Both teams of any evaluated candidate hold the players between them. */
  lemma EvaluationPartitions(players: seq<Player>, c: seq<nat>, finalScore: (seq<Player>, seq<Player>) -> int)
    requires Increasing(c) && Within(c, |players|)
    requires EvaluateCandidate(players, c, finalScore).Some?
    ensures var e := EvaluateCandidate(players, c, finalScore).value;
      Partition(e.teamA, e.teamB, players) && !e.fallbackUsed &&
      e.teamAScore + e.teamBScore == TeamScore(players) &&
      e.subPositionCount + e.mainRoleCount == |players|
  {
    var e := EvaluateCandidate(players, c, finalScore).value;
    SplitPartitionsPlayers(players, c);
    SplitPartitions(players, c);
    SplitScoresAddUp(players, c);
    RoleAssignmentKeepsScore(TeamOf(players, c));
    RoleAssignmentKeepsScore(Others(players, c));
    RoleAssignmentKeepsPlayers(TeamOf(players, c));
    RoleAssignmentKeepsPlayers(Others(players, c));
    SubAndMainRolesCoverTeam(e.teamA);
    SubAndMainRolesCoverTeam(e.teamB);
  }

  /** Both teams of any score-only record hold the players between them. */
  lemma ScoreRecordPartitions(players: seq<Player>, c: seq<nat>)
    requires Increasing(c) && Within(c, |players|)
    ensures var r := ScoreRecord(players, c);
      Partition(r.teamA, r.teamB, players) && r.teamAScore + r.teamBScore == TeamScore(players)
  {
    SplitPartitionsPlayers(players, c);
    SplitScoresAddUp(players, c);
    if RoleAssignment(TeamOf(players, c)).Some? {
      RoleAssignmentKeepsScore(TeamOf(players, c));
    }
    if RoleAssignment(Others(players, c)).Some? {
      RoleAssignmentKeepsScore(Others(players, c));
    }
  }

  /** Plan A's split, when there is one, holds exactly the players and is not marked as a fallback. */
  lemma PlanAPartitions(players: seq<Player>, finalScore: (seq<Player>, seq<Player>) -> int)
    requires |players| == PlayerCount
    ensures var planA := PlanA(players, finalScore);
      planA.Some? ==> Partition(planA.value.teamA, planA.value.teamB, players) && !planA.value.fallbackUsed
  {
    var cs := Candidates(PlayerCount);
    var es := Evaluations(players, cs, finalScore);
    LowestFirstIsFirstMinimum(es);
    if LowestFirst(es).Some? {
      var k :| FirstMinimumAt(es, k) && es[k] == LowestFirst(es);
      EvaluationPartitions(players, cs[k], finalScore);
    }
  }

  /** For ten players the score search always finds a split, and it holds exactly the players. */
  lemma ByScorePartitions(players: seq<Player>)
    requires |players| == PlayerCount
    ensures var byScore := ScoreFallback(players);
      byScore.Some? && Partition(byScore.value.teamA, byScore.value.teamB, players) && byScore.value.fallbackUsed
  {
    var cs := Candidates(PlayerCount);
    var rs := Records(players, cs);
    CandidatesNonEmpty(|players|);
    ClosestLastSome(rs);
    ClosestLastIsLastMinimum(rs);
    var k :| LastMinimumAt(rs, k) && rs[k] == ClosestLast(rs).value;
    ScoreRecordPartitions(players, cs[k]);
  }

  /**
   * `POST /make-teams`: anything but an array of exactly ten players is
   * refused; then plan A (only when every role is somebody's main role), the
   * soft fallback, and the score fallback are tried in that order.
   */
  method MakeTeams(body: Body, finalScore: (seq<Player>, seq<Player>) -> int) returns (response: Response)
    ensures body.NotAList? || |body.players| != PlayerCount ==> response == BadRequest(NeedTenPlayers)
    ensures body.PlayerList? && |body.players| == PlayerCount ==>
      var players := body.players;
      var planA := PlanA(players, finalScore);
      (EveryRoleCovered(players) && planA.Some? ==> response == Balanced(planA.value)) &&
      (!EveryRoleCovered(players) && planA.Some? ==> response == Balanced(planA.value.(fallbackUsed := true))) &&
      (planA.None? ==> response.ByScore? && Some(response.split) == ScoreFallback(players))
    ensures response.Balanced? ==>
      Partition(response.evaluation.teamA, response.evaluation.teamB, body.players) &&
      (response.evaluation.fallbackUsed <==> !EveryRoleCovered(body.players))
    ensures response.ByScore? ==>
      Partition(response.split.teamA, response.split.teamB, body.players) && response.split.fallbackUsed
    ensures response != BadRequest(AssignmentFailed)
  {
    if body.NotAList? || |body.players| != PlayerCount {
      return BadRequest(NeedTenPlayers);
    }
    var players := body.players;
    PlanAPartitions(players, finalScore);
    ByScorePartitions(players);

    var result: Option<Evaluation> := None;
    var sufficient := HasSufficientRoles(players);
    if sufficient {
      result := AssignTeams(players, finalScore);
      if result.None? {
        result := AssignTeamsWithSoftRoles(players, finalScore);
      }
    } else {
      result := AssignTeamsWithSoftRoles(players, finalScore);
    }
    if result.Some? {
      return Balanced(result.value);
    }
    var fallback := AssignTeamsByScore(players);
    if fallback.None? {
      // Ten players always give C(10, 5) candidates, so the score fallback
      // never comes back empty and the source's 400 is unreachable.
      assert false;
    }
    response := ByScore(fallback.value);
  }
}
