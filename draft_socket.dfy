/**
 * The real-time ban/pick draft over sockets (socket/draft.js): a dictionary
 * of rooms, each created by the first join, readied by both sides, driven
 * through a fixed 20-turn ban/pick order by manual selections and timeouts,
 * and then through a best-of-N series by host-posted match results and side
 * choices.
 *
 * Every event emitted to a room is recorded as a Broadcast in
 * the socket server's `sent` log; the room methods return the events they
 * emit, in order. The clock (`Date.now()`) is the `now` parameter, the
 * champion catalog is the `championIds` sequence, and `Math.random()` is a
 * nondeterministic choice among the champions still available.
 */
module DraftSocket {
  import opened Wrappers

  /** PER_TURN_TIME: the time allowed for one turn, in milliseconds. */
  const PerTurnTime: int := 30000

  datatype Side = Blue | Red
  datatype Phase = Ban | Pick

  /** A turn descriptor `{ type, team }` of the ban/pick order. */
  datatype Turn = Turn(kind: Phase, team: Side)

  /** A resolved turn `{ champion, team, type }`; a timed-out ban has no champion. */
  datatype Entry = Entry(champion: Option<string>, turn: Turn)

  /** `sideMap`: which team currently plays on which colour. */
  datatype SideMap = SideMap(blue: string, red: string)

  /**
   * One entry of `teamWins`. Adding 1 to a team that is not a key of the
   * table (`undefined + 1`) stores NaN, which no later comparison accepts.
   */
  datatype WinCount = Wins(n: nat) | NotANumber

  /** The `series` record of a room. */
  datatype Series = Series(teamWins: map<string, WinCount>, currentGame: int, resultPosted: bool, over: bool)

  /** The room object as sent with `room-status`. */
  datatype RoomView = RoomView(
    roomId: string, hostKey: string, blueTeam: string, redTeam: string, bo: int, mode: string,
    blueReady: bool, redReady: bool, sideMap: SideMap, series: Series,
    order: seq<Turn>, turnIndex: nat, history: seq<Entry>, timer: int)

  /** The events broadcast to a room, one constructor per event name. */
  datatype Event =
    | RoomStatus(room: RoomView)                                // 'room-status'
    | DraftStart(order: seq<Turn>, currentGame: int, hostKey: string)  // 'start-draft'
    | TimerTick(seconds: nat)                                   // 'timer'
    | DraftUpdate(entry: Entry)                                 // 'update-draft'
    | DraftFinished(history: seq<Entry>)                        // 'draft-finished'
    | SeriesFinished(blueWins: WinCount, redWins: WinCount)     // 'series-finished'
    | ChooseSide(loser: Side, nextGame: int)                    // 'choose-side'
    | NextDraft(currentGame: int, sideMap: SideMap)             // 'next-draft'

  /** One event emitted to every socket of a room. */
  datatype Broadcast = Broadcast(roomId: string, event: Event)

  function SideName(s: Side): string {
    match s
    case Blue => "blue"
    case Red => "red"
  }

  function PhaseName(p: Phase): string {
    match p
    case Ban => "ban"
    case Pick => "pick"
  }

  /** getBanPickOrder: the fixed 20-turn ban/pick order. */
  function BanPickOrder(): (order: seq<Turn>)
    ensures |order| == 20
  {
    [ Turn(Ban, Blue), Turn(Ban, Red),
      Turn(Ban, Blue), Turn(Ban, Red),
      Turn(Ban, Blue), Turn(Ban, Red),
      Turn(Pick, Blue), Turn(Pick, Red),
      Turn(Pick, Red), Turn(Pick, Blue),
      Turn(Pick, Blue), Turn(Pick, Red),
      Turn(Ban, Red), Turn(Ban, Blue),
      Turn(Ban, Red), Turn(Ban, Blue),
      Turn(Pick, Red), Turn(Pick, Blue),
      Turn(Pick, Blue), Turn(Pick, Red) ]
  }

  lemma BlueBanCount()
    ensures multiset(BanPickOrder())[Turn(Ban, Blue)] == 5
  {
  }

  lemma RedBanCount()
    ensures multiset(BanPickOrder())[Turn(Ban, Red)] == 5
  {
  }

  lemma BluePickCount()
    ensures multiset(BanPickOrder())[Turn(Pick, Blue)] == 5
  {
  }

  lemma RedPickCount()
    ensures multiset(BanPickOrder())[Turn(Pick, Red)] == 5
  {
  }

  /** The order holds five bans and five picks for each side. */
  lemma BanPickOrderBalanced(t: Turn)
    ensures multiset(BanPickOrder())[t] == 5
  {
    match t
    case Turn(Ban, Blue) => BlueBanCount();
    case Turn(Ban, Red) => RedBanCount();
    case Turn(Pick, Blue) => BluePickCount();
    case Turn(Pick, Red) => RedPickCount();
  }

  /**
   * The seconds shown by `tick`: the remaining time `remain`, given in
   * milliseconds, rounded up to whole seconds and never below 0.
   */
  function DisplaySeconds(remain: int): (s: nat)
    ensures s == 0 <==> remain <= 0
    ensures remain > 0 ==> (s - 1) * 1000 < remain <= s * 1000
  {
    if remain <= 0 then 0 else (remain + 999) / 1000
  }

  /** Half of `bo` rounded up: the wins that decide a best-of-`bo` series. */
  function NeedWins(bo: int): (need: int)
    ensures bo <= 2 * need <= bo + 1
  {
    (bo + 1) / 2
  }

  /** The champion of every history entry, in order. */
  function Used(history: seq<Entry>): (used: seq<Option<string>>)
    ensures |used| == |history|
    ensures forall i :: 0 <= i < |history| ==> used[i] == history[i].champion
  {
    seq(|history|, i requires 0 <= i < |history| => history[i].champion)
  }

  /** randomChampion's `remain`: the catalog, in order, without the used champions. */
  function Remaining(championIds: seq<string>, used: seq<Option<string>>): (remain: seq<string>)
    ensures forall c :: c in remain <==> c in championIds && Some(c) !in used
    ensures |remain| <= |championIds|
  {
    if championIds == [] then []
    else
      var rest := Remaining(championIds[1..], used);
      if Some(championIds[0]) in used then rest else [championIds[0]] + rest
  }

  /**
   * randomChampion: a champion of the catalog that is not used yet, chosen at
   * random; `undefined` when none is left.
   */
  method RandomChampion(championIds: seq<string>, used: seq<Option<string>>) returns (champion: Option<string>)
    ensures champion.None? <==> Remaining(championIds, used) == []
    ensures champion.Some? ==> champion.value in championIds && Some(champion.value) !in used
  {
    var remain := Remaining(championIds, used);
    if |remain| == 0 {
      champion := None;
    } else {
      var i :| 0 <= i < |remain|;
      champion := Some(remain[i]);
    }
  }

  /**
   * How handleTimeout resolves `turn`: a ban to no champion, a pick to a
   * champion of the catalog that is not in `history`, or to none only when
   * every champion of the catalog is in `history`.
   */
  predicate TimeoutEntry(e: Entry, turn: Turn, championIds: seq<string>, history: seq<Entry>) {
    e.turn == turn &&
    (turn.kind == Ban ==> e.champion == None) &&
    (turn.kind == Pick ==>
      (e.champion == None <==> Remaining(championIds, Used(history)) == []) &&
      (e.champion.Some? ==> e.champion.value in championIds &&
                            forall i :: 0 <= i < |history| ==> history[i].champion != e.champion))
  }

  function IncrementedWins(teamWins: map<string, WinCount>, team: string): (w: WinCount)
    ensures team in teamWins && teamWins[team].Wins? ==> w == Wins(teamWins[team].n + 1)
    ensures team !in teamWins || teamWins[team].NotANumber? ==> w == NotANumber
  {
    if team !in teamWins then NotANumber
    else match teamWins[team]
      case Wins(n) => Wins(n + 1)
      case NotANumber => NotANumber
  }

  /** The winner's count reaches the wins needed; never for NaN. */
  predicate Clinched(w: WinCount, bo: int) {
    w.Wins? && w.n >= NeedWins(bo)
  }

  /** The team that did not win: red when blue won, blue otherwise. */
  function LoserTeam(blueTeam: string, redTeam: string, winner: string): string {
    if winner == blueTeam then redTeam else blueTeam
  }

  /** The colour the side map gives the losing team: blue when it plays blue, red otherwise. */
  function LoserSide(sideMap: SideMap, loserTeam: string): (side: Side)
    ensures side == Blue <==> sideMap.blue == loserTeam
  {
    if sideMap.blue == loserTeam then Blue else Red
  }

  /**
   * Between two different teams whose side map is current, the side named
   * for the loser is the one the losing team plays on, never the winner's.
   */
  lemma {:induction false} LoserSideIsLosersColour(blueTeam: string, redTeam: string, winner: string)
    requires blueTeam != redTeam
    requires winner == blueTeam || winner == redTeam
    ensures var side := LoserSide(SideMap(blueTeam, redTeam), LoserTeam(blueTeam, redTeam, winner));
            (side == Blue ==> blueTeam != winner) && (side == Red ==> redTeam != winner) &&
            (side == Blue <==> winner == redTeam)
  {
    if winner == blueTeam {
      assert LoserTeam(blueTeam, redTeam, winner) == redTeam;
    } else {
      assert LoserTeam(blueTeam, redTeam, winner) == blueTeam;
    }
  }

  function Tagged(roomId: string, events: seq<Event>): (out: seq<Broadcast>)
    ensures |out| == |events|
    ensures forall i :: 0 <= i < |events| ==> out[i] == Broadcast(roomId, events[i])
  {
    seq(|events|, i requires 0 <= i < |events| => Broadcast(roomId, events[i]))
  }

  /** One room record of the `rooms` dictionary, updated in place by the handlers. */
  class Room {
    const roomId: string
    const hostKey: string
    const bo: int
    const mode: string
    /** The guard of handleSideChosen reads `room.hostId`, which handleJoin never sets. */
    const hostId: Option<string>
    var blueTeam: string
    var redTeam: string
    var blueReady: bool
    var redReady: bool
    var sideMap: SideMap
    var series: Series
    /** Unassigned (empty) until startDraft. */
    var order: seq<Turn>
    var turnIndex: nat
    var history: seq<Entry>
    /** The deadline of the current turn. */
    var timer: int

    /**
     * The room's invariant with `pending` resolved turns not yet counted by
     * `turnIndex` (1 between applyPick and nextTurn, 0 otherwise): the side
     * map follows the teams, both teams have a win count, the order is the
     * fixed one once assigned, and `history` is the prefix of the order
     * resolved so far.
     */
    ghost predicate Consistent(pending: nat)
      reads this
    {
      sideMap == SideMap(blueTeam, redTeam) &&
      blueTeam in series.teamWins && redTeam in series.teamWins &&
      (order == [] || order == BanPickOrder()) &&
      turnIndex + pending <= |order| &&
      |history| == turnIndex + pending &&
      forall i :: 0 <= i < |history| ==> history[i].turn == order[i]
    }

    ghost predicate Valid()
      reads this
    {
      Consistent(0)
    }

    /** startDraft has assigned the order. */
    predicate Started()
      reads this
    {
      order != []
    }

    function View(): (v: RoomView)
      reads this
    {
      RoomView(roomId, hostKey, blueTeam, redTeam, bo, mode, blueReady, redReady,
               sideMap, series, order, turnIndex, history, timer)
    }

    /** The state handleJoin gives a new room. */
    ghost predicate Initial(roomId: string, hostKey: string, blueTeam: string, redTeam: string, bo: int, mode: string)
      reads this
    {
      this.roomId == roomId && this.hostKey == hostKey && this.bo == bo && this.mode == mode &&
      this.blueTeam == blueTeam && this.redTeam == redTeam &&
      !blueReady && !redReady && sideMap == SideMap(blueTeam, redTeam) &&
      series == Series(map[blueTeam := Wins(0), redTeam := Wins(0)], 1, false, false) &&
      hostId == None && order == [] && turnIndex == 0 && history == []
    }

    /**
     * After nextTurn has moved the cursor: the draft finishes (`draft-finished`
     * with the whole history, no further tick) exactly when the cursor reaches
     * the end of the order; otherwise the deadline is re-armed and the
     * immediate tick shows the full 30 seconds and schedules the next one.
     */
    ghost predicate Continued(oldTimer: int, now: int, events: seq<Event>, rescheduled: bool)
      reads this
    {
      if turnIndex == |order| then
        timer == oldTimer && events == [DraftFinished(history)] && !rescheduled
      else
        timer == now + PerTurnTime && events == [TimerTick(30)] && rescheduled
    }

    /** The room literal of handleJoin. */
    constructor (roomId: string, hostKey: string, blueTeam: string, redTeam: string, bo: int, mode: string)
      ensures Valid()
      ensures Initial(roomId, hostKey, blueTeam, redTeam, bo, mode)
    {
      this.roomId := roomId;
      this.hostKey := hostKey;
      this.bo := bo;
      this.mode := mode;
      this.hostId := None;
      this.blueTeam := blueTeam;
      this.redTeam := redTeam;
      blueReady := false;
      redReady := false;
      sideMap := SideMap(blueTeam, redTeam);
      series := Series(map[blueTeam := Wins(0), redTeam := Wins(0)], 1, false, false);
      order := [];
      turnIndex := 0;
      history := [];
      timer := 0;
    }

    /**
     * What handleReady does to the room for a caller that joined with `role`:
     * only that side's flag is set and the room is broadcast with the new
     * flags; once both flags are set the draft starts (order, cursor, history,
     * deadline, posted-result flag, start and tick events), and otherwise
     * nothing else changes and nothing else is sent.
     */
    twostate predicate ReadyOutcome(role: string, now: int, out: seq<Event>)
      reads this
    {
      blueReady == (old(blueReady) || role == "blue") &&
      redReady == (old(redReady) || role == "red") &&
      |out| >= 1 && out[0] == RoomStatus(old(View()).(blueReady := blueReady, redReady := redReady)) &&
      (blueReady && redReady ==>
         order == BanPickOrder() && turnIndex == 0 && history == [] && timer == now + PerTurnTime &&
         series == old(series).(resultPosted := false) &&
         out[1..] == [DraftStart(BanPickOrder(), series.currentGame, hostKey), TimerTick(30)]) &&
      (!(blueReady && redReady) ==>
         order == old(order) && turnIndex == old(turnIndex) && history == old(history) &&
         timer == old(timer) && series == old(series) && out == [out[0]])
    }

    /**
     * handleReady for a caller whose socket joined with `role`: set that
     * side's flag only, broadcast the room, and start the draft exactly when
     * both flags are set.
     */
    method Ready(role: string, championIds: seq<string>, now: int) returns (out: seq<Event>)
      requires Valid()
      modifies this`blueReady, this`redReady, this`order, this`turnIndex, this`history, this`timer, this`series
      ensures Valid()
      ensures ReadyOutcome(role, now, out)
    {
      if role == "blue" {
        blueReady := true;
      }
      if role == "red" {
        redReady := true;
      }
      out := [RoomStatus(View())];
      if blueReady && redReady {
        var started := StartDraft(championIds, now);
        out := out + started;
      }
    }

    /**
     * startDraft: assign the order, reset the cursor, the history and the
     * posted-result flag, arm the deadline, announce the draft, and tick.
     */
    method StartDraft(championIds: seq<string>, now: int) returns (out: seq<Event>)
      requires Valid()
      modifies this`order, this`turnIndex, this`history, this`timer, this`series
      ensures Valid() && Started()
      ensures order == BanPickOrder() && turnIndex == 0 && history == [] && timer == now + PerTurnTime
      ensures series == old(series).(resultPosted := false)
      ensures out == [DraftStart(BanPickOrder(), series.currentGame, hostKey), TimerTick(30)]
    {
      order := BanPickOrder();
      turnIndex := 0;
      history := [];
      timer := now + PerTurnTime;
      series := series.(resultPosted := false);
      out := [DraftStart(order, series.currentGame, hostKey)];
      var ticked, _ := Tick(championIds, now);
      out := out + ticked;
    }

    /**
     * What one tick does: before the deadline only the remaining seconds are
     * shown; once it has passed, a zero is shown and the current turn is
     * resolved by timeout (one entry appended, announced, then the draft
     * continues or finishes).
     */
    twostate predicate TickOutcome(championIds: seq<string>, now: int, out: seq<Event>, rescheduled: bool)
      reads this
    {
      (old(timer) - now > 0 ==>
         turnIndex == old(turnIndex) && history == old(history) && timer == old(timer) &&
         out == [TimerTick(DisplaySeconds(old(timer) - now))] && rescheduled == (turnIndex < |order|)) &&
      (old(timer) - now <= 0 ==>
         turnIndex == old(turnIndex) + 1 && |history| == |old(history)| + 1 &&
         history[..|old(history)|] == old(history) &&
         old(turnIndex) < |order| &&
         TimeoutEntry(history[|old(history)|], order[old(turnIndex)], championIds, old(history)) &&
         |out| == 3 && out[0] == TimerTick(0) && out[1] == DraftUpdate(history[|old(history)|]) &&
         Continued(old(timer), now, out[2..], rescheduled))
    }

    /**
     * tick: show the remaining seconds; when the deadline has passed, resolve
     * the current turn by timeout. `rescheduled` tells whether a further tick
     * was scheduled. A passed deadline with the order exhausted dereferences
     * a missing turn in the source, so it is excluded.
     */
    method Tick(championIds: seq<string>, now: int) returns (out: seq<Event>, rescheduled: bool)
      requires Valid() && Started()
      requires timer - now <= 0 ==> turnIndex < |order|
      modifies this`turnIndex, this`history, this`timer
      decreases |order| - turnIndex, 2
      ensures Valid()
      ensures TickOutcome(championIds, now, out, rescheduled)
    {
      var remain := timer - now;
      out := [TimerTick(DisplaySeconds(remain))];
      if remain <= 0 {
        var resolved;
        resolved, rescheduled := HandleTimeout(championIds, now);
        out := out + resolved;
        return;
      }
      rescheduled := turnIndex < |order|;
    }

    /**
     * handleTimeout: a ban resolves to no champion, a pick to a random
     * champion not yet in the history; then the turn is applied and advanced.
     */
    method HandleTimeout(championIds: seq<string>, now: int) returns (out: seq<Event>, rescheduled: bool)
      requires Valid() && Started() && turnIndex < |order|
      modifies this`turnIndex, this`history, this`timer
      decreases |order| - turnIndex, 1
      ensures Valid()
      ensures turnIndex == old(turnIndex) + 1 && |history| == |old(history)| + 1
      ensures history[..|old(history)|] == old(history)
      ensures TimeoutEntry(history[|old(history)|], order[old(turnIndex)], championIds, old(history))
      ensures |out| == 2 && out[0] == DraftUpdate(history[|old(history)|])
      ensures Continued(old(timer), now, out[1..], rescheduled)
    {
      var cur := order[turnIndex];
      var champion: Option<string>;
      if cur.kind == Ban {
        champion := None;
      } else {
        champion := RandomChampion(championIds, Used(history));
      }
      out := ApplyPick(champion, cur);
      var rest;
      rest, rescheduled := NextTurn(championIds, now);
      out := out + rest;
    }

    /**
     * What a submitted selection does: it is applied exactly when the current
     * turn exists with the submitted team and type; then the one entry is
     * appended and announced and the draft continues or finishes, and
     * otherwise nothing changes and nothing is sent.
     */
    twostate predicate SelectOutcome(champion: Option<string>, team: string, kind: string, now: int,
                                     applied: bool, out: seq<Event>, rescheduled: bool)
      reads this
    {
      (applied <==>
         old(turnIndex) < |order| &&
         SideName(order[old(turnIndex)].team) == team && PhaseName(order[old(turnIndex)].kind) == kind) &&
      (!applied ==>
         turnIndex == old(turnIndex) && history == old(history) && timer == old(timer) && out == []) &&
      (applied ==>
         turnIndex == old(turnIndex) + 1 &&
         history == old(history) + [Entry(champion, order[old(turnIndex)])] &&
         |out| == 2 && out[0] == DraftUpdate(Entry(champion, order[old(turnIndex)])) &&
         Continued(old(timer), now, out[1..], rescheduled))
    }

    /**
     * handleSelect on a started draft: applied only when the current turn
     * exists and its team and type are the submitted ones; otherwise nothing
     * changes and nothing is sent.
     */
    method Select(champion: Option<string>, team: string, kind: string, championIds: seq<string>, now: int)
      returns (applied: bool, out: seq<Event>, rescheduled: bool)
      requires Valid() && Started()
      modifies this`turnIndex, this`history, this`timer
      ensures Valid()
      ensures SelectOutcome(champion, team, kind, now, applied, out, rescheduled)
    {
      if turnIndex >= |order| {
        return false, [], false;
      }
      var cur := order[turnIndex];
      if SideName(cur.team) != team || PhaseName(cur.kind) != kind {
        return false, [], false;
      }
      applied := true;
      out := ApplyPick(champion, cur);
      var rest;
      rest, rescheduled := NextTurn(championIds, now);
      out := out + rest;
    }

    /** applyPick: append the resolved turn to the history and announce it. */
    method ApplyPick(champion: Option<string>, turn: Turn) returns (out: seq<Event>)
      requires Valid() && turnIndex < |order| && turn == order[turnIndex]
      modifies this`history
      ensures Consistent(1)
      ensures history == old(history) + [Entry(champion, turn)]
      ensures out == [DraftUpdate(Entry(champion, turn))]
    {
      history := history + [Entry(champion, turn)];
      out := [DraftUpdate(Entry(champion, turn))];
    }

    /** nextTurn: count the appended turn, then finish the draft or re-arm the deadline and tick. */
    method NextTurn(championIds: seq<string>, now: int) returns (out: seq<Event>, rescheduled: bool)
      requires Consistent(1)
      modifies this`turnIndex, this`history, this`timer
      decreases |order| - turnIndex, 0
      ensures Valid()
      ensures turnIndex == old(turnIndex) + 1 && history == old(history)
      ensures Continued(old(timer), now, out, rescheduled)
    {
      turnIndex := turnIndex + 1;
      if turnIndex >= |order| {
        out := [DraftFinished(history)];
        rescheduled := false;
        return;
      }
      timer := now + PerTurnTime;
      out, rescheduled := Tick(championIds, now);
    }

    /**
     * What a posted match result does: accepted exactly with the host key
     * while no result is posted; then only the winner's count rises by one,
     * the series is over exactly when it is clinched, and either the final
     * score is sent or both flags are cleared and the loser's side is asked
     * to choose. A rejected result changes nothing and sends nothing.
     */
    twostate predicate MatchResultOutcome(winner: string, key: string, accepted: bool, out: seq<Event>)
      reads this
    {
      accepted == (key == hostKey && !old(series.resultPosted)) &&
      (!accepted ==>
         series == old(series) && blueReady == old(blueReady) && redReady == old(redReady) && out == []) &&
      (accepted ==>
         series.resultPosted && series.currentGame == old(series.currentGame) &&
         series.teamWins == old(series.teamWins)[winner := IncrementedWins(old(series.teamWins), winner)] &&
         series.over == (old(series.over) || Clinched(series.teamWins[winner], bo))) &&
      (accepted && Clinched(series.teamWins[winner], bo) ==>
         blueReady == old(blueReady) && redReady == old(redReady) &&
         blueTeam in series.teamWins && redTeam in series.teamWins &&
         out == [SeriesFinished(series.teamWins[blueTeam], series.teamWins[redTeam])]) &&
      (accepted && !Clinched(series.teamWins[winner], bo) ==>
         !blueReady && !redReady &&
         out == [ChooseSide(LoserSide(sideMap, LoserTeam(blueTeam, redTeam, winner)), series.currentGame + 1)])
    }

    /**
     * handleMatchResult: accepted only with the host key and while no result
     * is posted for this game. It marks the result posted and adds one win to
     * `winner`; the series is over once the winner has ceil(bo/2) wins,
     * otherwise both sides must ready up again and the loser's side is asked
     * to choose.
     */
    method MatchResult(winner: string, key: string) returns (accepted: bool, out: seq<Event>)
      requires Valid()
      modifies this`series, this`blueReady, this`redReady
      ensures Valid()
      ensures MatchResultOutcome(winner, key, accepted, out)
    {
      if key != hostKey || series.resultPosted {
        return false, [];
      }
      accepted := true;
      var wins := IncrementedWins(series.teamWins, winner);
      series := series.(resultPosted := true, teamWins := series.teamWins[winner := wins]);
      if Clinched(wins, bo) {
        series := series.(over := true);
        out := [SeriesFinished(series.teamWins[blueTeam], series.teamWins[redTeam])];
        return;
      }
      var loserSide := LoserSide(sideMap, LoserTeam(blueTeam, redTeam, winner));
      blueReady, redReady := false, false;
      out := [ChooseSide(loserSide, series.currentGame + 1)];
    }

    /**
     * handleSideChosen: accepted only from the socket recorded as `hostId`.
     * When the chosen side differs from the loser's, the two teams trade
     * colours and the side map is rebuilt; the game number moves on by one
     * and the win counts are untouched.
     */
    method SideChosen(callerId: string, loser: string, side: string) returns (accepted: bool, out: seq<Event>)
      requires Valid()
      modifies this`blueTeam, this`redTeam, this`sideMap, this`series
      ensures Valid()
      ensures accepted == (hostId == Some(callerId))
      ensures !accepted ==>
        blueTeam == old(blueTeam) && redTeam == old(redTeam) && sideMap == old(sideMap) &&
        series == old(series) && out == []
      ensures accepted && side != loser ==> blueTeam == old(redTeam) && redTeam == old(blueTeam)
      ensures accepted && side == loser ==> blueTeam == old(blueTeam) && redTeam == old(redTeam)
      ensures accepted ==>
        sideMap == SideMap(blueTeam, redTeam) &&
        series == old(series).(currentGame := old(series.currentGame) + 1) &&
        out == [NextDraft(series.currentGame, sideMap)]
    {
      if hostId != Some(callerId) {
        return false, [];
      }
      accepted := true;
      if side != loser {
        blueTeam, redTeam := redTeam, blueTeam;
        sideMap := SideMap(blueTeam, redTeam);
      }
      series := series.(currentGame := series.currentGame + 1);
      out := [NextDraft(series.currentGame, sideMap)];
    }
  }

  /** The socket server: the `rooms` dictionary, the champion catalog and the broadcasts sent. */
  class DraftServer {
    var rooms: map<string, Room>
    var championIds: seq<string>
    var sent: seq<Broadcast>

    /**
     * Every room is valid and filed under its own id, none has a `hostId`,
     * and no two ids share a room object.
     */
    ghost predicate Valid()
      reads this, rooms.Values
    {
      (forall id :: id in rooms ==> rooms[id].Valid() && rooms[id].roomId == id && rooms[id].hostId == None) &&
      (forall a, b :: a in rooms && b in rooms && a != b ==> rooms[a] != rooms[b])
    }

    /** The room a handler for `roomId` may update. */
    function RoomAt(roomId: string): set<object>
      reads this
    {
      if roomId in rooms then {rooms[roomId]} else {}
    }

    /** The server once the champion catalog has been loaded (empty if the fetch failed). */
    constructor (championIds: seq<string>)
      ensures Valid()
      ensures rooms == map[] && this.championIds == championIds && sent == []
    {
      rooms := map[];
      this.championIds := championIds;
      sent := [];
    }

    /**
     * handleJoin: create the room only if none exists for `roomId`; a later
     * join leaves the existing room as it is. Either way the room is
     * broadcast.
     */
    method HandleJoin(roomId: string, blueTeam: string, redTeam: string, bo: int, mode: string, hostKey: string)
      requires Valid()
      modifies this
      ensures Valid() && championIds == old(championIds)
      ensures roomId in rooms
      ensures roomId in old(rooms) ==> rooms == old(rooms)
      ensures roomId !in old(rooms) ==>
        fresh(rooms[roomId]) && rooms == old(rooms)[roomId := rooms[roomId]] &&
        rooms[roomId].Initial(roomId, hostKey, blueTeam, redTeam, bo, mode)
      ensures sent == old(sent) + [Broadcast(roomId, RoomStatus(rooms[roomId].View()))]
    {
      if roomId !in rooms {
        var room := new Room(roomId, hostKey, blueTeam, redTeam, bo, mode);
        rooms := rooms[roomId := room];
      }
      sent := sent + [Broadcast(roomId, RoomStatus(rooms[roomId].View()))];
    }

    /** handleReady for a socket that joined `roomId` as `role`; a missing room is ignored. */
    method HandleReady(roomId: string, role: string, now: int) returns (out: seq<Event>)
      requires Valid()
      modifies this`sent, RoomAt(roomId)
      ensures Valid()
      ensures roomId !in rooms ==> out == []
      ensures sent == old(sent) + Tagged(roomId, out)
      ensures roomId in rooms ==> rooms[roomId].ReadyOutcome(role, now, out)
      ensures roomId in rooms && rooms[roomId].blueReady && rooms[roomId].redReady ==> rooms[roomId].Started()
    {
      out := [];
      if roomId in rooms {
        var room := rooms[roomId];
        out := room.Ready(role, championIds, now);
        sent := sent + Tagged(roomId, out);
      }
    }

    /**
     * handleSelect: a missing room, a finished order or a team or type other
     * than the current turn's changes nothing and sends nothing. The draft
     * must have started: the source dereferences the unassigned order
     * otherwise.
     */
    method HandleSelect(roomId: string, champion: Option<string>, team: string, kind: string, now: int)
      returns (applied: bool, out: seq<Event>, rescheduled: bool)
      requires Valid()
      requires roomId in rooms ==> rooms[roomId].Started()
      modifies this`sent, RoomAt(roomId)
      ensures Valid()
      ensures roomId !in rooms ==> !applied && out == []
      ensures sent == old(sent) + Tagged(roomId, out)
      ensures roomId in rooms ==> rooms[roomId].SelectOutcome(champion, team, kind, now, applied, out, rescheduled)
      ensures roomId in rooms && !applied ==> unchanged(rooms[roomId]) && sent == old(sent)
    {
      applied, out, rescheduled := false, [], false;
      if roomId in rooms {
        var room := rooms[roomId];
        applied, out, rescheduled := room.Select(champion, team, kind, championIds, now);
        sent := sent + Tagged(roomId, out);
      }
    }

    /** One firing of the tick timer for `roomId`; a missing room is ignored. */
    method HandleTick(roomId: string, now: int) returns (out: seq<Event>, rescheduled: bool)
      requires Valid()
      requires roomId in rooms ==> rooms[roomId].Started()
      requires roomId in rooms && rooms[roomId].timer - now <= 0 ==>
        rooms[roomId].turnIndex < |rooms[roomId].order|
      modifies this`sent, RoomAt(roomId)
      ensures Valid()
      ensures roomId !in rooms ==> !rescheduled && out == []
      ensures sent == old(sent) + Tagged(roomId, out)
      ensures roomId in rooms ==> rooms[roomId].TickOutcome(championIds, now, out, rescheduled)
      ensures roomId in rooms ==>
        rooms[roomId].turnIndex <= |rooms[roomId].order| && |rooms[roomId].history| == rooms[roomId].turnIndex
    {
      out, rescheduled := [], false;
      if roomId in rooms {
        var room := rooms[roomId];
        out, rescheduled := room.Tick(championIds, now);
        sent := sent + Tagged(roomId, out);
      }
    }

    /** handleMatchResult; a missing room is ignored. */
    method HandleMatchResult(roomId: string, winner: string, key: string) returns (accepted: bool, out: seq<Event>)
      requires Valid()
      modifies this`sent, RoomAt(roomId)
      ensures Valid()
      ensures roomId !in rooms ==> !accepted && out == []
      ensures sent == old(sent) + Tagged(roomId, out)
      ensures roomId in rooms ==> rooms[roomId].MatchResultOutcome(winner, key, accepted, out)
    {
      accepted, out := false, [];
      if roomId in rooms {
        var room := rooms[roomId];
        accepted, out := room.MatchResult(winner, key);
        sent := sent + Tagged(roomId, out);
      }
    }

    /**
     * handleSideChosen from socket `callerId`. No room ever has a `hostId`,
     * so the guard rejects every call and nothing changes.
     */
    method HandleSideChosen(roomId: string, callerId: string, loser: string, side: string) returns (accepted: bool)
      requires Valid()
      modifies this`sent, RoomAt(roomId)
      ensures Valid()
      ensures !accepted && sent == old(sent)
      ensures roomId in rooms ==> unchanged(rooms[roomId])
    {
      accepted := false;
      if roomId in rooms {
        var room := rooms[roomId];
        var out;
        accepted, out := room.SideChosen(callerId, loser, side);
        sent := sent + Tagged(roomId, out);
      }
    }
  }
}
