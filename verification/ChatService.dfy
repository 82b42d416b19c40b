/**
 The chat turns of one conversation as far as the stored history goes, the trigger that dispatches
 its compaction, and the in-process record of active users.
 */
module ChatService {
  import opened Common
  import opened Summarization

  // ---------------------------------------------------------------------------
  // One turn
  // ---------------------------------------------------------------------------

  /** How the agent run of a turn ends: with an answer, with an exception that is turned into an
      error response (the user's message is committed), or with one that rolls the request back. The
      compaction an answered turn may dispatch is sent before the request commits: `early` says
      that the task reads the history before that. */
  datatype Turn = Answered(text: string, early: bool) | Rejected | RolledBack

  /** The rows of one turn: both get the time of the transaction, whatever time the service gives them. */
  datatype RowIds = RowIds(user: string, assistant: string)

  function Added(rows: Table, c: string, content: string, ids: RowIds, now: int, turn: Turn): Table {
    var asked := rows[ids.user := Message(c, "user", content, now)];
    match turn
    case Answered(text, _) => asked[ids.assistant := Message(c, "assistant", text, now)]
    case Rejected => asked
    case RolledBack => rows
  }

  predicate Dispatches(stored: nat, turn: Turn) {
    turn.Answered? && (stored + 1) % 20 == 0
  }

  class Messages {
    var rows: Table

    constructor ()
      ensures rows == map[]
    {
      rows := map[];
    }

    /** `history` is what the query for the conversation returns, after the user's message was added and
        before the answer is. */
    method SendMessage(c: string, content: string, ids: RowIds, now: int, history: seq<string>, turn: Turn)
      returns (dispatched: bool)
      requires ids.user !in rows && ids.assistant !in rows && ids.user != ids.assistant
      requires Listing(rows[ids.user := Message(c, "user", content, now)], c, history)
      modifies this
      ensures rows == Added(old(rows), c, content, ids, now, turn)
      ensures dispatched == Dispatches(|Ids(old(rows), c)|, turn)
    {
      var before := rows;
      rows := rows[ids.user := Message(c, "user", content, now)];
      AddedRows(before, c, content, ids, now, Rejected);
      ListingSize(rows, c, history);
      match turn {
        case Answered(text, _) =>
          rows := rows[ids.assistant := Message(c, "assistant", text, now)];
          dispatched := |history| > 0 && |history| % 20 == 0;
        case Rejected =>
          dispatched := false;
        case RolledBack =>
          rows := before;
          dispatched := false;
      }
    }
  }

  function AddedLength(turn: Turn): nat {
    match turn
    case Answered(_, _) => 2
    case Rejected => 1
    case RolledBack => 0
  }

  /** The rows of a turn, with their roles and texts; no other row changes. */
  lemma TurnRows(rows: Table, c: string, content: string, ids: RowIds, now: int, turn: Turn)
    requires ids.user !in rows && ids.assistant !in rows && ids.user != ids.assistant
    ensures var t := Added(rows, c, content, ids, now, turn);
            && t.Keys == rows.Keys + (match turn
                                      case Answered(_, _) => {ids.user, ids.assistant}
                                      case Rejected => {ids.user}
                                      case RolledBack => {})
            && (forall id <- rows :: t[id] == rows[id])
            && (!turn.RolledBack? ==> t[ids.user] == Message(c, "user", content, now))
            && (turn.Answered? ==> t[ids.assistant] == Message(c, "assistant", turn.text, now))
  {
  }

  lemma OneRow(rows: Table, c: string, id: string, m: Message)
    requires id !in rows && m.conversation == c
    ensures |Ids(rows[id := m], c)| == |Ids(rows, c)| + 1
  {
    assert Ids(rows[id := m], c) == Ids(rows, c) + {id};
  }

  lemma AddedRows(rows: Table, c: string, content: string, ids: RowIds, now: int, turn: Turn)
    requires ids.user !in rows && ids.assistant !in rows && ids.user != ids.assistant
    ensures |Ids(Added(rows, c, content, ids, now, turn), c)|
            == |Ids(rows, c)| + AddedLength(turn)
  {
    var m := Message(c, "user", content, now);
    OneRow(rows, c, ids.user, m);
    if turn.Answered? {
      OneRow(rows[ids.user := m], c, ids.assistant, Message(c, "assistant", turn.text, now));
    }
  }

  /** Since the two rows of an answered turn carry one time stamp, a later read may return the answer
      before the question. */
  lemma AnswerMayPrecede(rows: Table, c: string, content: string, ids: RowIds, now: int, turn: Turn, order: seq<string>)
    requires ids.user !in rows && ids.assistant !in rows && ids.user != ids.assistant && turn.Answered?
    requires Listing(rows, c, order) && NoneAfter(rows, c, now)
    ensures Listing(Added(rows, c, content, ids, now, turn), c, order + [ids.user, ids.assistant])
    ensures Listing(Added(rows, c, content, ids, now, turn), c, order + [ids.assistant, ids.user])
  {
    var q, a := Message(c, "user", content, now), Message(c, "assistant", turn.text, now);
    ListingSnoc(rows, c, order, ids.user, q);
    ListingSnoc(rows[ids.user := q], c, order + [ids.user], ids.assistant, a);
    ListingSnoc(rows, c, order, ids.assistant, a);
    ListingSnoc(rows[ids.assistant := a], c, order + [ids.assistant], ids.user, q);
    assert rows[ids.user := q][ids.assistant := a] == rows[ids.assistant := a][ids.user := q];
    assert order + [ids.user] + [ids.assistant] == order + [ids.user, ids.assistant];
    assert order + [ids.assistant] + [ids.user] == order + [ids.assistant, ids.user];
  }

  ghost predicate NoneAfter(rows: Table, c: string, now: int) {
    forall id <- Ids(rows, c) :: rows[id].createdAt <= now
  }

  lemma ListingSnoc(rows: Table, c: string, order: seq<string>, id: string, m: Message)
    requires Listing(rows, c, order) && id !in rows && m.conversation == c
    requires NoneAfter(rows, c, m.createdAt)
    ensures Listing(rows[id := m], c, order + [id]) && NoneAfter(rows[id := m], c, m.createdAt)
  {
    var t, longer := rows[id := m], order + [id];
    assert Ids(t, c) == Ids(rows, c) + {id};
    forall x | x in Ids(t, c)
      ensures x in longer
    {
      if x != id {
        assert x in order;
      }
    }
    forall i | 0 <= i < |order|
      ensures longer[i] in Ids(rows, c) && longer[i] == order[i]
    {
    }
  }

  // ---------------------------------------------------------------------------
  // Whole conversations
  // ---------------------------------------------------------------------------

  /** What the task makes of `read` rows if `arrivals` more are committed in the meantime. */
  function CompactedLength(read: nat, arrivals: nat): nat {
    (if read < MIN_MESSAGES then read else KEEP_TAIL + 1) + arrivals
  }

  lemma CompactedLengthIsRight(table: Table, c: string, order: seq<string>, arrivals: Table, text: string, id: string,
                               later: seq<string>)
    requires Listing(table, c, order) && id !in table && id !in arrivals && arrivals.Keys !! table.Keys
    requires |order| >= MIN_MESSAGES ==> order[0] in table
    requires var t := if |order| < MIN_MESSAGES then table + arrivals
                      else Compacted(table, c, order, arrivals, text, id);
             Listing(t, c, later)
    ensures |later| == CompactedLength(|order|, |Ids(arrivals, c)|)
  {
    if |order| < MIN_MESSAGES {
      ListingSize(table, c, order);
      ListingSize(table + arrivals, c, later);
      assert Ids(table + arrivals, c) == Ids(table, c) + Ids(arrivals, c);
      assert Ids(table, c) !! Ids(arrivals, c);
    } else {
      RowsLeft(table, c, order, arrivals, text, id, later);
    }
  }

  /** The stored length after a turn, with a dispatched task done before the next turn. A task that reads
      early misses the two rows of the turn that dispatched it. */
  function AfterTurn(stored: nat, turn: Turn): nat {
    if Dispatches(stored, turn)
    then (if turn.early then CompactedLength(stored, 2) else CompactedLength(stored + 2, 0))
    else stored + AddedLength(turn)
  }

  function Stored(start: nat, turns: seq<Turn>): nat {
    if turns == [] then start else AfterTurn(Stored(start, turns[..|turns| - 1]), turns[|turns| - 1])
  }

  function RejectedIn(turns: seq<Turn>): nat {
    if turns == [] then 0 else RejectedIn(turns[..|turns| - 1]) + if turns[|turns| - 1].Rejected? then 1 else 0
  }

  function AnsweredIn(turns: seq<Turn>): nat {
    if turns == [] then 0 else AnsweredIn(turns[..|turns| - 1]) + if turns[|turns| - 1].Answered? then 1 else 0
  }

  /** No turn of the conversation dispatches a compaction. */
  predicate NeverDispatches(start: nat, turns: seq<Turn>) {
    turns != [] ==>
      var past := turns[..|turns| - 1];
      NeverDispatches(start, past) && !Dispatches(Stored(start, past), turns[|turns| - 1])
  }

  lemma {:induction false} UncompactedLength(start: nat, turns: seq<Turn>)
    requires NeverDispatches(start, turns)
    ensures Stored(start, turns) == start + 2 * AnsweredIn(turns) + RejectedIn(turns)
  {
    if turns != [] {
      UncompactedLength(start, turns[..|turns| - 1]);
    }
  }

  /** A length at which a compaction is dispatched is odd. */
  lemma DispatchParity(n: nat, evens: nat, rest: nat)
    requires (n + 1) % 20 == 0 && n == 2 * evens + rest
    ensures n % 20 == 19 && rest % 2 == 1
  {
    var q := (n + 1) / 20;
    assert n == 20 * (q - 1) + 19;
    assert rest == 2 * (10 * (q - 1) + 9 - evens) + 1;
  }

  lemma EvenNeverDispatches(n: nat, turn: Turn)
    requires n % 2 == 0
    ensures !Dispatches(n, turn)
  {
    if (n + 1) % 20 == 0 {
      DispatchParity(n, n / 2, 0);
    }
  }

  /** From an empty conversation, or any other of even length, the first compaction is dispatched by an
      answered turn after an odd number of rejected ones only: the length tested is odd as long as that number
      is even. */
  lemma FirstDispatchNeedsOddRejections(start: nat, turns: seq<Turn>, turn: Turn)
    requires start % 2 == 0 && NeverDispatches(start, turns) && Dispatches(Stored(start, turns), turn)
    ensures RejectedIn(turns) % 2 == 1
    ensures (start + 2 * AnsweredIn(turns) + RejectedIn(turns)) % 20 == 19
  {
    UncompactedLength(start, turns);
    OddRest(start, AnsweredIn(turns), RejectedIn(turns));
  }

  lemma OddRest(start: nat, answered: nat, rejected: nat)
    requires start % 2 == 0 && (start + 2 * answered + rejected + 1) % 20 == 0
    ensures rejected % 2 == 1 && (start + 2 * answered + rejected) % 20 == 19
  {
    assert start == 2 * (start / 2);
    DispatchParity(start + 2 * answered + rejected, start / 2 + answered, rejected);
  }

  /** Every turn is answered and, if `late`, no task reads before the turn that dispatched it is committed. */
  ghost predicate AllAnswered(turns: seq<Turn>, late: bool) {
    forall t <- turns :: t.Answered? && (late ==> !t.early)
  }

  lemma EvenSum(start: nat, n: nat)
    requires start % 2 == 0
    ensures (start + 2 * n) % 2 == 0
  {
  }

  /** In particular, a conversation of even length in which every turn is answered is never compacted. */
  lemma {:induction false} AnsweredNeverDispatches(start: nat, turns: seq<Turn>, late: bool)
    requires AllAnswered(turns, late) && start % 2 == 0
    ensures NeverDispatches(start, turns)
    ensures Stored(start, turns) == start + 2 * |turns|
  {
    if turns != [] {
      var n := |turns| - 1;
      AnsweredNeverDispatches(start, turns[..n], late);
      assert turns[n] in turns;
      EvenSum(start, n);
      EvenNeverDispatches(start + 2 * n, turns[n]);
    }
  }

  /** The longest a conversation of odd length becomes between turns: the length of the next dispatch, or
      of the one after if the task at 19 can read early, find 19 rows, and do nothing. */
  function Ceiling(start: nat, late: bool): nat {
    var next := (start + 20) / 20 * 20 - 1;
    if !late && next < 39 then 39 else next
  }

  lemma CeilingFacts(start: nat, late: bool)
    requires start % 2 == 1
    ensures start <= Ceiling(start, late) && Ceiling(start, late) % 20 == 19
  {
    var q := (start + 20) / 20;
    assert 20 * q <= start + 20 < 20 * q + 20;
  }

  lemma NoDispatchBelow(start: nat, late: bool, n: nat)
    requires start <= n < Ceiling(start, late) && (n + 1) % 20 == 0
    ensures !late && n == 19
  {
    var q, p := (start + 20) / 20, (n + 1) / 20;
    assert 20 * q <= start + 20 < 20 * q + 20 && n + 1 == 20 * p;
  }

  lemma {:induction false} OddStaysBounded(start: nat, turns: seq<Turn>, late: bool)
    requires AllAnswered(turns, late) && start % 2 == 1
    ensures Stored(start, turns) % 2 == 1 && Stored(start, turns) <= Ceiling(start, late)
  {
    CeilingFacts(start, late);
    if turns != [] {
      var n := |turns| - 1;
      assert AllAnswered(turns[..n], late) && turns[n] in turns;
      OddStaysBounded(start, turns[..n], late);
      OddStep(Stored(start, turns[..n]), turns[n], late, Ceiling(start, late));
    }
  }

  lemma OddStep(n: nat, turn: Turn, late: bool, ceiling: nat)
    requires n % 2 == 1 && n <= ceiling && ceiling % 20 == 19 && (late || ceiling >= 39)
    requires turn.Answered? && (late ==> !turn.early)
    ensures AfterTurn(n, turn) % 2 == 1 && AfterTurn(n, turn) <= ceiling
  {
    if !Dispatches(n, turn) {
      assert n != ceiling;
    }
  }

  /** Turns whose tasks all read as early as they may. */
  function Climb(k: nat, late: bool): seq<Turn> {
    seq(k, i => Answered("", !late))
  }

  /** The ceiling is reached. */
  lemma {:induction false} Climbs(start: nat, k: nat, late: bool)
    requires start % 2 == 1 && start + 2 * k <= Ceiling(start, late)
    ensures Stored(start, Climb(k, late)) == start + 2 * k
  {
    if k > 0 {
      Climbs(start, k - 1, late);
      var n := start + 2 * (k - 1);
      if (n + 1) % 20 == 0 {
        NoDispatchBelow(start, late, n);
      }
      assert Climb(k, late)[..k - 1] == Climb(k - 1, late);
    }
  }

  lemma StepsToCeiling(start: nat, late: bool) returns (k: nat)
    requires start % 2 == 1
    ensures start + 2 * k == Ceiling(start, late)
  {
    CeilingFacts(start, late);
    var q, m := Ceiling(start, late) / 20, start / 2;
    assert Ceiling(start, late) == 20 * q + 19 && start == 2 * m + 1;
    k := 10 * q + 9 - m;
  }

  /** Between turns the history holds at most `bound` messages, however many turns there are. */
  ghost predicate BoundedBy(start: nat, late: bool, bound: nat) {
    forall turns :: AllAnswered(turns, late) ==> Stored(start, turns) <= bound
  }

  /** With the rows of a turn and before the task it may dispatch, it holds at most `bound` messages. */
  ghost predicate PeaksBoundedBy(start: nat, late: bool, bound: nat) {
    forall turns, turn :: AllAnswered(turns + [turn], late) ==> Stored(start, turns) + AddedLength(turn) <= bound
  }

  /** The exact bounds for an odd length: from at most 19 messages 19 between turns and 21 until the task has
      run, if every task reads after the commit; 39 and 41 if tasks may read before it. */
  lemma BoundedExactly(start: nat, late: bool, bound: nat)
    requires start % 2 == 1
    ensures BoundedBy(start, late, bound) <==> Ceiling(start, late) <= bound
    ensures PeaksBoundedBy(start, late, bound) <==> Ceiling(start, late) + 2 <= bound
    ensures start <= 19 ==> Ceiling(start, late) == if late then 19 else 39
  {
    BetweenTurns(start, late, bound);
    BeforeTheTask(start, late, bound);
  }

  lemma BeforeTheTask(start: nat, late: bool, bound: nat)
    requires start % 2 == 1
    ensures PeaksBoundedBy(start, late, bound) <==> Ceiling(start, late) + 2 <= bound
  {
    forall turns, turn | AllAnswered(turns + [turn], late)
      ensures Stored(start, turns) + AddedLength(turn) <= Ceiling(start, late) + 2
    {
      assert forall t <- turns :: t in turns + [turn];
      assert turn in turns + [turn];
      OddStaysBounded(start, turns, late);
    }
    var k := StepsToCeiling(start, late);
    var turns, turn := Climb(k, late), Answered("", !late);
    Climbs(start, k, late);
    assert AllAnswered(turns + [turn], late);
    assert Stored(start, turns) + AddedLength(turn) == Ceiling(start, late) + 2;
  }

  lemma BetweenTurns(start: nat, late: bool, bound: nat)
    requires start % 2 == 1
    ensures BoundedBy(start, late, bound) <==> Ceiling(start, late) <= bound
  {
    forall turns | AllAnswered(turns, late)
      ensures Stored(start, turns) <= Ceiling(start, late)
    {
      OddStaysBounded(start, turns, late);
    }
    var k := StepsToCeiling(start, late);
    Climbs(start, k, late);
    assert AllAnswered(Climb(k, late), late);
    assert Stored(start, Climb(k, late)) == Ceiling(start, late);
  }

  /** With every turn answered, compaction keeps the history bounded exactly if it starts odd. */
  lemma BoundedIffOdd(start: nat, late: bool)
    ensures (exists bound: nat :: BoundedBy(start, late, bound)) <==> start % 2 == 1
  {
    if start % 2 == 1 {
      BoundedExactly(start, late, Ceiling(start, late));
    } else {
      forall bound: nat
        ensures !BoundedBy(start, late, bound)
      {
        var turns := Climb(bound + 1, late);
        AnsweredNeverDispatches(start, turns, late);
        assert Stored(start, turns) > bound;
      }
    }
  }

  // ---------------------------------------------------------------------------
  // Active users
  // ---------------------------------------------------------------------------

  const ACTIVE_WINDOW: Time := 300.0

  type Seen = map<string, Time>

  function Recorded(seen: Seen, user: string, now: Time): Seen {
    var all := seen[user := now];
    map u | u in all && all[u] >= now - ACTIVE_WINDOW :: all[u]
  }

  class ActiveUsers {
    var seen: Seen

    constructor ()
      ensures seen == map[]
    {
      seen := map[];
    }

    /** Records the user, collects the stale ones, then deletes them one by one. */
    method RecordActiveUser(user: string, now: Time) returns (active: nat)
      modifies this
      ensures seen == Recorded(old(seen), user, now)
      ensures active == |seen|
    {
      seen := seen[user := now];
      var cutoff := now - ACTIVE_WINDOW;
      ghost var full := seen;
      var stale := set u | u in seen && seen[u] < cutoff;
      while stale != {}
        invariant stale == set u | u in seen && seen[u] < cutoff
        invariant seen.Keys <= full.Keys
        invariant forall u <- full :: full[u] >= cutoff ==> u in seen
        invariant forall u <- seen :: seen[u] == full[u]
        decreases stale
      {
        var u :| u in stale;
        seen := seen - {u};
        stale := stale - {u};
      }
      forall u | u in seen
        ensures seen[u] >= cutoff
      {
        assert u !in stale;
      }
      assert full == old(seen)[user := now];
      active := |seen|;
    }
  }

  datatype Call = Call(user: string, now: Time)

  function SeenAfter(calls: seq<Call>): Seen {
    if calls == [] then map[] else
    Recorded(SeenAfter(calls[..|calls| - 1]), calls[|calls| - 1].user, calls[|calls| - 1].now)
  }

  ghost predicate Ordered(calls: seq<Call>) {
    forall a, b :: 0 <= a < b < |calls| ==> calls[a].now <= calls[b].now
  }

  /** Call `i` is the user's latest. */
  ghost predicate Latest(calls: seq<Call>, user: string, i: nat) {
    && i < |calls| && calls[i].user == user
    && forall j :: i < j < |calls| ==> calls[j].user != user
  }

  predicate Recent(calls: seq<Call>, i: nat)
    requires i < |calls|
  {
    calls[|calls| - 1].now - calls[i].now <= 300.0
  }

  lemma {:induction false} SeenIsLatest(calls: seq<Call>, user: string)
    requires user in SeenAfter(calls)
    ensures exists i: nat :: Latest(calls, user, i)
  {
    var n := |calls| - 1;
    if calls[n].user == user {
      assert Latest(calls, user, n);
    } else {
      SeenIsLatest(calls[..n], user);
      var i: nat :| Latest(calls[..n], user, i);
      assert Latest(calls, user, i);
    }
  }

  lemma {:induction false} LatestIsSeen(calls: seq<Call>, user: string, i: nat)
    requires Ordered(calls)
    requires Latest(calls, user, i)
    ensures user in SeenAfter(calls) <==> Recent(calls, i)
    ensures user in SeenAfter(calls) ==> SeenAfter(calls)[user] == calls[i].now
  {
    var n := |calls| - 1;
    if i < n {
      assert Latest(calls[..n], user, i);
      LatestIsSeen(calls[..n], user, i);
    }
  }

  /** Under a clock that never goes back, the record holds exactly the users whose latest call was at
      most 300 seconds before the latest call of all, each with the time of that call. */
  lemma SeenExactly(calls: seq<Call>, user: string)
    requires Ordered(calls)
    ensures user in SeenAfter(calls) <==> exists i: nat :: Latest(calls, user, i) && Recent(calls, i)
    ensures forall i: nat :: Latest(calls, user, i) && user in SeenAfter(calls) ==>
              SeenAfter(calls)[user] == calls[i].now
  {
    forall i: nat | Latest(calls, user, i)
      ensures user in SeenAfter(calls) <==> Recent(calls, i)
      ensures user in SeenAfter(calls) ==> SeenAfter(calls)[user] == calls[i].now
    {
      LatestIsSeen(calls, user, i);
    }
    if user in SeenAfter(calls) {
      SeenIsLatest(calls, user);
    }
  }
}
