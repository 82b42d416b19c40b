/**
 Compaction of a conversation: all but the last ten messages are replaced by one summary row.

 The model runs between the read and the delete, so other sessions can commit rows meanwhile.
 Time stamps are microseconds.
 */
module Summarization {
  import opened Common

  const SECOND := 1_000_000
  const KEEP_TAIL := 10
  const MIN_MESSAGES := 20

  datatype Message = Message(conversation: string, role: string, content: string, createdAt: int)

  type Table = map<string, Message>

  datatype TaskResult = Skipped | Summarized(deleted: nat) | Retry

  ghost function Ids(table: Table, conversation: string): set<string> {
    set id | id in table && table[id].conversation == conversation
  }

  ghost predicate Distinct(order: seq<string>) {
    forall i, j :: 0 <= i < j < |order| ==> order[i] != order[j]
  }

  /** A possible answer to `SELECT ... ORDER BY created_at`: rows with equal stamps come in any order. */
  ghost predicate Listing(table: Table, conversation: string, order: seq<string>) {
    && Distinct(order)
    && (forall i :: 0 <= i < |order| ==> order[i] in Ids(table, conversation))
    && (forall id <- Ids(table, conversation) :: id in order)
    && (forall i, j :: 0 <= i < j < |order| ==> table[order[i]].createdAt <= table[order[j]].createdAt)
  }

  /** `ts.replace(microsecond=max(0, ts.microsecond - 1000))`. */
  function SummaryStamp(ts: int): int {
    var micro := ts % SECOND;
    ts - micro + if micro > 1000 then micro - 1000 else 0
  }

  function SummaryRow(conversation: string, text: string, earliest: int): Message {
    Message(conversation, "system", "[Conversation summary]: " + text, SummaryStamp(earliest))
  }

  function Elements(order: seq<string>): set<string> {
    set id | id in order
  }

  /** The table after the task, given what it had read and the rows committed meanwhile. */
  function Compacted(table: Table, conversation: string, order: seq<string>, arrivals: Table,
                     text: string, summaryId: string): Table
    requires |order| >= MIN_MESSAGES && order[0] in table
  {
    (table + arrivals)[summaryId := SummaryRow(conversation, text, table[order[0]].createdAt)]
    - Elements(order[..|order| - KEEP_TAIL])
  }

  class MessageStore {
    var rows: Table

    constructor ()
      ensures rows == map[]
    {
      rows := map[];
    }

    /** `order` is what the query returns, `arrivals` what others commit during the model call, and
        `reply` the model's summary, if the call succeeds. */
    method SummarizeConversation(conversation: string, order: seq<string>, arrivals: Table,
                                 reply: Option<string>, summaryId: string)
      returns (r: TaskResult)
      requires Listing(rows, conversation, order)
      requires arrivals.Keys !! rows.Keys && summaryId !in rows && summaryId !in arrivals
      modifies this
      ensures |order| < 20 ==> r == Skipped && rows == old(rows)
      ensures |order| >= 20 && reply.None? ==> r == Retry && rows == old(rows) + arrivals
      ensures |order| >= 20 && reply.Some? ==>
                && r == Summarized(|order| - 10)
                && order[0] in old(rows)
                && rows == Compacted(old(rows), conversation, order, arrivals, reply.value, summaryId)
    {
      if |order| < MIN_MESSAGES {
        return Skipped;
      }
      assert order[0] in order;
      var toSummarize := order[..|order| - KEEP_TAIL];
      var earliest := rows[toSummarize[0]].createdAt;
      rows := rows + arrivals;
      if reply.None? {
        return Retry;
      }
      rows := rows[summaryId := SummaryRow(conversation, reply.value, earliest)];
      rows := rows - Elements(toSummarize);
      r := Summarized(|toSummarize|);
    }
  }

  // ---------------------------------------------------------------------------
  // The summary's place
  // ---------------------------------------------------------------------------

  /** At most a millisecond before the earliest message, in the same second, and at the very same
      instant exactly if that message's microsecond field is zero. */
  lemma SummaryStampBounds(ts: int)
    ensures ts - 1000 <= SummaryStamp(ts) <= ts
    ensures SummaryStamp(ts) == ts <==> ts % 1_000_000 == 0
    ensures SummaryStamp(ts) == ts - 1000 <==> ts % 1_000_000 >= 1000
    ensures SummaryStamp(ts) / 1_000_000 == ts / 1_000_000
  {
    var micro := ts % SECOND;
    assert ts - micro == SECOND * (ts / SECOND);
    var kept := if micro > 1000 then micro - 1000 else 0;
    assert SummaryStamp(ts) == SECOND * (ts / SECOND) + kept;
  }

  // ---------------------------------------------------------------------------
  // What is left
  // ---------------------------------------------------------------------------

  lemma SplitOrder(order: seq<string>, n: nat)
    requires Distinct(order) && n <= |order|
    ensures Elements(order) == Elements(order[..n]) + Elements(order[n..])
    ensures Elements(order[..n]) !! Elements(order[n..])
  {
    assert order == order[..n] + order[n..];
    forall id | id in Elements(order[..n])
      ensures id !in Elements(order[n..])
    {
      var i :| 0 <= i < n && order[..n][i] == id;
      forall j | 0 <= j < |order[n..]|
        ensures order[n..][j] != id
      {
        assert order[n..][j] == order[n + j] && order[i] == id;
      }
    }
  }

  /** The rows of the conversation that the task keeps. */
  function Tail(order: seq<string>): set<string>
    requires |order| >= MIN_MESSAGES
  {
    Elements(order[|order| - KEEP_TAIL..])
  }

  lemma OrderIsIds(table: Table, conversation: string, order: seq<string>)
    requires Listing(table, conversation, order)
    ensures Elements(order) == Ids(table, conversation)
  {
  }

  /** Exactly the summary, with its text, the last ten messages and the arrivals are left of the conversation,
      the messages verbatim, and every other conversation is as it was. */
  lemma WhatIsLeft(table: Table, conversation: string, order: seq<string>, arrivals: Table, text: string,
                   summaryId: string)
    requires Listing(table, conversation, order) && |order| >= MIN_MESSAGES
    requires arrivals.Keys !! table.Keys && summaryId !in table && summaryId !in arrivals
    ensures order[0] in table && Tail(order) <= table.Keys
    ensures var t := Compacted(table, conversation, order, arrivals, text, summaryId);
            && Ids(t, conversation) == {summaryId} + Tail(order) + Ids(arrivals, conversation)
            && t.Keys == {summaryId} + (table.Keys - Ids(table, conversation)) + Tail(order) + arrivals.Keys
            && t[summaryId] == Message(conversation, "system", "[Conversation summary]: " + text,
                                       SummaryStamp(table[order[0]].createdAt))
            && (forall id <- t :: id in table ==> t[id] == table[id])
            && (forall id <- t :: id in arrivals ==> t[id] == arrivals[id])
  {
    var t := Compacted(table, conversation, order, arrivals, text, summaryId);
    var n := |order| - KEEP_TAIL;
    SplitOrder(order, n);
    var head := Elements(order[..n]);
    OrderIsIds(table, conversation, order);
    assert Tail(order) == Ids(table, conversation) - head;
    assert t.Keys == table.Keys + arrivals.Keys + {summaryId} - head;
    assert t.Keys == {summaryId} + (table.Keys - Ids(table, conversation)) + Tail(order) + arrivals.Keys;
    assert Ids(t, conversation) == {summaryId} + Tail(order) + Ids(arrivals, conversation);
  }

  lemma {:induction false} DistinctSize(order: seq<string>)
    requires Distinct(order)
    ensures |Elements(order)| == |order|
  {
    if order != [] {
      var n := |order| - 1;
      DistinctSize(order[..n]);
      assert order == order[..n] + [order[n]];
      assert Elements(order) == Elements(order[..n]) + {order[n]};
    }
  }

  lemma ListingSize(t: Table, conversation: string, order: seq<string>)
    requires Listing(t, conversation, order)
    ensures |order| == |Ids(t, conversation)|
  {
    DistinctSize(order);
    OrderIsIds(t, conversation, order);
  }

  lemma TailSize(order: seq<string>)
    requires Distinct(order) && |order| >= MIN_MESSAGES
    ensures |Tail(order)| == KEEP_TAIL
  {
    DistinctSize(order[|order| - KEEP_TAIL..]);
  }

  /** Every later read finds eleven rows and the arrivals, so running the task again at once does
      nothing exactly if fewer than nine messages arrived meanwhile. */
  lemma RowsLeft(table: Table, conversation: string, order: seq<string>, arrivals: Table, text: string,
                 summaryId: string, later: seq<string>)
    requires Listing(table, conversation, order) && |order| >= MIN_MESSAGES
    requires arrivals.Keys !! table.Keys && summaryId !in table && summaryId !in arrivals
    requires order[0] in table
    requires Listing(Compacted(table, conversation, order, arrivals, text, summaryId), conversation, later)
    ensures |later| == 11 + |Ids(arrivals, conversation)|
    ensures |later| < 20 <==> |Ids(arrivals, conversation)| < 9
  {
    WhatIsLeft(table, conversation, order, arrivals, text, summaryId);
    ListingSize(Compacted(table, conversation, order, arrivals, text, summaryId), conversation, later);
    TailSize(order);
    UnionSize(summaryId, Tail(order), Ids(arrivals, conversation));
  }

  lemma UnionSize(x: string, a: set<string>, b: set<string>)
    requires x !in a && x !in b && a !! b
    ensures |{x} + a + b| == 1 + |a| + |b|
  {
    assert |a + b| == |a| + |b|;
    assert {x} + a + b == {x} + (a + b);
  }

  /** The rows are sorted by their stamps. */
  ghost predicate Ordered(t: Table, ids: seq<string>) {
    && (forall i :: 0 <= i < |ids| ==> ids[i] in t)
    && (forall i, j :: 0 <= i < j < |ids| ==> t[ids[i]].createdAt <= t[ids[j]].createdAt)
  }

  lemma OrderedSplit(t: Table, a: seq<string>, b: seq<string>, j: nat)
    requires a != [] && j < |b| && Ordered(t, a + b)
    ensures a[|a| - 1] in t && b[j] in t && t[a[|a| - 1]].createdAt <= t[b[j]].createdAt
  {
    var c, n := a + b, |a|;
    assert c[n - 1] == a[n - 1] && c[n + j] == b[j];
  }

  lemma OrderedJoin(t: Table, a: seq<string>, b: seq<string>)
    requires a != [] && Ordered(t, a) && Ordered(t, b)
    requires forall j :: 0 <= j < |b| ==> t[a[|a| - 1]].createdAt <= t[b[j]].createdAt
    ensures Ordered(t, a + b)
  {
    var c, n := a + b, |a|;
    forall i | 0 <= i < |c|
      ensures c[i] in t && c[i] == if i < n then a[i] else b[i - n]
    {
    }
    forall i, j | 0 <= i < j < |c|
      ensures t[c[i]].createdAt <= t[c[j]].createdAt
    {
      if j < n {
        assert t[a[i]].createdAt <= t[a[j]].createdAt;
      } else if n <= i {
        assert t[b[i - n]].createdAt <= t[b[j - n]].createdAt;
      } else {
        assert i < n - 1 ==> t[a[i]].createdAt <= t[a[n - 1]].createdAt;
        assert t[a[n - 1]].createdAt <= t[b[j - n]].createdAt;
      }
    }
  }

  lemma OrderedConcat(t: Table, a: seq<string>, b: seq<string>)
    requires a != [] && Ordered(t, a) && Ordered(t, b)
    ensures Ordered(t, a + b) <==> forall j :: 0 <= j < |b| ==> t[a[|a| - 1]].createdAt <= t[b[j]].createdAt
  {
    if forall j :: 0 <= j < |b| ==> t[a[|a| - 1]].createdAt <= t[b[j]].createdAt {
      OrderedJoin(t, a, b);
    }
    if Ordered(t, a + b) {
      forall j | 0 <= j < |b| {
        OrderedSplit(t, a, b, j);
      }
    }
  }

  /** A row in front of a list of all the others is a possible read if both are sorted together. */
  lemma ListingCons(t: Table, conversation: string, first: string, rest: seq<string>)
    requires Distinct(rest) && first !in rest && first in t
    requires Ids(t, conversation) == {first} + Elements(rest)
    ensures Listing(t, conversation, [first] + rest) <==> Ordered(t, [first] + rest)
  {
    var all := [first] + rest;
    assert forall i :: 1 <= i < |all| ==> all[i] == rest[i - 1];
    forall id | id in Ids(t, conversation)
      ensures id in all
    {
      if id != first {
        assert id in rest;
      }
    }
    forall i | 0 <= i < |all|
      ensures all[i] in Ids(t, conversation)
    {
      if i > 0 {
        assert rest[i - 1] in Elements(rest);
      }
    }
  }

  /** The end of a sorted list stays sorted among unchanged rows, with an earlier one in front. */
  lemma OrderedTail(table: Table, t: Table, order: seq<string>, n: nat, first: string)
    requires Ordered(table, order) && n < |order|
    requires forall id <- order[n..] :: id in t && id in table && t[id] == table[id]
    requires first in t && t[first].createdAt <= table[order[0]].createdAt
    ensures Ordered(t, order[n..]) && Ordered(t, [first] + order[n..])
  {
    var kept := order[n..];
    forall i | 0 <= i < |kept|
      ensures kept[i] == order[n + i] && kept[i] in t && t[kept[i]] == table[order[n + i]]
    {
      assert kept[i] in kept;
    }
    assert table[order[0]].createdAt <= table[order[n]].createdAt;
    forall i | 0 <= i < |kept|
      ensures t[first].createdAt <= t[kept[i]].createdAt
    {
      assert table[order[n]].createdAt <= table[order[n + i]].createdAt;
    }
    OrderedConcat(t, [first], kept);
  }

  /** The rows after compaction: the kept messages in order, the summary not after them, and the arrivals. */
  lemma KeptRows(table: Table, conversation: string, order: seq<string>, arrivals: Table, text: string,
                 summaryId: string)
    requires Listing(table, conversation, order) && |order| >= MIN_MESSAGES
    requires arrivals.Keys !! table.Keys && summaryId !in table && summaryId !in arrivals
    ensures order[0] in table
    ensures var t := Compacted(table, conversation, order, arrivals, text, summaryId);
            var kept := order[|order| - KEEP_TAIL..];
            && Distinct(kept) && summaryId !in kept && summaryId in t
            && t[summaryId].createdAt == SummaryStamp(table[order[0]].createdAt)
            && Ids(t, conversation) == {summaryId} + Elements(kept) + Ids(arrivals, conversation)
            && (forall id <- Ids(arrivals, conversation) :: id in t && t[id] == arrivals[id])
            && (forall i :: 0 <= i < |kept| ==> kept[i] in table && kept[i] in t && t[kept[i]] == table[kept[i]])
            && Ordered(t, [summaryId] + kept)
  {
    var t := Compacted(table, conversation, order, arrivals, text, summaryId);
    var n := |order| - KEEP_TAIL;
    KeptVerbatim(table, conversation, order, arrivals, text, summaryId);
    assert Ordered(t, [summaryId] + order[n..]) by {
      OrderedTail(table, t, order, n, summaryId);
    }
    DistinctTail(order, n);
    KeptIds(table, conversation, order, arrivals, text, summaryId);
  }

  lemma KeptIds(table: Table, conversation: string, order: seq<string>, arrivals: Table, text: string,
                summaryId: string)
    requires Listing(table, conversation, order) && |order| >= MIN_MESSAGES
    requires arrivals.Keys !! table.Keys && summaryId !in table && summaryId !in arrivals
    ensures order[0] in table
    ensures var t := Compacted(table, conversation, order, arrivals, text, summaryId);
            && Ids(t, conversation)
               == {summaryId} + Elements(order[|order| - KEEP_TAIL..]) + Ids(arrivals, conversation)
            && forall id <- Ids(arrivals, conversation) :: id in t && t[id] == arrivals[id]
  {
    WhatIsLeft(table, conversation, order, arrivals, text, summaryId);
    var t := Compacted(table, conversation, order, arrivals, text, summaryId);
    assert Ids(arrivals, conversation) <= Ids(t, conversation);
  }

  lemma KeptVerbatim(table: Table, conversation: string, order: seq<string>, arrivals: Table, text: string,
                     summaryId: string)
    requires Listing(table, conversation, order) && |order| >= MIN_MESSAGES
    requires arrivals.Keys !! table.Keys && summaryId !in table && summaryId !in arrivals
    ensures order[0] in table
    ensures var t := Compacted(table, conversation, order, arrivals, text, summaryId);
            && summaryId in t
            && t[summaryId].createdAt == SummaryStamp(table[order[0]].createdAt) <= table[order[0]].createdAt
            && forall id <- order[|order| - KEEP_TAIL..] :: id in table && id in t && t[id] == table[id]
  {
    WhatIsLeft(table, conversation, order, arrivals, text, summaryId);
    SummaryStampBounds(table[order[0]].createdAt);
    var t := Compacted(table, conversation, order, arrivals, text, summaryId);
    assert summaryId in Ids(t, conversation);
    forall id | id in order[|order| - KEEP_TAIL..]
      ensures id in table && id in t && t[id] == table[id]
    {
      assert id in Tail(order) && id in Ids(t, conversation);
    }
  }

  lemma DistinctTail(order: seq<string>, n: nat)
    requires Distinct(order) && n <= |order|
    ensures Distinct(order[n..])
  {
  }

  /** The kept messages and then the arrivals, in their orders. */
  lemma TailThenNew(table: Table, conversation: string, order: seq<string>, arrivals: Table, text: string,
                    summaryId: string, newer: seq<string>)
    requires Listing(table, conversation, order) && |order| >= MIN_MESSAGES && Listing(arrivals, conversation, newer)
    requires arrivals.Keys !! table.Keys && summaryId !in table && summaryId !in arrivals
    ensures order[0] in table && order[|order| - 1] in table
    ensures var t := Compacted(table, conversation, order, arrivals, text, summaryId);
            var rest := order[|order| - KEEP_TAIL..] + newer;
            && Distinct(rest) && summaryId !in rest
            && Ids(t, conversation) == {summaryId} + Elements(rest)
            && (forall i :: 0 <= i < |rest| ==>
                  rest[i] in t && t[rest[i]] == if i < KEEP_TAIL then table[rest[i]] else arrivals[rest[i]])
  {
    KeptRows(table, conversation, order, arrivals, text, summaryId);
    OrderIsIds(arrivals, conversation, newer);
    var kept := order[|order| - KEEP_TAIL..];
    assert order[|order| - 1] == kept[KEEP_TAIL - 1];
    assert Elements(kept + newer) == Elements(kept) + Elements(newer);
    forall i, j | 0 <= i < |kept| && 0 <= j < |newer|
      ensures kept[i] != newer[j]
    {
      assert newer[j] in Ids(arrivals, conversation);
    }
  }

  /** The summary, the last ten messages and then the arrivals, each in their order, are a possible read of
      the compacted conversation exactly if no arrival is stamped before the last message. */
  lemma SummaryThenTail(table: Table, conversation: string, order: seq<string>, arrivals: Table, text: string,
                        summaryId: string, newer: seq<string>)
    requires Listing(table, conversation, order) && |order| >= MIN_MESSAGES && Listing(arrivals, conversation, newer)
    requires arrivals.Keys !! table.Keys && summaryId !in table && summaryId !in arrivals
    ensures order[0] in table && order[|order| - 1] in table
    ensures Listing(Compacted(table, conversation, order, arrivals, text, summaryId), conversation,
                    [summaryId] + (order[|order| - KEEP_TAIL..] + newer))
            <==> forall id <- Ids(arrivals, conversation) ::
                   table[order[|order| - 1]].createdAt <= arrivals[id].createdAt
  {
    var t := Compacted(table, conversation, order, arrivals, text, summaryId);
    var kept, last := order[|order| - KEEP_TAIL..], order[|order| - 1];
    assert kept[KEEP_TAIL - 1] == last;
    var read := [summaryId] + (kept + newer);
    assert read == ([summaryId] + kept) + newer;
    assert Listing(t, conversation, read) <==> Ordered(t, read) by {
      TailThenNew(table, conversation, order, arrivals, text, summaryId, newer);
      ListingCons(t, conversation, summaryId, kept + newer);
    }
    assert last in t && t[last] == table[last] && Ordered(t, [summaryId] + kept) by {
      KeptRows(table, conversation, order, arrivals, text, summaryId);
    }
    forall i | 0 <= i < |newer|
      ensures newer[i] in arrivals && newer[i] in t && t[newer[i]] == arrivals[newer[i]]
    {
      TailThenNew(table, conversation, order, arrivals, text, summaryId, newer);
      assert (kept + newer)[KEEP_TAIL + i] == newer[i];
    }
    OrderedBefore(t, arrivals, conversation, [summaryId] + kept, last, newer);
  }

  lemma OrderedBefore(t: Table, arrivals: Table, conversation: string, older: seq<string>, last: string,
                      newer: seq<string>)
    requires older != [] && older[|older| - 1] == last && Ordered(t, older) && Listing(arrivals, conversation, newer)
    requires forall i :: 0 <= i < |newer| ==> newer[i] in t && newer[i] in arrivals && t[newer[i]] == arrivals[newer[i]]
    ensures last in t
    ensures Ordered(t, older + newer)
            <==> forall id <- Ids(arrivals, conversation) :: t[last].createdAt <= arrivals[id].createdAt
  {
    assert Ordered(t, newer);
    OrderedConcat(t, older, newer);
    LastBefore(t, arrivals, conversation, last, newer);
  }

  lemma LastBefore(t: Table, arrivals: Table, conversation: string, last: string, newer: seq<string>)
    requires last in t && Listing(arrivals, conversation, newer)
    requires forall i :: 0 <= i < |newer| ==> newer[i] in t && newer[i] in arrivals && t[newer[i]] == arrivals[newer[i]]
    ensures (forall i :: 0 <= i < |newer| ==> t[last].createdAt <= t[newer[i]].createdAt)
            <==> forall id <- Ids(arrivals, conversation) :: t[last].createdAt <= arrivals[id].createdAt
  {
    forall id | id in Ids(arrivals, conversation)
      ensures exists i :: 0 <= i < |newer| && newer[i] == id
    {
      assert id in newer;
    }
  }

  /** Every possible read starts with the row. */
  ghost predicate Leads(t: Table, conversation: string, id: string) {
    forall later :: Listing(t, conversation, later) ==> later != [] && later[0] == id
  }

  /** A row that none of the others is stamped before. */
  lemma {:induction false} Earliest(t: Table, ids: set<string>) returns (first: string)
    requires ids != {} && ids <= t.Keys
    ensures first in ids && forall id <- ids :: t[first].createdAt <= t[id].createdAt
  {
    var some :| some in ids;
    first := some;
    var others := ids - {some};
    if others != {} {
      var other := Earliest(t, others);
      if t[other].createdAt < t[some].createdAt {
        first := other;
      }
    }
    forall id | id in ids
      ensures t[first].createdAt <= t[id].createdAt
    {
      if id != some {
        assert id in others;
      }
    }
  }

  lemma {:induction false} Sorted(t: Table, ids: set<string>) returns (order: seq<string>)
    requires ids <= t.Keys
    ensures Distinct(order) && Elements(order) == ids && Ordered(t, order)
  {
    order := [];
    if ids != {} {
      var first := Earliest(t, ids);
      var rest := Sorted(t, ids - {first});
      order := [first] + rest;
      FirstThenRest(t, first, rest, ids);
    }
  }

  lemma FirstThenRest(t: Table, first: string, rest: seq<string>, ids: set<string>)
    requires first in ids && ids <= t.Keys && forall id <- ids :: t[first].createdAt <= t[id].createdAt
    requires Distinct(rest) && Elements(rest) == ids - {first} && Ordered(t, rest)
    ensures Distinct([first] + rest) && Elements([first] + rest) == ids && Ordered(t, [first] + rest)
  {
    forall i | 0 <= i < |rest|
      ensures rest[i] in ids && rest[i] != first
    {
      assert rest[i] in Elements(rest);
    }
    OrderedConcat(t, [first], rest);
    assert Elements([first] + rest) == {first} + Elements(rest);
  }

  /** A row is sure to come first exactly if it is stamped before all others of the conversation. */
  lemma LeadsExactly(t: Table, conversation: string, id: string)
    requires id in Ids(t, conversation)
    ensures Leads(t, conversation, id)
            <==> forall x <- Ids(t, conversation) :: x != id ==> t[id].createdAt < t[x].createdAt
  {
    var others := Ids(t, conversation) - {id};
    if forall x <- others :: t[id].createdAt < t[x].createdAt {
      forall later | Listing(t, conversation, later)
        ensures later != [] && later[0] == id
      {
        var j :| 0 <= j < |later| && later[j] == id;
        assert later[0] in Ids(t, conversation);
      }
    } else {
      var first := Earliest(t, others);
      assert t[first].createdAt <= t[id].createdAt;
      AnotherFirst(t, conversation, id, first);
    }
  }

  lemma AnotherFirst(t: Table, conversation: string, id: string, first: string)
    requires id in Ids(t, conversation) && first in Ids(t, conversation) && first != id
    requires forall x <- Ids(t, conversation) :: t[first].createdAt <= t[x].createdAt
    ensures !Leads(t, conversation, id)
  {
    var rest := Sorted(t, Ids(t, conversation) - {first});
    assert first !in Elements(rest);
    FirstThenRest(t, first, rest, Ids(t, conversation));
    ListingCons(t, conversation, first, rest);
    assert ([first] + rest)[0] != id;
  }

  /** The summary is sure to come first exactly if its stamp is before the first kept message's and before
      that of everything that arrived meanwhile. */
  lemma SummaryLeadsExactly(table: Table, conversation: string, order: seq<string>, arrivals: Table, text: string,
                            summaryId: string)
    requires Listing(table, conversation, order) && |order| >= MIN_MESSAGES
    requires arrivals.Keys !! table.Keys && summaryId !in table && summaryId !in arrivals
    ensures order[0] in table && order[|order| - KEEP_TAIL] in table
    ensures var stamp := SummaryStamp(table[order[0]].createdAt);
            Leads(Compacted(table, conversation, order, arrivals, text, summaryId), conversation, summaryId)
            <==> stamp < table[order[|order| - KEEP_TAIL]].createdAt
                 && forall id <- Ids(arrivals, conversation) :: stamp < arrivals[id].createdAt
  {
    KeptRows(table, conversation, order, arrivals, text, summaryId);
    var t := Compacted(table, conversation, order, arrivals, text, summaryId);
    var kept := order[|order| - KEEP_TAIL..];
    assert kept[0] == order[|order| - KEEP_TAIL] && kept[0] in Elements(kept);
    LeadsExactly(t, conversation, summaryId);
    if t[summaryId].createdAt < table[kept[0]].createdAt {
      forall id | id in Elements(kept)
        ensures t[summaryId].createdAt < t[id].createdAt
      {
        var i :| 0 <= i < |kept| && kept[i] == id;
        assert ([summaryId] + kept)[1] == kept[0] && ([summaryId] + kept)[i + 1] == id;
      }
    }
    assert forall id <- Ids(arrivals, conversation) :: id in Ids(t, conversation) && id != summaryId;
  }
}
