/** Reading a conversation out of the table of messages, here a sequence kept in memory. */
module ContextMessages {
  import opened Options
  import opened ContextSpans

  datatype Row = Row(id: I64, session: string, role: string, content: string, username: Option<string>)

  datatype Message = Message(role: string, content: string, username: Option<string>)

  /** The table in the order of its primary key. */
  predicate IsTable(table: seq<Row>) {
    forall i, j :: 0 <= i < j < |table| ==> table[i].id < table[j].id
  }

  /** `session_id = ? AND (role = 'user' OR role = 'assistant')` */
  predicate IsChat(session: string, row: Row) {
    row.session == session && row.role in {"user", "assistant"}
  }

  function Filter(items: seq<Row>, p: Row -> bool): (kept: seq<Row>) {
    if items == [] then [] else (if p(items[0]) then [items[0]] else []) + Filter(items[1..], p)
  }

  lemma {:induction false} FilterMember(items: seq<Row>, p: Row -> bool, x: Row)
    ensures x in Filter(items, p) <==> x in items && p(x)
  {
    if items != [] {
      assert x in items <==> x == items[0] || x in items[1..];
      FilterMember(items[1..], p, x);
    }
  }

  lemma {:induction false} FilterKeepsOrder(table: seq<Row>, p: Row -> bool)
    requires IsTable(table)
    ensures IsTable(Filter(table, p))
  {
    if table != [] {
      FilterKeepsOrder(table[1..], p);
      var rest := Filter(table[1..], p);
      forall j | 0 <= j < |rest|
        ensures table[0].id < rest[j].id
      {
        FilterMember(table[1..], p, rest[j]);
        var k :| 0 <= k < |table[1..]| && table[1..][k] == rest[j];
        assert table[k + 1] == rest[j];
      }
      assert Filter(table, p) == (if p(table[0]) then [table[0]] else []) + rest;
    }
  }

  lemma {:induction false} FilterTwice(items: seq<Row>, p: Row -> bool, q: Row -> bool, both: Row -> bool)
    requires forall x :: both(x) <==> p(x) && q(x)
    ensures Filter(Filter(items, p), q) == Filter(items, both)
  {
    if items != [] {
      var x, rest := items[0], items[1..];
      FilterTwice(rest, p, q, both);
      assert both(x) <==> p(x) && q(x);
      if p(x) {
        assert ([x] + Filter(rest, p))[1..] == Filter(rest, p);
      } else {
        assert [] + Filter(rest, p) == Filter(rest, p);
      }
    }
  }

  lemma {:induction false} FilterAgrees(items: seq<Row>, p: Row -> bool, q: Row -> bool)
    requires forall x :: x in items ==> p(x) == q(x)
    ensures Filter(items, p) == Filter(items, q)
  {
    if items != [] {
      assert items[0] in items;
      FilterAgrees(items[1..], p, q);
    }
  }

  function ChatRows(table: seq<Row>, session: string): seq<Row> {
    Filter(table, row => IsChat(session, row))
  }

  // ---------------------------------------------------------------------------------------------
  // fetch_recent_short_term_ids

  /** `ORDER BY id DESC LIMIT ?`: a negative limit is none. */
  function Newest(rows: seq<Row>, limit: int): seq<Row> {
    if limit < 0 || limit >= |rows| then rows else rows[|rows| - limit..]
  }

  function IdsOf(rows: seq<Row>): set<I64> {
    set row | row in rows :: row.id
  }

  function RecentIds(table: seq<Row>, session: string, historyWindow: nat): set<I64>
    requires historyWindow < 0x1_0000_0000_0000_0000
  {
    if historyWindow == 0 then {} else IdsOf(Newest(ChatRows(table, session), AsI64(historyWindow)))
  }

  lemma IdsOfMore(row: Row, rest: seq<Row>)
    requires IsTable([row] + rest)
    ensures IdsOf([row] + rest) == {row.id} + IdsOf(rest) && row.id !in IdsOf(rest)
  {
    var rows := [row] + rest;
    forall k | 0 <= k < |rest|
      ensures rest[k].id != row.id && rest[k] in rows
    {
      assert rows[0].id < rows[k + 1].id && rows[k + 1] == rest[k];
    }
    assert rows[0] in rows;
  }

  lemma {:induction false} IdsAreAsMany(rows: seq<Row>)
    requires IsTable(rows)
    ensures |IdsOf(rows)| == |rows|
  {
    if rows != [] {
      assert rows == [rows[0]] + rows[1..];
      IdsAreAsMany(rows[1..]);
      IdsOfMore(rows[0], rows[1..]);
    }
  }

  /** The ids of the newest messages of the conversation: as many as the window holds, and all newer
      than the rest of the conversation. */
  lemma {:induction false} RecentIdsAreTheNewest(table: seq<Row>, session: string, historyWindow: nat, row: Row)
    requires IsTable(table) && historyWindow <= MAX
    ensures var chat := ChatRows(table, session);
            var recent := RecentIds(table, session, historyWindow);
            && |recent| == (if historyWindow <= |chat| then historyWindow else |chat|)
            && recent <= IdsOf(chat)
            && (row in chat && row.id !in recent ==> forall id :: id in recent ==> row.id < id)
  {
    var chat := ChatRows(table, session);
    FilterKeepsOrder(table, r => IsChat(session, r));
    if historyWindow > 0 {
      NewestAreAsMany(chat, historyWindow);
      NewestAreNewer(chat, historyWindow, row);
    }
  }

  lemma {:induction false} NewestAreAsMany(chat: seq<Row>, limit: nat)
    requires IsTable(chat)
    ensures |IdsOf(Newest(chat, limit))| == if limit <= |chat| then limit else |chat|
  {
    IdsAreAsMany(Newest(chat, limit));
  }

  lemma {:induction false} NewestAreNewer(chat: seq<Row>, limit: nat, row: Row)
    requires IsTable(chat)
    ensures var recent := IdsOf(Newest(chat, limit));
            && recent <= IdsOf(chat)
            && (row in chat && row.id !in recent ==> forall id :: id in recent ==> row.id < id)
  {
    var n := |chat| - |Newest(chat, limit)|;
    if row in chat {
      SuffixIsNewer(chat, n, row);
    }
  }

  lemma {:induction false} SuffixIsNewer(chat: seq<Row>, n: nat, row: Row)
    requires IsTable(chat) && n <= |chat| && row in chat
    ensures row.id !in IdsOf(chat[n..]) ==> forall id :: id in IdsOf(chat[n..]) ==> row.id < id
  {
    var i :| 0 <= i < |chat| && chat[i] == row;
    if i >= n {
      assert chat[n..][i - n] == row;
    }
  }

  // ---------------------------------------------------------------------------------------------
  // fetch_short_term_context_messages

  function MessageOf(row: Row): Message {
    Message(row.role, row.content, row.username)
  }

  function MessagesOf(rows: seq<Row>): (messages: seq<Message>) {
    seq(|rows|, i requires 0 <= i < |rows| => MessageOf(rows[i]))
  }

  function RowsOfSpan(table: seq<Row>, session: string, span: ContextSpan, excluded: set<I64>): seq<Row> {
    Filter(table, row => IsChat(session, row) && span.Contains(row.id) && row.id !in excluded)
  }

  lemma FilterOfMore(items: seq<Row>, n: nat, p: Row -> bool)
    requires n < |items|
    ensures Filter(items[..n + 1], p) == Filter(items[..n], p) + if p(items[n]) then [items[n]] else []
  {
    FilterOfConcat(items[..n], [items[n]], p);
    assert items[..n + 1] == items[..n] + [items[n]];
    assert [items[n]][1..] == [];
  }

  lemma {:induction false} Associate(a: seq<Row>, b: seq<Row>, c: seq<Row>)
    ensures (a + b) + c == a + (b + c)
  {
  }

  lemma {:induction false} FilterUnfolds(item: Row, rest: seq<Row>, p: Row -> bool)
    ensures Filter([item] + rest, p) == (if p(item) then [item] else []) + Filter(rest, p)
  {
    assert ([item] + rest)[1..] == rest;
  }

  lemma {:induction false} FilterOfConcat(a: seq<Row>, b: seq<Row>, p: Row -> bool)
    ensures Filter(a + b, p) == Filter(a, p) + Filter(b, p)
  {
    if a == [] {
      assert a + b == b;
    } else {
      FilterOfConcat(a[1..], b, p);
      FilterUnfolds(a[0], a[1..] + b, p);
      FilterUnfolds(a[0], a[1..], p);
      Associate([a[0]], a[1..], b);
      Associate(if p(a[0]) then [a[0]] else [], Filter(a[1..], p), Filter(b, p));
      assert a == [a[0]] + a[1..];
    }
  }

  method FetchContextMessages(table: seq<Row>, session: string, spans: seq<ContextSpan>, excluded: set<I64>)
      returns (out: seq<(ContextSpan, seq<Message>)>)
    ensures |out| == |spans|
    ensures forall i :: 0 <= i < |spans| ==>
        out[i] == (spans[i], MessagesOf(RowsOfSpan(table, session, spans[i], excluded)))
  {
    out := [];
    for i := 0 to |spans|
      invariant |out| == i
      invariant forall k :: 0 <= k < i ==>
          out[k] == (spans[k], MessagesOf(RowsOfSpan(table, session, spans[k], excluded)))
    {
      var messages := FetchSpan(table, session, spans[i], excluded);
      out := out + [(spans[i], messages)];
    }
  }

  method FetchSpan(table: seq<Row>, session: string, span: ContextSpan, excluded: set<I64>)
      returns (messages: seq<Message>)
    ensures messages == MessagesOf(RowsOfSpan(table, session, span, excluded))
  {
    var mapped := Filter(table, row => IsChat(session, row) && span.Contains(row.id));
    ghost var p := (row: Row) => row.id !in excluded;
    messages := [];
    for k := 0 to |mapped|
      invariant messages == MessagesOf(Filter(mapped[..k], p))
    {
      FilterOfMore(mapped, k, p);
      if mapped[k].id !in excluded {
        messages := messages + [MessageOf(mapped[k])];
      }
    }
    assert mapped[..|mapped|] == mapped;
    FilterTwice(table, row => IsChat(session, row) && span.Contains(row.id), p,
                row => IsChat(session, row) && span.Contains(row.id) && row.id !in excluded);
  }
}
