/** The short-term hits of a recall: each message found, with the conversation around it. */
module ShortTermRecall {
  import opened Options
  import opened ContextSpans
  import opened ContextMessages
  import opened Text

  /** A row of the vector index, nearest first, and what the join makes of it. */
  datatype Neighbour = Neighbour(id: I64, distance: real)
  datatype Match = Match(row: Row, similarity: real)

  datatype Hit = Hit(content: string, kind: string, context: Option<seq<Message>>, similarity: real)

  function FindRow(table: seq<Row>, id: I64): (row: Option<Row>)
    ensures row.Some? ==> row.value in table && row.value.id == id
    ensures row.None? ==> forall i :: 0 <= i < |table| ==> table[i].id != id
  {
    if table == [] then None
    else if table[0].id == id then Some(table[0])
    else
      assert forall i :: 0 < i < |table| ==> table[i] == table[1..][i - 1];
      FindRow(table[1..], id)
  }

  /** The rows of the query: the neighbours that are messages of this conversation. */
  function Join(table: seq<Row>, session: string, neighbours: seq<Neighbour>): seq<Match> {
    if neighbours == [] then [] else JoinOne(table, session, neighbours[0]) + Join(table, session, neighbours[1..])
  }

  function JoinOne(table: seq<Row>, session: string, neighbour: Neighbour): (joined: seq<Match>)
    ensures |joined| <= 1 && (joined != [] ==> IsFound(table, session, joined[0]))
  {
    var row := FindRow(table, neighbour.id);
    if row.Some? && IsChat(session, row.value)
    then [Match(row.value, 1.0 - neighbour.distance * neighbour.distance / 2.0)] else []
  }

  predicate IsFound(table: seq<Row>, session: string, item: Match) {
    item.row in table && IsChat(session, item.row)
  }

  predicate AreFound(table: seq<Row>, session: string, matches: seq<Match>) {
    forall i :: 0 <= i < |matches| ==> IsFound(table, session, matches[i])
  }

  lemma {:induction false} JoinedAreFound(table: seq<Row>, session: string, neighbours: seq<Neighbour>)
    ensures AreFound(table, session, Join(table, session, neighbours))
  {
    if neighbours != [] {
      JoinedAreFound(table, session, neighbours[1..]);
    }
  }

  /** The matches outside the recent history. */
  function Unexcluded(matches: seq<Match>, excluded: set<I64>): seq<Match> {
    if matches == [] then []
    else (if matches[0].row.id in excluded then [] else [matches[0]]) + Unexcluded(matches[1..], excluded)
  }

  lemma UnexcludedOfMore(matches: seq<Match>, n: nat, excluded: set<I64>)
    requires n < |matches|
    ensures Unexcluded(matches[..n + 1], excluded)
         == Unexcluded(matches[..n], excluded) + if matches[n].row.id in excluded then [] else [matches[n]]
  {
    UnexcludedOfConcat(matches[..n], [matches[n]], excluded);
    assert matches[..n + 1] == matches[..n] + [matches[n]];
    assert [matches[n]][1..] == [];
  }

  lemma {:induction false} UnexcludedOfConcat(a: seq<Match>, b: seq<Match>, excluded: set<I64>)
    ensures Unexcluded(a + b, excluded) == Unexcluded(a, excluded) + Unexcluded(b, excluded)
  {
    if a == [] {
      assert a + b == b;
    } else {
      var first := if a[0].row.id in excluded then [] else [a[0]];
      UnexcludedOfConcat(a[1..], b, excluded);
      assert (a + b)[0] == a[0] && (a + b)[1..] == a[1..] + b;
      assert (first + Unexcluded(a[1..], excluded)) + Unexcluded(b, excluded)
          == first + (Unexcluded(a[1..], excluded) + Unexcluded(b, excluded));
    }
  }

  lemma {:induction false} UnexcludedAreFound(table: seq<Row>, session: string, matches: seq<Match>, excluded: set<I64>)
    requires AreFound(table, session, matches)
    ensures var kept := Unexcluded(matches, excluded);
            AreFound(table, session, kept) && forall i :: 0 <= i < |kept| ==> kept[i].row.id !in excluded
  {
    if matches != [] {
      assert IsFound(table, session, matches[0]);
      assert forall i :: 0 <= i < |matches[1..]| ==> matches[1..][i] == matches[i + 1];
      UnexcludedAreFound(table, session, matches[1..], excluded);
    }
  }

  function MatchIds(matches: seq<Match>): (ids: seq<I64>) {
    seq(|matches|, i requires 0 <= i < |matches| => matches[i].row.id)
  }

  function Render(role: string, content: string, username: Option<string>): string {
    if role == "user" && username.Some? && Trim(username.value) != "" then "[" + Trim(username.value) + "] " + content
    else content
  }

  // ---------------------------------------------------------------------------------------------
  // What the context of a match is.

  predicate IsNearAny(ids: seq<I64>, x: int, radius: nat) {
    exists i :: 0 <= i < |ids| && Near(ids[i], x, radius)
  }

  /** From `x` to `y` no id is further than the radius from every match. */
  ghost predicate IsConnected(ids: seq<I64>, radius: nat, x: int, y: int) {
    forall z :: x <= z <= y || y <= z <= x ==> IsNearAny(ids, z, radius)
  }

  /** The messages of the conversation that are connected to a match and not in the recent history. */
  ghost function ContextRows(table: seq<Row>, session: string, excluded: set<I64>, ids: seq<I64>, radius: nat,
      id: I64): seq<Row> {
    Filter(table, row => IsChat(session, row) && IsConnected(ids, radius, id, row.id) && row.id !in excluded)
  }

  lemma CoveredIsNear(ids: seq<I64>, radius: nat, merged: seq<ContextSpan>, x: I64)
    requires radius <= MAX && IsMerged(Windows(ids, radius), merged)
    ensures IsCovered(merged, x) <==> IsNearAny(ids, x, radius)
  {
    var windows := Windows(ids, radius);
    assert IsCovered(merged, x) <==> IsCovered(windows, x);
    if IsCovered(windows, x) {
      var i :| 0 <= i < |windows| && windows[i].Contains(x);
      WindowIsNear(ids[i], radius, x);
    }
    if IsNearAny(ids, x, radius) {
      var i :| 0 <= i < |ids| && Near(ids[i], x, radius);
      WindowIsNear(ids[i], radius, x);
      assert windows[i].Contains(x);
    }
  }

  lemma SpanIsConnected(ids: seq<I64>, radius: nat, merged: seq<ContextSpan>, i: nat, id: I64, x: I64)
    requires radius <= MAX && IsMerged(Windows(ids, radius), merged)
    requires i < |merged| && merged[i].Contains(id)
    ensures merged[i].Contains(x) <==> IsConnected(ids, radius, id, x)
  {
    SameSpanIff(merged, i, id, x);
    forall z | id <= z <= x || x <= z <= id
      ensures IsCovered(merged, z) <==> IsNearAny(ids, z, radius)
    {
      CoveredIsNear(ids, radius, merged, z);
    }
  }

  /** Every match lies in exactly one span. */
  lemma MatchIsInOneSpan(ids: seq<I64>, radius: nat, merged: seq<ContextSpan>, k: nat)
    requires radius <= MAX && IsMerged(Windows(ids, radius), merged) && k < |ids|
    ensures exists i :: 0 <= i < |merged| && merged[i].Contains(ids[k])
                        && forall j :: 0 <= j < |merged| && merged[j].Contains(ids[k]) ==> j == i
  {
    assert Near(ids[k], ids[k], radius);
    CoveredIsNear(ids, radius, merged, ids[k]);
    var i :| 0 <= i < |merged| && merged[i].Contains(ids[k]);
    forall j | 0 <= j < |merged| && merged[j].Contains(ids[k])
      ensures j == i
    {
      InOneSpan(merged, i, j, ids[k]);
    }
  }

  lemma RowsOfTheSpan(table: seq<Row>, session: string, excluded: set<I64>, ids: seq<I64>, radius: nat,
      merged: seq<ContextSpan>, i: nat, id: I64)
    requires radius <= MAX && IsMerged(Windows(ids, radius), merged)
    requires i < |merged| && merged[i].Contains(id)
    ensures RowsOfSpan(table, session, merged[i], excluded) == ContextRows(table, session, excluded, ids, radius, id)
  {
    forall row: Row
      ensures merged[i].Contains(row.id) <==> IsConnected(ids, radius, id, row.id)
    {
      SpanIsConnected(ids, radius, merged, i, id, row.id);
    }
    FilterAgrees(table, row => IsChat(session, row) && merged[i].Contains(row.id) && row.id !in excluded,
                 row => IsChat(session, row) && IsConnected(ids, radius, id, row.id) && row.id !in excluded);
  }

  /** The context of a match contains the match, and nothing but messages of its conversation outside
      the recent history, each connected to it. */
  lemma ContextOfAMatch(table: seq<Row>, session: string, excluded: set<I64>, ids: seq<I64>, radius: nat, row: Row,
      other: Row)
    requires row in table && IsChat(session, row) && row.id in ids && row.id !in excluded
    ensures var context := ContextRows(table, session, excluded, ids, radius, row.id);
            && row in context
            && (other in context <==> other in table && IsChat(session, other) && other.id !in excluded
                                      && IsConnected(ids, radius, row.id, other.id))
  {
    var p := (r: Row) => IsChat(session, r) && IsConnected(ids, radius, row.id, r.id) && r.id !in excluded;
    var k :| 0 <= k < |ids| && ids[k] == row.id;
    assert Near(ids[k], row.id, radius);
    FilterMember(table, p, row);
    FilterMember(table, p, other);
  }

  // ---------------------------------------------------------------------------------------------
  // fetch_short_term_candidates

  ghost predicate IsHitFor(table: seq<Row>, session: string, excluded: set<I64>, ids: seq<I64>, radius: nat,
      item: Match, hit: Hit) {
    && hit.content == Render(item.row.role, item.row.content, item.row.username)
    && hit.kind == item.row.role
    && hit.similarity == item.similarity
    && hit.context == Some(MessagesOf(ContextRows(table, session, excluded, ids, radius, item.row.id)))
  }

  function FindSpan(spanMessages: seq<(ContextSpan, seq<Message>)>, id: I64): (messages: Option<seq<Message>>) {
    if spanMessages == [] then None
    else if spanMessages[0].0.Contains(id) then Some(spanMessages[0].1)
    else FindSpan(spanMessages[1..], id)
  }

  lemma {:induction false} FindSpanFinds(spanMessages: seq<(ContextSpan, seq<Message>)>, id: I64, i: nat)
    requires i < |spanMessages| && spanMessages[i].0.Contains(id)
    requires forall j :: 0 <= j < |spanMessages| && spanMessages[j].0.Contains(id) ==> j == i
    ensures FindSpan(spanMessages, id) == Some(spanMessages[i].1)
  {
    if i > 0 {
      FindSpanFinds(spanMessages[1..], id, i - 1);
    }
  }

  method FetchShortTermCandidates(table: seq<Row>, session: string, neighbours: seq<Neighbour>, historyWindow: nat,
      contextRadius: nat)
      returns (out: seq<Hit>)
    requires IsTable(table) && historyWindow < 0x1_0000_0000_0000_0000 && contextRadius <= MAX
    ensures var excluded := RecentIds(table, session, historyWindow);
            var matches := Unexcluded(Join(table, session, neighbours), excluded);
            && |out| == |matches|
            && forall i :: 0 <= i < |matches| ==>
                 IsHitFor(table, session, excluded, MatchIds(matches), contextRadius, matches[i], out[i])
  {
    var excluded := RecentIds(table, session, historyWindow);
    var mapped := Join(table, session, neighbours);
    var matches := [];
    for n := 0 to |mapped|
      invariant matches == Unexcluded(mapped[..n], excluded)
    {
      UnexcludedOfMore(mapped, n, excluded);
      if mapped[n].row.id !in excluded {
        matches := matches + [mapped[n]];
      }
    }
    assert mapped[..|mapped|] == mapped;
    if matches == [] {
      return [];
    }
    JoinedAreFound(table, session, neighbours);
    UnexcludedAreFound(table, session, mapped, excluded);

    var ids := MatchIds(matches);
    var spans := MergeContextSpans(ids, contextRadius);
    var spanMessages := FetchContextMessages(table, session, spans, excluded);
    out := [];
    for n := 0 to |matches|
      invariant |out| == n
      invariant forall i :: 0 <= i < n ==> IsHitFor(table, session, excluded, ids, contextRadius, matches[i], out[i])
    {
      var row := matches[n].row;
      assert IsFound(table, session, matches[n]) && ids[n] == row.id;
      var context := FindSpan(spanMessages, row.id);
      ContextIsFound(table, session, excluded, ids, contextRadius, spans, spanMessages, row);
      var filtered := if context.Some? && context.value != [] then context else None;
      out := out + [Hit(Render(row.role, row.content, row.username), row.role, filtered, matches[n].similarity)];
    }
  }

  lemma {:induction false} ContextIsFound(table: seq<Row>, session: string, excluded: set<I64>, ids: seq<I64>,
      radius: nat, spans: seq<ContextSpan>,
                       spanMessages: seq<(ContextSpan, seq<Message>)>, row: Row)
    requires radius <= MAX && IsMerged(Windows(ids, radius), spans) && |spanMessages| == |spans|
    requires forall i :: 0 <= i < |spans| ==>
        spanMessages[i] == (spans[i], MessagesOf(RowsOfSpan(table, session, spans[i], excluded)))
    requires row in table && IsChat(session, row) && row.id in ids && row.id !in excluded
    ensures FindSpan(spanMessages, row.id)
        == Some(MessagesOf(ContextRows(table, session, excluded, ids, radius, row.id)))
    ensures FindSpan(spanMessages, row.id).value != []
  {
    var k :| 0 <= k < |ids| && ids[k] == row.id;
    MatchIsInOneSpan(ids, radius, spans, k);
    var i :| 0 <= i < |spans| && spans[i].Contains(row.id)
             && forall j :: 0 <= j < |spans| && spans[j].Contains(row.id) ==> j == i;
    FindSpanFinds(spanMessages, row.id, i);
    RowsOfTheSpan(table, session, excluded, ids, radius, spans, i, row.id);
    ContextOfAMatch(table, session, excluded, ids, radius, row, row);
  }
}
