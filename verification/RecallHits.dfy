/** The short-term hits of a recall, told from the neighbours of the query and the rows of the table. */
module RecallHits {
  import opened Options
  import opened TextLaws
  import opened ContextSpans
  import opened ContextMessages
  import opened ShortTermRecall

  /** A message of the conversation, by the user or the assistant, that the recent history does not show. */
  predicate IsOlderMessage(session: string, excluded: set<I64>, row: Row) {
    row.session == session && (row.role == "user" || row.role == "assistant") && row.id !in excluded
  }

  predicate IsHitOf(table: seq<Row>, session: string, excluded: set<I64>, neighbour: Neighbour, item: Match) {
    && item.row in table && item.row.id == neighbour.id && IsOlderMessage(session, excluded, item.row)
    && item.similarity == 1.0 - neighbour.distance * neighbour.distance / 2.0
  }

  predicate IsNoHit(table: seq<Row>, session: string, excluded: set<I64>, neighbour: Neighbour) {
    forall row <- table :: row.id == neighbour.id ==> !IsOlderMessage(session, excluded, row)
  }

  /** `picks` are the places of the neighbours that are hits, in their order; no other neighbour is one. */
  predicate ArePicks(table: seq<Row>, session: string, excluded: set<I64>, neighbours: seq<Neighbour>,
      matches: seq<Match>, picks: seq<nat>) {
    && |picks| == |matches|
    && (forall i :: 0 <= i < |picks| ==>
          picks[i] < |neighbours| && IsHitOf(table, session, excluded, neighbours[picks[i]], matches[i]))
    && (forall i, j :: 0 <= i < j < |picks| ==> picks[i] < picks[j])
    && forall n: nat :: n < |neighbours| && n !in picks ==> IsNoHit(table, session, excluded, neighbours[n])
  }

  function Shifted(picks: seq<nat>): (shifted: seq<nat>)
    ensures |shifted| == |picks|
    ensures forall i :: 0 <= i < |picks| ==> shifted[i] == picks[i] + 1
  {
    seq(|picks|, i requires 0 <= i < |picks| => picks[i] + 1)
  }

  lemma {:induction false} ShiftedContains(picks: seq<nat>, n: nat)
    ensures n > 0 && n !in Shifted(picks) ==> n - 1 !in picks
    ensures 0 !in Shifted(picks)
  {
    if n > 0 && n - 1 in picks {
      var i :| 0 <= i < |picks| && picks[i] == n - 1;
      assert Shifted(picks)[i] == n;
    }
  }

  /** The row under an id is the only one. */
  lemma {:induction false} RowIsUnique(table: seq<Row>, a: Row, b: Row)
    requires IsTable(table) && a in table && b in table && a.id == b.id
    ensures a == b
  {
    var i :| 0 <= i < |table| && table[i] == a;
    var j :| 0 <= j < |table| && table[j] == b;
    assert i == j;
  }

  lemma {:induction false} OneNeighbour(table: seq<Row>, session: string, excluded: set<I64>, neighbour: Neighbour)
    requires IsTable(table)
    ensures var joined := Unexcluded(JoinOne(table, session, neighbour), excluded);
            if joined == [] then IsNoHit(table, session, excluded, neighbour)
            else |joined| == 1 && IsHitOf(table, session, excluded, neighbour, joined[0])
  {
    var joined := JoinOne(table, session, neighbour);
    var row := FindRow(table, neighbour.id);
    if joined != [] {
      assert joined[1..] == [] && Unexcluded(joined[1..], excluded) == [];
    }
    forall other <- table | other.id == neighbour.id
      ensures row == Some(other)
    {
      var i :| 0 <= i < |table| && table[i] == other;
      RowIsUnique(table, other, row.value);
    }
  }

  /** Exactly the neighbours that are older messages of the conversation become matches, nearest first, each
      with its similarity. */
  lemma {:induction false} MatchesAreTheHits(table: seq<Row>, session: string, excluded: set<I64>,
      neighbours: seq<Neighbour>) returns (picks: seq<nat>)
    requires IsTable(table)
    ensures var matches := Unexcluded(Join(table, session, neighbours), excluded);
            ArePicks(table, session, excluded, neighbours, matches, picks)
    decreases |neighbours|
  {
    if neighbours == [] {
      picks := [];
    } else {
      var first := Unexcluded(JoinOne(table, session, neighbours[0]), excluded);
      var rest := Unexcluded(Join(table, session, neighbours[1..]), excluded);
      var more := MatchesAreTheHits(table, session, excluded, neighbours[1..]);
      OneNeighbour(table, session, excluded, neighbours[0]);
      UnexcludedOfConcat(JoinOne(table, session, neighbours[0]), Join(table, session, neighbours[1..]), excluded);
      picks := PicksWith(first != [], more);
      PicksOfMore(table, session, excluded, neighbours, first, rest, more);
    }
  }

  function PicksWith(isFirst: bool, more: seq<nat>): (picks: seq<nat>)
    ensures |picks| == |more| + if isFirst then 1 else 0
  {
    (if isFirst then [0] else []) + Shifted(more)
  }

  lemma {:induction false} LaterPicks(isFirst: bool, more: seq<nat>, n: nat)
    ensures n > 0 && n !in PicksWith(isFirst, more) ==> n - 1 !in more
    ensures 0 in PicksWith(isFirst, more) <==> isFirst
  {
    var picks, begin := PicksWith(isFirst, more), if isFirst then 1 else 0;
    ShiftedContains(more, n);
    if n in Shifted(more) {
      var k :| 0 <= k < |more| && Shifted(more)[k] == n;
      assert picks[begin + k] == n;
    }
    if isFirst {
      assert picks[0] == 0;
    }
  }

  lemma {:induction false} PicksAreHits(table: seq<Row>, session: string, excluded: set<I64>,
      neighbours: seq<Neighbour>, first: seq<Match>, rest: seq<Match>, more: seq<nat>, i: nat)
    requires neighbours != [] && ArePicks(table, session, excluded, neighbours[1..], rest, more)
    requires |first| <= 1 && (first != [] ==> IsHitOf(table, session, excluded, neighbours[0], first[0]))
    requires i < |first| + |rest|
    ensures var pick := PicksWith(first != [], more)[i];
            pick < |neighbours| && IsHitOf(table, session, excluded, neighbours[pick], (first + rest)[i])
  {
    if i >= |first| {
      var k := i - |first|;
      assert PicksWith(first != [], more)[i] == more[k] + 1 && (first + rest)[i] == rest[k];
      assert neighbours[1..][more[k]] == neighbours[more[k] + 1];
    }
  }

  lemma {:induction false} PicksOfMore(table: seq<Row>, session: string, excluded: set<I64>,
      neighbours: seq<Neighbour>, first: seq<Match>, rest: seq<Match>, more: seq<nat>)
    requires neighbours != [] && ArePicks(table, session, excluded, neighbours[1..], rest, more)
    requires if first == [] then IsNoHit(table, session, excluded, neighbours[0])
             else |first| == 1 && IsHitOf(table, session, excluded, neighbours[0], first[0])
    ensures ArePicks(table, session, excluded, neighbours, first + rest, PicksWith(first != [], more))
  {
    var picks := PicksWith(first != [], more);
    forall i | 0 <= i < |picks|
      ensures picks[i] < |neighbours| && IsHitOf(table, session, excluded, neighbours[picks[i]], (first + rest)[i])
    {
      PicksAreHits(table, session, excluded, neighbours, first, rest, more, i);
    }
    forall n: nat | n < |neighbours| && n !in picks
      ensures IsNoHit(table, session, excluded, neighbours[n])
    {
      LaterPicks(first != [], more, n);
      if n > 0 {
        assert neighbours[n] == neighbours[1..][n - 1];
      }
    }
    PicksIncrease(first != [], more);
  }

  lemma {:induction false} PicksIncrease(isFirst: bool, more: seq<nat>)
    requires forall i, j :: 0 <= i < j < |more| ==> more[i] < more[j]
    ensures var picks := PicksWith(isFirst, more); forall i, j :: 0 <= i < j < |picks| ==> picks[i] < picks[j]
  {
  }

  // ---------------------------------------------------------------------------------------------
  // The text of a hit.

  /** A user's message is shown with the name in front, if there is one besides white space. */
  lemma {:induction false} UserIsNamed(content: string, before: string, name: string, after: string)
    requires IsBlank(before) && IsBlank(after) && IsTrimmed(name)
    ensures Render("user", content, Some(before + name + after))
         == if |name| > 0 then "[" + name + "] " + content else content
  {
    TrimOf(before, name, after);
  }

  lemma {:induction false} OthersAreNotNamed(role: string, content: string, username: Option<string>)
    requires role == "user" ==> username == None
    ensures Render(role, content, username) == content
  {
  }

  /** The context of a hit, in the table's order: the messages of the conversation that are connected to it
      by ids near some match and that the recent history does not show. */
  lemma {:induction false} ContextIs(table: seq<Row>, session: string, excluded: set<I64>, ids: seq<I64>, radius: nat,
      id: I64, row: Row)
    requires IsTable(table)
    ensures var context := ContextRows(table, session, excluded, ids, radius, id);
            && IsTable(context)
            && (row in context <==>
                  row in table && IsOlderMessage(session, excluded, row) && IsConnected(ids, radius, id, row.id))
  {
    var p := (r: Row) => IsChat(session, r) && IsConnected(ids, radius, id, r.id) && r.id !in excluded;
    FilterMember(table, p, row);
    FilterKeepsOrder(table, p);
  }

  /** The messages that the recent history shows: of all messages of the conversation the newest, as many as
      its window holds. */
  lemma {:induction false} RecentMessagesAre(table: seq<Row>, session: string, historyWindow: nat, row: Row, other: Row)
    requires IsTable(table) && historyWindow <= MAX
    requires row in table && other in table && IsOlderMessage(session, {}, row) && IsOlderMessage(session, {}, other)
    ensures var recent := RecentIds(table, session, historyWindow);
            && |recent| <= historyWindow
            && (row.id !in recent ==> |recent| == historyWindow && (other.id in recent ==> row.id < other.id))
  {
    var chat := ChatRows(table, session);
    FilterMember(table, r => IsChat(session, r), row);
    RecentIdsAreTheNewest(table, session, historyWindow, row);
    if historyWindow > |chat| {
      FilterKeepsOrder(table, r => IsChat(session, r));
      assert Newest(chat, historyWindow) == chat;
      assert row.id in IdsOf(chat);
    }
    if row.id !in RecentIds(table, session, historyWindow) && historyWindow == |chat| {
      assert Newest(chat, historyWindow) == chat;
    }
  }
}
