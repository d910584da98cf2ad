/** Which stretches of a conversation are shown around the messages that a recall found. */
module ContextSpans {
  const MIN: int := -0x8000_0000_0000_0000
  const MAX: int := 0x7fff_ffff_ffff_ffff

  type I64 = x: int | MIN <= x <= MAX

  function Clamp(x: int): I64 {
    if x < MIN then MIN else if x > MAX then MAX else x
  }

  function SaturatingAdd(a: I64, b: I64): I64 { Clamp(a + b) }

  function SaturatingSub(a: I64, b: I64): I64 { Clamp(a - b) }

  /** `n as i64` for an unsigned 64-bit number: it wraps around. */
  function AsI64(n: nat): I64
    requires n < 0x1_0000_0000_0000_0000
  {
    if n <= MAX then n else n - 0x1_0000_0000_0000_0000
  }

  datatype ContextSpan = ContextSpan(startId: I64, endId: I64) {
    predicate Contains(id: int) {
      startId <= id <= endId
    }
  }

  /** The span around one match. */
  function Window(id: I64, radius: I64): ContextSpan {
    ContextSpan(SaturatingSub(id, radius), SaturatingAdd(id, radius))
  }

  predicate Near(id: int, x: int, radius: int) {
    -radius <= x - id <= radius
  }

  lemma WindowIsNear(id: I64, radius: I64, x: I64)
    requires 0 <= radius
    ensures Window(id, radius).Contains(x) <==> Near(id, x, radius)
    ensures Window(id, radius).Contains(id)
  {
  }

  predicate IsCovered(spans: seq<ContextSpan>, x: int) {
    exists i :: 0 <= i < |spans| && spans[i].Contains(x)
  }

  predicate AreSpans(spans: seq<ContextSpan>) {
    forall i :: 0 <= i < |spans| ==> spans[i].startId <= spans[i].endId
  }

  /** In order, disjoint, and with at least one id between two neighbours. */
  predicate AreApart(spans: seq<ContextSpan>) {
    forall i, j :: 0 <= i < j < |spans| ==> spans[i].endId + 1 < spans[j].startId
  }

  ghost predicate IsMerged(windows: seq<ContextSpan>, merged: seq<ContextSpan>) {
    && AreSpans(merged)
    && AreApart(merged)
    && forall x :: IsCovered(merged, x) <==> IsCovered(windows, x)
  }

  // ---------------------------------------------------------------------------------------------
  // `spans.sort_by_key(|span| span.start_id)`

  predicate IsByStart(spans: seq<ContextSpan>) {
    forall i, j :: 0 <= i < j < |spans| ==> spans[i].startId <= spans[j].startId
  }

  function SortByStart(spans: seq<ContextSpan>): (sorted: seq<ContextSpan>)
    ensures multiset(sorted) == multiset(spans)
  {
    if spans == [] then []
    else
      assert spans == spans[..|spans| - 1] + [spans[|spans| - 1]];
      InsertByStart(SortByStart(spans[..|spans| - 1]), spans[|spans| - 1])
  }

  function InsertByStart(sorted: seq<ContextSpan>, span: ContextSpan): (longer: seq<ContextSpan>)
    ensures multiset(longer) == multiset(sorted) + multiset{span}
  {
    if sorted == [] || span.startId < sorted[0].startId then [span] + sorted
    else
      assert sorted == [sorted[0]] + sorted[1..];
      [sorted[0]] + InsertByStart(sorted[1..], span)
  }

  lemma {:induction false} InsertKeepsOrder(sorted: seq<ContextSpan>, span: ContextSpan)
    requires IsByStart(sorted)
    ensures var longer := InsertByStart(sorted, span);
            IsByStart(longer) && |longer| > 0 && (longer[0] == span || (sorted != [] && longer[0] == sorted[0]))
  {
    if sorted != [] && span.startId >= sorted[0].startId {
      InsertKeepsOrder(sorted[1..], span);
      var rest := InsertByStart(sorted[1..], span);
      assert InsertByStart(sorted, span) == [sorted[0]] + rest;
      assert rest[0] == span || (|sorted| > 1 && rest[0] == sorted[1]);
    }
  }

  lemma {:induction false} SortByStartSorts(spans: seq<ContextSpan>)
    ensures IsByStart(SortByStart(spans))
  {
    if spans != [] {
      SortByStartSorts(spans[..|spans| - 1]);
      InsertKeepsOrder(SortByStart(spans[..|spans| - 1]), spans[|spans| - 1]);
    }
  }

  lemma SameElementsCoverTheSame(a: seq<ContextSpan>, b: seq<ContextSpan>, x: int)
    requires multiset(a) == multiset(b) && IsCovered(a, x)
    ensures IsCovered(b, x)
  {
    var i :| 0 <= i < |a| && a[i].Contains(x);
    assert a[i] in multiset(b);
    var j :| 0 <= j < |b| && b[j] == a[i];
  }

  // ---------------------------------------------------------------------------------------------
  // merge_short_term_context_spans

  function Windows(ids: seq<I64>, radius: I64): (windows: seq<ContextSpan>) {
    seq(|ids|, i requires 0 <= i < |ids| => Window(ids[i], radius))
  }

  /** The merging loop after `n` spans. */
  ghost predicate HasMerged(spans: seq<ContextSpan>, n: nat, merged: seq<ContextSpan>)
    requires n <= |spans|
  {
    && IsMerged(spans[..n], merged)
    && (n > 0 ==> merged != [])
    && forall i, k :: 0 <= i < |merged| && n <= k < |spans| ==> merged[i].startId <= spans[k].startId
  }

  lemma CoveredByMore(spans: seq<ContextSpan>, more: ContextSpan, x: int)
    ensures IsCovered(spans + [more], x) <==> IsCovered(spans, x) || more.Contains(x)
  {
    var all := spans + [more];
    assert all[|spans|] == more;
    if IsCovered(spans, x) {
      var i :| 0 <= i < |spans| && spans[i].Contains(x);
      assert all[i].Contains(x);
    }
  }

  lemma PushSpan(spans: seq<ContextSpan>, n: nat, merged: seq<ContextSpan>)
    requires n < |spans| && IsByStart(spans) && AreSpans(spans) && HasMerged(spans, n, merged)
    requires merged != [] ==> merged[|merged| - 1].endId + 1 < spans[n].startId
    ensures HasMerged(spans, n + 1, merged + [spans[n]])
  {
    var more := merged + [spans[n]];
    assert spans[..n + 1] == spans[..n] + [spans[n]];
    forall x
      ensures IsCovered(more, x) <==> IsCovered(spans[..n + 1], x)
    {
      CoveredByMore(merged, spans[n], x);
      CoveredByMore(spans[..n], spans[n], x);
    }
  }

  lemma ExtendLast(spans: seq<ContextSpan>, n: nat, merged: seq<ContextSpan>, last: ContextSpan)
    requires n < |spans| && IsByStart(spans) && AreSpans(spans) && HasMerged(spans, n, merged)
    requires merged != [] && spans[n].startId <= merged[|merged| - 1].endId + 1
    requires last.startId == merged[|merged| - 1].startId
    requires last.endId == if merged[|merged| - 1].endId >= spans[n].endId then merged[|merged| - 1].endId
        else spans[n].endId
    ensures HasMerged(spans, n + 1, merged[..|merged| - 1] + [last])
  {
    var before := merged[..|merged| - 1];
    var previous := merged[|merged| - 1];
    assert merged == before + [previous];
    assert spans[..n + 1] == spans[..n] + [spans[n]];
    forall x
      ensures IsCovered(before + [last], x) <==> IsCovered(spans[..n + 1], x)
    {
      CoveredByMore(before, last, x);
      CoveredByMore(before, previous, x);
      CoveredByMore(spans[..n], spans[n], x);
    }
  }

  method MergeContextSpans(ids: seq<I64>, contextRadius: nat) returns (merged: seq<ContextSpan>)
    requires contextRadius <= MAX
    ensures IsMerged(Windows(ids, contextRadius), merged)
  {
    var radius := AsI64(contextRadius);
    var windows := Windows(ids, radius);
    var spans := SortByStart(windows);
    SortByStartSorts(windows);
    SortedWindows(windows, spans);
    merged := [];
    assert spans[..0] == [];
    for n := 0 to |spans|
      invariant HasMerged(spans, n, merged)
    {
      var span := spans[n];
      if merged != [] && span.startId <= SaturatingAdd(merged[|merged| - 1].endId, 1) {
        var last := merged[|merged| - 1];
        var longer := last.(endId := if last.endId >= span.endId then last.endId else span.endId);
        ExtendLast(spans, n, merged, longer);
        merged := merged[..|merged| - 1] + [longer];
      } else {
        PushSpan(spans, n, merged);
        merged := merged + [span];
      }
    }
    assert spans[..|spans|] == spans;
  }

  lemma SortedWindows(windows: seq<ContextSpan>, spans: seq<ContextSpan>)
    requires AreSpans(windows) && multiset(spans) == multiset(windows)
    ensures AreSpans(spans)
    ensures forall x :: IsCovered(spans, x) <==> IsCovered(windows, x)
  {
    forall i | 0 <= i < |spans|
      ensures spans[i].startId <= spans[i].endId
    {
      assert spans[i] in multiset(windows);
      var j :| 0 <= j < |windows| && windows[j] == spans[i];
    }
    forall x
      ensures IsCovered(spans, x) <==> IsCovered(windows, x)
    {
      if IsCovered(spans, x) {
        SameElementsCoverTheSame(spans, windows, x);
      }
      if IsCovered(windows, x) {
        SameElementsCoverTheSame(windows, spans, x);
      }
    }
  }

  // ---------------------------------------------------------------------------------------------
  // What merged spans are.

  lemma InOneSpan(spans: seq<ContextSpan>, i: nat, j: nat, x: int)
    requires AreSpans(spans) && AreApart(spans) && i < |spans| && j < |spans|
    requires spans[i].Contains(x) && spans[j].Contains(x)
    ensures i == j
  {
  }

  /** Two ids are in one span exactly when everything between them is covered. */
  lemma SameSpanIff(spans: seq<ContextSpan>, i: nat, x: int, y: int)
    requires AreSpans(spans) && AreApart(spans) && i < |spans| && spans[i].Contains(x)
    ensures spans[i].Contains(y) <==> forall z :: x <= z <= y || y <= z <= x ==> IsCovered(spans, z)
  {
    if spans[i].Contains(y) {
      assert forall z :: x <= z <= y || y <= z <= x ==> spans[i].Contains(z);
    } else {
      var gap := if y > x then spans[i].endId + 1 else spans[i].startId - 1;
      NotCoveredBeside(spans, i, gap);
    }
  }

  lemma NotCoveredBeside(spans: seq<ContextSpan>, i: nat, gap: int)
    requires AreSpans(spans) && AreApart(spans) && i < |spans|
    requires gap == spans[i].endId + 1 || gap == spans[i].startId - 1
    ensures !IsCovered(spans, gap)
  {
    forall j | 0 <= j < |spans|
      ensures !spans[j].Contains(gap)
    {
      assert j < i ==> spans[j].endId + 1 < spans[i].startId;
      assert i < j ==> spans[i].endId + 1 < spans[j].startId;
    }
  }

  predicate CoversTheSame(a: seq<ContextSpan>, b: seq<ContextSpan>, x: int) {
    IsCovered(a, x) <==> IsCovered(b, x)
  }

  lemma SpanIsTheOnlyCover(a: seq<ContextSpan>, b: seq<ContextSpan>, i: nat)
    requires AreSpans(a) && AreApart(a) && AreSpans(b) && AreApart(b) && i < |a|
    requires forall x :: CoversTheSame(a, b, x)
    ensures a[i] in b
  {
    var span := a[i];
    assert a[i].Contains(span.startId) && CoversTheSame(a, b, span.startId);
    var j :| 0 <= j < |b| && b[j].Contains(span.startId);
    forall y
      ensures b[j].Contains(y) <==> a[i].Contains(y)
    {
      SameSpanIff(a, i, span.startId, y);
      SameSpanIff(b, j, span.startId, y);
      assert forall z :: CoversTheSame(a, b, z);
      BetweenIsSame(a, b, span.startId, y);
    }
    assert b[j].Contains(b[j].startId) && b[j].Contains(b[j].endId) && a[i].Contains(span.endId);
    assert b[j] == a[i];
  }

  lemma BetweenIsSame(a: seq<ContextSpan>, b: seq<ContextSpan>, x: int, y: int)
    requires forall z :: CoversTheSame(a, b, z)
    ensures (forall z :: x <= z <= y || y <= z <= x ==> IsCovered(a, z))
        <==> (forall z :: x <= z <= y || y <= z <= x ==> IsCovered(b, z))
  {
    if forall z :: x <= z <= y || y <= z <= x ==> IsCovered(a, z) {
      forall z | x <= z <= y || y <= z <= x ensures IsCovered(b, z) { assert CoversTheSame(a, b, z); }
    }
    if forall z :: x <= z <= y || y <= z <= x ==> IsCovered(b, z) {
      forall z | x <= z <= y || y <= z <= x ensures IsCovered(a, z) { assert CoversTheSame(a, b, z); }
    }
  }

  /** There is one way to write a set of ids as merged spans. */
  lemma {:induction false} MergedIsUnique(a: seq<ContextSpan>, b: seq<ContextSpan>)
    requires AreSpans(a) && AreApart(a) && AreSpans(b) && AreApart(b)
    requires forall x :: CoversTheSame(a, b, x)
    ensures a == b
  {
    forall i | 0 <= i < |a| ensures a[i] in b { SpanIsTheOnlyCover(a, b, i); }
    forall i | 0 <= i < |b| ensures b[i] in a {
      forall x ensures CoversTheSame(b, a, x) { assert CoversTheSame(a, b, x); }
      SpanIsTheOnlyCover(b, a, i);
    }
    SameOrderedElements(a, b);
  }

  lemma {:induction false} SameOrderedElements(a: seq<ContextSpan>, b: seq<ContextSpan>)
    requires AreSpans(a) && AreApart(a) && AreSpans(b) && AreApart(b)
    requires AreIn(a, b) && AreIn(b, a)
    ensures a == b
    decreases |a|
  {
    EmptyOnlyInEmpty(a, b);
    EmptyOnlyInEmpty(b, a);
    if a != [] && b != [] {
      SameStep(a, b);
      SameOrderedElements(a[1..], b[1..]);
      assert a == [a[0]] + a[1..] && b == [b[0]] + b[1..];
    }
  }

  lemma SameStep(a: seq<ContextSpan>, b: seq<ContextSpan>)
    requires AreSpans(a) && AreApart(a) && AreSpans(b) && AreApart(b) && a != [] && b != []
    requires AreIn(a, b) && AreIn(b, a)
    ensures a[0] == b[0] && AreIn(a[1..], b[1..]) && AreIn(b[1..], a[1..])
    ensures AreSpans(a[1..]) && AreApart(a[1..]) && AreSpans(b[1..]) && AreApart(b[1..])
  {
    SameFirst(a, b);
    RestIsInRest(a, b);
    RestIsInRest(b, a);
    RestIsApart(a);
    RestIsApart(b);
  }

  predicate AreIn(a: seq<ContextSpan>, b: seq<ContextSpan>) {
    forall i :: 0 <= i < |a| ==> a[i] in b
  }

  lemma EmptyOnlyInEmpty(a: seq<ContextSpan>, b: seq<ContextSpan>)
    requires AreIn(a, b)
    ensures a != [] ==> b != []
  {
    if a != [] {
      assert a[0] in b;
    }
  }

  lemma RestIsApart(a: seq<ContextSpan>)
    requires AreSpans(a) && AreApart(a) && a != []
    ensures AreSpans(a[1..]) && AreApart(a[1..])
  {
  }

  lemma SameFirst(a: seq<ContextSpan>, b: seq<ContextSpan>)
    requires AreSpans(a) && AreApart(a) && AreSpans(b) && AreApart(b) && a != [] && b != []
    requires a[0] in b && b[0] in a
    ensures a[0] == b[0]
  {
    var i :| 0 <= i < |b| && b[i] == a[0];
    var j :| 0 <= j < |a| && a[j] == b[0];
    assert i > 0 ==> b[0].endId + 1 < b[i].startId;
    assert j > 0 ==> a[0].endId + 1 < a[j].startId;
  }

  lemma RestIsInRest(a: seq<ContextSpan>, b: seq<ContextSpan>)
    requires AreSpans(a) && AreApart(a) && a != [] && b != [] && a[0] == b[0] && AreIn(a, b)
    ensures AreIn(a[1..], b[1..])
  {
    forall i | 0 <= i < |a[1..]|
      ensures a[1..][i] in b[1..]
    {
      assert a[i + 1] in b;
      var k :| 0 <= k < |b| && b[k] == a[i + 1];
      assert a[0].endId + 1 < a[i + 1].startId;
      assert b[1..][k - 1] == b[k];
    }
  }
}
