/** Choosing the memories that a recall returns: the best hit of each distinct content, best first. */
module RecallRanking {
  import opened Text

  datatype Hit = Hit(content: string, rawSimilarity: real, finalScore: real)

  /** `lower` stands for `str::to_lowercase`. */
  datatype Config = Config(minScore: real, topK: nat, lower: string -> string)

  // ---------------------------------------------------------------------------------------------
  // normalize_memory_key

  function WordLength(s: string): (n: nat)
    ensures n <= |s|
    ensures s != "" && !IsWhitespace(s[0]) ==> n > 0
  {
    if s == "" || IsWhitespace(s[0]) then 0 else 1 + WordLength(s[1..])
  }

  /** `split_whitespace` */
  function Words(s: string): seq<string>
    decreases |s|
  {
    if s == "" then []
    else if IsWhitespace(s[0]) then Words(s[1..])
    else var n := WordLength(s); [s[..n]] + Words(s[n..])
  }

  function NormalizeKey(lower: string -> string, content: string): string {
    lower(Join(Words(content), " "))
  }

  predicate IsWord(w: string) {
    w != "" && WordLength(w) == |w|
  }

  lemma {:induction false} WordLengthOfPrefix(s: string)
    ensures WordLength(s[..WordLength(s)]) == WordLength(s)
  {
    if s != "" && !IsWhitespace(s[0]) {
      WordLengthOfPrefix(s[1..]);
      assert s[..WordLength(s)][1..] == s[1..][..WordLength(s[1..])];
    }
  }

  lemma {:induction false} WordsAreWords(s: string)
    ensures forall i :: 0 <= i < |Words(s)| ==> IsWord(Words(s)[i])
    decreases |s|
  {
    if s != "" {
      if IsWhitespace(s[0]) {
        WordsAreWords(s[1..]);
      } else {
        WordLengthOfPrefix(s);
        WordsAreWords(s[WordLength(s)..]);
      }
    }
  }

  lemma {:induction false} WordLengthUpToSpace(w: string, rest: string)
    requires WordLength(w) == |w| && (rest == "" || IsWhitespace(rest[0]))
    ensures WordLength(w + rest) == |w|
  {
    if w == "" {
      assert w + rest == rest;
    } else {
      WordLengthUpToSpace(w[1..], rest);
      assert (w + rest)[1..] == w[1..] + rest;
    }
  }

  lemma {:induction false} WordsOfJoin(words: seq<string>)
    requires forall i :: 0 <= i < |words| ==> IsWord(words[i])
    ensures Words(Join(words, " ")) == words
  {
    if words != [] {
      var w := words[0];
      assert IsWord(w);
      var rest := if |words| == 1 then "" else " " + Join(words[1..], " ");
      assert Join(words, " ") == w + rest;
      WordLengthUpToSpace(w, rest);
      assert (w + rest)[..|w|] == w && (w + rest)[|w|..] == rest && (w + rest)[0] == w[0];
      WordsOfJoin(words[1..]);
      if |words| > 1 {
        assert rest[1..] == Join(words[1..], " ");
      }
    }
  }

  function LowerWords(lower: string -> string, words: seq<string>): (lowered: seq<string>)
    ensures |lowered| == |words|
  {
    seq(|words|, i requires 0 <= i < |words| => lower(words[i]))
  }

  /** Lower-casing works word by word, as `str::to_lowercase` does: blanks stay, and words stay words. */
  ghost predicate LowersWordByWord(lower: string -> string) {
    && (forall w :: IsWord(w) ==> IsWord(lower(w)))
    && (forall words :: (forall i :: 0 <= i < |words| ==> IsWord(words[i])) ==>
          lower(Join(words, " ")) == Join(LowerWords(lower, words), " "))
  }

  lemma KeyIsTheLoweredWords(lower: string -> string, content: string)
    requires LowersWordByWord(lower)
    ensures NormalizeKey(lower, content) == Join(LowerWords(lower, Words(content)), " ")
    ensures Words(NormalizeKey(lower, content)) == LowerWords(lower, Words(content))
  {
    WordsAreWords(content);
    WordsOfJoin(LowerWords(lower, Words(content)));
  }

  /** Contents have one key exactly when they have the same words, up to letter case, in the same order,
      however these are spaced; and a key is empty exactly for contents without words. */
  lemma SameKeyIff(lower: string -> string, a: string, b: string)
    requires LowersWordByWord(lower)
    ensures NormalizeKey(lower, a) == NormalizeKey(lower, b)
        <==> LowerWords(lower, Words(a)) == LowerWords(lower, Words(b))
    ensures NormalizeKey(lower, a) == "" <==> Words(a) == []
  {
    KeyIsTheLoweredWords(lower, a);
    KeyIsTheLoweredWords(lower, b);
    if NormalizeKey(lower, a) == "" {
      assert Words("") == [];
      assert |LowerWords(lower, Words(a))| == 0;
    }
  }

  // ---------------------------------------------------------------------------------------------
  // What a ranking is.

  predicate IsEligible(config: Config, hit: Hit) {
    hit.rawSimilarity >= config.minScore && NormalizeKey(config.lower, hit.content) != ""
  }

  function Key(config: Config, candidates: seq<Hit>, c: nat): string
    requires c < |candidates|
  {
    NormalizeKey(config.lower, candidates[c].content)
  }

  /** Candidate `a` comes before `b`: by score, and by arrival among equal scores. */
  predicate Beats(candidates: seq<Hit>, a: nat, b: nat)
    requires a < |candidates| && b < |candidates|
  {
    || candidates[a].finalScore > candidates[b].finalScore
    || (candidates[a].finalScore == candidates[b].finalScore && a < b)
  }

  /** The limit is looked at only after a hit was taken, so that it is never below one. */
  function Limit(config: Config): nat {
    if config.topK == 0 then 1 else config.topK
  }

  predicate AreCandidates(candidates: seq<Hit>, chosen: seq<nat>) {
    forall i :: 0 <= i < |chosen| ==> chosen[i] < |candidates|
  }

  predicate IsOrdered(candidates: seq<Hit>, chosen: seq<nat>)
    requires AreCandidates(candidates, chosen)
  {
    forall i, j :: 0 <= i < j < |chosen| ==> Beats(candidates, chosen[i], chosen[j])
  }

  predicate AreDistinct(config: Config, candidates: seq<Hit>, chosen: seq<nat>)
    requires AreCandidates(candidates, chosen)
  {
    forall i, j :: 0 <= i < j < |chosen| ==> Key(config, candidates, chosen[i]) != Key(config, candidates, chosen[j])
  }

  /** A chosen candidate with the key of `c` is `c` or beats it. */
  predicate IsRepresented(config: Config, candidates: seq<Hit>, chosen: seq<nat>, c: nat)
    requires AreCandidates(candidates, chosen) && c < |candidates|
  {
    exists i :: 0 <= i < |chosen| && Represents(config, candidates, chosen[i], c)
  }

  predicate Represents(config: Config, candidates: seq<Hit>, r: nat, c: nat)
    requires r < |candidates| && c < |candidates|
  {
    Key(config, candidates, r) == Key(config, candidates, c) && (r == c || Beats(candidates, r, c))
  }

  predicate IsBeatenByAll(candidates: seq<Hit>, chosen: seq<nat>, c: nat)
    requires AreCandidates(candidates, chosen) && c < |candidates|
  {
    forall i :: 0 <= i < |chosen| ==> Beats(candidates, chosen[i], c)
  }

  /** The chosen candidates are eligible, best first, of distinct keys and no more than allowed; and an
      eligible candidate is left out only for a better one of its key or a full list of better ones. */
  predicate IsRanking(config: Config, candidates: seq<Hit>, chosen: seq<nat>) {
    && IsChoice(config, candidates, chosen)
    && forall c :: 0 <= c < |candidates| && IsEligible(config, candidates[c]) ==>
        IsDecided(config, candidates, chosen, c)
  }

  predicate IsChoice(config: Config, candidates: seq<Hit>, chosen: seq<nat>) {
    && |chosen| <= Limit(config)
    && AreCandidates(candidates, chosen)
    && (forall i :: 0 <= i < |chosen| ==> IsEligible(config, candidates[chosen[i]]))
    && IsOrdered(candidates, chosen)
    && AreDistinct(config, candidates, chosen)
  }

  predicate IsDecided(config: Config, candidates: seq<Hit>, chosen: seq<nat>, c: nat)
    requires AreCandidates(candidates, chosen) && c < |candidates|
  {
    || IsRepresented(config, candidates, chosen, c)
    || (|chosen| == Limit(config) && IsBeatenByAll(candidates, chosen, c))
  }

  function Picked(candidates: seq<Hit>, chosen: seq<nat>): seq<Hit>
    requires AreCandidates(candidates, chosen)
  {
    seq(|chosen|, i requires 0 <= i < |chosen| => candidates[chosen[i]])
  }

  ghost predicate IsRankingOf(config: Config, candidates: seq<Hit>, out: seq<Hit>) {
    exists chosen :: IsRanking(config, candidates, chosen) && out == Picked(candidates, chosen)
  }

  // ---------------------------------------------------------------------------------------------
  // There is one ranking.

  /** Where two rankings agree so far, nothing before place `i` of the one represents what the other
      has there. */
  lemma NotRepresentedBefore(config: Config, candidates: seq<Hit>, a: seq<nat>, b: seq<nat>, i: nat)
    requires IsChoice(config, candidates, a) && IsChoice(config, candidates, b)
    requires i < |a| && i <= |b| && a[..i] == b[..i]
    ensures forall j :: 0 <= j < i ==> !Represents(config, candidates, b[j], a[i])
  {
    forall j | 0 <= j < i
      ensures !Represents(config, candidates, b[j], a[i])
    {
      assert a[..i][j] == a[j] && b[..i][j] == b[j];
    }
  }

  lemma Decision(config: Config, candidates: seq<Hit>, chosen: seq<nat>, c: nat)
    requires IsRanking(config, candidates, chosen)
    requires c < |candidates| && IsEligible(config, candidates[c])
    ensures IsDecided(config, candidates, chosen, c)
  {
  }

  lemma LaterIsNotBetter(candidates: seq<Hit>, chosen: seq<nat>, i: nat, j: nat, c: nat)
    requires AreCandidates(candidates, chosen) && IsOrdered(candidates, chosen)
    requires i <= j < |chosen| && c < |candidates| && (chosen[j] == c || Beats(candidates, chosen[j], c))
    ensures !Beats(candidates, c, chosen[i])
  {
    assert i < j ==> Beats(candidates, chosen[i], chosen[j]);
  }

  lemma NextChoiceAgrees(config: Config, candidates: seq<Hit>, a: seq<nat>, b: seq<nat>, i: nat)
    requires IsRanking(config, candidates, a) && IsRanking(config, candidates, b)
    requires i < |a| && i < |b| && a[..i] == b[..i]
    ensures !Beats(candidates, a[i], b[i])
  {
    var c := a[i];
    NotRepresentedBefore(config, candidates, a, b, i);
    Decision(config, candidates, b, c);
    if IsRepresented(config, candidates, b, c) {
      var j :| 0 <= j < |b| && Represents(config, candidates, b[j], c);
      LaterIsNotBetter(candidates, b, i, j, c);
    }
  }

  lemma LengthsAgree(config: Config, candidates: seq<Hit>, a: seq<nat>, b: seq<nat>)
    requires IsRanking(config, candidates, a) && IsRanking(config, candidates, b)
    requires |a| <= |b| && a == b[..|a|]
    ensures a == b
  {
    if |a| < |b| {
      assert a[..|a|] == a;
      NotRepresentedBefore(config, candidates, b, a, |a|);
      Decision(config, candidates, a, b[|a|]);
    }
  }

  lemma BeatsIsTotal(candidates: seq<Hit>, a: nat, b: nat)
    requires a < |candidates| && b < |candidates| && !Beats(candidates, a, b) && !Beats(candidates, b, a)
    ensures a == b
  {
  }

  lemma ChoicesAgree(config: Config, candidates: seq<Hit>, a: seq<nat>, b: seq<nat>, k: nat)
    requires IsRanking(config, candidates, a) && IsRanking(config, candidates, b)
    requires k < |a| && k < |b| && a[..k] == b[..k]
    ensures a[k] == b[k]
  {
    NextChoiceAgrees(config, candidates, a, b, k);
    NextChoiceAgrees(config, candidates, b, a, k);
    BeatsIsTotal(candidates, a[k], b[k]);
  }

  lemma LongerPrefix(a: seq<nat>, b: seq<nat>, i: nat)
    requires 0 < i <= |a| && i <= |b| && a[..i - 1] == b[..i - 1] && a[i - 1] == b[i - 1]
    ensures a[..i] == b[..i]
  {
    assert a[..i] == a[..i - 1] + [a[i - 1]] && b[..i] == b[..i - 1] + [b[i - 1]];
  }

  lemma {:induction false} PrefixesAgree(config: Config, candidates: seq<Hit>, a: seq<nat>, b: seq<nat>, i: nat)
    requires IsRanking(config, candidates, a) && IsRanking(config, candidates, b)
    requires i <= |a| && i <= |b|
    ensures a[..i] == b[..i]
  {
    if i > 0 {
      PrefixesAgree(config, candidates, a, b, i - 1);
      ChoicesAgree(config, candidates, a, b, i - 1);
      LongerPrefix(a, b, i);
    }
  }

  lemma RankingIsUnique(config: Config, candidates: seq<Hit>, a: seq<nat>, b: seq<nat>)
    requires IsRanking(config, candidates, a) && IsRanking(config, candidates, b)
    ensures a == b
  {
    var i := if |a| <= |b| then |a| else |b|;
    PrefixesAgree(config, candidates, a, b, i);
    assert a[..|a|] == a && b[..|b|] == b;
    if |a| <= |b| {
      LengthsAgree(config, candidates, a, b);
    } else {
      LengthsAgree(config, candidates, b, a);
    }
  }

  /** A smaller limit returns the beginning of what a larger one returns. */
  lemma SmallerLimitIsPrefix(config: Config, candidates: seq<Hit>, chosen: seq<nat>, topK: nat, fewer: seq<nat>)
    requires IsRanking(config, candidates, chosen) && 0 < topK <= config.topK
    requires IsRanking(config.(topK := topK), candidates, fewer)
    ensures fewer == if topK <= |chosen| then chosen[..topK] else chosen
  {
    PrefixIsRanking(config, candidates, chosen, topK);
    RankingIsUnique(config.(topK := topK), candidates, fewer, if topK <= |chosen| then chosen[..topK] else chosen);
  }

  lemma PrefixIsRanking(config: Config, candidates: seq<Hit>, chosen: seq<nat>, topK: nat)
    requires IsRanking(config, candidates, chosen) && 0 < topK <= config.topK
    ensures IsRanking(config.(topK := topK), candidates, if topK <= |chosen| then chosen[..topK] else chosen)
  {
    var smaller := config.(topK := topK);
    var prefix := if topK <= |chosen| then chosen[..topK] else chosen;
    assert IsChoice(smaller, candidates, prefix);
    forall c | 0 <= c < |candidates| && IsEligible(smaller, candidates[c])
      ensures IsDecided(smaller, candidates, prefix, c)
    {
      Decision(config, candidates, chosen, c);
      PrefixDecides(config, smaller, candidates, chosen, prefix, c);
    }
  }

  lemma PrefixDecides(config: Config, smaller: Config, candidates: seq<Hit>, chosen: seq<nat>, prefix: seq<nat>, c: nat)
    requires smaller == config.(topK := smaller.topK) && smaller.topK <= config.topK
    requires AreCandidates(candidates, chosen) && IsOrdered(candidates, chosen)
    requires prefix <= chosen && |prefix| <= Limit(smaller) && (|prefix| == Limit(smaller) || prefix == chosen)
    requires c < |candidates| && IsDecided(config, candidates, chosen, c)
    ensures IsDecided(smaller, candidates, prefix, c)
  {
    if IsRepresented(config, candidates, chosen, c) {
      var i :| 0 <= i < |chosen| && Represents(config, candidates, chosen[i], c);
      assert Represents(smaller, candidates, chosen[i], c);
      if i < |prefix| {
        assert prefix[i] == chosen[i];
      } else {
        BeatenByPrefix(candidates, chosen, |prefix|, i, c);
        assert prefix == chosen[..|prefix|];
      }
    } else {
      assert forall j :: 0 <= j < |prefix| ==> prefix[j] == chosen[j];
    }
  }

  lemma BeatenByPrefix(candidates: seq<Hit>, chosen: seq<nat>, n: nat, i: nat, c: nat)
    requires AreCandidates(candidates, chosen) && IsOrdered(candidates, chosen)
    requires n <= i < |chosen| && c < |candidates| && (chosen[i] == c || Beats(candidates, chosen[i], c))
    ensures IsBeatenByAll(candidates, chosen[..n], c)
  {
    forall j | 0 <= j < n
      ensures Beats(candidates, chosen[..n][j], c)
    {
      assert Beats(candidates, chosen[j], chosen[i]);
    }
  }

  /** With a limit of zero one hit is returned all the same, if any candidate is eligible. */
  lemma ZeroLimitReturnsOne(config: Config, candidates: seq<Hit>, out: seq<Hit>)
    requires config.topK == 0 && IsRankingOf(config, candidates, out)
    ensures |out| == if exists c :: 0 <= c < |candidates| && IsEligible(config, candidates[c]) then 1 else 0
  {
    var chosen :| IsRanking(config, candidates, chosen) && out == Picked(candidates, chosen);
    assert chosen != [] ==> IsEligible(config, candidates[chosen[0]]);
    if c :| 0 <= c < |candidates| && IsEligible(config, candidates[c]) {
      Decision(config, candidates, chosen, c);
    }
  }

  // ---------------------------------------------------------------------------------------------
  // rank_recall_hits

  /** The stable `sort_by` as the order in which it puts the first `n` candidates. */
  function SortByScore(candidates: seq<Hit>, n: nat): (order: seq<nat>)
    requires n <= |candidates|
    ensures forall c :: c in order <==> 0 <= c < n
  {
    if n == 0 then []
    else
      var order := SortByScore(candidates, n - 1);
      assert forall i :: 0 <= i < |order| ==> order[i] in order;
      InsertByScore(candidates, order, n - 1)
  }

  /** Behind everything that is not worse. */
  function InsertByScore(candidates: seq<Hit>, order: seq<nat>, c: nat): (longer: seq<nat>)
    requires AreCandidates(candidates, order) && c < |candidates|
    ensures forall x :: x in longer <==> x in order || x == c
  {
    if order == [] then [c]
    else if candidates[c].finalScore > candidates[order[0]].finalScore then [c] + order
    else
      assert order == [order[0]] + order[1..];
      [order[0]] + InsertByScore(candidates, order[1..], c)
  }

  lemma SmallerThanNext(candidates: seq<Hit>, n: nat)
    requires n <= |candidates|
    ensures var order := SortByScore(candidates, n); forall i :: 0 <= i < |order| ==> order[i] < n
  {
    var order := SortByScore(candidates, n);
    forall i | 0 <= i < |order|
      ensures order[i] < n
    {
      assert order[i] in order;
    }
  }

  lemma {:induction false} SortByScoreIsOrdered(candidates: seq<Hit>, n: nat)
    requires n <= |candidates|
    ensures var order := SortByScore(candidates, n); AreCandidates(candidates, order) && IsOrdered(candidates, order)
  {
    if n > 0 {
      SortByScoreIsOrdered(candidates, n - 1);
      SmallerThanNext(candidates, n - 1);
      InsertByScoreIsOrdered(candidates, SortByScore(candidates, n - 1), n - 1);
    }
  }

  lemma {:induction false} InsertByScoreIsOrdered(candidates: seq<Hit>, order: seq<nat>, c: nat)
    requires AreCandidates(candidates, order) && IsOrdered(candidates, order)
    requires c < |candidates| && forall i :: 0 <= i < |order| ==> order[i] < c
    ensures var longer := InsertByScore(candidates, order, c);
            AreCandidates(candidates, longer) && IsOrdered(candidates, longer)
  {
    if order != [] {
      if candidates[c].finalScore > candidates[order[0]].finalScore {
        BeatsTheRest(candidates, order, c);
        PrependIsOrdered(candidates, c, order);
      } else {
        InsertByScoreIsOrdered(candidates, order[1..], c);
        var longer := InsertByScore(candidates, order[1..], c);
        FirstBeatsTheRest(candidates, order, c, longer);
        PrependIsOrdered(candidates, order[0], longer);
      }
    }
  }

  lemma PrependIsOrdered(candidates: seq<Hit>, a: nat, rest: seq<nat>)
    requires a < |candidates| && AreCandidates(candidates, rest) && IsOrdered(candidates, rest)
    requires forall i :: 0 <= i < |rest| ==> Beats(candidates, a, rest[i])
    ensures AreCandidates(candidates, [a] + rest) && IsOrdered(candidates, [a] + rest)
  {
  }

  lemma FirstBeatsTheRest(candidates: seq<Hit>, order: seq<nat>, c: nat, longer: seq<nat>)
    requires AreCandidates(candidates, order) && IsOrdered(candidates, order) && order != []
    requires order[0] < c < |candidates| && candidates[c].finalScore <= candidates[order[0]].finalScore
    requires AreCandidates(candidates, longer) && forall x :: x in longer <==> x in order[1..] || x == c
    ensures forall i :: 0 <= i < |longer| ==> Beats(candidates, order[0], longer[i])
  {
    forall i | 0 <= i < |longer|
      ensures Beats(candidates, order[0], longer[i])
    {
      var x := longer[i];
      assert x in longer;
      if x != c {
        var k :| 0 <= k < |order[1..]| && order[1..][k] == x;
        assert order[k + 1] == x;
      }
    }
  }

  lemma BeatsTheRest(candidates: seq<Hit>, order: seq<nat>, c: nat)
    requires AreCandidates(candidates, order) && IsOrdered(candidates, order) && order != []
    requires c < |candidates| && candidates[c].finalScore > candidates[order[0]].finalScore
    ensures forall i :: 0 <= i < |order| ==> Beats(candidates, c, order[i])
  {
    forall i | 0 <= i < |order|
      ensures Beats(candidates, c, order[i])
    {
      assert i > 0 ==> Beats(candidates, order[0], order[i]);
    }
  }

  /** How far the loop is: what it has chosen among the candidates it has seen. */
  predicate HasRanked(config: Config, candidates: seq<Hit>, order: seq<nat>, n: nat, chosen: seq<nat>)
    requires AreCandidates(candidates, order) && n <= |order|
  {
    && IsChoice(config, candidates, chosen)
    && (forall i :: 0 <= i < |chosen| ==> chosen[i] in order[..n])
    && forall k :: 0 <= k < n && IsEligible(config, candidates[order[k]]) ==>
        IsRepresented(config, candidates, chosen, order[k])
  }

  predicate IsOrderOfAll(candidates: seq<Hit>, order: seq<nat>) {
    && AreCandidates(candidates, order) && IsOrdered(candidates, order)
    && forall c :: 0 <= c < |candidates| ==> c in order
  }

  lemma ChosenBeatsNext(candidates: seq<Hit>, order: seq<nat>, n: nat, x: nat)
    requires AreCandidates(candidates, order) && IsOrdered(candidates, order)
    requires n < |order| && x in order[..n]
    ensures x < |candidates| && Beats(candidates, x, order[n])
  {
    var k :| 0 <= k < n && order[k] == x;
  }

  lemma SkipOne(config: Config, candidates: seq<Hit>, order: seq<nat>, n: nat, chosen: seq<nat>)
    requires AreCandidates(candidates, order) && n < |order| && HasRanked(config, candidates, order, n, chosen)
    requires !IsEligible(config, candidates[order[n]]) || IsRepresented(config, candidates, chosen, order[n])
    ensures HasRanked(config, candidates, order, n + 1, chosen)
  {
    assert forall i :: 0 <= i < |chosen| ==> chosen[i] in order[..n] ==> chosen[i] in order[..n + 1];
  }

  lemma SkipDuplicate(config: Config, candidates: seq<Hit>, order: seq<nat>, n: nat, chosen: seq<nat>, i: nat)
    requires AreCandidates(candidates, order) && IsOrdered(candidates, order)
    requires n < |order| && HasRanked(config, candidates, order, n, chosen)
    requires i < |chosen| && Key(config, candidates, chosen[i]) == Key(config, candidates, order[n])
    ensures HasRanked(config, candidates, order, n + 1, chosen)
  {
    ChosenBeatsNext(candidates, order, n, chosen[i]);
    assert Represents(config, candidates, chosen[i], order[n]);
    SkipOne(config, candidates, order, n, chosen);
  }

  lemma RepresentedByMore(config: Config, candidates: seq<Hit>, chosen: seq<nat>, c: nat, x: nat)
    requires AreCandidates(candidates, chosen) && c < |candidates| && x < |candidates|
    requires IsRepresented(config, candidates, chosen, x) || c == x
    ensures IsRepresented(config, candidates, chosen + [c], x)
  {
    var more := chosen + [c];
    if IsRepresented(config, candidates, chosen, x) {
      var i :| 0 <= i < |chosen| && Represents(config, candidates, chosen[i], x);
      assert more[i] == chosen[i];
    } else {
      assert Represents(config, candidates, more[|chosen|], x);
    }
  }

  lemma ChoiceOfMore(config: Config, candidates: seq<Hit>, chosen: seq<nat>, c: nat)
    requires IsChoice(config, candidates, chosen) && |chosen| < Limit(config)
    requires c < |candidates| && IsEligible(config, candidates[c]) && IsBeatenByAll(candidates, chosen, c)
    requires forall i :: 0 <= i < |chosen| ==> Key(config, candidates, chosen[i]) != Key(config, candidates, c)
    ensures IsChoice(config, candidates, chosen + [c])
  {
  }

  lemma ChooseOne(config: Config, candidates: seq<Hit>, order: seq<nat>, n: nat, chosen: seq<nat>)
    requires AreCandidates(candidates, order) && IsOrdered(candidates, order)
    requires n < |order| && HasRanked(config, candidates, order, n, chosen) && |chosen| < Limit(config)
    requires IsEligible(config, candidates[order[n]])
    requires forall i :: 0 <= i < |chosen| ==> Key(config, candidates, chosen[i]) != Key(config, candidates, order[n])
    ensures HasRanked(config, candidates, order, n + 1, chosen + [order[n]])
  {
    var c := order[n];
    var more := chosen + [c];
    forall i | 0 <= i < |chosen|
      ensures Beats(candidates, chosen[i], c)
    {
      ChosenBeatsNext(candidates, order, n, chosen[i]);
    }
    ChoiceOfMore(config, candidates, chosen, c);
    forall k | 0 <= k <= n && IsEligible(config, candidates[order[k]])
      ensures IsRepresented(config, candidates, more, order[k])
    {
      RepresentedByMore(config, candidates, chosen, c, order[k]);
    }
    assert order[..n + 1] == order[..n] + [c];
  }

  /** The list is full, or everything was seen. */
  lemma RankingIsFinished(config: Config, candidates: seq<Hit>, order: seq<nat>, n: nat, chosen: seq<nat>)
    requires IsOrderOfAll(candidates, order)
    requires n <= |order| && HasRanked(config, candidates, order, n, chosen)
    requires |chosen| == Limit(config) || n == |order|
    ensures IsRankingOf(config, candidates, Picked(candidates, chosen))
  {
    forall c | 0 <= c < |candidates| && IsEligible(config, candidates[c])
      ensures IsDecided(config, candidates, chosen, c)
    {
      assert c in order;
      var k :| 0 <= k < |order| && order[k] == c;
      if k >= n {
        forall i | 0 <= i < |chosen|
          ensures Beats(candidates, chosen[i], c)
        {
          assert chosen[i] in order[..n];
          var m :| 0 <= m < |order[..n]| && order[..n][m] == chosen[i];
          assert order[m] == chosen[i];
        }
      }
    }
    assert IsRanking(config, candidates, chosen);
  }

  ghost predicate LoopState(config: Config, candidates: seq<Hit>, order: seq<nat>, n: nat, chosen: seq<nat>,
      out: seq<Hit>, dedupe: set<string>)
  {
    && IsOrderOfAll(candidates, order) && n <= |order|
    && HasRanked(config, candidates, order, n, chosen)
    && out == Picked(candidates, chosen)
    && dedupe == KeysOf(config, candidates, chosen)
  }

  lemma LoopSkips(config: Config, candidates: seq<Hit>, order: seq<nat>, n: nat, chosen: seq<nat>, out: seq<Hit>,
      dedupe: set<string>)
    requires LoopState(config, candidates, order, n, chosen, out, dedupe) && n < |order|
    requires !IsEligible(config, candidates[order[n]]) || Key(config, candidates, order[n]) in dedupe
    ensures LoopState(config, candidates, order, n + 1, chosen, out, dedupe)
  {
    if !IsEligible(config, candidates[order[n]]) {
      SkipOne(config, candidates, order, n, chosen);
    } else {
      var i :| 0 <= i < |chosen| && Key(config, candidates, chosen[i]) == Key(config, candidates, order[n]);
      SkipDuplicate(config, candidates, order, n, chosen, i);
    }
  }

  lemma LoopChooses(config: Config, candidates: seq<Hit>, order: seq<nat>, n: nat, chosen: seq<nat>, out: seq<Hit>,
      dedupe: set<string>)
    requires LoopState(config, candidates, order, n, chosen, out, dedupe) && n < |order| && |chosen| < Limit(config)
    requires IsEligible(config, candidates[order[n]]) && Key(config, candidates, order[n]) !in dedupe
    ensures LoopState(config, candidates, order, n + 1, chosen + [order[n]],
                      out + [candidates[order[n]]], dedupe + {Key(config, candidates, order[n])})
  {
    ChooseOne(config, candidates, order, n, chosen);
    KeysOfMore(config, candidates, chosen, order[n]);
  }

  lemma LoopStarts(config: Config, candidates: seq<Hit>, order: seq<nat>)
    requires order == SortByScore(candidates, |candidates|)
    ensures LoopState(config, candidates, order, 0, [], [], {})
  {
    SortByScoreIsOrdered(candidates, |candidates|);
  }

  lemma LoopIsFinished(config: Config, candidates: seq<Hit>, order: seq<nat>, n: nat, chosen: seq<nat>, out: seq<Hit>,
      dedupe: set<string>)
    requires LoopState(config, candidates, order, n, chosen, out, dedupe) && n <= |order|
    requires |chosen| == Limit(config) || n == |order|
    ensures IsRankingOf(config, candidates, out)
  {
    RankingIsFinished(config, candidates, order, n, chosen);
  }

  method RankRecallHits(candidates: seq<Hit>, config: Config) returns (out: seq<Hit>)
    ensures IsRankingOf(config, candidates, out)
  {
    var order := SortByScore(candidates, |candidates|);
    var dedupe: set<string> := {};
    out := [];
    LoopStarts(config, candidates, order);
    ghost var chosen: seq<nat> := [];
    var n := 0;
    while n < |order|
      invariant 0 <= n <= |order|
      invariant LoopState(config, candidates, order, n, chosen, out, dedupe)
      invariant |chosen| == |out| < Limit(config)
    {
      var item := candidates[order[n]];
      n := n + 1;
      if item.rawSimilarity < config.minScore {
        LoopSkips(config, candidates, order, n - 1, chosen, out, dedupe);
        continue;
      }
      var key := NormalizeKey(config.lower, item.content);
      if key == "" || key in dedupe {
        LoopSkips(config, candidates, order, n - 1, chosen, out, dedupe);
        continue;
      }
      LoopChooses(config, candidates, order, n - 1, chosen, out, dedupe);
      dedupe := dedupe + {key};
      out := out + [item];
      chosen := chosen + [order[n - 1]];
      if |out| >= config.topK {
        break;
      }
    }
    LoopIsFinished(config, candidates, order, n, chosen, out, dedupe);
  }

  function KeysOf(config: Config, candidates: seq<Hit>, chosen: seq<nat>): set<string>
    requires AreCandidates(candidates, chosen)
  {
    set i | 0 <= i < |chosen| :: Key(config, candidates, chosen[i])
  }

  lemma KeysOfMore(config: Config, candidates: seq<Hit>, chosen: seq<nat>, c: nat)
    requires AreCandidates(candidates, chosen) && c < |candidates|
    ensures KeysOf(config, candidates, chosen + [c])
        == KeysOf(config, candidates, chosen) + {Key(config, candidates, c)}
    ensures Picked(candidates, chosen + [c]) == Picked(candidates, chosen) + [candidates[c]]
  {
    var more := chosen + [c];
    assert more[|chosen|] == c;
    forall key | key in KeysOf(config, candidates, chosen)
      ensures key in KeysOf(config, candidates, more)
    {
      var i :| 0 <= i < |chosen| && Key(config, candidates, chosen[i]) == key;
      assert more[i] == chosen[i];
    }
  }

  // ---------------------------------------------------------------------------------------------
  // Two stores, the long-term one preferred.

  method PreferLongTerm(longTerm: seq<Hit>, shortTerm: seq<Hit>, config: Config) returns (out: seq<Hit>)
    requires config.topK > 0
    ensures |out| <= config.topK
    ensures exists n :: 0 <= n <= |out| && IsRankingOf(config, longTerm, out[..n])
                        && if n == config.topK then out == out[..n]
                           else IsRankingOf(config.(topK := config.topK - n), shortTerm, out[n..])
  {
    out := RankRecallHits(longTerm, config);
    var rankedShort := RankRecallHits(shortTerm, config);
    ghost var n := |out|;
    ghost var first := out;
    if |out| < config.topK {
      var remaining := config.topK - |out|;
      var taken := if remaining <= |rankedShort| then rankedShort[..remaining] else rankedShort;
      FirstOfRanking(config, shortTerm, rankedShort, remaining);
      out := out + taken;
      assert out[n..] == taken;
    }
    assert out[..n] == first;
  }

  lemma FirstOfRanking(config: Config, candidates: seq<Hit>, out: seq<Hit>, topK: nat)
    requires IsRankingOf(config, candidates, out) && 0 < topK <= config.topK
    ensures IsRankingOf(config.(topK := topK), candidates, if topK <= |out| then out[..topK] else out)
  {
    var chosen :| IsRanking(config, candidates, chosen) && out == Picked(candidates, chosen);
    var prefix := if topK <= |chosen| then chosen[..topK] else chosen;
    PrefixIsRanking(config, candidates, chosen, topK);
    assert Picked(candidates, prefix) == if topK <= |out| then out[..topK] else out;
  }
}
