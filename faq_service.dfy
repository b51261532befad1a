/** The FAQ matcher: an exact (case- and whitespace-insensitive) lookup,
    then a lexical fuzzy pass scoring each question by shared tokens. */
module FaqService {
  import opened ChatTypes
  import opened Text
  import opened FaqData

  /** An entry of the `matches` array: a candidate's answer and score. */
  datatype Match = Match(answer: string, score: real)

  /** How close a fuzzy match needs to be. */
  const MatchThreshold: real := 0.7

  /** `query.toLowerCase().trim()` */
  function Normalize(query: string): string {
    Trim(Lower(query))
  }

  /** Some question token contains `word`, or is contained in it. */
  predicate WordMatches(word: string, questionWords: seq<string>) {
    exists qWord :: qWord in questionWords && (Includes(qWord, word) || Includes(word, qWord))
  }

  /** `queryWords.filter(word => questionWords.some(...))`: duplicates in
      the query count once per occurrence. */
  function MatchingWords(queryWords: seq<string>, questionWords: seq<string>): (r: seq<string>)
    ensures |r| <= |queryWords|
  {
    if queryWords == [] then []
    else
      var rest := MatchingWords(queryWords[1..], questionWords);
      if WordMatches(queryWords[0], questionWords) then [queryWords[0]] + rest else rest
  }

  /** The filter keeps only query tokens that match, and all of them when
      every token matches. */
  lemma {:induction false} MatchingWordsFilter(queryWords: seq<string>, questionWords: seq<string>)
    ensures forall w :: w in MatchingWords(queryWords, questionWords) ==> w in queryWords && WordMatches(w, questionWords)
    ensures (forall w :: w in queryWords ==> WordMatches(w, questionWords)) ==>
      MatchingWords(queryWords, questionWords) == queryWords
  {
    if queryWords != [] {
      MatchingWordsFilter(queryWords[1..], questionWords);
      assert queryWords == [queryWords[0]] + queryWords[1..];
    }
  }

  /** The filter works token by token: a single token is kept exactly when
      it matches, and the result for a concatenation is the concatenation
      of the results, so every matching token is kept, in order, once per
      occurrence. */
  lemma MatchingWordsSingle(word: string, questionWords: seq<string>)
    ensures MatchingWords([word], questionWords) == if WordMatches(word, questionWords) then [word] else []
  {
    assert [word][1..] == [];
  }

  lemma {:induction false} MatchingWordsAppend(a: seq<string>, b: seq<string>, questionWords: seq<string>)
    ensures MatchingWords(a + b, questionWords) == MatchingWords(a, questionWords) + MatchingWords(b, questionWords)
  {
    if a == [] {
      assert a + b == b;
    } else {
      assert (a + b)[1..] == a[1..] + b;
      MatchingWordsAppend(a[1..], b, questionWords);
    }
  }

  /** `matchingWords.length / queryWords.length` for one FAQ question. */
  function Score(queryWords: seq<string>, question: string): real
    requires |queryWords| > 0
  {
    (|MatchingWords(queryWords, Split(Lower(question)))| as real) / (|queryWords| as real)
  }

  /** For a positive denominator, a quotient clears `t` iff the numerator
      clears `t` times the denominator. */
  lemma QuotientAtLeast(m: real, n: real, t: real)
    requires n > 0.0
    ensures m / n >= t <==> m >= t * n
  {
    var q := m / n;
    assert q * n == m;
    assert q * n - t * n == (q - t) * n;
    if q >= t {
      assert (q - t) * n >= 0.0;
    } else {
      assert (t - q) * n > 0.0;
    }
  }

  lemma QuotientAtMost(m: real, n: real, t: real)
    requires n > 0.0
    ensures m / n <= t <==> m <= t * n
  {
    var q := m / n;
    assert q * n == m;
    assert t * n - q * n == (t - q) * n;
    if q <= t {
      assert (t - q) * n >= 0.0;
    } else {
      assert (q - t) * n > 0.0;
    }
  }

  /** A score is a fraction of the query tokens: between 0 and 1. */
  lemma ScoreBounds(queryWords: seq<string>, question: string)
    requires |queryWords| > 0
    ensures 0.0 <= Score(queryWords, question) <= 1.0
  {
    var m := |MatchingWords(queryWords, Split(Lower(question)))| as real;
    var n := |queryWords| as real;
    assert m <= n;
    QuotientAtLeast(m, n, 0.0);
    QuotientAtMost(m, n, 1.0);
  }

  /** Clearing the 0.7 threshold is the integer condition
      10 * matching >= 7 * |queryWords|. */
  lemma ScoreThreshold(queryWords: seq<string>, question: string)
    requires |queryWords| > 0
    ensures Score(queryWords, question) >= MatchThreshold
      <==> 10 * |MatchingWords(queryWords, Split(Lower(question)))| >= 7 * |queryWords|
  {
    RatioThreshold(|MatchingWords(queryWords, Split(Lower(question)))|, |queryWords|);
  }

  lemma RatioThreshold(m: nat, n: nat)
    requires n > 0
    ensures (m as real) / (n as real) >= MatchThreshold <==> 10 * m >= 7 * n
  {
    QuotientAtLeast(m as real, n as real, 0.7);
    TenthsThreshold(m, n);
  }

  lemma TenthsThreshold(m: int, n: int)
    ensures m as real >= 0.7 * (n as real) <==> 10 * m >= 7 * n
  {
    assert (10 * m) as real == 10.0 * (m as real);
    assert (7 * n) as real == 7.0 * (n as real);
  }

  /** The scores of all questions for the query tokens, in corpus order. */
  function Scores(corpus: seq<QA>, queryWords: seq<string>): (r: seq<real>)
    requires |queryWords| > 0
    ensures |r| == |corpus|
  {
    if corpus == [] then []
    else [Score(queryWords, corpus[0].question)] + Scores(corpus[1..], queryWords)
  }

  /** Entry `i` is the score of question `i`, and that determines the
      sequence. */
  lemma {:induction false} ScoresPointwise(corpus: seq<QA>, queryWords: seq<string>)
    requires |queryWords| > 0
    ensures forall i :: 0 <= i < |corpus| ==> Scores(corpus, queryWords)[i] == Score(queryWords, corpus[i].question)
  {
    if corpus != [] {
      ScoresPointwise(corpus[1..], queryWords);
    }
  }

  lemma ScoresUnique(corpus: seq<QA>, queryWords: seq<string>, scores: seq<real>)
    requires |queryWords| > 0 && |scores| == |corpus|
    requires forall i :: 0 <= i < |corpus| ==> scores[i] == Score(queryWords, corpus[i].question)
    ensures scores == Scores(corpus, queryWords)
  {
    ScoresPointwise(corpus, queryWords);
  }

  /** The first index at or after `i` whose question equals the normalised
      query once lower-cased. */
  function ExactFrom(corpus: seq<QA>, normalized: string, i: nat): (r: Option<nat>)
    requires i <= |corpus|
    ensures r.Some? ==> i <= r.value < |corpus| && Lower(corpus[r.value].question) == normalized
    ensures r.Some? ==> forall j :: i <= j < r.value ==> Lower(corpus[j].question) != normalized
    ensures r.None? ==> forall j :: i <= j < |corpus| ==> Lower(corpus[j].question) != normalized
    decreases |corpus| - i
  {
    if i == |corpus| then None
    else if Lower(corpus[i].question) == normalized then Some(i)
    else ExactFrom(corpus, normalized, i + 1)
  }

  /** The `matches` array after the fuzzy pass has seen the first `n`
      questions, whose scores are `scores`. */
  function Candidates(corpus: seq<QA>, scores: seq<real>, n: nat): seq<Match>
    requires |scores| == |corpus| && n <= |corpus|
  {
    if n == 0 then []
    else
      Candidates(corpus, scores, n - 1)
        + (if scores[n - 1] >= MatchThreshold then [Match(corpus[n - 1].answer, scores[n - 1])] else [])
  }

  /** The corpus positions of the questions among the first `n` whose
      score clears the threshold, in corpus order. */
  function CandidateIndices(scores: seq<real>, n: nat): seq<nat>
    requires n <= |scores|
  {
    if n == 0 then []
    else
      var r := CandidateIndices(scores, n - 1);
      if scores[n - 1] >= MatchThreshold then r + [n - 1] else r
  }

  /** Where each entry of `matches` comes from: the questions among the
      first `n` that clear the threshold, all of them, each once, in corpus
      order. */
  lemma {:induction false} CandidatesAreIndexed(corpus: seq<QA>, scores: seq<real>, n: nat)
    requires |scores| == |corpus| && n <= |corpus|
    ensures var r := CandidateIndices(scores, n);
      && |r| == |Candidates(corpus, scores, n)|
      && (forall j :: 0 <= j < |r| ==>
            && r[j] < n && scores[r[j]] >= MatchThreshold
            && Candidates(corpus, scores, n)[j] == Match(corpus[r[j]].answer, scores[r[j]]))
      && (forall j, k :: 0 <= j < k < |r| ==> r[j] < r[k])
      && (forall i :: 0 <= i < n && scores[i] >= MatchThreshold ==> i in r)
  {
    if n > 0 {
      CandidatesAreIndexed(corpus, scores, n - 1);
      var r := CandidateIndices(scores, n - 1);
      var ms := Candidates(corpus, scores, n - 1);
      if scores[n - 1] >= MatchThreshold {
        assert CandidateIndices(scores, n) == r + [n - 1];
        assert Candidates(corpus, scores, n) == ms + [Match(corpus[n - 1].answer, scores[n - 1])];
      } else {
        assert CandidateIndices(scores, n) == r;
        assert Candidates(corpus, scores, n) == ms;
      }
    }
  }

  /** The index of the match that a stable descending sort by score puts
      first: the earliest among those with the highest score. */
  function FirstMaxIndex(matches: seq<Match>): (k: nat)
    requires |matches| > 0
    ensures k < |matches|
    ensures forall j :: 0 <= j < |matches| ==> matches[j].score <= matches[k].score
    ensures forall j :: 0 <= j < k ==> matches[j].score < matches[k].score
  {
    if |matches| == 1 then 0
    else
      var k := FirstMaxIndex(matches[..|matches| - 1]);
      if matches[|matches| - 1].score > matches[k].score then |matches| - 1 else k
  }

  /** Question `k` is the best of the first `n`: it clears the threshold
      with the highest score, and is the first such in corpus order. */
  ghost predicate IsBestAmong(scores: seq<real>, n: nat, k: int)
    requires n <= |scores|
  {
    && 0 <= k < n && scores[k] >= MatchThreshold
    && (forall i :: 0 <= i < n && scores[i] >= MatchThreshold ==> scores[i] <= scores[k])
    && (forall i :: 0 <= i < k && scores[i] >= MatchThreshold ==> scores[i] < scores[k])
  }

  /** Question `k` wins the fuzzy pass. */
  ghost predicate IsBest(scores: seq<real>, k: int) {
    IsBestAmong(scores, |scores|, k)
  }

  /** The winner among the first `n` questions, scanning in corpus order
      and replacing the current winner only on a strictly higher score. */
  ghost function BestUpTo(scores: seq<real>, n: nat): (b: Option<nat>)
    requires n <= |scores|
    ensures b.Some? ==> b.value < n
  {
    if n == 0 then None
    else
      var b := BestUpTo(scores, n - 1);
      if scores[n - 1] >= MatchThreshold && (b.None? || scores[n - 1] > scores[b.value]) then Some(n - 1) else b
  }

  /** The scan finds a winner exactly when some question clears the
      threshold, and what it finds is the best one. */
  lemma {:induction false} BestUpToIsBest(scores: seq<real>, n: nat)
    requires n <= |scores|
    ensures BestUpTo(scores, n).None? <==> forall i :: 0 <= i < n ==> scores[i] < MatchThreshold
    ensures BestUpTo(scores, n).Some? ==> IsBestAmong(scores, n, BestUpTo(scores, n).value)
  {
    if n > 0 {
      BestUpToIsBest(scores, n - 1);
    }
  }

  /** There is at most one best question. */
  lemma BestIsUnique(scores: seq<real>, k1: int, k2: int)
    requires IsBest(scores, k1) && IsBest(scores, k2)
    ensures k1 == k2
  {
  }

  /** The fuzzy pass: the answer that `matches.sort(...)[0]` holds, or null. */
  function FuzzyPass(corpus: seq<QA>, scores: seq<real>): Option<string>
    requires |scores| == |corpus|
  {
    var matches := Candidates(corpus, scores, |corpus|);
    if |matches| > 0 then Some(matches[FirstMaxIndex(matches)].answer) else None
  }

  /** The first highest-scoring entry of `matches` is the scan's winner. */
  lemma {:induction false} CandidatesTopIsBest(corpus: seq<QA>, scores: seq<real>, n: nat)
    requires |scores| == |corpus| && n <= |corpus|
    ensures var ms := Candidates(corpus, scores, n);
      var b := BestUpTo(scores, n);
      && (|ms| > 0 <==> b.Some?)
      && (|ms| > 0 ==> ms[FirstMaxIndex(ms)] == Match(corpus[b.value].answer, scores[b.value]))
  {
    if n > 0 {
      CandidatesTopIsBest(corpus, scores, n - 1);
      var prev := Candidates(corpus, scores, n - 1);
      if scores[n - 1] >= MatchThreshold {
        var ms := prev + [Match(corpus[n - 1].answer, scores[n - 1])];
        assert Candidates(corpus, scores, n) == ms;
        if |prev| > 0 {
          assert ms[..|ms| - 1] == prev;
          assert ms[FirstMaxIndex(prev)] == prev[FirstMaxIndex(prev)];
        }
      } else {
        assert Candidates(corpus, scores, n) == prev;
      }
    }
  }

  /** The fuzzy pass answers with the best question when there is a
      candidate, and with null exactly when there is none. */
  lemma FuzzyPassPicksBest(corpus: seq<QA>, scores: seq<real>)
    requires |scores| == |corpus|
    ensures var b := BestUpTo(scores, |scores|);
      && (FuzzyPass(corpus, scores).None? <==> forall i :: 0 <= i < |scores| ==> scores[i] < MatchThreshold)
      && (FuzzyPass(corpus, scores).Some? ==>
            b.Some? && IsBest(scores, b.value) && FuzzyPass(corpus, scores) == Some(corpus[b.value].answer))
  {
    CandidatesTopIsBest(corpus, scores, |corpus|);
    BestUpToIsBest(scores, |scores|);
  }

  /** What `findFAQMatch(query)` returns: the first exact match's answer,
      else the fuzzy pass's answer. */
  function FaqMatch(corpus: seq<QA>, query: string): Option<string> {
    var normalized := Normalize(query);
    match ExactFrom(corpus, normalized, 0)
    case Some(i) => Some(corpus[i].answer)
    case None => FuzzyPass(corpus, Scores(corpus, Split(normalized)))
  }

  /** An exact match wins, and the first one in corpus order is taken. */
  lemma ExactMatchWins(corpus: seq<QA>, query: string, i: nat)
    requires i < |corpus| && Lower(corpus[i].question) == Normalize(query)
    requires forall j :: 0 <= j < i ==> Lower(corpus[j].question) != Normalize(query)
    ensures FaqMatch(corpus, query) == Some(corpus[i].answer)
  {
    var r := ExactFrom(corpus, Normalize(query), 0);
    assert r.Some? && r.value == i;
  }

  /** Without an exact match the answer is that of the best-scoring
      question clearing 0.7 (ties to the earliest), and null when no
      question clears it. */
  lemma FuzzyMatchPicksBest(corpus: seq<QA>, query: string)
    requires forall j :: 0 <= j < |corpus| ==> Lower(corpus[j].question) != Normalize(query)
    ensures var scores := Scores(corpus, Split(Normalize(query)));
      && (FaqMatch(corpus, query).None? <==> forall i :: 0 <= i < |scores| ==> scores[i] < MatchThreshold)
      && (FaqMatch(corpus, query).Some? ==>
            exists k :: IsBest(scores, k) && FaqMatch(corpus, query) == Some(corpus[k].answer))
  {
    var scores := Scores(corpus, Split(Normalize(query)));
    NoExactMatch(corpus, Normalize(query));
    FuzzyWhenNoExact(corpus, query);
    FuzzyPassPicksBest(corpus, scores);
    if FaqMatch(corpus, query).Some? {
      assert IsBest(scores, BestUpTo(scores, |scores|).value);
    }
  }

  lemma NoExactMatch(corpus: seq<QA>, normalized: string)
    requires forall j :: 0 <= j < |corpus| ==> Lower(corpus[j].question) != normalized
    ensures ExactFrom(corpus, normalized, 0).None?
  {
  }

  lemma ExactWhenFound(corpus: seq<QA>, query: string, i: nat)
    requires ExactFrom(corpus, Normalize(query), 0) == Some(i)
    ensures FaqMatch(corpus, query) == Some(corpus[i].answer)
  {
  }

  lemma FuzzyWhenNoExact(corpus: seq<QA>, query: string)
    requires ExactFrom(corpus, Normalize(query), 0).None?
    ensures FaqMatch(corpus, query) == FuzzyPass(corpus, Scores(corpus, Split(Normalize(query))))
  {
  }

  /** Every answer given is one of the corpus answers. */
  lemma AnswerFromCorpus(corpus: seq<QA>, query: string)
    requires FaqMatch(corpus, query).Some?
    ensures exists i :: 0 <= i < |corpus| && FaqMatch(corpus, query).value == corpus[i].answer
  {
    var normalized := Normalize(query);
    var exact := ExactFrom(corpus, normalized, 0);
    if exact.Some? {
      assert FaqMatch(corpus, query).value == corpus[exact.value].answer;
    } else {
      var scores := Scores(corpus, Split(normalized));
      assert FaqMatch(corpus, query) == FuzzyPass(corpus, scores);
      FuzzyPassPicksBest(corpus, scores);
      var k := BestUpTo(scores, |scores|).value;
      assert FaqMatch(corpus, query).value == corpus[k].answer;
    }
  }

  /** Normalising a padded string gives the lower-cased core. */
  lemma NormalizePadded(before: string, s: string, after: string)
    requires AllSpace(before) && AllSpace(after) && Stripped(Lower(s))
    ensures Normalize(before + s + after) == Lower(s)
  {
    LowerAppend(before + s, after);
    LowerAppend(before, s);
    LowerKeepsSpaces(before);
    LowerKeepsSpaces(after);
    TrimPadded(Lower(before), Lower(s), Lower(after));
  }

  /** The first entry of a non-empty first category heads the flattened list. */
  lemma FlattenFirst(categories: seq<FaqCategory>)
    requires |categories| > 0 && |categories[0].qa| > 0
    ensures |Flatten(categories)| > 0 && Flatten(categories)[0] == categories[0].qa[0]
  {
    assert Flatten(categories) == categories[0].qa + Flatten(categories[1..]);
  }

  /** The data file opens with the order-tracking entry. */
  lemma CorpusStartsWithTracking()
    ensures |Corpus| > 0 && Corpus[0] == QA(TrackOrderQuestion, TrackOrderAnswer)
  {
    FlattenFirst(Categories);
  }

  lemma TrackOrderQuestionStripped()
    ensures Stripped(Lower(TrackOrderQuestion))
  {
    StrippedLower(TrackOrderQuestion);
  }

  lemma StrippedLower(s: string)
    requires |s| > 0 && !IsSpace(s[0]) && !IsSpace(s[|s| - 1])
    ensures Stripped(Lower(s))
  {
    LowerKeepsSpaces(s);
  }

  lemma NormalizeTrackOrderVariant(before: string, variant: string, after: string)
    requires AllSpace(before) && AllSpace(after)
    requires Lower(variant) == Lower(TrackOrderQuestion)
    ensures Normalize(before + variant + after) == Lower(TrackOrderQuestion)
  {
    TrackOrderQuestionStripped();
    NormalizePadded(before, variant, after);
  }

  /** A query that normalises to the first question gets the first answer. */
  lemma ExactFirstEntry(corpus: seq<QA>, query: string)
    requires |corpus| > 0 && Lower(corpus[0].question) == Normalize(query)
    ensures FaqMatch(corpus, query) == Some(corpus[0].answer)
  {
    ExactMatchWins(corpus, query, 0);
  }

  /** "How can I track my order?" in any letter case, with any surrounding
      whitespace, gets the order-tracking answer from a corpus that opens
      with that entry, as the shipped one does (`CorpusStartsWithTracking`). */
  lemma TrackOrderQuery(corpus: seq<QA>, before: string, variant: string, after: string)
    requires |corpus| > 0 && corpus[0] == QA(TrackOrderQuestion, TrackOrderAnswer)
    requires AllSpace(before) && AllSpace(after)
    requires Lower(variant) == Lower(TrackOrderQuestion)
    ensures FaqMatch(corpus, before + variant + after) == Some(TrackOrderAnswer)
  {
    NormalizeTrackOrderVariant(before, variant, after);
    ExactFirstEntry(corpus, before + variant + after);
  }

  /** Every question scores 1 for the single empty token. */
  lemma EmptyTokenScoresOne(question: string)
    ensures Score([""], question) == 1.0
  {
    var questionWords := Split(Lower(question));
    assert Includes(questionWords[0], "");
    assert WordMatches("", questionWords);
    assert MatchingWords([""], questionWords) == [""];
  }

  /** A blank query normalises to "" and splits into [""], which every
      question token contains: every question scores 1, so the first
      answer of the corpus is returned. */
  lemma BlankQueryGetsFirstAnswer(corpus: seq<QA>, query: string)
    requires AllSpace(query) && |corpus| > 0
    requires forall i :: 0 <= i < |corpus| ==> corpus[i].question != ""
    ensures FaqMatch(corpus, query) == Some(corpus[0].answer)
  {
    NormalizePadded(query, "", "");
    assert query + "" + "" == query;
    assert Normalize(query) == "";
    assert Split("") == [""];
    var scores := Scores(corpus, [""]);
    ScoresPointwise(corpus, [""]);
    forall i | 0 <= i < |corpus|
      ensures scores[i] == 1.0
    {
      EmptyTokenScoresOne(corpus[i].question);
    }
    assert ExactFrom(corpus, "", 0).None?;
    FuzzyPassPicksBest(corpus, scores);
    var k := BestUpTo(scores, |scores|).value;
    assert IsBest(scores, k);
    assert k == 0;
  }

  /** `findFAQMatch(query)` over the given corpus (the source reads the
      module-level FAQ data). */
  method FindFAQMatch(corpus: seq<QA>, query: string) returns (r: Option<string>)
    ensures r == FaqMatch(corpus, query)
  {
    var normalizedQuery := Trim(Lower(query));

    for i := 0 to |corpus|
      invariant ExactFrom(corpus, normalizedQuery, i) == ExactFrom(corpus, normalizedQuery, 0)
    {
      if Lower(corpus[i].question) == normalizedQuery {
        ExactWhenFound(corpus, query, i);
        return Some(corpus[i].answer);
      }
    }
    FuzzyWhenNoExact(corpus, query);

    ghost var words := Split(normalizedQuery);
    ScoresPointwise(corpus, words);
    ghost var scores: seq<real> :| |scores| == |corpus| &&
      forall j :: 0 <= j < |corpus| ==> scores[j] == Score(words, corpus[j].question);
    var matches: seq<Match> := [];
    for i := 0 to |corpus|
      invariant matches == Candidates(corpus, scores, i)
    {
      var questionWords := Split(Lower(corpus[i].question));
      var queryWords := Split(normalizedQuery);
      var matchingWords := MatchingWords(queryWords, questionWords);
      var score := (|matchingWords| as real) / (|queryWords| as real);
      if score >= MatchThreshold {
        matches := matches + [Match(corpus[i].answer, score)];
      }
    }
    ScoresUnique(corpus, words, scores);

    if |matches| > 0 {
      // A stable sort by descending score puts the first highest-scoring match at index 0.
      return Some(matches[FirstMaxIndex(matches)].answer);
    }
    return None;
  }
}
