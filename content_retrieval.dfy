/** Website-content retrieval: a corpus of page snippets, each embedded by
    an external model, rebuilt when stale; a query is answered with the
    texts of the (at most three) snippets most similar to it. */
module ContentRetrieval {
  import opened ChatTypes
  import opened Text

  /** A vector returned by the embedding model. */
  type Embedding = seq<real>

  /** A page snippet; `embedding` is absent until the model produced one. */
  datatype ContentItem = ContentItem(url: string, text: string, embedding: Option<Embedding>)

  /** An item of `scoredContent`: a snippet's text and its similarity to the query. */
  datatype ScoredText = ScoredText(text: string, similarity: real)

  const MsPerHour: int := 1000 * 60 * 60
  const DefaultRefreshIntervalHours: int := 24
  const DefaultSimilarityThreshold: real := 0.7
  /** `slice(0, 3)`: at most three snippets are returned. */
  const MaxSnippets: nat := 3
  const SnippetSeparator: string := "\n\n"

  /** The fixed corpus the rebuild embeds, in this order. */
  const SampleContent: seq<ContentItem> := [
    ContentItem("/features", "Our platform offers cutting-edge AI integration, blazing-fast performance, and seamless third-party compatibility.", None),
    ContentItem("/pricing", "Choose from our flexible plans: Starter ($29/mo), Pro ($79/mo), or Enterprise (custom pricing).", None),
    ContentItem("/docs", "Find comprehensive guides, API references, and tutorials to get started with our platform.", None),
    ContentItem("/faq", "Integration is simple! Just import our component, add your API keys to your environment variables, and include the ChatbotComponent in your layout file. The chatbot will then appear on all pages of your website.", None),
    ContentItem("/faq", "Yes, the chatbot is fully customizable. You can change colors, typography, icons, and even the layout of the chat interface to match your brand identity.", None),
    ContentItem("/faq", "The AI first attempts to find relevant information from your website content through semantic search. If it cannot find a suitable answer, it will use its general knowledge while clearly indicating that the information is not from your website.", None)
  ]

  // ---------------------------------------------------------------------
  // Freshness

  /** `shouldRefreshContent`: never refreshed, or more hours have passed
      since the last refresh than the interval (compared as a fraction of
      hours). */
  predicate ShouldRefresh(lastRefresh: Option<int>, now: int, intervalHours: int) {
    match lastRefresh
    case None => true
    case Some(last) => (now - last) as real / (MsPerHour as real) > intervalHours as real
  }

  /** The same rule without division: strictly more than `intervalHours`
      whole hours' worth of milliseconds have elapsed. */
  lemma ShouldRefreshIff(lastRefresh: Option<int>, now: int, intervalHours: int)
    ensures ShouldRefresh(lastRefresh, now, intervalHours) <==>
      lastRefresh.None? || now - lastRefresh.value > intervalHours * MsPerHour
  {
    if lastRefresh.Some? {
      var elapsed := (now - lastRefresh.value) as real;
      var hours := elapsed / 3600000.0;
      assert hours * 3600000.0 == elapsed;
      if hours > intervalHours as real {
        assert hours * 3600000.0 > (intervalHours as real) * 3600000.0;
      } else {
        assert hours * 3600000.0 <= (intervalHours as real) * 3600000.0;
      }
    }
  }

  // ---------------------------------------------------------------------
  // Rebuild: embed every item, keep those whose embedding succeeded

  /** One item after `generateEmbedding`: the embedding attached on success,
      the item unchanged when the call failed (the error is caught). */
  function WithEmbedding(item: ContentItem, embed: string -> Result<Embedding, ProviderError>): ContentItem {
    match embed(item.text)
    case Ok(e) => item.(embedding := Some(e))
    case Err(_) => item
  }

  /** `contentWithEmbeddings`: every item in input order. */
  function Attach(items: seq<ContentItem>, embed: string -> Result<Embedding, ProviderError>): (r: seq<ContentItem>)
    ensures |r| == |items|
    ensures forall i :: 0 <= i < |items| ==> r[i] == WithEmbedding(items[i], embed)
  {
    if items == [] then [] else [WithEmbedding(items[0], embed)] + Attach(items[1..], embed)
  }

  /** `filter(item => item.embedding)` */
  function KeepEmbedded(items: seq<ContentItem>): (r: seq<ContentItem>)
    ensures |r| <= |items|
    ensures forall i :: 0 <= i < |r| ==> r[i].embedding.Some?
  {
    if items == [] then []
    else KeepEmbedded(items[..|items| - 1]) + (if items[|items| - 1].embedding.Some? then [items[|items| - 1]] else [])
  }

  /** The positions, below `n`, of the items whose embedding call succeeds. */
  function SucceededIndices(items: seq<ContentItem>, embed: string -> Result<Embedding, ProviderError>, n: nat): seq<nat>
    requires n <= |items|
  {
    if n == 0 then []
    else SucceededIndices(items, embed, n - 1) + (if embed(items[n - 1].text).Ok? then [n - 1] else [])
  }

  lemma {:induction false} SucceededIndicesFacts(items: seq<ContentItem>, embed: string -> Result<Embedding, ProviderError>, n: nat)
    requires n <= |items|
    ensures var idx := SucceededIndices(items, embed, n);
      && (forall j :: 0 <= j < |idx| ==> idx[j] < n && embed(items[idx[j]].text).Ok?)
      && (forall j, k :: 0 <= j < k < |idx| ==> idx[j] < idx[k])
      && (forall i :: 0 <= i < n && embed(items[i].text).Ok? ==> i in idx)
  {
    if n > 0 {
      SucceededIndicesFacts(items, embed, n - 1);
    }
  }

  lemma {:induction false} RebuildPrefix(items: seq<ContentItem>, embed: string -> Result<Embedding, ProviderError>, n: nat)
    requires n <= |items|
    requires forall i :: 0 <= i < |items| ==> items[i].embedding.None?
    ensures var r := KeepEmbedded(Attach(items[..n], embed));
      var idx := SucceededIndices(items, embed, n);
      && |r| == |idx|
      && (forall j :: 0 <= j < |idx| ==>
            idx[j] < n && embed(items[idx[j]].text).Ok? &&
            r[j] == items[idx[j]].(embedding := Some(embed(items[idx[j]].text).value)))
  {
    SucceededIndicesFacts(items, embed, n);
    if n > 0 {
      RebuildPrefix(items, embed, n - 1);
      var attached := Attach(items[..n], embed);
      assert attached[..n - 1] == Attach(items[..n - 1], embed);
      var last := attached[n - 1];
      assert last == WithEmbedding(items[n - 1], embed);
      assert last.embedding.Some? <==> embed(items[n - 1].text).Ok?;
      var before := KeepEmbedded(Attach(items[..n - 1], embed));
      assert KeepEmbedded(attached) == before + (if last.embedding.Some? then [last] else []);
    }
  }

  /** A rebuild keeps exactly the items whose embedding succeeded, in their
      original order, each now carrying its embedding. */
  lemma RebuildKeepsSucceeded(items: seq<ContentItem>, embed: string -> Result<Embedding, ProviderError>)
    requires forall i :: 0 <= i < |items| ==> items[i].embedding.None?
    ensures var r := KeepEmbedded(Attach(items, embed));
      var idx := SucceededIndices(items, embed, |items|);
      && |r| == |idx|
      && (forall j :: 0 <= j < |idx| ==>
            idx[j] < |items| && embed(items[idx[j]].text).Ok? &&
            r[j] == items[idx[j]].(embedding := Some(embed(items[idx[j]].text).value)))
      && (forall j, k :: 0 <= j < k < |idx| ==> idx[j] < idx[k])
      && (forall i :: 0 <= i < |items| && embed(items[i].text).Ok? ==> i in idx)
  {
    RebuildPrefix(items, embed, |items|);
    SucceededIndicesFacts(items, embed, |items|);
    assert items[..|items|] == items;
  }

  /** When every embedding call fails, the rebuilt corpus is empty. */
  lemma {:induction false} RebuildAllFailed(items: seq<ContentItem>, embed: string -> Result<Embedding, ProviderError>)
    requires forall i :: 0 <= i < |items| ==> items[i].embedding.None? && embed(items[i].text).Err?
    ensures KeepEmbedded(Attach(items, embed)) == []
  {
    if items != [] {
      var attached := Attach(items, embed);
      RebuildAllFailed(items[..|items| - 1], embed);
      assert attached[..|items| - 1] == Attach(items[..|items| - 1], embed);
    }
  }

  // ---------------------------------------------------------------------
  // Query: score, stable sort by descending similarity, threshold, top 3

  /** `map(item => ({ text, similarity }))` over embedded items; the
      similarity is the external measure between query and item vectors. */
  function ScoreAll(items: seq<ContentItem>, query: Embedding, similarity: (Embedding, Embedding) -> real)
    : (r: seq<ScoredText>)
    requires forall i :: 0 <= i < |items| ==> items[i].embedding.Some?
    ensures |r| == |items|
    ensures forall i :: 0 <= i < |items| ==>
      r[i] == ScoredText(items[i].text, similarity(query, items[i].embedding.value))
  {
    if items == [] then []
    else [ScoredText(items[0].text, similarity(query, items[0].embedding.value))] + ScoreAll(items[1..], query, similarity)
  }

  predicate SortedDesc(s: seq<ScoredText>) {
    forall i, j :: 0 <= i < j < |s| ==> s[i].similarity >= s[j].similarity
  }

  /** The items of `s` with similarity exactly `v`, in order: a stable sort
      keeps each of these runs in its original order. */
  function WithScore(s: seq<ScoredText>, v: real): seq<ScoredText> {
    if s == [] then []
    else (if s[0].similarity == v then [s[0]] else []) + WithScore(s[1..], v)
  }

  /** Places `x` before the first element scoring at most as much, so it
      precedes every equal element (it came first in the input). */
  function Insert(x: ScoredText, s: seq<ScoredText>): seq<ScoredText> {
    if s == [] then [x]
    else if s[0].similarity <= x.similarity then [x] + s
    else [s[0]] + Insert(x, s[1..])
  }

  /** `sort((a, b) => b.similarity - a.similarity)`, a stable sort. */
  function SortDesc(s: seq<ScoredText>): seq<ScoredText> {
    if s == [] then [] else Insert(s[0], SortDesc(s[1..]))
  }

  lemma {:induction false} InsertSorted(x: ScoredText, s: seq<ScoredText>)
    requires SortedDesc(s)
    ensures SortedDesc(Insert(x, s))
    ensures |Insert(x, s)| == |s| + 1
    ensures Insert(x, s)[0] == x || Insert(x, s)[0] == s[0]
  {
    if s != [] && s[0].similarity > x.similarity {
      InsertSorted(x, s[1..]);
    }
  }

  lemma {:induction false} InsertPermutes(x: ScoredText, s: seq<ScoredText>)
    ensures multiset(Insert(x, s)) == multiset{x} + multiset(s)
  {
    if s != [] && s[0].similarity > x.similarity {
      InsertPermutes(x, s[1..]);
      assert s == [s[0]] + s[1..];
    }
  }

  lemma {:induction false} InsertKeepsRuns(x: ScoredText, s: seq<ScoredText>, v: real)
    ensures WithScore(Insert(x, s), v) == (if x.similarity == v then [x] else []) + WithScore(s, v)
  {
    if s == [] {
    } else if s[0].similarity <= x.similarity {
      assert ([x] + s)[1..] == s;
    } else {
      InsertKeepsRuns(x, s[1..], v);
      var rest := Insert(x, s[1..]);
      assert ([s[0]] + rest)[1..] == rest;
      if x.similarity == v {
        assert s[0].similarity != v;
      }
    }
  }

  /** SortDesc is a stable sort: descending, a permutation of its input,
      and items of equal similarity keep their input order. */
  lemma {:induction false} SortDescIsStableSort(s: seq<ScoredText>)
    ensures SortedDesc(SortDesc(s))
    ensures multiset(SortDesc(s)) == multiset(s)
    ensures forall v :: WithScore(SortDesc(s), v) == WithScore(s, v)
  {
    if s != [] {
      SortDescIsStableSort(s[1..]);
      InsertSorted(s[0], SortDesc(s[1..]));
      InsertPermutes(s[0], SortDesc(s[1..]));
      forall v
        ensures WithScore(SortDesc(s), v) == WithScore(s, v)
      {
        InsertKeepsRuns(s[0], SortDesc(s[1..]), v);
      }
      assert s == [s[0]] + s[1..];
    }
  }

  /** `filter(item => item.similarity > threshold)` */
  function AboveThreshold(s: seq<ScoredText>, threshold: real): (r: seq<ScoredText>)
    ensures |r| <= |s|
    ensures forall i :: 0 <= i < |r| ==> r[i].similarity > threshold
  {
    if s == [] then []
    else (if s[0].similarity > threshold then [s[0]] else []) + AboveThreshold(s[1..], threshold)
  }

  /** On a descending list the items above the threshold are a prefix, and
      nothing after it clears the threshold. */
  lemma {:induction false} AboveThresholdIsPrefix(s: seq<ScoredText>, threshold: real)
    requires SortedDesc(s)
    ensures var r := AboveThreshold(s, threshold);
      && r == s[..|r|]
      && forall i :: |r| <= i < |s| ==> s[i].similarity <= threshold
  {
    if s != [] {
      AboveThresholdIsPrefix(s[1..], threshold);
      if s[0].similarity <= threshold {
        assert AboveThreshold(s[1..], threshold) == [];
      }
    }
  }

  function Texts(s: seq<ScoredText>): (r: seq<string>)
    ensures |r| == |s|
    ensures forall i :: 0 <= i < |s| ==> r[i] == s[i].text
  {
    if s == [] then [] else [s[0].text] + Texts(s[1..])
  }

  /** `filter(...).slice(0, 3)` on the sorted scores. */
  function Chosen(sorted: seq<ScoredText>, threshold: real): seq<ScoredText> {
    var above := AboveThreshold(sorted, threshold);
    if |above| <= MaxSnippets then above else above[..MaxSnippets]
  }

  lemma ChosenIsBestPrefix(sorted: seq<ScoredText>, threshold: real)
    requires SortedDesc(sorted)
    ensures var top := Chosen(sorted, threshold);
      && |top| <= MaxSnippets
      && top == sorted[..|top|]
      && (forall i :: 0 <= i < |top| ==> top[i].similarity > threshold)
      && (forall i, j :: 0 <= i < |top| <= j < |sorted| ==> sorted[j].similarity <= top[i].similarity)
      && (|top| < MaxSnippets ==> forall j :: |top| <= j < |sorted| ==> sorted[j].similarity <= threshold)
  {
    AboveThresholdIsPrefix(sorted, threshold);
    var above := AboveThreshold(sorted, threshold);
    var top := Chosen(sorted, threshold);
    assert top == above[..|top|];
  }

  /** The snippets chosen for a query: sort, threshold, first three. */
  function TopMatches(content: seq<ContentItem>, query: Embedding, similarity: (Embedding, Embedding) -> real,
                      threshold: real): seq<ScoredText>
  {
    Chosen(SortDesc(ScoreAll(KeepEmbedded(content), query, similarity)), threshold)
  }

  /** The chosen snippets are the first (up to three) of the stably sorted
      scores; each clears the threshold; when fewer than three are chosen,
      no other item clears it. */
  lemma TopMatchesAreBest(content: seq<ContentItem>, query: Embedding, similarity: (Embedding, Embedding) -> real,
                          threshold: real)
    ensures var sorted := SortDesc(ScoreAll(KeepEmbedded(content), query, similarity));
      var top := TopMatches(content, query, similarity, threshold);
      && |top| <= MaxSnippets
      && top == sorted[..|top|]
      && (forall i :: 0 <= i < |top| ==> top[i].similarity > threshold)
      && (forall i, j :: 0 <= i < |top| <= j < |sorted| ==> sorted[j].similarity <= top[i].similarity)
      && (|top| < MaxSnippets ==> forall j :: |top| <= j < |sorted| ==> sorted[j].similarity <= threshold)
  {
    var scored := ScoreAll(KeepEmbedded(content), query, similarity);
    SortDescIsStableSort(scored);
    ChosenIsBestPrefix(SortDesc(scored), threshold);
  }

  /** Some embedded item exists (`content.some(item => item.embedding)`). */
  predicate AnyEmbedded(content: seq<ContentItem>) {
    exists i | 0 <= i < |content| :: content[i].embedding.Some?
  }

  /** What `findRelevantContent` returns once the corpus is initialised:
      null without embedded content or when the query cannot be embedded
      (the error is caught), otherwise the chosen texts joined by a blank
      line, and null when that is empty. */
  function Relevant(content: seq<ContentItem>, query: Result<Embedding, ProviderError>,
                    similarity: (Embedding, Embedding) -> real, threshold: real): Option<string>
  {
    if |content| == 0 || !AnyEmbedded(content) then None
    else if query.Err? then None
    else
      var joined := Join(Texts(TopMatches(content, query.value, similarity, threshold)), SnippetSeparator);
      if joined == "" then None else Some(joined)
  }

  /** A non-null result joins one to three chosen snippets; an empty
      corpus or a failed query embedding gives null. */
  lemma RelevantShape(content: seq<ContentItem>, query: Result<Embedding, ProviderError>,
                      similarity: (Embedding, Embedding) -> real, threshold: real)
    ensures |content| == 0 ==> Relevant(content, query, similarity, threshold).None?
    ensures query.Err? ==> Relevant(content, query, similarity, threshold).None?
    ensures Relevant(content, query, similarity, threshold).Some? ==>
      var top := TopMatches(content, query.value, similarity, threshold);
      && 1 <= |top| <= MaxSnippets
      && Relevant(content, query, similarity, threshold).value == Join(Texts(top), SnippetSeparator)
      && Relevant(content, query, similarity, threshold).value != ""
  {
    if Relevant(content, query, similarity, threshold).Some? {
      var top := TopMatches(content, query.value, similarity, threshold);
      TopMatchesAreBest(content, query.value, similarity, threshold);
    }
  }

  class ContentRetrievalService {
    var content: seq<ContentItem>
    var lastRefresh: Option<int>
    const baseUrl: string
    /** The pages a rebuild embeds: the built-in sample corpus. */
    const pages: seq<ContentItem>
    const refreshIntervalHours: int
    const similarityThreshold: real

    /** `!content.length || shouldRefreshContent()`: the condition under
        which `initialize` rebuilds the corpus. */
    predicate NeedsRefresh(now: int)
      reads this
    {
      |content| == 0 || ShouldRefresh(lastRefresh, now, refreshIntervalHours)
    }

    /** The settings fall back to defaults when 0 (unset): the interval to
        `fallbackHours` (the environment's value, 24 when unset) and the
        threshold to 0.7. */
    constructor (baseUrl: string, configuredHours: int, fallbackHours: int, configuredThreshold: real)
      ensures content == [] && lastRefresh == None
      ensures this.baseUrl == baseUrl && pages == SampleContent
      ensures refreshIntervalHours == if configuredHours == 0 then fallbackHours else configuredHours
      ensures similarityThreshold == if configuredThreshold == 0.0 then DefaultSimilarityThreshold else configuredThreshold
    {
      content := [];
      lastRefresh := None;
      this.baseUrl := baseUrl;
      pages := SampleContent;
      refreshIntervalHours := if configuredHours == 0 then fallbackHours else configuredHours;
      similarityThreshold := if configuredThreshold == 0.0 then DefaultSimilarityThreshold else configuredThreshold;
    }

    /** Embeds the sample corpus and keeps the items whose embedding
        succeeded; stamps the refresh time. */
    method ScrapeWebsite(now: int, embed: string -> Result<Embedding, ProviderError>)
      modifies this
      ensures content == KeepEmbedded(Attach(pages, embed))
      ensures lastRefresh == Some(now)
    {
      var contentWithEmbeddings := Attach(pages, embed);
      content := KeepEmbedded(contentWithEmbeddings);
      lastRefresh := Some(now);
    }

    /** Rebuilds iff the corpus is empty or stale; otherwise nothing changes. */
    method Initialize(now: int, embed: string -> Result<Embedding, ProviderError>)
      modifies this
      ensures old(NeedsRefresh(now)) ==>
        content == KeepEmbedded(Attach(pages, embed)) && lastRefresh == Some(now)
      ensures !old(NeedsRefresh(now)) ==> content == old(content) && lastRefresh == old(lastRefresh)
    {
      if |content| == 0 || ShouldRefresh(lastRefresh, now, refreshIntervalHours) {
        ScrapeWebsite(now, embed);
      }
    }

    /** Initialises, then answers the query from the current corpus. */
    method FindRelevantContent(query: string, now: int, embed: string -> Result<Embedding, ProviderError>,
                               similarity: (Embedding, Embedding) -> real)
      returns (r: Option<string>)
      modifies this
      ensures old(NeedsRefresh(now)) ==>
        content == KeepEmbedded(Attach(pages, embed)) && lastRefresh == Some(now)
      ensures !old(NeedsRefresh(now)) ==> content == old(content) && lastRefresh == old(lastRefresh)
      ensures r == Relevant(content, embed(query), similarity, similarityThreshold)
    {
      Initialize(now, embed);
      if |content| == 0 || !AnyEmbedded(content) {
        return None;
      }
      var queryEmbedding := embed(query);
      if queryEmbedding.Err? {
        return None;
      }
      var scoredContent := SortDesc(ScoreAll(KeepEmbedded(content), queryEmbedding.value, similarity));
      var top := Chosen(scoredContent, similarityThreshold);
      var relevantContent := Join(Texts(top), SnippetSeparator);
      r := if relevantContent == "" then None else Some(relevantContent);
    }
  }
}
