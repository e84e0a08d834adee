/** The price finder endpoint: it reads a product name and a category,
    scores the candidates scraped from the category's shop pages by
    token overlap with the name, drops duplicates and non-matches, and answers
    the five best by score, cheapest first among equals. The pages arrive as a
    parameter: for each URL, the (name, price) candidates the page walk
    produced, and no entry for a URL whose fetch failed. */
module SmartFind {
  import opened Seqs
  import opened Text

  // ---- Text normalisation and tokens --------------------------------------

  /** A character that is not white space. */
  predicate NotSpace(c: char)
  {
    !IsSpace(c)
  }

  /** The number of maximal white-space runs of `s`. */
  function SpaceRuns(s: string): nat
  {
    if s == [] then 0
    else (if IsSpace(s[0]) && !(|s| > 1 && IsSpace(s[1])) then 1 else 0) + SpaceRuns(s[1..])
  }

  /** `s.replace(/\s+/g, " ")`: every run of white space becomes one space;
      the other characters stay, in order. */
  function CollapseSpaces(s: string): (r: string)
    ensures |r| <= |s|
    ensures forall k :: 0 <= k < |r| && IsSpace(r[k]) ==> r[k] == ' '
    ensures forall k :: 0 < k < |r| ==> !(r[k - 1] == ' ' && r[k] == ' ')
    ensures s != [] && r != [] && s[0] != ' ' && !IsSpace(s[0]) ==> r[0] == s[0]
    ensures Filter(r, NotSpace) == Filter(s, NotSpace)
    ensures |Filter(r, IsSpace)| == SpaceRuns(s)
  {
    if s == [] then []
    else if IsSpace(s[0]) then
      if |s| > 1 && IsSpace(s[1]) then CollapseSpaces(s[1..]) else [' '] + CollapseSpaces(s[1..])
    else [s[0]] + CollapseSpaces(s[1..])
  }

  /** `norm`: lower-cased, white-space runs collapsed, trimmed. */
  function Norm(s: string): (r: string)
    ensures r == [] || (!IsSpace(r[0]) && !IsSpace(r[|r| - 1]))
  {
    var c := CollapseSpaces(ToLower(s));
    TrimEnds(c);
    Trim(c)
  }

  /** The characters a token is made of. */
  predicate TokenChar(c: char)
  {
    ('a' <= c <= 'z') || ('0' <= c <= '9') || c == '%'
  }

  /** The maximal runs of token characters of `s`, `cur` being the run read so far. */
  function Runs(s: string, cur: string): seq<string>
  {
    if s == [] then (if cur == [] then [] else [cur])
    else if TokenChar(s[0]) then Runs(s[1..], cur + [s[0]])
    else (if cur == [] then [] else [cur]) + Runs(s[1..], [])
  }

  /** `tokens`: the normalised text split on runs of non-token characters,
      empty pieces dropped. */
  function Tokens(s: string): seq<string>
  {
    Runs(Norm(s), [])
  }

  /** A non-empty string of token characters. */
  predicate IsToken(t: string)
  {
    t != [] && forall k :: 0 <= k < |t| ==> TokenChar(t[k])
  }

  lemma {:induction false} RunsAreTokens(s: string, cur: string)
    requires forall k :: 0 <= k < |cur| ==> TokenChar(cur[k])
    ensures forall j :: 0 <= j < |Runs(s, cur)| ==> IsToken(Runs(s, cur)[j])
  {
    if s != [] {
      if TokenChar(s[0]) {
        RunsAreTokens(s[1..], cur + [s[0]]);
      } else {
        RunsAreTokens(s[1..], []);
      }
    }
  }

  /** Every token is non-empty and made only of a-z, 0-9 and '%'. */
  lemma TokensAreTokens(s: string)
    ensures forall j :: 0 <= j < |Tokens(s)| ==> IsToken(Tokens(s)[j])
  {
    RunsAreTokens(Norm(s), []);
  }

  /** The distinct tokens (`new Set(tokens(s))`). */
  function TokenSet(s: string): set<string>
  {
    set t | t in Tokens(s)
  }

  // ---- Score ----------------------------------------------------------------

  function MaxNat(a: nat, b: nat): nat { if a >= b then a else b }

  /** The overlap ratio of two token sets: shared tokens over the larger
      set's size, 0 when either set is empty. */
  function Overlap(q: set<string>, c: set<string>): real
  {
    if |q| == 0 || |c| == 0 then 0.0 else (|q * c| as real) / (MaxNat(|q|, |c|) as real)
  }

  /** `score(query, candidate)`. */
  function ScoreOf(query: string, candidate: string): real
  {
    Overlap(TokenSet(query), TokenSet(candidate))
  }

  lemma {:induction false} SubsetCard<T>(a: set<T>, b: set<T>)
    requires a <= b
    ensures |a| <= |b|
    decreases |a|
  {
    if a != {} {
      var x :| x in a;
      SubsetCard(a - {x}, b - {x});
    }
  }

  /** The overlap always lies in [0, 1]. */
  lemma OverlapBounds(q: set<string>, c: set<string>)
    ensures 0.0 <= Overlap(q, c) <= 1.0
  {
    if |q| != 0 && |c| != 0 {
      SubsetCard(q * c, q);
      SubsetCard(q * c, c);
      RatioAtMostOne(|q * c| as real, MaxNat(|q|, |c|) as real);
    }
  }

  lemma RatioAtMostOne(a: real, b: real)
    requires 0.0 <= a <= b && b > 0.0
    ensures 0.0 <= a / b <= 1.0
  {
    assert a / b * b == a;
  }

  /** The overlap does not depend on which side is the query. */
  lemma OverlapSymmetric(q: set<string>, c: set<string>)
    ensures Overlap(q, c) == Overlap(c, q)
  {
    assert q * c == c * q;
  }

  /** Every string with a token scores 1 against itself. */
  lemma OverlapSelf(q: set<string>)
    requires |q| != 0
    ensures Overlap(q, q) == 1.0
  {
    assert q * q == q;
  }

  /** `score` lies in [0, 1], is symmetric, is 0 when either side has no
      token and is 1 for a string with a token against itself. */
  lemma ScoreProperties(a: string, b: string)
    ensures 0.0 <= ScoreOf(a, b) <= 1.0
    ensures ScoreOf(a, b) == ScoreOf(b, a)
    ensures TokenSet(a) == {} || TokenSet(b) == {} ==> ScoreOf(a, b) == 0.0
    ensures TokenSet(a) != {} ==> ScoreOf(a, a) == 1.0
  {
    OverlapBounds(TokenSet(a), TokenSet(b));
    OverlapSymmetric(TokenSet(a), TokenSet(b));
    if TokenSet(a) != {} {
      OverlapSelf(TokenSet(a));
    }
  }

  /** The scoring loop: walks the query's distinct tokens and counts those
      the candidate has too. */
  method CountShared(q: set<string>, c: set<string>) returns (hit: nat)
    ensures hit == |q * c|
  {
    hit := 0;
    var rest := q;
    while rest != {}
      invariant rest <= q
      invariant hit == |(q - rest) * c|
      decreases |rest|
    {
      var t :| t in rest;
      var done := (q - rest) * c;
      assert t !in done;
      if t in c {
        assert (q - (rest - {t})) * c == done + {t};
        assert |done + {t}| == |done| + 1;
        hit := hit + 1;
      } else {
        assert (q - (rest - {t})) * c == done;
      }
      rest := rest - {t};
    }
    assert q - rest == q;
  }

  /** `score`: the shared distinct tokens over the larger token count. */
  method Score(query: string, candidate: string) returns (r: real)
    ensures r == ScoreOf(query, candidate)
  {
    var q := TokenSet(query);
    var c := TokenSet(candidate);
    if |q| == 0 || |c| == 0 {
      return 0.0;
    }
    var hit := CountShared(q, c);
    r := (hit as real) / (MaxNat(|q|, |c|) as real);
  }

  // ---- De-duplication ---------------------------------------------------

  /** A candidate the page walk found. */
  datatype Candidate = Candidate(name: string, price: real)

  /** The de-dup key: the normalised name and the price. The page joins them
      as `norm(name) + "|" + price`; a price's decimal form has no "|", so
      the pair carries the same information. */
  datatype Key = Key(name: string, price: real)

  function KeyOf(c: Candidate): Key
  {
    Key(Norm(c.name), c.price)
  }

  /** The keys of a sequence of candidates. */
  function KeysOf(s: seq<Candidate>): set<Key>
  {
    set j | 0 <= j < |s| :: KeyOf(s[j])
  }

  lemma KeysOfSnoc(s: seq<Candidate>, x: Candidate)
    ensures KeysOf(s + [x]) == KeysOf(s) + {KeyOf(x)}
  {
    var t := s + [x];
    forall key | key in KeysOf(t) ensures key in KeysOf(s) + {KeyOf(x)} {
      var j :| 0 <= j < |t| && KeyOf(t[j]) == key;
      if j < |s| {
        assert t[j] == s[j];
      }
    }
    forall key | key in KeysOf(s) ensures key in KeysOf(t) {
      var j :| 0 <= j < |s| && KeyOf(s[j]) == key;
      assert t[j] == s[j];
    }
    assert t[|s|] == x;
  }

  /** The candidates with the first of each key kept, in order. */
  function Dedup(s: seq<Candidate>): (r: seq<Candidate>)
    ensures |r| <= |s|
  {
    if s == [] then []
    else
      var p := Dedup(s[..|s| - 1]);
      if KeyOf(s[|s| - 1]) in KeysOf(p) then p else p + [s[|s| - 1]]
  }

  /** De-dup keeps only input candidates, in their input order, no two with
      the same key, and exactly the keys of the input. */
  lemma DedupProperties(s: seq<Candidate>)
    ensures forall j :: 0 <= j < |Dedup(s)| ==> Dedup(s)[j] in s
    ensures DistinctKeys(Dedup(s), KeyOf)
    ensures KeysOf(Dedup(s)) == KeysOf(s)
    ensures IsSubseq(Dedup(s), s)
  {
    DedupSubseq(s);
    DedupFromInput(s);
    DedupDistinct(s);
    DedupKeys(s);
  }

  lemma {:induction false} DedupFromInput(s: seq<Candidate>)
    ensures forall j :: 0 <= j < |Dedup(s)| ==> Dedup(s)[j] in s
  {
    if s != [] {
      var pre := s[..|s| - 1];
      DedupFromInput(pre);
      assert forall c :: c in pre ==> c in s;
    }
  }

  lemma {:induction false} DedupDistinct(s: seq<Candidate>)
    ensures DistinctKeys(Dedup(s), KeyOf)
  {
    if s != [] {
      var pre := s[..|s| - 1];
      var x := s[|s| - 1];
      DedupDistinct(pre);
      var p := Dedup(pre);
      if KeyOf(x) !in KeysOf(p) {
        var r := p + [x];
        forall i, j | 0 <= i < j < |r| ensures KeyOf(r[i]) != KeyOf(r[j]) {
          assert r[i] == p[i];
          if j == |p| {
            assert KeyOf(p[i]) in KeysOf(p);
          } else {
            assert r[j] == p[j];
          }
        }
      }
    }
  }

  lemma {:induction false} DedupKeys(s: seq<Candidate>)
    ensures KeysOf(Dedup(s)) == KeysOf(s)
  {
    if s != [] {
      var pre := s[..|s| - 1];
      var x := s[|s| - 1];
      assert s == pre + [x];
      DedupKeys(pre);
      var p := Dedup(pre);
      KeysOfSnoc(pre, x);
      if KeyOf(x) !in KeysOf(p) {
        KeysOfSnoc(p, x);
      }
    }
  }

  /** De-dup keeps the candidates it keeps in their input order. */
  lemma {:induction false} DedupSubseq(s: seq<Candidate>)
    ensures IsSubseq(Dedup(s), s)
  {
    if s == [] {
      var none: seq<nat> := [];
      assert Embeds(none, Dedup(s), s);
    } else {
      var pre := s[..|s| - 1];
      var x := s[|s| - 1];
      assert s == pre + [x];
      DedupSubseq(pre);
      var p := Dedup(pre);
      var idx :| Embeds(idx, p, pre);
      EmbedsSnoc(idx, p, pre, x);
      if KeyOf(x) in KeysOf(p) {
        assert Dedup(s) == p;
      } else {
        assert Dedup(s) == p + [x];
      }
    }
  }

  /** Each kept candidate is the first input candidate with its key. */
  lemma {:induction false} DedupKeepsFirst(s: seq<Candidate>, i: nat)
    requires i < |s|
    requires forall j :: 0 <= j < i ==> KeyOf(s[j]) != KeyOf(s[i])
    ensures s[i] in Dedup(s)
  {
    var pre := s[..|s| - 1];
    if i < |s| - 1 {
      assert pre[i] == s[i];
      DedupKeepsFirst(pre, i);
    } else {
      DedupKeys(pre);
    }
  }

  /** The de-dup loop: a map from key to the first candidate with it. */
  method DedupLoop(out: seq<Candidate>) returns (uniq: seq<Candidate>)
    ensures uniq == Dedup(out)
  {
    var seen: map<Key, Candidate> := map[];
    uniq := [];
    for idx := 0 to |out|
      invariant uniq == Dedup(out[..idx])
      invariant seen.Keys == KeysOf(uniq)
    {
      var it := out[idx];
      var key := KeyOf(it);
      assert out[..idx + 1][..idx] == out[..idx];
      if key !in seen {
        KeysOfSnoc(uniq, it);
        seen := seen[key := it];
        uniq := uniq + [it];
      }
    }
    assert out[..|out|] == out;
  }

  // ---- Ranking ------------------------------------------------------------

  /** A scored result, with the URL it was found on. */
  datatype Hit = Hit(name: string, price: real, source: string, score: real)

  /** The result order: higher score first, then lower price. */
  function HitBefore(): (Hit, Hit) -> bool
  {
    (a: Hit, b: Hit) => b.score - a.score < 0.0 || (b.score - a.score == 0.0 && a.price - b.price < 0.0)
  }

  lemma HitBeforeAsymmetric()
    ensures Asymmetric(HitBefore())
  {
  }

  /** In a sequence sorted by `HitBefore`, scores never increase and equal
      scores come cheapest first. */
  lemma {:induction false} RankedOrder(s: seq<Hit>, i: nat, j: nat)
    requires AdjacentSorted(s, HitBefore())
    requires i <= j < |s|
    ensures s[i].score >= s[j].score
    ensures s[i].score == s[j].score ==> s[i].price <= s[j].price
    decreases j - i
  {
    if i < j {
      RankedOrder(s, i, j - 1);
      assert !HitBefore()(s[j], s[j - 1]);
    }
  }

  /** The results sorted by `HitBefore`, through the array sort. */
  method SortHits(results: seq<Hit>) returns (sorted: seq<Hit>)
    ensures multiset(sorted) == multiset(results)
    ensures AdjacentSorted(sorted, HitBefore())
  {
    var a := new Hit[|results|](k requires 0 <= k < |results| => results[k]);
    assert a[..] == results;
    HitBeforeAsymmetric();
    InsertionSort(a, HitBefore());
    sorted := a[..];
  }

  /** In a sorted sequence, nothing after position `n` ranks ahead of
      anything before it. */
  lemma KeptAheadOfDropped(sorted: seq<Hit>, n: nat)
    requires AdjacentSorted(sorted, HitBefore()) && n <= |sorted|
    ensures forall t, x :: t in sorted[..n] && x in multiset(sorted[n..]) ==>
      t.score >= x.score && (t.score == x.score ==> t.price <= x.price)
  {
    forall t, x | t in sorted[..n] && x in multiset(sorted[n..])
      ensures t.score >= x.score && (t.score == x.score ==> t.price <= x.price)
    {
      var i :| 0 <= i < n && sorted[..n][i] == t;
      var j :| 0 <= j < |sorted[n..]| && sorted[n..][j] == x;
      RankedOrder(sorted, i, n + j);
    }
  }

  /** The first `n` of a sequence and the rest together make up all of it. */
  lemma SplitMultiset(s: seq<Hit>, n: nat)
    requires n <= |s|
    ensures multiset(s) - multiset(s[..n]) == multiset(s[n..])
    ensures multiset(s[..n]) <= multiset(s)
  {
    assert s == s[..n] + s[n..];
  }

  /** The sort and the top five: at most five results, in result order, none
      of the dropped ones ahead of a kept one. */
  method TopFive(results: seq<Hit>) returns (top: seq<Hit>)
    ensures |top| == if |results| < 5 then |results| else 5
    ensures multiset(top) <= multiset(results)
    ensures AdjacentSorted(top, HitBefore())
    ensures forall t, x :: t in top && x in multiset(results) - multiset(top) ==>
      t.score >= x.score && (t.score == x.score ==> t.price <= x.price)
  {
    var sorted := SortHits(results);
    assert |sorted| == |multiset(sorted)| == |results|;
    var n := if |sorted| < 5 then |sorted| else 5;
    top := sorted[..n];
    KeptAheadOfDropped(sorted, n);
    SplitMultiset(sorted, n);
  }

  // ---- The handler ----------------------------------------------------------

  const Base := "https://www.smart.com.mt"

  /** The shop pages searched for each category. */
  const CategoryUrls: map<string, seq<string>> := map[
    "Produce" := [Base + "/forms/Products.aspx?=10-20"],
    "Dairy" := [Base + "/forms/Products.aspx?=10-25-2520"],
    "Bakery" := [Base + "/forms/Products.aspx?=10-10-1015"],
    "Drinks" := [Base + "/forms/Products.aspx?=10-15", Base + "/forms/Products.aspx?=10-15-1535"],
    "Pantry" := [Base + "/forms/Products.aspx?=10-20"],
    "Frozen" := [Base + "/forms/Products.aspx?=10-30"],
    "Household" := [Base + "/forms/Products.aspx?=10-45-4540"],
    "Baby" := [Base + "/forms/Products.aspx?=10-55-5525"],
    "Pharmacy" := [Base + "/forms/Products.aspx?=10-35"],
    "Other" := [Base + "/forms/SearchResults.aspx"]]

  /** The pages for a category, the "Other" pages for an unknown one. */
  function PoolsFor(category: string): (urls: seq<string>)
    ensures category in CategoryUrls ==> urls == CategoryUrls[category]
    ensures category !in CategoryUrls ==> urls == [Base + "/forms/SearchResults.aspx"]
  {
    if category in CategoryUrls then CategoryUrls[category] else CategoryUrls["Other"]
  }

  /** The query's name, trimmed; a missing name reads as empty. */
  function QueryName(name: Option<string>): string
  {
    Trim(match name case Some(n) => n case None => "")
  }

  /** The query's category: "Other" when missing or empty, then trimmed. */
  function QueryCategory(category: Option<string>): (c: string)
    ensures category.None? || category == Some("") ==> c == "Other"
    ensures category.Some? && category != Some("") ==> c == Trim(category.value)
  {
    match category
    case Some(c) => if c == "" then "Other" else Trim(c)
    case None => Trim("Other")
  }

  /** A hit found on page `url` for `name` among the candidates `pool`. */
  predicate PageHit(name: string, url: string, pool: seq<Candidate>, h: Hit)
  {
    h.score > 0.0 && h.source == url && h.score == ScoreOf(name, h.name) && Candidate(h.name, h.price) in pool
  }

  /** The hits of the candidates `pool` of page `url`: each candidate with a
      positive score, scored and tagged with the page, in candidate order. */
  function HitsOf(name: string, url: string, pool: seq<Candidate>): (hits: seq<Hit>)
    ensures |hits| <= |pool|
  {
    if pool == [] then []
    else
      var c := pool[|pool| - 1];
      HitsOf(name, url, pool[..|pool| - 1])
        + (if ScoreOf(name, c.name) > 0.0 then [Hit(c.name, c.price, url, ScoreOf(name, c.name))] else [])
  }

  /** The hits of a page are page hits, and every candidate with a positive
      score is among them. */
  lemma HitsOfExact(name: string, url: string, pool: seq<Candidate>)
    ensures forall k :: 0 <= k < |HitsOf(name, url, pool)| ==> PageHit(name, url, pool, HitsOf(name, url, pool)[k])
    ensures forall c :: c in pool && ScoreOf(name, c.name) > 0.0 ==>
      Hit(c.name, c.price, url, ScoreOf(name, c.name)) in HitsOf(name, url, pool)
  {
    HitsOfSound(name, url, pool);
    forall c | c in pool && ScoreOf(name, c.name) > 0.0
      ensures Hit(c.name, c.price, url, ScoreOf(name, c.name)) in HitsOf(name, url, pool)
    {
      HitsOfComplete(name, url, pool, c);
    }
  }

  lemma {:induction false} HitsOfSound(name: string, url: string, pool: seq<Candidate>)
    ensures forall k :: 0 <= k < |HitsOf(name, url, pool)| ==> PageHit(name, url, pool, HitsOf(name, url, pool)[k])
  {
    if pool != [] {
      var pre := pool[..|pool| - 1];
      var c := pool[|pool| - 1];
      assert pool == pre + [c];
      HitsOfSound(name, url, pre);
      var h := HitsOf(name, url, pre);
      var e: seq<Hit> := if ScoreOf(name, c.name) > 0.0 then [Hit(c.name, c.price, url, ScoreOf(name, c.name))] else [];
      assert HitsOf(name, url, pool) == h + e;
      forall k | 0 <= k < |h + e| ensures PageHit(name, url, pool, (h + e)[k]) {
        if k < |h| {
          assert (h + e)[k] == h[k] && PageHit(name, url, pre, h[k]);
        } else {
          assert (h + e)[k] == e[0];
        }
      }
    }
  }

  lemma {:induction false} HitsOfComplete(name: string, url: string, pool: seq<Candidate>, c: Candidate)
    requires c in pool && ScoreOf(name, c.name) > 0.0
    ensures Hit(c.name, c.price, url, ScoreOf(name, c.name)) in HitsOf(name, url, pool)
  {
    var pre := pool[..|pool| - 1];
    var last := pool[|pool| - 1];
    assert pool == pre + [last];
    var e: seq<Hit> := if ScoreOf(name, last.name) > 0.0 then [Hit(last.name, last.price, url, ScoreOf(name, last.name))] else [];
    assert HitsOf(name, url, pool) == HitsOf(name, url, pre) + e;
    if c != last {
      assert c in pre;
      HitsOfComplete(name, url, pre, c);
    }
  }

  /** The hits of every page of `pools` that was fetched, page after page. */
  function AllHits(name: string, pools: seq<string>, pages: map<string, seq<Candidate>>): seq<Hit>
  {
    if pools == [] then []
    else
      var url := pools[|pools| - 1];
      AllHits(name, pools[..|pools| - 1], pages)
        + (if url in pages then HitsOf(name, url, Dedup(pages[url])) else [])
  }

  /** The hits of one page: its de-duplicated candidates with a positive
      score, in order. */
  method PageHits(name: string, url: string, cands: seq<Candidate>) returns (hits: seq<Hit>)
    ensures hits == HitsOf(name, url, Dedup(cands))
    ensures forall k :: 0 <= k < |hits| ==> PageHit(name, url, Dedup(cands), hits[k])
  {
    var uniq := DedupLoop(cands);
    hits := [];
    for idx := 0 to |uniq|
      invariant hits == HitsOf(name, url, uniq[..idx])
    {
      var c := uniq[idx];
      ghost var next := uniq[..idx + 1];
      assert next[..|next| - 1] == uniq[..idx] && next[|next| - 1] == c;
      var s := Score(name, c.name);
      if s > 0.0 {
        hits := hits + [Hit(c.name, c.price, url, s)];
      }
    }
    assert uniq[..|uniq|] == uniq;
    HitsOfSound(name, url, uniq);
  }

  /** The walk over the pages: the hits of each fetched page, appended. */
  method SearchPools(name: string, pools: seq<string>, pages: map<string, seq<Candidate>>)
    returns (results: seq<Hit>)
    ensures results == AllHits(name, pools, pages)
  {
    results := [];
    for p := 0 to |pools|
      invariant results == AllHits(name, pools[..p], pages)
    {
      var url := pools[p];
      ghost var next := pools[..p + 1];
      assert next[..|next| - 1] == pools[..p] && next[|next| - 1] == url;
      if url in pages {
        var hits := PageHits(name, url, pages[url]);
        results := results + hits;
      }
    }
    assert pools[..|pools|] == pools;
  }

  /** Every hit of the walk scores positively against the name and comes
      from one of the pages searched. */
  lemma {:induction false} AllHitsScored(name: string, pools: seq<string>, pages: map<string, seq<Candidate>>)
    ensures forall k :: 0 <= k < |AllHits(name, pools, pages)| ==>
      && AllHits(name, pools, pages)[k].score > 0.0
      && AllHits(name, pools, pages)[k].score == ScoreOf(name, AllHits(name, pools, pages)[k].name)
      && AllHits(name, pools, pages)[k].source in pools
  {
    if pools != [] {
      var pre := pools[..|pools| - 1];
      var url := pools[|pools| - 1];
      AllHitsScored(name, pre, pages);
      var a := AllHits(name, pre, pages);
      var e: seq<Hit> := if url in pages then HitsOf(name, url, Dedup(pages[url])) else [];
      assert AllHits(name, pools, pages) == a + e;
      if url in pages {
        HitsOfSound(name, url, Dedup(pages[url]));
      }
      forall k | 0 <= k < |a + e|
        ensures (a + e)[k].score > 0.0 && (a + e)[k].score == ScoreOf(name, (a + e)[k].name) && (a + e)[k].source in pools
      {
        if k < |a| {
          assert (a + e)[k] == a[k] && a[k].source in pre;
        } else {
          assert (a + e)[k] == e[k - |a|];
        }
      }
    }
  }

  /** The search proper: the walk over the pages, then the top five of its
      hits (none when there is no hit). */
  method SearchCategory(name: string, pools: seq<string>, pages: map<string, seq<Candidate>>)
    returns (top: seq<Hit>)
    ensures RankedTop(top, AllHits(name, pools, pages))
    ensures forall k :: 0 <= k < |top| ==>
      top[k].score > 0.0 && top[k].score == ScoreOf(name, top[k].name) && top[k].source in pools
  {
    var results := SearchPools(name, pools, pages);
    AllHitsScored(name, pools, pages);
    if |results| == 0 {
      return [];
    }
    top := TopFive(results);
    TopKeepsScores(top, results, name, pools);
  }

  /** `top` is what sorting `all` and keeping the first five gives: at most
      five hits of `all`, in result order, none of the others ahead. */
  ghost predicate RankedTop(top: seq<Hit>, all: seq<Hit>)
  {
    && |top| == (if |all| < 5 then |all| else 5)
    && multiset(top) <= multiset(all)
    && AdjacentSorted(top, HitBefore())
    && forall t, x :: t in top && x in multiset(all) - multiset(top) ==>
      t.score >= x.score && (t.score == x.score ==> t.price <= x.price)
  }

  /** What holds of every hit holds of every hit kept. */
  lemma TopKeepsScores(top: seq<Hit>, all: seq<Hit>, name: string, pools: seq<string>)
    requires multiset(top) <= multiset(all)
    requires forall k :: 0 <= k < |all| ==>
      all[k].score > 0.0 && all[k].score == ScoreOf(name, all[k].name) && all[k].source in pools
    ensures forall k :: 0 <= k < |top| ==>
      top[k].score > 0.0 && top[k].score == ScoreOf(name, top[k].name) && top[k].source in pools
  {
    forall k | 0 <= k < |top|
      ensures top[k].score > 0.0 && top[k].score == ScoreOf(name, top[k].name) && top[k].source in pools
    {
      assert top[k] in multiset(all);
    }
  }

  /** The category names every plain object inherits: looking one up gives
      an inherited member that is not a list of pages, so the walk over the
      pages fails and the handler answers 500. */
  const InheritedNames: set<string> := {
    "constructor", "hasOwnProperty", "isPrototypeOf", "propertyIsEnumerable",
    "toString", "toLocaleString", "valueOf", "__proto__",
    "__defineGetter__", "__defineSetter__", "__lookupGetter__", "__lookupSetter__"}

  /** The response: 400 for a missing name, 500 when the search fails,
      otherwise the top hits. */
  datatype Response = MissingName | SearchFailed | Found(results: seq<Hit>)

  /** `handler`: validates the name, searches every page of the category,
      and answers the top five hits. */
  method Handler(queryName: Option<string>, queryCategory: Option<string>, pages: map<string, seq<Candidate>>)
    returns (resp: Response)
    ensures QueryName(queryName) == [] <==> resp.MissingName?
    ensures resp.SearchFailed? <==> QueryName(queryName) != [] && QueryCategory(queryCategory) in InheritedNames
    ensures resp.Found? ==>
      RankedTop(resp.results, AllHits(QueryName(queryName), PoolsFor(QueryCategory(queryCategory)), pages))
    ensures resp.Found? ==> forall k :: 0 <= k < |resp.results| ==>
      && resp.results[k].score > 0.0
      && resp.results[k].score == ScoreOf(QueryName(queryName), resp.results[k].name)
      && resp.results[k].source in PoolsFor(QueryCategory(queryCategory))
  {
    var name := QueryName(queryName);
    var category := QueryCategory(queryCategory);
    if name == [] {
      return MissingName;
    }
    if category in InheritedNames {
      return SearchFailed;
    }
    var top := SearchCategory(name, PoolsFor(category), pages);
    resp := Found(top);
  }
}
