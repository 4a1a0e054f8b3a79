/**
 * Trending keywords for a product description: the description is sorted
 * into categories by keyword, each category is tried against Google
 * Trends (loaded lazily and cached), and when no category yields related
 * queries a simulated list is drawn from fixed keyword pools. The Trends
 * API, the module import and the random shuffles are passed in.
 */
module GoogleTrends {
  import opened Wrappers
  import opened Strings

  /* ---- analyzeDescription ---- */

  /** The categories analyzeDescription knows, in the order it tests them. */
  const CategoryNames: seq<string> := ["fashion", "electronics", "home", "beauty", "outdoors"]

  /** The words that put a description into each category, matched as substrings. */
  const CategoryKeywords: seq<seq<string>> := [
    ["shirt", "dress", "shoes", "hat", "jacket", "jeans", "clothing", "wear", "apparel", "fashion"],
    ["phone", "laptop", "computer", "gadget", "charger", "device", "camera", "tech", "electronic", "digital"],
    ["furniture", "decor", "chair", "table", "kitchen", "bedroom", "living", "home", "house", "garden"],
    ["makeup", "skincare", "cream", "lotion", "beauty", "cosmetic", "face", "hair", "shampoo", "perfume"],
    ["outdoor", "hiking", "camping", "adventure", "backpack", "tent", "grill", "sports", "bike", "fishing"]]

  /** The category appended to every analysis. */
  const Ecommerce: string := "ecommerce"

  /** The five names, and "ecommerce", differ in their first two letters. */
  lemma CategoryNamesDistinct()
    ensures NoDuplicates(CategoryNames)
    ensures Ecommerce !in CategoryNames
  {
    forall i, j | 0 <= i < j < |CategoryNames| ensures CategoryNames[i] != CategoryNames[j] {
      assert CategoryNames[i][0] != CategoryNames[j][0];
    }
    forall i | 0 <= i < |CategoryNames| ensures CategoryNames[i] != Ecommerce {
      assert CategoryNames[i][0] != Ecommerce[0] || CategoryNames[i][1] != Ecommerce[1];
    }
  }

  /** `keywords.some(keyword => lowercaseDesc.includes(keyword))` */
  predicate MatchesAny(lowercaseDesc: string, keywords: seq<string>) {
    exists j :: 0 <= j < |keywords| && Contains(lowercaseDesc, keywords[j])
  }

  /** The categories among the first n of the table whose keywords occur, in table order. */
  function Matched(lowercaseDesc: string, names: seq<string>, table: seq<seq<string>>, n: nat): (r: seq<string>)
    requires |names| == |table| && n <= |names|
    ensures |r| <= n
    ensures forall i :: 0 <= i < |r| ==> r[i] in names[..n]
  {
    if n == 0 then []
    else
      var r := Matched(lowercaseDesc, names, table, n - 1);
      assert names[..n - 1] <= names[..n];
      if MatchesAny(lowercaseDesc, table[n - 1]) then r + [names[n - 1]] else r
  }

  /** What analyzeDescription returns: the matching categories, then "ecommerce". */
  function Categorize(description: string): (r: seq<string>)
    ensures |r| >= 1 && r[|r| - 1] == Ecommerce
  {
    Matched(Lower(description), CategoryNames, CategoryKeywords, |CategoryNames|) + [Ecommerce]
  }

  /** The loop of analyzeDescription over a keyword table: each matching category is pushed in table order. */
  method MatchCategories(lowercaseDesc: string, names: seq<string>, table: seq<seq<string>>) returns (categories: seq<string>)
    requires |names| == |table|
    ensures categories == Matched(lowercaseDesc, names, table, |names|)
  {
    categories := [];
    var k := 0;
    while k < |names|
      invariant 0 <= k <= |names|
      invariant categories == Matched(lowercaseDesc, names, table, k)
    {
      if MatchesAny(lowercaseDesc, table[k]) {
        categories := categories + [names[k]];
      }
      k := k + 1;
    }
  }

  /** analyzeDescription: the matching categories of the fixed table, then "ecommerce". */
  method AnalyzeDescription(description: string) returns (categories: seq<string>)
    ensures categories == Categorize(description)
  {
    var lowercaseDesc := Lower(description);
    categories := MatchCategories(lowercaseDesc, CategoryNames, CategoryKeywords);
    categories := categories + [Ecommerce];
  }

  lemma NameIndex(names: seq<string>, k: int)
    requires NoDuplicates(names) && 0 <= k < |names|
    ensures FirstIndex(names, names[k]) == k
  {
  }

  /**
   * With distinct names, each of the first n categories is listed exactly
   * when one of its keywords occurs, and the listed ones keep the table
   * order.
   */
  lemma MatchedSpec(lowercaseDesc: string, names: seq<string>, table: seq<seq<string>>, n: nat)
    requires |names| == |table| && n <= |names| && NoDuplicates(names)
    ensures var r := Matched(lowercaseDesc, names, table, n);
      (forall k :: 0 <= k < n ==> (names[k] in r <==> MatchesAny(lowercaseDesc, table[k]))) &&
      (forall i, j :: 0 <= i < j < |r| ==> FirstIndex(names, r[i]) < FirstIndex(names, r[j]))
  {
    MatchedMembers(lowercaseDesc, names, table, n);
    MatchedInOrder(lowercaseDesc, names, table, n);
  }

  /** A name among the first n - 1 comes before the n-th name and differs from it. */
  lemma EarlierName(names: seq<string>, x: string, n: nat)
    requires NoDuplicates(names) && 0 < n <= |names| && x in names[..n - 1]
    ensures FirstIndex(names, x) < n - 1 && x != names[n - 1]
  {
    var k :| 0 <= k < n - 1 && names[k] == x;
    NameIndex(names, k);
  }

  /** A name among the first n is listed exactly when one of its keywords occurs. */
  lemma {:induction false} MatchedMembers(lowercaseDesc: string, names: seq<string>, table: seq<seq<string>>, n: nat)
    requires |names| == |table| && n <= |names| && NoDuplicates(names)
    ensures var r := Matched(lowercaseDesc, names, table, n);
      forall k :: 0 <= k < n ==> (names[k] in r <==> MatchesAny(lowercaseDesc, table[k]))
  {
    if n > 0 {
      MatchedMembers(lowercaseDesc, names, table, n - 1);
      var r' := Matched(lowercaseDesc, names, table, n - 1);
      var r := Matched(lowercaseDesc, names, table, n);
      var last := names[n - 1];
      forall i | 0 <= i < |r'| ensures r'[i] != last {
        EarlierName(names, r'[i], n);
      }
      forall k | 0 <= k < n - 1 ensures names[k] != last {
        assert names[k] in names[..n - 1];
        EarlierName(names, names[k], n);
      }
      if MatchesAny(lowercaseDesc, table[n - 1]) {
        assert r == r' + [last];
      } else {
        assert r == r';
      }
    }
  }

  /** The listed names keep their order in the table. */
  lemma {:induction false} MatchedInOrder(lowercaseDesc: string, names: seq<string>, table: seq<seq<string>>, n: nat)
    requires |names| == |table| && n <= |names| && NoDuplicates(names)
    ensures var r := Matched(lowercaseDesc, names, table, n);
      forall i, j :: 0 <= i < j < |r| ==> FirstIndex(names, r[i]) < FirstIndex(names, r[j])
  {
    if n > 0 && MatchesAny(lowercaseDesc, table[n - 1]) {
      MatchedInOrder(lowercaseDesc, names, table, n - 1);
      var r' := Matched(lowercaseDesc, names, table, n - 1);
      var r := r' + [names[n - 1]];
      assert Matched(lowercaseDesc, names, table, n) == r;
      NameIndex(names, n - 1);
      forall i, j | 0 <= i < j < |r| ensures FirstIndex(names, r[i]) < FirstIndex(names, r[j]) {
        assert r[i] == r'[i];
        if j == |r'| {
          EarlierName(names, r'[i], n);
        } else {
          assert r[j] == r'[j];
        }
      }
    } else if n > 0 {
      MatchedInOrder(lowercaseDesc, names, table, n - 1);
      assert Matched(lowercaseDesc, names, table, n) == Matched(lowercaseDesc, names, table, n - 1);
    }
  }

  /**
   * analyzeDescription's result: a category is listed exactly when one of
   * its words occurs in the lower-cased description; listed categories
   * keep the table order; "ecommerce" comes last and only there; nothing
   * repeats; and there are 1 to 6 entries.
   */
  lemma CategorizeSpec(description: string)
    ensures var r := Categorize(description);
      (forall k :: 0 <= k < |CategoryNames| ==> (CategoryNames[k] in r <==> MatchesAny(Lower(description), CategoryKeywords[k]))) &&
      (forall i, j :: 0 <= i < j < |r| - 1 ==> FirstIndex(CategoryNames, r[i]) < FirstIndex(CategoryNames, r[j])) &&
      r[|r| - 1] == Ecommerce && Ecommerce !in r[..|r| - 1] &&
      NoDuplicates(r) && 1 <= |r| <= 6
  {
    CategoryNamesDistinct();
    var d := Lower(description);
    var m := Matched(d, CategoryNames, CategoryKeywords, |CategoryNames|);
    MatchedSpec(d, CategoryNames, CategoryKeywords, |CategoryNames|);
    var r := Categorize(description);
    assert r == m + [Ecommerce];
    assert r[..|r| - 1] == m;
    forall i, j | 0 <= i < j < |r| ensures r[i] != r[j] {
      if j < |r| - 1 {
        assert FirstIndex(CategoryNames, m[i]) < FirstIndex(CategoryNames, m[j]);
      } else {
        assert m[i] in CategoryNames;
      }
    }
  }

  /** The match is case-insensitive: lower-casing the description first changes nothing. */
  lemma CategorizeIgnoresCase(description: string)
    ensures Categorize(Lower(description)) == Categorize(description)
  {
    LowerIdempotent(description);
  }

  /* ---- the simulated keywords ---- */

  /** TRENDING_KEYWORDS_BY_CATEGORY */
  const TrendingByCategory: map<string, seq<string>> := map[
    "ecommerce" := ["free-shipping", "limited-time-offer", "exclusive-deal", "bestseller",
      "top-rated", "fast-delivery", "flash-sale", "new-arrival", "trending-now", "discount"],
    "fashion" := ["sustainable-fashion", "eco-friendly", "organic-cotton", "recycled-materials",
      "minimalist-design", "athleisure", "capsule-wardrobe", "vintage-inspired", "handcrafted", "limited-edition"],
    "electronics" := ["wireless-charging", "smart-home", "noise-cancelling", "waterproof",
      "ultralight", "foldable", "energy-efficient", "voice-controlled", "high-resolution", "bluetooth-enabled"],
    "home" := ["space-saving", "multifunctional", "ergonomic", "scandinavian-design",
      "mid-century-modern", "handwoven", "natural-materials", "air-purifying", "storage-solution", "indoor-garden"],
    "beauty" := ["cruelty-free", "vegan-friendly", "paraben-free", "natural-ingredients",
      "dermatologist-tested", "anti-aging", "hydrating", "fragrance-free", "long-lasting", "spf-protection"],
    "outdoors" := ["ultralight", "weather-resistant", "quick-dry", "breathable",
      "packable", "insulated", "adjustable", "sustainably-made", "all-terrain", "multipurpose"]]

  const SeasonalTrends: seq<string> := ["summer-ready", "beach-essential", "travel-friendly", "back-to-school",
    "gift-idea", "holiday-special", "fathers-day", "mothers-day", "graduation-gift", "anniversary-present"]

  const GeneralTrends: seq<string> := ["best-selling", "highest-rated", "customer-favorite", "editor-choice",
    "affordable-luxury", "premium-quality", "budget-friendly", "professional-grade", "must-have", "popular-now"]

  /** `TRENDING_KEYWORDS_BY_CATEGORY[category] || []` */
  function Pool(category: string): (pool: seq<string>)
    ensures category !in TrendingByCategory ==> pool == []
    ensures category in TrendingByCategory ==> pool == TrendingByCategory[category]
  {
    PoolIn(TrendingByCategory, category)
  }

  /** `byCategory[category] || []` */
  function PoolIn(byCategory: map<string, seq<string>>, category: string): (pool: seq<string>)
    ensures category !in byCategory ==> pool == []
    ensures category in byCategory ==> pool == byCategory[category]
  {
    if category in byCategory then byCategory[category] else []
  }

  /** The pools the simulated keywords are drawn from: one per category, then the seasonal and general lists. */
  function PoolsFrom(byCategory: map<string, seq<string>>, categories: seq<string>,
                     seasonal: seq<string>, general: seq<string>): (pools: seq<seq<string>>)
    ensures |pools| == |categories| + 2
    ensures forall i :: 0 <= i < |categories| ==> pools[i] == PoolIn(byCategory, categories[i])
    ensures pools[|categories|] == seasonal && pools[|categories| + 1] == general
  {
    seq(|categories|, i requires 0 <= i < |categories| => PoolIn(byCategory, categories[i])) + [seasonal, general]
  }

  /** The pools of getSimulatedTrendingKeywords, for the fixed tables. */
  function Pools(categories: seq<string>): (pools: seq<seq<string>>)
    ensures |pools| == |categories| + 2
    ensures forall i :: 0 <= i < |categories| ==> pools[i] == Pool(categories[i])
    ensures pools[|categories|] == SeasonalTrends && pools[|categories| + 1] == GeneralTrends
  {
    PoolsFrom(TrendingByCategory, categories, SeasonalTrends, GeneralTrends)
  }

  /**
   * getRandomItems: the first `count` items of a shuffled copy. The
   * shuffle is given; it must be a rearrangement of the array.
   */
  function GetRandomItems<T>(items: seq<T>, count: nat, shuffled: seq<T>): (r: seq<T>)
    requires multiset(shuffled) == multiset(items)
    ensures |r| == if count <= |items| then count else |items|
    ensures |r| <= |shuffled| && r == shuffled[..|r|]
  {
    var n := if count <= |shuffled| then count else |shuffled|;
    assert |shuffled| == |items| by {
      assert |multiset(shuffled)| == |multiset(items)|;
    }
    shuffled[..n]
  }

  /** The picked items are items of the array, each at most as often as it occurs there. */
  lemma RandomItemsFromArray<T>(items: seq<T>, count: nat, shuffled: seq<T>)
    requires multiset(shuffled) == multiset(items)
    ensures var r := GetRandomItems(items, count, shuffled);
      multiset(r) <= multiset(items) && forall x :: x in r ==> x in items
  {
    var r := GetRandomItems(items, count, shuffled);
    assert shuffled == r + shuffled[|r|..];
    assert multiset(shuffled) == multiset(r) + multiset(shuffled[|r|..]);
    forall x | x in r ensures x in items {
      assert x in multiset(r);
      assert x in multiset(items);
    }
  }

  /** One shuffle per getRandomItems call, each a rearrangement of the pool it draws from. */
  predicate ValidShuffles(pools: seq<seq<string>>, shuffles: seq<seq<string>>) {
    |shuffles| == |pools| && forall i :: 0 <= i < |pools| ==> multiset(shuffles[i]) == multiset(pools[i])
  }

  /** Three picks from each of the first n pools, in order. */
  function CategoryPicks(pools: seq<seq<string>>, shuffles: seq<seq<string>>, n: nat): (r: seq<string>)
    requires n <= |pools| && ValidShuffles(pools, shuffles)
    ensures |r| <= 3 * n
  {
    if n == 0 then []
    else CategoryPicks(pools, shuffles, n - 1) + GetRandomItems(pools[n - 1], 3, shuffles[n - 1])
  }

  /** Everything pushed into trendingKeywords: three per category pool, then two each from the last two pools. */
  function AllPicks(pools: seq<seq<string>>, shuffles: seq<seq<string>>): (r: seq<string>)
    requires |pools| >= 2 && ValidShuffles(pools, shuffles)
    ensures |r| <= 3 * (|pools| - 2) + 4
  {
    var n := |pools| - 2;
    CategoryPicks(pools, shuffles, n) +
    GetRandomItems(pools[n], 2, shuffles[n]) + GetRandomItems(pools[n + 1], 2, shuffles[n + 1])
  }

  /** What getSimulatedTrendingKeywords returns for the given shuffles. */
  function SimulatedKeywords(description: string, shuffles: seq<seq<string>>): (r: seq<string>)
    requires ValidShuffles(Pools(Categorize(description)), shuffles)
    ensures NoDuplicates(r)
    ensures forall x :: x in r <==> x in AllPicks(Pools(Categorize(description)), shuffles)
  {
    Dedupe(AllPicks(Pools(Categorize(description)), shuffles))
  }

  /** The push loop of getSimulatedTrendingKeywords over given tables: three per category, two seasonal, two general. */
  method CollectPicks(byCategory: map<string, seq<string>>, categories: seq<string>,
                      seasonal: seq<string>, general: seq<string>, shuffles: seq<seq<string>>)
    returns (trendingKeywords: seq<string>)
    requires ValidShuffles(PoolsFrom(byCategory, categories, seasonal, general), shuffles)
    ensures trendingKeywords == AllPicks(PoolsFrom(byCategory, categories, seasonal, general), shuffles)
  {
    ghost var pools := PoolsFrom(byCategory, categories, seasonal, general);
    trendingKeywords := [];
    var i := 0;
    while i < |categories|
      invariant 0 <= i <= |categories|
      invariant trendingKeywords == CategoryPicks(pools, shuffles, i)
    {
      var categoryKeywords := PoolIn(byCategory, categories[i]);
      assert categoryKeywords == pools[i];
      var selectedKeywords := GetRandomItems(categoryKeywords, 3, shuffles[i]);
      trendingKeywords := trendingKeywords + selectedKeywords;
      i := i + 1;
    }
    var n := |categories|;
    var seasonalKeywords := GetRandomItems(seasonal, 2, shuffles[n]);
    trendingKeywords := trendingKeywords + seasonalKeywords;
    var generalKeywords := GetRandomItems(general, 2, shuffles[n + 1]);
    trendingKeywords := trendingKeywords + generalKeywords;
  }

  /** getSimulatedTrendingKeywords: the categories, the picks from the fixed pools, then the Set. */
  method SimulatedTrendingKeywords(description: string, shuffles: seq<seq<string>>) returns (keywords: seq<string>)
    requires ValidShuffles(Pools(Categorize(description)), shuffles)
    ensures keywords == SimulatedKeywords(description, shuffles)
  {
    var relevantCategories := AnalyzeDescription(description);
    var trendingKeywords := CollectPicks(TrendingByCategory, relevantCategories, SeasonalTrends, GeneralTrends, shuffles);
    keywords := Dedupe(trendingKeywords);
  }

  /** Every pick comes from one of the pools. */
  lemma {:induction false} CategoryPicksFromPools(pools: seq<seq<string>>, shuffles: seq<seq<string>>, n: nat)
    requires n <= |pools| && ValidShuffles(pools, shuffles)
    ensures forall x :: x in CategoryPicks(pools, shuffles, n) ==> exists i :: 0 <= i < n && x in pools[i]
  {
    if n > 0 {
      CategoryPicksFromPools(pools, shuffles, n - 1);
      RandomItemsFromArray(pools[n - 1], 3, shuffles[n - 1]);
    }
  }

  lemma AllPicksFromPools(pools: seq<seq<string>>, shuffles: seq<seq<string>>)
    requires |pools| >= 2 && ValidShuffles(pools, shuffles)
    ensures forall x :: x in AllPicks(pools, shuffles) ==> exists i :: 0 <= i < |pools| && x in pools[i]
  {
    var n := |pools| - 2;
    CategoryPicksFromPools(pools, shuffles, n);
    RandomItemsFromArray(pools[n], 2, shuffles[n]);
    RandomItemsFromArray(pools[n + 1], 2, shuffles[n + 1]);
  }

  /** Deduplicated picks from given tables: each from a category's pool or from the two extra lists, at most 3 per category plus 4. */
  lemma PicksFromTables(byCategory: map<string, seq<string>>, categories: seq<string>,
                        seasonal: seq<string>, general: seq<string>, shuffles: seq<seq<string>>)
    requires ValidShuffles(PoolsFrom(byCategory, categories, seasonal, general), shuffles)
    ensures var r := Dedupe(AllPicks(PoolsFrom(byCategory, categories, seasonal, general), shuffles));
      |r| <= 3 * |categories| + 4 &&
      forall x :: x in r ==> (x in seasonal || x in general || exists c :: c in categories && x in PoolIn(byCategory, c))
  {
    var pools := PoolsFrom(byCategory, categories, seasonal, general);
    AllPicksFromPools(pools, shuffles);
    forall x | x in Dedupe(AllPicks(pools, shuffles))
      ensures x in seasonal || x in general || exists c :: c in categories && x in PoolIn(byCategory, c)
    {
      var i :| 0 <= i < |pools| && x in pools[i];
      if i < |categories| {
        assert categories[i] in categories;
      }
    }
  }

  /**
   * The simulated keywords repeat nothing, and each comes from the pool
   * of a category of the description, from SEASONAL_TRENDS or from
   * GENERAL_TRENDS; there are at most 3 per category plus 4.
   */
  lemma SimulatedKeywordsSpec(description: string, shuffles: seq<seq<string>>)
    requires ValidShuffles(Pools(Categorize(description)), shuffles)
    ensures var r := SimulatedKeywords(description, shuffles);
      NoDuplicates(r) && |r| <= 3 * |Categorize(description)| + 4 &&
      forall x :: x in r ==>
        (x in SeasonalTrends || x in GeneralTrends || exists c :: c in Categorize(description) && x in Pool(c))
  {
    PicksFromTables(TrendingByCategory, Categorize(description), SeasonalTrends, GeneralTrends, shuffles);
  }

  /* ---- getGoogleTrendsApi and getRealTrendingKeywords ---- */

  /** The module-level `googleTrendsApi`: once an import succeeds it is kept. */
  class TrendsApiCache {
    var loaded: bool

    constructor()
      ensures !loaded
    {
      loaded := false;
    }

    /**
     * getGoogleTrendsApi: the cached module, else nothing on the server,
     * else the result of the dynamic import, cached when it succeeds.
     */
    method GetApi(isBrowser: bool, importSucceeds: bool) returns (available: bool)
      modifies this
      ensures available <==> old(loaded) || (isBrowser && importSucceeds)
      ensures loaded == available
    {
      if loaded {
        return true;
      }
      if !isBrowser {
        return false;
      }
      if importSucceeds {
        loaded := true;
        return true;
      }
      return false;
    }
  }

  /** `categoryMapping`: Google Trends category ids. */
  const CategoryMapping: map<string, nat> := map[
    "technology" := 5, "electronics" := 5, "fashion" := 185, "food" := 71, "health" := 45,
    "beauty" := 44, "travel" := 67, "sports" := 20, "entertainment" := 3, "business" := 12,
    "education" := 5, "outdoors" := 20, "home" := 11]

  /** `categoryMapping[category.toLowerCase()] || 0` */
  function TrendsCategoryId(category: string): (id: nat)
    ensures Lower(category) !in CategoryMapping ==> id == 0
    ensures Lower(category) in CategoryMapping ==> id == CategoryMapping[Lower(category)]
  {
    var key := Lower(category);
    if key in CategoryMapping && CategoryMapping[key] != 0 then CategoryMapping[key] else 0
  }

  /** Every mapped id is non-zero, so 0 means exactly "not in the mapping". */
  lemma TrendsCategoryIdZeroIffUnknown(category: string)
    ensures TrendsCategoryId(category) == 0 <==> Lower(category) !in CategoryMapping
  {
  }

  /** One related query: its text, and its value when present. */
  datatype RankedItem = RankedItem(query: string, value: Option<real>)

  /** A keyword with its score, as returned to callers. */
  datatype Keyword = Keyword(keyword: string, score: real)

  /**
   * What `relatedQueries` raced against the 5-second timeout comes to:
   * a rejection (API error, timeout, or JSON.parse throwing), a falsy
   * result, or the parsed `default.rankedList` (empty when missing), each
   * list holding its `rankedKeyword` array or None when that is missing.
   */
  datatype QueryOutcome = Rejected | Falsy | Parsed(rankedList: seq<Option<seq<RankedItem>>>)

  /** `item.value || 0` */
  function Score(value: Option<real>): (score: real)
    ensures value.None? ==> score == 0.0
    ensures value.Some? ==> score == value.value
  {
    if value.Some? && value.value != 0.0 then value.value else 0.0
  }

  /** The items the loop of getRealTrendingKeywords visits: `rankedKeyword.slice(0, limit)`. */
  function TopItems(items: seq<RankedItem>, limit: nat): (top: seq<RankedItem>)
    ensures |top| == if limit <= |items| then limit else |items|
    ensures top == items[..|top|]
  {
    if limit <= |items| then items[..limit] else items
  }

  function ToKeywords(items: seq<RankedItem>): (r: seq<Keyword>)
    ensures |r| == |items|
    ensures forall i :: 0 <= i < |items| ==> r[i] == Keyword(items[i].query, Score(items[i].value))
  {
    if |items| == 0 then [] else [Keyword(items[0].query, Score(items[0].value))] + ToKeywords(items[1..])
  }

  /**
   * What getRealTrendingKeywords resolves to: nothing without the API,
   * on a rejection, on a falsy result, when the first ranked list is
   * missing or its keywords are, and when no keyword is found; otherwise
   * the first `limit` queries of the first list, in order, with their
   * scores.
   */
  function RealKeywords(apiAvailable: bool, outcome: QueryOutcome, limit: nat): (r: Option<seq<Keyword>>)
    ensures r.Some? ==> apiAvailable && outcome.Parsed? && |outcome.rankedList| > 0 && outcome.rankedList[0].Some?
    ensures r.Some? ==> 1 <= |r.value| <= limit
    ensures r.Some? ==> r.value == ToKeywords(TopItems(outcome.rankedList[0].value, limit))
    ensures (apiAvailable && outcome.Parsed? && |outcome.rankedList| > 0 && outcome.rankedList[0].Some? &&
      limit > 0 && |outcome.rankedList[0].value| > 0) ==> r.Some?
  {
    if !apiAvailable then None
    else match outcome
      case Rejected => None
      case Falsy => None
      case Parsed(rankedList) =>
        if |rankedList| == 0 then None
        else match rankedList[0]
          case None => None
          case Some(items) =>
            var keywords := ToKeywords(TopItems(items, limit));
            if |keywords| > 0 then Some(keywords) else None
  }

  /** getRealTrendingKeywords: the API from the cache, then the push loop over the top items. */
  method RealTrendingKeywords(cache: TrendsApiCache, isBrowser: bool, importSucceeds: bool,
                              outcome: QueryOutcome, limit: nat)
    returns (r: Option<seq<Keyword>>)
    modifies cache
    ensures cache.loaded <==> old(cache.loaded) || (isBrowser && importSucceeds)
    ensures r == RealKeywords(cache.loaded, outcome, limit)
  {
    var available := cache.GetApi(isBrowser, importSucceeds);
    if !available {
      return None;
    }
    match outcome {
      case Rejected => return None;
      case Falsy => return None;
      case Parsed(rankedList) =>
        var keywords: seq<Keyword> := [];
        if |rankedList| > 0 {
          if rankedList[0].None? {
            return None;
          }
          var top := TopItems(rankedList[0].value, limit);
          var i := 0;
          while i < |top|
            invariant 0 <= i <= |top|
            invariant keywords == ToKeywords(top[..i])
            invariant cache.loaded == available
          {
            var item := top[i];
            keywords := keywords + [Keyword(item.query, Score(item.value))];
            i := i + 1;
            assert top[..i] == top[..i - 1] + [item];
            ToKeywordsAppend(top[..i - 1], item);
          }
          assert top[..i] == top;
        }
        r := if |keywords| > 0 then Some(keywords) else None;
    }
  }

  lemma {:induction false} ToKeywordsAppend(items: seq<RankedItem>, item: RankedItem)
    ensures ToKeywords(items + [item]) == ToKeywords(items) + [Keyword(item.query, Score(item.value))]
  {
    if |items| > 0 {
      assert (items + [item])[1..] == items[1..] + [item];
      ToKeywordsAppend(items[1..], item);
    }
  }

  /* ---- formatting and getTrendingKeywords ---- */

  /** A character matched by the regular expression `\s`. */
  predicate IsWhitespace(c: char) {
    9 <= c as int <= 13 || c == ' ' || c as int == 0xA0 || c as int == 0x1680 ||
    0x2000 <= c as int <= 0x200A || c as int == 0x2028 || c as int == 0x2029 ||
    c as int == 0x202F || c as int == 0x205F || c as int == 0x3000 || c as int == 0xFEFF
  }

  predicate NoWhitespace(s: string) {
    forall i :: 0 <= i < |s| ==> !IsWhitespace(s[i])
  }

  /** The rest of s after its leading whitespace. */
  function SkipWhitespace(s: string): (r: string)
    ensures |r| <= |s| && r == s[|s| - |r|..]
    ensures |r| > 0 ==> !IsWhitespace(r[0])
    ensures (forall i :: 0 <= i < |s| - |r| ==> IsWhitespace(s[i]))
  {
    if |s| > 0 && IsWhitespace(s[0]) then SkipWhitespace(s[1..]) else s
  }

  /** `s.replace(/\s+/g, '-')`: each run of whitespace becomes one hyphen. */
  function Hyphenate(s: string): (r: string)
    ensures NoWhitespace(r)
    ensures NoWhitespace(s) ==> r == s
    decreases |s|
  {
    if |s| == 0 then ""
    else if IsWhitespace(s[0]) then "-" + Hyphenate(SkipWhitespace(s[1..]))
    else [s[0]] + Hyphenate(s[1..])
  }

  /** Every character of the result comes from s, or is a hyphen. */
  lemma {:induction false} HyphenateKeepsCharacters(s: string)
    ensures forall i :: 0 <= i < |Hyphenate(s)| ==> Hyphenate(s)[i] in s || Hyphenate(s)[i] == '-'
    decreases |s|
  {
    if |s| > 0 {
      if IsWhitespace(s[0]) {
        var t := SkipWhitespace(s[1..]);
        HyphenateKeepsCharacters(t);
        forall i | 0 <= i < |Hyphenate(t)| && Hyphenate(t)[i] != '-'
          ensures Hyphenate(t)[i] in s
        {
          assert Hyphenate(t)[i] in t;
          assert t == s[|s| - |t|..];
        }
      } else {
        HyphenateKeepsCharacters(s[1..]);
        forall i | 1 <= i < |Hyphenate(s)| && Hyphenate(s)[i] != '-'
          ensures Hyphenate(s)[i] in s
        {
          assert Hyphenate(s)[i] == Hyphenate(s[1..])[i - 1];
        }
      }
    }
  }

  /** Two words separated by any whitespace run become one hyphenated word. */
  lemma {:induction false} HyphenateJoins(a: string, w: string, b: string)
    requires NoWhitespace(a) && NoWhitespace(b) && |w| > 0
    requires forall i :: 0 <= i < |w| ==> IsWhitespace(w[i])
    ensures Hyphenate(a + w + b) == a + "-" + b
  {
    if |a| == 0 {
      HyphenateRun(w, b);
      assert a + w + b == w + b && a + "-" + b == "-" + b;
    } else {
      HyphenateJoins(a[1..], w, b);
      assert a[1..] + w + b == a[1..] + (w + b) && a[1..] + "-" + b == a[1..] + ("-" + b);
      HyphenateKeepsFirst(a, w + b, "-" + b);
      assert a + w + b == a + (w + b) && a + "-" + b == a + ("-" + b);
    }
  }

  /** The first character of a word is kept in front of what follows it. */
  lemma HyphenateKeepsFirst(a: string, t: string, u: string)
    requires |a| > 0 && !IsWhitespace(a[0])
    requires Hyphenate(a[1..] + t) == a[1..] + u
    ensures Hyphenate(a + t) == a + u
  {
    SplitFirst(a, t);
    SplitFirst(a, u);
    HyphenateKeeps(a[0], a[1..] + t);
  }

  /** Splitting the first element off a concatenation. */
  lemma SplitFirst<T>(a: seq<T>, t: seq<T>)
    requires |a| > 0
    ensures a + t == [a[0]] + (a[1..] + t)
  {
  }

  /** A character other than whitespace is kept as it is. */
  lemma HyphenateKeeps(c: char, t: string)
    requires !IsWhitespace(c)
    ensures Hyphenate([c] + t) == [c] + Hyphenate(t)
  {
    assert ([c] + t)[1..] == t;
  }

  /** A whitespace run before a word becomes one hyphen. */
  lemma HyphenateRun(w: string, b: string)
    requires NoWhitespace(b) && |w| > 0
    requires forall i :: 0 <= i < |w| ==> IsWhitespace(w[i])
    ensures Hyphenate(w + b) == "-" + b
  {
    assert (w + b)[0] == w[0] && (w + b)[1..] == w[1..] + b;
    SkipWhitespaceRun(w[1..], b);
  }

  lemma {:induction false} SkipWhitespaceRun(w: string, b: string)
    requires forall i :: 0 <= i < |w| ==> IsWhitespace(w[i])
    requires |b| == 0 || !IsWhitespace(b[0])
    ensures SkipWhitespace(w + b) == b
  {
    if |w| > 0 {
      assert (w + b)[1..] == w[1..] + b;
      SkipWhitespaceRun(w[1..], b);
    } else {
      assert w + b == b;
    }
  }

  /** The formatting getTrendingKeywords applies: `k.keyword.toLowerCase().replace(/\s+/g, '-')`. */
  function FormatKeyword(keyword: string): (r: string)
    ensures NoWhitespace(r)
    ensures forall i :: 0 <= i < |r| ==> !IsUpper(r[i])
  {
    HyphenateKeepsCharacters(Lower(keyword));
    Hyphenate(Lower(keyword))
  }

  /** Formatting a formatted keyword changes nothing. */
  lemma FormatKeywordIdempotent(keyword: string)
    ensures FormatKeyword(FormatKeyword(keyword)) == FormatKeyword(keyword)
  {
    var f := FormatKeyword(keyword);
    assert Lower(f) == f;
  }

  /** Two lower-case words with whitespace between them come out joined by one hyphen. */
  lemma FormatKeywordJoinsWords(a: string, w: string, b: string)
    requires NoWhitespace(a) && NoWhitespace(b) && |w| > 0
    requires forall i :: 0 <= i < |w| ==> IsWhitespace(w[i])
    requires forall i :: 0 <= i < |a| ==> !IsUpper(a[i])
    requires forall i :: 0 <= i < |b| ==> !IsUpper(b[i])
    ensures FormatKeyword(a + w + b) == a + "-" + b
  {
    assert Lower(a + w + b) == a + w + b by {
      forall i | 0 <= i < |w| ensures LowerChar(w[i]) == w[i] {
        assert !IsUpper(w[i]) by { assert IsWhitespace(w[i]); }
      }
      var s := a + w + b;
      forall i | 0 <= i < |s| ensures Lower(s)[i] == s[i] {
        if i < |a| {
        } else if i < |a| + |w| {
          assert s[i] == w[i - |a|];
        } else {
          assert s[i] == b[i - |a| - |w|];
        }
      }
    }
    HyphenateJoins(a, w, b);
  }

  function FormatAll(keywords: seq<Keyword>): (r: seq<string>)
    ensures |r| == |keywords|
    ensures forall i :: 0 <= i < |r| ==> r[i] == FormatKeyword(keywords[i].keyword)
  {
    if |keywords| == 0 then [] else [FormatKeyword(keywords[0].keyword)] + FormatAll(keywords[1..])
  }

  /**
   * The first non-empty real result among the categories, the cache
   * starting `loaded` and each category's import attempt and API outcome
   * given in order.
   */
  function FirstRealResult(loaded: bool, isBrowser: bool, imports: seq<bool>, outcomes: seq<QueryOutcome>): (r: Option<seq<Keyword>>)
    requires |imports| == |outcomes|
    ensures r.Some? ==> |r.value| > 0
    ensures !loaded && !isBrowser ==> r.None?
    decreases |outcomes|
  {
    if |outcomes| == 0 then None
    else
      var available := loaded || (isBrowser && imports[0]);
      match RealKeywords(available, outcomes[0], 5)
      case Some(keywords) => Some(keywords)
      case None => FirstRealResult(available, isBrowser, imports[1..], outcomes[1..])
  }

  /** What getTrendingKeywords returns: the first real result formatted, or the simulated keywords. */
  function TrendingResult(loaded: bool, isBrowser: bool, imports: seq<bool>, outcomes: seq<QueryOutcome>,
                          simulated: seq<string>): (r: seq<string>)
    requires |imports| == |outcomes|
    ensures FirstRealResult(loaded, isBrowser, imports, outcomes).None? ==> r == simulated
    ensures FirstRealResult(loaded, isBrowser, imports, outcomes).Some? ==>
      |r| > 0 && forall i :: 0 <= i < |r| ==> NoWhitespace(r[i])
  {
    match FirstRealResult(loaded, isBrowser, imports, outcomes)
    case Some(keywords) => FormatAll(keywords)
    case None => simulated
  }

  /**
   * The loop of getTrendingKeywords over the categories: imports[i] and
   * outcomes[i] are the i-th attempt's import and API result; the first
   * non-empty result is returned.
   */
  method FirstRealKeywords(cache: TrendsApiCache, isBrowser: bool, imports: seq<bool>, outcomes: seq<QueryOutcome>)
    returns (r: Option<seq<Keyword>>)
    requires |imports| == |outcomes|
    modifies cache
    ensures r == FirstRealResult(old(cache.loaded), isBrowser, imports, outcomes)
  {
    var i := 0;
    while i < |outcomes|
      invariant 0 <= i <= |outcomes|
      invariant FirstRealResult(old(cache.loaded), isBrowser, imports, outcomes) ==
        FirstRealResult(cache.loaded, isBrowser, imports[i..], outcomes[i..])
    {
      var realKeywords := RealTrendingKeywords(cache, isBrowser, imports[i], outcomes[i], 5);
      assert imports[i..][1..] == imports[i + 1..] && outcomes[i..][1..] == outcomes[i + 1..];
      if realKeywords.Some? && |realKeywords.value| > 0 {
        return realKeywords;
      }
      i := i + 1;
    }
    r := None;
  }

  /**
   * getTrendingKeywords: the categories in order, each tried against the
   * API; the first non-empty result, formatted, wins; otherwise the
   * simulated keywords.
   */
  method TrendingKeywords(cache: TrendsApiCache, description: string, isBrowser: bool,
                          imports: seq<bool>, outcomes: seq<QueryOutcome>, shuffles: seq<seq<string>>)
    returns (keywords: seq<string>)
    requires |imports| == |outcomes| == |Categorize(description)|
    requires ValidShuffles(Pools(Categorize(description)), shuffles)
    modifies cache
    ensures keywords == TrendingResult(old(cache.loaded), isBrowser, imports, outcomes, SimulatedKeywords(description, shuffles))
  {
    var categories := AnalyzeDescription(description);
    var realKeywords := FirstRealKeywords(cache, isBrowser, imports, outcomes);
    if realKeywords.Some? {
      return FormatAll(realKeywords.value);
    }
    keywords := SimulatedTrendingKeywords(description, shuffles);
  }

  /** On the server the API never loads, so the keywords are always the simulated ones. */
  lemma ServerAlwaysSimulates(imports: seq<bool>, outcomes: seq<QueryOutcome>, simulated: seq<string>)
    requires |imports| == |outcomes|
    ensures TrendingResult(false, false, imports, outcomes, simulated) == simulated
  {
  }

  /** A category whose API call yields queries settles the result when every earlier one yielded none. */
  lemma {:induction false} FirstCategoryWithQueriesWins(loaded: bool, isBrowser: bool, imports: seq<bool>,
                                                        outcomes: seq<QueryOutcome>, k: int)
    requires |imports| == |outcomes| && 0 <= k < |outcomes|
    requires forall i :: 0 <= i < k ==> outcomes[i] == Rejected
    requires isBrowser && imports[k]
    requires outcomes[k].Parsed? && |outcomes[k].rankedList| > 0 && outcomes[k].rankedList[0].Some? &&
      |outcomes[k].rankedList[0].value| > 0
    decreases k
    ensures FirstRealResult(loaded, isBrowser, imports, outcomes) ==
      Some(ToKeywords(TopItems(outcomes[k].rankedList[0].value, 5)))
  {
    if k > 0 {
      var available := loaded || (isBrowser && imports[0]);
      FirstCategoryWithQueriesWins(available, isBrowser, imports[1..], outcomes[1..], k - 1);
    }
  }
}
