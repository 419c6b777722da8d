/**
 * Keyword classification of a spending description (`CATEGORY_KEYWORDS` and
 * `classify_category` in apps/services/category_classifier.py).
 *
 * The user's own keyword map, a database read in the source, is a parameter: the
 * pairs (keyword, category) in the map's iteration order.
 */
module CategoryClassifier {
  import opened Prelude
  import opened Text

  const FoodKeywords: seq<string> := [
    "早餐", "午餐", "晚餐", "早午餐", "消夜", "宵夜", "便當", "吃", "餐", "飯", "飲料", "喝",
    "咖啡", "奶茶", "星巴克", "麥當勞", "肯德基", "subway", "burger", "food", "drink", "早點",
    "滷味", "火鍋", "拉麵", "餐廳", "外送", "ubereats", "foodpanda", "炸雞", "鹹酥雞", "早餐店"
  ]

  const TransportKeywords: seq<string> := [
    "捷運", "公車", "交通", "uber", "計程車", "高鐵", "台鐵", "客運", "小黃", "油", "停車", "車票",
    "租車", "機車", "開車", "搭車", "taxi", "train", "bus", "bike", "油錢", "過路費", "加油"
  ]

  const EntertainmentKeywords: seq<string> := [
    "電影", "戲院", "看劇", "netflix", "youtube", "娛樂", "演唱會", "遊戲", "手遊", "ps5", "switch",
    "game", "音樂", "spotify", "追劇", "動漫", "漫畫", "streaming", "直播", "卡拉OK", "唱歌", "表演"
  ]

  const ShoppingKeywords: seq<string> := [
    "買", "購物", "momo", "蝦皮", "shopee", "pchome", "7-11", "全聯", "家樂福", "網購", "百貨", "超商",
    "超市", "衣服", "鞋子", "包包", "飾品", "化妝品", "美妝", "保養", "電器", "家電", "3c", "手機殼",
    "耳機", "鍵盤", "衣物", "購買", "淘寶", "京東", "便利商店", "購"
  ]

  const MedicalKeywords: seq<string> := [
    "醫生", "藥", "藥局", "診所", "醫院", "掛號", "看病", "牙醫", "健保", "自費", "檢查", "打針", "流感",
    "covid", "處方", "生病", "保健", "醫療", "眼科", "皮膚科", "醫藥", "診療", "medical", "hospital"
  ]

  /** `CATEGORY_KEYWORDS`, in the order `classify_category` walks it; "others" has no keyword. */
  const CategoryKeywords: seq<(string, seq<string>)> := [
    ("food", FoodKeywords), ("transport", TransportKeywords), ("entertainment", EntertainmentKeywords),
    ("shopping", ShoppingKeywords), ("medical", MedicalKeywords), ("others", [])
  ]

  /** The categories the built-in table can produce. */
  const BuiltInCategories: seq<string> := ["food", "transport", "entertainment", "shopping", "medical", "others"]

  /** Some keyword among `kws[k..]` occurs in `text`. */
  predicate AnyKeywordFrom(text: string, kws: seq<string>, k: nat)
    decreases |kws| - k
  {
    k < |kws| && (Contains(text, kws[k]) || AnyKeywordFrom(text, kws, k + 1))
  }

  lemma {:induction false} AnyKeywordFromIff(text: string, kws: seq<string>, k: nat)
    ensures AnyKeywordFrom(text, kws, k) <==> exists m :: k <= m < |kws| && Contains(text, kws[m])
    decreases |kws| - k
  {
    if k < |kws| {
      AnyKeywordFromIff(text, kws, k + 1);
    }
  }

  /** The first category at or after `c` one of whose keywords occurs in `text`. */
  function FirstCategoryFrom(text: string, table: seq<(string, seq<string>)>, c: nat): (r: Option<string>)
    ensures r.Some? ==> exists d :: c <= d < |table| && r.value == table[d].0 && AnyKeywordFrom(text, table[d].1, 0)
    decreases |table| - c
  {
    if c >= |table| then None
    else if AnyKeywordFrom(text, table[c].1, 0) then Some(table[c].0)
    else FirstCategoryFrom(text, table, c + 1)
  }

  /** The category of the first user mapping, from `k` on, whose keyword occurs in `text`. */
  function FirstMappingFrom(text: string, mappings: seq<(string, string)>, k: nat): (r: Option<string>)
    ensures r.Some? ==> exists m :: k <= m < |mappings| && r.value == mappings[m].1 && Contains(text, mappings[m].0)
    decreases |mappings| - k
  {
    if k >= |mappings| then None
    else if Contains(text, mappings[k].0) then Some(mappings[k].1)
    else FirstMappingFrom(text, mappings, k + 1)
  }

  /**
   * `classify_category`: lower the text; with a user id, the first of the user's
   * mappings whose keyword occurs wins; otherwise the first built-in category with
   * an occurring keyword; "others" when nothing occurs.
   */
  function ClassifyCategory(text: string, userId: string, mappings: seq<(string, string)>): (r: string)
    ensures r in BuiltInCategories
         || (userId != "" && exists m :: 0 <= m < |mappings| && r == mappings[m].1)
  {
    var t := Lower(text);
    var user := if userId != "" then FirstMappingFrom(t, mappings, 0) else None;
    if user.Some? then user.value
    else
      var builtIn := FirstCategoryFrom(t, CategoryKeywords, 0);
      if builtIn.Some? then
        assert builtIn.value in BuiltInCategories by {
          CategoryTableShape();
          var d :| 0 <= d < |CategoryKeywords| && builtIn.value == CategoryKeywords[d].0;
          assert CategoryKeywords[d].0 == BuiltInCategories[d];
        }
        builtIn.value
      else "others"
  }

  // ---------------------------------------------------------------------------
  // first-hit characterisations

  /** Category `c` of the table has a keyword occurring in `text`. */
  predicate CategoryHits(text: string, table: seq<(string, seq<string>)>, c: nat)
    requires c < |table|
  {
    exists kw :: kw in table[c].1 && Contains(text, kw)
  }

  lemma {:induction false} FirstCategoryFromSpec(text: string, table: seq<(string, seq<string>)>, c: nat)
    requires c <= |table|
    ensures FirstCategoryFrom(text, table, c).None? <==> forall d :: c <= d < |table| ==> !CategoryHits(text, table, d)
    ensures forall d :: (c <= d < |table| && CategoryHits(text, table, d)
                         && (forall e :: c <= e < d ==> !CategoryHits(text, table, e))
      ==> FirstCategoryFrom(text, table, c) == Some(table[d].0))
    decreases |table| - c
  {
    if c < |table| {
      AnyKeywordFromIff(text, table[c].1, 0);
      assert AnyKeywordFrom(text, table[c].1, 0) <==> CategoryHits(text, table, c);
      FirstCategoryFromSpec(text, table, c + 1);
    }
  }

  lemma {:induction false} FirstMappingFromSpec(text: string, mappings: seq<(string, string)>, k: nat)
    requires k <= |mappings|
    ensures FirstMappingFrom(text, mappings, k).None? <==>
      forall m :: k <= m < |mappings| ==> !Contains(text, mappings[m].0)
    ensures forall m :: (k <= m < |mappings| && Contains(text, mappings[m].0)
                         && (forall e :: k <= e < m ==> !Contains(text, mappings[e].0))
      ==> FirstMappingFrom(text, mappings, k) == Some(mappings[m].1))
    decreases |mappings| - k
  {
    if k < |mappings| {
      FirstMappingFromSpec(text, mappings, k + 1);
    }
  }

  /**
   * With a user id, the first mapping (in map order) whose keyword occurs in the
   * lowered text decides the category, before any built-in keyword is looked at.
   */
  lemma UserMappingsFirst(text: string, userId: string, mappings: seq<(string, string)>, m: nat)
    requires userId != "" && m < |mappings| && Contains(Lower(text), mappings[m].0)
    requires forall e :: 0 <= e < m ==> !Contains(Lower(text), mappings[e].0)
    ensures ClassifyCategory(text, userId, mappings) == mappings[m].1
  {
    FirstMappingFromSpec(Lower(text), mappings, 0);
  }

  /** Without a user id the mappings are never consulted. */
  lemma EmptyUserIdSkipsMappings(text: string, mappings: seq<(string, string)>)
    ensures ClassifyCategory(text, "", mappings) == ClassifyCategory(text, "", [])
  {
  }

  /** The shape of the built-in table: five keyword lists, then "others" with none. */
  lemma CategoryTableShape()
    ensures |CategoryKeywords| == 6
    ensures forall c :: 0 <= c < 6 ==> CategoryKeywords[c].0 == BuiltInCategories[c]
    ensures CategoryKeywords[0].1 == FoodKeywords && CategoryKeywords[1].1 == TransportKeywords
    ensures CategoryKeywords[2].1 == EntertainmentKeywords && CategoryKeywords[3].1 == ShoppingKeywords
    ensures CategoryKeywords[4].1 == MedicalKeywords && CategoryKeywords[5] == ("others", [])
  {
  }

  /**
   * When no mapping applies, the answer is the first built-in category in table order
   * with a keyword occurring in the lowered text, and "others" when there is none.
   */
  lemma BuiltInFirstHit(text: string, userId: string, mappings: seq<(string, string)>)
    requires userId == "" || forall m :: 0 <= m < |mappings| ==> !Contains(Lower(text), mappings[m].0)
    ensures ClassifyCategory(text, userId, mappings) == FirstCategoryFrom(Lower(text), CategoryKeywords, 0).GetOr("others")
  {
    FirstMappingFromSpec(Lower(text), mappings, 0);
  }

  /** The "others" list is empty, so "others" never wins on a keyword: it is only the fallback. */
  lemma OthersOnlyFallback(text: string)
    ensures FirstCategoryFrom(text, CategoryKeywords, 0) != Some("others")
  {
    CategoryTableShape();
  }

  /** Without an applicable mapping, "others" is the answer exactly when no built-in keyword occurs. */
  lemma OthersIffNoKeyword(text: string, userId: string, mappings: seq<(string, string)>)
    requires userId == "" || forall m :: 0 <= m < |mappings| ==> !Contains(Lower(text), mappings[m].0)
    ensures ClassifyCategory(text, userId, mappings) == "others" <==>
      forall c :: 0 <= c < |CategoryKeywords| ==> !CategoryHits(Lower(text), CategoryKeywords, c)
  {
    BuiltInFirstHit(text, userId, mappings);
    OthersOnlyFallback(Lower(text));
    FirstCategoryFromSpec(Lower(text), CategoryKeywords, 0);
  }

  /** Matching is on the lowered text, so lowering the input first changes nothing. */
  lemma ClassifyIgnoresCase(text: string, userId: string, mappings: seq<(string, string)>)
    ensures ClassifyCategory(Lower(text), userId, mappings) == ClassifyCategory(text, userId, mappings)
  {
    LowerFacts(text);
  }

  /** A keyword holding an ASCII capital never occurs in lowered text. */
  lemma CapitalNeverMatches(text: string, w: string, j: nat)
    requires j < |w| && IsAsciiUpper(w[j])
    ensures !Contains(Lower(text), w)
  {
    LowerFacts(text);
    ContainsIff(Lower(text), w);
    forall i: nat | i + |w| <= |Lower(text)|
      ensures !OccursAt(Lower(text), w, i)
    {
      assert !IsAsciiUpper(Lower(text)[i + j]);
    }
  }

  /** So the built-in keyword "卡拉OK" can never match anything. */
  lemma KaraokeKeywordNeverMatches(text: string)
    ensures !Contains(Lower(text), EntertainmentKeywords[19])
  {
    CapitalNeverMatches(text, EntertainmentKeywords[19], 2);
  }

  // ---------------------------------------------------------------------------
  // examples

  /** "咖啡 uber" holds a food keyword and a transport keyword; food comes first in the table. */
  lemma CoffeeUberIsFood(mappings: seq<(string, string)>)
    ensures ClassifyCategory("咖啡 uber", "", mappings) == "food"
  {
    assert Lower("咖啡 uber") == "咖啡 uber";
    assert Contains("咖啡 uber", FoodKeywords[12]);
    AnyKeywordFromIff("咖啡 uber", FoodKeywords, 0);
  }

  /** "早餐" (breakfast) is the first food keyword. */
  lemma BreakfastIsFood()
    ensures ClassifyCategory("早餐", "", []) == "food"
  {
    assert Lower("早餐") == "早餐";
    assert Contains("早餐", FoodKeywords[0]) by {
      ContainsIff("早餐", FoodKeywords[0]);
      assert OccursAt("早餐", FoodKeywords[0], 0);
    }
  }

  /**
   * No built-in keyword occurs in "卡拉ok", the lowered form of "卡拉OK", one list at a
   * time; "卡拉OK" itself fails on the letters "OK".
   */
  lemma KaraokeMissesFood()
    ensures forall kw :: kw in FoodKeywords ==> !Contains("卡拉ok", kw)
  {
  }

  lemma KaraokeMissesTransport()
    ensures forall kw :: kw in TransportKeywords ==> !Contains("卡拉ok", kw)
  {
  }

  lemma KaraokeMissesEntertainment()
    ensures forall kw :: kw in EntertainmentKeywords ==> !Contains("卡拉ok", kw)
  {
  }

  lemma KaraokeMissesShopping()
    ensures forall kw :: kw in ShoppingKeywords ==> !Contains("卡拉ok", kw)
  {
  }

  lemma KaraokeMissesMedical()
    ensures forall kw :: kw in MedicalKeywords ==> !Contains("卡拉ok", kw)
  {
  }

  /** No category of the built-in table has a keyword occurring in "卡拉ok". */
  lemma KaraokeHitsNothing()
    ensures forall c :: 0 <= c < |CategoryKeywords| ==> !CategoryHits("卡拉ok", CategoryKeywords, c)
  {
    KaraokeMissesFood();
    KaraokeMissesTransport();
    KaraokeMissesEntertainment();
    KaraokeMissesShopping();
    KaraokeMissesMedical();
    CategoryTableShape();
  }

  /** So a text that lowers to "卡拉ok", such as "卡拉OK", falls through every category to "others". */
  lemma KaraokeIsOthers(text: string, mappings: seq<(string, string)>)
    requires Lower(text) == "卡拉ok"
    ensures ClassifyCategory(text, "", mappings) == "others"
  {
    KaraokeHitsNothing();
    OthersIffNoKeyword(text, "", mappings);
  }

  lemma KaraokeUpperIsOthers(mappings: seq<(string, string)>)
    ensures ClassifyCategory("卡拉OK", "", mappings) == "others"
  {
    assert Lower("卡拉OK") == "卡拉ok";
    KaraokeIsOthers("卡拉OK", mappings);
  }
}
