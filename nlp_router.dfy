/**
 * The decision part of the intent router (apps/services/nlp_router.py):
 * `canonical_root_from_token`, the slots `parse_slots` extracts, and the rule by
 * which `route` picks an intent.
 *
 * Each regular expression of the source is written out as a search over the text
 * that tries the same positions and alternatives in the same order as Python's
 * backtracking matcher. The cosine similarities of the text's embedding to the
 * intent embeddings are a parameter, one real per intent in the intents' order.
 */
module NlpRouter {
  import opened Prelude
  import opened Text
  import I18n

  /** `_THRESHOLD`: below this best similarity the router falls back. */
  const Threshold: real := 0.20

  /** `ROOT_KEYS`, in the order both loops of `canonical_root_from_token` walk them. */
  const RootKeys: seq<string> := ["food", "investment", "transport", "entertainment", "shopping", "medical", "others"]

  /** The keys of `_INTENTS`, in the order `route` compares their similarities. */
  const Intents: seq<string> := ["check", "change_language", "chart", "summary", "add_category_quick", "record", "ai"]

  // ---------------------------------------------------------------------------
  // canonical_root_from_token

  /**
   * `(t(k, lang) or "").strip().lower()`. The three list-valued keys would raise
   * inside the `try`, which skips them; no root key is one of them.
   */
  function LabelOf(k: string, lang: Option<string>): Option<string>
  {
    match I18n.Translate(k, lang)
    case Str(s) => Some(Lower(Strip(s)))
    case Strs(_) => None
  }

  /** The first of `keys[i..]` equal to `tok`: the first loop. */
  function FirstKeyFrom(tok: string, keys: seq<string>, i: nat): (r: Option<string>)
    ensures r.Some? <==> exists j :: i <= j < |keys| && keys[j] == tok
    ensures r.Some? ==> r.value == tok
    decreases |keys| - i
  {
    if i >= |keys| then None
    else if keys[i] == tok then Some(keys[i])
    else FirstKeyFrom(tok, keys, i + 1)
  }

  /** The labels of the root keys in `lang`, in `ROOT_KEYS` order. */
  function Labels(lang: Option<string>): (ls: seq<Option<string>>)
    ensures |ls| == |RootKeys|
  {
    seq(|RootKeys|, i requires 0 <= i < |RootKeys| => LabelOf(RootKeys[i], lang))
  }

  /** The first of `keys[i..]` whose label, `labels` read alongside, is `tok`: the second loop. */
  function FirstLabelFrom(tok: string, keys: seq<string>, labels: seq<Option<string>>, i: nat): (r: Option<string>)
    requires |labels| == |keys|
    ensures r.Some? ==> exists j :: i <= j < |keys| && r.value == keys[j] && labels[j] == Some(tok)
    decreases |keys| - i
  {
    if i >= |keys| then None
    else if labels[i] == Some(tok) then Some(keys[i])
    else FirstLabelFrom(tok, keys, labels, i + 1)
  }

  /**
   * `canonical_root_from_token`: the stripped, lowered token if it is a root key,
   * else the first root key whose label in `lang` it is, else nothing. A `None`
   * token is the empty string here.
   */
  function CanonicalRootFromToken(token: string, lang: Option<string>): (r: Option<string>)
    ensures r.Some? ==> r.value in RootKeys
    ensures Lower(Strip(token)) == [] ==> r.None?
    ensures r.Some? ==> (Lower(Strip(token)) == r.value
                     || exists j :: 0 <= j < |RootKeys| && r.value == RootKeys[j] && Labels(lang)[j] == Some(Lower(Strip(token))))
  {
    var tok := Lower(Strip(token));
    if tok == [] then None
    else if FirstKeyFrom(tok, RootKeys, 0).Some? then FirstKeyFrom(tok, RootKeys, 0)
    else FirstLabelFrom(tok, RootKeys, Labels(lang), 0)
  }

  lemma {:induction false} FirstLabelFromSpec(tok: string, keys: seq<string>, labels: seq<Option<string>>, i: nat, j: nat)
    requires |labels| == |keys|
    requires i <= j < |keys| && labels[j] == Some(tok)
    requires forall e :: i <= e < j ==> labels[e] != Some(tok)
    ensures FirstLabelFrom(tok, keys, labels, i) == Some(keys[j])
    decreases j - i
  {
    if i < j {
      FirstLabelFromSpec(tok, keys, labels, i + 1, j);
    }
  }

  /** A token that strips and lowers to a root key is that key: the key loop runs first. */
  lemma ExactKeyWins(token: string, lang: Option<string>)
    requires Lower(Strip(token)) in RootKeys
    ensures CanonicalRootFromToken(token, lang) == Some(Lower(Strip(token)))
  {
  }

  /**
   * Otherwise a non-blank token gives the first root key, in `ROOT_KEYS` order, whose
   * stripped and lowered label in `lang` equals the stripped and lowered token.
   */
  lemma FirstLabelWins(token: string, lang: Option<string>, j: nat)
    requires Lower(Strip(token)) != [] && Lower(Strip(token)) !in RootKeys
    requires j < |RootKeys| && Labels(lang)[j] == Some(Lower(Strip(token)))
    requires forall e :: 0 <= e < j ==> Labels(lang)[e] != Some(Lower(Strip(token)))
    ensures CanonicalRootFromToken(token, lang) == Some(RootKeys[j])
  {
    FirstLabelFromSpec(Lower(Strip(token)), RootKeys, Labels(lang), 0, j);
  }

  /** A text with no blank at either end is its own strip. */
  lemma StripTrimmed(s: string)
    requires s == [] || (!IsSpace(s[0]) && !IsSpace(s[|s| - 1]))
    ensures Strip(s) == s
  {
    assert StripStart(s) == s;
  }

  /** Only the stripped, lowered token matters: blanks around it and capitals in it change nothing. */
  lemma CanonicalIgnoresCaseAndBlanks(token: string, lang: Option<string>)
    ensures CanonicalRootFromToken(token, lang) == CanonicalRootFromToken(Lower(Strip(token)), lang)
  {
    var u := Strip(token);
    var _ := StripShape(token);
    LowerFacts(u);
    var lu := Lower(u);
    if u != [] {
      assert lu[0] == LowerChar(u[0]) && lu[|lu| - 1] == LowerChar(u[|u| - 1]);
    }
    StripTrimmed(lu);
  }

  lemma RootKeysHaveNoCapitals(k: string)
    requires k in RootKeys
    ensures NoAsciiUpper(k)
  {
  }

  lemma RootKeysHaveNoBlanks(k: string)
    requires k in RootKeys
    ensures forall i :: 0 <= i < |k| ==> !IsSpace(k[i])
  {
  }

  /** A text without blanks or capitals is unchanged by `strip().lower()`. */
  lemma AlreadyNormal(s: string)
    requires NoAsciiUpper(s) && forall i :: 0 <= i < |s| ==> !IsSpace(s[i])
    ensures Lower(Strip(s)) == s
  {
    StripNoSpace(s);
    LowerFacts(s);
  }

  /** The root keys are already stripped and lowered. */
  lemma RootKeysAreNormal(k: string)
    requires k in RootKeys
    ensures Lower(Strip(k)) == k
  {
    RootKeysHaveNoCapitals(k);
    RootKeysHaveNoBlanks(k);
    AlreadyNormal(k);
  }

  /** Each root key is canonical for itself: `canonical_root_from_token` is the identity on them. */
  lemma KeysAreCanonical(k: string, lang: Option<string>)
    requires k in RootKeys
    ensures CanonicalRootFromToken(k, lang) == Some(k)
  {
    RootKeysAreNormal(k);
    ExactKeyWins(k, lang);
  }

  /** The blank token has no root. */
  lemma BlankTokenHasNoRoot(lang: Option<string>)
    ensures CanonicalRootFromToken("", lang).None?
    ensures CanonicalRootFromToken("  ", lang).None?
  {
    StripAllSpace("  ");
  }

  /** A label is the stripped, lowered value `t` gives for the key. */
  lemma LabelFromValue(k: string, lang: Option<string>, v: string)
    requires I18n.Translate(k, lang) == I18n.Str(v)
    requires NoAsciiUpper(v) && forall i :: 0 <= i < |v| ==> !IsSpace(v[i])
    ensures LabelOf(k, lang) == Some(v)
  {
    AlreadyNormal(v);
  }

  lemma FoodValueZh() ensures I18n.Translate("food", Some(I18n.ZhTw)) == I18n.Str("餐飲") {}
  lemma InvestmentValueZh() ensures I18n.Translate("investment", Some(I18n.ZhTw)) == I18n.Str("投資") {}
  lemma TransportValueZh() ensures I18n.Translate("transport", Some(I18n.ZhTw)) == I18n.Str("交通") {}
  lemma EntertainmentValueZh() ensures I18n.Translate("entertainment", Some(I18n.ZhTw)) == I18n.Str("娛樂") {}
  lemma FoodValueEn() ensures I18n.Translate("food", Some(I18n.En)) == I18n.Str("Food & Drinks") {}

  /** In zh-TW the label "娛樂" maps back to "entertainment". */
  lemma EntertainmentLabelZh()
    ensures CanonicalRootFromToken("娛樂", Some(I18n.ZhTw)) == Some("entertainment")
  {
    var lang := Some(I18n.ZhTw);
    FoodValueZh();
    InvestmentValueZh();
    TransportValueZh();
    EntertainmentValueZh();
    LabelFromValue("food", lang, "餐飲");
    LabelFromValue("investment", lang, "投資");
    LabelFromValue("transport", lang, "交通");
    LabelFromValue("entertainment", lang, "娛樂");
    AlreadyNormal("娛樂");
    FirstLabelWins("娛樂", lang, 3);
  }

  /** In en the label "Food & Drinks", whatever its case, maps back to "food". */
  lemma FoodLabelEn()
    ensures CanonicalRootFromToken("Food & Drinks", Some(I18n.En)) == Some("food")
  {
    var lang := Some(I18n.En);
    FoodValueEn();
    assert Strip("Food & Drinks") == "Food & Drinks";
    assert Lower("Food & Drinks") == "food & drinks";
    assert Labels(lang)[0] == LabelOf("food", lang);
    FirstLabelWins("Food & Drinks", lang, 0);
  }

  // ---------------------------------------------------------------------------
  // parse_slots: the range slot

  /** `any(k in low for k in ks)`. */
  predicate AnyIn(low: string, ks: seq<string>)
  {
    exists k :: k in ks && Contains(low, k)
  }

  /** The range slot: week words are looked for first, then month words, then year words, in the lowered text. */
  function RangeSlot(text: string): (r: Option<string>)
    ensures r.None? || r.value in ["week", "month", "year"]
  {
    var low := Lower(text);
    if AnyIn(low, ["週", "week"]) then Some("week")
    else if AnyIn(low, ["月", "month"]) then Some("month")
    else if AnyIn(low, ["年", "year"]) then Some("year")
    else None
  }

  /** Capitals never matter to the range slot. */
  lemma RangeIgnoresCase(text: string)
    ensures RangeSlot(Lower(text)) == RangeSlot(text)
  {
    LowerFacts(text);
  }

  /** `any` over a two-word list: one of the two words occurs. */
  lemma AnyInPair(low: string, a: string, b: string)
    ensures AnyIn(low, [a, b]) <==> Contains(low, a) || Contains(low, b)
  {
    if Contains(low, a) {
      assert a in [a, b];
    } else if Contains(low, b) {
      assert b in [a, b];
    }
  }

  /** Whether the lowered text holds a week word, a month word, a year word. */
  predicate HasWeekWord(low: string) { Contains(low, "週") || Contains(low, "week") }
  predicate HasMonthWord(low: string) { Contains(low, "月") || Contains(low, "month") }
  predicate HasYearWord(low: string) { Contains(low, "年") || Contains(low, "year") }

  /**
   * The range slot in full: week exactly when a week word occurs in the lowered text; month
   * exactly when there is no week word but a month word; year exactly when there is only a
   * year word; nothing exactly when none of the six words occurs.
   */
  lemma RangeSlotSpec(text: string)
    ensures var low := Lower(text);
            && (RangeSlot(text) == Some("week") <==> HasWeekWord(low))
            && (RangeSlot(text) == Some("month") <==> !HasWeekWord(low) && HasMonthWord(low))
            && (RangeSlot(text) == Some("year") <==> !HasWeekWord(low) && !HasMonthWord(low) && HasYearWord(low))
            && (RangeSlot(text).None? <==> !HasWeekWord(low) && !HasMonthWord(low) && !HasYearWord(low))
  {
    var low := Lower(text);
    AnyInPair(low, "週", "week");
    AnyInPair(low, "月", "month");
    AnyInPair(low, "年", "year");
  }

  /** A week word wins over any month or year word in the same text. */
  lemma WeekBeforeMonth(text: string)
    requires HasWeekWord(Lower(text))
    ensures RangeSlot(text) == Some("week")
  {
    RangeSlotSpec(text);
  }

  /** Without a week word, a month word wins over any year word. */
  lemma MonthBeforeYear(text: string)
    requires !HasWeekWord(Lower(text)) && HasMonthWord(Lower(text))
    ensures RangeSlot(text) == Some("month")
  {
    RangeSlotSpec(text);
  }

  /** A text with none of the six words has no range. */
  lemma NoRangeWord(text: string)
    requires !HasWeekWord(Lower(text)) && !HasMonthWord(Lower(text)) && !HasYearWord(Lower(text))
    ensures RangeSlot(text) == None
  {
    RangeSlotSpec(text);
  }

  /** "WEEK" in capitals is lowered before the test, so "本月 WEEK" is a week text. */
  lemma UpperWeekExample()
    ensures RangeSlot("本月 WEEK") == Some("week")
  {
    assert Lower("本月 WEEK") == "本月 week";
    assert Contains("本月 week", "week") by {
      assert OccursAt("本月 week", "week", 3);
      ContainsIff("本月 week", "week");
    }
    WeekBeforeMonth("本月 WEEK");
  }

  // ---------------------------------------------------------------------------
  // parse_slots: the language slot

  /** The regex `\b` at position `q`: a word character on exactly one side of it. */
  predicate Boundary(s: string, q: nat)
    requires q <= |s|
  {
    (q > 0 && IsWordChar(s[q - 1])) != (q < |s| && IsWordChar(s[q]))
  }

  /** Where the greedy `\s*` that starts at `q` stops. */
  function SkipBlanks(s: string, q: nat): (r: nat)
    requires q <= |s|
    ensures q <= r <= |s|
    ensures forall k :: q <= k < r ==> IsSpace(s[k])
    ensures r < |s| ==> !IsSpace(s[r])
    decreases |s| - q
  {
    if q < |s| && IsSpace(s[q]) then SkipBlanks(s, q + 1) else q
  }

  /**
   * `\bkw\b\s*([a-z]{2}...)` tried at position `p`: the two letters after the blanks.
   * The optional `-[A-Z]{2}` can never match text that has been lowered, so the group
   * is exactly two letters.
   */
  function LangAfter(s: string, p: nat, kw: string): (r: Option<string>)
    requires p <= |s|
    ensures r.Some? ==> |r.value| == 2 && IsAsciiLower(r.value[0]) && IsAsciiLower(r.value[1])
  {
    if p + |kw| <= |s| && s[p..p + |kw|] == kw && Boundary(s, p) && Boundary(s, p + |kw|) then
      var q := SkipBlanks(s, p + |kw|);
      if q + 2 <= |s| && IsAsciiLower(s[q]) && IsAsciiLower(s[q + 1]) then Some(s[q..q + 2]) else None
    else None
  }

  /** The alternatives `lang(?:uage)?|語言` at `p`, in the order the matcher tries them. */
  function LangAt(s: string, p: nat): (r: Option<string>)
    requires p <= |s|
    ensures r.Some? ==> |r.value| == 2 && IsAsciiLower(r.value[0]) && IsAsciiLower(r.value[1])
  {
    if LangAfter(s, p, "language").Some? then LangAfter(s, p, "language")
    else if LangAfter(s, p, "lang").Some? then LangAfter(s, p, "lang")
    else LangAfter(s, p, "語言")
  }

  /** How far the leading `.*` can reach: `.` does not match a line break. */
  function LineEnd(s: string): (e: nat)
    ensures e <= |s| && '\n' !in s[..e]
    ensures e < |s| ==> s[e] == '\n'
  {
    if '\n' in s then IndexOfChar(s, '\n') else |s|
  }

  /** The greedy `.*` tries its longest reach first and then gives back one character at a time. */
  function LangSearch(s: string, p: nat): (r: Option<string>)
    requires p <= |s|
    ensures r.Some? ==> |r.value| == 2 && IsAsciiLower(r.value[0]) && IsAsciiLower(r.value[1])
    decreases p
  {
    if LangAt(s, p).Some? then LangAt(s, p)
    else if p == 0 then None
    else LangSearch(s, p - 1)
  }

  /** The search answers with the last position, at or before `p`, where the pattern's tail matches. */
  lemma {:induction false} LangSearchLast(s: string, p: nat, q: nat)
    requires q <= p <= |s|
    requires LangAt(s, q).Some?
    requires forall q' :: q < q' <= p ==> LangAt(s, q').None?
    ensures LangSearch(s, p) == LangAt(s, q)
    decreases p
  {
    if p > q {
      LangSearchLast(s, p - 1, q);
    }
  }

  /** The search answers nothing exactly when the pattern's tail matches at no position up to `p`. */
  lemma {:induction false} LangSearchNone(s: string, p: nat)
    requires p <= |s|
    ensures LangSearch(s, p).None? <==> forall q :: 0 <= q <= p ==> LangAt(s, q).None?
    decreases p
  {
    if p == 0 {
      if LangAt(s, 0).None? {
        forall q | 0 <= q <= 0 ensures LangAt(s, q).None? { assert q == 0; }
      }
    } else if LangAt(s, p).Some? {
      assert LangSearch(s, p) == LangAt(s, p);
    } else {
      assert LangSearch(s, p) == LangSearch(s, p - 1);
      LangSearchNone(s, p - 1);
      if forall q :: 0 <= q <= p - 1 ==> LangAt(s, q).None? {
        forall q | 0 <= q <= p ensures LangAt(s, q).None? {
          if q < p {
            assert 0 <= q <= p - 1;
          }
        }
      }
    }
  }

  /**
   * The language slot: `re.match(r".*\b(lang(?:uage)?|語言)\b\s*([a-z]{2}(?:-[A-Z]{2})?)", low)`
   * on the lowered text, group 2.
   */
  function LangSlot(text: string): (r: Option<string>)
    ensures r.Some? ==> |r.value| == 2 && IsAsciiLower(r.value[0]) && IsAsciiLower(r.value[1])
  {
    var low := Lower(text);
    LangSearch(low, LineEnd(low))
  }

  /** The pattern's tail can only start at an `l` or at `語`. */
  lemma LangAtStarts(s: string, p: nat)
    requires p <= |s|
    ensures LangAt(s, p).Some? ==> p < |s| && (s[p] == 'l' || s[p] == '語')
  {
    if LangAfter(s, p, "language").Some? {
      assert s[p..p + 8][0] == s[p];
    } else if LangAfter(s, p, "lang").Some? {
      assert s[p..p + 4][0] == s[p];
    } else if LangAfter(s, p, "語言").Some? {
      assert s[p..p + 2][0] == s[p];
    }
  }

  /** `語言 xx` sets the language to `xx`, for any two lower-case letters. */
  lemma LangCommandZh(v: string)
    requires |v| == 2 && IsAsciiLower(v[0]) && IsAsciiLower(v[1])
    ensures LangSlot("語言 " + v) == Some(v)
  {
    var s := "語言 " + v;
    assert NoAsciiUpper(s);
    LowerFacts(s);
    assert '\n' !in s;
    assert LineEnd(s) == 5;
    assert s[0..2] == "語言";
    assert SkipBlanks(s, 2) == 3;
    assert s[3..5] == v;
    assert LangAt(s, 0) == Some(v);
    forall q | 0 < q <= 5 ensures LangAt(s, q).None? {
      LangAtStarts(s, q);
    }
    LangSearchLast(s, 5, 0);
  }

  lemma LanguageEnAtStart()
    ensures LangAt("language en", 0) == Some("en")
  {
    var s := "language en";
    assert s[0..8] == "language";
    assert IsWordChar(s[0]) && IsWordChar(s[7]) && !IsWordChar(s[8]);
    assert Boundary(s, 0) && Boundary(s, 8);
    assert SkipBlanks(s, 8) == 9;
    assert s[9..11] == "en";
  }

  lemma LanguageEnNowhereElse()
    ensures forall q :: 0 < q <= 11 ==> LangAt("language en", q).None?
  {
    forall q | 0 < q <= 11 ensures LangAt("language en", q).None? {
      LangAtStarts("language en", q);
    }
  }

  /** `Language EN` sets the language to `en`: the text is lowered before matching. */
  lemma LangCommandEn()
    ensures LangSlot("Language EN") == Some("en")
  {
    var s := "language en";
    assert Lower("Language EN") == s;
    assert LineEnd(s) == 11;
    LanguageEnAtStart();
    LanguageEnNowhereElse();
    LangSearchLast(s, 11, 0);
  }

  /** `語言 zh-TW` sets the language to `zh`: once lowered, the region suffix no longer fits `-[A-Z]{2}`. */
  lemma RegionSuffixDropped()
    ensures LangSlot("語言 zh-TW") == Some("zh")
  {
    assert "語言 zh-TW" == "語言 zh-" + "TW" && "語言 zh-tw" == "語言 zh-" + "tw";
    LowerAppend("語言 zh-", "TW");
    assert NoAsciiUpper("語言 zh-");
    LowerFacts("語言 zh-");
    assert Lower("TW") == "tw";
    LoweredRegionCommand();
  }

  lemma LoweredRegionCommand()
    ensures LangSearch("語言 zh-tw", LineEnd("語言 zh-tw")) == Some("zh")
  {
    var s := "語言 zh-tw";
    assert '\n' !in s;
    assert LineEnd(s) == 8;
    assert s[0..2] == "語言";
    assert Boundary(s, 0) && Boundary(s, 2);
    assert SkipBlanks(s, 2) == 3;
    assert s[3..5] == "zh";
    assert LangAt(s, 0) == Some("zh");
    forall q | 0 < q <= 8 ensures LangAt(s, q).None? {
      LangAtStarts(s, q);
    }
    LangSearchLast(s, 8, 0);
  }

  /** An ideograph right before `語言` leaves no word boundary there, so `切換語言 en` sets no language. */
  lemma NoBoundaryNoLang()
    ensures LangSlot("切換語言 en") == None
  {
    var s := "切換語言 en";
    assert Lower(s) == s;
    assert LineEnd(s) == 7;
    assert !Boundary(s, 2);
    forall q | 0 <= q <= 7 ensures LangAt(s, q).None? {
      LangAtStarts(s, q);
    }
    LangSearchNone(s, 7);
  }

  // ---------------------------------------------------------------------------
  // parse_slots: the record slot

  /** `\s*(\d+)$` from `q`: the greedy blanks, then digits up to the end. */
  predicate AmountAt(s: string, q: nat)
    requires q <= |s|
  {
    SkipBlanks(s, q) < |s| && AllDigits(s[SkipBlanks(s, q)..])
  }

  /** The lazy `(.+?)` can stop after `L` characters: none of them is a line break and the amount follows. */
  predicate SplitsAt(s: string, L: nat)
  {
    1 <= L <= |s| && '\n' !in s[..L] && AmountAt(s, L)
  }

  /** The description and amount when the split is after `L` characters. */
  function SplitAt(s: string, L: nat): (string, nat)
    requires SplitsAt(s, L)
  {
    (s[..L], DigitsValue(s[SkipBlanks(s, L)..]))
  }

  /** The lazy group tries one more character at a time, and cannot cross a line break. */
  function RecordFrom(s: string, L: nat): (r: Option<(string, nat)>)
    requires 1 <= L <= |s| && '\n' !in s[..L - 1]
    ensures r.Some? ==> L <= |r.value.0| <= |s| && r.value.0 == s[..|r.value.0|] && '\n' !in r.value.0
    decreases |s| - L
  {
    assert s[..L] == s[..L - 1] + [s[L - 1]];
    if s[L - 1] == '\n' then None
    else if AmountAt(s, L) then Some((s[..L], DigitsValue(s[SkipBlanks(s, L)..])))
    else if L == |s| then None
    else RecordFrom(s, L + 1)
  }

  /** The record slot: `re.match(r"^(.+?)\s*(\d+)$", text.strip())`, as `(rec_desc, rec_amt)`. */
  function RecordSlot(text: string): (r: Option<(string, nat)>)
    ensures r.Some? ==> r.value.0 != [] && '\n' !in r.value.0
  {
    var s := Strip(text);
    if s == [] then None
    else RecordFrom(s, 1)
  }

  /** What the search finds is the first split at or after `i`. */
  lemma {:induction false} RecordSound(s: string, i: nat) returns (L: nat)
    requires 1 <= i <= |s| && '\n' !in s[..i - 1]
    requires RecordFrom(s, i).Some?
    ensures i <= L && SplitsAt(s, L) && RecordFrom(s, i) == Some(SplitAt(s, L))
    ensures forall L' :: i <= L' < L ==> !SplitsAt(s, L')
    decreases |s| - i
  {
    if AmountAt(s, i) {
      L := i;
    } else {
      L := RecordSound(s, i + 1);
    }
  }

  /** When a split exists at or after `i`, the search finds the first one. */
  lemma {:induction false} RecordComplete(s: string, i: nat, L: nat)
    requires 1 <= i <= L && SplitsAt(s, L)
    requires forall L' :: i <= L' < L ==> !SplitsAt(s, L')
    ensures RecordFrom(s, i) == Some(SplitAt(s, L))
    decreases L - i
  {
    assert s[..L][i - 1] == s[i - 1];
    assert s[..i] == s[..L][..i];
    if i < L {
      assert !SplitsAt(s, i);
      RecordComplete(s, i + 1, L);
    }
  }

  /** The slot is filled exactly when the stripped text splits somewhere, and then by the first split. */
  lemma RecordSlotIsFirstSplit(text: string)
    ensures RecordSlot(text).Some? <==> exists L :: SplitsAt(Strip(text), L)
    ensures forall L: nat :: SplitsAt(Strip(text), L) && (forall L' :: 1 <= L' < L ==> !SplitsAt(Strip(text), L'))
                 ==> RecordSlot(text) == Some(SplitAt(Strip(text), L))
  {
    var s := Strip(text);
    if RecordSlot(text).Some? {
      var L := RecordSound(s, 1);
    }
    forall L: nat | SplitsAt(s, L) && (forall L' :: 1 <= L' < L ==> !SplitsAt(s, L'))
      ensures RecordSlot(text) == Some(SplitAt(s, L))
    {
      RecordComplete(s, 1, L);
    }
    if exists L :: SplitsAt(s, L) {
      var L :| SplitsAt(s, L);
      var M := FirstSplit(s, L);
      RecordComplete(s, 1, M);
    }
  }

  /** Some split exists at or before `L` whenever one exists at `L`, and there is a first. */
  lemma {:induction false} FirstSplit(s: string, L: nat) returns (M: nat)
    requires SplitsAt(s, L)
    ensures 1 <= M <= L && SplitsAt(s, M) && forall L' :: 1 <= L' < M ==> !SplitsAt(s, L')
    decreases L
  {
    if exists L' :: 1 <= L' < L && SplitsAt(s, L') {
      var L' :| 1 <= L' < L && SplitsAt(s, L');
      M := FirstSplit(s, L');
    } else {
      M := L;
    }
  }

  /** Blanks in front of the amount: the greedy `\s*` ends at the same place from either side of one. */
  lemma SkipBlanksOver(s: string, q: nat)
    requires q < |s| && IsSpace(s[q])
    ensures SkipBlanks(s, q) == SkipBlanks(s, q + 1)
  {
  }

  /** A split right after a blank can move back over it. */
  lemma SplitBackOverBlank(s: string, L: nat)
    requires 1 < L && SplitsAt(s, L)
    ensures IsSpace(s[L - 1]) ==> SplitsAt(s, L - 1)
  {
    assert s[..L - 1] == s[..L][..L - 1];
  }

  /** The description never ends in a blank: the lazy group would have stopped before it. */
  lemma RecordDescTrimmed(text: string)
    requires RecordSlot(text).Some?
    ensures var d := RecordSlot(text).value.0; !IsSpace(d[0]) && !IsSpace(d[|d| - 1])
  {
    var s := Strip(text);
    var _ := StripShape(text);
    var L := RecordSound(s, 1);
    if L > 1 {
      SplitBackOverBlank(s, L);
    }
  }

  lemma RoundTripStrip(d: string, a: string)
    requires d != [] && !IsSpace(d[0]) && a != [] && AllDigits(a)
    ensures Strip(d + " " + a) == d + " " + a
  {
    var s := d + " " + a;
    assert s[|s| - 1] == a[|a| - 1];
    StripTrimmed(s);
  }

  lemma RoundTripSplit(d: string, n: nat)
    requires d != [] && '\n' !in d
    ensures SplitsAt(d + " " + NatToString(n), |d|)
    ensures SplitAt(d + " " + NatToString(n), |d|) == (d, n)
  {
    NatToStringRoundTrip(n);
    var a := NatToString(n);
    var s := d + " " + a;
    assert SkipBlanks(s, |d| + 1) == |d| + 1;
    assert s[|d| + 1..] == a;
    assert s[..|d|] == d;
  }

  lemma RoundTripNoEarlier(d: string, n: nat)
    requires d != [] && !IsSpace(d[|d| - 1])
    ensures forall L' :: 1 <= L' < |d| ==> !SplitsAt(d + " " + NatToString(n), L')
  {
    var s := d + " " + NatToString(n);
    forall L' | 1 <= L' < |d| ensures !AmountAt(s, L') {
      var w := SkipBlanks(s, L');
      assert !IsSpace(s[|d| - 1]);
      assert w <= |d| - 1;
      assert !IsDigit(s[w..][|d| - w]);
    }
  }

  /** `"<desc> <amount>"` reads back as the description and the amount, for a description without line breaks or outer blanks. */
  lemma RecordRoundTrip(d: string, n: nat)
    requires d != [] && '\n' !in d && !IsSpace(d[0]) && !IsSpace(d[|d| - 1])
    ensures RecordSlot(d + " " + NatToString(n)) == Some((d, n))
  {
    NatToStringRoundTrip(n);
    RoundTripStrip(d, NatToString(n));
    RoundTripSplit(d, n);
    RoundTripNoEarlier(d, n);
    RecordComplete(d + " " + NatToString(n), 1, |d|);
  }

  /** The lazy description stops after one character when the text starts with digits. */
  lemma AllDigitsSplitsAfterOne()
    ensures RecordSlot("12345") == Some(("1", 2345))
  {
    var s := "12345";
    StripTrimmed(s);
    assert SkipBlanks(s, 1) == 1;
    assert s[1..] == "2345" && s[..1] == "1";
    assert SplitsAt(s, 1);
    assert "2345"[..3] == "234" && "234"[..2] == "23" && "23"[..1] == "2" && "2"[..0] == "";
    assert DigitsValue("2345") == 2345;
    RecordComplete(s, 1, 1);
  }

  /** A text without digits holds no record. */
  lemma NoDigitsNoRecord(text: string)
    requires forall k :: 0 <= k < |text| ==> !IsDigit(text[k])
    ensures RecordSlot(text).None?
  {
    var s := Strip(text);
    var a := StripShape(text);
    forall L: nat | 1 <= L <= |s| ensures !AmountAt(s, L) {
      var w := SkipBlanks(s, L);
      if w < |s| {
        assert s[w..][0] == text[a + w];
      }
    }
    RecordSlotIsFirstSplit(text);
  }

  // ---------------------------------------------------------------------------
  // parse_slots: quick-add of a subcategory

  predicate NoBlank(s: string)
  {
    forall k :: 0 <= k < |s| ==> !IsSpace(s[k])
  }

  /** `新增`, "add". */
  const AddWord: string := "新增"

  /** `類別內細分`, "subdivide within category". */
  const ScopeMarker: string := "類別內細分"

  /**
   * `re.match(r"^\s*新增\s+(\S+)\s*$", text)`, group 1: once the outer blanks are gone,
   * the add word, blanks, and one run of non-blanks.
   */
  function QuickDefault(text: string): (r: Option<string>)
    ensures r.Some? ==> r.value != [] && NoBlank(r.value)
  {
    var s := Strip(text);
    if |s| > 2 && s[..2] == AddWord && IsSpace(s[2]) && StripStart(s[2..]) != [] && NoBlank(StripStart(s[2..])) then
      Some(StripStart(s[2..]))
    else None
  }

  /** The lazy `(\S+?)` tries a one-character parent first, then one more at a time. */
  function ScopedFrom(s: string, L: nat): (r: Option<(string, string)>)
    requires 1 <= L <= |s|
    ensures r.Some? ==> r.value.0 != [] && r.value.1 != [] && s == r.value.0 + ScopeMarker + r.value.1
    decreases |s| - L
  {
    if L + |ScopeMarker| >= |s| then None
    else if s[L..L + |ScopeMarker|] == ScopeMarker then
      assert s == s[..L] + ScopeMarker + s[L + |ScopeMarker|..];
      Some((s[..L], s[L + |ScopeMarker|..]))
    else ScopedFrom(s, L + 1)
  }

  /**
   * `re.match(r"^\s*(\S+?)類別內細分(\S+)\s*$", text)`, groups 1 and 2: the text is one run
   * of non-blanks between blanks, split at the first marker that leaves a parent and a child.
   */
  function QuickScoped(text: string): (r: Option<(string, string)>)
    ensures r.Some? ==> r.value.0 != [] && r.value.1 != [] && Strip(text) == r.value.0 + ScopeMarker + r.value.1
    ensures r.Some? ==> NoBlank(r.value.0) && NoBlank(r.value.1)
  {
    var s := Strip(text);
    if s != [] && NoBlank(s) then
      var r := ScopedFrom(s, 1);
      if r.Some? then
        assert forall k :: 0 <= k < |r.value.0| ==> r.value.0[k] == s[k];
        assert forall k :: 0 <= k < |r.value.1| ==> r.value.1[k] == s[|r.value.0| + |ScopeMarker| + k];
        r
      else r
    else None
  }

  /**
   * The two quick-add slots `(add_parent_key, add_child_name)`: the scoped form, when it
   * matches, overrides the default one and maps the parent through
   * `canonical_root_from_token`, defaulting to "others".
   */
  function QuickAdd(text: string, lang: Option<string>): (r: Option<(string, string)>)
    ensures r.Some? ==> r.value.0 in RootKeys && r.value.1 != [] && NoBlank(r.value.1)
  {
    var scoped := QuickScoped(text);
    if scoped.Some? then
      Some((CanonicalRootFromToken(scoped.value.0, lang).GetOr("others"), scoped.value.1))
    else
      var child := QuickDefault(text);
      if child.Some? then Some(("others", child.value)) else None
  }

  /** The default form needs a blank inside the text and the scoped form forbids one: they never both match. */
  lemma QuickFormsExclusive(text: string)
    ensures QuickDefault(text).Some? ==> QuickScoped(text).None?
  {
    if QuickDefault(text).Some? {
      assert IsSpace(Strip(text)[2]);
    }
  }

  /** `新增 <child>` adds the child under "others". */
  lemma QuickDefaultRoundTrip(x: string, lang: Option<string>)
    requires x != [] && NoBlank(x)
    ensures QuickDefault(AddWord + " " + x) == Some(x)
    ensures QuickAdd(AddWord + " " + x, lang) == Some(("others", x))
  {
    var s := AddWord + " " + x;
    assert s[|s| - 1] == x[|x| - 1];
    StripTrimmed(s);
    assert s[..2] == AddWord;
    assert s[2..] == " " + x;
    assert StripStart(x) == x;
    assert StripStart(s[2..]) == x;
    QuickFormsExclusive(s);
  }

  /** `<parent>類別內細分<child>` splits back into the parent and the child when the parent holds no `類`. */
  lemma ScopedRoundTrip(p: string, c: string)
    requires p != [] && c != [] && NoBlank(p) && NoBlank(c) && '類' !in p
    ensures QuickScoped(p + ScopeMarker + c) == Some((p, c))
  {
    var s := p + ScopeMarker + c;
    assert NoBlank(s) by {
      forall k | 0 <= k < |s| ensures !IsSpace(s[k]) {
        if k < |p| { assert s[k] == p[k]; }
        else if k >= |p| + |ScopeMarker| { assert s[k] == c[k - |p| - |ScopeMarker|]; }
      }
    }
    StripTrimmed(s);
    ScopedFromFirst(s, 1, |p|);
    assert s[..|p|] == p && s[|p| + |ScopeMarker|..] == c;
  }

  /** The scan stops at the first marker position. */
  lemma {:induction false} ScopedFromFirst(s: string, L: nat, M: nat)
    requires 1 <= L <= M && M + |ScopeMarker| < |s| && s[M..M + |ScopeMarker|] == ScopeMarker
    requires forall k :: L <= k < M ==> s[k] != '類'
    ensures ScopedFrom(s, L) == Some((s[..M], s[M + |ScopeMarker|..]))
    decreases M - L
  {
    if L < M {
      assert s[L..L + |ScopeMarker|][0] == s[L];
      ScopedFromFirst(s, L + 1, M);
    }
  }

  /** `<parent>類別內細分<child>` adds the child under the parent's root key, "others" when the parent names none. */
  lemma QuickScopedParent(p: string, c: string, lang: Option<string>)
    requires p != [] && c != [] && NoBlank(p) && NoBlank(c) && '類' !in p
    ensures QuickAdd(p + ScopeMarker + c, lang) == Some((CanonicalRootFromToken(p, lang).GetOr("others"), c))
  {
    ScopedRoundTrip(p, c);
  }

  // ---------------------------------------------------------------------------
  // parse_slots and route

  /**
   * The slots `route` reads and returns: the range, the requested language, the record
   * `(rec_desc, rec_amt)` and the quick-add `(add_parent_key, add_child_name)`.
   */
  datatype Slots = Slots(
    range: Option<string>,
    newLang: Option<string>,
    record: Option<(string, nat)>,
    quickAdd: Option<(string, string)>)

  /** `parse_slots(text, lang)`, without the category slots (see the README). */
  function ParseSlots(text: string, lang: Option<string>): (r: Slots)
    ensures r.range.None? || r.range.value in ["week", "month", "year"]
    ensures r.newLang.Some? ==> |r.newLang.value| == 2
    ensures r.record.Some? ==> r.record.value.0 != [] && '\n' !in r.record.value.0
    ensures r.quickAdd.Some? ==> r.quickAdd.value.0 in RootKeys && r.quickAdd.value.1 != []
  {
    Slots(RangeSlot(text), LangSlot(text), RecordSlot(text), QuickAdd(text, lang))
  }

  /** What `route` answers: the intent, its score and the slots. */
  datatype Routed = Routed(intent: string, score: real, slots: Slots)

  /**
   * The running best of the loop over the intents after `n` of them: it starts at
   * `("unknown", -1.0)` and moves only on a strictly greater similarity.
   */
  function BestUpTo(scores: seq<real>, n: nat): (string, real)
    requires n <= |scores| == |Intents|
  {
    if n == 0 then ("unknown", -1.0)
    else
      var prev := BestUpTo(scores, n - 1);
      if scores[n - 1] > prev.1 then (Intents[n - 1], scores[n - 1]) else prev
  }

  /**
   * The running best is the greatest similarity so far, or -1.0, and belongs to the first
   * intent that reaches it; it is "unknown" only while nothing has beaten -1.0.
   */
  lemma {:induction false} BestUpToSpec(scores: seq<real>, n: nat)
    requires n <= |scores| == |Intents|
    ensures forall j :: 0 <= j < n ==> scores[j] <= BestUpTo(scores, n).1
    ensures BestUpTo(scores, n).1 >= -1.0
    ensures || (BestUpTo(scores, n) == ("unknown", -1.0))
            || (exists k :: 0 <= k < n && BestUpTo(scores, n) == (Intents[k], scores[k]) && scores[k] > -1.0
                             && forall j :: 0 <= j < k ==> scores[j] < scores[k])
  {
    if n > 0 {
      BestUpToSpec(scores, n - 1);
      var prev := BestUpTo(scores, n - 1);
      if scores[n - 1] > prev.1 {
        assert BestUpTo(scores, n) == (Intents[n - 1], scores[n - 1]);
      }
    }
  }

  /** The loop of `route`: compares the similarities in the intents' order and keeps the first strictly greatest. */
  method BestIntent(scores: seq<real>) returns (best: string, sim: real)
    requires |scores| == |Intents|
    ensures (best, sim) == BestUpTo(scores, |Intents|)
  {
    best, sim := "unknown", -1.0;
    var i := 0;
    while i < |Intents|
      invariant 0 <= i <= |Intents|
      invariant (best, sim) == BestUpTo(scores, i)
    {
      if scores[i] > sim {
        best, sim := Intents[i], scores[i];
      }
      i := i + 1;
    }
  }

  /**
   * `route(text, lang)` with the similarities of the text to each intent given in `scores`:
   * a quick-add wins outright with score 1.0; otherwise the best intent, unless its
   * similarity is under the threshold, when a parsable record is recorded and anything
   * else goes to the AI.
   */
  function RouteSpec(text: string, lang: Option<string>, scores: seq<real>): (r: Routed)
    requires |scores| == |Intents|
    ensures r.intent in Intents
  {
    var slots := ParseSlots(text, lang);
    if slots.quickAdd.Some? then Routed("add_category_quick", 1.0, slots)
    else
      var best := BestUpTo(scores, |Intents|);
      BestUpToSpec(scores, |Intents|);
      if best.1 < Threshold then Routed(if slots.record.Some? then "record" else "ai", best.1, slots)
      else Routed(best.0, best.1, slots)
  }

  /**
   * `route`, computed as the source computes it. Its branches are those of RouteSpec; what
   * it adds is the running-best loop over the intents, done by BestIntent.
   */
  method Route(text: string, lang: Option<string>, scores: seq<real>) returns (r: Routed)
    requires |scores| == |Intents|
    ensures r == RouteSpec(text, lang, scores)
  {
    var slots := ParseSlots(text, lang);
    if slots.quickAdd.Some? {
      return Routed("add_category_quick", 1.0, slots);
    }
    var best, sim := BestIntent(scores);
    if sim < Threshold {
      if slots.record.Some? {
        return Routed("record", sim, slots);
      }
      return Routed("ai", sim, slots);
    }
    return Routed(best, sim, slots);
  }

  /** A quick-add form decides the route whatever the similarities are. */
  lemma QuickAddRoutesFirst(text: string, lang: Option<string>, scores: seq<real>)
    requires |scores| == |Intents| && QuickAdd(text, lang).Some?
    ensures RouteSpec(text, lang, scores).intent == "add_category_quick"
    ensures RouteSpec(text, lang, scores).score == 1.0
  {
  }

  /** Otherwise, when every similarity is under the threshold, a record is recorded and anything else goes to the AI. */
  lemma LowSimilarityFallsBack(text: string, lang: Option<string>, scores: seq<real>)
    requires |scores| == |Intents| && QuickAdd(text, lang).None?
    requires forall j :: 0 <= j < |scores| ==> scores[j] < Threshold
    ensures RouteSpec(text, lang, scores).intent == (if RecordSlot(text).Some? then "record" else "ai")
  {
    BestUpToSpec(scores, |Intents|);
  }

  /** Otherwise the first intent with the greatest similarity wins when that similarity reaches the threshold. */
  lemma FirstBestIntentWins(text: string, lang: Option<string>, scores: seq<real>, k: nat)
    requires |scores| == |Intents| && QuickAdd(text, lang).None?
    requires k < |scores| && scores[k] >= Threshold
    requires forall j :: 0 <= j < |scores| ==> scores[j] <= scores[k]
    requires forall j :: 0 <= j < k ==> scores[j] < scores[k]
    ensures RouteSpec(text, lang, scores) == Routed(Intents[k], scores[k], ParseSlots(text, lang))
  {
    BestUpToSpec(scores, |Intents|);
    var best := BestUpTo(scores, |Intents|);
    if best != ("unknown", -1.0) {
      var k' :| 0 <= k' < |Intents| && best == (Intents[k'], scores[k']) && scores[k'] > -1.0
                && forall j :: 0 <= j < k' ==> scores[j] < scores[k'];
      assert k' == k;
    }
  }

  lemma BreakfastRecord()
    ensures RecordSlot("早餐 60") == Some(("早餐", 60))
  {
    assert NatToString(60) == "60";
    assert "早餐" + " " + "60" == "早餐 60";
    RecordRoundTrip("早餐", 60);
  }

  lemma BreakfastIsNoQuickAdd(lang: Option<string>)
    ensures QuickAdd("早餐 60", lang).None?
  {
    StripTrimmed("早餐 60");
    assert IsSpace("早餐 60"[2]);
    assert "早餐 60"[..2] != AddWord;
  }

  /** `早餐 60` with every similarity low is recorded as breakfast, 60. */
  lemma BreakfastIsRecorded(lang: Option<string>, scores: seq<real>)
    requires |scores| == |Intents|
    requires forall j :: 0 <= j < |scores| ==> scores[j] < Threshold
    ensures RouteSpec("早餐 60", lang, scores).intent == "record"
    ensures RouteSpec("早餐 60", lang, scores).slots.record == Some(("早餐", 60))
  {
    BreakfastRecord();
    BreakfastIsNoQuickAdd(lang);
    LowSimilarityFallsBack("早餐 60", lang, scores);
  }
}
