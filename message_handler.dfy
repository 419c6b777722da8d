/**
 * The text-message dispatcher (`handle_message`, `matches_command_prefix` and
 * `get_confirm_template` in apps/handlers/message_handler.py).
 *
 * What the handler reads from the database (the user's language, the last records,
 * the transactions of the chosen period) arrives as parameters, and what it writes
 * comes back as a list of effects next to the replies it sends.
 */
module MessageHandler {
  import opened Prelude
  import opened Text
  import I18n
  import opened Rows
  import CommandUtils
  import CategoryClassifier
  import NlpRouter
  import ChartHandler
  import ReplyService

  // ---------------------------------------------------------------------------
  // matches_command_prefix

  /** What `for p in t(key, lang)` walks: the list itself, or the characters of a plain string. */
  function PrefixesOf(e: I18n.Entry): seq<string>
  {
    match e
    case Strs(ps) => ps
    case Str(s) => seq(|s|, i requires 0 <= i < |s| => [s[i]])
  }

  /** Some prefix among `ps[k..]`, lowered, starts `lowered`. */
  function AnyPrefixFrom(lowered: string, ps: seq<string>, k: nat): (r: bool)
    ensures r <==> exists m :: k <= m < |ps| && StartsWith(lowered, Lower(ps[m]))
    decreases |ps| - k
  {
    if k >= |ps| then false
    else StartsWith(lowered, Lower(ps[k])) || AnyPrefixFrom(lowered, ps, k + 1)
  }

  /** `matches_command_prefix(text, lang, key)`: the lowered text starts with one of the lowered prefixes of `t(key, lang)`. */
  function MatchesCommandPrefix(text: string, lang: Option<string>, key: string): (r: bool)
    ensures r <==> exists p :: p in PrefixesOf(I18n.Translate(key, lang)) && StartsWith(Lower(text), Lower(p))
  {
    var ps := PrefixesOf(I18n.Translate(key, lang));
    var r := AnyPrefixFrom(Lower(text), ps, 0);
    assert r ==> exists p :: p in ps && StartsWith(Lower(text), Lower(p));
    r
  }

  /** Lowering text that has no ASCII capital changes nothing. */
  lemma LowerPlain(s: string)
    requires forall k :: 0 <= k < |s| ==> !IsAsciiUpper(s[k])
    ensures Lower(s) == s
  {
  }

  /** A language the table does not define, or none at all, reads the zh-TW entry of every key. */
  lemma OtherLanguagesReadZh(key: string, lang: Option<string>)
    requires lang != Some(I18n.En)
    ensures I18n.Translate(key, lang) == I18n.Translate(key, Some(I18n.ZhTw))
  {
  }

  /**
   * Except in English, the language command is any text starting with 語言 or 切換語言:
   * a user without a stored language, or with an unknown one, gets the zh-TW prefixes.
   */
  lemma LanguagePrefixZh(text: string, lang: Option<string>)
    requires lang != Some(I18n.En)
    ensures MatchesCommandPrefix(text, lang, "change_language_prefixes")
        <==> StartsWith(Lower(text), "語言") || StartsWith(Lower(text), "切換語言")
  {
    I18n.LanguagePrefixesHoldLists();
    OtherLanguagesReadZh("change_language_prefixes", lang);
    LowerPlain("語言");
    LowerPlain("切換語言");
    assert PrefixesOf(I18n.Translate("change_language_prefixes", lang)) == ["語言", "切換語言"];
  }

  /** In English "lang" already covers "language": any text starting with "lang", in any case, is the language command. */
  lemma LanguagePrefixEn(text: string)
    ensures MatchesCommandPrefix(text, Some(I18n.En), "change_language_prefixes") <==> StartsWith(Lower(text), "lang")
  {
    I18n.LanguagePrefixesHoldLists();
    LowerPlain("language");
    LowerPlain("lang");
    assert PrefixesOf(I18n.Translate("change_language_prefixes", Some(I18n.En))) == ["language", "lang"];
    if StartsWith(Lower(text), "language") {
      assert Lower(text)[..4] == Lower(text)[..8][..4];
    }
  }

  // ---------------------------------------------------------------------------
  // branch selection

  /** The branches of `handle_message`, in the order the `if`/`elif` chain tries them. */
  datatype Branch = Check | Language | Chart | Summary | AddCategory | DeleteCategory | Default

  const ChartKeywords: seq<string> := ["支出圖", "chart", "週支出圖", "月支出圖", "年支出圖"]

  /** Some keyword among `kws[k..]` occurs in `text`, case-sensitively. */
  function AnyKeywordFrom(text: string, kws: seq<string>, k: nat): (r: bool)
    ensures r <==> exists m :: k <= m < |kws| && Contains(text, kws[m])
    decreases |kws| - k
  {
    if k >= |kws| then false
    else Contains(text, kws[k]) || AnyKeywordFrom(text, kws, k + 1)
  }

  /** `any(kw in text for kw in [...])` on the stripped, unlowered text. */
  predicate ChartRequested(text: string)
  {
    AnyKeywordFrom(text, ChartKeywords, 0)
  }

  /** The commands the summary branch accepts. */
  const SummaryCommands: seq<string> := ["summary", "weekly", "monthly", "yearly"]

  /** The branch taken for the stripped text `t` of a user whose stored language is `lang`. */
  function SelectBranch(t: string, lang: Option<string>): (b: Branch)
    ensures b == Check <==> CommandUtils.NormalizeCommand(t) == "check"
    ensures b == Summary ==> CommandUtils.NormalizeCommand(t) in SummaryCommands
  {
    var command := CommandUtils.NormalizeCommand(t);
    if command == "check" then Check
    else if MatchesCommandPrefix(t, lang, "change_language_prefixes") then Language
    else if ChartRequested(t) then Chart
    else if command in SummaryCommands then Summary
    else if MatchesCommandPrefix(t, lang, "add_category_prefixes") then AddCategory
    else if MatchesCommandPrefix(t, lang, "delete_category_prefixes") then DeleteCategory
    else Default
  }

  /** The three longer chart keywords contain "支出圖", so the test is "支出圖 or chart". */
  lemma ChartKeywordsReduce(text: string)
    ensures ChartRequested(text) <==> Contains(text, "支出圖") || Contains(text, "chart")
  {
    forall m | 2 <= m < 5 && Contains(text, ChartKeywords[m])
      ensures Contains(text, "支出圖")
    {
      ContainsIff(text, ChartKeywords[m]);
      var i: nat :| OccursAt(text, ChartKeywords[m], i);
      assert text[i + 1..i + 4] == text[i..i + 4][1..] == "支出圖";
      ContainsIff(text, "支出圖");
      assert OccursAt(text, "支出圖", i + 1);
    }
    assert ChartKeywords[0] == "支出圖" && ChartKeywords[1] == "chart";
  }

  /** `normalize_command` never produces "weekly", so that entry of the summary list is dead. */
  lemma WeeklyNeverProduced(t: string)
    ensures CommandUtils.NormalizeCommand(t) != "weekly"
  {
    CommandUtils.CommandNamesInOrder();
  }

  /**
   * Any text containing 記 is the "record" command, so it never reaches the check or the
   * summary branch: "查看記帳清單" is not a listing.
   */
  lemma JiNeverChecks(t: string, lang: Option<string>)
    requires Contains(t, "記")
    ensures SelectBranch(t, lang) != Check && SelectBranch(t, lang) != Summary
  {
    CommandUtils.AnyJiIsRecord(t);
  }

  /** A summary command without a chart keyword or a language prefix reaches the summary branch. */
  lemma SummarySelected(t: string, lang: Option<string>)
    requires CommandUtils.NormalizeCommand(t) in SummaryCommands
    requires !Contains(t, "支出圖") && !Contains(t, "chart")
    requires !StartsWith(Lower(t), "語言") && !StartsWith(Lower(t), "切換語言") && !StartsWith(Lower(t), "lang")
    ensures SelectBranch(t, lang) == Summary
  {
    ChartKeywordsReduce(t);
    if lang == Some(I18n.En) {
      LanguagePrefixEn(t);
    } else {
      LanguagePrefixZh(t, lang);
    }
  }

  /** "本月總結" is the monthly summary, whatever the user's language. */
  lemma MonthlySummarySelected(t: string, lang: Option<string>)
    requires t == "本月總結"
    ensures SelectBranch(t, lang) == Summary
  {
    CommandUtils.MonthlyExample();
    AbsentFirstChar(t, "支出圖");
    AbsentFirstChar(t, "chart");
    LowerPlain(t);
    SummarySelected(t, lang);
  }

  // ---------------------------------------------------------------------------
  // language change

  /** What the language branch does: set the second token as the language, or explain the format. */
  datatype LanguageChange = SetTo(newLang: string) | FormatError

  /** `parts = text.split()`; the second part, unchecked, when there are at least two. */
  function LanguageSplit(t: string): (r: LanguageChange)
    ensures r.SetTo? <==> |Words(t)| >= 2
    ensures r.SetTo? ==> r.newLang == Words(t)[1] && r.newLang != []
  {
    var parts := Words(t);
    if |parts| >= 2 then SetTo(parts[1]) else FormatError
  }

  /** `Words` of a blank-free word, a blank and another blank-free word. */
  lemma WordsOfPair(a: string, b: string)
    requires a != [] && b != []
    requires forall k :: 0 <= k < |a| ==> !IsSpace(a[k])
    requires forall k :: 0 <= k < |b| ==> !IsSpace(b[k])
    ensures Words(a + " " + b) == [a, b]
  {
    assert a + " " + b == a + (" " + b);
    WordsLead(a, " " + b);
    assert (" " + b)[1..] == b;
    assert b + [] == b;
    WordsLead(b, []);
  }

  /** A blank-free word followed by nothing or by a blank is the first of the words. */
  lemma WordsLead(a: string, rest: string)
    requires a != [] && forall k :: 0 <= k < |a| ==> !IsSpace(a[k])
    requires rest == [] || IsSpace(rest[0])
    ensures Words(a + rest) == [a] + Words(rest)
    ensures rest != [] ==> Words(a + rest) == [a] + Words(rest[1..])
  {
    var s := a + rest;
    TokenPrefix(a, rest);
    assert s[..|a|] == a && s[|a|..] == rest;
  }

  /** The first token of `a + rest`, when `a` is blank-free and `rest` empty or starting with a blank. */
  lemma {:induction false} TokenPrefix(a: string, rest: string)
    requires forall k :: 0 <= k < |a| ==> !IsSpace(a[k])
    requires rest == [] || IsSpace(rest[0])
    ensures TokenLength(a + rest) == |a|
    decreases |a|
  {
    if a != [] {
      assert (a + rest)[1..] == a[1..] + rest;
      TokenPrefix(a[1..], rest);
    }
  }

  /** "語言 xx" switches to "xx", whatever "xx" is: there is no check against the allowed languages. */
  lemma AnyCodeAccepted(v: string)
    requires v != [] && forall k :: 0 <= k < |v| ==> !IsSpace(v[k])
    ensures LanguageSplit("語言 " + v) == SetTo(v)
  {
    assert "語言 " + v == "語言" + " " + v;
    WordsOfPair("語言", v);
  }

  /** The bare prefix, without a code, is a format error. */
  lemma BarePrefixIsFormatError()
    ensures LanguageSplit("語言") == FormatError
  {
    assert Words("語言") == ["語言"] by {
      TokenPrefix("語言", []);
      assert "語言" + [] == "語言";
    }
  }

  // ---------------------------------------------------------------------------
  // chart range

  /** The accepted range words and the summary type each selects. */
  function RangeOf(timeText: string): (r: Option<string>)
    ensures r.Some? <==> timeText in ["週", "week", "月", "month", "年", "year"]
    ensures r.Some? ==> r.value in ["本週", "本月", "今年"]
  {
    if timeText == "週" || timeText == "week" then Some("本週")
    else if timeText == "月" || timeText == "month" then Some("本月")
    else if timeText == "年" || timeText == "year" then Some("今年")
    else None
  }

  /** `text.replace("支出圖", "").replace("chart", "").strip()`, then the range word. */
  function ChartRange(t: string): Option<string>
  {
    RangeOf(Strip(RemoveAll(RemoveAll(t, "支出圖"), "chart")))
  }

  /** The reply when the range is not recognised. */
  const RangeHint: string := "請輸入有效的區間，例如：支出圖 週 / 月 / 年"

  /** The reply when the period holds no expense: the summary type, then a fixed sentence. */
  function NoExpenseInRange(summaryType: string): string
  {
    summaryType + "內沒有支出資料喔！"
  }

  /** "週支出圖" asks for this week's chart, and so does "支出圖 週" once the blank is stripped. */
  lemma WeekChartExamples()
    ensures ChartRange("週支出圖") == Some("本週")
    ensures ChartRange("支出圖 週") == Some("本週")
  {
    assert StartsWith("支出圖", "支出圖");
    assert RemoveAll("週支出圖", "支出圖") == "週";
    assert RemoveAll("週", "chart") == "週";
    StripNoSpace("週");
    assert RemoveAll("支出圖 週", "支出圖") == " 週";
    assert RemoveAll(" 週", "chart") == " 週";
    assert Strip(" 週") == "週";
  }

  /** "chart" followed by a blank and a range word asks for that range: "chart month" is this month. */
  lemma ChartThenWord(w: string)
    requires w != [] && !IsSpace(w[0]) && !IsSpace(w[|w| - 1])
    requires '支' !in w && 'c' !in w
    ensures ChartRange("chart" + " " + w) == RangeOf(w)
  {
    var t := "chart" + " " + w;
    assert t == "chart" + (" " + w);
    RemoveAllAbsent(t, "支出圖");
    RemoveAllLeading("chart", " " + w);
    RemoveAllAbsent(" " + w, "chart");
    assert (" " + w)[1..] == w;
    assert StripStart(" " + w) == StripStart(w) == w;
    NlpRouter.StripTrimmed(w);
  }

  /** The keyword test is case-sensitive: "Chart week" is no chart request at all. */
  lemma CapitalChartIsNoChart()
    ensures !ChartRequested("Chart week")
  {
    ChartKeywordsReduce("Chart week");
    ContainsIff("Chart week", "chart");
    ContainsIff("Chart week", "支出圖");
    forall i: nat ensures !OccursAt("Chart week", "chart", i) {
      if i + 5 <= 10 {
        assert "Chart week"[i..i + 5][0] == "Chart week"[i];
      }
    }
  }

  // ---------------------------------------------------------------------------
  // summary totals

  /** A transaction counts as income when its lowered category is "收入" or "income". */
  predicate IsIncome(r: Transaction)
  {
    Lower(r.category) == "收入" || Lower(r.category) == "income"
  }

  function IncomeSum(rows: seq<Transaction>): int
  {
    if rows == [] then 0
    else IncomeSum(rows[..|rows| - 1]) + (if IsIncome(rows[|rows| - 1]) then rows[|rows| - 1].amount else 0)
  }

  function ExpenseSum(rows: seq<Transaction>): int
  {
    if rows == [] then 0
    else ExpenseSum(rows[..|rows| - 1]) + (if IsIncome(rows[|rows| - 1]) then 0 else rows[|rows| - 1].amount)
  }

  /** The sum of every amount, the reference the two totals split. */
  function TotalAmount(rows: seq<Transaction>): int
  {
    if rows == [] then 0 else TotalAmount(rows[..|rows| - 1]) + rows[|rows| - 1].amount
  }

  /** Every amount goes to exactly one of the two totals. */
  lemma {:induction false} TotalsPartition(rows: seq<Transaction>)
    ensures IncomeSum(rows) + ExpenseSum(rows) == TotalAmount(rows)
  {
    if rows != [] {
      TotalsPartition(rows[..|rows| - 1]);
    }
  }

  /** With no income row, the expense total is everything and the income total zero. */
  lemma {:induction false} NoIncomeAllExpense(rows: seq<Transaction>)
    requires forall i :: 0 <= i < |rows| ==> !IsIncome(rows[i])
    ensures IncomeSum(rows) == 0 && ExpenseSum(rows) == TotalAmount(rows)
  {
    if rows != [] {
      NoIncomeAllExpense(rows[..|rows| - 1]);
    }
  }

  /** The `defaultdict` loop: each amount is added to "income" or "expense"; balance is their difference. */
  method SummaryTotals(rows: seq<Transaction>) returns (income: int, expense: int, balance: int)
    ensures income == IncomeSum(rows) && expense == ExpenseSum(rows)
    ensures balance == income - expense
  {
    income, expense := 0, 0;
    var i := 0;
    while i < |rows|
      invariant 0 <= i <= |rows|
      invariant income == IncomeSum(rows[..i]) && expense == ExpenseSum(rows[..i])
    {
      assert rows[..i + 1][..i] == rows[..i];
      if Lower(rows[i].category) in ["收入", "income"] {
        income := income + rows[i].amount;
      } else {
        expense := expense + rows[i].amount;
      }
      i := i + 1;
    }
    assert rows[..|rows|] == rows;
    balance := income - expense;
  }

  /** The summary type for a summary command. */
  function PeriodOf(command: string): (r: string)
    requires command in SummaryCommands
    ensures r in ["週", "月", "年"]
  {
    if command == "summary" || command == "weekly" then "週"
    else if command == "monthly" then "月"
    else "年"
  }

  // ---------------------------------------------------------------------------
  // the add-category pattern: `({prefixes})\s*(\S+)\s*=\s*(\S+)`, matched at the start, ignoring case

  /** Both languages' add-category prefixes, zh-TW first, as the pattern's alternation lists them. */
  const AddPrefixes: seq<string> := ["新增分類：", "定義分類：", "add category:", "define category:"]

  /** The list is `TEXTS["add_category_prefixes"]["zh-TW"] + TEXTS["add_category_prefixes"]["en"]`. */
  lemma AddPrefixesFromTable()
    ensures AddPrefixes == PrefixesOf(I18n.Translate("add_category_prefixes", Some(I18n.ZhTw)))
                         + PrefixesOf(I18n.Translate("add_category_prefixes", Some(I18n.En)))
  {
    I18n.AddPrefixesHoldLists();
  }

  /** `p` starts `text`, comparing case-insensitively. */
  predicate PrefixIgnoringCase(text: string, p: string)
  {
    |p| <= |text| && Lower(text[..|p|]) == Lower(p)
  }

  /** After the `=` at or after blanks from `i`: blanks, then the non-blank run that is the category. */
  function ValueAfterEq(s: string, i: nat): (r: Option<string>)
    requires i <= |s|
    ensures r.Some? ==> r.value != []
  {
    var j := NlpRouter.SkipBlanks(s, i);
    if j < |s| && s[j] == '=' then
      var k := NlpRouter.SkipBlanks(s, j + 1);
      if k < |s| then Some(s[k..k + TokenLength(s[k..])]) else None
    else None
  }

  /** The greedy `(\S+)` backs off one character at a time, from length `L` down, until `\s*=\s*(\S+)` follows. */
  function KeywordFrom(s: string, q: nat, L: nat): (r: Option<(string, string)>)
    requires 1 <= L && q + L <= |s|
    ensures r.Some? ==> r.value.0 != [] && r.value.1 != []
    decreases L
  {
    match ValueAfterEq(s, q + L)
    case Some(v) => Some((s[q..q + L], v))
    case None => if L == 1 then None else KeywordFrom(s, q, L - 1)
  }

  /** What follows the prefix: blanks, then the keyword and category groups. */
  function GroupsAfterPrefix(s: string): (r: Option<(string, string)>)
    ensures r.Some? ==> r.value.0 != [] && r.value.1 != []
  {
    var q := NlpRouter.SkipBlanks(s, 0);
    var n := TokenLength(s[q..]);
    if n == 0 then None else KeywordFrom(s, q, n)
  }

  /** The alternation tries the prefixes in order until the rest of the pattern matches. */
  function AddMatchFrom(text: string, ps: seq<string>, k: nat): (r: Option<(string, string)>)
    ensures r.Some? ==> r.value.0 != [] && r.value.1 != []
    decreases |ps| - k
  {
    if k >= |ps| then None
    else if PrefixIgnoringCase(text, ps[k]) && GroupsAfterPrefix(text[|ps[k]|..]).Some? then
      GroupsAfterPrefix(text[|ps[k]|..])
    else AddMatchFrom(text, ps, k + 1)
  }

  /** The keyword and category of an add-category message, both lowered. */
  function AddCategoryMatch(t: string): (r: Option<(string, string)>)
    ensures r.Some? ==> r.value.0 != [] && r.value.1 != []
  {
    match AddMatchFrom(t, AddPrefixes, 0)
    case Some((kw, cat)) => Some((Lower(kw), Lower(cat)))
    case None => None
  }

  /** The search for the keyword stops at the longest length that is followed by `=` and a value. */
  lemma {:induction false} KeywordFromLongest(s: string, q: nat, L: nat, M: nat)
    requires 1 <= L <= M && q + M <= |s|
    requires ValueAfterEq(s, q + L).Some?
    requires forall i :: q + L < i <= q + M ==> ValueAfterEq(s, i).None?
    ensures KeywordFrom(s, q, M) == Some((s[q..q + L], ValueAfterEq(s, q + L).value))
    decreases M - L
  {
    if M > L {
      KeywordFromStep(s, q, M);
      KeywordFromLongest(s, q, L, M - 1);
    }
  }

  /** With no `=` and value after length `M`, the keyword backs off to length `M - 1`. */
  lemma KeywordFromStep(s: string, q: nat, M: nat)
    requires 1 < M && q + M <= |s|
    requires ValueAfterEq(s, q + M).None?
    ensures KeywordFrom(s, q, M) == KeywordFrom(s, q, M - 1)
  {
  }

  /** Blanks from `i` up to `j`, then a non-blank or the end: the greedy `\s*` stops at `j`. */
  lemma {:induction false} SkipTo(s: string, i: nat, j: nat)
    requires i <= j <= |s|
    requires forall k :: i <= k < j ==> IsSpace(s[k])
    requires j < |s| ==> !IsSpace(s[j])
    ensures NlpRouter.SkipBlanks(s, i) == j
    decreases j - i
  {
    if i < j {
      SkipTo(s, i + 1, j);
    }
  }

  /** The text after a prefix: some blanks, the keyword, `=`, the category. */
  predicate PlainPair(pad: string, kw: string, cat: string)
  {
    && (forall k :: 0 <= k < |pad| ==> IsSpace(pad[k]))
    && kw != [] && cat != []
    && (forall k :: 0 <= k < |kw| ==> !IsSpace(kw[k]) && kw[k] != '=')
    && (forall k :: 0 <= k < |cat| ==> !IsSpace(cat[k]) && cat[k] != '=')
  }

  /** Where the pieces of `pad + kw + "=" + cat` sit. */
  lemma PlainPairLayout(pad: string, kw: string, cat: string)
    requires PlainPair(pad, kw, cat)
    ensures var s := pad + kw + "=" + cat;
            && |s| == |pad| + |kw| + 1 + |cat|
            && s[|pad|..] == kw + "=" + cat
            && s[|pad|..|pad| + |kw|] == kw
            && s[|pad| + |kw|] == '='
            && s[|pad| + |kw| + 1..] == cat
            && (forall k :: 0 <= k < |pad| ==> IsSpace(s[k]))
            && (forall k :: |pad| <= k < |s| ==> !IsSpace(s[k]))
            && (forall k :: |pad| + |kw| < k < |s| ==> s[k] != '=')
  {
    var s := pad + kw + "=" + cat;
    forall k | |pad| <= k < |s| ensures !IsSpace(s[k]) {
      if k < |pad| + |kw| { assert s[k] == kw[k - |pad|]; }
      else if k > |pad| + |kw| { assert s[k] == cat[k - |pad| - |kw| - 1]; }
    }
    forall k | |pad| + |kw| < k < |s| ensures s[k] != '=' {
      assert s[k] == cat[k - |pad| - |kw| - 1];
    }
  }

  /** After the prefix, "kw=cat" (with blanks before it) gives the keyword and the category. */
  lemma GroupsOfPlainPair(pad: string, kw: string, cat: string)
    requires PlainPair(pad, kw, cat)
    ensures GroupsAfterPrefix(pad + kw + "=" + cat) == Some((kw, cat))
  {
    var s := pad + kw + "=" + cat;
    var q, L, M := |pad|, |kw|, |kw| + 1 + |cat|;
    PadThenToken(pad, kw, cat);
    NoValueBeyond(pad, kw, cat);
    ValueOfPlainPair(pad, kw, cat);
    KeywordSlice(pad, kw, cat);
    GroupsAt(s, q, L, M);
  }

  /** The keyword sits right after the blanks. */
  lemma KeywordSlice(pad: string, kw: string, cat: string)
    ensures var s := pad + kw + "=" + cat;
            |s| == |pad| + |kw| + 1 + |cat| && s[|pad|..|pad| + |kw|] == kw
  {
  }

  /** Blanks up to `q`, a token of length `M`, and the last `=` inside it at `q + L`. */
  lemma GroupsAt(s: string, q: nat, L: nat, M: nat)
    requires q <= |s| && NlpRouter.SkipBlanks(s, 0) == q && TokenLength(s[q..]) == M
    requires 1 <= L <= M && q + M <= |s|
    requires ValueAfterEq(s, q + L).Some?
    requires forall i :: q + L < i <= q + M ==> ValueAfterEq(s, i).None?
    ensures GroupsAfterPrefix(s) == Some((s[q..q + L], ValueAfterEq(s, q + L).value))
  {
    KeywordFromLongest(s, q, L, M);
  }

  /** The blanks are skipped, and the rest is one token. */
  lemma PadThenToken(pad: string, kw: string, cat: string)
    requires PlainPair(pad, kw, cat)
    ensures var s := pad + kw + "=" + cat;
            NlpRouter.SkipBlanks(s, 0) == |pad| && TokenLength(s[|pad|..]) == |kw| + 1 + |cat|
  {
    var s := pad + kw + "=" + cat;
    PlainPairLayout(pad, kw, cat);
    SkipTo(s, 0, |pad|);
    var rest := s[|pad|..];
    assert forall k :: 0 <= k < |rest| ==> !IsSpace(rest[k]) by {
      forall k | 0 <= k < |rest| ensures !IsSpace(rest[k]) { assert rest[k] == s[|pad| + k]; }
    }
    TokenAll(rest);
  }

  lemma ValueOfPlainPair(pad: string, kw: string, cat: string)
    requires PlainPair(pad, kw, cat)
    ensures ValueAfterEq(pad + kw + "=" + cat, |pad| + |kw|) == Some(cat)
  {
    var s := pad + kw + "=" + cat;
    var i := |pad| + |kw|;
    PlainPairLayout(pad, kw, cat);
    SkipTo(s, i, i);
    SkipTo(s, i + 1, i + 1);
    var k := i + 1;
    assert s[k..] == cat;
    TokenAll(cat);
    assert k + |cat| == |s|;
    assert s[k..k + TokenLength(s[k..])] == cat;
  }

  /** Past the `=`, no position is followed by `=`: the keyword cannot grow into the category. */
  lemma NoValueBeyond(pad: string, kw: string, cat: string)
    requires PlainPair(pad, kw, cat)
    ensures forall i :: |pad| + |kw| < i <= |pad| + |kw| + 1 + |cat| ==> ValueAfterEq(pad + kw + "=" + cat, i).None?
  {
    var s := pad + kw + "=" + cat;
    PlainPairLayout(pad, kw, cat);
    forall i | |pad| + |kw| < i <= |s| ensures ValueAfterEq(s, i).None? {
      SkipTo(s, i, i);
    }
  }

  /** A blank-free text is one token. */
  lemma TokenAll(s: string)
    requires forall k :: 0 <= k < |s| ==> !IsSpace(s[k])
    ensures TokenLength(s) == |s|
  {
    TokenPrefix(s, []);
    assert s + [] == s;
  }

  /**
   * "新增分類：kw=cat" yields the lowered keyword and category when neither holds a blank or
   * `=`. A `|` is allowed: `\S+` accepts it.
   */
  lemma AddCategoryZhRoundTrip(t: string, kw: string, cat: string)
    requires PlainPair("", kw, cat)
    requires t == "新增分類：" + kw + "=" + cat
    ensures AddCategoryMatch(t) == Some((Lower(kw), Lower(cat)))
  {
    assert t[..5] == "新增分類：";
    assert t[5..] == "" + kw + "=" + cat;
    GroupsOfPlainPair("", kw, cat);
  }

  /** "add category:" is matched whatever its case, and blanks may follow it. */
  lemma AddCategoryEnRoundTrip(t: string, prefix: string, pad: string, kw: string, cat: string)
    requires Lower(prefix) == "add category:"
    requires PlainPair(pad, kw, cat)
    requires t == prefix + pad + kw + "=" + cat
    ensures AddCategoryMatch(t) == Some((Lower(kw), Lower(cat)))
  {
    LowerFacts(prefix);
    assert |prefix| == 13;
    assert t[..13] == prefix;
    var head := t[..5];
    assert head == prefix[..5];
    LowerFacts(head);
    assert Lower(head)[0] == 'a' by {
      assert Lower(head)[0] == LowerChar(prefix[0]) == Lower(prefix)[0];
    }
    assert Lower("新增分類：")[0] == '新' && Lower("定義分類：")[0] == '定';
    assert !PrefixIgnoringCase(t, AddPrefixes[0]);
    assert !PrefixIgnoringCase(t, AddPrefixes[1]);
    LowerPlain("add category:");
    assert PrefixIgnoringCase(t, AddPrefixes[2]);
    assert t[13..] == pad + kw + "=" + cat;
    GroupsOfPlainPair(pad, kw, cat);
  }

  // ---------------------------------------------------------------------------
  // replies and effects

  /** A postback button: its label and the data it sends back. */
  datatype Action = Action(caption: string, data: string)

  /** The database writes a branch performs. */
  datatype Effect =
    | SetLanguage(code: string)
    | InsertTransaction(category: string, amount: nat, message: string)

  /** The messages a branch replies with. */
  datatype Reply =
    | TextReply(text: string)
    | ButtonsReply(title: string, body: string, actions: seq<Action>, altText: string)
    | ConfirmReply(text: string, yes: Action, no: Action)
    | ChartReply(bars: seq<(string, int)>)
    | SummaryFlex(summaryType: string, income: int, expense: int, balance: int)

  /** What handling one message does: its writes and replies, or the exception that ends it. */
  datatype Outcome = Replied(effects: seq<Effect>, replies: seq<Reply>) | Raised(error: string)

  /** The localized strings the handler looks up with `t(..., lang)`. */
  datatype HandlerTexts = HandlerTexts(
    noRecords: string, recentTitle: string, recentAlt: string, deleteNth: string,
    languageFormatError: string, categoryAddFormatError: string, recordedItem: string)

  function HandlerTextsFor(lang: Option<string>): HandlerTexts
  {
    HandlerTexts(
      I18n.Message("no_records", lang), I18n.Message("recent_records_title", lang),
      I18n.Message("recent_records_alt", lang), I18n.Message("delete_nth", lang),
      I18n.Message("language_change_format_error", lang), I18n.Message("category_add_format_error", lang),
      I18n.Message("recorded_item", lang))
  }

  // ---------------------------------------------------------------------------
  // get_confirm_template

  const SyncNoPayload: string := "SYNC_CATEGORY_NO"
  const SyncYesTag: string := "SYNC_CATEGORY_YES"

  /** The data of the "yes" button: `f"SYNC_CATEGORY_YES|{keyword}|{category}"`. */
  function SyncYesPayload(keyword: string, category: string): string
  {
    SyncYesTag + "|" + keyword + "|" + category
  }

  /** The confirm template: the prompt as text (and alt text), a "yes" and a "no" button. */
  function ConfirmTemplate(text: string, keyword: string, category: string): Reply
  {
    ConfirmReply(text, Action("✅ 是", SyncYesPayload(keyword, category)), Action("❌ 否", SyncNoPayload))
  }

  // ---------------------------------------------------------------------------
  // the check listing

  /** `f'{i+1}. {r["category"]} {r["amount"]}'`, reading the `category_name` the records carry. */
  function CheckLine(i: nat, r: RecentRecord): string
  {
    NatToString(i + 1) + ". " + r.categoryName + " " + IntToString(r.amount)
  }

  /** The delete button of record `i`, numbered from 1. */
  function CheckAction(i: nat, deleteNth: string): Action
  {
    Action(Format(deleteNth, [("n", NatToString(i + 1))]), ReplyService.DeleteData(i + 1))
  }

  /** The listing: one line per record, and delete buttons for the first four only. */
  function CheckListing(records: seq<RecentRecord>, tx: HandlerTexts): Reply
  {
    var lines := seq(|records|, i requires 0 <= i < |records| => CheckLine(i, records[i]));
    var actions := seq(ReplyService.Min(|records|, 4), i requires 0 <= i < ReplyService.Min(|records|, 4) => CheckAction(i, tx.deleteNth));
    ButtonsReply(tx.recentTitle, Join(lines, '\n'), actions, tx.recentAlt)
  }

  /** At most four buttons; button `i` deletes record `i + 1`; every record gets a line. */
  lemma CheckListingShape(records: seq<RecentRecord>, tx: HandlerTexts)
    requires records != []
    requires forall i :: 0 <= i < |records| ==> '\n' !in records[i].categoryName
    ensures var b := CheckListing(records, tx);
            && |b.actions| <= 4 && |b.actions| == ReplyService.Min(|records|, 4)
            && (forall i :: 0 <= i < |b.actions| ==> b.actions[i].data == ReplyService.DeleteData(i + 1))
            && |SplitOn(b.body, '\n')| == |records|
            && forall i :: 0 <= i < |records| ==> StartsWith(SplitOn(b.body, '\n')[i], NatToString(i + 1) + ". ")
  {
    var lines := seq(|records|, i requires 0 <= i < |records| => CheckLine(i, records[i]));
    assert CheckListing(records, tx).body == Join(lines, '\n');
    CheckLinesSplit(records, lines);
  }

  /** The numbered lines, joined with line breaks, split back into themselves. */
  lemma CheckLinesSplit(records: seq<RecentRecord>, lines: seq<string>)
    requires records != []
    requires forall i :: 0 <= i < |records| ==> '\n' !in records[i].categoryName
    requires lines == seq(|records|, i requires 0 <= i < |records| => CheckLine(i, records[i]))
    ensures SplitOn(Join(lines, '\n'), '\n') == lines
    ensures forall i :: 0 <= i < |records| ==> StartsWith(lines[i], NatToString(i + 1) + ". ")
  {
    forall i | 0 <= i < |lines| ensures '\n' !in lines[i] {
      CheckLineHasNoBreak(i, records[i]);
    }
    SplitJoin(lines, '\n');
    forall i | 0 <= i < |records| ensures StartsWith(lines[i], NatToString(i + 1) + ". ") {
      assert lines[i][..|NatToString(i + 1) + ". "|] == NatToString(i + 1) + ". ";
    }
  }

  /** Digits, a sign, blanks and the category name: no line break unless the name holds one. */
  lemma CheckLineHasNoBreak(i: nat, r: RecentRecord)
    requires '\n' !in r.categoryName
    ensures '\n' !in CheckLine(i, r)
  {
    DigitsHaveNoBreak(i + 1);
    IntHasNoBreak(r.amount);
  }

  lemma {:induction false} DigitsHaveNoBreak(n: nat)
    ensures '\n' !in NatToString(n)
    decreases n
  {
    if n >= 10 {
      DigitsHaveNoBreak(n / 10);
    }
  }

  lemma IntHasNoBreak(x: int)
    ensures '\n' !in IntToString(x)
  {
    if x < 0 {
      DigitsHaveNoBreak(-x);
    } else {
      DigitsHaveNoBreak(x);
    }
  }

  // ---------------------------------------------------------------------------
  // the default branch and the whole dispatcher

  /**
   * `re.match(r'^(.+?)\s*(\d+)$', text)` on the already stripped text: the shortest
   * description (without a line break) followed by blanks and digits up to the end.
   */
  function RecordMatch(t: string): (r: Option<(string, nat)>)
    ensures r.Some? ==> r.value.0 != [] && StartsWith(t, r.value.0) && '\n' !in r.value.0
  {
    if t == [] then None else NlpRouter.RecordFrom(t, 1)
  }

  /** The placeholder sent while the AI answer is switched off. */
  const AiPlaceholder: string := "目前為 AI 判斷階段，尚未提供回應功能。"

  /** The reply of the language branch: the confirmation in the new language, then the code. */
  function LanguageChanged(code: string): string
  {
    I18n.Message("language_changed", Some(code)) + " (" + code + ")"
  }

  /** The language branch. */
  function LanguageOutcome(t: string, tx: HandlerTexts): Outcome
  {
    match LanguageSplit(t)
    case SetTo(v) => Replied([SetLanguage(v)], [TextReply(LanguageChanged(v))])
    case FormatError => Replied([], [TextReply(tx.languageFormatError)])
  }

  /**
   * The add-category branch. On a match it first calls `db.delete_user_category`, which the
   * database module does not define, so it raises before any write or reply; without a match
   * it replies with the format error.
   */
  function AddOutcome(t: string, tx: HandlerTexts): (o: Outcome)
    ensures o.Raised? <==> AddCategoryMatch(t).Some?
    ensures o.Replied? ==> o == Replied([], [TextReply(tx.categoryAddFormatError)])
  {
    match AddCategoryMatch(t)
    case Some(_) => Raised("AttributeError: module 'apps.common.database' has no attribute 'delete_user_category'")
    case None => Replied([], [TextReply(tx.categoryAddFormatError)])
  }

  /** A well-formed "新增分類：kw=cat" never reaches a write: the branch raises. */
  lemma AddCategoryZhRaises(t: string, kw: string, cat: string, tx: HandlerTexts)
    requires PlainPair("", kw, cat)
    requires t == "新增分類：" + kw + "=" + cat
    ensures AddOutcome(t, tx).Raised?
  {
    AddCategoryZhRoundTrip(t, kw, cat);
  }

  /**
   * The default branch: a record message is classified on its description alone, without
   * a user id, and stored with the whole text; anything else gets the AI placeholder.
   */
  function DefaultOutcome(t: string, lang: Option<string>, tx: HandlerTexts): Outcome
  {
    match RecordMatch(t)
    case Some((desc, amount)) =>
      var category := CategoryClassifier.ClassifyCategory(desc, "", []);
      Replied([InsertTransaction(category, amount, t)],
              [TextReply(Format(tx.recordedItem, [("category", I18n.Message(category, lang)), ("amount", NatToString(amount))]))])
    case None => Replied([], [TextReply(AiPlaceholder)])
  }

  /** No row of the period is counted towards the chart: `category_sums` stays empty. */
  predicate NothingCounted(periodRows: seq<Transaction>, labels: ChartHandler.ChartLabels)
  {
    forall i :: 0 <= i < |periodRows| ==> !ChartHandler.Counted(periodRows[i], labels)
  }

  /** A chart whose bars are the categories in first-occurrence order, each with its total. */
  predicate ShowsBars(r: Reply, periodRows: seq<Transaction>, labels: ChartHandler.ChartLabels)
  {
    && r.ChartReply?
    && |r.bars| == |ChartHandler.Order(periodRows, labels)|
    && forall k :: 0 <= k < |r.bars| ==>
         r.bars[k].0 == ChartHandler.Order(periodRows, labels)[k]
         && r.bars[k].1 == ChartHandler.SumFor(periodRows, r.bars[k].0, labels)
  }

  /**
   * What the chart branch answers: the range hint when the text names no range; else
   * one reply and no write, which is the "no expense" text exactly when nothing is
   * counted and otherwise the chart of the category totals.
   */
  predicate ChartAnswer(t: string, periodRows: seq<Transaction>, o: Outcome)
  {
    if ChartRange(t).None? then o == Replied([], [TextReply(RangeHint)])
    else
      var labels := ChartHandler.LabelsFor(Some(I18n.ZhTw));
      && o.Replied? && o.effects == [] && |o.replies| == 1
      && (o.replies[0] == TextReply(NoExpenseInRange(ChartRange(t).value)) <==> NothingCounted(periodRows, labels))
      && (!NothingCounted(periodRows, labels) ==> ShowsBars(o.replies[0], periodRows, labels))
  }

  /**
   * The chart branch: the range word, then the bars of the period's expenses, or the
   * "no expense" reply when `generate_expense_chart` raises its `ValueError`.
   */
  method ChartOutcome(t: string, periodRows: seq<Transaction>) returns (o: Outcome)
    ensures ChartAnswer(t, periodRows, o)
  {
    match ChartRange(t)
    case None =>
      o := Replied([], [TextReply(RangeHint)]);
    case Some(st) =>
      // the chart is drawn in the default language of `generate_expense_chart`
      var bars := ChartHandler.ExpenseBars(periodRows, Some(I18n.ZhTw));
      match bars
      case Err(_) =>
        o := Replied([], [TextReply(NoExpenseInRange(st))]);
      case Ok(b) =>
        o := Replied([], [ChartReply(b)]);
  }

  /**
   * What branch `b` of `handle_message` answers for the stripped text `t`: `lang` is the
   * stored language of the sender, `tx` the strings `t(..., lang)` gives, `lastRecords`
   * what `get_last_records` returns and `periodRows` the transactions of the period the
   * chart or summary branch asks for.
   */
  predicate BranchAnswer(b: Branch, t: string, lang: Option<string>, tx: HandlerTexts,
                         lastRecords: seq<RecentRecord>, periodRows: seq<Transaction>, o: Outcome)
  {
    match b
    case Check =>
      o == Replied([], [if lastRecords == [] then TextReply(tx.noRecords) else CheckListing(lastRecords, tx)])
    case Language => o == LanguageOutcome(t, tx)
    case Chart => ChartAnswer(t, periodRows, o)
    case Summary =>
      && CommandUtils.NormalizeCommand(t) in SummaryCommands
      && o == Replied([], [SummaryFlex(PeriodOf(CommandUtils.NormalizeCommand(t)), IncomeSum(periodRows),
                                       ExpenseSum(periodRows), IncomeSum(periodRows) - ExpenseSum(periodRows))])
    case AddCategory => o == AddOutcome(t, tx)
    case DeleteCategory => o.Raised?
    case Default => o == DefaultOutcome(t, lang, tx)
  }

  /** Branch `b` of `handle_message`, run on the stripped text `t`. */
  method Respond(b: Branch, t: string, lang: Option<string>, tx: HandlerTexts, lastRecords: seq<RecentRecord>, periodRows: seq<Transaction>)
    returns (o: Outcome)
    requires b == Summary ==> CommandUtils.NormalizeCommand(t) in SummaryCommands
    ensures BranchAnswer(b, t, lang, tx, lastRecords, periodRows, o)
    ensures o.Raised? <==> b == DeleteCategory || (b == AddCategory && AddCategoryMatch(t).Some?)
  {
    match b
    case Check =>
      if lastRecords == [] {
        o := Replied([], [TextReply(tx.noRecords)]);
      } else {
        o := Replied([], [CheckListing(lastRecords, tx)]);
      }
    case Language =>
      o := LanguageOutcome(t, tx);
    case Chart =>
      o := ChartOutcome(t, periodRows);
    case Summary =>
      var command := CommandUtils.NormalizeCommand(t);
      var income, expense, balance := SummaryTotals(periodRows);
      o := Replied([], [SummaryFlex(PeriodOf(command), income, expense, balance)]);
    case AddCategory =>
      o := AddOutcome(t, tx);
    case DeleteCategory =>
      // `t["delete_category_prefixes"]` subscripts the lookup function itself
      o := Raised("TypeError: 'function' object is not subscriptable");
    case Default =>
      o := DefaultOutcome(t, lang, tx);
  }

  /**
   * `handle_message` for a text message `raw`: strip it, choose the branch, and answer as
   * that branch does with the strings of the sender's language. It raises in the
   * delete-category branch, and in the add-category branch when the pattern matches.
   */
  method HandleMessage(raw: string, lang: Option<string>, lastRecords: seq<RecentRecord>, periodRows: seq<Transaction>)
    returns (o: Outcome)
    ensures BranchAnswer(SelectBranch(Strip(raw), lang), Strip(raw), lang, HandlerTextsFor(lang), lastRecords, periodRows, o)
    ensures o.Raised? <==> SelectBranch(Strip(raw), lang) == DeleteCategory
                           || (SelectBranch(Strip(raw), lang) == AddCategory && AddCategoryMatch(Strip(raw)).Some?)
  {
    var t := Strip(raw);
    o := Respond(SelectBranch(t, lang), t, lang, HandlerTextsFor(lang), lastRecords, periodRows);
  }

  /** "早餐 60" is stored as 60 under "food", classified from "早餐" alone. */
  lemma BreakfastIsStored(lang: Option<string>)
    ensures DefaultOutcome("早餐 60", lang, HandlerTextsFor(lang)).effects == [InsertTransaction("food", 60, "早餐 60")]
  {
    NlpRouter.BreakfastRecord();
    assert Strip("早餐 60") == "早餐 60" by { NlpRouter.StripTrimmed("早餐 60"); }
    CategoryClassifier.BreakfastIsFood();
  }
}
