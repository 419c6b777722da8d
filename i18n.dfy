/**
 * The localized message table and its lookup (`TEXTS` and `t` in apps/common/i18n.py).
 * The table is written in the order of the Python literal, repeated keys included.
 */
module I18n {
  import opened Prelude

  /** A table value: most keys hold one string, the command-prefix keys hold a list. */
  datatype Entry = Str(s: string) | Strs(items: seq<string>)

  /**
   * The per-language dictionary of one key. Every key of the literal defines exactly the
   * two languages zh-TW and en, so the inner dictionary is a pair.
   */
  datatype Localized = Localized(zh: Entry, en: Entry)

  const ZhTw: string := "zh-TW"
  const En: string := "en"

  /**
   * `TEXTS.get(key)`: the dictionary literal as a function of its key, in the literal's
   * order. Three keys are written twice in the literal; a Python dict display keeps the
   * first position and the value written last, and so does this table.
   */
  function Texts(key: string): Option<Localized>
  {
    match key
    case "record" => Some(Localized(Str("記帳"), Str("Record")))
    case "check" => Some(Localized(Str("查帳"), Str("Check")))
    case "week_summary" => Some(Localized(Str("本週總結"), Str("Weekly Summary")))
    case "week_summary_bar" => Some(Localized(Str("本週長條圖"), Str("Weekly Summary bat")))
    case "summary_title" => Some(Localized(Str("{summary_type} 總計"), Str("{summary_type} Summary")))
    case "choose_type" => Some(Localized(Str("請問這筆是支出還是收入？"), Str("Is this an Expense or Income?")))
    case "select_prompt" => Some(Localized(Str("請選擇"), Str("Please choose")))
    case "expense" => Some(Localized(Str("支出"), Str("Expense")))
    case "income" => Some(Localized(Str("收入"), Str("Income")))
    case "balance" => Some(Localized(Str("結餘"), Str("Balance")))
    case "no_records" => Some(Localized(Str("目前沒有任何記帳紀錄。"), Str("No records found.")))
    case "recent_records_title" => Some(Localized(Str("最近記帳紀錄"), Str("Recent Records")))
    case "recent_records_alt" => Some(Localized(Str("查帳紀錄"), Str("Record Summary")))
    case "delete_nth" => Some(Localized(Str("刪除第{n}筆"), Str("Delete #{n}")))
    case "weekly_summary" => Some(Localized(Str("📊 本週總結\n收入：{income} 元\n支出：{expense} 元\n結餘：{balance} 元"), Str("📊 Weekly Summary\nIncome: {income} NTD\nExpense: {expense} NTD\nBalance: {balance} NTD")))
    case "recorded_item" => Some(Localized(Str("已記錄：{category} {amount} 元"), Str("Recorded: {category} {amount} NTD")))
    case "add_category_prefixes" => Some(Localized(Strs(["新增分類：", "定義分類："]), Strs(["add category:", "define category:"])))
    // written twice in the literal; the dictionary keeps the later value
    case "category_added" => Some(Localized(Str("已新增「{keyword}」為 {category} 分類。"), Str("Added \"{keyword}\" as {category} category.")))
    case "category_add_format_error" => Some(Localized(Str("❗格式錯誤，請使用：新增分類：關鍵字=分類"), Str("❗Invalid format. Please use: add category: keyword=category")))
    case "delete_category_prefixes" => Some(Localized(Strs(["刪除分類："]), Strs(["delete category:"])))
    case "delete_short" => Some(Localized(Str("刪除"), Str("Delete")))
    // written twice in the literal; the dictionary keeps the later value
    case "category_deleted" => Some(Localized(Str("已刪除分類：{keyword}"), Str("Category deleted: {keyword}")))
    // written twice in the literal; the dictionary keeps the later value
    case "category_delete_format_error" => Some(Localized(Str("❗格式錯誤，請使用：刪除分類：關鍵字"), Str("❗Format error. Please use: delete category: keyword")))
    case "change_language_prefixes" => Some(Localized(Strs(["語言", "切換語言"]), Strs(["language", "lang"])))
    case "record_line_format" => Some(Localized(Str("{date}｜{category}｜{amount} 元｜原始輸入：{message}"), Str("{date} | {category} | {amount} NTD | Input: {message}")))
    case "no_transaction_data" => Some(Localized(Str("還沒有任何記帳資料喔～"), Str("You don't have any transaction records yet.")))
    case "category_added_under" => Some(Localized(Str("已將分類「{child}」新增到「{parent}」底下"), Str("Category '{child}' has been added under '{parent}'")))
    case "category_root_not_found" => Some(Localized(Str("找不到根分類：{category}"), Str("Root category not found: {category}")))
    case "category_add_failed" => Some(Localized(Str("新增分類失敗，請稍後再試"), Str("Failed to add category. Please try again later")))
    case "category_sync_prompt" => Some(Localized(Str("是否要更新現有交易紀錄中符合「{keyword}」的分類為「{category}」？"), Str("Would you like to update your existing transactions with \"{keyword}\" to the \"{category}\" category?")))
    case "week" => Some(Localized(Str("週"), Str("week")))
    case "month" => Some(Localized(Str("月"), Str("month")))
    case "year" => Some(Localized(Str("年"), Str("year")))
    case "food" => Some(Localized(Str("餐飲"), Str("Food & Drinks")))
    case "investment" => Some(Localized(Str("投資"), Str("Investment")))
    case "transport" => Some(Localized(Str("交通"), Str("Transport")))
    case "entertainment" => Some(Localized(Str("娛樂"), Str("Entertainment")))
    case "shopping" => Some(Localized(Str("購物"), Str("Shopping")))
    case "medical" => Some(Localized(Str("醫療"), Str("Medical")))
    case "others" => Some(Localized(Str("其他"), Str("Others")))
    case "no_records_in_range" => Some(Localized(Str("{summary_type}內沒有紀錄喔！"), Str("No records found for this {summary_type}.")))
    case "weekly_details" => Some(Localized(Str("本週明細"), Str("Weekly Details")))
    case "monthly_details" => Some(Localized(Str("本月明細"), Str("Monthly Details")))
    case "yearly_details" => Some(Localized(Str("本年明細"), Str("Yearly Details")))
    case "expense_chart_title" => Some(Localized(Str("支出分類圖"), Str("Expense Category Chart")))
    case "expense_chart_ylabel" => Some(Localized(Str("金額"), Str("Amount")))
    case "no_expense_data" => Some(Localized(Str("沒有支出資料"), Str("No expense data available")))
    case "chart_range_hint" => Some(Localized(Str("請輸入有效的區間，例如：支出圖 週 / 月 / 年"), Str("Please enter a valid range, e.g., chart week / month / year")))
    case "language_not_supported" => Some(Localized(Str("不支援該語言代碼，請使用 zh-TW 或 en"), Str("Unsupported language code. Please use zh-TW or en")))
    case "language_change_format_error" => Some(Localized(Str("請輸入語言代碼，例如：語言 zh-TW"), Str("Please specify a language code, e.g., language en")))
    case "not_understood" => Some(Localized(Str("我暫時看不懂這句話，可以換個方式說嗎？"), Str("Sorry, I didn’t get that. Could you rephrase?")))
    case "language_changed" => Some(Localized(Str("已切換語言"), Str("Language changed")))
    case "no_expense_in_range" => Some(Localized(Str("{range}內沒有支出資料喔！"), Str("No expenses in {range}.")))
    case "chart_failed" => Some(Localized(Str("圖表生成失敗，請稍後再試"), Str("Chart generation failed. Please try again later.")))
    case "detail_list_title" => Some(Localized(Str("{summary_type} 明細"), Str("{summary_type} Details")))
    case "view_more" => Some(Localized(Str("查看更多"), Str("View More")))
    case "uncategorized" => Some(Localized(Str("未分類"), Str("Uncategorized")))
    case "default_category" => Some(Localized(Str("未分類"), Str("Uncategorized")))
    case _ => None
  }

  /** `TEXTS[key].get(lang)`: the value of a language the key defines, if it defines it. */
  function EntryFor(loc: Localized, lang: Option<string>): Option<Entry>
  {
    if lang == Some(ZhTw) then Some(loc.zh)
    else if lang == Some(En) then Some(loc.en)
    else None
  }

  /**
   * `t(key, lang)`: the entry for `lang`, else the zh-TW entry, else the key itself.
   * `lang` is `None` when the user's preferred language is unknown.
   */
  function Translate(key: string, lang: Option<string>): Entry
  {
    match Texts(key)
    case None => Str(key)
    case Some(loc) => EntryFor(loc, lang).GetOr(loc.zh)
  }

  /** `t(key)`: the language parameter defaults to zh-TW. */
  function TranslateDefault(key: string): Entry
  {
    Translate(key, Some(ZhTw))
  }

  /** A message key's text as a string; only the three prefix keys hold lists instead. */
  function Message(key: string, lang: Option<string>): string
  {
    match Translate(key, lang)
    case Str(s) => s
    case Strs(_) => key
  }

  // ---------------------------------------------------------------------------
  // Properties of the table and of `t`

  /** A known key asked for in zh-TW or en gives exactly that language's value: `t` never falls back to the key. */
  lemma KnownKeyKnownLanguage(key: string, lang: string)
    requires Texts(key).Some? && (lang == ZhTw || lang == En)
    ensures Translate(key, Some(lang)) == if lang == En then Texts(key).value.en else Texts(key).value.zh
  {
  }

  /** A known key asked for in any other language, or for no language at all, gives the zh-TW value. */
  lemma MissingLanguageFallsBack(key: string, lang: Option<string>)
    requires Texts(key).Some?
    requires lang != Some(En)
    ensures Translate(key, lang) == Texts(key).value.zh
  {
  }

  /** An unknown user (no language) sees what the zh-TW default shows, for every key. */
  lemma NoLanguageIsDefault(key: string)
    ensures Translate(key, None) == TranslateDefault(key)
  {
  }

  /** A key missing from the table comes back unchanged, whatever the language. */
  lemma UnknownKeyIsItself(key: string, lang: Option<string>)
    requires Texts(key).None?
    ensures Translate(key, lang) == Str(key)
  {
  }

  /** The error key used by the chat-completion fallback is not in the table, so the reply is the key itself. */
  lemma OpenAiErrorIsUntranslated(lang: Option<string>)
    ensures Translate("openai_error", lang) == Str("openai_error")
  {
  }

  /** On the repeated key "category_added" `t` returns the later literal, not the ✅ text. */
  lemma CategoryAddedKeepsLaterValue()
    ensures Translate("category_added", Some(En)) == Str("Added \"{keyword}\" as {category} category.")
    ensures Translate("category_added", Some(ZhTw)) == Str("已新增「{keyword}」為 {category} 分類。")
  {
  }

  /** On the repeated key "category_deleted" `t` returns the later literal, not the ✅ text. */
  lemma CategoryDeletedKeepsLaterValue()
    ensures Translate("category_deleted", Some(En)) == Str("Category deleted: {keyword}")
    ensures Translate("category_deleted", Some(ZhTw)) == Str("已刪除分類：{keyword}")
  {
  }

  /** The add-category prefix key yields a list of prefixes, not a string. */
  lemma AddPrefixesHoldLists()
    ensures Translate("add_category_prefixes", Some(ZhTw)) == Strs(["新增分類：", "定義分類："])
    ensures Translate("add_category_prefixes", Some(En)) == Strs(["add category:", "define category:"])
  {
  }

  /** The delete-category prefix key yields a list of prefixes, not a string. */
  lemma DeletePrefixesHoldLists()
    ensures Translate("delete_category_prefixes", Some(ZhTw)) == Strs(["刪除分類："])
    ensures Translate("delete_category_prefixes", Some(En)) == Strs(["delete category:"])
  {
  }

  /** The language-change prefix key yields a list of prefixes, not a string. */
  lemma LanguagePrefixesHoldLists()
    ensures Translate("change_language_prefixes", Some(ZhTw)) == Strs(["語言", "切換語言"])
    ensures Translate("change_language_prefixes", Some(En)) == Strs(["language", "lang"])
  {
  }
}
