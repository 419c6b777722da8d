# LineBudgetBotAI decision logic in Dafny

This project models the decision logic of LineBudgetBotAI, a LINE chat bot for personal bookkeeping. The model covers:

- the localized message table and its lookup `t`;
- language detection from the script of a message;
- the first-match command normaliser;
- the keyword classifier that puts a spending description into a category;
- the slot extraction and intent choice of the router;
- the dispatch of a text message to its branch (check, language, chart, summary, add category, delete category, record or AI);
- the parsing of postback payloads;
- the paging and row rules of the reply builders;
- the per-category totals behind the expense chart and the naming rule of its uploaded files.

Every decision the bot makes on a message is a value here. Database reads are parameters: the user's language, the last records, the rows of a period, the user's keyword map and the records matched by a keyword. Database writes are effect values that an outcome lists in order. Replies are plain datatypes, not LINE SDK objects. The similarity of a message to each intent is also a parameter, one real per intent.

Python strings are `seq<char>`. `strip`, `split`, `lower`, `startswith`, `in`, `str.format` and `int()` are written out in `text.dfy`. Each regular expression the core uses is written out as a search that tries the same positions and alternatives in the same order as Python's backtracking matcher.

Modules:

| file | module | source |
|---|---|---|
| prelude.dfy | Prelude | Option and Result |
| text.dfy | Text | Python string operations |
| rows.dfy | Rows | the database row shapes the handlers read |
| i18n.dfy | I18n | apps/common/i18n.py |
| lang_utils.dfy | LangUtils | apps/common/lang_utils.py |
| command_utils.dfy | CommandUtils | apps/handlers/command_utils.py |
| category_classifier.dfy | CategoryClassifier | apps/services/category_classifier.py |
| nlp_router.dfy | NlpRouter | apps/services/nlp_router.py |
| reply_service.dfy | ReplyService | apps/handlers/reply_service.py |
| chart_handler.dfy | ChartHandler | apps/handlers/chart_handler.py |
| message_handler.dfy | MessageHandler | apps/handlers/message_handler.py |
| postback_handler.dfy | PostbackHandler | apps/handlers/postback_handler.py |

## Model

| member | source | states |
|---|---|---|
| I18n.KnownKeyKnownLanguage | apps/common/i18n.py:249-250 | a key in the table, asked in zh-TW or en, gives that language's value |
| I18n.MissingLanguageFallsBack | apps/common/i18n.py:249-250 | a key in the table, asked in any language other than en (unknown code or no language), gives the zh-TW value |
| I18n.NoLanguageIsDefault | apps/common/i18n.py:249 | calling `t` without a language is the same as asking in zh-TW |
| I18n.UnknownKeyIsItself | apps/common/i18n.py:250 | a key missing from the table comes back as the key itself, in every language |
| I18n.OpenAiErrorIsUntranslated | apps/common/i18n.py:2-247 | "openai_error" is not in the table, so `t` returns the key text |
| I18n.CategoryAddedKeepsLaterValue | apps/common/i18n.py:71-74 | "category_added" is defined twice in the dictionary literal, and the later value (lines 107-110) is the one `t` returns |
| I18n.CategoryDeletedKeepsLaterValue | apps/common/i18n.py:87-90 | "category_deleted" is defined twice, and the later value (lines 111-114) wins |
| I18n.AddPrefixesHoldLists | apps/common/i18n.py:67-70 | the add-category prefixes are a list per language, with both entries in order |
| I18n.DeletePrefixesHoldLists | apps/common/i18n.py:79-82 | the delete-category prefixes are a one-entry list per language |
| I18n.LanguagePrefixesHoldLists | apps/common/i18n.py:95-98 | the language-change prefixes are a list per language, with both entries in order |
| LangUtils.HasCjkIff | apps/common/lang_utils.py:3 | the front-to-back scan finds an ideograph exactly when some character is in U+4E00..U+9FFF |
| LangUtils.DetectLangByText | apps/common/lang_utils.py:1-5 | the answer is zh-TW or en, and it is zh-TW exactly when the text holds a CJK ideograph |
| LangUtils.EmptyIsEnglish | apps/common/lang_utils.py:5 | the empty text is detected as en |
| LangUtils.NoIdeographIsEnglish | apps/common/lang_utils.py:3-5 | a text without ideographs is en, whatever other characters it has |
| LangUtils.DetectConcat | apps/common/lang_utils.py:3 | a concatenation is zh-TW exactly when one of its parts is |
| LangUtils.DetectExamples | apps/common/lang_utils.py:3-5 | a full-width comma is not an ideograph, "coffee 80" is en and "coffee 咖啡" is zh-TW |
| CommandUtils.NormalizeCommand | apps/handlers/command_utils.py:56-64 | the result is "" or one of the command names of the table |
| CommandUtils.CommandNamesInOrder | apps/handlers/command_utils.py:4-52 | the table's commands, in the order they are tried, are record, check, summary, weekly_details, monthly, monthly_details, yearly and yearly_details |
| CommandUtils.ExactMeaning | apps/handlers/command_utils.py:6 | a `^w$` pattern accepts exactly `w` and `w` followed by one line break |
| CommandUtils.AnywhereMeaning | apps/handlers/command_utils.py:9 | a `w.*` pattern accepts exactly the texts containing `w` |
| CommandUtils.ThenMeaning | apps/handlers/command_utils.py:15 | an `h.*t` pattern accepts exactly the texts with `h` followed by one of the tails on the same line |
| CommandUtils.OptionalTail | apps/handlers/command_utils.py:8 | when a tail group is optional, the pattern accepts exactly the texts containing the head |
| CommandUtils.NormalizeFirstMatch | apps/handlers/command_utils.py:56-64 | on the stripped, lowered text, the result is "" exactly when no command's patterns match; otherwise it is the first command in table order with a matching pattern |
| CommandUtils.AnyJiIsRecord | apps/handlers/command_utils.py:8 | any text containing 記 normalises to "record" |
| CommandUtils.QingdanIsCheck | apps/handlers/command_utils.py:18 | a text containing 清單 and no 記 normalises to "check" |
| CommandUtils.NoPatternIsEmpty | apps/handlers/command_utils.py:64 | a text that matches no pattern normalises to "" |
| CommandUtils.WeeklyDetailsExample | apps/handlers/command_utils.py:29 | "本週明細" normalises to "weekly_details" |
| CommandUtils.MonthlyExample | apps/handlers/command_utils.py:34 | "本月總結" normalises to "monthly" |
| CommandUtils.YearlyExample | apps/handlers/command_utils.py:43 | "今年總結" normalises to "yearly" |
| CommandUtils.UpperCheckExample | apps/handlers/command_utils.py:57 | " CHECK " is stripped and lowered before matching, so it normalises to "check" |
| CategoryClassifier.ClassifyCategory | apps/services/category_classifier.py:36-50 | the result is one of the built-in categories or, with a non-empty user id, a category from the user's map |
| CategoryClassifier.FirstCategoryFromSpec | apps/services/category_classifier.py:45-48 | the table search gives nothing exactly when no category has a keyword in the text; otherwise it gives the first category, in table order, with a keyword in the text |
| CategoryClassifier.FirstMappingFromSpec | apps/services/category_classifier.py:41-43 | the user-map search gives the category of the first keyword, in map order, that occurs in the text |
| CategoryClassifier.UserMappingsFirst | apps/services/category_classifier.py:39-43 | with a non-empty user id, the first user keyword in the lowered text decides, before any built-in keyword |
| CategoryClassifier.EmptyUserIdSkipsMappings | apps/services/category_classifier.py:39 | with an empty user id, the user's map is never consulted |
| CategoryClassifier.BuiltInFirstHit | apps/services/category_classifier.py:45-50 | when no user keyword applies, the result is the first table category with a keyword in the lowered text, or "others" |
| CategoryClassifier.OthersOnlyFallback | apps/services/category_classifier.py:31-33 | the table search never answers "others", whose keyword list is empty |
| CategoryClassifier.OthersIffNoKeyword | apps/services/category_classifier.py:45-50 | when no user keyword applies, the result is "others" exactly when no table keyword occurs in the lowered text |
| CategoryClassifier.ClassifyIgnoresCase | apps/services/category_classifier.py:37 | classifying the lowered text gives the same category as classifying the text |
| CategoryClassifier.CoffeeUberIsFood | apps/services/category_classifier.py:45-48 | "咖啡 uber" holds a food keyword and a transport keyword; food comes first in the table, so the result is food |
| CategoryClassifier.BreakfastIsFood | apps/services/category_classifier.py:5 | "早餐" is food |
| CategoryClassifier.KaraokeKeywordNeverMatches | apps/services/category_classifier.py:17 | the keyword "卡拉OK" has capitals, so it never occurs in a lowered text |
| CategoryClassifier.KaraokeUpperIsOthers | apps/services/category_classifier.py:17-37 | "卡拉OK" is classified as "others", not entertainment |
| NlpRouter.CanonicalRootFromToken | apps/services/nlp_router.py:48-64 | the result is a root key or nothing; a blank token gives nothing; a result is either the trimmed, lowered token itself or the first key whose localized label equals it |
| NlpRouter.ExactKeyWins | apps/services/nlp_router.py:55-57 | a token that is a root key after trimming and lowering maps to that key |
| NlpRouter.FirstLabelWins | apps/services/nlp_router.py:58-63 | a token that is no root key maps to the first key, in key order, whose trimmed and lowered label equals it |
| NlpRouter.CanonicalIgnoresCaseAndBlanks | apps/services/nlp_router.py:52 | the answer for a token equals the answer for its trimmed, lowered form |
| NlpRouter.KeysAreCanonical | apps/services/nlp_router.py:55-57 | every root key maps to itself |
| NlpRouter.BlankTokenHasNoRoot | apps/services/nlp_router.py:53-54 | an empty or all-blank token maps to nothing |
| NlpRouter.EntertainmentLabelZh | apps/services/nlp_router.py:58-63 | in zh-TW the label "娛樂" maps back to "entertainment" |
| NlpRouter.FoodLabelEn | apps/services/nlp_router.py:58-63 | in en the label "Food & Drinks" maps back to "food" |
| NlpRouter.RangeSlot | apps/services/nlp_router.py:80-84 | the range slot is week, month, year or nothing |
| NlpRouter.RangeIgnoresCase | apps/services/nlp_router.py:80 | the range slot is read from the lowered text |
| NlpRouter.RangeSlotSpec | apps/services/nlp_router.py:80-84 | for every text: week exactly when the lowered text holds 週 or "week"; month exactly when it holds no week word but 月 or "month"; year exactly when it holds only 年 or "year"; nothing exactly when it holds none of the six |
| NlpRouter.WeekBeforeMonth | apps/services/nlp_router.py:81-82 | every text whose lowered form holds a week word gets the week range, whatever month or year words it also holds |
| NlpRouter.MonthBeforeYear | apps/services/nlp_router.py:82-83 | every text without a week word but with a month word gets the month range, whatever year words it also holds |
| NlpRouter.NoRangeWord | apps/services/nlp_router.py:84 | every text whose lowered form holds none of the six words has no range slot |
| NlpRouter.UpperWeekExample | apps/services/nlp_router.py:80-81 | "本月 WEEK" is lowered before the test and so gets the week range |
| NlpRouter.LangSlot | apps/services/nlp_router.py:87-88 | a language slot is always exactly two lower-case letters |
| NlpRouter.LangSearchLast | apps/services/nlp_router.py:87 | the greedy leading `.*` makes the slot come from the last position on the first line where the keyword-and-code tail matches |
| NlpRouter.LangSearchNone | apps/services/nlp_router.py:87-88 | there is no slot exactly when the tail matches at no position |
| NlpRouter.LangCommandZh | apps/services/nlp_router.py:87-88 | "語言 xx" sets the language slot to xx, for any two lower-case letters |
| NlpRouter.LangCommandEn | apps/services/nlp_router.py:80-88 | "Language EN" is lowered first and sets the slot to "en" |
| NlpRouter.RegionSuffixDropped | apps/services/nlp_router.py:80-88 | "語言 zh-TW" sets the slot to "zh": the region suffix cannot match `-[A-Z]{2}` once the text is lowered |
| NlpRouter.NoBoundaryNoLang | apps/services/nlp_router.py:87 | "切換語言 en" sets no language, since there is no word boundary between 換 and 語 |
| NlpRouter.RecordSlot | apps/services/nlp_router.py:99-101 | a record slot has a non-empty description on one line |
| NlpRouter.RecordSlotIsFirstSplit | apps/services/nlp_router.py:99-101 | the record slot exists exactly when the stripped text splits into a description and trailing digits, and then the description is the shortest such one |
| NlpRouter.RecordRoundTrip | apps/services/nlp_router.py:99-101 | a trimmed one-line description, a space and an amount parse back to that description and amount |
| NlpRouter.AllDigitsSplitsAfterOne | apps/services/nlp_router.py:99-101 | "12345" gives the description "1" and the amount 2345 |
| NlpRouter.NoDigitsNoRecord | apps/services/nlp_router.py:99-101 | a text without digits has no record slot |
| NlpRouter.QuickDefault | apps/services/nlp_router.py:105-110 | the "新增 X" form gives a non-empty child name with no blanks |
| NlpRouter.QuickScoped | apps/services/nlp_router.py:113-116 | the scoped form splits the stripped text into a parent, the marker 類別內細分 and a child, all without blanks |
| NlpRouter.QuickAdd | apps/services/nlp_router.py:103-117 | a quick add always has a root key as parent and a non-empty child |
| NlpRouter.QuickFormsExclusive | apps/services/nlp_router.py:105-117 | no text matches both quick-add forms |
| NlpRouter.QuickDefaultRoundTrip | apps/services/nlp_router.py:105-110 | "新增 X" gives parent "others" and child X, for any X without blanks |
| NlpRouter.ScopedRoundTrip | apps/services/nlp_router.py:113-116 | "P類別內細分C" gives back P and C, when P holds no 類 |
| NlpRouter.QuickScopedParent | apps/services/nlp_router.py:113-117 | the parent of "P類別內細分C" is the canonical root of P, or "others" if P has none |
| NlpRouter.ParseSlots | apps/services/nlp_router.py:78-127 | the slots respect each slot's bounds: a range word, a two-letter code, a one-line record, a root-key parent |
| NlpRouter.BestUpToSpec | apps/services/nlp_router.py:144-148 | the running best bounds every score seen; it is "unknown" at -1.0 or the first intent with the strictly greatest score |
| NlpRouter.BestIntent | apps/services/nlp_router.py:144-148 | the loop over the intents ends with the running best over all of them |
| NlpRouter.RouteSpec | apps/services/nlp_router.py:129-155 | the routed intent is always one of the seven intents, never "unknown" |
| NlpRouter.Route | apps/services/nlp_router.py:129-155 | the routing method computes the routing specification |
| NlpRouter.QuickAddRoutesFirst | apps/services/nlp_router.py:134-141 | a quick add routes to "add_category_quick" with score 1.0, whatever the scores |
| NlpRouter.LowSimilarityFallsBack | apps/services/nlp_router.py:150-153 | when every score is below 0.20, the intent is "record" if there is a record slot and "ai" otherwise |
| NlpRouter.FirstBestIntentWins | apps/services/nlp_router.py:144-155 | when the best score reaches 0.20, the first intent with that score wins, with its score and the slots |
| NlpRouter.BreakfastIsRecorded | apps/services/nlp_router.py:150-152 | with low scores, "早餐 60" routes to "record" with the slot ("早餐", 60) |
| ReplyService.ChunksOf | apps/handlers/reply_service.py:6-8 | None gives no chunks |
| ReplyService.ChunksFlatten | apps/handlers/reply_service.py:6-8 | concatenating the chunks gives back the list |
| ReplyService.ChunksSizes | apps/handlers/reply_service.py:6-8 | every chunk is non-empty and at most `size` long, and all but the last are exactly `size` long |
| ReplyService.ChunksCount | apps/handlers/reply_service.py:7 | there are ceil(len / size) chunks |
| ReplyService.Pages | apps/handlers/reply_service.py:49 | a carousel has at most 10 pages |
| ReplyService.PagesShow | apps/handlers/reply_service.py:49 | the pages hold exactly the first 10 × page_size records, in order, and there are no pages exactly when there are no records |
| ReplyService.DetailRows | apps/handlers/reply_service.py:107-121 | the detail rows are the first max_detail_rows records, each turned into its row |
| ReplyService.GenerateSummaryFlex | apps/handlers/reply_service.py:74-177 | the bubble is the one the summary-bubble rules give |
| ReplyService.SummaryRows | apps/handlers/reply_service.py:108-131 | at most max_detail_rows rows; the no_records line appears exactly when no row does, and then there are no rows |
| ReplyService.SummaryFooter | apps/handlers/reply_service.py:135-153 | the view-more footer appears exactly when postback data is given and there are more records than rows; it carries that data |
| ReplyService.RowLabelsIncome | apps/handlers/reply_service.py:112-118 | a detail row is labelled income exactly when its type is "income", expense otherwise |
| ReplyService.NullItemShowsNone | apps/handlers/reply_service.py:110-118 | a record whose item column is NULL is captioned with "- None" at the end, as the f-string prints it |
| ReplyService.IncomeAndBalanceUnused | apps/handlers/reply_service.py:88-103 | the bubble does not depend on the income and balance arguments: only the expense is shown |
| ReplyService.SummaryTitleNamesType | apps/handlers/reply_service.py:85 | the title is the summary type followed by " 總計" in zh-TW or " Summary" in en |
| ReplyService.GenerateSummaryCarousel | apps/handlers/reply_service.py:10-45 | no records gives one empty bubble; otherwise one bubble per page, titled "type · idx/total", with the summary type as alt text |
| ReplyService.CarouselPageShowsWholePage | apps/handlers/reply_service.py:28-37 | a carousel bubble shows every record of its page, with no footer and no empty note |
| ReplyService.EllipsisWidth | apps/handlers/reply_service.py:181-183 | the result is never longer than n; a text of at most n comes back unchanged; a longer one is cut to exactly n, keeping its first n - 1 characters |
| ReplyService.DisplayNameRule | apps/handlers/reply_service.py:188-190 | a blank category name becomes "uncategorized"; the label is "name - item" exactly when the stripped item is non-empty |
| ReplyService.RecentRows | apps/handlers/reply_service.py:185-211 | at most 10 rows, row k showing record k numbered from 1 |
| ReplyService.FlexRecentRecords | apps/handlers/reply_service.py:179-229 | the bubble has the recent-records title and alt text and at most 10 numbered rows |
| ReplyService.RecentRowNumbering | apps/handlers/reply_service.py:199-208 | row i starts with "i. ", its amount text is at most 10 long and its name part at most 18 |
| ReplyService.FlexRecentRecordsCarousel | apps/handlers/reply_service.py:47-71 | no records gives the single empty bubble; otherwise one bubble per page, titled "title · idx/total", with rows numbered per page |
| ReplyService.NumberingRestartsPerPage | apps/handlers/reply_service.py:55-56 | the first row of every page carries "delete_1", although it shows record k × page_size of the whole list |
| ChartHandler.CategorySums | apps/handlers/chart_handler.py:53-69 | the keys are the counted categories in first-occurrence order, and each total is the sum of the counted amounts in that category |
| ChartHandler.UnlistedSumsToZero | apps/handlers/chart_handler.py:55-61 | a category that is not a key has no counted amounts |
| ChartHandler.OrderMembers | apps/handlers/chart_handler.py:55-61 | a category is a key exactly when some counted row has it |
| ChartHandler.OrderDistinct | apps/handlers/chart_handler.py:61-68 | no category appears twice among the keys |
| ChartHandler.FirstOccurrenceAppends | apps/handlers/chart_handler.py:61-68 | a row adds its category at the end exactly when it is counted and no earlier counted row had that category |
| ChartHandler.TotalsAddUp | apps/handlers/chart_handler.py:55-61 | the category totals add up to the sum of all counted amounts |
| ChartHandler.ExpenseBars | apps/handlers/chart_handler.py:52-69 | it fails with "no_expense_data" exactly when no row is counted; otherwise the bars are the keys in order with their totals |
| ChartHandler.OnlyLocalizedIncomeExcluded | apps/handlers/chart_handler.py:56-60 | in zh-TW a row in category "income" is counted while "收入" is not, and an empty category counts as "未分類" |
| ChartHandler.IncomeIgnoresCase | apps/handlers/chart_handler.py:58-59 | in en, "INCOME" is excluded as income |
| ChartHandler.ToDelete | apps/handlers/chart_handler.py:29-30 | the cleanup list holds exactly the listed names that start with "chart_{user_id}_" |
| ChartHandler.OwnUploadIsCleaned | apps/handlers/chart_handler.py:30-38 | every upload of a user is among that user's cleanup names |
| ChartHandler.PrefixDeterminesUser | apps/handlers/chart_handler.py:30-38 | for user ids without "_", a file falls under a user's cleanup only if that user uploaded it |
| ChartHandler.CleanupSparesOthers | apps/handlers/chart_handler.py:30-38 | for user ids without "_", the cleanup never deletes another user's upload |
| ChartHandler.UnderscoreIdsOverlap | apps/handlers/chart_handler.py:30-38 | the cleanup of user "a" also selects the uploads of user "a_b" |
| MessageHandler.MatchesCommandPrefix | apps/handlers/message_handler.py:256-258 | holds exactly when the lowered text starts with some lowered prefix of `t(key, lang)` |
| MessageHandler.LanguagePrefixZh | apps/handlers/message_handler.py:256-258 | in any language other than en, the language branch is taken exactly for texts starting with 語言 or 切換語言 |
| MessageHandler.LanguagePrefixEn | apps/handlers/message_handler.py:256-258 | in en, the language branch is taken exactly for texts whose lowered form starts with "lang" |
| MessageHandler.SelectBranch | apps/handlers/message_handler.py:51-230 | the check branch is taken exactly when the command is "check"; the summary branch only for the summary commands |
| MessageHandler.ChartKeywordsReduce | apps/handlers/message_handler.py:96 | the chart test holds exactly when the text contains 支出圖 or "chart"; the other three keywords contain 支出圖 |
| MessageHandler.WeeklyNeverProduced | apps/handlers/message_handler.py:137-142 | `normalize_command` never produces "weekly", so that arm of the summary test is dead |
| MessageHandler.JiNeverChecks | apps/handlers/message_handler.py:51 | a text with 記 never reaches the check or the summary branch |
| MessageHandler.SummarySelected | apps/handlers/message_handler.py:51-137 | a summary command without chart keywords and language prefixes reaches the summary branch |
| MessageHandler.MonthlySummarySelected | apps/handlers/message_handler.py:137-148 | "本月總結" reaches the summary branch |
| MessageHandler.LanguageSplit | apps/handlers/message_handler.py:80-82 | there is a new language exactly when the text has at least two words, and it is the second word |
| MessageHandler.AnyCodeAccepted | apps/handlers/message_handler.py:80-83 | "語言 v" sets the language to v for any word v; no allowed set is checked |
| MessageHandler.BarePrefixIsFormatError | apps/handlers/message_handler.py:81-92 | "語言" alone gives the format error |
| MessageHandler.RangeOf | apps/handlers/message_handler.py:101-115 | a period is chosen exactly for 週/week, 月/month and 年/year, and it is 本週, 本月 or 今年 |
| MessageHandler.WeekChartExamples | apps/handlers/message_handler.py:99-103 | "週支出圖" and "支出圖 週" both chart the current week |
| MessageHandler.ChartThenWord | apps/handlers/message_handler.py:99-115 | "chart w" charts exactly the period that w names |
| MessageHandler.CapitalChartIsNoChart | apps/handlers/message_handler.py:96 | "Chart week" is not a chart request: the keyword test is case-sensitive |
| MessageHandler.TotalsPartition | apps/handlers/message_handler.py:157-168 | income and expense add up to the total of all amounts |
| MessageHandler.NoIncomeAllExpense | apps/handlers/message_handler.py:161-164 | with no income row, the income is 0 and the expense is the total |
| MessageHandler.SummaryTotals | apps/handlers/message_handler.py:157-168 | the loop computes the income and expense sums, and the balance is income minus expense |
| MessageHandler.PeriodOf | apps/handlers/message_handler.py:142-151 | every summary command selects the week, month or year period |
| MessageHandler.AddCategoryMatch | apps/handlers/message_handler.py:180-186 | a match has a non-empty keyword and a non-empty category |
| MessageHandler.AddCategoryZhRoundTrip | apps/handlers/message_handler.py:182-186 | "新增分類：kw=cat" gives back kw and cat, lowered |
| MessageHandler.AddCategoryEnRoundTrip | apps/handlers/message_handler.py:182-186 | "add category:" in any case, optional blanks, then kw=cat gives back kw and cat, lowered |
| MessageHandler.CheckListingShape | apps/handlers/message_handler.py:60-71 | the listing has one line per record numbered from 1, and at most 4 delete buttons with data delete_1, delete_2, … |
| MessageHandler.RecordMatch | apps/handlers/message_handler.py:232-235 | a record match has a non-empty description on one line that starts the text |
| MessageHandler.ChartOutcome | apps/handlers/message_handler.py:96-128 | an unknown range gives the range hint; otherwise one reply and no write, which is "no expense in range" exactly when no row is counted, and otherwise a chart whose bars are the counted categories in first-occurrence order, each with its total |
| MessageHandler.AddOutcome | apps/handlers/message_handler.py:178-205 | the add-category branch raises exactly when the pattern matches (the call to the undefined `db.delete_user_category` comes first), and otherwise replies with the format error and writes nothing |
| MessageHandler.AddCategoryZhRaises | apps/handlers/message_handler.py:182-189 | every well-formed "新增分類：kw=cat" makes the branch raise before any write or reply |
| MessageHandler.Respond | apps/handlers/message_handler.py:51-254 | each branch gives its answer: the check listing or the no-records text, the language outcome, the chart answer, the summary totals for the period named by the command, the add-category outcome, the record or AI outcome; it raises exactly in the delete-category branch and in the add-category branch on a match |
| MessageHandler.HandleMessage | apps/handlers/message_handler.py:38-254 | the stripped text selects a branch, which answers as Respond states with the strings of the sender's language; it raises exactly in the delete-category branch and in the add-category branch on a match, while the check, summary and record branches, which also fail in the source, are given their intended outcomes |
| MessageHandler.BreakfastIsStored | apps/handlers/message_handler.py:232-237 | "早餐 60" stores one food transaction of 60 with the text as message |
| PostbackHandler.ParsePayload | apps/handlers/postback_handler.py:18-52 | the prefixes are tried in order: delete_, SYNC_CATEGORY_YES, SYNC_CATEGORY_NO, else nothing; a YES payload needs exactly three "\|" fields; a delete index is the parsed second "_" field |
| PostbackHandler.SplitOnCount | apps/handlers/postback_handler.py:31 | splitting gives one more field than there are separators |
| PostbackHandler.DeletePayloadRoundTrip | apps/handlers/postback_handler.py:18-19 | the data "delete_{n}" built by the reply rows parses back to index n |
| PostbackHandler.CheckButtonsRoundTrip | apps/handlers/message_handler.py:63 | every delete button of the check listing parses back to its record's number |
| PostbackHandler.SyncPayloadRoundTrip | apps/handlers/postback_handler.py:29-31 | the confirm template's YES data parses back to its keyword and category exactly when neither holds "\|"; otherwise it is malformed |
| PostbackHandler.SyncNoPayloadParses | apps/handlers/postback_handler.py:52 | the confirm template's NO data parses as a refusal |
| PostbackHandler.ConfirmTemplateRoundTrip | apps/handlers/message_handler.py:261-277 | both buttons of the confirm template parse back to the answer they stand for |
| PostbackHandler.PipeKeywordBreaksSync | apps/handlers/message_handler.py:269 | "新增分類：a\|b=food" is accepted, but its YES payload has four fields and is malformed |
| PostbackHandler.NonNumericDeleteIsMalformed | apps/handlers/postback_handler.py:19 | "delete_x" has no index |
| PostbackHandler.SyncUpdates | apps/handlers/postback_handler.py:34-35 | one category update per matched record, in order, each for that record's id |
| PostbackHandler.Respond | apps/handlers/postback_handler.py:17-56 | a delete removes record n and confirms it; a well-formed YES updates every matched record, in order, and replies with the prompt, the mapping and the matched count; a malformed YES gets "❗" and the format error; NO gets the sync prompt; anything else writes and says nothing; only a malformed delete raises |
| PostbackHandler.HandlePostback | apps/handlers/postback_handler.py:10-56 | every payload is answered as Respond states, with the strings of the user's stored language, and the handler raises exactly for a malformed delete payload |

## Left out

- Database access (apps/common/database.py) is SQL through psycopg2. The user's language, last records, period rows, keyword map and keyword-matched records are parameters. The inserts, deletes and updates are effect values in the outcome.
- Embeddings and the chat model (apps/services/openai_embed.py, apps/services/call_openai_chatgpt.py, apps/services/ai_financial_advisor.py, `_ensure_intents`, `_cos`) are external APIs and float numerics. The router takes one similarity per intent as a real, so the cache `_intent_vecs` is not modelled.
- Chart drawing and storage (matplotlib, seaborn, the supabase client, temporary files) are foreign libraries and I/O. Only the totals, the no-data error and the file-name rules are modelled. The upload time stamp is a parameter.
- Clocks and time zones (`datetime.now`, `datetime.utcnow`) are left out. The summary and chart branches choose a period name, and their rows are already the period's rows.
- Webhook, Flask and LINE SDK code (app.py, apps/handlers/follow_handler.py, apps/services/reply_service.py, `reply_message`, the SDK message classes) are transport. Replies are plain datatypes.
- config.py is not part of this model: no code in the core reads it.
- `lower()` lowers ASCII letters only. Python's full Unicode case mapping is not modelled. Every keyword, prefix and label in the tables is ASCII or CJK, and CJK has no case.
- `\d` is ASCII digits only. `\w`, used by the `\b` of the language slot, is ASCII letters, digits, `_` and the CJK ideographs U+4E00..U+9FFF. Python's Unicode classes are wider.
- NlpRouter.ParseSlots: the add_kw, add_cat and del_kw slots (apps/services/nlp_router.py:91-96) are not modelled, because `route` never reads them and no caller in the core uses them.
- MessageHandler.DefaultOutcome stores the transaction as (category, amount, text), which is what apps/handlers/message_handler.py:237 passes. The four-argument call does not fit the five-parameter `insert_transactions` (apps/common/database.py:153), so it would fail at run time; the model records the intended write.
- MessageHandler.CheckListing reads each record's `category_name`, the key `get_last_records` returns (apps/common/database.py:185). The listing at apps/handlers/message_handler.py:66 reads `r["category"]`, which would raise.
- CategoryClassifier.ClassifyCategory takes the user's keyword map as a parameter. `db.get_user_categories` (apps/services/category_classifier.py:40) does not exist in the database module; the handler calls the classifier without a user id, so that path is never taken.
- MessageHandler.HandleMessage raises only where the model's branches do. In the source the check branch with records (apps/handlers/message_handler.py:66), the summary branch (line 171) and a record message (line 237) also fail at the call sites listed in this section; the model gives those branches the outcome their code evidently intends.
- MessageHandler.AddOutcome models the add-category branch as raising on a match. Line 189 of apps/handlers/message_handler.py calls `db.delete_user_category`, which apps/common/database.py does not define, so the intended delete-then-add of the mapping and the two replies after it are never reached and are not modelled as an outcome; `get_confirm_template` itself is modelled on its own as MessageHandler.ConfirmTemplate.
- MessageHandler.Respond models the delete-category branch as raising. Line 210 of apps/handlers/message_handler.py subscripts the function `t`, so the branch raises TypeError before it matches or deletes anything.
- MessageHandler.Respond models the summary reply as an abstract SummaryFlex value (period name, income, expense, balance). apps/handlers/message_handler.py:171 passes the summary type positionally as `records`, so `generate_summary_flex` would iterate over a string and fail.
- MessageHandler.ChartOutcome always draws the chart in zh-TW, since apps/handlers/message_handler.py:118 does not pass the user's language. The generic-failure reply "圖表生成失敗，請稍後再試" (lines 129-134) covers drawing and upload errors, which are not modelled.
- The AI answer (`handle_ai_question`, apps/services/ai_financial_advisor.py) is commented out in the handler, which replies a fixed placeholder. The placeholder is modelled; the advisor is not.
- ReplyService: the `title_node` rewrite in `flex_recent_records_carousel` sits in a `try` that swallows failures. The model assumes the first body node is the title text, as `flex_recent_records` builds it.
- NlpRouter.CanonicalRootFromToken skips the three list-valued keys that would raise inside the `try`. No root key is one of them, so the skip never changes the answer.
