/**
 * The reply builders of apps/handlers/reply_service.py, without the LINE Flex JSON
 * around them: paging with `_chunks` and the 10-page cap, the rows of the summary
 * bubble (`generate_summary_flex`) and of the recent-records bubble
 * (`flex_recent_records`, with its `ellipsis`), and the two carousels.
 *
 * A bubble is the texts and postbacks whose content the rules decide; fixed decoration
 * (the "💸" expense label, the "📋 " before the detail title, the delete icon's image) is
 * left out. The localized strings a builder
 * looks up with `t(..., lang)` are passed to it together as a `ReplyTexts` value;
 * `TextsFor(lang)` is that lookup.
 */
module ReplyService {
  import opened Prelude
  import opened Text
  import I18n
  import opened Rows

  // ---------------------------------------------------------------------------
  // _chunks

  /** `_chunks(lst, size)`: consecutive slices of `size` elements, the last one possibly shorter. */
  function Chunks<T>(lst: seq<T>, size: nat): seq<seq<T>>
    requires size > 0
    decreases |lst|
  {
    if lst == [] then []
    else if |lst| <= size then [lst]
    else [lst[..size]] + Chunks(lst[size..], size)
  }

  /** `_chunks` on `lst or []`: a missing list gives no chunks. */
  function ChunksOf<T>(lst: Option<seq<T>>, size: nat): (r: seq<seq<T>>)
    requires size > 0
    ensures lst.None? ==> r == []
  {
    Chunks(lst.GetOr([]), size)
  }

  function Flatten<T>(ss: seq<seq<T>>): seq<T>
  {
    if ss == [] then [] else ss[0] + Flatten(ss[1..])
  }

  /** Concatenating the chunks gives back the list. */
  lemma {:induction false} ChunksFlatten<T>(lst: seq<T>, size: nat)
    requires size > 0
    ensures Flatten(Chunks(lst, size)) == lst
    decreases |lst|
  {
    if |lst| > size {
      ChunksFlatten(lst[size..], size);
      assert lst[..size] + lst[size..] == lst;
    }
  }

  /** Every chunk is non-empty and at most `size` long, and every chunk but the last is exactly `size` long. */
  lemma {:induction false} ChunksSizes<T>(lst: seq<T>, size: nat)
    requires size > 0
    ensures forall k :: 0 <= k < |Chunks(lst, size)| ==> 0 < |Chunks(lst, size)[k]| <= size
    ensures forall k :: 0 <= k < |Chunks(lst, size)| - 1 ==> |Chunks(lst, size)[k]| == size
    decreases |lst|
  {
    if |lst| > size {
      ChunksSizes(lst[size..], size);
    }
  }

  /** Euclidean division pins the quotient down between two multiples of the divisor. */
  lemma DivBetween(x: int, d: int, q: int)
    requires d > 0 && d * q <= x < d * q + d
    ensures x / d == q
  {
    var k := q - x / d;
    assert d * k == d * q - d * (x / d);
    MulSign(d, k);
  }

  lemma MulSign(d: int, k: int)
    requires d > 0
    ensures k >= 1 ==> d * k >= d
    ensures k <= -1 ==> d * k <= -d
  {
    if k >= 1 {
      assert d * k == d * (k - 1) + d;
    } else if k <= -1 {
      assert d * k == d * (k + 1) - d;
    }
  }

  lemma MulStep(m: nat, d: nat)
    requires m > 0
    ensures m * d == (m - 1) * d + d && (m - 1) * d >= 0
  {
  }

  /** There are `ceil(|lst| / size)` chunks. */
  lemma {:induction false} ChunksCount<T>(lst: seq<T>, size: nat)
    requires size > 0
    ensures |Chunks(lst, size)| == (|lst| + size - 1) / size
    decreases |lst|
  {
    var n := |Chunks(lst, size)|;
    if lst == [] {
      DivBetween(size - 1, size, 0);
    } else if |lst| <= size {
      DivBetween(|lst| + size - 1, size, 1);
    } else {
      ChunksCount(lst[size..], size);
      var q := (|lst| - size + size - 1) / size;
      assert size * q <= |lst| - 1 < size * q + size by {
        assert |lst| - 1 == size * q + (|lst| - 1) % size;
      }
      DivBetween(|lst| + size - 1, size, q + 1);
    }
  }

  /** The first `m` chunks hold exactly the first `m * size` elements of the list. */
  lemma {:induction false} FirstChunks<T>(lst: seq<T>, size: nat, m: nat)
    requires size > 0
    ensures var cs := Chunks(lst, size);
            Flatten(cs[..if m < |cs| then m else |cs|]) == lst[..if m * size < |lst| then m * size else |lst|]
    decreases m
  {
    var cs := Chunks(lst, size);
    if m == 0 || lst == [] {
      assert cs[..0] == [];
    } else {
      MulStep(m, size);
      if |lst| <= size {
        assert cs[..1] == [lst];
      } else {
        FirstChunks(lst[size..], size, m - 1);
        var rest := Chunks(lst[size..], size);
        var k := if m - 1 < |rest| then m - 1 else |rest|;
        assert cs[..k + 1] == [lst[..size]] + rest[..k];
        var e := if m * size < |lst| then m * size else |lst|;
        assert lst[..e] == lst[..size] + lst[size..][..e - size];
      }
    }
  }

  /** At most ten pages are kept. */
  const MaxPages: nat := 10

  /** `list(_chunks(records, page_size))[:10]`. */
  function Pages<T>(records: seq<T>, pageSize: nat): (pages: seq<seq<T>>)
    requires pageSize > 0
    ensures |pages| <= MaxPages
  {
    var cs := Chunks(records, pageSize);
    if |cs| <= MaxPages then cs else cs[..MaxPages]
  }

  /** The pages show the first `10 * page_size` records, in order; the rest are dropped. */
  lemma PagesShow<T>(records: seq<T>, pageSize: nat)
    requires pageSize > 0
    ensures Flatten(Pages(records, pageSize))
         == records[..if MaxPages * pageSize < |records| then MaxPages * pageSize else |records|]
    ensures Pages(records, pageSize) == [] <==> records == []
  {
    FirstChunks(records, pageSize, MaxPages);
    var cs := Chunks(records, pageSize);
    assert cs[..|cs|] == cs;
  }

  /** `f"{title} · {idx}/{total}"`. */
  function PageTitle(title: string, idx: nat, total: nat): string
  {
    title + " · " + NatToString(idx) + "/" + NatToString(total)
  }

  // ---------------------------------------------------------------------------
  // localized strings

  /** The strings the builders look up with `t(..., lang)`. */
  datatype ReplyTexts = ReplyTexts(
    summaryTitle: string, detailListTitle: string, income: string, expense: string,
    noRecords: string, viewMore: string, uncategorized: string,
    recentTitle: string, recentAlt: string)

  function TextsFor(lang: Option<string>): ReplyTexts
  {
    ReplyTexts(
      I18n.Message("summary_title", lang), I18n.Message("detail_list_title", lang),
      I18n.Message("income", lang), I18n.Message("expense", lang),
      I18n.Message("no_records", lang), I18n.Message("view_more", lang),
      I18n.Message("uncategorized", lang),
      I18n.Message("recent_records_title", lang), I18n.Message("recent_records_alt", lang))
  }

  // ---------------------------------------------------------------------------
  // generate_summary_flex

  /** A detail row: `f"{record_type} | {category} - {item}"` and `f"${amount}"`. */
  datatype DetailRow = DetailRow(caption: string, amountText: string)

  /** The "View More" button: its label and the postback data it sends. */
  datatype Footer = Footer(caption: string, data: string)

  /**
   * The summary bubble: its title (also the alt text), the expense line, the title of
   * the detail list, the detail rows, the "no records" note shown instead of rows, and
   * the optional footer.
   */
  datatype SummaryBubble = SummaryBubble(
    title: string, expenseText: string, detailTitle: string,
    rows: seq<DetailRow>, emptyNote: Option<string>, footer: Option<Footer>)

  /** How an f-string shows a column that may be NULL: Python prints `None` for it. */
  function Formatted(x: Option<string>): string
  {
    match x
    case Some(v) => v
    case None => "None"
  }

  /** The row of one record: labelled income exactly when its `type` is "income". */
  function DetailRowOf(r: Transaction, tx: ReplyTexts): DetailRow
  {
    var recordType := if r.kind == "income" then tx.income else tx.expense;
    DetailRow(recordType + " | " + r.category + " - " + Formatted(r.item), "$" + IntToString(r.amount))
  }

  function Min(a: nat, b: nat): nat
  {
    if a < b then a else b
  }

  /** The bubble `generate_summary_flex` builds, as a value. */
  function SummaryBubbleOf(income: int, expense: int, balance: int, records: seq<Transaction>,
                           summaryType: string, tx: ReplyTexts, maxRows: nat, more: Option<string>): SummaryBubble
  {
    var rows := seq(Min(|records|, maxRows), i requires 0 <= i < Min(|records|, maxRows) => DetailRowOf(records[i], tx));
    SummaryBubble(
      Format(tx.summaryTitle, [("summary_type", summaryType)]),
      "$" + IntToString(expense),
      Format(tx.detailListTitle, [("summary_type", summaryType)]),
      rows,
      if rows == [] then Some(tx.noRecords) else None,
      if more.Some? && more.value != "" && |records| > maxRows then Some(Footer(tx.viewMore, more.value)) else None)
  }

  /** The loop that appends one detail row per record, up to `max_detail_rows`. */
  method DetailRows(records: seq<Transaction>, tx: ReplyTexts, maxRows: nat) returns (rows: seq<DetailRow>)
    ensures |rows| == Min(|records|, maxRows)
    ensures forall i :: 0 <= i < |rows| ==> rows[i] == DetailRowOf(records[i], tx)
  {
    rows := [];
    var n := Min(|records|, maxRows);
    var i := 0;
    while i < n
      invariant 0 <= i <= n && |rows| == i
      invariant forall k :: 0 <= k < i ==> rows[k] == DetailRowOf(records[k], tx)
    {
      rows := rows + [DetailRowOf(records[i], tx)];
      i := i + 1;
    }
  }

  /**
   * `generate_summary_flex(income, expense, balance, records, summary_type, lang, max_detail_rows, more_postback_data)`.
   * It assembles the same bubble as SummaryBubbleOf; what it adds is the loop over the
   * records that builds the detail rows, done by DetailRows.
   */
  method GenerateSummaryFlex(income: int, expense: int, balance: int, records: seq<Transaction>,
                             summaryType: string, tx: ReplyTexts, maxRows: nat, more: Option<string>)
    returns (b: SummaryBubble)
    ensures b == SummaryBubbleOf(income, expense, balance, records, summaryType, tx, maxRows, more)
  {
    var rows := DetailRows(records, tx, maxRows);
    var footer := None;
    if more.Some? && more.value != "" && |records| > maxRows {
      footer := Some(Footer(tx.viewMore, more.value));
    }
    b := SummaryBubble(
      Format(tx.summaryTitle, [("summary_type", summaryType)]),
      "$" + IntToString(expense),
      Format(tx.detailListTitle, [("summary_type", summaryType)]),
      rows,
      if rows == [] then Some(tx.noRecords) else None,
      footer);
  }

  /**
   * At most `max_detail_rows` rows, one per record in order; exactly one "no records"
   * note, and only when there is no row.
   */
  lemma SummaryRows(income: int, expense: int, balance: int, records: seq<Transaction>,
                    summaryType: string, tx: ReplyTexts, maxRows: nat, more: Option<string>)
    ensures var b := SummaryBubbleOf(income, expense, balance, records, summaryType, tx, maxRows, more);
            && |b.rows| <= maxRows && |b.rows| <= |records|
            && (b.emptyNote.Some? <==> records == [] || maxRows == 0)
            && (b.emptyNote.Some? ==> b.emptyNote.value == tx.noRecords && b.rows == [])
  {
  }

  /** The footer appears only with non-empty postback data and more records than rows, and carries that data. */
  lemma SummaryFooter(income: int, expense: int, balance: int, records: seq<Transaction>,
                      summaryType: string, tx: ReplyTexts, maxRows: nat, more: Option<string>)
    ensures var b := SummaryBubbleOf(income, expense, balance, records, summaryType, tx, maxRows, more);
            (b.footer.Some? <==> more.Some? && more.value != "" && |records| > maxRows)
            && (b.footer.Some? ==> b.footer.value.data == more.value && |b.rows| == maxRows)
  {
  }

  /** A row starts with the income label when its record's type is "income", with the expense label otherwise. */
  lemma RowLabelsIncome(r: Transaction, tx: ReplyTexts)
    ensures r.kind == "income" ==> StartsWith(DetailRowOf(r, tx).caption, tx.income + " | ")
    ensures r.kind != "income" ==> StartsWith(DetailRowOf(r, tx).caption, tx.expense + " | ")
  {
    var recordType := if r.kind == "income" then tx.income else tx.expense;
    var caption := DetailRowOf(r, tx).caption;
    assert caption == (recordType + " | ") + (r.category + " - " + Formatted(r.item));
    assert caption[..|recordType + " | "|] == recordType + " | ";
  }

  /** A record whose item is NULL is shown with the text "None" after the category. */
  lemma NullItemShowsNone(r: Transaction, tx: ReplyTexts)
    requires r.item.None?
    ensures var c := DetailRowOf(r, tx).caption;
            |c| >= 7 && c[|c| - 7..] == " - None"
  {
    var recordType := if r.kind == "income" then tx.income else tx.expense;
    var c := DetailRowOf(r, tx).caption;
    assert c == (recordType + " | " + r.category) + " - None";
  }

  /** Only the expense total is shown: the income and balance arguments never change the bubble. */
  lemma IncomeAndBalanceUnused(income: int, income': int, balance: int, balance': int, expense: int,
                               records: seq<Transaction>, summaryType: string, tx: ReplyTexts, maxRows: nat, more: Option<string>)
    ensures SummaryBubbleOf(income, expense, balance, records, summaryType, tx, maxRows, more)
         == SummaryBubbleOf(income', expense, balance', records, summaryType, tx, maxRows, more)
  {
  }

  /** The zh-TW and en summary titles: the `{summary_type}` field, then plain text. */
  lemma SummaryTitleZh()
    ensures I18n.Message("summary_title", Some(I18n.ZhTw)) == Field("summary_type") + " 總計"
  {
  }

  lemma SummaryTitleEn()
    ensures I18n.Message("summary_title", Some(I18n.En)) == Field("summary_type") + " Summary"
  {
  }

  /** The title (and alt text) of a zh-TW or en summary bubble is the summary type followed by the localized word. */
  lemma SummaryTitleNamesType(income: int, expense: int, balance: int, records: seq<Transaction>,
                              summaryType: string, lang: string, maxRows: nat, more: Option<string>)
    requires lang == I18n.ZhTw || lang == I18n.En
    ensures var b := SummaryBubbleOf(income, expense, balance, records, summaryType, TextsFor(Some(lang)), maxRows, more);
            b.title == summaryType + (if lang == I18n.ZhTw then " 總計" else " Summary")
  {
    if lang == I18n.ZhTw {
      SummaryTitleZh();
      FormatLeadingField("summary_type", " 總計", summaryType);
    } else {
      SummaryTitleEn();
      FormatLeadingField("summary_type", " Summary", summaryType);
    }
  }

  // ---------------------------------------------------------------------------
  // flex_recent_records

  /** `s(x)`: a missing value prints as the empty string. */
  function Shown(x: Option<string>): string
  {
    x.GetOr("")
  }

  /** `ellipsis(x, n)`: `x` when it fits in `n` characters, else its first `n - 1` characters and "…". */
  function Ellipsis(x: string, n: nat): string
  {
    if |x| <= n then x
    else if n >= 1 then x[..n - 1] + "…"
    else x[..|x| - 1] + "…"  // Python's x[:-1]
  }

  /** The shortened text is never longer than `n` (for `n >= 1`), and exactly `n` long when shortened. */
  lemma EllipsisWidth(x: string, n: nat)
    requires n >= 1
    ensures |Ellipsis(x, n)| <= n
    ensures |x| > n ==> |Ellipsis(x, n)| == n && StartsWith(x, Ellipsis(x, n)[..n - 1])
    ensures |x| <= n <==> Ellipsis(x, n) == x
  {
    if |x| > n {
      var r := Ellipsis(x, n);
      assert r[..n - 1] == x[..n - 1];
      assert r != x by { assert |r| == n < |x|; }
    }
  }

  /** The label of a record: its trimmed category name (or "uncategorized"), and " - item" when the trimmed item is non-empty. */
  function DisplayName(r: RecentRecord, tx: ReplyTexts): string
  {
    var name := if Strip(r.categoryName) != "" then Strip(r.categoryName) else tx.uncategorized;
    var item := Strip(Shown(r.item));
    if item != "" then name + " - " + item else name
  }

  /** One row: its number and label, its amount, and the postback data of its delete icon. */
  datatype RecentRow = RecentRow(caption: string, amountText: string, deleteData: string)

  /** The postback data of the delete icon on row `i`. */
  function DeleteData(i: nat): string
  {
    "delete_" + NatToString(i)
  }

  function RecentRowOf(i: nat, r: RecentRecord, tx: ReplyTexts): RecentRow
  {
    RecentRow(NatToString(i) + ". " + Ellipsis(DisplayName(r, tx), 18),
              Ellipsis("$" + IntToString(r.amount), 10),
              DeleteData(i))
  }

  /** The bubble: a title node, then the rows; the alt text is separate. */
  datatype RecentBubble = RecentBubble(title: string, altText: string, rows: seq<RecentRow>)

  const MaxRows: nat := 10

  /** `enumerate(xs[:n], start=1)` with each numbered element turned into `f(i, x)`, appended in order. */
  method NumberedMap<T, U>(xs: seq<T>, n: nat, f: (nat, T) -> U) returns (ys: seq<U>)
    requires n <= |xs|
    ensures |ys| == n
    ensures forall k :: 0 <= k < n ==> ys[k] == f(k + 1, xs[k])
  {
    ys := [];
    var i := 0;
    while i < n
      invariant 0 <= i <= n && |ys| == i
      invariant forall k :: 0 <= k < i ==> ys[k] == f(k + 1, xs[k])
    {
      ys := ys + [f(i + 1, xs[i])];
      i := i + 1;
    }
  }

  /** The loop over `records[:MAX_ROWS]`, numbering rows from 1. */
  method RecentRows(records: seq<RecentRecord>, tx: ReplyTexts) returns (rows: seq<RecentRow>)
    ensures |rows| == Min(|records|, MaxRows)
    ensures forall k :: 0 <= k < |rows| ==> rows[k] == RecentRowOf(k + 1, records[k], tx)
  {
    rows := NumberedMap(records, Min(|records|, MaxRows), (i: nat, r: RecentRecord) => RecentRowOf(i, r, tx));
  }

  /** `flex_recent_records(records, lang)`. */
  method FlexRecentRecords(records: seq<RecentRecord>, tx: ReplyTexts) returns (b: RecentBubble)
    ensures b.title == tx.recentTitle && b.altText == tx.recentAlt
    ensures |b.rows| == Min(|records|, MaxRows)
    ensures forall k :: 0 <= k < |b.rows| ==> b.rows[k] == RecentRowOf(k + 1, records[k], tx)
  {
    var rows := RecentRows(records, tx);
    b := RecentBubble(tx.recentTitle, tx.recentAlt, rows);
  }

  /** Row `i` starts with its number and deletes record `i`; at most ten rows, numbered 1, 2, ... */
  lemma RecentRowNumbering(i: nat, r: RecentRecord, tx: ReplyTexts)
    ensures StartsWith(RecentRowOf(i, r, tx).caption, NatToString(i) + ". ")
    ensures |RecentRowOf(i, r, tx).amountText| <= 10
    ensures |RecentRowOf(i, r, tx).caption| <= |NatToString(i)| + 2 + 18
  {
    var row := RecentRowOf(i, r, tx);
    assert row.caption[..|NatToString(i) + ". "|] == NatToString(i) + ". ";
    EllipsisWidth(DisplayName(r, tx), 18);
    EllipsisWidth("$" + IntToString(r.amount), 10);
  }

  /** A blank category name shows as "uncategorized"; the " - " separator appears exactly when the trimmed item is non-empty. */
  lemma DisplayNameRule(r: RecentRecord, tx: ReplyTexts)
    ensures Strip(r.categoryName) == "" ==> StartsWith(DisplayName(r, tx), tx.uncategorized)
    ensures Strip(r.categoryName) != "" ==> StartsWith(DisplayName(r, tx), Strip(r.categoryName))
    ensures Strip(Shown(r.item)) == "" ==> DisplayName(r, tx) == (if Strip(r.categoryName) != "" then Strip(r.categoryName) else tx.uncategorized)
    ensures Strip(Shown(r.item)) != "" ==> DisplayName(r, tx) == (if Strip(r.categoryName) != "" then Strip(r.categoryName) else tx.uncategorized) + " - " + Strip(Shown(r.item))
  {
    var name := if Strip(r.categoryName) != "" then Strip(r.categoryName) else tx.uncategorized;
    assert DisplayName(r, tx)[..|name|] == name;
  }

  // ---------------------------------------------------------------------------
  // carousels

  /** A summary reply: one bubble when there is no page, else a carousel with its alt text. */
  datatype SummaryReply = SummarySingle(bubble: SummaryBubble) | SummaryCarousel(altText: string, bubbles: seq<SummaryBubble>)

  /** `generate_summary_carousel`: one bubble per page, titled "{summary_type} · {idx}/{total}". */
  method GenerateSummaryCarousel(income: int, expense: int, balance: int, records: seq<Transaction>,
                                 summaryType: string, tx: ReplyTexts, pageSize: nat)
    returns (r: SummaryReply)
    requires pageSize > 0
    ensures r.SummarySingle? <==> records == []
    ensures r.SummarySingle? ==> r.bubble == SummaryBubbleOf(income, expense, balance, [], summaryType, tx, pageSize, None)
    ensures r.SummaryCarousel? ==>
      var pages := Pages(records, pageSize);
      && r.altText == summaryType
      && |r.bubbles| == |pages|
      && forall k :: 0 <= k < |pages| ==>
           r.bubbles[k] == SummaryBubbleOf(income, expense, balance, pages[k],
                                            PageTitle(summaryType, k + 1, |pages|), tx, pageSize, None)
  {
    var pages := Pages(records, pageSize);
    PagesShow(records, pageSize);
    if pages == [] {
      r := SummarySingle(SummaryBubbleOf(income, expense, balance, [], summaryType, tx, pageSize, None));
      return;
    }
    var totalPages := |pages|;
    var bubbles: seq<SummaryBubble> := [];
    var idx := 1;
    while idx <= |pages|
      invariant 1 <= idx <= |pages| + 1 && |bubbles| == idx - 1
      invariant forall k :: 0 <= k < idx - 1 ==>
        bubbles[k] == SummaryBubbleOf(income, expense, balance, pages[k], PageTitle(summaryType, k + 1, totalPages), tx, pageSize, None)
    {
      var b := GenerateSummaryFlex(income, expense, balance, pages[idx - 1], PageTitle(summaryType, idx, totalPages), tx, pageSize, None);
      bubbles := bubbles + [b];
      idx := idx + 1;
    }
    r := SummaryCarousel(summaryType, bubbles);
  }

  /** The pages are the chunks, at most ten of them. */
  lemma PagesAreChunks<T>(records: seq<T>, pageSize: nat)
    requires pageSize > 0
    ensures |Pages(records, pageSize)| <= MaxPages
    ensures Pages(records, pageSize) == Chunks(records, pageSize)[..|Pages(records, pageSize)|]
  {
  }

  /**
   * Every page bubble of a carousel lists all of its page's records and has no footer,
   * since pages hold at most `page_size` records and no "View More" data is passed.
   */
  lemma CarouselPageShowsWholePage(income: int, expense: int, balance: int, records: seq<Transaction>,
                                   summaryType: string, tx: ReplyTexts, pageSize: nat, k: nat)
    requires pageSize > 0 && k < |Pages(records, pageSize)|
    ensures var page := Pages(records, pageSize)[k];
            var b := SummaryBubbleOf(income, expense, balance, page, PageTitle(summaryType, k + 1, |Pages(records, pageSize)|), tx, pageSize, None);
            && |b.rows| == |page| > 0
            && (forall j :: 0 <= j < |page| ==> b.rows[j] == DetailRowOf(page[j], tx))
            && b.footer.None? && b.emptyNote.None?
  {
    ChunksSizes(records, pageSize);
    assert Pages(records, pageSize)[k] == Chunks(records, pageSize)[k];
  }

  /** A recent-records reply: the bare bubble when there is no page, else a carousel. */
  datatype RecentReply = RecentSingle(bubble: RecentBubble) | RecentCarousel(altText: string, bubbles: seq<RecentBubble>)

  /**
   * Bubble `idx` of `total` for `page`: the title carries the page number, and the rows are
   * the page's first ten records numbered from 1.
   */
  predicate IsPageBubble(b: RecentBubble, page: seq<RecentRecord>, idx: nat, total: nat, tx: ReplyTexts)
  {
    && b.title == PageTitle(tx.recentTitle, idx, total)
    && b.altText == tx.recentAlt
    && |b.rows| == Min(|page|, MaxRows)
    && forall j :: 0 <= j < |b.rows| ==> b.rows[j] == RecentRowOf(j + 1, page[j], tx)
  }

  /**
   * `flex_recent_records_carousel`: one bubble per page, whose title node is rewritten
   * in place to "{title} · {idx}/{total}"; the rows keep their own numbering.
   */
  method FlexRecentRecordsCarousel(records: seq<RecentRecord>, tx: ReplyTexts, pageSize: nat)
    returns (r: RecentReply)
    requires pageSize > 0
    ensures r.RecentSingle? <==> records == []
    ensures r.RecentSingle? ==> r.bubble == RecentBubble(tx.recentTitle, tx.recentAlt, [])
    ensures r.RecentCarousel? ==>
      var pages := Pages(records, pageSize);
      && r.altText == tx.recentAlt
      && |r.bubbles| == |pages|
      && forall k :: 0 <= k < |pages| ==> IsPageBubble(r.bubbles[k], pages[k], k + 1, |pages|, tx)
  {
    var pages := Pages(records, pageSize);
    PagesShow(records, pageSize);
    if pages == [] {
      var b := FlexRecentRecords([], tx);
      r := RecentSingle(b);
      return;
    }
    var bubbles: seq<RecentBubble> := [];
    var totalPages := |pages|;
    var idx := 1;
    while idx <= totalPages
      invariant 1 <= idx <= totalPages + 1 && |bubbles| == idx - 1
      invariant forall k :: 0 <= k < idx - 1 ==> IsPageBubble(bubbles[k], pages[k], k + 1, totalPages, tx)
    {
      var bubble := FlexRecentRecords(pages[idx - 1], tx);
      bubble := bubble.(title := PageTitle(bubble.title, idx, totalPages));
      assert IsPageBubble(bubble, pages[idx - 1], idx, totalPages, tx);
      bubbles := bubbles + [bubble];
      idx := idx + 1;
    }
    r := RecentCarousel(tx.recentAlt, bubbles);
  }

  /**
   * Numbering restarts on every page: the first row of every page is numbered 1 and
   * deletes "delete_1", whatever its position among all records.
   */
  lemma NumberingRestartsPerPage(records: seq<RecentRecord>, tx: ReplyTexts, pageSize: nat, k: nat)
    requires pageSize > 0 && k < |Pages(records, pageSize)|
    ensures var page := Pages(records, pageSize)[k];
            page != [] && RecentRowOf(1, page[0], tx).deleteData == "delete_1"
            && k * pageSize < |records| && page[0] == records[k * pageSize]
  {
    PageStart(records, pageSize, k);
    FirstRowDeletesFirst(Pages(records, pageSize)[k][0], tx);
  }

  /** Page `k` starts with record `k * pageSize`. */
  lemma PageStart<T>(records: seq<T>, pageSize: nat, k: nat)
    requires pageSize > 0 && k < |Pages(records, pageSize)|
    ensures var page := Pages(records, pageSize)[k];
            page != [] && k * pageSize < |records| && page[0] == records[k * pageSize]
  {
    PagesAreChunks(records, pageSize);
    ChunkStart(records, pageSize, k);
  }

  /** Row 1 deletes "delete_1", whatever record it shows. */
  lemma FirstRowDeletesFirst(r: RecentRecord, tx: ReplyTexts)
    ensures RecentRowOf(1, r, tx).deleteData == "delete_1"
  {
    assert NatToString(1) == "1";
  }

  /** Chunk `k` starts at record `k * size`. */
  lemma {:induction false} ChunkStart<T>(lst: seq<T>, size: nat, k: nat)
    requires size > 0 && k < |Chunks(lst, size)|
    ensures k * size < |lst| && Chunks(lst, size)[k] != [] && Chunks(lst, size)[k][0] == lst[k * size]
    decreases k
  {
    if k > 0 {
      assert |lst| > size;
      ChunkStart(lst[size..], size, k - 1);
      MulStep(k, size);
    }
  }
}
