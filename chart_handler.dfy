/**
 * The decision logic of apps/handlers/chart_handler.py: the per-category expense
 * totals `generate_expense_chart` plots, the error it raises when there are none, and
 * the file-name rules of the chart upload and of the per-user cleanup.
 *
 * The dictionary `category_sums` is a map together with the order in which its keys
 * were first inserted, which is the order Python's dictionaries keep.
 */
module ChartHandler {
  import opened Prelude
  import opened Text
  import I18n
  import opened Rows

  /** The two localized labels the loop uses: the default category and the (lowered) income label. */
  datatype ChartLabels = ChartLabels(defaultCategory: string, income: string)

  /** `t("default_category", lang)` and `t("income", lang).lower()`. */
  function LabelsFor(lang: Option<string>): ChartLabels
  {
    ChartLabels(I18n.Message("default_category", lang), Lower(I18n.Message("income", lang)))
  }

  /** `r.get("category") or t("default_category", lang)`. */
  function CategoryOf(r: Transaction, labels: ChartLabels): string
  {
    if r.category == "" then labels.defaultCategory else r.category
  }

  /** A row is plotted unless its lowered category is the income label. */
  predicate Counted(r: Transaction, labels: ChartLabels)
  {
    Lower(CategoryOf(r, labels)) != labels.income
  }

  /** The keys of `category_sums` after the rows `txns`, in the order they were first inserted. */
  function Order(txns: seq<Transaction>, labels: ChartLabels): seq<string>
  {
    if txns == [] then []
    else
      var o := Order(txns[..|txns| - 1], labels);
      var r := txns[|txns| - 1];
      if Counted(r, labels) && CategoryOf(r, labels) !in o then o + [CategoryOf(r, labels)] else o
  }

  /** `category_sums[c]` after the rows `txns`: the amounts of the plotted rows in category `c`. */
  function SumFor(txns: seq<Transaction>, c: string, labels: ChartLabels): int
  {
    if txns == [] then 0
    else
      var r := txns[|txns| - 1];
      SumFor(txns[..|txns| - 1], c, labels) + (if Counted(r, labels) && CategoryOf(r, labels) == c then r.amount else 0)
  }

  /** The amounts of all plotted rows. */
  function CountedTotal(txns: seq<Transaction>, labels: ChartLabels): int
  {
    if txns == [] then 0
    else
      var r := txns[|txns| - 1];
      CountedTotal(txns[..|txns| - 1], labels) + (if Counted(r, labels) then r.amount else 0)
  }

  /** The loop that fills `category_sums`, one row at a time. */
  method CategorySums(txns: seq<Transaction>, labels: ChartLabels) returns (keys: seq<string>, sums: map<string, int>)
    ensures keys == Order(txns, labels)
    ensures forall c :: c in sums <==> c in keys
    ensures forall c :: c in sums ==> sums[c] == SumFor(txns, c, labels)
  {
    keys, sums := [], map[];
    var i := 0;
    while i < |txns|
      invariant 0 <= i <= |txns|
      invariant keys == Order(txns[..i], labels)
      invariant forall c :: c in sums <==> c in keys
      invariant forall c :: c in sums ==> sums[c] == SumFor(txns[..i], c, labels)
    {
      assert txns[..i + 1][..i] == txns[..i];
      var r := txns[i];
      var category := CategoryOf(r, labels);
      if Lower(category) != labels.income {
        if category !in sums {
          UnlistedSumsToZero(txns[..i], category, labels);
        }
        var previous := if category in sums then sums[category] else 0;
        if category !in sums {
          keys := keys + [category];
        }
        sums := sums[category := previous + r.amount];
      }
      i := i + 1;
    }
    assert txns[..i] == txns;
  }

  /** A category that is not a key has no plotted row, so its total is zero. */
  lemma {:induction false} UnlistedSumsToZero(txns: seq<Transaction>, c: string, labels: ChartLabels)
    requires c !in Order(txns, labels)
    ensures SumFor(txns, c, labels) == 0
  {
    if txns != [] {
      var p := txns[..|txns| - 1];
      OrderGrows(p, txns[|txns| - 1], labels);
      assert p + [txns[|txns| - 1]] == txns;
      UnlistedSumsToZero(p, c, labels);
    }
  }

  /** One more row only ever appends to the keys. */
  lemma OrderGrows(txns: seq<Transaction>, r: Transaction, labels: ChartLabels)
    ensures Order(txns + [r], labels)[..|Order(txns, labels)|] == Order(txns, labels)
    ensures |Order(txns + [r], labels)| >= |Order(txns, labels)|
  {
    assert (txns + [r])[..|txns|] == txns;
  }

  /** A category is a key exactly when some plotted row carries it. */
  lemma {:induction false} OrderMembers(txns: seq<Transaction>, labels: ChartLabels, c: string)
    ensures c in Order(txns, labels) <==> exists i :: 0 <= i < |txns| && Counted(txns[i], labels) && CategoryOf(txns[i], labels) == c
  {
    if txns != [] {
      var p := txns[..|txns| - 1];
      OrderMembers(p, labels, c);
      if exists i :: 0 <= i < |p| && Counted(p[i], labels) && CategoryOf(p[i], labels) == c {
        var i :| 0 <= i < |p| && Counted(p[i], labels) && CategoryOf(p[i], labels) == c;
        assert txns[i] == p[i];
      }
      if exists i :: 0 <= i < |txns| && Counted(txns[i], labels) && CategoryOf(txns[i], labels) == c {
        var i :| 0 <= i < |txns| && Counted(txns[i], labels) && CategoryOf(txns[i], labels) == c;
        if i < |p| {
          assert p[i] == txns[i];
        }
      }
    }
  }

  predicate Distinct(s: seq<string>)
  {
    forall j, k :: 0 <= j < k < |s| ==> s[j] != s[k]
  }

  /** No category is a key twice. */
  lemma {:induction false} OrderDistinct(txns: seq<Transaction>, labels: ChartLabels)
    ensures Distinct(Order(txns, labels))
  {
    if txns != [] {
      OrderDistinct(txns[..|txns| - 1], labels);
    }
  }

  /** Row `i` adds a key exactly when it is plotted and no earlier plotted row has its category. */
  lemma FirstOccurrenceAppends(txns: seq<Transaction>, labels: ChartLabels, i: nat)
    requires i < |txns|
    ensures Order(txns[..i + 1], labels)
         == if Counted(txns[i], labels)
               && !(exists j :: 0 <= j < i && Counted(txns[j], labels) && CategoryOf(txns[j], labels) == CategoryOf(txns[i], labels))
            then Order(txns[..i], labels) + [CategoryOf(txns[i], labels)]
            else Order(txns[..i], labels)
  {
    var p := txns[..i];
    assert txns[..i + 1][..i] == p;
    OrderMembers(p, labels, CategoryOf(txns[i], labels));
    if exists j :: 0 <= j < i && Counted(txns[j], labels) && CategoryOf(txns[j], labels) == CategoryOf(txns[i], labels) {
      var j :| 0 <= j < i && Counted(txns[j], labels) && CategoryOf(txns[j], labels) == CategoryOf(txns[i], labels);
      assert p[j] == txns[j];
    }
  }

  /** The totals of the categories `cs`, added up. */
  function SumOver(cs: seq<string>, txns: seq<Transaction>, labels: ChartLabels): int
  {
    if cs == [] then 0 else SumOver(cs[..|cs| - 1], txns, labels) + SumFor(txns, cs[|cs| - 1], labels)
  }

  /** One more row raises the added-up totals of distinct categories by its amount if its category is among them. */
  lemma {:induction false} SumOverBump(cs: seq<string>, txns: seq<Transaction>, r: Transaction, labels: ChartLabels)
    requires Distinct(cs)
    ensures SumOver(cs, txns + [r], labels)
         == SumOver(cs, txns, labels) + (if Counted(r, labels) && CategoryOf(r, labels) in cs then r.amount else 0)
  {
    assert (txns + [r])[..|txns|] == txns;
    if cs != [] {
      var init := cs[..|cs| - 1];
      assert Distinct(init);
      SumOverBump(init, txns, r, labels);
      assert cs == init + [cs[|cs| - 1]];
      assert CategoryOf(r, labels) in cs <==> CategoryOf(r, labels) in init || CategoryOf(r, labels) == cs[|cs| - 1];
      assert cs[|cs| - 1] !in init;
    }
  }

  /** The plotted totals add up to the amounts of all plotted rows: nothing is lost or counted twice. */
  lemma {:induction false} TotalsAddUp(txns: seq<Transaction>, labels: ChartLabels)
    ensures SumOver(Order(txns, labels), txns, labels) == CountedTotal(txns, labels)
  {
    if txns != [] {
      var p := txns[..|txns| - 1];
      var r := txns[|txns| - 1];
      assert p + [r] == txns;
      TotalsAddUp(p, labels);
      OrderDistinct(p, labels);
      var o := Order(p, labels);
      SumOverBump(o, p, r, labels);
      if Counted(r, labels) && CategoryOf(r, labels) !in o {
        UnlistedSumsToZero(p, CategoryOf(r, labels), labels);
        assert (o + [CategoryOf(r, labels)])[..|o|] == o;
      }
    }
  }

  /**
   * `generate_expense_chart` up to the plot: the bars `(category, total)` in key order,
   * or the `ValueError` carrying `t("no_expense_data", lang)` when no row is plotted.
   */
  method ExpenseBars(txns: seq<Transaction>, lang: Option<string>) returns (r: Result<seq<(string, int)>>)
    ensures r.Err? <==> forall i :: 0 <= i < |txns| ==> !Counted(txns[i], LabelsFor(lang))
    ensures r.Err? ==> r.message == I18n.Message("no_expense_data", lang)
    ensures r.Ok? ==> |r.value| == |Order(txns, LabelsFor(lang))|
    ensures r.Ok? ==> forall k :: 0 <= k < |r.value| ==>
              r.value[k] == (Order(txns, LabelsFor(lang))[k], SumFor(txns, Order(txns, LabelsFor(lang))[k], LabelsFor(lang)))
  {
    var labels := LabelsFor(lang);
    var keys, sums := CategorySums(txns, labels);
    if keys == [] {
      forall i | 0 <= i < |txns| ensures !Counted(txns[i], labels) {
        OrderMembers(txns, labels, CategoryOf(txns[i], labels));
      }
      return Err(I18n.Message("no_expense_data", lang));
    }
    OrderMembers(txns, labels, keys[0]);
    r := Ok(seq(|keys|, k requires 0 <= k < |keys| => (keys[k], sums[keys[k]])));
  }

  lemma DefaultCategoryZh() ensures I18n.Message("default_category", Some(I18n.ZhTw)) == "未分類" {}
  lemma IncomeZh() ensures I18n.Message("income", Some(I18n.ZhTw)) == "收入" {}
  lemma DefaultCategoryEn() ensures I18n.Message("default_category", Some(I18n.En)) == "Uncategorized" {}
  lemma IncomeEn() ensures I18n.Message("income", Some(I18n.En)) == "Income" {}

  /** In zh-TW (the language the text handler charts in) the default category is "未分類" and only "收入" is income. */
  lemma LabelsZh()
    ensures LabelsFor(Some(I18n.ZhTw)) == ChartLabels("未分類", "收入")
  {
    DefaultCategoryZh();
    IncomeZh();
  }

  /** In en the default category is "Uncategorized" and the income label is "income". */
  lemma LabelsEn()
    ensures LabelsFor(Some(I18n.En)) == ChartLabels("Uncategorized", "income")
  {
    DefaultCategoryEn();
    IncomeEn();
    assert Lower("Income") == "income";
  }

  /**
   * Only the income label of the chart's language is left out: in zh-TW a row filed under
   * "income" is plotted as an expense, one under "收入" is not, and a row without a
   * category is plotted under "未分類".
   */
  lemma OnlyLocalizedIncomeExcluded(amount: int)
    ensures Counted(Transaction("income", "income", Some(""), amount), LabelsFor(Some(I18n.ZhTw)))
    ensures !Counted(Transaction("income", "收入", Some(""), amount), LabelsFor(Some(I18n.ZhTw)))
    ensures CategoryOf(Transaction("expense", "", Some(""), amount), LabelsFor(Some(I18n.ZhTw))) == "未分類"
  {
    LabelsZh();
    assert Lower("income") == "income";
    assert Lower("收入") == "收入";
  }

  /** The income test ignores case: in en a row filed under "INCOME" is not plotted. */
  lemma IncomeIgnoresCase(amount: int)
    ensures !Counted(Transaction("income", "INCOME", Some(""), amount), LabelsFor(Some(I18n.En)))
  {
    LabelsEn();
    assert Lower("INCOME") == "income";
  }

  // ---------------------------------------------------------------------------
  // file names in the chart bucket

  /** `f"chart_{user_id}_{stamp}.png"`, the name `upload_chart_to_supabase` gives an upload; `stamp` is the UTC clock as `%Y%m%d%H%M%S`. */
  function ChartFileName(userId: string, stamp: string): string
  {
    "chart_" + userId + "_" + stamp + ".png"
  }

  /** `f"chart_{user_id}_"`, the prefix `delete_old_charts_for_user` removes. */
  function CleanupPrefix(userId: string): string
  {
    "chart_" + userId + "_"
  }

  /** `[f["name"] for f in files if f["name"].startswith(prefix)]`. */
  function ToDelete(names: seq<string>, userId: string): (r: seq<string>)
    ensures |r| <= |names|
    ensures forall n :: n in r <==> n in names && StartsWith(n, CleanupPrefix(userId))
  {
    if names == [] then []
    else
      var rest := ToDelete(names[1..], userId);
      assert forall n :: n in names <==> n == names[0] || n in names[1..];
      if StartsWith(names[0], CleanupPrefix(userId)) then [names[0]] + rest else rest
  }

  /** Every upload of a user is removed by that user's next cleanup. */
  lemma OwnUploadIsCleaned(names: seq<string>, userId: string, stamp: string)
    requires ChartFileName(userId, stamp) in names
    ensures ChartFileName(userId, stamp) in ToDelete(names, userId)
  {
    var n := ChartFileName(userId, stamp);
    var p := CleanupPrefix(userId);
    assert n == p + stamp + ".png";
    assert n[..|p|] == p;
  }

  /** For user ids without `_`, a cleanup prefix matches an upload name only when both belong to the same user. */
  lemma PrefixDeterminesUser(userId: string, other: string, stamp: string)
    requires '_' !in userId && '_' !in other
    ensures StartsWith(ChartFileName(other, stamp), CleanupPrefix(userId)) ==> userId == other
  {
    var n := ChartFileName(other, stamp);
    var p := CleanupPrefix(userId);
    if StartsWith(n, p) {
      assert forall j :: 0 <= j < |other| ==> n[6 + j] == other[j];
      assert forall j :: 0 <= j < |userId| ==> n[6 + j] == p[6 + j] == userId[j];
      assert n[6 + |userId|] == p[6 + |userId|] == '_';
      assert n[6 + |other|] == '_';
      assert |userId| == |other|;
      assert userId == n[6..6 + |userId|] == other;
    }
  }

  /** Hence, for such ids, a cleanup never touches another user's upload. */
  lemma CleanupSparesOthers(userId: string, other: string, stamp: string)
    requires '_' !in userId && '_' !in other && userId != other
    ensures !StartsWith(ChartFileName(other, stamp), CleanupPrefix(userId))
  {
    PrefixDeterminesUser(userId, other, stamp);
  }

  /** With `_` allowed in ids, the cleanup of user "a" would also remove the uploads of user "a_b". */
  lemma UnderscoreIdsOverlap(stamp: string)
    ensures StartsWith(ChartFileName("a_b", stamp), CleanupPrefix("a"))
  {
    assert ChartFileName("a_b", stamp)[..8] == "chart_a_";
  }
}
