/**
 * The postback dispatcher (`handle_postback` in apps/handlers/postback_handler.py): the
 * payload tests, the parsing of `delete_N` and `SYNC_CATEGORY_YES|keyword|category`,
 * and what each branch writes and replies.
 *
 * The database reads (the user's language, the transactions whose message contains the
 * keyword) arrive as parameters; the writes come back as a list next to the replies.
 */
module PostbackHandler {
  import opened Prelude
  import opened Text
  import I18n
  import opened Rows
  import ReplyService
  import MessageHandler

  const DeletePrefix: string := "delete_"
  const SyncYesPrefix: string := MessageHandler.SyncYesTag
  const SyncNoPrefix: string := MessageHandler.SyncNoPayload

  /** What a payload asks for, after the prefix tests and the splitting. */
  datatype Payload =
    | Delete(index: int)
    | DeleteMalformed
    | SyncYes(keyword: string, category: string)
    | SyncYesMalformed
    | SyncNo
    | Ignored

  /**
   * The prefixes are tried in the order of the `if`/`elif` chain; `delete_N` reads
   * `int(data.split("_")[1])` and the sync payload must split into exactly three
   * `|`-separated fields.
   */
  function ParsePayload(data: string): (p: Payload)
    ensures p.Delete? || p.DeleteMalformed? <==> StartsWith(data, DeletePrefix)
    ensures p.SyncYes? || p.SyncYesMalformed? <==> !StartsWith(data, DeletePrefix) && StartsWith(data, SyncYesPrefix)
    ensures p.SyncNo? <==>
              !StartsWith(data, DeletePrefix) && !StartsWith(data, SyncYesPrefix) && StartsWith(data, SyncNoPrefix)
    ensures p.SyncYes? ==> |SplitOn(data, '|')| == 3 && '|' !in p.keyword && '|' !in p.category
    ensures p.SyncYesMalformed? ==> |SplitOn(data, '|')| != 3
    ensures p.Delete? ==> |SplitOn(data, '_')| >= 2 && ParseInt(SplitOn(data, '_')[1]) == Some(p.index)
  {
    if StartsWith(data, DeletePrefix) then
      assert data[6] == data[..7][6] == '_';
      var parts := SplitOn(data, '_');
      match ParseInt(parts[1])
      case Some(n) => Delete(n)
      case None => DeleteMalformed
    else if StartsWith(data, SyncYesPrefix) then
      var parts := SplitOn(data, '|');
      if |parts| == 3 then
        SplitOnParts(data, '|');
        SyncYes(parts[1], parts[2])
      else SyncYesMalformed
    else if StartsWith(data, SyncNoPrefix) then SyncNo
    else Ignored
  }

  // ---------------------------------------------------------------------------
  // splitting on one character

  /** No part of a split holds the separator. */
  lemma {:induction false} SplitOnParts(s: string, sep: char)
    ensures forall i :: 0 <= i < |SplitOn(s, sep)| ==> sep !in SplitOn(s, sep)[i]
    decreases |s|
  {
    if sep in s {
      var i := IndexOfChar(s, sep);
      SplitOnParts(s[i + 1..], sep);
    }
  }

  /** A split has one part more than the separator has occurrences. */
  lemma {:induction false} SplitOnCount(s: string, sep: char)
    ensures |SplitOn(s, sep)| == multiset(s)[sep] + 1
    decreases |s|
  {
    if sep in s {
      var i := IndexOfChar(s, sep);
      assert s == s[..i] + [sep] + s[i + 1..];
      assert multiset(s[..i])[sep] == 0;
      calc {
        multiset(s)[sep];
        multiset(s[..i] + [sep] + s[i + 1..])[sep];
        multiset(s[..i])[sep] + 1 + multiset(s[i + 1..])[sep];
      }
      SplitOnCount(s[i + 1..], sep);
    } else {
      assert multiset(s)[sep] == 0;
    }
  }

  // ---------------------------------------------------------------------------
  // round trips with the payloads the reply builders emit

  /** The payload of a delete button, `f"delete_{n}"`, reads back as `n`. */
  lemma DeletePayloadRoundTrip(n: nat)
    ensures ParsePayload(ReplyService.DeleteData(n)) == Delete(n)
  {
    var d := NatToString(n);
    NatToStringRoundTrip(n);
    assert '_' !in d by {
      forall k | 0 <= k < |d| ensures d[k] != '_' { assert IsDigit(d[k]); }
    }
    var data := ReplyService.DeleteData(n);
    assert data[..7] == DeletePrefix;
    assert Join(["delete", d], '_') == data;
    SplitJoin(["delete", d], '_');
    ParseIntNatToString(n);
  }

  /** Every delete button of the check listing deletes the record on its line. */
  lemma CheckButtonsRoundTrip(records: seq<RecentRecord>, tx: MessageHandler.HandlerTexts, i: nat)
    requires i < |MessageHandler.CheckListing(records, tx).actions|
    ensures ParsePayload(MessageHandler.CheckListing(records, tx).actions[i].data) == Delete(i + 1)
  {
    DeletePayloadRoundTrip(i + 1);
  }

  /** The "yes" payload starts with its own prefix and not with the delete prefix. */
  lemma SyncPayloadPrefix(keyword: string, category: string)
    ensures var data := MessageHandler.SyncYesPayload(keyword, category);
            !StartsWith(data, DeletePrefix) && StartsWith(data, SyncYesPrefix)
  {
    var data := MessageHandler.SyncYesPayload(keyword, category);
    assert data == SyncYesPrefix + ("|" + keyword + "|" + category);
    assert data[..17] == SyncYesPrefix;
    assert data[0] == 'S';
  }

  /** The "yes" payload splits into two fields more than its keyword and category hold `|`s. */
  lemma SyncPayloadFields(keyword: string, category: string)
    ensures |SplitOn(MessageHandler.SyncYesPayload(keyword, category), '|')|
         == multiset(keyword)['|'] + multiset(category)['|'] + 3
  {
    var data := MessageHandler.SyncYesPayload(keyword, category);
    assert multiset(SyncYesPrefix)['|'] == 0 by {
      assert '|' !in SyncYesPrefix;
    }
    assert multiset(data)['|'] == multiset(keyword)['|'] + multiset(category)['|'] + 2 by {
      assert multiset(data) == multiset(SyncYesPrefix) + multiset("|") + multiset(keyword) + multiset("|") + multiset(category);
    }
    SplitOnCount(data, '|');
  }

  /** Without `|` in the keyword and the category, the "yes" payload splits into its three fields. */
  lemma SyncPayloadSplits(keyword: string, category: string)
    requires '|' !in keyword && '|' !in category
    ensures SplitOn(MessageHandler.SyncYesPayload(keyword, category), '|') == [SyncYesPrefix, keyword, category]
  {
    assert '|' !in SyncYesPrefix;
    assert Join([category], '|') == category;
    assert Join([keyword, category], '|') == keyword + "|" + category by {
      assert [keyword, category][1..] == [category];
    }
    assert Join([SyncYesPrefix, keyword, category], '|') == MessageHandler.SyncYesPayload(keyword, category) by {
      assert [SyncYesPrefix, keyword, category][1..] == [keyword, category];
    }
    SplitJoin([SyncYesPrefix, keyword, category], '|');
  }

  /**
   * The "yes" payload `f"SYNC_CATEGORY_YES|{keyword}|{category}"` gives back the keyword
   * and the category exactly when neither holds a `|`; otherwise the split has too many
   * fields and the payload is malformed.
   */
  lemma SyncPayloadRoundTrip(keyword: string, category: string)
    ensures ParsePayload(MessageHandler.SyncYesPayload(keyword, category))
         == if '|' !in keyword && '|' !in category then SyncYes(keyword, category) else SyncYesMalformed
  {
    SyncPayloadPrefix(keyword, category);
    SyncPayloadFields(keyword, category);
    if '|' !in keyword && '|' !in category {
      SyncPayloadSplits(keyword, category);
    } else {
      assert multiset(keyword)['|'] + multiset(category)['|'] > 0;
    }
  }

  /** The "no" payload is the decline. */
  lemma SyncNoPayloadParses()
    ensures ParsePayload(MessageHandler.SyncNoPayload) == SyncNo
  {
    var data := MessageHandler.SyncNoPayload;
    assert data[..16] == SyncNoPrefix;
    assert !StartsWith(data, DeletePrefix) by { assert data[0] != DeletePrefix[0]; }
    assert !StartsWith(data, SyncYesPrefix) by { assert |data| < |SyncYesPrefix|; }
  }

  /**
   * The two buttons of the confirm template answer as intended for a keyword and a
   * category without `|`.
   */
  lemma ConfirmTemplateRoundTrip(text: string, keyword: string, category: string)
    requires '|' !in keyword && '|' !in category
    ensures var c := MessageHandler.ConfirmTemplate(text, keyword, category);
            ParsePayload(c.yes.data) == SyncYes(keyword, category) && ParsePayload(c.no.data) == SyncNo
  {
    SyncPayloadRoundTrip(keyword, category);
    SyncNoPayloadParses();
  }

  /** A keyword with a `|`, which the add-category pattern accepts, breaks the sync. */
  lemma PipeKeywordBreaksSync()
    ensures MessageHandler.AddCategoryMatch("新增分類：a|b=food") == Some(("a|b", "food"))
    ensures ParsePayload(MessageHandler.SyncYesPayload("a|b", "food")) == SyncYesMalformed
  {
    PipeKeywordAccepted();
    assert "a|b"[1] == '|';
    SyncPayloadRoundTrip("a|b", "food");
  }

  lemma PipeKeywordAccepted()
    ensures MessageHandler.AddCategoryMatch("新增分類：a|b=food") == Some(("a|b", "food"))
  {
    PipePlainPair();
    assert "新增分類：a|b=food" == "新增分類：" + "a|b" + "=" + "food";
    MessageHandler.AddCategoryZhRoundTrip("新增分類：a|b=food", "a|b", "food");
    PipeLowered();
  }

  lemma PipePlainPair()
    ensures MessageHandler.PlainPair("", "a|b", "food")
  {
    assert forall k :: 0 <= k < |"a|b"| ==> "a|b"[k] in "a|b";
    assert forall k :: 0 <= k < |"food"| ==> "food"[k] in "food";
  }

  lemma PipeLowered()
    ensures Lower("a|b") == "a|b" && Lower("food") == "food"
  {
    assert NoAsciiUpper("a|b") && NoAsciiUpper("food");
    LowerFacts("a|b");
    LowerFacts("food");
  }

  /** `int("x")` fails: "delete_x" is a malformed delete, which raises. */
  lemma NonNumericDeleteIsMalformed()
    ensures ParsePayload("delete_x") == DeleteMalformed
  {
    assert "delete_x"[..7] == DeletePrefix;
    assert Join(["delete", "x"], '_') == "delete_x";
    SplitJoin(["delete", "x"], '_');
    assert Strip("x") == "x" by { StripNoSpace("x"); }
  }

  // ---------------------------------------------------------------------------
  // the handler

  /** The database writes of the postback branches. */
  datatype Write = DeleteRecord(index: int) | UpdateCategory(id: int, category: string)

  /** The writes and text replies of one postback, or the exception that ends it. */
  datatype Outcome = Answered(writes: seq<Write>, replies: seq<string>) | Raised(error: string)

  /** The localized strings the handler looks up with `t(..., lang)`. */
  datatype PostbackTexts = PostbackTexts(deleteNth: string, syncPrompt: string, categoryAdded: string, addFormatError: string)

  function PostbackTextsFor(lang: Option<string>): PostbackTexts
  {
    PostbackTexts(I18n.Message("delete_nth", lang), I18n.Message("category_sync_prompt", lang),
                  I18n.Message("category_added", lang), I18n.Message("category_add_format_error", lang))
  }

  /** The three lines of the sync reply: the prompt, the mapping, the count of updated records. */
  function SyncReply(keyword: string, category: string, count: nat, tx: PostbackTexts): string
  {
    var binds := [("keyword", keyword), ("category", category)];
    "✅ " + Format(tx.syncPrompt, binds) + "\n" + Format(tx.categoryAdded, binds) + "\n"
      + Format(tx.deleteNth, [("n", NatToString(count))])
  }

  /** The loop over `matched_records`: one category update per record, in order. */
  method SyncUpdates(matched: seq<MatchedTransaction>, category: string) returns (writes: seq<Write>)
    ensures |writes| == |matched|
    ensures forall i :: 0 <= i < |matched| ==> writes[i] == UpdateCategory(matched[i].id, category)
  {
    writes := [];
    var i := 0;
    while i < |matched|
      invariant 0 <= i <= |matched|
      invariant |writes| == i
      invariant forall k :: 0 <= k < i ==> writes[k] == UpdateCategory(matched[k].id, category)
    {
      writes := writes + [UpdateCategory(matched[i].id, category)];
      i := i + 1;
    }
  }

  /**
   * What `handle_postback` answers for the payload `data`, with the localized strings `tx`
   * and the transactions `matched` that the keyword search returns: a delete removes the
   * record and confirms it; a well-formed YES updates every matched record and reports the
   * mapping and the count; a malformed YES, a NO and an unknown payload write nothing.
   */
  predicate PostbackAnswer(data: string, tx: PostbackTexts, matched: seq<MatchedTransaction>, o: Outcome)
  {
    match ParsePayload(data)
    case Delete(n) => o == Answered([DeleteRecord(n)], [Format(tx.deleteNth, [("n", IntToString(n))])])
    case DeleteMalformed => o.Raised?
    case SyncYes(keyword, category) =>
      && o.Answered? && |o.writes| == |matched|
      && (forall i :: 0 <= i < |matched| ==> o.writes[i] == UpdateCategory(matched[i].id, category))
      && o.replies == [SyncReply(keyword, category, |matched|, tx)]
    case SyncYesMalformed => o == Answered([], ["❗" + tx.addFormatError])
    case SyncNo => o == Answered([], [tx.syncPrompt])
    case Ignored => o == Answered([], [])
  }

  /** `handle_postback` for the payload `data`, with the strings `tx` and the matched transactions. */
  method Respond(data: string, tx: PostbackTexts, matched: seq<MatchedTransaction>) returns (o: Outcome)
    ensures PostbackAnswer(data, tx, matched, o)
    ensures o.Raised? <==> ParsePayload(data).DeleteMalformed?
  {
    match ParsePayload(data)
    case Delete(n) =>
      o := Answered([DeleteRecord(n)], [Format(tx.deleteNth, [("n", IntToString(n))])]);
    case DeleteMalformed =>
      // `int()` raises `ValueError` outside any `try`
      o := Raised("ValueError: invalid literal for int()");
    case SyncYes(keyword, category) =>
      var writes := SyncUpdates(matched, category);
      o := Answered(writes, [SyncReply(keyword, category, |matched|, tx)]);
    case SyncYesMalformed =>
      o := Answered([], ["❗" + tx.addFormatError]);
    case SyncNo =>
      o := Answered([], [tx.syncPrompt]);
    case Ignored =>
      o := Answered([], []);
  }

  /** `handle_postback` with the strings of the user's stored language. */
  method HandlePostback(data: string, lang: Option<string>, matched: seq<MatchedTransaction>) returns (o: Outcome)
    ensures PostbackAnswer(data, PostbackTextsFor(lang), matched, o)
    ensures o.Raised? <==> ParsePayload(data).DeleteMalformed?
  {
    o := Respond(data, PostbackTextsFor(lang), matched);
  }
}
