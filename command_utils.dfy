/**
 * First-match command normalisation (`COMMAND_PATTERNS` and `normalize_command`
 * in apps/handlers/command_utils.py).
 *
 * Each regular expression of the table is one of three shapes, searched anywhere
 * in the text as `re.search` does:
 *   `^w$`          Exact(w): the whole text, or the text with one final line break
 *   `w` or `w.*`   Anywhere(w): `w` occurs somewhere (a trailing `.*` may match nothing)
 *   `h.*(a|b|..)`  Then(h, [a, b, ..]): `h`, then on the same line one of the tails
 *                  (`.` does not match a line break); an optional group `(..)?` is
 *                  the alternation with one more, empty, alternative.
 */
module CommandUtils {
  import opened Text

  datatype Pattern =
    | Exact(word: string)
    | Anywhere(word: string)
    | Then(head: string, tails: seq<string>)

  const RecordPatterns: seq<Pattern> :=
    [Exact("記帳"), Exact("record"), Then("記", ["一下", "起來", "一下吧", "一下喔", ""]),
     Anywhere("幫我記"), Anywhere("我想記")]
  const CheckPatterns: seq<Pattern> :=
    [Exact("查帳"), Exact("check"), Then("我要看", ["帳"]), Then("最近", ["帳"]),
     Then("查看", ["帳"]), Anywhere("清單")]
  const SummaryPatterns: seq<Pattern> :=
    [Exact("summary"), Exact("本週總結"), Then("這週", ["花", "支出", "收入"]),
     Anywhere("週報"), Exact("本週總覽"), Exact("週總結")]
  const WeeklyDetailsPatterns: seq<Pattern> := [Exact("本週明細"), Exact("這週明細"), Exact("週明細")]
  const MonthlyPatterns: seq<Pattern> := [Exact("本月總結"), Exact("月總結")]
  const MonthlyDetailsPatterns: seq<Pattern> := [Exact("本月明細"), Exact("這月明細"), Exact("月明細")]
  const YearlyPatterns: seq<Pattern> := [Exact("今年總結"), Exact("年度總結"), Exact("年總結")]
  const YearlyDetailsPatterns: seq<Pattern> := [Exact("今年明細"), Exact("年度明細"), Exact("年明細")]

  /** `COMMAND_PATTERNS`: each command with its patterns, in the order `normalize_command` walks them. */
  const Commands: seq<(string, seq<Pattern>)> := [
    ("record", RecordPatterns), ("check", CheckPatterns), ("summary", SummaryPatterns),
    ("weekly_details", WeeklyDetailsPatterns), ("monthly", MonthlyPatterns),
    ("monthly_details", MonthlyDetailsPatterns), ("yearly", YearlyPatterns),
    ("yearly_details", YearlyDetailsPatterns)
  ]

  /** The command names of a table, in order. */
  function Names(table: seq<(string, seq<Pattern>)>): (names: seq<string>)
    ensures |names| == |table| && forall c :: 0 <= c < |table| ==> names[c] == table[c].0
  {
    seq(|table|, c requires 0 <= c < |table| => table[c].0)
  }

  /** The table holds exactly the eight commands, in this order. */
  lemma CommandNamesInOrder()
    ensures Names(Commands) ==
      ["record", "check", "summary", "weekly_details", "monthly", "monthly_details", "yearly", "yearly_details"]
  {
  }

  // ---------------------------------------------------------------------------
  // searching one pattern

  /** Tail `t` starts at or after `p` with no line break in between. */
  predicate TailOnLine(s: string, t: string, p: nat)
    decreases |s| + 1 - p
  {
    p <= |s| && (MatchAt(s, t, p) || (p < |s| && s[p] != '\n' && TailOnLine(s, t, p + 1)))
  }

  /** One of `tails[k..]` follows `p` on the same line. */
  predicate AnyTailOnLine(s: string, tails: seq<string>, p: nat, k: nat)
    decreases |tails| - k
  {
    k < |tails| && (TailOnLine(s, tails[k], p) || AnyTailOnLine(s, tails, p, k + 1))
  }

  /** `h.*(tails)` matches with `h` starting at or after `i`. */
  predicate ThenFrom(s: string, h: string, tails: seq<string>, i: nat)
    decreases |s| + 1 - i
  {
    i <= |s| && ((MatchAt(s, h, i) && AnyTailOnLine(s, tails, i + |h|, 0)) || ThenFrom(s, h, tails, i + 1))
  }

  /** `w` occurs at or after `i`. */
  predicate FoundFrom(s: string, w: string, i: nat)
    decreases |s| + 1 - i
  {
    i <= |s| && (MatchAt(s, w, i) || FoundFrom(s, w, i + 1))
  }

  /** `re.search(pattern, s)` finds a match. */
  predicate Matches(pat: Pattern, s: string)
  {
    match pat
    case Exact(w) => MatchAt(s, w, 0) && (|s| == |w| || (|s| == |w| + 1 && s[|w|] == '\n'))
    case Anywhere(w) => FoundFrom(s, w, 0)
    case Then(h, tails) => ThenFrom(s, h, tails, 0)
  }

  /** `^w$` matches the word itself, or the word followed by one final line break. */
  lemma ExactMeaning(w: string, s: string)
    ensures Matches(Exact(w), s) <==> s == w || s == w + "\n"
  {
    MatchAtSlice(s, w, 0);
    if s == w + "\n" {
      assert s[..|w|] == w;
    }
  }

  lemma {:induction false} FoundFromSound(s: string, w: string, i: nat)
    requires FoundFrom(s, w, i)
    ensures FindFrom(s, w, i).Some?
    decreases |s| + 1 - i
  {
    if !MatchAt(s, w, i) {
      FoundFromSound(s, w, i + 1);
    }
  }

  lemma {:induction false} FoundFromComplete(s: string, w: string, i: nat, k: nat)
    requires i <= k && MatchAt(s, w, k)
    ensures FoundFrom(s, w, i)
    decreases k - i
  {
    MatchAtSlice(s, w, k);
    if i < k {
      FoundFromComplete(s, w, i + 1, k);
    }
  }

  /** A word pattern `w` (or `w.*`) is found exactly when `w in s`. */
  lemma AnywhereMeaning(w: string, s: string)
    ensures Matches(Anywhere(w), s) <==> Contains(s, w)
  {
    if Matches(Anywhere(w), s) {
      FoundFromSound(s, w, 0);
    }
    if Contains(s, w) {
      FoundFromComplete(s, w, 0, FindFrom(s, w, 0).value);
    }
  }

  /** The regular-expression meaning of `h.*t`: `h` at `i`, `t` at `j`, no line break between them. */
  predicate ThenAt(s: string, h: string, t: string, i: nat, j: nat)
  {
    OccursAt(s, h, i) && i + |h| <= j && OccursAt(s, t, j)
    && forall k :: i + |h| <= k < j ==> s[k] != '\n'
  }

  lemma {:induction false} TailOnLineIff(s: string, t: string, p: nat)
    ensures TailOnLine(s, t, p) <==>
      exists j: nat :: p <= j && OccursAt(s, t, j) && forall k :: p <= k < j ==> s[k] != '\n'
    decreases |s| + 1 - p
  {
    MatchAtSlice(s, t, p);
    assert MatchAt(s, t, p) <==> OccursAt(s, t, p);
    if p < |s| {
      TailOnLineIff(s, t, p + 1);
      if TailOnLine(s, t, p) && !MatchAt(s, t, p) {
        assert s[p] != '\n' && TailOnLine(s, t, p + 1);
        var j: nat :| p + 1 <= j && OccursAt(s, t, j) && forall k :: p + 1 <= k < j ==> s[k] != '\n';
        assert forall k :: p <= k < j ==> s[k] != '\n';
      }
      if exists j: nat :: p <= j && OccursAt(s, t, j) && forall k :: p <= k < j ==> s[k] != '\n' {
        var j: nat :| p <= j && OccursAt(s, t, j) && forall k :: p <= k < j ==> s[k] != '\n';
        if j > p {
          assert s[p] != '\n';
          assert p + 1 <= j && OccursAt(s, t, j) && forall k :: p + 1 <= k < j ==> s[k] != '\n';
          assert TailOnLine(s, t, p + 1);
        }
      }
    } else {
      assert forall j: nat :: p <= j && OccursAt(s, t, j) ==> j == p && MatchAt(s, t, p);
    }
  }

  lemma {:induction false} AnyTailOnLineIff(s: string, tails: seq<string>, p: nat, k: nat)
    ensures AnyTailOnLine(s, tails, p, k) <==> exists m :: k <= m < |tails| && TailOnLine(s, tails[m], p)
    decreases |tails| - k
  {
    if k < |tails| {
      AnyTailOnLineIff(s, tails, p, k + 1);
    }
  }

  /** The search from `i` succeeds only at an occurrence of `h` at or after `i` followed by a tail. */
  lemma {:induction false} ThenFromSound(s: string, h: string, tails: seq<string>, i: nat) returns (k: nat)
    requires ThenFrom(s, h, tails, i)
    ensures i <= k && MatchAt(s, h, k) && AnyTailOnLine(s, tails, k + |h|, 0)
    decreases |s| + 1 - i
  {
    if MatchAt(s, h, i) && AnyTailOnLine(s, tails, i + |h|, 0) {
      k := i;
    } else {
      k := ThenFromSound(s, h, tails, i + 1);
    }
  }

  /** Every occurrence of `h` at or after `i` that a tail follows is found by the search from `i`. */
  lemma {:induction false} ThenFromComplete(s: string, h: string, tails: seq<string>, i: nat, k: nat)
    requires i <= k && MatchAt(s, h, k) && AnyTailOnLine(s, tails, k + |h|, 0)
    ensures ThenFrom(s, h, tails, i)
    decreases k - i
  {
    MatchAtSlice(s, h, k);
    if i < k {
      ThenFromComplete(s, h, tails, i + 1, k);
    }
  }

  /** A match of `h.*(tails)` found by the search is a match in the regular-expression sense. */
  lemma ThenSound(s: string, h: string, tails: seq<string>)
    requires Matches(Then(h, tails), s)
    ensures exists i: nat, j: nat, t :: t in tails && ThenAt(s, h, t, i, j)
  {
    var i := ThenFromSound(s, h, tails, 0);
    MatchAtSlice(s, h, i);
    AnyTailOnLineIff(s, tails, i + |h|, 0);
    var m :| 0 <= m < |tails| && TailOnLine(s, tails[m], i + |h|);
    TailOnLineIff(s, tails[m], i + |h|);
    var j: nat :| i + |h| <= j && OccursAt(s, tails[m], j) && forall k :: i + |h| <= k < j ==> s[k] != '\n';
    assert ThenAt(s, h, tails[m], i, j);
  }

  /** Every match in the regular-expression sense is found by the search. */
  lemma ThenComplete(s: string, h: string, tails: seq<string>, i: nat, j: nat, t: string)
    requires t in tails && ThenAt(s, h, t, i, j)
    ensures Matches(Then(h, tails), s)
  {
    MatchAtSlice(s, h, i);
    TailOnLineIff(s, t, i + |h|);
    assert TailOnLine(s, t, i + |h|);
    var m :| 0 <= m < |tails| && tails[m] == t;
    AnyTailOnLineIff(s, tails, i + |h|, 0);
    ThenFromComplete(s, h, tails, 0, i);
  }

  /**
   * `Then(h, tails)` is searched as the regular expression `h.*(t1|t2|..)`: some
   * occurrence of `h` is followed, on the same line, by one of the tails.
   */
  lemma ThenMeaning(s: string, h: string, tails: seq<string>)
    ensures Matches(Then(h, tails), s) <==>
      exists i: nat, j: nat, t :: t in tails && ThenAt(s, h, t, i, j)
  {
    if Matches(Then(h, tails), s) {
      ThenSound(s, h, tails);
    }
    if exists i: nat, j: nat, t :: t in tails && ThenAt(s, h, t, i, j) {
      var i: nat, j: nat, t :| t in tails && ThenAt(s, h, t, i, j);
      ThenComplete(s, h, tails, i, j, t);
    }
  }

  lemma {:induction false} EmptyTailAlwaysFollows(s: string, tails: seq<string>, p: nat, k: nat)
    requires p <= |s| && k <= |tails| && "" in tails[k..]
    ensures AnyTailOnLine(s, tails, p, k)
    decreases |tails| - k
  {
    if tails[k] != "" {
      assert "" in tails[k + 1..] by {
        var m :| 0 <= m < |tails[k..]| && tails[k..][m] == "";
        assert tails[k + 1..][m - 1] == "";
      }
      EmptyTailAlwaysFollows(s, tails, p, k + 1);
    }
  }

  lemma {:induction false} OptionalTailFrom(s: string, h: string, tails: seq<string>, i: nat)
    requires "" in tails
    ensures ThenFrom(s, h, tails, i) <==> FindFrom(s, h, i).Some?
    decreases |s| + 1 - i
  {
    MatchAtSlice(s, h, i);
    if i <= |s| {
      OptionalTailFrom(s, h, tails, i + 1);
      if MatchAt(s, h, i) {
        EmptyTailAlwaysFollows(s, tails, i + |h|, 0);
      }
    }
  }

  /** With an optional tail group, `h.*(..)?` matches exactly the texts that contain `h`. */
  lemma OptionalTail(s: string, h: string, tails: seq<string>)
    requires "" in tails
    ensures Matches(Then(h, tails), s) <==> Contains(s, h)
  {
    OptionalTailFrom(s, h, tails, 0);
  }

  /** On text that does not end in a line break (such as stripped text) `^w$` is plain equality. */
  lemma ExactOnStrippedText(w: string, s: string)
    requires s == [] || s[|s| - 1] != '\n'
    ensures Matches(Exact(w), s) <==> s == w
  {
    ExactMeaning(w, s);
  }

  // ---------------------------------------------------------------------------
  // walking a table

  /** Some pattern among `pats[k..]` matches. */
  predicate AnyPatternFrom(s: string, pats: seq<Pattern>, k: nat)
    decreases |pats| - k
  {
    k < |pats| && (Matches(pats[k], s) || AnyPatternFrom(s, pats, k + 1))
  }

  /** The first command at or after index `c` one of whose patterns matches; "" when none does. */
  function FirstMatchFrom(s: string, table: seq<(string, seq<Pattern>)>, c: nat): (r: string)
    ensures r == "" || exists d :: c <= d < |table| && r == table[d].0
    decreases |table| - c
  {
    if c >= |table| then ""
    else if AnyPatternFrom(s, table[c].1, 0) then table[c].0
    else FirstMatchFrom(s, table, c + 1)
  }

  /**
   * `normalize_command`: strip and lower the text, then return the first command of
   * the table (in table order) one of whose patterns is found in it, or "" when none is.
   */
  function NormalizeCommand(text: string): (r: string)
    ensures r == "" || r in Names(Commands)
  {
    FirstMatchFrom(Lower(Strip(text)), Commands, 0)
  }

  /** Command `c` of the table has a pattern that matches `s`. */
  predicate Hits(s: string, table: seq<(string, seq<Pattern>)>, c: nat)
    requires c < |table|
  {
    exists p :: p in table[c].1 && Matches(p, s)
  }

  lemma {:induction false} AnyPatternFromIff(s: string, pats: seq<Pattern>, k: nat)
    ensures AnyPatternFrom(s, pats, k) <==> exists m :: k <= m < |pats| && Matches(pats[m], s)
    decreases |pats| - k
  {
    if k < |pats| {
      AnyPatternFromIff(s, pats, k + 1);
    }
  }

  /** The walk returns the name of the first command that hits, or "" when none does. */
  lemma {:induction false} FirstMatchFromSpec(s: string, table: seq<(string, seq<Pattern>)>, c: nat)
    requires c <= |table| && forall d :: 0 <= d < |table| ==> table[d].0 != ""
    ensures FirstMatchFrom(s, table, c) == "" <==> forall d :: c <= d < |table| ==> !Hits(s, table, d)
    ensures forall d :: (c <= d < |table| && Hits(s, table, d) && (forall e :: c <= e < d ==> !Hits(s, table, e))
      ==> FirstMatchFrom(s, table, c) == table[d].0)
    decreases |table| - c
  {
    if c < |table| {
      AnyPatternFromIff(s, table[c].1, 0);
      assert AnyPatternFrom(s, table[c].1, 0) <==> Hits(s, table, c);
      FirstMatchFromSpec(s, table, c + 1);
    }
  }

  /**
   * The result is the first command, in table order, with a pattern found in the
   * stripped and lowered text, and "" exactly when no pattern at all is found.
   */
  lemma NormalizeFirstMatch(text: string)
    ensures NormalizeCommand(text) == "" <==>
      forall c :: 0 <= c < |Commands| ==> !Hits(Lower(Strip(text)), Commands, c)
    ensures forall c :: (0 <= c < |Commands| && Hits(Lower(Strip(text)), Commands, c)
                         && (forall d :: 0 <= d < c ==> !Hits(Lower(Strip(text)), Commands, d))
      ==> NormalizeCommand(text) == Commands[c].0)
  {
    CommandNamesInOrder();
    FirstMatchFromSpec(Lower(Strip(text)), Commands, 0);
  }

  // ---------------------------------------------------------------------------
  // consequences of the table

  /** A non-blank word found in a text is still found once the text is stripped and lowered. */
  lemma ContainsNormalized(text: string, w: string)
    requires w != [] && forall k :: 0 <= k < |w| ==> !IsSpace(w[k]) && !IsAsciiUpper(w[k]) && !IsAsciiLower(w[k])
    ensures Contains(Lower(Strip(text)), w) <==> Contains(text, w)
  {
    var a := StripShape(text);
    var t := Strip(text);
    ContainsLower(t, w);
    if Contains(t, w) {
      ContainsWithin(text, a, a + |t|, w);
    }
    if Contains(text, w) {
      ContainsIff(text, w);
      var i: nat :| OccursAt(text, w, i);
      assert !IsSpace(text[i]) && !IsSpace(text[i + |w| - 1]) by {
        assert text[i] == w[0] && text[i + |w| - 1] == w[|w| - 1];
      }
      assert a <= i && i + |w| <= a + |t|;
      assert OccursAt(t, w, i - a) by {
        assert t == text[a..a + |t|];
        forall k | 0 <= k < |w| ensures t[i - a + k] == w[k] {
          assert t[i - a + k] == text[i + k] == text[i..i + |w|][k];
        }
      }
      ContainsIff(t, w);
    }
  }

  /** A word that contains `w` brings `w` along. */
  lemma ContainsPart(s: string, big: string, at: nat, w: string)
    requires at + |w| <= |big| && big[at..at + |w|] == w
    requires Contains(s, big)
    ensures Contains(s, w)
  {
    ContainsIff(s, big);
    var i: nat :| OccursAt(s, big, i);
    assert OccursAt(s, w, i + at) by {
      forall k | 0 <= k < |w| ensures s[i + at + k] == w[k] {
        assert s[i..i + |big|][at + k] == big[at + k];
      }
    }
    ContainsIff(s, w);
  }

  lemma ExactHasJi(s: string)
    requires Matches(Exact("記帳"), s)
    ensures Contains(s, "記")
  {
    ExactMeaning("記帳", s);
    assert OccursAt(s, "記", 0);
    ContainsIff(s, "記");
  }

  lemma AnywhereHasJi(s: string, w: string)
    requires w == "幫我記" || w == "我想記"
    requires Matches(Anywhere(w), s)
    ensures Contains(s, "記")
  {
    AnywhereMeaning(w, s);
    ContainsPart(s, w, 2, "記");
  }

  /** The record pattern that matched, by its position in the list. */
  lemma RecordHit(s: string) returns (m: nat)
    requires Hits(s, Commands, 0)
    ensures m < |RecordPatterns| && Matches(RecordPatterns[m], s)
  {
    assert Commands[0].1 == RecordPatterns;
    var p :| p in RecordPatterns && Matches(p, s);
    m :| 0 <= m < |RecordPatterns| && RecordPatterns[m] == p;
  }

  /** Apart from the exact English word "record", every record pattern needs the character 記. */
  lemma RecordNeedsJi(s: string)
    requires Hits(s, Commands, 0)
    ensures Contains(s, "記") || s == "record" || s == "record\n"
  {
    var m := RecordHit(s);
    if m == 0 {
      ExactHasJi(s);
    } else if m == 1 {
      ExactMeaning("record", s);
    } else if m == 2 {
      OptionalTail(s, "記", ["一下", "起來", "一下吧", "一下喔", ""]);
    } else {
      AnywhereHasJi(s, RecordPatterns[m].word);
    }
  }

  /**
   * The unanchored `記.*(一下|起來|一下吧|一下喔)?` makes every text containing 記 a
   * record command, whatever else it says: "查看記帳" is "record", not "check".
   */
  lemma AnyJiIsRecord(text: string)
    requires Contains(text, "記")
    ensures NormalizeCommand(text) == "record"
  {
    var s := Lower(Strip(text));
    ContainsNormalized(text, "記");
    OptionalTail(s, "記", ["一下", "起來", "一下吧", "一下喔", ""]);
    assert Commands[0].1 == RecordPatterns && Matches(RecordPatterns[2], s);
    NormalizeFirstMatch(text);
  }

  /** Text that mentions 清單 but not 記 is the "check" command. */
  lemma QingdanIsCheck(text: string)
    requires Contains(text, "清單") && !Contains(text, "記")
    ensures NormalizeCommand(text) == "check"
  {
    var s := Lower(Strip(text));
    ContainsNormalized(text, "清單");
    ContainsNormalized(text, "記");
    if Hits(s, Commands, 0) {
      RecordNeedsJi(s);
    }
    AnywhereMeaning("清單", s);
    assert Commands[1].1 == CheckPatterns && Matches(CheckPatterns[5], s);
    NormalizeFirstMatch(text);
  }

  /** Text matching no pattern normalises to "". */
  lemma NoPatternIsEmpty(text: string)
    requires forall c :: 0 <= c < |Commands| ==> !Hits(Lower(Strip(text)), Commands, c)
    ensures NormalizeCommand(text) == ""
  {
    NormalizeFirstMatch(text);
  }

  // ---------------------------------------------------------------------------
  // the table evaluated on the sample commands, one pattern list at a time

  /** Text without blanks or capitals is its own stripped and lowered form. */
  lemma PlainText(text: string)
    requires forall k :: 0 <= k < |text| ==> !IsSpace(text[k]) && !IsAsciiUpper(text[k])
    ensures Lower(Strip(text)) == text
  {
    StripNoSpace(text);
    LowerFacts(text);
  }

  /** The table sees the stripped and lowered text. */
  lemma NormalizeNormalized(text: string, normalized: string)
    requires Lower(Strip(text)) == normalized
    ensures NormalizeCommand(text) == FirstMatchFrom(normalized, Commands, 0)
  {
  }

  /** The word of a pattern: `w` of `^w$` and `w.*`, the head `h` of `h.*(...)`. */
  function Lead(pat: Pattern): string
  {
    match pat
    case Exact(w) => w
    case Anywhere(w) => w
    case Then(h, _) => h
  }

  /** Every character of a pattern's word occurs in any text the pattern matches. */
  lemma MatchHasLeadChar(pat: Pattern, s: string, j: nat)
    requires j < |Lead(pat)|
    ensures Matches(pat, s) ==> Lead(pat)[j] in s
  {
    match pat
    case Exact(w) =>
      ExactMeaning(w, s);
      if Matches(pat, s) {
        assert s[j] == w[j];
      }
    case Anywhere(w) =>
      AnywhereMeaning(w, s);
      ContainsIff(s, w);
      if Matches(pat, s) {
        var i: nat :| OccursAt(s, w, i);
        assert s[i..i + |w|][j] == s[i + j];
      }
    case Then(h, tails) =>
      if Matches(pat, s) {
        ThenSound(s, h, tails);
        var i: nat, k: nat, t :| t in tails && ThenAt(s, h, t, i, k);
        assert s[i..i + |h|][j] == s[i + j];
      }
  }

  /** Pattern `k` misses because character `j` of its word is not in the text, and so do the later ones. */
  lemma MissStep(s: string, pats: seq<Pattern>, k: nat, j: nat)
    requires k < |pats| && j < |Lead(pats[k])| && Lead(pats[k])[j] !in s
    requires !AnyPatternFrom(s, pats, k + 1)
    ensures !AnyPatternFrom(s, pats, k)
  {
    MatchHasLeadChar(pats[k], s, j);
  }

  /** No record pattern matches a text without 記, r, 幫 and 我. */
  lemma RecordMiss(s: string)
    requires '記' !in s && 'r' !in s && '幫' !in s && '我' !in s
    ensures !AnyPatternFrom(s, RecordPatterns, 0)
  {
    var P := RecordPatterns;
    MissStep(s, P, 4, 0); MissStep(s, P, 3, 0); MissStep(s, P, 2, 0);
    MissStep(s, P, 1, 0); MissStep(s, P, 0, 0);
  }

  /** No check pattern matches a text without 查, c, 我, 最 and 清. */
  lemma CheckMiss(s: string)
    requires '查' !in s && 'c' !in s && '我' !in s && '最' !in s && '清' !in s
    ensures !AnyPatternFrom(s, CheckPatterns, 0)
  {
    var P := CheckPatterns;
    MissStep(s, P, 5, 0); MissStep(s, P, 4, 0); MissStep(s, P, 3, 0);
    MissStep(s, P, 2, 0); MissStep(s, P, 1, 0); MissStep(s, P, 0, 0);
  }

  lemma WeekSummaryMiss() ensures !AnyPatternFrom("本週明細", SummaryPatterns, 0)
  {
    var s, P := "本週明細", SummaryPatterns;
    MissStep(s, P, 5, 1); MissStep(s, P, 4, 2); MissStep(s, P, 3, 1);
    MissStep(s, P, 2, 0); MissStep(s, P, 1, 2); MissStep(s, P, 0, 0);
  }

  lemma MonthSummaryMiss() ensures !AnyPatternFrom("本月總結", SummaryPatterns, 0)
  {
    var s, P := "本月總結", SummaryPatterns;
    MissStep(s, P, 5, 0); MissStep(s, P, 4, 1); MissStep(s, P, 3, 0);
    MissStep(s, P, 2, 0); MissStep(s, P, 1, 1); MissStep(s, P, 0, 0);
  }

  lemma YearSummaryMiss() ensures !AnyPatternFrom("今年總結", SummaryPatterns, 0)
  {
    var s, P := "今年總結", SummaryPatterns;
    MissStep(s, P, 5, 0); MissStep(s, P, 4, 0); MissStep(s, P, 3, 0);
    MissStep(s, P, 2, 0); MissStep(s, P, 1, 0); MissStep(s, P, 0, 0);
  }

  /** A text that is exactly the word of pattern `k` hits the table row. */
  lemma ExactHit(s: string, pats: seq<Pattern>, k: nat)
    requires k < |pats| && pats[k] == Exact(s)
    ensures AnyPatternFrom(s, pats, k)
  {
    ExactMeaning(s, s);
  }

  lemma WeekExactHit() ensures AnyPatternFrom("本週明細", WeeklyDetailsPatterns, 0)
  {
    ExactHit("本週明細", WeeklyDetailsPatterns, 0);
  }

  lemma MonthExactHit()
    ensures !AnyPatternFrom("本月總結", WeeklyDetailsPatterns, 0) && AnyPatternFrom("本月總結", MonthlyPatterns, 0)
  {
    var s, P := "本月總結", WeeklyDetailsPatterns;
    MissStep(s, P, 2, 0); MissStep(s, P, 1, 0); MissStep(s, P, 0, 1);
    ExactHit(s, MonthlyPatterns, 0);
  }

  lemma YearExactHit()
    ensures !AnyPatternFrom("今年總結", WeeklyDetailsPatterns, 0) && !AnyPatternFrom("今年總結", MonthlyPatterns, 0)
    ensures !AnyPatternFrom("今年總結", MonthlyDetailsPatterns, 0) && AnyPatternFrom("今年總結", YearlyPatterns, 0)
  {
    var s := "今年總結";
    var W, M, D := WeeklyDetailsPatterns, MonthlyPatterns, MonthlyDetailsPatterns;
    MissStep(s, W, 2, 0); MissStep(s, W, 1, 0); MissStep(s, W, 0, 0);
    MissStep(s, M, 1, 0); MissStep(s, M, 0, 0);
    MissStep(s, D, 2, 0); MissStep(s, D, 1, 0); MissStep(s, D, 0, 0);
    ExactHit(s, YearlyPatterns, 0);
  }

  lemma CheckExactHit() ensures AnyPatternFrom("check", CheckPatterns, 0)
  {
    ExactHit("check", CheckPatterns, 1);
  }

  /** A row none of whose patterns matches passes the search on to the next row. */
  lemma SkipRow(s: string, table: seq<(string, seq<Pattern>)>, c: nat)
    requires c < |table| && !AnyPatternFrom(s, table[c].1, 0)
    ensures FirstMatchFrom(s, table, c) == FirstMatchFrom(s, table, c + 1)
  {
  }

  /** A row one of whose patterns matches ends the search with its command. */
  lemma TakeRow(s: string, table: seq<(string, seq<Pattern>)>, c: nat)
    requires c < |table| && AnyPatternFrom(s, table[c].1, 0)
    ensures FirstMatchFrom(s, table, c) == table[c].0
  {
  }

  lemma WeeklyDetailsTable()
    ensures FirstMatchFrom("本週明細", Commands, 0) == "weekly_details"
  {
    var s := "本週明細";
    RecordMiss(s); CheckMiss(s); WeekSummaryMiss(); WeekExactHit();
    TakeRow(s, Commands, 3);
    SkipRow(s, Commands, 2); SkipRow(s, Commands, 1); SkipRow(s, Commands, 0);
  }

  lemma MonthlyTable()
    ensures FirstMatchFrom("本月總結", Commands, 0) == "monthly"
  {
    var s := "本月總結";
    RecordMiss(s); CheckMiss(s); MonthSummaryMiss(); MonthExactHit();
    TakeRow(s, Commands, 4); SkipRow(s, Commands, 3);
    SkipRow(s, Commands, 2); SkipRow(s, Commands, 1); SkipRow(s, Commands, 0);
  }

  lemma YearlyTable()
    ensures FirstMatchFrom("今年總結", Commands, 0) == "yearly"
  {
    var s := "今年總結";
    RecordMiss(s); CheckMiss(s); YearSummaryMiss(); YearExactHit();
    TakeRow(s, Commands, 6); SkipRow(s, Commands, 5); SkipRow(s, Commands, 4); SkipRow(s, Commands, 3);
    SkipRow(s, Commands, 2); SkipRow(s, Commands, 1); SkipRow(s, Commands, 0);
  }

  lemma CheckTable()
    ensures FirstMatchFrom("check", Commands, 0) == "check"
  {
    RecordMiss("check"); CheckExactHit();
    TakeRow("check", Commands, 1); SkipRow("check", Commands, 0);
  }

  /** "本週明細" is the weekly details command. */
  lemma WeeklyDetailsExample()
    ensures NormalizeCommand("本週明細") == "weekly_details"
  {
    PlainText("本週明細");
    NormalizeNormalized("本週明細", "本週明細");
    WeeklyDetailsTable();
  }

  /** "本月總結" is the monthly command. */
  lemma MonthlyExample()
    ensures NormalizeCommand("本月總結") == "monthly"
  {
    PlainText("本月總結");
    NormalizeNormalized("本月總結", "本月總結");
    MonthlyTable();
  }

  /** "今年總結" is the yearly command. */
  lemma YearlyExample()
    ensures NormalizeCommand("今年總結") == "yearly"
  {
    PlainText("今年總結");
    NormalizeNormalized("今年總結", "今年總結");
    YearlyTable();
  }

  /** Matching ignores case and the blanks around the text: " CHECK " is the check command. */
  lemma UpperCheckExample()
    ensures NormalizeCommand(" CHECK ") == "check"
  {
    assert Strip(" CHECK ") == "CHECK";
    assert Lower("CHECK") == "check";
    NormalizeNormalized(" CHECK ", "check");
    CheckTable();
  }
}
