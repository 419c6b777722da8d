/**
 * The Python string primitives the bot's decision logic is built from:
 * character classes, `lower()`, `strip()`, `split()`, `startswith`, `in`,
 * `replace`, `int()`, `str()` of a number and `str.format` with named fields.
 * Strings are sequences of Unicode scalar values, as Python's `str` is.
 */
module Text {
  import opened Prelude

  /** Python's `str.isspace` set: what `strip()`, `split()` and the regex class `\s` treat as blank. */
  predicate IsSpace(c: char)
  {
    || ('\U{9}' <= c <= '\U{D}')
    || ('\U{1C}' <= c <= '\U{20}')
    || c == '\U{85}' || c == '\U{A0}' || c == '\U{1680}'
    || ('\U{2000}' <= c <= '\U{200A}')
    || c == '\U{2028}' || c == '\U{2029}' || c == '\U{202F}' || c == '\U{205F}' || c == '\U{3000}'
  }

  /** The regex class `\d`, restricted to ASCII digits. */
  predicate IsDigit(c: char)
  {
    '0' <= c <= '9'
  }

  predicate IsAsciiLower(c: char)
  {
    'a' <= c <= 'z'
  }

  predicate IsAsciiUpper(c: char)
  {
    'A' <= c <= 'Z'
  }

  /** The regex class `\w`: ASCII letters and digits, `_`, and the CJK unified ideographs. */
  predicate IsWordChar(c: char)
  {
    IsAsciiLower(c) || IsAsciiUpper(c) || IsDigit(c) || c == '_' || ('\U{4E00}' <= c <= '\U{9FFF}')
  }

  /** `lower()` on one character: the ASCII capitals move to their small letters, everything else stays. */
  function LowerChar(c: char): (r: char)
    ensures !IsAsciiUpper(r)
    ensures IsAsciiUpper(c) || r == c
  {
    if IsAsciiUpper(c) then (c as int + 32) as char else c
  }

  /** `s.lower()`, a character-by-character map. */
  function Lower(s: string): string
  {
    seq(|s|, i requires 0 <= i < |s| => LowerChar(s[i]))
  }

  predicate NoAsciiUpper(s: string)
  {
    forall i :: 0 <= i < |s| ==> !IsAsciiUpper(s[i])
  }

  /** Lowering is idempotent, changes no length, and leaves text without capitals alone. */
  lemma LowerFacts(s: string)
    ensures |Lower(s)| == |s| && NoAsciiUpper(Lower(s))
    ensures Lower(Lower(s)) == Lower(s)
    ensures NoAsciiUpper(s) ==> Lower(s) == s
  {
  }

  /** Lowering distributes over concatenation and slicing. */
  lemma LowerAppend(a: string, b: string)
    ensures Lower(a + b) == Lower(a) + Lower(b)
  {
  }

  lemma LowerSlice(s: string, i: nat, j: nat)
    requires i <= j <= |s|
    ensures Lower(s[i..j]) == Lower(s)[i..j]
  {
  }

  // ---------------------------------------------------------------------------
  // strip() and split()

  function StripStart(s: string): string
  {
    if |s| > 0 && IsSpace(s[0]) then StripStart(s[1..]) else s
  }

  function StripEnd(s: string): string
  {
    if |s| > 0 && IsSpace(s[|s| - 1]) then StripEnd(s[..|s| - 1]) else s
  }

  /** `s.strip()`: both ends lose their blanks. */
  function Strip(s: string): string
  {
    StripEnd(StripStart(s))
  }

  /** `StripStart` removes a prefix made of blanks only, and stops at a non-blank. */
  lemma {:induction false} StripStartShape(s: string)
    ensures |StripStart(s)| <= |s| && StripStart(s) == s[|s| - |StripStart(s)|..]
    ensures forall k :: 0 <= k < |s| - |StripStart(s)| ==> IsSpace(s[k])
    ensures StripStart(s) != [] ==> !IsSpace(StripStart(s)[0])
  {
    if |s| > 0 && IsSpace(s[0]) {
      StripStartShape(s[1..]);
    }
  }

  lemma {:induction false} StripEndShape(s: string)
    ensures |StripEnd(s)| <= |s| && StripEnd(s) == s[..|StripEnd(s)|]
    ensures forall k :: |StripEnd(s)| <= k < |s| ==> IsSpace(s[k])
    ensures StripEnd(s) != [] ==> !IsSpace(StripEnd(s)[|StripEnd(s)| - 1])
  {
    if |s| > 0 && IsSpace(s[|s| - 1]) {
      StripEndShape(s[..|s| - 1]);
    }
  }

  /**
   * `strip()` returns a contiguous piece of its input with no blank at either end,
   * and everything it cut away is blank.
   */
  lemma StripShape(s: string) returns (a: nat)
    ensures a + |Strip(s)| <= |s| && Strip(s) == s[a..a + |Strip(s)|]
    ensures forall k :: 0 <= k < a ==> IsSpace(s[k])
    ensures forall k :: a + |Strip(s)| <= k < |s| ==> IsSpace(s[k])
    ensures Strip(s) != [] ==> !IsSpace(Strip(s)[0]) && !IsSpace(Strip(s)[|Strip(s)| - 1])
  {
    StripStartShape(s);
    var t := StripStart(s);
    StripEndShape(t);
    a := |s| - |t|;
  }

  /** A text without blanks is its own strip. */
  lemma {:induction false} StripNoSpace(s: string)
    requires forall k :: 0 <= k < |s| ==> !IsSpace(s[k])
    ensures Strip(s) == s
  {
  }

  /** A text made only of blanks strips to the empty string. */
  lemma {:induction false} StripAllSpace(s: string)
    requires forall k :: 0 <= k < |s| ==> IsSpace(s[k])
    ensures Strip(s) == []
  {
    if s != [] {
      StripAllSpace(s[1..]);
    }
  }

  /** Length of the run of non-blank characters at the front of `s`. */
  function TokenLength(s: string): (n: nat)
    ensures n <= |s|
    ensures forall k :: 0 <= k < n ==> !IsSpace(s[k])
    ensures n < |s| ==> IsSpace(s[n])
  {
    if |s| > 0 && !IsSpace(s[0]) then 1 + TokenLength(s[1..]) else 0
  }

  /** Python's argument-less `s.split()`: the maximal runs of non-blank characters, in order. */
  function Words(s: string): (ws: seq<string>)
    ensures forall i :: 0 <= i < |ws| ==> ws[i] != []
    decreases |s|
  {
    if s == [] then []
    else if IsSpace(s[0]) then Words(s[1..])
    else
      var n := TokenLength(s);
      [s[..n]] + Words(s[n..])
  }

  /** Python's `s.split(sep)` for a one-character separator. */
  function SplitOn(s: string, sep: char): (parts: seq<string>)
    ensures |parts| >= 1
    decreases |s|
  {
    if sep in s then
      var i := IndexOfChar(s, sep);
      [s[..i]] + SplitOn(s[i + 1..], sep)
    else
      [s]
  }

  /** The first position of `c` in `s`. */
  function IndexOfChar(s: string, c: char): (i: nat)
    requires c in s
    ensures i < |s| && s[i] == c && c !in s[..i]
  {
    if s[0] == c then 0 else 1 + IndexOfChar(s[1..], c)
  }

  /** `sep.join(parts)` for a one-character separator. */
  function Join(parts: seq<string>, sep: char): string
  {
    if parts == [] then []
    else if |parts| == 1 then parts[0]
    else parts[0] + [sep] + Join(parts[1..], sep)
  }

  /** Joining parts that do not contain the separator and splitting again gives the parts back. */
  lemma {:induction false} SplitJoin(parts: seq<string>, sep: char)
    requires |parts| >= 1
    requires forall i :: 0 <= i < |parts| ==> sep !in parts[i]
    ensures SplitOn(Join(parts, sep), sep) == parts
  {
    if |parts| > 1 {
      var head, tail := parts[0], Join(parts[1..], sep);
      var s := head + [sep] + tail;
      assert Join(parts, sep) == s;
      assert sep !in head;
      SplitAtFirst(head, tail, sep);
      SplitJoin(parts[1..], sep);
      assert parts == [head] + parts[1..];
    } else {
      assert Join(parts, sep) == parts[0];
    }
  }

  /** Splitting `head + sep + tail` where `head` has no separator peels `head` off. */
  lemma SplitAtFirst(head: string, tail: string, sep: char)
    requires sep !in head
    ensures SplitOn(head + [sep] + tail, sep) == [head] + SplitOn(tail, sep)
  {
    var s := head + [sep] + tail;
    assert s[|head|] == sep;
    assert s[..|head|] == head;
    assert s[|head| + 1..] == tail;
    IndexOfCharAt(s, sep, |head|);
  }

  /** The first occurrence is the one with no earlier occurrence. */
  lemma {:induction false} IndexOfCharAt(s: string, c: char, k: nat)
    requires k < |s| && s[k] == c && c !in s[..k]
    ensures c in s && IndexOfChar(s, c) == k
  {
    if k > 0 {
      assert s[0] == s[..k][0];
      assert s[1..][k - 1] == c;
      assert s[1..][..k - 1] == s[..k][1..];
      IndexOfCharAt(s[1..], c, k - 1);
    }
  }

  // ---------------------------------------------------------------------------
  // startswith, `in`, replace

  /** `s.startswith(p)`. */
  predicate StartsWith(s: string, p: string)
  {
    |p| <= |s| && s[..|p|] == p
  }

  /** `p` occurs in `s` at position `i`, compared character by character. */
  predicate MatchAt(s: string, p: string, i: nat)
  {
    MatchAtFrom(s, p, i, 0)
  }

  /** `p[j..]` occurs in `s` at position `i + j`, and all of `p` fits in `s`. */
  predicate MatchAtFrom(s: string, p: string, i: nat, j: nat)
    decreases |p| - j
  {
    if j >= |p| then i + |p| <= |s|
    else i + j < |s| && s[i + j] == p[j] && MatchAtFrom(s, p, i, j + 1)
  }

  lemma {:induction false} MatchAtFromSlice(s: string, p: string, i: nat, j: nat)
    requires j <= |p|
    ensures MatchAtFrom(s, p, i, j) <==> i + |p| <= |s| && s[i + j..i + |p|] == p[j..]
    decreases |p| - j
  {
    if j < |p| {
      MatchAtFromSlice(s, p, i, j + 1);
      if i + |p| <= |s| && s[i + j..i + |p|] == p[j..] {
        assert s[i + j] == s[i + j..i + |p|][0] == p[j];
        assert s[i + j + 1..i + |p|] == s[i + j..i + |p|][1..];
      }
      if MatchAtFrom(s, p, i, j) {
        assert s[i + j..i + |p|] == [s[i + j]] + s[i + j + 1..i + |p|];
        assert p[j..] == [p[j]] + p[j + 1..];
      }
    }
  }

  lemma MatchAtSlice(s: string, p: string, i: nat)
    ensures MatchAt(s, p, i) <==> i + |p| <= |s| && s[i..i + |p|] == p
  {
    MatchAtFromSlice(s, p, i, 0);
  }

  /** The first position at or after `i` where `p` occurs in `s`. */
  function FindFrom(s: string, p: string, i: nat): (r: Option<nat>)
    ensures r.Some? ==> i <= r.value && MatchAt(s, p, r.value)
    ensures forall k :: i <= k && (r.None? || k < r.value) ==> !MatchAt(s, p, k)
    decreases |s| + 1 - i
  {
    MatchAtSlice(s, p, i);
    if i + |p| > |s| then
      assert forall k :: i <= k ==> !MatchAt(s, p, k) by {
        forall k | i <= k ensures !MatchAt(s, p, k) { MatchAtSlice(s, p, k); }
      }
      None
    else if MatchAt(s, p, i) then Some(i)
    else FindFrom(s, p, i + 1)
  }

  /** Python's `p in s` for strings. */
  predicate Contains(s: string, p: string)
  {
    FindFrom(s, p, 0).Some?
  }

  /** `p` is the slice of `s` that starts at `i`. */
  predicate OccursAt(s: string, p: string, i: nat)
  {
    i + |p| <= |s| && s[i..i + |p|] == p
  }

  /** `p in s` holds exactly when some slice of `s` equals `p`. */
  lemma ContainsIff(s: string, p: string)
    ensures Contains(s, p) <==> exists i: nat :: OccursAt(s, p, i)
  {
    var r := FindFrom(s, p, 0);
    if r.Some? {
      MatchAtSlice(s, p, r.value);
      assert OccursAt(s, p, r.value);
    }
    forall i: nat | OccursAt(s, p, i)
      ensures Contains(s, p)
    {
      MatchAtSlice(s, p, i);
    }
  }

  /** A substring of a slice is a substring of the whole. */
  lemma ContainsWithin(s: string, a: nat, b: nat, p: string)
    requires a <= b <= |s|
    requires Contains(s[a..b], p)
    ensures Contains(s, p)
  {
    ContainsIff(s[a..b], p);
    var i: nat :| OccursAt(s[a..b], p, i);
    assert OccursAt(s, p, a + i) by {
      assert i + |p| <= b - a;
      forall k | 0 <= k < |p| ensures s[a + i + k] == p[k] {
        assert s[a..b][i..i + |p|][k] == p[k];
      }
    }
    ContainsIff(s, p);
  }

  /** Lowering cannot create or destroy an occurrence of a word that has no ASCII letters. */
  lemma ContainsLower(s: string, p: string)
    requires forall k :: 0 <= k < |p| ==> !IsAsciiUpper(p[k]) && !IsAsciiLower(p[k])
    ensures Contains(Lower(s), p) <==> Contains(s, p)
  {
    ContainsIff(s, p);
    ContainsIff(Lower(s), p);
    forall i: nat
      ensures OccursAt(Lower(s), p, i) <==> OccursAt(s, p, i)
    {
      if OccursAt(Lower(s), p, i) {
        forall k | 0 <= k < |p| ensures s[i + k] == p[k] {
          assert Lower(s)[i + k] == p[k];
        }
      }
    }
  }

  /** `s.replace(p, "")`: every non-overlapping occurrence of `p`, scanned left to right, is removed. */
  function RemoveAll(s: string, p: string): string
    requires p != []
    decreases |s|
  {
    if s == [] then []
    else if StartsWith(s, p) then RemoveAll(s[|p|..], p)
    else [s[0]] + RemoveAll(s[1..], p)
  }

  /** Every occurrence of a non-empty pattern starts with its first character. */
  lemma ContainsFirstChar(s: string, p: string)
    requires p != []
    ensures Contains(s, p) ==> p[0] in s
  {
    ContainsIff(s, p);
    if Contains(s, p) {
      var i: nat :| OccursAt(s, p, i);
      assert s[i..i + |p|][0] == s[i];
    }
  }

  /** A pattern whose first character is absent from `s` does not occur in it. */
  lemma AbsentFirstChar(s: string, p: string)
    requires p != [] && p[0] !in s
    ensures !Contains(s, p)
  {
    ContainsFirstChar(s, p);
  }

  /** Removing a pattern whose first character is absent changes nothing. */
  lemma {:induction false} RemoveAllAbsent(s: string, p: string)
    requires p != [] && p[0] !in s
    ensures RemoveAll(s, p) == s
    decreases |s|
  {
    if s != [] {
      assert s[0] != p[0];
      assert !StartsWith(s, p) by {
        if |p| <= |s| { assert s[..|p|][0] == s[0]; }
      }
      assert p[0] !in s[1..] by {
        forall k | 0 <= k < |s[1..]| ensures s[1..][k] != p[0] { assert s[1..][k] == s[k + 1]; }
      }
      RemoveAllAbsent(s[1..], p);
      assert s == [s[0]] + s[1..];
    }
  }

  /** A leading occurrence is dropped. */
  lemma RemoveAllLeading(p: string, rest: string)
    requires p != []
    ensures RemoveAll(p + rest, p) == RemoveAll(rest, p)
  {
    assert (p + rest)[..|p|] == p;
    assert (p + rest)[|p|..] == rest;
  }

  // ---------------------------------------------------------------------------
  // numbers

  predicate AllDigits(s: string)
  {
    forall i :: 0 <= i < |s| ==> IsDigit(s[i])
  }

  /** The value of a string of decimal digits, most significant first, as Python's `int()` reads it. */
  function DigitsValue(s: string): nat
    requires AllDigits(s)
  {
    if s == [] then 0 else 10 * DigitsValue(s[..|s| - 1]) + (s[|s| - 1] as int - '0' as int)
  }

  /** Python's `str(n)` for a natural number. */
  function NatToString(n: nat): string
  {
    if n < 10 then [('0' as int + n) as char]
    else NatToString(n / 10) + [('0' as int + n % 10) as char]
  }

  /** Python's `str(x)` for an integer. */
  function IntToString(x: int): string
  {
    if x < 0 then "-" + NatToString(-x) else NatToString(x)
  }

  /** `str(n)` is a non-empty string of digits that reads back as `n`, with no leading zero unless it is "0". */
  lemma {:induction false} NatToStringRoundTrip(n: nat)
    ensures NatToString(n) != [] && AllDigits(NatToString(n))
    ensures DigitsValue(NatToString(n)) == n
    ensures |NatToString(n)| > 1 ==> NatToString(n)[0] != '0'
  {
    if n >= 10 {
      NatToStringRoundTrip(n / 10);
      var s := NatToString(n);
      assert s[..|s| - 1] == NatToString(n / 10);
    }
  }

  /**
   * Python's `int(s)` for a string: surrounding blanks are allowed, then an optional
   * sign, then at least one digit; anything else raises `ValueError` (here `None`).
   */
  function ParseInt(s: string): (r: Option<int>)
  {
    var t := Strip(s);
    if t != [] && (t[0] == '-' || t[0] == '+') && |t| > 1 && AllDigits(t[1..]) then
      Some(if t[0] == '-' then -(DigitsValue(t[1..]) as int) else DigitsValue(t[1..]))
    else if t != [] && AllDigits(t) then Some(DigitsValue(t))
    else None
  }

  /** `int(str(n)) == n`. */
  lemma ParseIntNatToString(n: nat)
    ensures ParseInt(NatToString(n)) == Some(n)
  {
    NatToStringRoundTrip(n);
    var s := NatToString(n);
    assert forall k :: 0 <= k < |s| ==> !IsSpace(s[k]);
    StripNoSpace(s);
  }

  // ---------------------------------------------------------------------------
  // str.format with named fields

  /** `{name}` as it appears in a template. */
  function Field(name: string): string
  {
    "{" + name + "}"
  }

  /** The value of the first binding whose field starts the template at `i`. */
  function FieldAt(tpl: string, i: nat, binds: seq<(string, string)>): (r: Option<(nat, string)>)
    ensures r.Some? ==> r.value.0 >= 2
  {
    if binds == [] then None
    else if MatchAt(tpl, Field(binds[0].0), i) then Some((|Field(binds[0].0)|, binds[0].1))
    else FieldAt(tpl, i, binds[1..])
  }

  /**
   * `tpl.format(name=value, ...)`: a single left-to-right pass that replaces each
   * `{name}` field of the template; text that comes from a value is never rescanned.
   */
  function Format(tpl: string, binds: seq<(string, string)>): string
    decreases |tpl|
  {
    FormatFrom(tpl, 0, binds)
  }

  function FormatFrom(tpl: string, i: nat, binds: seq<(string, string)>): string
    decreases |tpl| - i
  {
    if i >= |tpl| then []
    else match FieldAt(tpl, i, binds)
      case Some((n, v)) => v + FormatFrom(tpl, i + n, binds)
      case None => [tpl[i]] + FormatFrom(tpl, i + 1, binds)
  }

  /** Text without a `{` passes through `format` unchanged. */
  lemma {:induction false} FormatPlain(tpl: string, i: nat, binds: seq<(string, string)>)
    requires i <= |tpl|
    requires forall k :: i <= k < |tpl| ==> tpl[k] != '{'
    ensures FormatFrom(tpl, i, binds) == tpl[i..]
    decreases |tpl| - i
  {
    if i < |tpl| {
      FieldAtNeedsBrace(tpl, i, binds);
      FormatPlain(tpl, i + 1, binds);
    }
  }

  /** A field can only start at a `{`. */
  lemma {:induction false} FieldAtNeedsBrace(tpl: string, i: nat, binds: seq<(string, string)>)
    requires i < |tpl| && tpl[i] != '{'
    ensures FieldAt(tpl, i, binds).None?
    decreases |binds|
  {
    if binds != [] {
      assert !MatchAt(tpl, Field(binds[0].0), i) by {
        assert Field(binds[0].0)[0] == '{';
      }
      FieldAtNeedsBrace(tpl, i, binds[1..]);
    }
  }

  /** A template made of one leading field and plain text: the value, then the text. */
  lemma FormatLeadingField(name: string, rest: string, v: string)
    requires forall k :: 0 <= k < |rest| ==> rest[k] != '{'
    ensures Format(Field(name) + rest, [(name, v)]) == v + rest
  {
    var tpl := Field(name) + rest;
    var n := |Field(name)|;
    assert MatchAt(tpl, Field(name), 0) by {
      assert tpl[0..n] == Field(name);
      MatchAtSlice(tpl, Field(name), 0);
    }
    FormatPlain(tpl, n, [(name, v)]);
    assert tpl[n..] == rest;
  }
}
