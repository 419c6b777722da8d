/** Script-based language detection (`detect_lang_by_text` in apps/common/lang_utils.py). */
module LangUtils {
  import I18n

  /** A character of the CJK Unified Ideographs block, U+4E00 to U+9FFF inclusive. */
  predicate IsCjk(c: char)
  {
    '\U{4E00}' <= c <= '\U{9FFF}'
  }

  /** `any('一' <= c <= '鿿' for c in text)`, scanned from the front. */
  predicate HasCjk(text: string)
  {
    text != [] && (IsCjk(text[0]) || HasCjk(text[1..]))
  }

  /** The scan finds an ideograph exactly when the text holds one somewhere. */
  lemma {:induction false} HasCjkIff(text: string)
    ensures HasCjk(text) <==> exists i :: 0 <= i < |text| && IsCjk(text[i])
  {
    if text != [] {
      HasCjkIff(text[1..]);
      if exists i :: 0 <= i < |text| && IsCjk(text[i]) {
        var i :| 0 <= i < |text| && IsCjk(text[i]);
        if i > 0 {
          assert text[1..][i - 1] == text[i];
        }
      }
    }
  }

  /**
   * `detect_lang_by_text`: zh-TW when the text holds an ideograph, en otherwise.
   * The result is always one of the two languages the table defines.
   */
  function DetectLangByText(text: string): (r: string)
    ensures r == I18n.ZhTw || r == I18n.En
    ensures r == I18n.ZhTw <==> exists i :: 0 <= i < |text| && IsCjk(text[i])
  {
    HasCjkIff(text);
    if HasCjk(text) then I18n.ZhTw else I18n.En
  }

  /** The empty text is English. */
  lemma EmptyIsEnglish()
    ensures DetectLangByText("") == I18n.En
  {
  }

  /** Text without ideographs (Latin, digits, fullwidth punctuation such as "，") is English. */
  lemma NoIdeographIsEnglish(text: string)
    requires forall i :: 0 <= i < |text| ==> !IsCjk(text[i])
    ensures DetectLangByText(text) == I18n.En
  {
  }

  /** Detection distributes over concatenation: `a + b` is Chinese iff `a` or `b` is. */
  lemma DetectConcat(a: string, b: string)
    ensures DetectLangByText(a + b) == I18n.ZhTw
        <==> DetectLangByText(a) == I18n.ZhTw || DetectLangByText(b) == I18n.ZhTw
  {
    var ab := a + b;
    if DetectLangByText(ab) == I18n.ZhTw {
      var i :| 0 <= i < |ab| && IsCjk(ab[i]);
      if i < |a| {
        assert a[i] == ab[i];
      } else {
        assert b[i - |a|] == ab[i];
      }
    }
    if DetectLangByText(a) == I18n.ZhTw {
      var i :| 0 <= i < |a| && IsCjk(a[i]);
      assert ab[i] == a[i];
    }
    if DetectLangByText(b) == I18n.ZhTw {
      var i :| 0 <= i < |b| && IsCjk(b[i]);
      assert ab[|a| + i] == b[i];
    }
  }

  /** The fullwidth comma is outside the range, and one ideograph is enough. */
  lemma DetectExamples()
    ensures DetectLangByText("，") == I18n.En
    ensures DetectLangByText("coffee 80") == I18n.En
    ensures DetectLangByText("coffee 咖啡") == I18n.ZhTw
  {
    assert IsCjk("coffee 咖啡"[7]);
  }
}
