/**
 * Java's `String.split("\\s+", 2)`, which the bot uses to separate the `/start`
 * command token from its argument.
 *
 * With a positive limit of 2 the pattern is applied at most once: the text is cut
 * at its leftmost maximal run of whitespace, the remainder is kept whole (internal
 * and trailing whitespace included), and a trailing empty remainder is kept. When
 * there is no whitespace at all the result is the one-element array holding the text.
 */
module JavaSplit {

  /** A member of Java's predefined regular-expression class `\s`, that is `[ \t\n\x0B\f\r]`. */
  predicate IsWhitespace(c: char)
  {
    c == ' ' || c == '\t' || c == '\n' || c == '\r' || c as int == 0x0B || c as int == 0x0C
  }

  predicate NoWhitespace(s: string)
  {
    forall k :: 0 <= k < |s| ==> !IsWhitespace(s[k])
  }

  predicate AllWhitespace(s: string)
  {
    forall k :: 0 <= k < |s| ==> IsWhitespace(s[k])
  }

  /** Where the leftmost match of `\s+` starts: the first whitespace index, or `|s|` if there is none. */
  function FirstWhitespace(s: string): (i: nat)
    ensures i <= |s|
    ensures NoWhitespace(s[..i])
    ensures i < |s| ==> IsWhitespace(s[i])
  {
    if s == [] || IsWhitespace(s[0]) then 0 else 1 + FirstWhitespace(s[1..])
  }

  /** How far a greedy `\s+` match starting at the front of `s` reaches. */
  function LeadingWhitespace(s: string): (n: nat)
    ensures n <= |s|
    ensures AllWhitespace(s[..n])
    ensures n < |s| ==> !IsWhitespace(s[n])
  {
    if s != [] && IsWhitespace(s[0]) then 1 + LeadingWhitespace(s[1..]) else 0
  }

  /**
   * `text` consists of `head` (free of whitespace), then a non-empty run of
   * whitespace, then `tail`, which does not start with whitespace: the run is maximal.
   */
  ghost predicate SplitsAs(text: string, head: string, tail: string)
  {
    && |head| < |text| - |tail|
    && text[..|head|] == head
    && text[|text| - |tail|..] == tail
    && NoWhitespace(head)
    && AllWhitespace(text[|head|..|text| - |tail|])
    && (tail == [] || !IsWhitespace(tail[0]))
  }

  /** `text.split("\\s+", 2)`. */
  function Split2(text: string): (parts: seq<string>)
    ensures |parts| == 1 || |parts| == 2
    ensures |parts| == 1 <==> NoWhitespace(text)
    ensures |parts| == 1 ==> parts[0] == text
    ensures |parts| == 2 ==> SplitsAs(text, parts[0], parts[1])
  {
    var i := FirstWhitespace(text);
    if i == |text| then
      assert text[..i] == text;
      [text]
    else
      var j := i + LeadingWhitespace(text[i..]);
      assert text[i..][..j - i] == text[i..j];
      [text[..i], text[j..]]
  }

  /** A text splits in at most one way: the head and the tail are determined by the text. */
  lemma SplitsAsUnique(text: string, head: string, tail: string, head': string, tail': string)
    requires SplitsAs(text, head, tail) && SplitsAs(text, head', tail')
    ensures head == head' && tail == tail'
  {
    // the separator of each split starts where the other's head would still hold a non-whitespace character
    assert IsWhitespace(text[|head|]) by { assert text[|head|] == text[|head|..|text| - |tail|][0]; }
    assert IsWhitespace(text[|head'|]) by { assert text[|head'|] == text[|head'|..|text| - |tail'|][0]; }
    assert forall k :: 0 <= k < |head| ==> text[k] == head[k];
    assert forall k :: 0 <= k < |head'| ==> text[k] == head'[k];
    assert |head| == |head'|;
    // each tail starts just after a maximal run, so neither tail can start inside the other's run
    var p, p' := |text| - |tail|, |text| - |tail'|;
    assert forall k :: |head| <= k < p ==> IsWhitespace(text[k]) by {
      forall k | |head| <= k < p ensures IsWhitespace(text[k]) {
        var sep := text[|head|..p];
        assert AllWhitespace(sep);
        assert IsWhitespace(sep[k - |head|]);
        assert text[k] == sep[k - |head|];
      }
    }
    assert forall k :: |head| <= k < p' ==> IsWhitespace(text[k]) by {
      forall k | |head| <= k < p' ensures IsWhitespace(text[k]) {
        var sep := text[|head|..p'];
        assert AllWhitespace(sep);
        assert IsWhitespace(sep[k - |head|]);
        assert text[k] == sep[k - |head|];
      }
    }
    assert p < |text| ==> text[p] == tail[0];
    assert p' < |text| ==> text[p'] == tail'[0];
    assert p == p';
  }

  /** The split is exactly the decomposition `SplitsAs` describes: any such decomposition is the result. */
  lemma Split2Characterised(text: string, head: string, tail: string)
    requires SplitsAs(text, head, tail)
    ensures Split2(text) == [head, tail]
  {
    var parts := Split2(text);
    assert IsWhitespace(text[|head|]) by { assert text[|head|] == text[|head|..|text| - |tail|][0]; }
    assert |parts| == 2;
    SplitsAsUnique(text, head, tail, parts[0], parts[1]);
  }
}
