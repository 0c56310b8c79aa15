/** The cell-formatting helpers of the dashboard (main.go:96-132): the
    colour choice for counts, fixed-width truncation, the type initial, the
    state glyph, and the test for error queues. */
module Cells {
  import opened Wrappers
  import opened GoStrings

  const ErrorToken: Bytes := Ascii("error")
  const Running: Bytes := Ascii("running")
  const Ellipsis: Bytes := Ascii("...")
  const Dash: Bytes := Ascii("-")
  /** U+2713 CHECK MARK, as the three bytes of its UTF-8 encoding. */
  const CheckMark: Bytes := [0xE2, 0x9C, 0x93]
  /** U+2717 BALLOT X, as the three bytes of its UTF-8 encoding. */
  const CrossMark: Bytes := [0xE2, 0x9C, 0x97]

  /** `s` equals the lower-case string `lowered` when ASCII case is ignored. */
  predicate FoldEquals(s: Bytes, lowered: Bytes)
  {
    |s| == |lowered| && forall i :: 0 <= i < |s| ==> LowerByte(s[i]) == lowered[i]
  }

  // ----- isErrorQueue -----

  /** A queue is an error queue when its name, ignoring case, starts or ends
      with "error". */
  predicate IsErrorQueue(queueName: Bytes)
  {
    HasPrefix(ToLower(queueName), ErrorToken) || HasSuffix(ToLower(queueName), ErrorToken)
  }

  /** Byte by byte: the first five or the last five bytes spell "error" in
      any mix of upper and lower case. */
  lemma ErrorQueueBytes(queueName: Bytes)
    ensures IsErrorQueue(queueName) <==>
              |queueName| >= 5 &&
              (FoldEquals(queueName[..5], ErrorToken) ||
               FoldEquals(queueName[|queueName| - 5..], ErrorToken))
  {
    if |queueName| >= 5 {
      var lower := ToLower(queueName);
      assert lower[..5] == ErrorToken <==> FoldEquals(queueName[..5], ErrorToken);
      assert lower[|lower| - 5..] == ErrorToken <==> FoldEquals(queueName[|queueName| - 5..], ErrorToken);
    }
  }

  /** Two names that differ only in the case of ASCII letters are both error
      queues or both not. */
  lemma ErrorQueueIgnoresCase(a: Bytes, b: Bytes)
    requires ToLower(a) == ToLower(b)
    ensures IsErrorQueue(a) == IsErrorQueue(b)
  {
  }

  lemma UpperCasePrefixIsErrorQueue()
    ensures IsErrorQueue(Ascii("ERROR-queue"))
  {
    var name := Ascii("ERROR-queue");
    assert name[0] == 69 && name[1] == 82 && name[2] == 82 && name[3] == 79 && name[4] == 82;
    assert ErrorToken == [101, 114, 114, 111, 114];
    assert FoldEquals(name[..5], ErrorToken);
  }

  lemma SuffixIsErrorQueue()
    ensures IsErrorQueue(Ascii("payments-error"))
  {
    var name := Ascii("payments-error");
    assert name[9] == 101 && name[10] == 114 && name[11] == 114 && name[12] == 111 && name[13] == 114;
    assert ErrorToken == [101, 114, 114, 111, 114];
    assert FoldEquals(name[9..], ErrorToken);
  }

  lemma NonErrorQueueExamples()
    ensures !IsErrorQueue(Ascii("orders"))
    ensures !IsErrorQueue(Ascii("err"))
  {
    var orders := Ascii("orders");
    assert LowerByte(orders[..5][0]) != ErrorToken[0];
    assert LowerByte(orders[1..][0]) != ErrorToken[0];
  }

  // ----- colorizeNumber -----

  datatype Colour = Green | Yellow | Red

  /** The three colour bands of a count: zero, below 100 (negatives included),
      and 100 or more. */
  function ColourOf(n: int): (c: Colour)
    ensures c == Green <==> n == 0
    ensures c == Yellow <==> n != 0 && n < 100
    ensures c == Red <==> n >= 100
  {
    if n == 0 then Green else if n < 100 then Yellow else Red
  }

  function ForegroundStyle(c: Colour): Bytes
  {
    match c
    case Green => Ascii("fg:green")
    case Yellow => Ascii("fg:yellow")
    case Red => Ascii("fg:red")
  }

  /** termui's inline markup `[text](style)`. */
  function Styled(text: Bytes, style: Bytes): Bytes
  {
    Ascii("[") + text + Ascii("](") + style + Ascii(")")
  }

  /** A count as a coloured cell: its decimal numeral styled with the colour
      of its band. */
  function ColorizeNumber(n: int): Bytes
  {
    if n == 0 then Styled(Decimal(n), Ascii("fg:green"))
    else if n < 100 then Styled(Decimal(n), Ascii("fg:yellow"))
    else Styled(Decimal(n), Ascii("fg:red"))
  }

  /** The cell is the decimal numeral of the count in the colour of its band. */
  lemma ColorizeNumberStyle(n: int)
    ensures ColorizeNumber(n) == Styled(Decimal(n), ForegroundStyle(ColourOf(n)))
  {
  }

  predicate NoCloseBracket(t: Bytes)
  {
    forall i :: 0 <= i < |t| ==> t[i] != 93
  }

  /** Where a close bracket cannot occur in the text, the markup determines
      the text. */
  lemma StyledText(t1: Bytes, s1: Bytes, t2: Bytes, s2: Bytes)
    requires NoCloseBracket(t1) && NoCloseBracket(t2)
    requires Styled(t1, s1) == Styled(t2, s2)
    ensures t1 == t2
  {
    var r := Styled(t1, s1);
    assert r[1 + |t1|] == 93;
    assert Styled(t2, s2)[1 + |t2|] == 93;
    assert |t1| == |t2|;
    assert r[1..1 + |t1|] == t1;
    assert Styled(t2, s2)[1..1 + |t2|] == t2;
  }

  /** Two different counts never produce the same cell. */
  lemma ColorizeNumberInjective(a: int, b: int)
    requires ColorizeNumber(a) == ColorizeNumber(b)
    ensures a == b
  {
    var da, db := Decimal(a), Decimal(b);
    ColorizeNumberStyle(a);
    ColorizeNumberStyle(b);
    DecimalChars(a);
    DecimalChars(b);
    StyledText(da, ForegroundStyle(ColourOf(a)), db, ForegroundStyle(ColourOf(b)));
    DecimalInjective(a, b);
  }

  // ----- truncateString -----

  /** The inputs on which truncateString returns instead of panicking: a
      string longer than `maxLength` is cut at `maxLength - 3`, which must not
      be negative. */
  predicate TruncateDefined(s: Bytes, maxLength: int)
  {
    |s| <= maxLength || maxLength >= 3
  }

  /** Pads `s` with spaces to exactly `maxLength` bytes, or cuts it and ends
      it with "..." so that it is exactly `maxLength` bytes. */
  function TruncateString(s: Bytes, maxLength: int): (r: Bytes)
    requires TruncateDefined(s, maxLength)
    ensures |r| == maxLength
  {
    if s == [] then Spaces(maxLength)
    else if |s| <= maxLength then s + Spaces(maxLength - |s|)
    else s[..maxLength - 3] + Ellipsis
  }

  /** A short string is kept and padded with spaces; a long one keeps its
      first `maxLength - 3` bytes and ends in "...". The empty string falls
      under the first case. */
  lemma TruncateStringContents(s: Bytes, maxLength: int)
    requires TruncateDefined(s, maxLength)
    ensures s == [] ==> TruncateString(s, maxLength) == Spaces(maxLength)
    ensures |s| <= maxLength ==>
              TruncateString(s, maxLength)[..|s|] == s &&
              forall i :: |s| <= i < maxLength ==> TruncateString(s, maxLength)[i] == Space
    ensures |s| > maxLength ==>
              TruncateString(s, maxLength)[..maxLength - 3] == s[..maxLength - 3] &&
              TruncateString(s, maxLength)[maxLength - 3..] == Ellipsis
  {
  }

  /** A cell already of the right width is left as it is. */
  lemma TruncateIdempotent(s: Bytes, maxLength: int)
    requires TruncateDefined(s, maxLength)
    ensures TruncateDefined(TruncateString(s, maxLength), maxLength)
    ensures TruncateString(TruncateString(s, maxLength), maxLength) == TruncateString(s, maxLength)
  {
    var r := TruncateString(s, maxLength);
    assert r + Spaces(0) == r;
  }

  lemma {:induction false} TrimPadding(s: Bytes, n: nat)
    ensures TrimTrailingSpaces(s + Spaces(n)) == TrimTrailingSpaces(s)
    decreases n
  {
    if n > 0 {
      var t := s + Spaces(n);
      assert t[..|t| - 1] == s + Spaces(n - 1);
      TrimPadding(s, n - 1);
    } else {
      assert s + Spaces(0) == s;
    }
  }

  /** Padding is the only change to a short cell: trimming the trailing spaces
      gives back the original text. */
  lemma TruncatePaddingRoundTrip(s: Bytes, maxLength: int)
    requires |s| <= maxLength
    requires s == [] || s[|s| - 1] != Space
    ensures TrimTrailingSpaces(TruncateString(s, maxLength)) == s
  {
    TrimPadding(s, maxLength - |s|);
    assert [] + Spaces(maxLength) == Spaces(maxLength);
  }

  // ----- safeGetFirstChar -----

  /** The first byte of `s` as a one-rune string, or "-" for the empty string. */
  function SafeGetFirstChar(s: Bytes): (r: Bytes)
    ensures |s| == 0 ==> r == Dash
    ensures |s| > 0 ==> DecodeShortRune(r) == Some(s[0] as int)
    ensures |s| > 0 && s[0] < 0x80 ==> r == s[..1]
    ensures |r| == 1 || |r| == 2
  {
    if |s| > 0 then ByteToString(s[0]) else Dash
  }

  // ----- getStateIndicator -----

  /** A check mark for a queue whose state is "running" in any case, a cross
      otherwise. */
  function GetStateIndicator(state: Bytes): (r: Bytes)
    ensures r == CheckMark || r == CrossMark
  {
    if ToLower(state) == Running then CheckMark else CrossMark
  }

  lemma StateIndicatorCases(state: Bytes)
    ensures GetStateIndicator(state) == CheckMark <==> FoldEquals(state, Running)
    ensures GetStateIndicator(state) == CrossMark <==> !FoldEquals(state, Running)
  {
    if FoldEquals(state, Running) {
      assert ToLower(state) == Running;
    }
  }
}
