/**
 The ranges of complete ledgers that an XRPL server reports, merged, and the check that they cover a profile's whole
 history.
 */
module LedgerRanges {
  import opened Base

  datatype Range = Range(min: int, max: int)

  datatype RangeError =
    | SOURCE_RESPONSE_INVALID
    | SOURCE_HISTORY_INCOMPLETE
    | SOURCE_NETWORK_MISMATCH

  // ---- Reading the text ----------------------------------------------------------------------------

  predicate IsDigit(c: char) {
    '0' <= c <= '9'
  }

  /** White space and line terminators as String.prototype.trim removes them. */
  predicate IsBlank(c: char) {
    var code := c as int;
    || 0x9 <= code <= 0xD || code == 0x20 || code == 0xA0 || code == 0x1680 || 0x2000 <= code <= 0x200A
    || code == 0x2028 || code == 0x2029 || code == 0x202F || code == 0x205F || code == 0x3000 || code == 0xFEFF
  }

  predicate AreDigits(s: string) {
    s != "" && forall i :: 0 <= i < |s| ==> IsDigit(s[i])
  }

  function NumberOf(s: string): nat
    requires forall i :: 0 <= i < |s| ==> IsDigit(s[i])
  {
    if s == "" then 0
    else
      assert IsDigit(s[|s| - 1]);
      10 * NumberOf(s[..|s| - 1]) + (s[|s| - 1] as int - '0' as int)
  }

  function TrimLeft(s: string): (t: string)
    ensures |t| <= |s|
  {
    if s != "" && IsBlank(s[0]) then TrimLeft(s[1..]) else s
  }

  function Trim(s: string): (t: string)
    decreases |s|
  {
    var t := TrimLeft(s);
    if t != "" && IsBlank(t[|t| - 1]) then Trim(t[..|t| - 1]) else t
  }

  function IndexOfChar(s: string, c: char): (i: nat)
    ensures i <= |s|
  {
    if s == "" || s[0] == c then 0 else 1 + IndexOfChar(s[1..], c)
  }

  function SplitOn(s: string, c: char): seq<string>
    decreases |s|
  {
    var i := IndexOfChar(s, c);
    if i == |s| then [s] else [s[..i]] + SplitOn(s[i + 1..], c)
  }

  function RangeOf(part: string): Option<Range> {
    var text := Trim(part);
    var dash := IndexOfChar(text, '-');
    var low := text[..dash];
    var high := if dash == |text| then low else text[dash + 1..];
    if !AreDigits(low) || !AreDigits(high) then None
    else
      var min, max := NumberOf(low), NumberOf(high);
      if min > UINT32_MAX || max > UINT32_MAX || min > max then None else Some(Range(min, max))
  }

  function RangesOf(parts: seq<string>): Option<seq<Range>> {
    if parts == [] then Some([])
    else
      var first, rest := RangeOf(parts[0]), RangesOf(parts[1..]);
      if first.None? || rest.None? then None else Some([first.value] + rest.value)
  }

  /** The ranges as reported, before they are sorted and merged. */
  function Reported(text: string): Result<seq<Range>, RangeError> {
    if text == "" || text == "empty" then Err(SOURCE_HISTORY_INCOMPLETE)
    else
      var ranges := RangesOf(SplitOn(text, ','));
      if ranges.None? then Err(SOURCE_RESPONSE_INVALID) else Ok(ranges.value)
  }

  lemma {:induction false} ReportedAreProper(parts: seq<string>)
    ensures RangesOf(parts).Some? ==> Proper(RangesOf(parts).value)
    decreases |parts|
  {
    if parts != [] { ReportedAreProper(parts[1..]); }
  }

  // ---- What a text says --------------------------------------------------------------------------------

  /** A number in decimal, without leading zeros. */
  function Decimal(n: nat): string {
    (if n < 10 then "" else Decimal(n / 10)) + [('0' as int + n % 10) as char]
  }

  predicate AreZeros(s: string) {
    forall i :: 0 <= i < |s| ==> s[i] == '0'
  }

  predicate AreBlanks(s: string) {
    forall i :: 0 <= i < |s| ==> IsBlank(s[i])
  }

  /** The pieces of one part: blanks around one number, or around two numbers with a dash between them. */
  datatype Piece = Piece(before: string, lowZeros: string, dashed: bool, highZeros: string, after: string)

  predicate IsPiece(p: Piece, r: Range) {
    && AreBlanks(p.before) && AreBlanks(p.after) && AreZeros(p.lowZeros) && AreZeros(p.highZeros)
    && (p.dashed || r.min == r.max)
  }

  function TextOf(p: Piece, r: Range): string
    requires 0 <= r.min && 0 <= r.max
  {
    var low, high := p.lowZeros + Decimal(r.min), p.highZeros + Decimal(r.max);
    p.before + (if p.dashed then low + "-" + high else low) + p.after
  }

  /** Parts with commas between them. */
  function Commas(parts: seq<string>): string {
    if parts == [] then ""
    else if |parts| == 1 then parts[0]
    else parts[0] + "," + Commas(parts[1..])
  }

  /** The text lists exactly these ranges in this order, however the pieces are padded. */
  predicate Lists(text: string, pieces: seq<Piece>, ranges: seq<Range>) {
    && |pieces| == |ranges| > 0
    && (forall i :: 0 <= i < |ranges| ==> 0 <= ranges[i].min <= ranges[i].max <= 0xFFFF_FFFF && IsPiece(pieces[i], ranges[i]))
    && text == Commas(seq(|ranges|, i requires 0 <= i < |ranges| => TextOf(pieces[i], ranges[i])))
  }

  // Numbers.

  lemma {:induction false} DecimalFacts(n: nat)
    ensures AreDigits(Decimal(n)) && NumberOf(Decimal(n)) == n
  {
    if n >= 10 { DecimalFacts(n / 10); }
    var s := Decimal(n);
    assert s[..|s| - 1] == if n < 10 then "" else Decimal(n / 10);
  }

  lemma {:induction false} ZerosAdd(zeros: string, s: string)
    requires AreZeros(zeros) && AreDigits(s)
    ensures AreDigits(zeros + s) && NumberOf(zeros + s) == NumberOf(s)
    decreases |s|
  {
    var all := zeros + s;
    assert all[..|all| - 1] == zeros + s[..|s| - 1];
    if |s| > 1 {
      ZerosAdd(zeros, s[..|s| - 1]);
    } else {
      ZerosAreZero(zeros);
      assert s[..0] == "" && zeros + "" == zeros;
    }
  }

  lemma {:induction false} ZerosAreZero(zeros: string)
    requires AreZeros(zeros)
    ensures (forall i :: 0 <= i < |zeros| ==> IsDigit(zeros[i])) && NumberOf(zeros) == 0
    decreases |zeros|
  {
    if zeros != "" { ZerosAreZero(zeros[..|zeros| - 1]); }
  }

  lemma OneDigit(d: nat)
    requires d < 10
    ensures Decimal(d) == [('0' as int + d) as char]
  {
  }

  lemma OneMoreDigit(n: nat, d: nat)
    requires n > 0 && d < 10
    ensures Decimal(10 * n + d) == Decimal(n) + [('0' as int + d) as char]
  {
    assert (10 * n + d) / 10 == n && (10 * n + d) % 10 == d;
  }

  /** Every digit string is a number in decimal after some zeros. */
  lemma {:induction false} DigitsAreDecimal(s: string) returns (zeros: string)
    requires AreDigits(s)
    ensures AreZeros(zeros) && s == zeros + Decimal(NumberOf(s))
    decreases |s|
  {
    hide Decimal;
    var init, last := s[..|s| - 1], s[|s| - 1];
    assert s == init + [last] && IsDigit(last);
    var d := last as int - '0' as int;
    if init == "" {
      zeros := "";
      assert NumberOf(init) == 0;
      OneDigit(d);
    } else {
      zeros := DigitsAreDecimal(init);
      var n := NumberOf(init);
      if n == 0 {
        OneDigit(0);
        OneDigit(d);
        assert init == zeros + "0";
        zeros := init;
      } else {
        OneMoreDigit(n, d);
        assert s == zeros + Decimal(n) + [last] == zeros + (Decimal(n) + [last]);
      }
    }
  }

  // Blanks.

  lemma {:induction false} TrimLeftOf(before: string, s: string)
    requires AreBlanks(before) && (s == "" || !IsBlank(s[0]))
    ensures TrimLeft(before + s) == s
    decreases |before|
  {
    if before == "" {
      assert before + s == s;
    } else {
      assert (before + s)[1..] == before[1..] + s;
      TrimLeftOf(before[1..], s);
    }
  }

  lemma {:induction false} TrimOf(before: string, s: string, after: string)
    requires AreBlanks(before) && AreBlanks(after) && s != "" && !IsBlank(s[0]) && !IsBlank(s[|s| - 1])
    ensures Trim(before + s + after) == s
    decreases |before| + |after|
  {
    var all := before + s + after;
    assert all == before + (s + after);
    TrimLeftOf(before, s + after);
    var t := s + after;
    if after != "" {
      assert t[..|t| - 1] == "" + s + after[..|after| - 1];
      TrimOf("", s, after[..|after| - 1]);
    } else {
      assert t == s;
    }
  }

  lemma {:induction false} TrimLeftParts(s: string) returns (before: string)
    ensures AreBlanks(before) && s == before + TrimLeft(s)
    ensures TrimLeft(s) == "" || !IsBlank(TrimLeft(s)[0])
    decreases |s|
  {
    if s != "" && IsBlank(s[0]) {
      var rest := TrimLeftParts(s[1..]);
      before := [s[0]] + rest;
    } else {
      before := "";
    }
  }

  lemma {:induction false} TrimParts(s: string) returns (before: string, after: string)
    ensures AreBlanks(before) && AreBlanks(after) && s == before + Trim(s) + after
    decreases |s|
  {
    before := TrimLeftParts(s);
    var t := TrimLeft(s);
    if t != "" && IsBlank(t[|t| - 1]) {
      var b, a := TrimParts(t[..|t| - 1]);
      assert t == b + Trim(s) + a + [t[|t| - 1]];
      before, after := before + b, a + [t[|t| - 1]];
    } else {
      after := "";
    }
  }

  // Separators.

  predicate IsFreeOf(s: string, c: char) {
    forall i :: 0 <= i < |s| ==> s[i] != c
  }

  lemma {:induction false} IndexAfter(a: string, rest: string, c: char)
    requires IsFreeOf(a, c) && (rest == "" || rest[0] == c)
    ensures IndexOfChar(a + rest, c) == |a|
    decreases |a|
  {
    if a == "" {
      assert a + rest == rest;
    } else {
      IndexAfter(a[1..], rest, c);
      assert (a + rest)[1..] == a[1..] + rest;
    }
  }

  lemma {:induction false} IndexIsFirst(s: string, c: char)
    ensures var i := IndexOfChar(s, c);
            IsFreeOf(s[..i], c) && (i < |s| ==> s[i] == c)
    decreases |s|
  {
    if s != "" && s[0] != c {
      IndexIsFirst(s[1..], c);
      var i := IndexOfChar(s, c);
      assert s[..i] == [s[0]] + s[1..][..i - 1];
    }
  }

  lemma {:induction false} SplitOfCommas(parts: seq<string>)
    requires parts != [] && forall i :: 0 <= i < |parts| ==> IsFreeOf(parts[i], ',')
    ensures SplitOn(Commas(parts), ',') == parts
    decreases |parts|
  {
    var first := parts[0];
    if |parts| == 1 {
      IndexAfter(first, "", ',');
      assert first + "" == first;
    } else {
      var rest := "," + Commas(parts[1..]);
      IndexAfter(first, rest, ',');
      assert Commas(parts) == first + rest;
      SplitOfCommas(parts[1..]);
      assert (first + rest)[..|first|] == first && (first + rest)[|first| + 1..] == Commas(parts[1..]);
      assert parts == [first] + parts[1..];
    }
  }

  lemma {:induction false} CommasOfSplit(s: string)
    ensures SplitOn(s, ',') != [] && Commas(SplitOn(s, ',')) == s
    decreases |s|
  {
    var i := IndexOfChar(s, ',');
    IndexIsFirst(s, ',');
    if i < |s| {
      CommasOfSplit(s[i + 1..]);
      assert SplitOn(s, ',')[1..] == SplitOn(s[i + 1..], ',');
      assert s == s[..i] + "," + s[i + 1..];
    }
  }

  // One part, and all of them.

  lemma DigitEnds(s: string)
    requires AreDigits(s)
    ensures s != "" && !IsBlank(s[0]) && !IsBlank(s[|s| - 1]) && IsFreeOf(s, '-') && IsFreeOf(s, ',')
  {
    assert IsDigit(s[0]) && IsDigit(s[|s| - 1]);
  }

  lemma ShortTexts()
    ensures AreZeros("") && IsFreeOf("-", ',')
  {
  }

  lemma PaddedNumber(zeros: string, n: nat)
    requires AreZeros(zeros)
    ensures AreDigits(zeros + Decimal(n)) && NumberOf(zeros + Decimal(n)) == n
  {
    DecimalFacts(n);
    ZerosAdd(zeros, Decimal(n));
  }

  lemma SingleReads(before: string, low: string, after: string)
    requires AreBlanks(before) && AreBlanks(after) && AreDigits(low) && NumberOf(low) <= 0xFFFF_FFFF
    ensures RangeOf(before + low + after) == Some(Range(NumberOf(low), NumberOf(low)))
  {
    hide AreDigits, NumberOf, AreBlanks, Trim, IsBlank, IsFreeOf;
    DigitEnds(low);
    TrimOf(before, low, after);
    IndexAfter(low, "", '-');
    assert low + "" == low && low[..|low|] == low;
  }

  lemma DashedReads(before: string, low: string, high: string, after: string)
    requires AreBlanks(before) && AreBlanks(after) && AreDigits(low) && AreDigits(high)
    requires NumberOf(low) <= NumberOf(high) <= 0xFFFF_FFFF
    ensures RangeOf(before + (low + "-" + high) + after) == Some(Range(NumberOf(low), NumberOf(high)))
  {
    hide NumberOf, AreBlanks, Trim, IsBlank, IsFreeOf, AreDigits, IndexOfChar;
    DigitEnds(low);
    DigitEnds(high);
    var body := low + "-" + high;
    assert body[0] == low[0] && body[|body| - 1] == high[|high| - 1];
    TrimOf(before, body, after);
    IndexAfter(low, "-" + high, '-');
    assert low + ("-" + high) == body;
    assert body[..|low|] == low && body[|low| + 1..] == high;
  }

  lemma FreeOfConcat(a: string, b: string, c: char)
    requires IsFreeOf(a, c) && IsFreeOf(b, c)
    ensures IsFreeOf(a + b, c)
  {
  }

  lemma BlanksAreFree(s: string)
    requires AreBlanks(s)
    ensures IsFreeOf(s, ',')
  {
    forall i | 0 <= i < |s| ensures s[i] != ',' { assert IsBlank(s[i]); }
  }

  lemma PieceReads(p: Piece, r: Range)
    requires 0 <= r.min <= r.max <= 0xFFFF_FFFF && IsPiece(p, r)
    ensures RangeOf(TextOf(p, r)) == Some(r)
  {
    hide AreDigits, NumberOf, AreBlanks, AreZeros, RangeOf, Decimal;
    PaddedNumber(p.lowZeros, r.min);
    PaddedNumber(p.highZeros, r.max);
    var low, high := p.lowZeros + Decimal(r.min), p.highZeros + Decimal(r.max);
    if p.dashed {
      DashedReads(p.before, low, high, p.after);
    } else {
      SingleReads(p.before, low, p.after);
    }
  }

  lemma PieceHasNoComma(p: Piece, r: Range)
    requires 0 <= r.min <= r.max <= 0xFFFF_FFFF && IsPiece(p, r)
    ensures IsFreeOf(TextOf(p, r), ',')
  {
    hide AreDigits, NumberOf, AreBlanks, AreZeros, Decimal, IsFreeOf;
    PaddedNumber(p.lowZeros, r.min);
    PaddedNumber(p.highZeros, r.max);
    var low, high := p.lowZeros + Decimal(r.min), p.highZeros + Decimal(r.max);
    DigitEnds(low);
    DigitEnds(high);
    BlanksAreFree(p.before);
    BlanksAreFree(p.after);
    ShortTexts();
    FreeOfConcat(low, "-", ',');
    FreeOfConcat(low + "-", high, ',');
    var body := if p.dashed then low + "-" + high else low;
    FreeOfConcat(p.before, body, ',');
    FreeOfConcat(p.before + body, p.after, ',');
  }

  lemma PartIsPiece(part: string) returns (p: Piece)
    requires RangeOf(part).Some?
    ensures var r := RangeOf(part).value;
            0 <= r.min <= r.max <= 0xFFFF_FFFF && IsPiece(p, r) && part == TextOf(p, r)
  {
    hide AreDigits, NumberOf, AreBlanks, AreZeros, Decimal, IsFreeOf, Trim;
    var before, after := TrimParts(part);
    var text := Trim(part);
    var dash := IndexOfChar(text, '-');
    IndexIsFirst(text, '-');
    var low := text[..dash];
    var lowZeros := DigitsAreDecimal(low);
    if dash == |text| {
      p := Piece(before, lowZeros, false, "", after);
      ShortTexts();
      assert text == low;
    } else {
      var high := text[dash + 1..];
      var highZeros := DigitsAreDecimal(high);
      p := Piece(before, lowZeros, true, highZeros, after);
      assert text == low + "-" + high;
    }
  }

  lemma {:induction false} RangesRead(parts: seq<string>, ranges: seq<Range>)
    requires |parts| == |ranges| && forall i :: 0 <= i < |parts| ==> RangeOf(parts[i]) == Some(ranges[i])
    ensures RangesOf(parts) == Some(ranges)
    decreases |parts|
  {
    hide RangeOf;
    if parts != [] {
      RangesRead(parts[1..], ranges[1..]);
      assert ranges == [ranges[0]] + ranges[1..];
    }
  }

  lemma {:induction false} ReadRanges(parts: seq<string>)
    requires RangesOf(parts).Some?
    ensures |RangesOf(parts).value| == |parts|
    ensures forall i :: 0 <= i < |parts| ==> RangeOf(parts[i]) == Some(RangesOf(parts).value[i])
    decreases |parts|
  {
    hide RangeOf;
    if parts != [] { ReadRanges(parts[1..]); }
  }

  /**
   Read-back: a text that lists ranges of ledger indexes, in decimal, as one number or as two with a dash, separated by
   commas and padded with blanks, is read as exactly these ranges.
   */
  lemma ListedAreReported(text: string, pieces: seq<Piece>, ranges: seq<Range>)
    requires Lists(text, pieces, ranges)
    ensures Reported(text) == Ok(ranges)
  {
    hide RangeOf, TextOf, RangesOf, IsPiece;
    var parts := seq(|ranges|, i requires 0 <= i < |ranges| => TextOf(pieces[i], ranges[i]));
    forall i | 0 <= i < |ranges| ensures RangeOf(parts[i]) == Some(ranges[i]) && IsFreeOf(parts[i], ',') {
      PieceReads(pieces[i], ranges[i]);
      PieceHasNoComma(pieces[i], ranges[i]);
    }
    SplitOfCommas(parts);
    RangesRead(parts, ranges);
    EmptyIsNoRange();
  }

  /** Neither the empty text nor the word `empty` lists a range. */
  lemma EmptyIsNoRange()
    ensures RangesOf(SplitOn("", ',')).None? && RangesOf(SplitOn("empty", ',')).None?
  {
    IndexAfter("empty", "", ',');
    IndexAfter("empty", "", '-');
    assert "empty" + "" == "empty";
    assert SplitOn("empty", ',') == ["empty"] && SplitOn("", ',') == [""];
    assert !IsDigit("empty"[0]);
    assert Trim("empty") == "empty";
    assert RangeOf("empty").None? && RangeOf("").None?;
  }

  /** And nothing else is read at all: a text that is read lists what was read. */
  lemma ReportedAreListed(text: string) returns (pieces: seq<Piece>)
    requires Reported(text).Ok?
    ensures Lists(text, pieces, Reported(text).value)
  {
    hide RangeOf, TextOf, IsPiece;
    var parts, ranges := SplitOn(text, ','), Reported(text).value;
    CommasOfSplit(text);
    ReadRanges(parts);
    pieces := [];
    while |pieces| < |parts|
      invariant |pieces| <= |parts|
      invariant forall i :: 0 <= i < |pieces| ==>
                  && 0 <= ranges[i].min <= ranges[i].max <= 0xFFFF_FFFF && IsPiece(pieces[i], ranges[i])
                  && parts[i] == TextOf(pieces[i], ranges[i])
    {
      var p := PartIsPiece(parts[|pieces|]);
      pieces := pieces + [p];
    }
    assert parts == seq(|ranges|, i requires 0 <= i < |ranges| => TextOf(pieces[i], ranges[i]));
  }

  /** Every other text is refused: no history when there is none, and an invalid answer otherwise. */
  lemma OtherTextsAreRefused(text: string)
    ensures Reported(text).Err? <==> forall pieces, ranges :: !Lists(text, pieces, ranges)
    ensures Reported(text) == Err(SOURCE_HISTORY_INCOMPLETE) <==> text == "" || text == "empty"
    ensures Reported(text).Err? && text != "" && text != "empty" ==> Reported(text) == Err(SOURCE_RESPONSE_INVALID)
  {
    hide Lists, RangesOf;
    if Reported(text).Ok? {
      var pieces := ReportedAreListed(text);
    }
    forall pieces, ranges | Lists(text, pieces, ranges) ensures Reported(text) == Ok(ranges) {
      ListedAreReported(text, pieces, ranges);
    }
  }

  // ---- Covered indexes -------------------------------------------------------------------------------

  predicate Proper(ranges: seq<Range>) {
    forall i :: 0 <= i < |ranges| ==> ranges[i].min <= ranges[i].max
  }

  predicate Covers(ranges: seq<Range>, x: int) {
    exists i :: 0 <= i < |ranges| && ranges[i].min <= x <= ranges[i].max
  }

  /** Ascending, and with at least one uncovered index between neighbours. */
  predicate Separated(ranges: seq<Range>) {
    forall i, j :: 0 <= i < j < |ranges| ==> HasGap(ranges[i], ranges[j])
  }

  predicate HasGap(a: Range, b: Range) {
    a.max + 1 < b.min
  }

  predicate NotAfter(a: Range, b: Range) {
    a.min < b.min || (a.min == b.min && a.max <= b.max)
  }

  predicate Sorted(ranges: seq<Range>) {
    forall i, j :: 0 <= i < j < |ranges| ==> NotAfter(ranges[i], ranges[j])
  }

  function Insert(ranges: seq<Range>, r: Range): seq<Range> {
    if ranges == [] then [r]
    else
      var n := |ranges| - 1;
      if NotAfter(ranges[n], r) then ranges + [r] else Insert(ranges[..n], r) + [ranges[n]]
  }

  /** The library's stable sort by minimum, then maximum. */
  function Sort(ranges: seq<Range>): seq<Range> {
    if ranges == [] then [] else Insert(Sort(ranges[..|ranges| - 1]), ranges[|ranges| - 1])
  }

  lemma {:induction false} InsertFacts(ranges: seq<Range>, r: Range)
    requires Sorted(ranges)
    ensures multiset(Insert(ranges, r)) == multiset(ranges) + multiset{r}
    ensures Sorted(Insert(ranges, r))
    decreases |ranges|
  {
    if ranges != [] {
      var n := |ranges| - 1;
      assert ranges == ranges[..n] + [ranges[n]];
      if !NotAfter(ranges[n], r) {
        InsertFacts(ranges[..n], r);
        var init := Insert(ranges[..n], r);
        forall x | x in init ensures NotAfter(x, ranges[n]) {
          assert x in multiset(init);
          if x != r { assert x in ranges[..n]; }
        }
      }
    }
  }

  lemma {:induction false} SortFacts(ranges: seq<Range>)
    ensures Sorted(Sort(ranges)) && multiset(Sort(ranges)) == multiset(ranges)
    decreases |ranges|
  {
    if ranges != [] {
      var n := |ranges| - 1;
      SortFacts(ranges[..n]);
      InsertFacts(Sort(ranges[..n]), ranges[n]);
      assert ranges == ranges[..n] + [ranges[n]];
    }
  }

  lemma SameRanges(a: seq<Range>, b: seq<Range>)
    requires multiset(a) == multiset(b)
    ensures forall x :: Covers(a, x) <==> Covers(b, x)
    ensures Proper(a) <==> Proper(b)
  {
    forall r: Range ensures r in a <==> r in b {
      assert r in multiset(a) <==> r in multiset(b);
    }
    forall x ensures Covers(a, x) <==> Covers(b, x) {
      if Covers(a, x) {
        var i :| 0 <= i < |a| && a[i].min <= x <= a[i].max;
        assert a[i] in b;
      }
      if Covers(b, x) {
        var i :| 0 <= i < |b| && b[i].min <= x <= b[i].max;
        assert b[i] in a;
      }
    }
    assert forall i :: 0 <= i < |a| ==> a[i] in b;
    assert forall i :: 0 <= i < |b| ==> b[i] in a;
  }

  // ---- Merging -----------------------------------------------------------------------------------------

  lemma CoverAppended(ranges: seq<Range>, r: Range)
    ensures forall x :: Covers(ranges + [r], x) <==> Covers(ranges, x) || r.min <= x <= r.max
  {
    forall x ensures Covers(ranges + [r], x) <==> Covers(ranges, x) || r.min <= x <= r.max {
      if Covers(ranges, x) {
        var i :| 0 <= i < |ranges| && ranges[i].min <= x <= ranges[i].max;
        assert (ranges + [r])[i] == ranges[i];
      }
      assert (ranges + [r])[|ranges|] == r;
    }
  }

  lemma CoverWidened(ranges: seq<Range>, r: Range)
    requires ranges != [] && ranges[|ranges| - 1].min <= r.min <= ranges[|ranges| - 1].max + 1
    requires ranges[|ranges| - 1].min <= ranges[|ranges| - 1].max && r.min <= r.max
    ensures var n := |ranges| - 1;
            var widened := ranges[n := Range(ranges[n].min, Max(ranges[n].max, r.max))];
            forall x :: Covers(widened, x) <==> Covers(ranges, x) || r.min <= x <= r.max
  {
    var n := |ranges| - 1;
    var wide := Range(ranges[n].min, Max(ranges[n].max, r.max));
    assert ranges[n := wide] == ranges[..n] + [wide];
    assert ranges == ranges[..n] + [ranges[n]];
    CoverAppended(ranges[..n], wide);
    CoverAppended(ranges[..n], ranges[n]);
  }

  /** The sort-and-merge of a report: the same indexes, in ranges with a real gap between neighbours. */
  method MergeRanges(ranges: seq<Range>) returns (merged: seq<Range>)
    requires Proper(ranges)
    ensures Proper(merged) && Separated(merged)
    ensures forall x :: Covers(merged, x) <==> Covers(ranges, x)
  {
    var sorted := Sort(ranges);
    SortFacts(ranges);
    SameRanges(sorted, ranges);
    merged := [];
    for i := 0 to |sorted|
      invariant Proper(merged) && Separated(merged)
      invariant forall x :: Covers(merged, x) <==> Covers(sorted[..i], x)
      invariant merged != [] ==> i > 0 && merged[|merged| - 1].min <= sorted[i - 1].min
      invariant merged == [] ==> i == 0
    {
      var r := sorted[i];
      assert sorted[..i + 1] == sorted[..i] + [r];
      CoverAppended(sorted[..i], r);
      var n := |merged| - 1;
      if merged == [] || r.min > merged[n].max + 1 {
        CoverAppended(merged, r);
        merged := merged + [r];
      } else {
        assert NotAfter(sorted[i - 1], r);
        CoverWidened(merged, r);
        merged := merged[n := Range(merged[n].min, Max(merged[n].max, r.max))];
      }
    }
    assert sorted[..|sorted|] == sorted;
  }

  /**
   The report of a server as read: the ranges that its text lists, merged. A text that lists none is refused, as no
   history when it is empty or says so, and as an invalid answer otherwise.
   */
  method ParseCompleteLedgers(text: string) returns (r: Result<seq<Range>, RangeError>)
    ensures text == "" || text == "empty" ==> r == Err(SOURCE_HISTORY_INCOMPLETE)
    ensures text != "" && text != "empty" && r.Err? ==> r == Err(SOURCE_RESPONSE_INVALID)
    ensures r.Err? <==> forall pieces, ranges :: !Lists(text, pieces, ranges)
    ensures r.Ok? ==> Proper(r.value) && Separated(r.value)
    ensures r.Ok? ==> forall pieces, ranges :: Lists(text, pieces, ranges) ==>
              forall x :: Covers(r.value, x) <==> Covers(ranges, x)
  {
    hide Lists;
    var reported := Reported(text);
    OtherTextsAreRefused(text);
    if reported.Err? { return Err(reported.error); }
    ReportedAreProper(SplitOn(text, ','));
    var merged := MergeRanges(reported.value);
    forall pieces, ranges | Lists(text, pieces, ranges) ensures ranges == reported.value {
      ListedAreReported(text, pieces, ranges);
    }
    return Ok(merged);
  }

  // ---- Covering a profile ----------------------------------------------------------------------------------

  datatype ServerStatus = ServerStatus(networkId: int, validatedLedgerIndex: nat, ranges: seq<Range>)

  /** None means that the source may be used. */
  function CoverageError(status: ServerStatus, networkId: int, activationIndex: nat): Option<RangeError> {
    if status.networkId != networkId then Some(SOURCE_NETWORK_MISMATCH)
    else if status.validatedLedgerIndex < activationIndex then Some(SOURCE_HISTORY_INCOMPLETE)
    else if exists i :: 0 <= i < |status.ranges|
              && status.ranges[i].min <= activationIndex && status.ranges[i].max >= status.validatedLedgerIndex
    then None
    else Some(SOURCE_HISTORY_INCOMPLETE)
  }

  /** In separated ranges, an unbroken run of covered indexes lies in one range. */
  lemma {:induction false} OneRangeHoldsRun(ranges: seq<Range>, lo: int, hi: int)
    requires Separated(ranges) && Proper(ranges) && lo <= hi
    requires forall x :: lo <= x <= hi ==> Covers(ranges, x)
    ensures exists i :: 0 <= i < |ranges| && ranges[i].min <= lo && ranges[i].max >= hi
    decreases hi - lo
  {
    if lo == hi {
      assert Covers(ranges, lo);
    } else {
      OneRangeHoldsRun(ranges, lo, hi - 1);
      var i :| 0 <= i < |ranges| && ranges[i].min <= lo && ranges[i].max >= hi - 1;
      assert Covers(ranges, hi);
      var j :| 0 <= j < |ranges| && ranges[j].min <= hi <= ranges[j].max;
      assert !HasGap(ranges[i], ranges[j]) && !HasGap(ranges[j], ranges[i]);
    }
  }

  /**
   A source is accepted exactly when it is of the right network, its tip is not before activation, and its report lists
   ranges that hold every ledger from activation to the tip, whatever their order and overlaps are.
   */
  method AssertSourceCoversProfile(text: string, sourceNetworkId: int, tip: nat, networkId: int, activationIndex: nat)
    returns (failure: Option<RangeError>)
    ensures text == "" || text == "empty" ==> failure == Some(SOURCE_HISTORY_INCOMPLETE)
    ensures (forall pieces, ranges :: !Lists(text, pieces, ranges)) && text != "" && text != "empty" ==>
              failure == Some(SOURCE_RESPONSE_INVALID)
    ensures forall pieces, ranges :: Lists(text, pieces, ranges) ==>
              failure ==
              if sourceNetworkId != networkId then Some(SOURCE_NETWORK_MISMATCH)
              else if activationIndex <= tip && forall x :: activationIndex <= x <= tip ==> Covers(ranges, x) then None
              else Some(SOURCE_HISTORY_INCOMPLETE)
  {
    hide Lists;
    var parsed := ParseCompleteLedgers(text);
    if parsed.Err? { return Some(parsed.error); }
    failure := CoverageError(ServerStatus(sourceNetworkId, tip, parsed.value), networkId, activationIndex);
    if activationIndex <= tip && forall x :: activationIndex <= x <= tip ==> Covers(parsed.value, x) {
      OneRangeHoldsRun(parsed.value, activationIndex, tip);
    }
    assert sourceNetworkId == networkId && failure.None? ==>
             activationIndex <= tip && forall x :: activationIndex <= x <= tip ==> Covers(parsed.value, x);
  }
}
