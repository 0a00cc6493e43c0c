/**
 The garden design file, line by line, as `GardenPlanner.readBeds` reads
 it. Each line is trimmed and split on runs of spaces; a blank line or a
 line starting with '#' is skipped; a line of exactly three words whose
 first word lower-cases to "rectangle" adds one bed; any other line is
 rejected with the message "ERROR: illegal garden bed: " followed by the
 trimmed line. Reading stops at the first rejected line.
 */
module DesignFile {
  import opened Wrappers
  import opened Text
  import opened Numbers
  import opened Rectangles

  const KEYWORD := "rectangle"
  const ILLEGAL_BED := "ERROR: illegal garden bed: "

  /** Why reading a design stopped: a malformed line, or a dimension that is not a number. */
  datatype Failure =
    | IllegalBed(message: string)
    | BadNumber(word: string)

  /** What one line contributes. */
  datatype LineOutcome =
    | Skip
    | Add(bed: Rectangle)
    | Fail(failure: Failure)

  /** A trimmed line that is blank or a comment. */
  predicate IsIgnorable(trimmed: string) {
    trimmed == [] || trimmed[0] == '#'
  }

  /** A trimmed line of the right shape: three words, the first being the keyword in any case. */
  predicate IsBedShape(words: seq<string>) {
    |words| == 3 && Lower(words[0]) == KEYWORD
  }

  /** What `readBeds` does with one line of the design. */
  function ParseLine(line: string): LineOutcome {
    ParseTrimmed(Trim(line))
  }

  function ParseTrimmed(trimmed: string): LineOutcome {
    if IsIgnorable(trimmed) then Skip else ParseWords(Split(trimmed), trimmed)
  }

  function ParseWords(words: seq<string>, trimmed: string): LineOutcome {
    if IsBedShape(words) then ParseDimensions(words[1], words[2])
    else Fail(IllegalBed(ILLEGAL_BED + trimmed))
  }

  /**
   Each dimension is read with `Double.parseDouble`, which trims its word first;
   the width is read before the height, so a bad width is the one reported.
   */
  function ParseDimensions(width: string, height: string): LineOutcome {
    match ParseDouble(width)
    case None => Fail(BadNumber(width))
    case Some(w) =>
      match ParseDouble(height)
      case None => Fail(BadNumber(height))
      case Some(h) => Add(Rectangle(w, h))
  }

  /** The result of reading a whole design: the beds read, and the failure that stopped it, if any. */
  datatype ReadResult = ReadResult(beds: seq<Rectangle>, failure: Option<Failure>)

  /** The result of a line's outcome followed by the result of reading the lines after it. */
  function Then(outcome: LineOutcome, rest: ReadResult): ReadResult {
    match outcome
    case Skip => rest
    case Add(b) => ReadResult([b] + rest.beds, rest.failure)
    case Fail(f) => ReadResult([], Some(f))
  }

  /** Gathers line outcomes in order, stopping at the first failure. */
  function Gather(outcomes: seq<LineOutcome>): ReadResult {
    if outcomes == [] then ReadResult([], None)
    else Then(outcomes[0], Gather(outcomes[1..]))
  }

  function Outcomes(lines: seq<string>): (o: seq<LineOutcome>)
    ensures |o| == |lines|
    ensures forall i :: 0 <= i < |lines| ==> o[i] == ParseLine(lines[i])
  {
    seq(|lines|, i requires 0 <= i < |lines| => ParseLine(lines[i]))
  }

  /** What the loop of `readBeds` does with the lines it visits. */
  function ReadAll(lines: seq<string>): ReadResult {
    Gather(Outcomes(lines))
  }

  /**
   Java's `Character.isWhitespace` (the `\p{javaWhitespace}` of `Scanner`'s
   delimiter): the separators of Unicode except the three no-break spaces,
   and the control characters from tab to carriage return and from U+001C
   to U+001F.
   */
  predicate IsJavaWhitespace(c: char) {
    || c == ' ' || '\t' <= c <= '\r' || '\U{1C}' <= c <= '\U{1F}'
    || c == '\U{1680}' || '\U{2000}' <= c <= '\U{2006}' || '\U{2008}' <= c <= '\U{200A}'
    || c == '\U{2028}' || c == '\U{2029}' || c == '\U{205F}' || c == '\U{3000}'
  }

  /** A line holding a character that is not whitespace: a token for `Scanner`. */
  predicate HasToken(line: string) {
    exists k :: 0 <= k < |line| && !IsJavaWhitespace(line[k])
  }

  /** `in.hasNext()` with lines `lines[..i]` already read: some later line holds a token. */
  predicate HasNext(lines: seq<string>, i: nat) {
    exists j :: i <= j < |lines| && HasToken(lines[j])
  }

  /** How many lines `readBeds` visits: all of them up to the last one holding a token. */
  function ScanEnd(lines: seq<string>): (n: nat)
    ensures n <= |lines|
  {
    if lines == [] || HasToken(lines[|lines| - 1]) then |lines| else ScanEnd(lines[..|lines| - 1])
  }

  /** What `readBeds` does with a whole design: it reads the lines up to where the scanner stops. */
  function ReadDesign(lines: seq<string>): ReadResult {
    ReadAll(lines[..ScanEnd(lines)])
  }

  /** The scanner stops after the last line holding a token, and at no line before it. */
  lemma {:induction false} ScanEndFacts(lines: seq<string>)
    ensures forall j :: ScanEnd(lines) <= j < |lines| ==> !HasToken(lines[j])
    ensures ScanEnd(lines) > 0 ==> HasToken(lines[ScanEnd(lines) - 1])
  {
    if lines != [] && !HasToken(lines[|lines| - 1]) {
      var front := lines[..|lines| - 1];
      ScanEndFacts(front);
      assert forall j :: 0 <= j < |front| ==> front[j] == lines[j];
    }
  }

  /** `hasNext` holds before line `i` exactly when line `i` is one the scanner visits. */
  lemma HasNextIff(lines: seq<string>, i: nat)
    ensures HasNext(lines, i) <==> i < ScanEnd(lines)
  {
    ScanEndFacts(lines);
    if i < ScanEnd(lines) {
      assert HasToken(lines[ScanEnd(lines) - 1]);
    }
  }

  /** Line `i` of the lines visited is the `i`th line of the design. */
  lemma VisitedLine(lines: seq<string>, i: nat)
    requires i < ScanEnd(lines)
    ensures i < |lines| && lines[..ScanEnd(lines)][i] == lines[i]
  {
  }

  /** Reading a design is handling its first line, then (unless that failed) the rest. */
  lemma ReadFirst(lines: seq<string>)
    requires lines != []
    ensures ReadAll(lines) == Then(ParseLine(lines[0]), ReadAll(lines[1..]))
  {
    assert Outcomes(lines)[1..] == Outcomes(lines[1..]);
  }

  /** A line is skipped exactly when its trimmed form is empty or starts with '#'. */
  lemma SkipsExactlyIgnorable(line: string)
    ensures ParseLine(line) == Skip <==> IsIgnorable(Trim(line))
  {
  }

  /** A line adds a bed exactly when it has the bed shape and both dimensions parse; the bed has those dimensions. */
  lemma AddsExactlyBedLines(line: string, bed: Rectangle)
    ensures ParseLine(line) == Add(bed) <==>
      var trimmed := Trim(line);
      var words := Split(trimmed);
      && !IsIgnorable(trimmed)
      && IsBedShape(words)
      && ParseDouble(words[1]) == Some(bed.width)
      && ParseDouble(words[2]) == Some(bed.height)
  {
  }

  /**
   A line of the bed shape whose width does not parse fails naming the width,
   whatever the height; one whose width parses but height does not fails
   naming the height.
   */
  lemma RejectsBadNumber(line: string)
    requires !IsIgnorable(Trim(line)) && IsBedShape(Split(Trim(line)))
    ensures var ws := Split(Trim(line));
      && (ParseDouble(ws[1]) == None ==> ParseLine(line) == Fail(BadNumber(ws[1])))
      && (ParseDouble(ws[1]).Some? && ParseDouble(ws[2]) == None ==> ParseLine(line) == Fail(BadNumber(ws[2])))
  {
  }

  /** Any other non-blank, non-comment line is rejected with the trimmed line in the message. */
  lemma RejectsOtherLines(line: string)
    requires !IsIgnorable(Trim(line)) && !IsBedShape(Split(Trim(line)))
    ensures ParseLine(line) == Fail(IllegalBed(ILLEGAL_BED + Trim(line)))
  {
  }

  lemma {:induction false} GatherAppend(a: seq<LineOutcome>, b: seq<LineOutcome>)
    ensures Gather(a + b) ==
      if Gather(a).failure.Some? then Gather(a)
      else ReadResult(Gather(a).beds + Gather(b).beds, Gather(b).failure)
  {
    if a == [] {
      assert a + b == b;
    } else {
      assert (a + b)[0] == a[0];
      assert (a + b)[1..] == a[1..] + b;
      GatherAppend(a[1..], b);
      match a[0]
      case Skip =>
      case Add(bed) =>
        assert [bed] + (Gather(a[1..]).beds + Gather(b).beds)
          == ([bed] + Gather(a[1..]).beds) + Gather(b).beds;
      case Fail(f) =>
    }
  }

  /** Reading a concatenation: the second part is reached only if the first part did not fail. */
  lemma ReadAllAppend(a: seq<string>, b: seq<string>)
    ensures ReadAll(a + b) ==
      if ReadAll(a).failure.Some? then ReadAll(a)
      else ReadResult(ReadAll(a).beds + ReadAll(b).beds, ReadAll(b).failure)
  {
    assert Outcomes(a + b) == Outcomes(a) + Outcomes(b);
    GatherAppend(Outcomes(a), Outcomes(b));
  }

  lemma {:induction false} GatherSkips(outcomes: seq<LineOutcome>)
    requires forall i :: 0 <= i < |outcomes| ==> outcomes[i] == Skip
    ensures Gather(outcomes) == ReadResult([], None)
  {
    if outcomes != [] {
      GatherSkips(outcomes[1..]);
    }
  }

  /** A design of comments and blank lines only yields no bed and no failure. */
  lemma IgnorableLinesReadNothing(lines: seq<string>)
    requires forall i :: 0 <= i < |lines| ==> IsIgnorable(Trim(lines[i]))
    ensures ReadAll(lines) == ReadResult([], None)
  {
    GatherSkips(Outcomes(lines));
  }

  /** A whole design of comments and blank lines yields no bed and no failure. */
  lemma IgnorableDesignReadsNothing(lines: seq<string>)
    requires forall i :: 0 <= i < |lines| ==> IsIgnorable(Trim(lines[i]))
    ensures ReadDesign(lines) == ReadResult([], None)
  {
    IgnorableLinesReadNothing(lines[..ScanEnd(lines)]);
  }

  lemma {:induction false} GatherStops(outcomes: seq<LineOutcome>, k: nat)
    requires k < |outcomes| && outcomes[k].Fail?
    requires forall j :: 0 <= j < k ==> !outcomes[j].Fail?
    ensures Gather(outcomes) == ReadResult(Gather(outcomes[..k]).beds, Some(outcomes[k].failure))
  {
    if k > 0 {
      assert outcomes[1..][..k - 1] == outcomes[..k][1..];
      assert outcomes[..k][0] == outcomes[0];
      GatherStops(outcomes[1..], k - 1);
    }
  }

  /**
   Reading stops at the first failing line: the failure is that line's, and
   the beds read are exactly those of the lines before it.
   */
  lemma StopsAtFirstFailure(lines: seq<string>, k: nat)
    requires k < |lines| && ParseLine(lines[k]).Fail?
    requires forall j :: 0 <= j < k ==> !ParseLine(lines[j]).Fail?
    ensures ReadAll(lines) == ReadResult(ReadAll(lines[..k]).beds, Some(ParseLine(lines[k]).failure))
  {
    assert Outcomes(lines[..k]) == Outcomes(lines)[..k];
    GatherStops(Outcomes(lines), k);
  }

  lemma {:induction false} GatherNoFailure(outcomes: seq<LineOutcome>)
    requires Gather(outcomes).failure == None
    ensures forall j :: 0 <= j < |outcomes| ==> !outcomes[j].Fail?
  {
    if outcomes != [] {
      GatherNoFailure(outcomes[1..]);
      assert forall j :: 1 <= j < |outcomes| ==> outcomes[j] == outcomes[1..][j - 1];
    }
  }

  /** A read that did not fail met no failing line. */
  lemma NoFailureMeansNoFailingLine(lines: seq<string>)
    requires ReadAll(lines).failure == None
    ensures forall j :: 0 <= j < |lines| ==> !ParseLine(lines[j]).Fail?
  {
    GatherNoFailure(Outcomes(lines));
  }

  lemma {:induction false} GatherAtMostOne(outcomes: seq<LineOutcome>)
    ensures |Gather(outcomes).beds| <= |outcomes|
  {
    if outcomes != [] {
      GatherAtMostOne(outcomes[1..]);
    }
  }

  /** Every line contributes at most one bed. */
  lemma AtMostOneBedPerLine(lines: seq<string>)
    ensures |ReadAll(lines).beds| <= |lines|
  {
    GatherAtMostOne(Outcomes(lines));
  }

  /**
   Pieces separated by runs of spaces, with no trimmable character at either
   end of the line and no '#' at its start, are classified by the pieces alone.
   */
  lemma LineOfPieces(ws: seq<string>, gaps: seq<string>)
    requires |ws| >= 1 && |gaps| == |ws| - 1
    requires forall i :: 0 <= i < |ws| ==> IsPiece(ws[i])
    requires forall i :: 0 <= i < |gaps| ==> IsGap(gaps[i])
    requires IsPiece(ws[0]) && !IsTrimmable(ws[0][0]) && ws[0][0] != '#'
    requires IsPiece(ws[|ws| - 1]) && !IsTrimmable(ws[|ws| - 1][|ws[|ws| - 1]| - 1])
    ensures ParseLine(JoinWith(ws, gaps)) == ParseWords(ws, JoinWith(ws, gaps))
  {
    JoinWithFacts(ws, gaps);
    TrimKeeps(JoinWith(ws, gaps));
    SplitJoinWith(ws, gaps);
  }

  /** Words joined by single spaces, not starting with '#', are classified by their words alone. */
  lemma JoinedLine(ws: seq<string>)
    requires |ws| >= 1 && forall i :: 0 <= i < |ws| ==> IsWord(ws[i])
    requires IsWord(ws[0]) && ws[0][0] != '#'
    ensures ParseLine(Join(ws)) == ParseWords(ws, Join(ws))
  {
    SplitJoin(ws);
    JoinFacts(ws);
    TrimKeeps(Join(ws));
    JoinStart(ws);
  }

  lemma JoinStart(ws: seq<string>)
    requires |ws| >= 1 && ws[0] != []
    ensures Join(ws) != [] && Join(ws)[0] == ws[0][0]
  {
  }

  function Three(a: string, b: string, c: string): string {
    a + " " + b + " " + c
  }

  lemma ThreeIsJoin(a: string, b: string, c: string)
    ensures Three(a, b, c) == Join([a, b, c])
  {
    var ws := [a, b, c];
    assert Join(ws[2..]) == c;
    assert Join(ws[1..]) == b + " " + c;
  }

  /** Three words, the first the keyword in any case: the line is judged by its two dimensions. */
  lemma KeywordWords(keyword: string, width: string, height: string)
    requires IsWord(keyword) && Lower(keyword) == KEYWORD && keyword[0] != '#'
    requires IsWord(width) && IsWord(height)
    ensures ParseLine(Three(keyword, width, height)) == ParseDimensions(width, height)
  {
    ThreeIsJoin(keyword, width, height);
    JoinedLine([keyword, width, height]);
    KeywordLine(keyword, width, height, Three(keyword, width, height));
  }

  lemma KeywordLine(a: string, b: string, c: string, trimmed: string)
    requires Lower(a) == KEYWORD
    ensures ParseWords([a, b, c], trimmed) == ParseDimensions(b, c)
  {
  }

  lemma KeywordIsWord()
    ensures IsWord(KEYWORD) && Lower(KEYWORD) == KEYWORD && KEYWORD[0] != '#'
  {
  }

  /** The keyword is matched case-insensitively: a line reads the same whatever the keyword's case. */
  lemma KeywordCaseIgnored(keyword: string, width: string, height: string)
    requires IsWord(keyword) && Lower(keyword) == KEYWORD
    requires IsWord(width) && IsWord(height)
    ensures ParseLine(Three(keyword, width, height)) == ParseLine(Three(KEYWORD, width, height))
  {
    assert LowerChar(keyword[0]) == Lower(keyword)[0] == 'r';
    KeywordWords(keyword, width, height);
    KeywordIsWord();
    KeywordWords(KEYWORD, width, height);
  }

  /** Joined words that are not a bed: rejected, with the line in the message. */
  lemma NotBedLine(ws: seq<string>)
    requires |ws| >= 1 && forall i :: 0 <= i < |ws| ==> IsWord(ws[i])
    requires IsWord(ws[0]) && ws[0][0] != '#'
    requires !IsBedShape(ws)
    ensures ParseLine(Join(ws)) == Fail(IllegalBed(ILLEGAL_BED + Join(ws)))
  {
    JoinedLine(ws);
  }

  function Two(a: string, b: string): string {
    a + " " + b
  }

  /** Three words whose first is not the keyword: rejected, with the line in the message. */
  lemma WrongKeywordLine(a: string, b: string, c: string)
    requires IsWord(a) && IsWord(b) && IsWord(c) && a[0] != '#' && Lower(a) != KEYWORD
    ensures ParseLine(Three(a, b, c)) == Fail(IllegalBed(ILLEGAL_BED + Three(a, b, c)))
  {
    ThreeIsJoin(a, b, c);
    NotBedLine([a, b, c]);
  }

  /** Two words: too few for a bed, so rejected, with the line in the message. */
  lemma TwoWordLine(a: string, b: string)
    requires IsWord(a) && IsWord(b) && a[0] != '#'
    ensures ParseLine(Two(a, b)) == Fail(IllegalBed(ILLEGAL_BED + Two(a, b)))
  {
    var ws := [a, b];
    assert Join(ws[1..]) == b;
    NotBedLine(ws);
  }

  lemma DigitParses(c: char)
    requires IsDigit(c)
    ensures ParseNumber([c]) == Some(DigitValue(c) as real)
  {
    var s := [c];
    assert s[..0] == [];
    assert DigitsValue(s) == DigitValue(c);
    assert '.' !in s;
    assert ParseUnsigned(s) == Some(DigitValue(c) as real);
  }

  lemma DigitWords()
    ensures ParseNumber("3") == Some(3.0) && ParseNumber("4") == Some(4.0)
    ensures IsWord("3") && IsWord("4")
    ensures ParseDouble("3") == Some(3.0) && ParseDouble("4") == Some(4.0)
  {
    DigitParses('3');
    DigitParses('4');
    ParseDoubleOfWord("3");
    ParseDoubleOfWord("4");
  }

  lemma SquareWord()
    ensures IsWord("square") && Lower("square") != KEYWORD && "square"[0] != '#'
  {
    assert Lower("square")[0] == 's';
  }

  lemma CapitalWord()
    ensures IsWord("RECTANGLE") && Lower("RECTANGLE") == KEYWORD && "RECTANGLE"[0] != '#'
  {
  }

  lemma TitleWord()
    ensures IsWord("Rectangle") && Lower("Rectangle") == KEYWORD && "Rectangle"[0] != '#'
  {
  }

  lemma SquareLine()
    ensures ParseLine(Three("square", "3", "4")) == Fail(IllegalBed(ILLEGAL_BED + Three("square", "3", "4")))
  {
    SquareWord();
    DigitWords();
    WrongKeywordLine("square", "3", "4");
  }

  lemma ShortLine()
    ensures ParseLine(Two(KEYWORD, "3")) == Fail(IllegalBed(ILLEGAL_BED + Two(KEYWORD, "3")))
  {
    KeywordIsWord();
    DigitWords();
    TwoWordLine(KEYWORD, "3");
  }

  lemma CapitalText() ensures Three("RECTANGLE", "3", "4") == "RECTANGLE 3 4" {}
  lemma LowerText() ensures Three(KEYWORD, "3", "4") == "rectangle 3 4" {}
  lemma SquareText() ensures Three("square", "3", "4") == "square 3 4" {}
  lemma ShortText() ensures Two(KEYWORD, "3") == "rectangle 3" {}

  /** A line whose first word is not the keyword is rejected, naming the line. */
  lemma RejectsSquare()
    ensures ParseLine("square 3 4") == Fail(IllegalBed(ILLEGAL_BED + "square 3 4"))
  {
    SquareLine();
    SquareText();
  }

  /** A line with too few words is rejected, naming the line. */
  lemma RejectsShortLine()
    ensures ParseLine("rectangle 3") == Fail(IllegalBed(ILLEGAL_BED + "rectangle 3"))
  {
    ShortLine();
    ShortText();
  }

  /** Three words, the first the keyword in any case, with two numbers: one bed of those dimensions. */
  lemma BedLine(keyword: string, width: string, height: string, w: real, h: real)
    requires IsWord(keyword) && Lower(keyword) == KEYWORD && keyword[0] != '#'
    requires ParseNumber(width) == Some(w) && ParseNumber(height) == Some(h)
    ensures ParseLine(Three(keyword, width, height)) == Add(Rectangle(w, h))
  {
    ParsedIsWord(width);
    ParsedIsWord(height);
    ParseDoubleOfWord(width);
    ParseDoubleOfWord(height);
    KeywordWords(keyword, width, height);
  }

  /**
   The keyword and two dimensions separated by runs of spaces of any length:
   one bed. A dimension may end in trimmable characters before the next run
   of spaces, since `Double.parseDouble` trims them off.
   */
  lemma BedLineWithGaps(keyword: string, g1: string, width: string, g2: string, height: string, w: real, h: real)
    requires IsWord(keyword) && Lower(keyword) == KEYWORD && keyword[0] != '#'
    requires IsGap(g1) && IsGap(g2)
    requires IsPiece(width) && IsPiece(height) && !IsTrimmable(height[|height| - 1])
    requires ParseDouble(width) == Some(w) && ParseDouble(height) == Some(h)
    ensures ParseLine(keyword + g1 + width + g2 + height) == Add(Rectangle(w, h))
  {
    var ws, gaps := [keyword, width, height], [g1, g2];
    var line := keyword + g1 + width + g2 + height;
    assert JoinWith(ws, gaps) == line by {
      assert JoinWith(ws[1..][1..], gaps[1..][1..]) == height;
      assert JoinWith(ws[1..], gaps[1..]) == width + g2 + height;
    }
    WordIsPiece(keyword);
    LineOfPieces(ws, gaps);
    KeywordLine(keyword, width, height, line);
  }

  lemma CapitalLine()
    ensures ParseLine(Three("RECTANGLE", "3", "4")) == Add(Rectangle(3.0, 4.0))
  {
    CapitalWord();
    DigitWords();
    BedLine("RECTANGLE", "3", "4", 3.0, 4.0);
  }

  lemma LowerLine()
    ensures ParseLine(Three(KEYWORD, "3", "4")) == Add(Rectangle(3.0, 4.0))
  {
    KeywordIsWord();
    DigitWords();
    BedLine(KEYWORD, "3", "4", 3.0, 4.0);
  }

  lemma ReadsCapitalLine()
    ensures ParseLine("RECTANGLE 3 4") == Add(Rectangle(3.0, 4.0))
  {
    CapitalLine();
    CapitalText();
  }

  lemma ReadsLowerLine()
    ensures ParseLine("rectangle 3 4") == Add(Rectangle(3.0, 4.0))
  {
    LowerLine();
    LowerText();
  }

  /** The keyword in capitals reads as in lower case: both lines give the same 3 by 4 bed. */
  lemma ReadsCapitalKeyword()
    ensures ParseLine("RECTANGLE 3 4") == ParseLine("rectangle 3 4") == Add(Rectangle(3.0, 4.0))
  {
    ReadsCapitalLine();
    ReadsLowerLine();
  }

  /**
   The text form of a bed reads back as that bed, given a number formatter
   whose output the number parser maps back to the same value.
   */
  lemma BedTextReadsBack(r: Rectangle, fmt: real -> string)
    requires ParseNumber(fmt(r.width)) == Some(r.width)
    requires ParseNumber(fmt(r.height)) == Some(r.height)
    ensures ParseLine(r.ToString(fmt)) == Add(r)
  {
    TitleWord();
    ToStringIsThree(r, fmt);
    BedLine("Rectangle", fmt(r.width), fmt(r.height), r.width, r.height);
  }

  lemma ToStringIsThree(r: Rectangle, fmt: real -> string)
    ensures r.ToString(fmt) == Three("Rectangle", fmt(r.width), fmt(r.height))
  {
  }

  /** The design text of a list of beds: one line per bed, in order. */
  function DesignText(beds: seq<Rectangle>, fmt: real -> string): (lines: seq<string>)
    ensures |lines| == |beds|
    ensures forall i :: 0 <= i < |beds| ==> lines[i] == beds[i].ToString(fmt)
  {
    seq(|beds|, i requires 0 <= i < |beds| => beds[i].ToString(fmt))
  }

  lemma {:induction false} GatherAdds(outcomes: seq<LineOutcome>, beds: seq<Rectangle>)
    requires |outcomes| == |beds|
    requires forall i :: 0 <= i < |beds| ==> outcomes[i] == Add(beds[i])
    ensures Gather(outcomes) == ReadResult(beds, None)
  {
    if beds != [] {
      GatherAdds(outcomes[1..], beds[1..]);
      assert [beds[0]] + beds[1..] == beds;
    }
  }

  /** Writing beds out as text and reading the text back gives the same beds, in the same order. */
  lemma DesignTextReadsBack(beds: seq<Rectangle>, fmt: real -> string)
    requires forall i :: 0 <= i < |beds| ==>
      ParseNumber(fmt(beds[i].width)) == Some(beds[i].width) &&
      ParseNumber(fmt(beds[i].height)) == Some(beds[i].height)
    ensures ReadAll(DesignText(beds, fmt)) == ReadResult(beds, None)
    ensures ReadDesign(DesignText(beds, fmt)) == ReadResult(beds, None)
  {
    var lines := DesignText(beds, fmt);
    forall i | 0 <= i < |beds| ensures Outcomes(lines)[i] == Add(beds[i]) {
      BedTextReadsBack(beds[i], fmt);
    }
    GatherAdds(Outcomes(lines), beds);
    DesignTextScanned(beds, fmt);
    assert lines[..|lines|] == lines;
  }

  /** Every line of a design text starts with the keyword, so the scanner visits them all. */
  lemma DesignTextScanned(beds: seq<Rectangle>, fmt: real -> string)
    ensures ScanEnd(DesignText(beds, fmt)) == |beds|
  {
    var lines := DesignText(beds, fmt);
    if beds != [] {
      var last := lines[|lines| - 1];
      ToStringIsThree(beds[|beds| - 1], fmt);
      assert last[0] == 'R' && !IsJavaWhitespace(last[0]);
    }
  }

  /** A bed whose dimensions are plain decimals, written with the decimal formatter, reads back as itself. */
  lemma DecimalBedReadsBack(w: Decimal, h: Decimal)
    requires ValidDecimal(w) && ValidDecimal(h)
    ensures var fmt := (x: real) => if x == DecimalValue(w) then FormatDecimal(w) else FormatDecimal(h);
      ParseLine(Rectangle(DecimalValue(w), DecimalValue(h)).ToString(fmt))
        == Add(Rectangle(DecimalValue(w), DecimalValue(h)))
  {
    var fmt := (x: real) => if x == DecimalValue(w) then FormatDecimal(w) else FormatDecimal(h);
    DecimalRoundTrip(w);
    DecimalRoundTrip(h);
    BedTextReadsBack(Rectangle(DecimalValue(w), DecimalValue(h)), fmt);
  }

  /** Runs of several spaces between the words read like single spaces. */
  lemma WideLine()
    ensures ParseLine(KEYWORD + "  " + "3" + "   " + "4") == Add(Rectangle(3.0, 4.0))
  {
    KeywordIsWord();
    DigitWords();
    BedLineWithGaps(KEYWORD, "  ", "3", "   ", "4", 3.0, 4.0);
  }

  lemma WideText() ensures KEYWORD + "  " + "3" + "   " + "4" == "rectangle  3   4" {}

  lemma ReadsWideGaps()
    ensures ParseLine("rectangle  3   4") == ParseLine("rectangle 3 4") == Add(Rectangle(3.0, 4.0))
  {
    WideLine();
    WideText();
    ReadsLowerLine();
  }

  /** A width followed by a tab is still read: `Double.parseDouble` trims the tab off. */
  lemma TabWidth()
    ensures IsPiece("3\t") && ParseDouble("3\t") == Some(3.0)
  {
    assert TrimStart("3\t") == "3\t";
    assert "3\t"[..1] == "3";
    assert Trim("3\t") == "3";
    DigitWords();
  }

  lemma TabLine()
    ensures ParseLine(KEYWORD + " " + "3\t" + " " + "4") == Add(Rectangle(3.0, 4.0))
  {
    KeywordIsWord();
    DigitWords();
    TabWidth();
    BedLineWithGaps(KEYWORD, " ", "3\t", " ", "4", 3.0, 4.0);
  }

  lemma TabText() ensures KEYWORD + " " + "3\t" + " " + "4" == "rectangle 3\t 4" {}

  lemma ReadsTabAfterWidth()
    ensures ParseLine("rectangle 3\t 4") == Add(Rectangle(3.0, 4.0))
  {
    TabLine();
    TabText();
  }

  /**
   The scanner's stop makes a difference only for lines made wholly of
   whitespace above U+0020: when every line holds a token or is blank once
   trimmed, reading the design is reading all its lines.
   */
  lemma TrailingBlankLinesIgnored(lines: seq<string>)
    requires forall j :: 0 <= j < |lines| ==> HasToken(lines[j]) || IsBlank(lines[j])
    ensures ReadDesign(lines) == ReadAll(lines)
  {
    var n := ScanEnd(lines);
    ScanEndFacts(lines);
    var rest := lines[n..];
    forall j | 0 <= j < |rest| ensures IsIgnorable(Trim(rest[j])) {
      assert rest[j] == lines[n + j];
      TrimFacts(rest[j]);
    }
    IgnorableLinesReadNothing(rest);
    assert lines == lines[..n] + rest;
    ReadAllAppend(lines[..n], rest);
    assert ReadAll(lines[..n]).beds + [] == ReadAll(lines[..n]).beds;
  }

  /**
   A last line holding only an ideographic space: `hasNext` is false before
   it, so the design reads as empty, although the line itself, which trimming
   leaves as it is, would be rejected.
   */
  lemma IdeographicSpaceLine()
    ensures ReadDesign(["\U{3000}"]) == ReadResult([], None)
    ensures ReadAll(["\U{3000}"]) == ReadResult([], Some(IllegalBed(ILLEGAL_BED + "\U{3000}")))
  {
    var lines := ["\U{3000}"];
    assert !HasToken(lines[0]);
    assert lines[..ScanEnd(lines)] == [];
    TrimKeeps(lines[0]);
    ReadFirst(lines);
    assert lines[1..] == [];
  }

  lemma LetterWords()
    ensures IsWord("x") && IsWord("y") && ParseDouble("x") == None && ParseDouble("y") == None
  {
    ParseDoubleOfWord("x");
    ParseDoubleOfWord("y");
  }

  lemma BadHeightLine()
    ensures ParseLine(Three(KEYWORD, "3", "x")) == Fail(BadNumber("x"))
  {
    KeywordIsWord();
    DigitWords();
    LetterWords();
    KeywordWords(KEYWORD, "3", "x");
  }

  lemma BadWidthLine()
    ensures ParseLine(Three(KEYWORD, "y", "x")) == Fail(BadNumber("y"))
  {
    KeywordIsWord();
    LetterWords();
    KeywordWords(KEYWORD, "y", "x");
  }

  lemma BadText() ensures Three(KEYWORD, "3", "x") == "rectangle 3 x" && Three(KEYWORD, "y", "x") == "rectangle y x" {}

  /** A height that is not a number is reported as such. */
  lemma RejectsBadHeight()
    ensures ParseLine("rectangle 3 x") == Fail(BadNumber("x"))
  {
    BadHeightLine();
    BadText();
  }

  /** With both dimensions bad, the width is the one reported. */
  lemma RejectsBadWidthFirst()
    ensures ParseLine("rectangle y x") == Fail(BadNumber("y"))
  {
    BadWidthLine();
    BadText();
  }
}
