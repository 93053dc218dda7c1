// The interpretation side of backend/utils/ai-service.js: the scanner that
// splits the completion text into six sections by their Chinese headings
// (`parseInterpretation`), the fixed fallback interpretation
// (`getMockInterpretation`) and the rule that any failure of the completion
// service yields that fallback (`getAIInterpretation`). The HTTP exchange
// itself and the prompt texts are not part of this model: the outcome of the
// exchange is an input.
module AiService {
  import opened Wrappers
  import opened JsStrings

  /** The six keys of an interpretation. */
  datatype SectionKey = Overview | Personality | Love | Career | Wealth | Health

  const AllKeys: set<SectionKey> := {Overview, Personality, Love, Career, Wealth, Health}

  /** `Object.entries(sectionMap)`: each heading with its key, in the order
      the headings are tried. */
  const SectionMap: seq<(string, SectionKey)> := [
    ("总体概况", Overview), ("性格特征", Personality), ("感情运势", Love),
    ("事业运势", Career), ("财运趋势", Wealth), ("健康提示", Health)]

  /** The six keys are all there are. */
  lemma KeyCases(k: SectionKey)
    ensures k in AllKeys
  {
    match k
    case Overview =>
    case Personality =>
    case Love =>
    case Career =>
    case Wealth =>
    case Health =>
  }

  // ---------------------------------------------------------------------
  // Headings

  /** The key of the first heading from entry `i` on that occurs in the
      line, or `None` when none of them does. */
  function HeadingFrom(line: string, i: nat): Option<SectionKey>
    requires i <= |SectionMap|
    decreases |SectionMap| - i
  {
    if i == |SectionMap| then None
    else if Includes(line, SectionMap[i].0) then Some(SectionMap[i].1)
    else HeadingFrom(line, i + 1)
  }

  /** The section a line heads: the first entry of sectionMap whose title
      the line contains anywhere; `None` for a line that heads nothing. */
  function Heading(line: string): Option<SectionKey>
  {
    HeadingFrom(line, 0)
  }

  /** A line heads section `SectionMap[j].1` exactly when it contains that
      title and none of the titles tried before it; it heads nothing
      exactly when it contains none of the six titles. */
  lemma {:induction false} HeadingFirstMatch(line: string, i: nat)
    requires i <= |SectionMap|
    ensures HeadingFrom(line, i) == None <==> forall j :: i <= j < |SectionMap| ==> !Includes(line, SectionMap[j].0)
    ensures forall j :: i <= j < |SectionMap| ==>
              (HeadingFrom(line, i) == Some(SectionMap[j].1) <==>
                 Includes(line, SectionMap[j].0) && forall m :: i <= m < j ==> !Includes(line, SectionMap[m].0))
    decreases |SectionMap| - i
  {
    if i < |SectionMap| {
      HeadingFirstMatch(line, i + 1);
    }
  }

  /** The inner loop of `parseInterpretation`: try the titles in order and
      stop at the first one the line contains. */
  method MatchHeading(line: string) returns (title: Option<SectionKey>)
    ensures title == Heading(line)
  {
    title := None;
    var j := 0;
    while j < |SectionMap|
      invariant 0 <= j <= |SectionMap|
      invariant Heading(line) == HeadingFrom(line, j)
    {
      if Includes(line, SectionMap[j].0) {
        title := Some(SectionMap[j].1);
        break;
      }
      j := j + 1;
    }
  }

  // ---------------------------------------------------------------------
  // Lines as the scanner sees them

  /** The length of the heading mark "##" that opens a line, 0 if none. */
  function MarkLength(line: string): nat
  {
    if StartsWith(line, "##") then 2 else 0
  }

  /** A content line as it is kept: a leading "##" and the white space after
      it removed, then trimmed at both ends. What is kept is one piece
      `line[a..b]` of the line: before it only the mark and white space,
      after it only white space. */
  function Clean(line: string): (r: string)
    ensures exists a, b :: PieceOf(line, MarkLength(line), r, a, b)
    ensures Trimmed(r)
  {
    CleanIsSlice(line);
    Trim(StripHeadingMarks(line))
  }

  /** Stripping the mark and trimming keeps one piece of the line. */
  lemma CleanIsSlice(line: string)
    ensures exists a, b :: PieceOf(line, MarkLength(line), Trim(StripHeadingMarks(line)), a, b)
  {
    var u := StripHeadingMarks(line);
    var n: int := 0;
    if StartsWith(line, "##") {
      n :| PieceOf(line, 2, u, n, |line|);
    } else {
      assert PieceOf(line, 0, u, 0, |line|);
    }
    var t := Trim(u);
    var a, b :| PieceOf(u, 0, t, a, b);
    PieceOfPiece(line, MarkLength(line), u, n, t, a, b);
  }

  /** A blank or white-space-only line cleans to nothing, so the guard
      `line.trim()` drops no line that would have been kept. */
  lemma BlankLineDropped(line: string)
    requires Trim(line) == ""
    ensures Clean(line) == ""
  {
    if line != [] {
      assert IsSpace(line[0]);
      assert !StartsWith(line, "##");
    }
  }

  /** Cleaning takes a piece out of the line, so it adds no character. */
  lemma CleanAddsNothing(line: string, c: char)
    requires c !in line
    ensures c !in Clean(line)
  {
    var u := StripHeadingMarks(line);
    assert c !in u by {
      if StartsWith(line, "##") {
        var v := line[2..];
        assert c !in v;
        assert u == v[SpaceRunEnd(v, 0)..];
      }
    }
    var t := TrimStart(u);
    assert c !in t;
    var r := TrimEnd(t);
    assert c !in r;
  }

  /** A line of the completion text, classified: a heading line for a
      section, or any other line with its cleaned text. */
  datatype Line = Title(key: SectionKey) | Content(text: string)

  /** A line as the scanner sees it: a heading line for the section
      `Heading` finds in it, or else a content line with its cleaned text. */
  function Classify(line: string): Line
  {
    match Heading(line)
    case Some(k) => Title(k)
    case None => Content(Clean(line))
  }

  /** A line is a heading line exactly when it contains one of the six
      titles, and then it heads the section of the first title, in
      sectionMap order, that it contains; any other line is kept as its
      cleaned text. */
  lemma ClassifyByTitles(line: string)
    ensures Classify(line).Title? <==> exists j :: 0 <= j < |SectionMap| && Includes(line, SectionMap[j].0)
    ensures forall j :: 0 <= j < |SectionMap| ==>
              (Classify(line) == Title(SectionMap[j].1) <==>
                 Includes(line, SectionMap[j].0) && forall m :: 0 <= m < j ==> !Includes(line, SectionMap[m].0))
    ensures Classify(line).Content? ==> Classify(line).text == Clean(line)
  {
    HeadingFirstMatch(line, 0);
  }

  /** Each line of `lines`, classified. */
  function Classified(lines: seq<string>): (ls: seq<Line>)
    ensures |ls| == |lines|
  {
    if lines == [] then [] else Classified(lines[..|lines| - 1]) + [Classify(lines[|lines| - 1])]
  }

  /** Classifying one more line of a prefix. */
  lemma ClassifiedSnoc(lines: seq<string>, i: nat)
    requires i < |lines|
    ensures Classified(lines[..i + 1]) == Classified(lines[..i]) + [Classify(lines[i])]
  {
    assert lines[..i + 1][..i] == lines[..i];
  }

  /** The classified line at a position is that line, classified. */
  lemma {:induction false} ClassifiedAt(lines: seq<string>, i: nat)
    requires i < |lines|
    ensures Classified(lines)[i] == Classify(lines[i])
  {
    var n := |lines| - 1;
    var init := Classified(lines[..n]);
    assert Classified(lines) == init + [Classify(lines[n])];
    if i < n {
      ClassifiedAt(lines[..n], i);
      assert init[i] == Classify(lines[..n][i]);
      assert lines[..n][i] == lines[i];
    }
  }

  /** No line from position `i` on is a heading line. */
  predicate NoTitleFrom(ls: seq<Line>, i: nat) {
    forall m :: i <= m < |ls| ==> ls[m].Content?
  }

  /** The position of the last heading line, of any section. */
  function LastTitle(ls: seq<Line>): (j: Option<nat>)
    ensures j.Some? ==> j.value < |ls| && ls[j.value].Title?
  {
    if ls == [] then None
    else if ls[|ls| - 1].Title? then Some(|ls| - 1)
    else LastTitle(ls[..|ls| - 1])
  }

  /** There is no last heading line exactly when there is no heading line
      at all, and no heading line follows the last one. */
  lemma {:induction false} LastTitleSpec(ls: seq<Line>)
    ensures LastTitle(ls).None? <==> NoTitleFrom(ls, 0)
    ensures LastTitle(ls).Some? ==> NoTitleFrom(ls, LastTitle(ls).value + 1)
  {
    if ls != [] {
      var n := |ls| - 1;
      var init := ls[..n];
      LastTitleSpec(init);
      assert forall m :: 0 <= m < n ==> ls[m] == init[m];
    }
  }

  /** The position of the last line that heads section `k`. */
  function LastTitleOf(ls: seq<Line>, k: SectionKey): (j: Option<nat>)
    ensures j.Some? ==> j.value < |ls| && ls[j.value] == Title(k)
  {
    if ls == [] then None
    else if ls[|ls| - 1] == Title(k) then Some(|ls| - 1)
    else LastTitleOf(ls[..|ls| - 1], k)
  }

  /** No line after the one LastTitleOf finds heads `k`, and when it finds
      none, no line at all heads `k`. */
  lemma {:induction false} LastTitleOfSpec(ls: seq<Line>, k: SectionKey)
    ensures LastTitleOf(ls, k).None? ==> forall m :: 0 <= m < |ls| ==> ls[m] != Title(k)
    ensures LastTitleOf(ls, k).Some? ==> forall m :: LastTitleOf(ls, k).value < m < |ls| ==> ls[m] != Title(k)
  {
    if ls != [] && ls[|ls| - 1] != Title(k) {
      var init := ls[..|ls| - 1];
      LastTitleOfSpec(init, k);
      assert forall m :: 0 <= m < |init| ==> ls[m] == init[m];
    }
  }

  /** A line that heads `k`, with no line after it heading `k`, is the one
      LastTitleOf finds. */
  lemma {:induction false} LastTitleOfIs(ls: seq<Line>, j: nat, k: SectionKey)
    requires j < |ls| && ls[j] == Title(k)
    requires forall m :: j < m < |ls| ==> ls[m] != Title(k)
    ensures LastTitleOf(ls, k) == Some(j)
  {
    var n := |ls| - 1;
    if j < n {
      var init := ls[..n];
      assert forall m :: j < m < n ==> init[m] == ls[m];
      LastTitleOfIs(init, j, k);
    }
  }

  /** When no line heads `k`, LastTitleOf finds nothing. */
  lemma {:induction false} LastTitleOfNone(ls: seq<Line>, k: SectionKey)
    requires forall m :: 0 <= m < |ls| ==> ls[m] != Title(k)
    ensures LastTitleOf(ls, k).None?
  {
    if ls != [] {
      var init := ls[..|ls| - 1];
      assert forall m :: 0 <= m < |init| ==> init[m] == ls[m];
      LastTitleOfNone(init, k);
    }
  }

  /** Heading lines for `k` in a later run win over those in an earlier one. */
  lemma {:induction false} LastTitleOfConcat(a: seq<Line>, b: seq<Line>, k: SectionKey)
    ensures LastTitleOf(a + b, k)
            == match LastTitleOf(b, k)
               case Some(j) => Some(|a| + j)
               case None => LastTitleOf(a, k)
  {
    if b == [] {
      assert a + b == a;
    } else {
      var n := |b| - 1;
      assert (a + b)[..|a| + n] == a + b[..n];
      assert (a + b)[|a| + n] == b[n];
      LastTitleOfConcat(a, b[..n], k);
    }
  }

  /** The kept content of the lines from position `i` up to the next
      heading line: the cleaned texts, without the ones that cleaned to
      nothing. Every kept line is non-empty and is the text of one of the
      lines (KeptFromLines). */
  function KeptFrom(ls: seq<Line>, i: nat): (kept: seq<string>)
    ensures forall m :: 0 <= m < |kept| ==> kept[m] != ""
    decreases |ls| - i
  {
    if i >= |ls| || ls[i].Title? then []
    else (if ls[i].text != "" then [ls[i].text] else []) + KeptFrom(ls, i + 1)
  }

  /** Every kept line is the text of one of the lines. */
  lemma {:induction false} KeptFromLines(ls: seq<Line>, i: nat)
    ensures forall m :: 0 <= m < |KeptFrom(ls, i)| ==> Content(KeptFrom(ls, i)[m]) in ls
    decreases |ls| - i
  {
    if i < |ls| && ls[i].Content? {
      KeptFromLines(ls, i + 1);
    }
  }

  /** One more line at the end: it adds its cleaned text only if neither
      the run from `i` nor the line itself holds a heading line. */
  lemma {:induction false} KeptFromSnoc(ls: seq<Line>, x: Line, i: nat)
    requires i <= |ls|
    ensures !NoTitleFrom(ls, i) || x.Title? ==> KeptFrom(ls + [x], i) == KeptFrom(ls, i)
    ensures NoTitleFrom(ls, i) && x.Content? ==>
              KeptFrom(ls + [x], i) == KeptFrom(ls, i) + (if x.text != "" then [x.text] else [])
    decreases |ls| - i
  {
    if i == |ls| {
      assert (ls + [x])[i] == x;
      assert KeptFrom(ls + [x], i + 1) == [];
    } else {
      assert (ls + [x])[i] == ls[i];
      if ls[i].Content? {
        KeptFromSnoc(ls, x, i + 1);
      }
    }
  }

  /** The kept content of a run that follows another one. */
  lemma {:induction false} KeptFromConcat(a: seq<Line>, b: seq<Line>, i: nat)
    requires i <= |b|
    ensures KeptFrom(a + b, |a| + i) == KeptFrom(b, i)
    decreases |b| - i
  {
    if i < |b| {
      assert (a + b)[|a| + i] == b[i];
      KeptFromConcat(a, b, i + 1);
    }
  }

  /** The text of section `k`: nothing when no line heads it; otherwise the
      kept content after its LAST heading line, joined with line breaks. */
  function SectionText(ls: seq<Line>, k: SectionKey): string
  {
    match LastTitleOf(ls, k)
    case None => ""
    case Some(j) => Join(KeptFrom(ls, j + 1), '\n')
  }

  /** Two line sequences with the same last heading for `k` and the same
      content after it give `k` the same text. */
  lemma SameSectionText(a: seq<Line>, b: seq<Line>, k: SectionKey)
    requires LastTitleOf(a, k) == LastTitleOf(b, k)
    requires LastTitleOf(a, k).Some? ==>
               KeptFrom(a, LastTitleOf(a, k).value + 1) == KeptFrom(b, LastTitleOf(a, k).value + 1)
    ensures SectionText(a, k) == SectionText(b, k)
  {
    match LastTitleOf(a, k)
    case None =>
      SectionTextNone(a, k);
      SectionTextNone(b, k);
    case Some(j) =>
      SectionTextAt(a, k, j);
      SectionTextAt(b, k, j);
  }

  /** Joining non-empty trimmed lines gives a trimmed text, so the final
      `.trim()` changes nothing. */
  lemma JoinTrimmedUnchanged(parts: seq<string>)
    requires forall m :: 0 <= m < |parts| ==> parts[m] != "" && Trimmed(parts[m])
    ensures Trim(Join(parts, '\n')) == Join(parts, '\n')
  {
    JoinTrimmed(parts, '\n');
  }

  /** A sequence grown by one element, cut back. */
  lemma SnocPrefix<T>(s: seq<T>, x: T)
    ensures (s + [x])[..|s|] == s
  {
  }

  /** A heading line never comes after the last one. */
  lemma TitleNotAfterLast(ls: seq<Line>, j: nat)
    requires j < |ls| && ls[j].Title?
    ensures LastTitle(ls).Some? && j <= LastTitle(ls).value
  {
    LastTitleSpec(ls);
  }

  /** The section of the last heading line: its text is the content after
      that line. */
  lemma SectionOfLastTitle(ls: seq<Line>, last: nat, c: SectionKey)
    requires LastTitle(ls) == Some(last) && ls[last] == Title(c)
    ensures SectionText(ls, c) == Join(KeptFrom(ls, last + 1), '\n')
  {
    assert LastTitleOf(ls, c) == Some(last) by {
      LastTitleSpec(ls);
      LastTitleOfIs(ls, last, c);
    }
    SectionTextAt(ls, c, last);
  }

  /** The text of a section headed by line `last`. */
  lemma SectionTextAt(ls: seq<Line>, c: SectionKey, last: nat)
    requires LastTitleOf(ls, c) == Some(last)
    ensures SectionText(ls, c) == Join(KeptFrom(ls, last + 1), '\n')
  {
  }

  /** The text of a section headed by line `last` and followed by the
      kept content `kept`. */
  lemma SectionTextIs(ls: seq<Line>, c: SectionKey, last: nat, kept: seq<string>)
    requires LastTitleOf(ls, c) == Some(last)
    requires KeptFrom(ls, last + 1) == kept
    ensures SectionText(ls, c) == Join(kept, '\n')
  {
    SectionTextAt(ls, c, last);
  }

  /** The text of a section no line heads. */
  lemma SectionTextNone(ls: seq<Line>, c: SectionKey)
    requires LastTitleOf(ls, c).None?
    ensures SectionText(ls, c) == ""
  {
  }

  /** Scanning a heading line for `h` leaves the text of another section
      `k` as it was. */
  lemma TitleStepOther(ls: seq<Line>, h: SectionKey, k: SectionKey, text: string)
    requires k != h
    requires text == SectionText(ls, k)
    ensures text == SectionText(ls + [Title(h)], k)
  {
    var r := LastTitleOf(ls, k);
    assert LastTitleOf(ls + [Title(h)], k) == r by {
      SnocPrefix(ls, Title(h));
    }
    if r.Some? {
      KeptFromSnoc(ls, Title(h), r.value + 1);
    }
  }

  /** Scanning a heading line for `h`: it becomes the last heading line,
      with nothing after it yet. */
  lemma TitleStep(ls: seq<Line>, h: SectionKey)
    ensures LastTitle(ls + [Title(h)]) == Some(|ls|)
    ensures (ls + [Title(h)])[|ls|] == Title(h)
    ensures KeptFrom(ls + [Title(h)], |ls| + 1) == []
  {
  }

  /** Scanning a line that heads nothing, seen from another section `k`:
      its last heading line stays, and so does the content after it. */
  lemma ContentStepOtherParts(ls: seq<Line>, x: Line, current: Option<SectionKey>, last: nat, k: SectionKey)
    requires x.Content?
    requires current.None? ==> LastTitle(ls).None?
    requires current.Some? ==> LastTitle(ls) == Some(last) && ls[last] == Title(current.value)
    requires current != Some(k)
    ensures LastTitleOf(ls + [x], k) == LastTitleOf(ls, k)
    ensures LastTitleOf(ls, k).Some? ==>
              KeptFrom(ls + [x], LastTitleOf(ls, k).value + 1) == KeptFrom(ls, LastTitleOf(ls, k).value + 1)
  {
    var r := LastTitleOf(ls, k);
    assert LastTitleOf(ls + [x], k) == r by {
      SnocPrefix(ls, x);
    }
    if r.Some? {
      var j := r.value;
      TitleNotAfterLast(ls, j);
      assert !NoTitleFrom(ls, j + 1) by {
        assert j < last && ls[last].Title?;
      }
      KeptFromSnoc(ls, x, j + 1);
    }
  }

  /** Scanning a line that heads nothing leaves the text of every section
      other than the current one as it was. */
  lemma ContentStepOther(ls: seq<Line>, x: Line, current: Option<SectionKey>, last: nat, k: SectionKey, text: string)
    requires x.Content?
    requires current.None? ==> LastTitle(ls).None?
    requires current.Some? ==> LastTitle(ls) == Some(last) && ls[last] == Title(current.value)
    requires current != Some(k)
    requires text == SectionText(ls, k)
    ensures text == SectionText(ls + [x], k)
  {
    ContentStepOtherParts(ls, x, current, last, k);
    SameSectionText(ls + [x], ls, k);
  }

  /** Scanning a line that heads nothing: the last heading stays and the
      content after it grows by the cleaned line. */
  lemma ContentStep(ls: seq<Line>, x: Line, current: Option<SectionKey>, last: nat)
    requires x.Content?
    requires current.None? ==> LastTitle(ls).None?
    requires current.Some? ==> LastTitle(ls) == Some(last) && ls[last] == Title(current.value)
    ensures LastTitle(ls + [x]) == LastTitle(ls)
    ensures current.Some? ==>
              KeptFrom(ls + [x], last + 1) == KeptFrom(ls, last + 1) + (if x.text != "" then [x.text] else [])
  {
    assert LastTitle(ls + [x]) == LastTitle(ls) by {
      SnocPrefix(ls, x);
    }
    if current.Some? {
      assert NoTitleFrom(ls, last + 1) by {
        LastTitleSpec(ls);
      }
      KeptFromSnoc(ls, x, last + 1);
    }
  }

  // ---------------------------------------------------------------------
  // The scanner

  /** What the scanner knows after the lines `ls`: every key is present;
      the current section is the one of the last heading line, if any; the
      buffer holds that section's kept content so far, each line trimmed;
      and every other section already holds its text. */
  ghost predicate ScanState(ls: seq<Line>, sections: map<SectionKey, string>, currentSection: Option<SectionKey>,
                            currentContent: seq<string>, last: nat)
  {
    && sections.Keys == AllKeys
    && (currentSection.None? ==> LastTitle(ls).None?)
    && (currentSection.Some? ==>
          && LastTitle(ls) == Some(last)
          && ls[last] == Title(currentSection.value)
          && currentContent == KeptFrom(ls, last + 1)
          && forall m :: 0 <= m < |currentContent| ==> Trimmed(currentContent[m]))
    && forall k :: k in AllKeys && currentSection != Some(k) ==> sections[k] == SectionText(ls, k)
  }

  /** The buffer of the current section, joined and trimmed, is that
      section's text. */
  lemma StoredIsSectionText(ls: seq<Line>, sections: map<SectionKey, string>, currentSection: Option<SectionKey>,
                            currentContent: seq<string>, last: nat)
    requires ScanState(ls, sections, currentSection, currentContent, last)
    requires currentSection.Some?
    ensures Trim(Join(currentContent, '\n')) == SectionText(ls, currentSection.value)
  {
    SectionOfLastTitle(ls, last, currentSection.value);
    JoinTrimmedUnchanged(currentContent);
  }

  /** Scanning a heading line for `h`: the text `stored` of the section
      that was current goes into it, and `h` becomes current with an empty
      buffer. */
  lemma TitleScanned(ls: seq<Line>, sections: map<SectionKey, string>, currentSection: Option<SectionKey>,
                     currentContent: seq<string>, last: nat, h: SectionKey, stored: string)
    requires ScanState(ls, sections, currentSection, currentContent, last)
    requires currentSection.Some? ==> stored == SectionText(ls, currentSection.value)
    ensures var sections' := if currentSection.Some? then sections[currentSection.value := stored] else sections;
            ScanState(ls + [Title(h)], sections', Some(h), [], |ls|)
  {
    var sections' := if currentSection.Some? then sections[currentSection.value := stored] else sections;
    TitleStep(ls, h);
    if currentSection.Some? {
      KeyCases(currentSection.value);
    }
    forall k | k in AllKeys && k != h
      ensures sections'[k] == SectionText(ls + [Title(h)], k)
    {
      TitleStepOther(ls, h, k, sections'[k]);
    }
  }

  /** Scanning a line that heads nothing: its cleaned text joins the
      buffer if a section is current and the text is not empty. */
  lemma ContentScanned(ls: seq<Line>, sections: map<SectionKey, string>, currentSection: Option<SectionKey>,
                       currentContent: seq<string>, last: nat, text: string)
    requires ScanState(ls, sections, currentSection, currentContent, last)
    requires Trimmed(text)
    ensures var currentContent' := if currentSection.Some? && text != "" then currentContent + [text] else currentContent;
            ScanState(ls + [Content(text)], sections, currentSection, currentContent', last)
  {
    ContentStep(ls, Content(text), currentSection, last);
    forall k | k in AllKeys && currentSection != Some(k)
      ensures sections[k] == SectionText(ls + [Content(text)], k)
    {
      ContentStepOther(ls, Content(text), currentSection, last, k, sections[k]);
    }
  }

  /** The body of the scanning loop of `parseInterpretation`, for one line.
      A heading line stores the buffered content, trimmed, into the current
      section (if there is one), makes its own section current and empties
      the buffer; any other line, once a section is current, is cleaned and
      buffered unless it is blank or cleans to nothing. */
  method ScanLine(line: string, sections: map<SectionKey, string>, currentSection: Option<SectionKey>,
                  currentContent: seq<string>, ghost ls: seq<Line>, ghost last: nat)
    returns (sections': map<SectionKey, string>, currentSection': Option<SectionKey>,
             currentContent': seq<string>, ghost last': nat)
    requires ScanState(ls, sections, currentSection, currentContent, last)
    ensures ScanState(ls + [Classify(line)], sections', currentSection', currentContent', last')
  {
    sections', currentSection', currentContent', last' := sections, currentSection, currentContent, last;
    var isTitle := false;
    var title := MatchHeading(line);
    if title.Some? {
      var stored := Trim(Join(currentContent, '\n'));
      if currentSection.Some? {
        StoredIsSectionText(ls, sections, currentSection, currentContent, last);
        sections' := sections[currentSection.value := stored];
      }
      TitleScanned(ls, sections, currentSection, currentContent, last, title.value, stored);
      currentSection' := title;
      currentContent' := [];
      last' := |ls|;
      isTitle := true;
    } else {
      ContentScanned(ls, sections, currentSection, currentContent, last, Clean(line));
    }
    if !isTitle && currentSection.Some? && Trim(line) != "" {
      var cleanLine := Trim(StripHeadingMarks(line));
      if cleanLine != "" {
        currentContent' := currentContent + [cleanLine];
      }
    } else if !isTitle && currentSection.Some? {
      BlankLineDropped(line);
    }
  }

  /** The end of `parseInterpretation`: the buffer, trimmed, is stored into
      the current section, after which every section holds its text. */
  method StoreLast(sections: map<SectionKey, string>, currentSection: Option<SectionKey>,
                   currentContent: seq<string>, ghost ls: seq<Line>, ghost last: nat)
    returns (sections': map<SectionKey, string>)
    requires ScanState(ls, sections, currentSection, currentContent, last)
    ensures sections'.Keys == AllKeys
    ensures forall k :: k in AllKeys ==> sections'[k] == SectionText(ls, k)
  {
    sections' := sections;
    if currentSection.Some? {
      var stored := Trim(Join(currentContent, '\n'));
      StoredIsSectionText(ls, sections, currentSection, currentContent, last);
      KeyCases(currentSection.value);
      sections' := sections[currentSection.value := stored];
    }
  }

  /** The body of `parseInterpretation` after the split: every section
      starts empty, the lines are scanned once (ScanLine), and at the end
      the buffer is stored into the current section (StoreLast). So every
      section holds exactly its SectionText: the content after its last
      heading, and '' when it has no heading. */
  method ScanLines(lines: seq<string>) returns (sections: map<SectionKey, string>)
    ensures sections.Keys == AllKeys
    ensures forall k :: k in AllKeys ==> sections[k] == SectionText(Classified(lines), k)
  {
    sections := map[Overview := "", Personality := "", Love := "", Career := "", Wealth := "", Health := ""];
    var currentSection: Option<SectionKey> := None;
    var currentContent: seq<string> := [];
    ghost var last: nat := 0;
    for i := 0 to |lines|
      invariant ScanState(Classified(lines[..i]), sections, currentSection, currentContent, last)
    {
      ClassifiedSnoc(lines, i);
      sections, currentSection, currentContent, last :=
        ScanLine(lines[i], sections, currentSection, currentContent, Classified(lines[..i]), last);
    }
    assert lines[..|lines|] == lines;
    sections := StoreLast(sections, currentSection, currentContent, Classified(lines), last);
  }

  /** `parseInterpretation`: the text is split at its line breaks and the
      lines are scanned (ScanLines). */
  method ParseInterpretation(text: string) returns (sections: map<SectionKey, string>)
    ensures sections.Keys == AllKeys
    ensures forall k :: k in AllKeys ==> sections[k] == SectionText(Classified(Split(text, '\n')), k)
  {
    var lines := Split(text, '\n');
    sections := ScanLines(lines);
  }

  // ---------------------------------------------------------------------
  // What the scanner promises

  /** Lines before the first heading count for no section. */
  lemma LeadingLinesIgnored(preamble: seq<Line>, ls: seq<Line>, k: SectionKey)
    requires NoTitleFrom(preamble, 0)
    ensures SectionText(preamble + ls, k) == SectionText(ls, k)
  {
    assert forall m :: 0 <= m < |preamble| ==> preamble[m] != Title(k);
    LastTitleOfNone(preamble, k);
    LastTitleOfConcat(preamble, ls, k);
    match LastTitleOf(ls, k)
    case Some(j) =>
      KeptFromConcat(preamble, ls, j + 1);
      SectionTextIs(preamble + ls, k, |preamble| + j, KeptFrom(ls, j + 1));
      SectionTextAt(ls, k, j);
    case None =>
      SectionTextNone(preamble + ls, k);
      SectionTextNone(ls, k);
  }

  /** A heading that occurs again restarts its section: the text is the
      content after the last occurrence, whatever came before it. */
  lemma RepeatedHeadingRestarts(before: seq<Line>, k: SectionKey, after: seq<Line>)
    requires forall m :: 0 <= m < |after| ==> after[m] != Title(k)
    ensures SectionText(before + [Title(k)] + after, k) == Join(KeptFrom(after, 0), '\n')
  {
    var head := before + [Title(k)];
    assert LastTitleOf(head + after, k) == Some(|before|) by {
      assert head[|before|] == Title(k);
      LastTitleOfNone(after, k);
      LastTitleOfConcat(head, after, k);
    }
    assert |head| + 0 == |before| + 1;
    assert KeptFrom(head + after, |before| + 1) == KeptFrom(after, 0) by {
      KeptFromConcat(head, after, 0);
    }
    SectionTextIs(head + after, k, |before|, KeptFrom(after, 0));
  }

  /** A classified line of a text without line breaks has none either. */
  lemma ClassifiedWithoutBreaks(lines: seq<string>, x: Line)
    requires forall m :: 0 <= m < |lines| ==> '\n' !in lines[m]
    requires x in Classified(lines) && x.Content?
    ensures '\n' !in x.text && Trimmed(x.text)
  {
    var ls := Classified(lines);
    var i :| 0 <= i < |ls| && ls[i] == x;
    ClassifiedAt(lines, i);
    CleanAddsNothing(lines[i], '\n');
  }

  /** Every line of a non-empty section text is non-empty and trimmed:
      splitting the section text of a scanned text at its line breaks gives
      back its kept lines. */
  lemma SectionHasNoBlankLine(text: string, k: SectionKey)
    ensures var section := SectionText(Classified(Split(text, '\n')), k);
            section != "" ==> forall p :: p in Split(section, '\n') ==> p != "" && Trimmed(p)
  {
    var lines := Split(text, '\n');
    var ls := Classified(lines);
    match LastTitleOf(ls, k)
    case None =>
    case Some(j) =>
      SectionTextAt(ls, k, j);
      var kept := KeptFrom(ls, j + 1);
      assert forall m :: 0 <= m < |kept| ==> kept[m] != "" && '\n' !in kept[m] && Trimmed(kept[m]) by {
        KeptClean(lines, j + 1);
      }
      if kept != [] {
        SplitOfCleanLines(kept);
      }
  }

  /** Joining non-empty trimmed lines without line breaks and splitting
      the result at its line breaks gives only non-empty trimmed lines. */
  lemma SplitOfCleanLines(kept: seq<string>)
    requires kept != []
    requires forall m :: 0 <= m < |kept| ==> kept[m] != "" && '\n' !in kept[m] && Trimmed(kept[m])
    ensures forall p :: p in Split(Join(kept, '\n'), '\n') ==> p != "" && Trimmed(p)
  {
    SplitJoin(kept, '\n');
    forall p | p in Split(Join(kept, '\n'), '\n') ensures p != "" && Trimmed(p) {
      var m :| 0 <= m < |kept| && kept[m] == p;
    }
  }

  /** Every kept line of lines without line breaks is trimmed and holds no
      line break either. */
  lemma KeptClean(lines: seq<string>, i: nat)
    requires forall m :: 0 <= m < |lines| ==> '\n' !in lines[m]
    ensures forall m :: 0 <= m < |KeptFrom(Classified(lines), i)| ==>
              '\n' !in KeptFrom(Classified(lines), i)[m] && Trimmed(KeptFrom(Classified(lines), i)[m])
  {
    var ls := Classified(lines);
    var kept := KeptFrom(ls, i);
    KeptFromLines(ls, i);
    forall m | 0 <= m < |kept| ensures '\n' !in kept[m] && Trimmed(kept[m]) {
      assert Content(kept[m]) in ls;
      ClassifiedWithoutBreaks(lines, Content(kept[m]));
    }
  }

  /** A line that holds a title somewhere in the middle is a heading line. */
  lemma {:induction false} IncludesInfix(a: string, t: string, b: string)
    ensures Includes(a + t + b, t)
    decreases |a|
  {
    if a == [] {
      assert a + t + b == t + b;
      assert (t + b)[..|t|] == t;
    } else {
      assert (a + t + b)[1..] == a[1..] + t + b;
      IncludesInfix(a[1..], t, b);
    }
  }

  /** A string shorter than a title cannot contain it. */
  lemma {:induction false} IncludesOnlyLonger(s: string, t: string)
    requires |s| < |t|
    ensures !Includes(s, t)
    decreases |s|
  {
    if s != [] {
      IncludesOnlyLonger(s[1..], t);
    }
  }

  /** Every title has four characters, so a shorter line heads nothing. */
  lemma ShortLineHeadsNothing(line: string)
    requires |line| < 4
    ensures Heading(line) == None
  {
    forall j | 0 <= j < |SectionMap| ensures !Includes(line, SectionMap[j].0) {
      IncludesOnlyLonger(line, SectionMap[j].0);
    }
    HeadingFirstMatch(line, 0);
  }

  /** The overview heading as the completion writes it. */
  lemma OverviewHeadingLine()
    ensures Heading("## 总体概况") == Some(Overview)
  {
    IncludesInfix("## ", "总体概况", "");
    assert "## 总体概况" == "## " + "总体概况" + "";
  }

  /** The lines of the example below: the overview heading twice, each
      followed by one content line. */
  const RepeatedOverviewLines: seq<string> := ["## 总体概况", "甲乙", "## 总体概况", "丙丁"]

  /** The third line of the example below is an overview heading. */
  lemma RepeatedOverviewHeading()
    ensures |Classified(RepeatedOverviewLines)| == 4 && Classified(RepeatedOverviewLines)[2] == Title(Overview)
  {
    var lines := RepeatedOverviewLines;
    OverviewHeadingLine();
    ClassifiedAt(lines, 2);
    assert lines[2] == "## 总体概况";
  }

  /** The fourth line of the example below is a content line. */
  lemma RepeatedOverviewContent()
    ensures |Classified(RepeatedOverviewLines)| == 4 && Classified(RepeatedOverviewLines)[3] == Content("丙丁")
  {
    var lines := RepeatedOverviewLines;
    var line := lines[3];
    assert line == "丙丁";
    ShortLineHeadsNothing(line);
    PlainLineClean();
    ClassifiedAt(lines, 3);
  }

  /** A line of two CJK characters is kept as it is. */
  lemma PlainLineClean()
    ensures Clean("丙丁") == "丙丁"
  {
    var line := "丙丁";
    assert line[..2] != "##" by {
      assert line[..2][0] == '丙';
    }
    assert StripHeadingMarks(line) == line;
    assert Trimmed(line);
  }

  /** A repeated 总体概况 heading drops what was written under the first
      one: the overview holds only the line after the second heading. */
  lemma RepeatedOverviewExample()
    ensures SectionText(Classified(RepeatedOverviewLines), Overview) == "丙丁"
  {
    RepeatedOverviewHeading();
    RepeatedOverviewContent();
    OverviewRestarted(Classified(RepeatedOverviewLines));
  }

  /** Four classified lines whose third is the overview heading and whose
      fourth is the content 丙丁 give the overview 丙丁, whatever the first
      two are. */
  lemma OverviewRestarted(ls: seq<Line>)
    requires |ls| == 4 && ls[2] == Title(Overview) && ls[3] == Content("丙丁")
    ensures SectionText(ls, Overview) == "丙丁"
  {
    assert ls == ls[..2] + [Title(Overview)] + [Content("丙丁")];
    RepeatedHeadingRestarts(ls[..2], Overview, [Content("丙丁")]);
    assert KeptFrom([Content("丙丁")], 0) == ["丙丁"];
  }

  // ---------------------------------------------------------------------
  // The fallback and the adapter

  /** The fixed text of one section of the fallback interpretation. */
  function MockText(k: SectionKey): (text: string)
    ensures text != ""
  {
    match k
    case Overview =>
      "您的八字显示出独特的能量组合，" + "五行之间相互作用形成了您特有的命理格局。"
      + "整体而言，" + "您是一个内心丰富、思维活跃的人，" + "具有较强的适应能力和学习能力。"
      + "命局中蕴含着丰富的可能性，" + "建议您在人生道路上保持开放的心态，" + "善于把握机遇。"
    case Personality =>
      "您的性格中兼具理性与感性的特质。"
      + "在处理事务时，" + "您倾向于深思熟虑，" + "不轻易做出决定。"
      + "同时，" + "您对美好事物有着敏锐的感知力，" + "富有创造力和想象力。"
      + "在人际交往中，" + "您可能显得有些内敛，" + "但一旦建立信任，" + "便会展现出真诚和温暖的一面。"
      + "建议您在保持独立思考的同时，" + "也要适当表达自己的想法和情感。"
    case Love =>
      "在感情方面，" + "您是一个重视精神契合的人，" + "相比外在条件，" + "更看重双方的价值观和生活理念是否一致。"
      + "您倾向于稳定、深刻的情感关系，" + "对感情专一且负责。"
      + "建议在感情中保持真诚沟通，" + "不要因为顾虑太多而错失良缘。"
      + "对于已有伴侣的人，" + "建议多花时间了解对方的内心世界，" + "共同成长。"
    case Career =>
      "在事业发展上，" + "您适合需要思考、分析和创造力的工作领域。"
      + "可以考虑文化、教育、咨询、设计或技术类的职业方向。"
      + "您具备持续学习和自我提升的能力，" + "这将成为您职业发展的重要优势。"
      + "建议您选择能够发挥自身特长的领域，" + "不要过分追求外界的认可，" + "而是专注于自己的成长和价值创造。"
    case Wealth =>
      "财运方面，" + "您更适合通过稳定的工作和技能积累来获得收益，" + "而不是投机性的财富增长。"
      + "建议您建立长期的理财规划，" + "注重积累而非快速致富。"
      + "在消费观念上，" + "您可能比较理性，" + "懂得节制，" + "这是很好的品质。"
      + "同时也建议适度投资自己，" + "提升专业能力将带来更好的回报。"
    case Health =>
      "健康方面，" + "建议您注意劳逸结合，" + "避免长期的精神压力。"
      + "定期进行户外活动和运动，" + "有助于保持身心平衡。"
      + "在饮食上，" + "建议规律作息，" + "避免过度劳累。"
      + "同时，" + "保持良好的心态对健康至关重要，" + "遇到问题时不要过度焦虑，" + "学会适当放松和调节。"
      + "如有健康问题，" + "请及时咨询专业医生。"
  }

  /** `getMockInterpretation`: the fixed interpretation returned whenever
      the completion service cannot be used; all six sections have text. */
  function MockInterpretation(): (m: map<SectionKey, string>)
    ensures m.Keys == AllKeys
    ensures forall k :: k in m ==> m[k] != ""
  {
    map k | k in AllKeys :: MockText(k)
  }

  /** What the exchange with the completion service yields, as far as the
      adapter looks at it. */
  datatype Exchange =
    | Rejected                          // `fetch` itself throws
    | NotOk(status: int)                // `response.ok` is false
    | NoMessage                         // the body is no JSON, or has no `choices[0].message`
    | Message(content: Option<string>)  // `choices[0].message.content`; `None` when it is no string

  /** The API key counts as set when it is present and not empty
      (`!DEEPSEEK_API_KEY` is true for both `undefined` and ''). */
  predicate KeySet(apiKey: Option<string>) {
    apiKey.Some? && apiKey.value != ""
  }

  /** `getAIInterpretation` without the network: with no API key, or when
      any step of the exchange fails (a thrown `fetch`, a status that is not
      ok, a body without a message, content that is no string and so makes
      `text.split` throw), the result is the fallback interpretation;
      otherwise it is the parsed content. No failure reaches the caller. */
  method GetAIInterpretation(apiKey: Option<string>, exchange: Exchange) returns (sections: map<SectionKey, string>)
    ensures sections.Keys == AllKeys
    ensures !(KeySet(apiKey) && exchange.Message? && exchange.content.Some?) ==> sections == MockInterpretation()
    ensures KeySet(apiKey) && exchange.Message? && exchange.content.Some? ==>
              forall k :: k in AllKeys ==> sections[k] == SectionText(Classified(Split(exchange.content.value, '\n')), k)
  {
    if !KeySet(apiKey) {
      return MockInterpretation();
    }
    match exchange
    case Message(Some(text)) =>
      sections := ParseInterpretation(text);
    case _ =>
      sections := MockInterpretation();
  }
}
