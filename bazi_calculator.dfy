// The four-pillar (BaZi) engine of backend/utils/bazi-calculator.js: the
// stem, branch, time-block, element and nayin tables, the hour-pillar rule
// (五鼠遁, "the rat escapes by the day"), the five-element tally and the
// assembly of the four pillars. The year, month and day pillars come from the
// lunisolar calendar library, which is not part of this model: they are
// inputs here.
module BaziCalculator {
  import opened Wrappers
  import opened JsStrings

  /** Index of a heavenly stem 天干: 甲 = 0 … 癸 = 9. */
  type Stem = i: int | 0 <= i < 10

  /** Index of an earthly branch 地支: 子 = 0 … 亥 = 11. */
  type Branch = i: int | 0 <= i < 12

  /** HEAVENLY_STEMS, in cycle order. */
  const HeavenlyStems: string := "甲乙丙丁戊己庚辛壬癸"

  /** EARTHLY_BRANCHES, in cycle order. */
  const EarthlyBranches: string := "子丑寅卯辰巳午未申酉戌亥"

  /** TIME_TO_BRANCH: the twelve two-hour blocks and their branches. */
  const TimeToBranch: map<string, char> := map[
    "23-01" := '子', "01-03" := '丑', "03-05" := '寅', "05-07" := '卯',
    "07-09" := '辰', "09-11" := '巳', "11-13" := '午', "13-15" := '未',
    "15-17" := '申', "17-19" := '酉', "19-21" := '戌', "21-23" := '亥']

  /** The twelve time-block labels in branch order: label `i` is the block of
      branch `i`. */
  const TimeLabels: seq<string> := [
    "23-01", "01-03", "03-05", "05-07", "07-09", "09-11",
    "11-13", "13-15", "15-17", "17-19", "19-21", "21-23"]

  /** The five elements 五行: 木 火 土 金 水. */
  datatype Element = Wood | Fire | Earth | Metal | Water

  const AllElements: set<Element> := {Wood, Fire, Earth, Metal, Water}

  /** ELEMENT_MAP: the element of every stem and branch symbol. */
  const ElementMap: map<char, Element> := map[
    '甲' := Wood, '乙' := Wood,
    '丙' := Fire, '丁' := Fire,
    '戊' := Earth, '己' := Earth,
    '庚' := Metal, '辛' := Metal,
    '壬' := Water, '癸' := Water,
    '子' := Water, '丑' := Earth,
    '寅' := Wood, '卯' := Wood,
    '辰' := Earth, '巳' := Fire,
    '午' := Fire, '未' := Earth,
    '申' := Metal, '酉' := Metal,
    '戌' := Earth, '亥' := Water]

  /** The label `getNayin` gives a pair that is not in the table. */
  const Unknown: string := "未知"

  /** The 30 nayin names in sexagenary order: cycle positions 2k and 2k + 1
      carry name k. */
  const NayinNames: seq<string> := [
    "海中金", "炉中火", "大林木", "路旁土", "剑锋金",
    "山头火", "涧下水", "城头土", "白蜡金", "杨柳木",
    "泉中水", "屋上土", "霹雳火", "松柏木", "长流水",
    "砂中金", "山下火", "平地木", "壁上土", "金箔金",
    "覆灯火", "天河水", "大驿土", "钗钏金", "桑柘木",
    "大溪水", "沙中土", "天上火", "石榴木", "大海水"]

  /** BASE_GAN of `getHourGanIndex`: the stem of the 子 hour for each day stem. */
  const BaseGan: seq<Stem> := [0, 2, 4, 6, 8, 0, 2, 4, 6, 8]

  // ---------------------------------------------------------------------
  // Time blocks

  /** `getHourBranch`: the branch symbol of a time-block label, falling back to
      子 for a label that is not one of the twelve. The lookup reads the
      table's own entries only (see HourBranchAsWritten for what the object
      lookup of the source does with inherited names). */
  function GetHourBranch(timeRange: string): (zhi: char)
    ensures zhi in EarthlyBranches
  {
    if timeRange in TimeToBranch then TimeToBranch[timeRange] else '子'
  }

  /** The time-block table holds each of the twelve labels, and label `i`
      maps to branch `i`. */
  lemma {:induction false} TimeToBranchEntries(i: int)
    requires 0 <= i < 12
    ensures TimeLabels[i] in TimeToBranch
    ensures TimeToBranch[TimeLabels[i]] == EarthlyBranches[i]
  {
    if i == 0 {} else if i == 1 {} else if i == 2 {} else if i == 3 {}
    else if i == 4 {} else if i == 5 {} else if i == 6 {} else if i == 7 {}
    else if i == 8 {} else if i == 9 {} else if i == 10 {} else {}
  }

  /** `getHourBranch` gives each of the twelve labels its own branch and every
      other string 子. */
  lemma HourBranchOfLabel(timeRange: string)
    ensures timeRange in TimeLabels ==>
              exists i :: 0 <= i < 12 && timeRange == TimeLabels[i] && GetHourBranch(timeRange) == EarthlyBranches[i]
    ensures timeRange !in TimeLabels ==> GetHourBranch(timeRange) == '子'
  {
    if timeRange in TimeLabels {
      var i :| 0 <= i < 12 && timeRange == TimeLabels[i];
      TimeToBranchEntries(i);
    }
  }

  /** `parseTimeRange`: the start hour written before the first `-` of a
      label, read with `parseInt`; `None` stands for `NaN`. The special case
      for 23 maps 23 to itself, so the result is exactly what `parseInt`
      reads, and a block that opens with two digits and a `-` is read as the
      hour those digits spell. */
  function ParseTimeRange(timeRange: string): (startHour: Option<int>)
    ensures startHour == ParseInt(Split(timeRange, '-')[0])
    ensures TwoDigitBlock(timeRange) ==> startHour == Some(LabelStartHour(timeRange))
  {
    LeadingTwoDigits(timeRange);
    var startHour := ParseInt(Split(timeRange, '-')[0]);
    if startHour == Some(23) then Some(23) else startHour
  }

  /** A block that opens with two decimal digits and a `-`. */
  predicate TwoDigitBlock(block: string)
  {
    |block| >= 3 && block[2] == '-' && '0' <= block[0] <= '9' && '0' <= block[1] <= '9'
  }

  /** The hour a label spells with its first two digits. */
  function LabelStartHour(block: string): int
    requires |block| >= 2
  {
    (block[0] as int - '0' as int) * 10 + (block[1] as int - '0' as int)
  }

  /** Each label is read as its start hour, and that hour is the first hour
      of its branch's window: branch `k` covers the two hours that begin at
      hour `2k - 1` (mod 24), so the block starting at hour `h` belongs to
      branch `(h + 1) / 2 mod 12`. */
  lemma TimeBlockStart(i: int)
    requires 0 <= i < 12
    ensures |TimeLabels[i]| >= 3 && TimeLabels[i][2] == '-'
    ensures '0' <= TimeLabels[i][0] <= '9' && '0' <= TimeLabels[i][1] <= '9'
    ensures LabelStartHour(TimeLabels[i]) == (2 * i + 23) % 24
    ensures GetHourBranch(TimeLabels[i]) == EarthlyBranches[(LabelStartHour(TimeLabels[i]) + 1) / 2 % 12]
    ensures ParseTimeRange(TimeLabels[i]) == Some((2 * i + 23) % 24)
  {
    LabelShape(i);
    TimeToBranchEntries(i);
    StartHourBranch(i);
  }

  /** The block that starts at hour `2i - 1` (mod 24) is branch `i`'s. */
  lemma StartHourBranch(i: int)
    requires 0 <= i < 12
    ensures ((2 * i + 23) % 24 + 1) / 2 % 12 == i
  {
    if i == 0 {
      assert (2 * i + 23) % 24 == 23;
    } else {
      assert (2 * i + 23) % 24 == 2 * i - 1;
    }
  }

  /** `parseInt` reads the field before the first `-` of a block that opens
      with two decimal digits as the hour those digits spell. */
  lemma LeadingTwoDigits(block: string)
    ensures TwoDigitBlock(block) ==> ParseInt(Split(block, '-')[0]) == Some(LabelStartHour(block))
  {
    if TwoDigitBlock(block) {
      var start := block[..2];
      LeadingField(block);
      ParseTwoDigits(start);
      assert LabelStartHour(start) == LabelStartHour(block);
    }
  }

  /** The part before the first `-` of such a block is its two digits. */
  lemma LeadingField(block: string)
    requires |block| >= 3 && block[2] == '-'
    requires '0' <= block[0] <= '9' && '0' <= block[1] <= '9'
    ensures Split(block, '-')[0] == block[..2]
  {
    var start := block[..2];
    assert block == start + ['-'] + block[3..];
    SplitAtFirstSep(start, block[3..], '-');
  }

  /** Two decimal digits parse to the hour they spell. */
  lemma ParseTwoDigits(d: string)
    requires |d| == 2 && '0' <= d[0] <= '9' && '0' <= d[1] <= '9'
    ensures ParseInt(d) == Some(LabelStartHour(d))
  {
    TwoDigitValue(d);
  }

  /** The decimal value of two digits. */
  lemma TwoDigitValue(d: string)
    requires |d| == 2
    ensures DigitsValue(d, 10) == DigitValue(d[0]) * 10 + DigitValue(d[1])
  {
    var first := d[..1];
    assert first[..0] == [] && first[0] == d[0] && d[..|d| - 1] == first;
    assert DigitsValue(first, 10) == DigitsValue([], 10) * 10 + DigitValue(d[0]);
  }

  /** Every label is two digits, a `-`, and two more characters; the first
      two digits spell the start hour. */
  lemma {:induction false} LabelShape(i: int)
    requires 0 <= i < 12
    ensures |TimeLabels[i]| == 5 && TimeLabels[i][2] == '-'
    ensures '0' <= TimeLabels[i][0] <= '9' && '0' <= TimeLabels[i][1] <= '9'
    ensures LabelStartHour(TimeLabels[i]) == (2 * i + 23) % 24
  {
    if i == 0 {} else if i == 1 {} else if i == 2 {} else if i == 3 {}
    else if i == 4 {} else if i == 5 {} else if i == 6 {} else if i == 7 {}
    else if i == 8 {} else if i == 9 {} else if i == 10 {} else {}
  }

  // ---------------------------------------------------------------------
  // Elements

  /** ELEMENT_MAP knows every stem and every branch symbol. */
  lemma {:induction false} ElementMapTotal(s: Stem, b: Branch)
    ensures HeavenlyStems[s] in ElementMap && EarthlyBranches[b] in ElementMap
  {
    assert HeavenlyStems[s] in ElementMap by {
      if s == 0 {} else if s == 1 {} else if s == 2 {} else if s == 3 {} else if s == 4 {}
      else if s == 5 {} else if s == 6 {} else if s == 7 {} else if s == 8 {} else {}
    }
    assert EarthlyBranches[b] in ElementMap by {
      if b == 0 {} else if b == 1 {} else if b == 2 {} else if b == 3 {}
      else if b == 4 {} else if b == 5 {} else if b == 6 {} else if b == 7 {}
      else if b == 8 {} else if b == 9 {} else if b == 10 {} else {}
    }
  }

  /** ELEMENT_MAP of a stem's symbol. */
  function StemElement(s: Stem): Element
  {
    ElementMapTotal(s, 0);
    ElementMap[HeavenlyStems[s]]
  }

  /** ELEMENT_MAP of a branch's symbol. */
  function BranchElement(b: Branch): Element
  {
    ElementMapTotal(0, b);
    ElementMap[EarthlyBranches[b]]
  }

  /** The stems come in pairs of one element, in the generating order
      wood, fire, earth, metal, water: stems 2k and 2k + 1 share element k. */
  lemma {:induction false} StemElementPairs(s: Stem)
    ensures StemElement(s) == [Wood, Fire, Earth, Metal, Water][s / 2]
  {
    if s == 0 {} else if s == 1 {} else if s == 2 {} else if s == 3 {} else if s == 4 {}
    else if s == 5 {} else if s == 6 {} else if s == 7 {} else if s == 8 {} else {}
  }

  /** The branches by season: the last branch of each season (丑 辰 未 戌)
      is earth, and the other two of a season carry its element: water for
      亥 子, wood for 寅 卯, fire for 巳 午, metal for 申 酉. */
  lemma {:induction false} BranchElementSeasons(b: Branch)
    ensures BranchElement(b) == if b % 3 == 1 then Earth else [Water, Wood, Fire, Metal][(b + 1) % 12 / 3]
  {
    if b == 0 {} else if b == 1 {} else if b == 2 {} else if b == 3 {}
    else if b == 4 {} else if b == 5 {} else if b == 6 {} else if b == 7 {}
    else if b == 8 {} else if b == 9 {} else if b == 10 {} else {}
  }

  // ---------------------------------------------------------------------
  // The hour stem

  /** `getHourGanIndex`: the hour stem is the 子-hour stem of the day stem
      (BASE_GAN) advanced by the hour branch, modulo 10. Both operands are
      non-negative, so JavaScript's `%` and Dafny's agree. The result is a
      stem index whatever the day stem and branch, and it has the parity of
      the branch, so the hour pillar is one of the sixty valid pairs. */
  function GetHourGanIndex(dayGanIndex: Stem, hourZhiIndex: Branch): (gan: Stem)
    ensures gan % 2 == hourZhiIndex % 2
  {
    (BaseGan[dayGanIndex] + hourZhiIndex) % 10
  }

  /** The rhyme 甲己还加甲，乙庚丙作初 … in closed form: the 子 hour of day
      stem `d` has stem `2d mod 10`, and every later hour advances the stem
      by one. */
  lemma {:induction false} HourStemClosedForm(dayGanIndex: Stem, hourZhiIndex: Branch)
    ensures GetHourGanIndex(dayGanIndex, hourZhiIndex) == (2 * dayGanIndex + hourZhiIndex) % 10
  {
    assert BaseGan[dayGanIndex] == 2 * dayGanIndex % 10 by {
      var d := dayGanIndex;
      if d == 0 {} else if d == 1 {} else if d == 2 {} else if d == 3 {} else if d == 4 {}
      else if d == 5 {} else if d == 6 {} else if d == 7 {} else if d == 8 {} else {}
    }
  }

  /** Day stems five apart (甲/己, 乙/庚, 丙/辛, 丁/壬, 戊/癸) give the same hour
      stem for every hour. */
  lemma HourStemFiveApart(dayGanIndex: Stem, hourZhiIndex: Branch)
    requires dayGanIndex < 5
    ensures GetHourGanIndex(dayGanIndex, hourZhiIndex) == GetHourGanIndex(dayGanIndex + 5, hourZhiIndex)
  {
    assert BaseGan[dayGanIndex] == BaseGan[dayGanIndex + 5];
  }

  /** The 子 hour takes the day's base stem, and each later hour the next
      stem. */
  lemma HourStemSteps(dayGanIndex: Stem, hourZhiIndex: Branch)
    ensures GetHourGanIndex(dayGanIndex, 0) == BaseGan[dayGanIndex]
    ensures hourZhiIndex < 11 ==>
              GetHourGanIndex(dayGanIndex, hourZhiIndex + 1) == (GetHourGanIndex(dayGanIndex, hourZhiIndex) + 1) % 10
  {
    var x := BaseGan[dayGanIndex] + hourZhiIndex;
    assert 0 <= x < 20;
    if x < 9 {
      assert x % 10 == x && (x + 1) % 10 == x + 1;
    } else if x == 9 {
      assert x % 10 == 9 && (x + 1) % 10 == 0;
    } else if x < 19 {
      assert x % 10 == x - 10 && (x + 1) % 10 == x - 9;
    } else {
      assert x % 10 == 9 && (x + 1) % 10 == 0;
    }
  }

  // ---------------------------------------------------------------------
  // The sexagenary cycle and nayin

  /** The stem of position `k` of the sexagenary cycle. */
  function CycleStem(k: int): Stem
    requires 0 <= k < 60
  {
    k % 10
  }

  /** The branch of position `k` of the sexagenary cycle. */
  function CycleBranch(k: int): Branch
    requires 0 <= k < 60
  {
    k % 12
  }

  /** Every stem and branch of equal parity meet at one position of the
      cycle: `s` plus ten times the number of decades it takes the branch to
      catch up. */
  function CyclePosition(s: Stem, b: Branch): (k: int)
    requires s % 2 == b % 2
    ensures 0 <= k < 60 && CycleStem(k) == s && CycleBranch(k) == b
  {
    var gap := if b >= s then b - s else b - s + 12;
    var decades := [0, 0, 5, 5, 4, 4, 3, 3, 2, 2, 1, 1][gap];
    var k := s + 10 * decades;
    assert k % 10 == s;
    assert k % 12 == b by {
      if gap == 0 {} else if gap == 2 {} else if gap == 4 {} else if gap == 6 {} else if gap == 8 {} else if gap == 10 {}
    }
    k
  }

  /** The hour pillars run on across midnight: the 子 hour of the next day
      takes the stem after that of the 亥 hour, so consecutive hours always
      advance the stem by one. */
  lemma {:induction false} HourStemAcrossMidnight(dayGanIndex: Stem)
    ensures GetHourGanIndex((dayGanIndex + 1) % 10, 0) == (GetHourGanIndex(dayGanIndex, 11) + 1) % 10
  {
    var d := dayGanIndex;
    if d == 0 {} else if d == 1 {} else if d == 2 {} else if d == 3 {} else if d == 4 {}
    else if d == 5 {} else if d == 6 {} else if d == 7 {} else if d == 8 {} else {}
  }

  /** `getNayin`: the nayin 纳音 of a stem and branch symbol, or 未知 when the
      pair is not one of the table's 60 entries. The name is always 未知 or
      one of the thirty names. */
  function GetNayin(heavenly: char, earthly: char): (nayin: string)
    ensures nayin == Unknown || nayin in NayinNames
  {
    var i := NayinIndex(heavenly, earthly);
    if i < 0 then Unknown else NayinNames[i]
  }

  /** The nayin table of `getNayin`, with each name given by its position in
      NayinNames; -1 for a pair that has no entry. The table is keyed by the
      two-character string `heavenly + earthly`; as every key is one stem
      symbol followed by one branch symbol, the lookup is written as a match
      on the two characters, one row per stem. */
  function NayinIndex(heavenly: char, earthly: char): (i: int)
    ensures -1 <= i < 30
  {
    match heavenly
    case '甲' =>
      (match earthly case '子' => 0 case '戌' => 5 case '申' => 10 case '午' => 15 case '辰' => 20 case '寅' => 25
       case _ => -1)
    case '乙' =>
      (match earthly case '丑' => 0 case '亥' => 5 case '酉' => 10 case '未' => 15 case '巳' => 20 case '卯' => 25
       case _ => -1)
    case '丙' =>
      (match earthly case '寅' => 1 case '子' => 6 case '戌' => 11 case '申' => 16 case '午' => 21 case '辰' => 26
       case _ => -1)
    case '丁' =>
      (match earthly case '卯' => 1 case '丑' => 6 case '亥' => 11 case '酉' => 16 case '未' => 21 case '巳' => 26
       case _ => -1)
    case '戊' =>
      (match earthly case '辰' => 2 case '寅' => 7 case '子' => 12 case '戌' => 17 case '申' => 22 case '午' => 27
       case _ => -1)
    case '己' =>
      (match earthly case '巳' => 2 case '卯' => 7 case '丑' => 12 case '亥' => 17 case '酉' => 22 case '未' => 27
       case _ => -1)
    case '庚' =>
      (match earthly case '午' => 3 case '辰' => 8 case '寅' => 13 case '子' => 18 case '戌' => 23 case '申' => 28
       case _ => -1)
    case '辛' =>
      (match earthly case '未' => 3 case '巳' => 8 case '卯' => 13 case '丑' => 18 case '亥' => 23 case '酉' => 28
       case _ => -1)
    case '壬' =>
      (match earthly case '申' => 4 case '午' => 9 case '辰' => 14 case '寅' => 19 case '子' => 24 case '戌' => 29
       case _ => -1)
    case '癸' =>
      (match earthly case '酉' => 4 case '未' => 9 case '巳' => 14 case '卯' => 19 case '丑' => 24 case '亥' => 29
       case _ => -1)
    case _ => -1
  }

  /** The table follows the cycle: position `k` has name `k / 2`, so
      positions 2k and 2k + 1 share their name. */
  lemma NayinOfCyclePosition(k: int)
    requires 0 <= k < 60
    ensures GetNayin(HeavenlyStems[CycleStem(k)], EarthlyBranches[CycleBranch(k)]) == NayinNames[k / 2]
  {
    if k < 5 { NayinSpan0(k); }
    else if k < 10 { NayinSpan1(k); }
    else if k < 15 { NayinSpan2(k); }
    else if k < 20 { NayinSpan3(k); }
    else if k < 25 { NayinSpan4(k); }
    else if k < 30 { NayinSpan5(k); }
    else if k < 35 { NayinSpan6(k); }
    else if k < 40 { NayinSpan7(k); }
    else if k < 45 { NayinSpan8(k); }
    else if k < 50 { NayinSpan9(k); }
    else if k < 55 { NayinSpan10(k); }
    else { NayinSpan11(k); }
  }

  /** Positions 0 to 4: 甲子 to 戊辰. */
  lemma {:induction false} NayinSpan0(k: int)
    requires 0 <= k < 5
    ensures NayinIndex(HeavenlyStems[CycleStem(k)], EarthlyBranches[CycleBranch(k)]) == k / 2
  {
    if k == 0 {
      assert HeavenlyStems[CycleStem(k)] == '甲' && EarthlyBranches[CycleBranch(k)] == '子';
    } else if k == 1 {
      assert HeavenlyStems[CycleStem(k)] == '乙' && EarthlyBranches[CycleBranch(k)] == '丑';
    } else if k == 2 {
      assert HeavenlyStems[CycleStem(k)] == '丙' && EarthlyBranches[CycleBranch(k)] == '寅';
    } else if k == 3 {
      assert HeavenlyStems[CycleStem(k)] == '丁' && EarthlyBranches[CycleBranch(k)] == '卯';
    } else {
      assert HeavenlyStems[CycleStem(k)] == '戊' && EarthlyBranches[CycleBranch(k)] == '辰';
    }
  }

  /** Positions 5 to 9: 己巳 to 癸酉. */
  lemma {:induction false} NayinSpan1(k: int)
    requires 5 <= k < 10
    ensures NayinIndex(HeavenlyStems[CycleStem(k)], EarthlyBranches[CycleBranch(k)]) == k / 2
  {
    if k == 5 {
      assert HeavenlyStems[CycleStem(k)] == '己' && EarthlyBranches[CycleBranch(k)] == '巳';
    } else if k == 6 {
      assert HeavenlyStems[CycleStem(k)] == '庚' && EarthlyBranches[CycleBranch(k)] == '午';
    } else if k == 7 {
      assert HeavenlyStems[CycleStem(k)] == '辛' && EarthlyBranches[CycleBranch(k)] == '未';
    } else if k == 8 {
      assert HeavenlyStems[CycleStem(k)] == '壬' && EarthlyBranches[CycleBranch(k)] == '申';
    } else {
      assert HeavenlyStems[CycleStem(k)] == '癸' && EarthlyBranches[CycleBranch(k)] == '酉';
    }
  }

  /** Positions 10 to 14: 甲戌 to 戊寅. */
  lemma {:induction false} NayinSpan2(k: int)
    requires 10 <= k < 15
    ensures NayinIndex(HeavenlyStems[CycleStem(k)], EarthlyBranches[CycleBranch(k)]) == k / 2
  {
    if k == 10 {
      assert HeavenlyStems[CycleStem(k)] == '甲' && EarthlyBranches[CycleBranch(k)] == '戌';
    } else if k == 11 {
      assert HeavenlyStems[CycleStem(k)] == '乙' && EarthlyBranches[CycleBranch(k)] == '亥';
    } else if k == 12 {
      assert HeavenlyStems[CycleStem(k)] == '丙' && EarthlyBranches[CycleBranch(k)] == '子';
    } else if k == 13 {
      assert HeavenlyStems[CycleStem(k)] == '丁' && EarthlyBranches[CycleBranch(k)] == '丑';
    } else {
      assert HeavenlyStems[CycleStem(k)] == '戊' && EarthlyBranches[CycleBranch(k)] == '寅';
    }
  }

  /** Positions 15 to 19: 己卯 to 癸未. */
  lemma {:induction false} NayinSpan3(k: int)
    requires 15 <= k < 20
    ensures NayinIndex(HeavenlyStems[CycleStem(k)], EarthlyBranches[CycleBranch(k)]) == k / 2
  {
    if k == 15 {
      assert HeavenlyStems[CycleStem(k)] == '己' && EarthlyBranches[CycleBranch(k)] == '卯';
    } else if k == 16 {
      assert HeavenlyStems[CycleStem(k)] == '庚' && EarthlyBranches[CycleBranch(k)] == '辰';
    } else if k == 17 {
      assert HeavenlyStems[CycleStem(k)] == '辛' && EarthlyBranches[CycleBranch(k)] == '巳';
    } else if k == 18 {
      assert HeavenlyStems[CycleStem(k)] == '壬' && EarthlyBranches[CycleBranch(k)] == '午';
    } else {
      assert HeavenlyStems[CycleStem(k)] == '癸' && EarthlyBranches[CycleBranch(k)] == '未';
    }
  }

  /** Positions 20 to 24: 甲申 to 戊子. */
  lemma {:induction false} NayinSpan4(k: int)
    requires 20 <= k < 25
    ensures NayinIndex(HeavenlyStems[CycleStem(k)], EarthlyBranches[CycleBranch(k)]) == k / 2
  {
    if k == 20 {
      assert HeavenlyStems[CycleStem(k)] == '甲' && EarthlyBranches[CycleBranch(k)] == '申';
    } else if k == 21 {
      assert HeavenlyStems[CycleStem(k)] == '乙' && EarthlyBranches[CycleBranch(k)] == '酉';
    } else if k == 22 {
      assert HeavenlyStems[CycleStem(k)] == '丙' && EarthlyBranches[CycleBranch(k)] == '戌';
    } else if k == 23 {
      assert HeavenlyStems[CycleStem(k)] == '丁' && EarthlyBranches[CycleBranch(k)] == '亥';
    } else {
      assert HeavenlyStems[CycleStem(k)] == '戊' && EarthlyBranches[CycleBranch(k)] == '子';
    }
  }

  /** Positions 25 to 29: 己丑 to 癸巳. */
  lemma {:induction false} NayinSpan5(k: int)
    requires 25 <= k < 30
    ensures NayinIndex(HeavenlyStems[CycleStem(k)], EarthlyBranches[CycleBranch(k)]) == k / 2
  {
    if k == 25 {
      assert HeavenlyStems[CycleStem(k)] == '己' && EarthlyBranches[CycleBranch(k)] == '丑';
    } else if k == 26 {
      assert HeavenlyStems[CycleStem(k)] == '庚' && EarthlyBranches[CycleBranch(k)] == '寅';
    } else if k == 27 {
      assert HeavenlyStems[CycleStem(k)] == '辛' && EarthlyBranches[CycleBranch(k)] == '卯';
    } else if k == 28 {
      assert HeavenlyStems[CycleStem(k)] == '壬' && EarthlyBranches[CycleBranch(k)] == '辰';
    } else {
      assert HeavenlyStems[CycleStem(k)] == '癸' && EarthlyBranches[CycleBranch(k)] == '巳';
    }
  }

  /** Positions 30 to 34: 甲午 to 戊戌. */
  lemma {:induction false} NayinSpan6(k: int)
    requires 30 <= k < 35
    ensures NayinIndex(HeavenlyStems[CycleStem(k)], EarthlyBranches[CycleBranch(k)]) == k / 2
  {
    if k == 30 {
      assert HeavenlyStems[CycleStem(k)] == '甲' && EarthlyBranches[CycleBranch(k)] == '午';
    } else if k == 31 {
      assert HeavenlyStems[CycleStem(k)] == '乙' && EarthlyBranches[CycleBranch(k)] == '未';
    } else if k == 32 {
      assert HeavenlyStems[CycleStem(k)] == '丙' && EarthlyBranches[CycleBranch(k)] == '申';
    } else if k == 33 {
      assert HeavenlyStems[CycleStem(k)] == '丁' && EarthlyBranches[CycleBranch(k)] == '酉';
    } else {
      assert HeavenlyStems[CycleStem(k)] == '戊' && EarthlyBranches[CycleBranch(k)] == '戌';
    }
  }

  /** Positions 35 to 39: 己亥 to 癸卯. */
  lemma {:induction false} NayinSpan7(k: int)
    requires 35 <= k < 40
    ensures NayinIndex(HeavenlyStems[CycleStem(k)], EarthlyBranches[CycleBranch(k)]) == k / 2
  {
    if k == 35 {
      assert HeavenlyStems[CycleStem(k)] == '己' && EarthlyBranches[CycleBranch(k)] == '亥';
    } else if k == 36 {
      assert HeavenlyStems[CycleStem(k)] == '庚' && EarthlyBranches[CycleBranch(k)] == '子';
    } else if k == 37 {
      assert HeavenlyStems[CycleStem(k)] == '辛' && EarthlyBranches[CycleBranch(k)] == '丑';
    } else if k == 38 {
      assert HeavenlyStems[CycleStem(k)] == '壬' && EarthlyBranches[CycleBranch(k)] == '寅';
    } else {
      assert HeavenlyStems[CycleStem(k)] == '癸' && EarthlyBranches[CycleBranch(k)] == '卯';
    }
  }

  /** Positions 40 to 44: 甲辰 to 戊申. */
  lemma {:induction false} NayinSpan8(k: int)
    requires 40 <= k < 45
    ensures NayinIndex(HeavenlyStems[CycleStem(k)], EarthlyBranches[CycleBranch(k)]) == k / 2
  {
    if k == 40 {
      assert HeavenlyStems[CycleStem(k)] == '甲' && EarthlyBranches[CycleBranch(k)] == '辰';
    } else if k == 41 {
      assert HeavenlyStems[CycleStem(k)] == '乙' && EarthlyBranches[CycleBranch(k)] == '巳';
    } else if k == 42 {
      assert HeavenlyStems[CycleStem(k)] == '丙' && EarthlyBranches[CycleBranch(k)] == '午';
    } else if k == 43 {
      assert HeavenlyStems[CycleStem(k)] == '丁' && EarthlyBranches[CycleBranch(k)] == '未';
    } else {
      assert HeavenlyStems[CycleStem(k)] == '戊' && EarthlyBranches[CycleBranch(k)] == '申';
    }
  }

  /** Positions 45 to 49: 己酉 to 癸丑. */
  lemma {:induction false} NayinSpan9(k: int)
    requires 45 <= k < 50
    ensures NayinIndex(HeavenlyStems[CycleStem(k)], EarthlyBranches[CycleBranch(k)]) == k / 2
  {
    if k == 45 {
      assert HeavenlyStems[CycleStem(k)] == '己' && EarthlyBranches[CycleBranch(k)] == '酉';
    } else if k == 46 {
      assert HeavenlyStems[CycleStem(k)] == '庚' && EarthlyBranches[CycleBranch(k)] == '戌';
    } else if k == 47 {
      assert HeavenlyStems[CycleStem(k)] == '辛' && EarthlyBranches[CycleBranch(k)] == '亥';
    } else if k == 48 {
      assert HeavenlyStems[CycleStem(k)] == '壬' && EarthlyBranches[CycleBranch(k)] == '子';
    } else {
      assert HeavenlyStems[CycleStem(k)] == '癸' && EarthlyBranches[CycleBranch(k)] == '丑';
    }
  }

  /** Positions 50 to 54: 甲寅 to 戊午. */
  lemma {:induction false} NayinSpan10(k: int)
    requires 50 <= k < 55
    ensures NayinIndex(HeavenlyStems[CycleStem(k)], EarthlyBranches[CycleBranch(k)]) == k / 2
  {
    if k == 50 {
      assert HeavenlyStems[CycleStem(k)] == '甲' && EarthlyBranches[CycleBranch(k)] == '寅';
    } else if k == 51 {
      assert HeavenlyStems[CycleStem(k)] == '乙' && EarthlyBranches[CycleBranch(k)] == '卯';
    } else if k == 52 {
      assert HeavenlyStems[CycleStem(k)] == '丙' && EarthlyBranches[CycleBranch(k)] == '辰';
    } else if k == 53 {
      assert HeavenlyStems[CycleStem(k)] == '丁' && EarthlyBranches[CycleBranch(k)] == '巳';
    } else {
      assert HeavenlyStems[CycleStem(k)] == '戊' && EarthlyBranches[CycleBranch(k)] == '午';
    }
  }

  /** Positions 55 to 59: 己未 to 癸亥. */
  lemma {:induction false} NayinSpan11(k: int)
    requires 55 <= k < 60
    ensures NayinIndex(HeavenlyStems[CycleStem(k)], EarthlyBranches[CycleBranch(k)]) == k / 2
  {
    if k == 55 {
      assert HeavenlyStems[CycleStem(k)] == '己' && EarthlyBranches[CycleBranch(k)] == '未';
    } else if k == 56 {
      assert HeavenlyStems[CycleStem(k)] == '庚' && EarthlyBranches[CycleBranch(k)] == '申';
    } else if k == 57 {
      assert HeavenlyStems[CycleStem(k)] == '辛' && EarthlyBranches[CycleBranch(k)] == '酉';
    } else if k == 58 {
      assert HeavenlyStems[CycleStem(k)] == '壬' && EarthlyBranches[CycleBranch(k)] == '戌';
    } else {
      assert HeavenlyStems[CycleStem(k)] == '癸' && EarthlyBranches[CycleBranch(k)] == '亥';
    }
  }

  /** The yang stems 甲 丙 戊 庚 壬 have no entry for a branch of the other parity. */
  lemma {:induction false} NayinOfUnevenYangPair(s: Stem, b: Branch)
    requires s % 2 == 0 && b % 2 == 1
    ensures NayinIndex(HeavenlyStems[s], EarthlyBranches[b]) == -1
  {
    if s == 0 {
      if b == 1 {} else if b == 3 {} else if b == 5 {} else if b == 7 {} else if b == 9 {} else {}
    } else if s == 2 {
      if b == 1 {} else if b == 3 {} else if b == 5 {} else if b == 7 {} else if b == 9 {} else {}
    } else if s == 4 {
      if b == 1 {} else if b == 3 {} else if b == 5 {} else if b == 7 {} else if b == 9 {} else {}
    } else if s == 6 {
      if b == 1 {} else if b == 3 {} else if b == 5 {} else if b == 7 {} else if b == 9 {} else {}
    } else {
      if b == 1 {} else if b == 3 {} else if b == 5 {} else if b == 7 {} else if b == 9 {} else {}
    }
  }

  /** The yin stems 乙 丁 己 辛 癸 have no entry for a branch of the other parity. */
  lemma {:induction false} NayinOfUnevenYinPair(s: Stem, b: Branch)
    requires s % 2 == 1 && b % 2 == 0
    ensures NayinIndex(HeavenlyStems[s], EarthlyBranches[b]) == -1
  {
    if s == 1 {
      if b == 0 {} else if b == 2 {} else if b == 4 {} else if b == 6 {} else if b == 8 {} else {}
    } else if s == 3 {
      if b == 0 {} else if b == 2 {} else if b == 4 {} else if b == 6 {} else if b == 8 {} else {}
    } else if s == 5 {
      if b == 0 {} else if b == 2 {} else if b == 4 {} else if b == 6 {} else if b == 8 {} else {}
    } else if s == 7 {
      if b == 0 {} else if b == 2 {} else if b == 4 {} else if b == 6 {} else if b == 8 {} else {}
    } else {
      if b == 0 {} else if b == 2 {} else if b == 4 {} else if b == 6 {} else if b == 8 {} else {}
    }
  }

  /** Reads a name's position in NayinNames back from its first two
      characters; -1 for anything else. */
  function NayinNameIndex(name: string): int
    requires |name| >= 2
  {
    match name[0]
    case '海' => 0
    case '炉' => 1
    case '大' =>
      (match name[1] case '林' => 2 case '驿' => 22 case '溪' => 25 case '海' => 29
       case _ => -1)
    case '路' => 3
    case '剑' => 4
    case '山' =>
      (match name[1] case '头' => 5 case '下' => 16
       case _ => -1)
    case '涧' => 6
    case '城' => 7
    case '白' => 8
    case '杨' => 9
    case '泉' => 10
    case '屋' => 11
    case '霹' => 12
    case '松' => 13
    case '长' => 14
    case '砂' => 15
    case '平' => 17
    case '壁' => 18
    case '金' => 19
    case '覆' => 20
    case '天' =>
      (match name[1] case '河' => 21 case '上' => 27
       case _ => -1)
    case '钗' => 23
    case '桑' => 24
    case '沙' => 26
    case '石' => 28
    case _ => -1
  }

  /** Every name has three characters and can be read back from them. */
  lemma {:induction false} NayinNamesReadBack(i: int)
    requires 0 <= i < 30
    ensures |NayinNames[i]| == 3 && NayinNameIndex(NayinNames[i]) == i
  {
    if i < 10 {
      if i == 0 {} else if i == 1 {} else if i == 2 {} else if i == 3 {} else if i == 4 {}
      else if i == 5 {} else if i == 6 {} else if i == 7 {} else if i == 8 {} else {}
    } else if i < 20 {
      if i == 10 {} else if i == 11 {} else if i == 12 {} else if i == 13 {} else if i == 14 {}
      else if i == 15 {} else if i == 16 {} else if i == 17 {} else if i == 18 {} else {}
    } else {
      if i == 20 {} else if i == 21 {} else if i == 22 {} else if i == 23 {} else if i == 24 {}
      else if i == 25 {} else if i == 26 {} else if i == 27 {} else if i == 28 {} else {}
    }
  }

  /** The thirty names are distinct, and none of them is 未知. */
  lemma NayinNamesDistinct()
    ensures forall i, j :: 0 <= i < 30 && 0 <= j < 30 && NayinNames[i] == NayinNames[j] ==> i == j
    ensures forall i :: 0 <= i < 30 ==> NayinNames[i] != Unknown
  {
    forall i | 0 <= i < 30
      ensures |NayinNames[i]| == 3 && NayinNameIndex(NayinNames[i]) == i
    {
      NayinNamesReadBack(i);
    }
  }

  /** `getNayin` names exactly the sixty pairs whose stem and branch have the
      same parity, and answers 未知 for the other sixty. */
  lemma NayinKnownIffSameParity(s: Stem, b: Branch)
    ensures GetNayin(HeavenlyStems[s], EarthlyBranches[b]) != Unknown <==> s % 2 == b % 2
    ensures s % 2 == b % 2 ==> GetNayin(HeavenlyStems[s], EarthlyBranches[b]) == NayinNames[CyclePosition(s, b) / 2]
  {
    if s % 2 == b % 2 {
      NayinOfCyclePosition(CyclePosition(s, b));
      NayinNamesDistinct();
    } else if s % 2 == 0 {
      NayinOfUnevenYangPair(s, b);
    } else {
      NayinOfUnevenYinPair(s, b);
    }
  }

  /** Positions 2m and 2m + 1 of the cycle share their nayin, and the thirty
      names the cycle runs through are pairwise distinct. */
  lemma NayinPairsShareName(m: int, n: int)
    requires 0 <= m < 30 && 0 <= n < 30
    ensures GetNayin(HeavenlyStems[CycleStem(2 * m)], EarthlyBranches[CycleBranch(2 * m)])
         == GetNayin(HeavenlyStems[CycleStem(2 * m + 1)], EarthlyBranches[CycleBranch(2 * m + 1)])
    ensures m != n ==>
              GetNayin(HeavenlyStems[CycleStem(2 * m)], EarthlyBranches[CycleBranch(2 * m)])
              != GetNayin(HeavenlyStems[CycleStem(2 * n)], EarthlyBranches[CycleBranch(2 * n)])
  {
    assert 2 * m / 2 == m && (2 * m + 1) / 2 == m && 2 * n / 2 == n;
    NayinOfCyclePosition(2 * m);
    NayinOfCyclePosition(2 * m + 1);
    NayinOfCyclePosition(2 * n);
    NayinNamesDistinct();
  }

  // ---------------------------------------------------------------------
  // The time-block lookup as the source writes it

  /** The names every JavaScript object inherits from Object.prototype. A
      property read such as `TIME_TO_BRANCH[timeRange]` finds them on an
      object literal even though the literal never defines them. */
  const ObjectPrototypeMembers: set<string> := {
    "constructor", "hasOwnProperty", "isPrototypeOf", "propertyIsEnumerable",
    "toLocaleString", "toString", "valueOf", "__proto__",
    "__defineGetter__", "__defineSetter__", "__lookupGetter__", "__lookupSetter__"}

  /** What a property read on the time-block table yields: one of its own
      entries, an inherited member (a function, or Object.prototype itself
      for `__proto__`), or `undefined`. */
  datatype Property = Own(zhi: char) | Inherited(name: string) | Undefined

  /** `TIME_TO_BRANCH[timeRange] || '子'` as written: only `undefined` is
      falsy, so an inherited member is returned in place of a branch. */
  function HourBranchAsWritten(timeRange: string): (p: Property)
    ensures p != Undefined
  {
    if timeRange in TimeToBranch then Own(TimeToBranch[timeRange])
    else if timeRange in ObjectPrototypeMembers then Inherited(timeRange)
    else Own('子')
  }

  /** JavaScript's `%` on an integer and a positive divisor: the remainder
      takes the sign of the dividend. */
  function JsRemainder(a: int, n: int): (r: int)
    requires n > 0
    ensures -n < r < n
    ensures a >= 0 ==> r >= 0
    ensures a < 0 ==> r <= 0
    ensures a >= 0 ==> r == a % n
    ensures -n < a < 0 ==> r == a
  {
    if a >= 0 then a % n else -((-a) % n)
  }

  /** The hour stem `calculateBazi` reads for a day stem and a time-block
      label when the lookup is the one written in the source:
      `EARTHLY_BRANCHES.indexOf` answers -1 for an inherited member, and
      `HEAVENLY_STEMS[i]` is `undefined` (here `None`) outside 0..9. */
  function HourGanAsWritten(dayGanIndex: Stem, timeRange: string): (hourGan: Option<char>)
    ensures timeRange !in ObjectPrototypeMembers ==>
              hourGan == Some(HeavenlyStems[GetHourGanIndex(dayGanIndex, IndexOf(EarthlyBranches, GetHourBranch(timeRange)))])
    ensures timeRange in ObjectPrototypeMembers ==> (hourGan.None? <==> dayGanIndex % 5 == 0)
  {
    InheritedNamesAreNoLabels(timeRange);
    var hourZhiIndex := match HourBranchAsWritten(timeRange)
      case Own(zhi) => IndexOf(EarthlyBranches, zhi)
      case _ => -1;
    var ganIndex := JsRemainder(BaseGan[dayGanIndex] + hourZhiIndex, 10);
    if 0 <= ganIndex < 10 then Some(HeavenlyStems[ganIndex]) else None
  }

  /** No inherited name is one of the twelve labels. */
  lemma InheritedNamesAreNoLabels(timeRange: string)
    ensures timeRange in ObjectPrototypeMembers ==> timeRange !in TimeToBranch
  {
    if timeRange in ObjectPrototypeMembers {
      assert |timeRange| != 5;
    }
  }

  /** The written lookup agrees with GetHourBranch on every string except
      the inherited names; on a 甲 or 己 day an inherited name gives stem
      index (0 - 1) % 10 = -1, so the hour stem is `undefined`, where the
      intended fallback 子 gives 甲. */
  lemma HourBranchAsWrittenDiffers(timeRange: string, dayGanIndex: Stem)
    ensures timeRange !in ObjectPrototypeMembers ==> HourBranchAsWritten(timeRange) == Own(GetHourBranch(timeRange))
    ensures timeRange in ObjectPrototypeMembers ==> HourBranchAsWritten(timeRange) == Inherited(timeRange)
    ensures timeRange in ObjectPrototypeMembers && dayGanIndex % 5 == 0 ==> HourGanAsWritten(dayGanIndex, timeRange) == None
    ensures timeRange in ObjectPrototypeMembers ==> GetHourBranch(timeRange) == '子'
  {
    HourBranchOfLabel(timeRange);
    if timeRange in ObjectPrototypeMembers {
      assert |timeRange| != 5;
      assert timeRange !in TimeToBranch;
    }
  }

  /** The label "constructor" on a 甲 day: the written lookup loses the
      hour stem, the intended fallback gives the 甲子 hour. */
  lemma ConstructorLabel()
    ensures HourGanAsWritten(0, "constructor") == None
    ensures GetHourBranch("constructor") == '子' && GetHourGanIndex(0, 0) == 0
  {
    HourBranchAsWrittenDiffers("constructor", 0);
  }

  // ---------------------------------------------------------------------
  // Pillars and the five-element tally

  /** One pillar of the chart: stem symbol, branch symbol and nayin. */
  datatype Pillar = Pillar(heavenly: char, earthly: char, nayin: string)

  /** The four pillars, in the order `Object.values` lists them. */
  datatype Pillars = Pillars(year: Pillar, month: Pillar, day: Pillar, hour: Pillar)

  /** `Object.values(pillars)`. */
  function Values(p: Pillars): (ps: seq<Pillar>)
    ensures |ps| == 4
  {
    [p.year, p.month, p.day, p.hour]
  }

  /** The symbols the tally reads, stem before branch, pillar by pillar. */
  function Symbols(ps: seq<Pillar>): (cs: seq<char>)
    ensures |cs| == 2 * |ps|
  {
    if ps == [] then [] else Symbols(ps[..|ps| - 1]) + [ps[|ps| - 1].heavenly, ps[|ps| - 1].earthly]
  }

  /** How many of the symbols ELEMENT_MAP assigns to element `e`. */
  function CountOf(cs: seq<char>, e: Element): nat
  {
    if cs == [] then 0
    else CountOf(cs[..|cs| - 1], e) + (if cs[|cs| - 1] in ElementMap && ElementMap[cs[|cs| - 1]] == e then 1 else 0)
  }

  /** How many of the symbols ELEMENT_MAP does not know. */
  function UnmappedCount(cs: seq<char>): nat
  {
    if cs == [] then 0
    else UnmappedCount(cs[..|cs| - 1]) + (if cs[|cs| - 1] in ElementMap then 0 else 1)
  }

  /** The sum of the five counters. */
  function Total(elements: map<Element, nat>): int
    requires elements.Keys == AllElements
  {
    elements[Wood] + elements[Fire] + elements[Earth] + elements[Metal] + elements[Water]
  }

  /** Every symbol is counted once: under its element, or as unknown. */
  lemma {:induction false} CountsAddUp(cs: seq<char>)
    ensures CountOf(cs, Wood) + CountOf(cs, Fire) + CountOf(cs, Earth) + CountOf(cs, Metal) + CountOf(cs, Water)
            + UnmappedCount(cs) == |cs|
  {
    if cs != [] {
      CountsAddUp(cs[..|cs| - 1]);
    }
  }

  /** A symbol sequence made only of known symbols has no unknown one. */
  lemma {:induction false} NoneUnmapped(cs: seq<char>)
    requires forall i :: 0 <= i < |cs| ==> cs[i] in ElementMap
    ensures UnmappedCount(cs) == 0
  {
    if cs != [] {
      NoneUnmapped(cs[..|cs| - 1]);
    }
  }

  /** Counting more symbols never lowers a counter. */
  lemma {:induction false} CountOfGrows(cs: seq<char>, more: seq<char>, e: Element)
    ensures CountOf(cs + more, e) >= CountOf(cs, e)
    decreases |more|
  {
    if more == [] {
      assert cs + more == cs;
    } else {
      assert (cs + more)[..|cs + more| - 1] == cs + more[..|more| - 1];
      CountOfGrows(cs, more[..|more| - 1], e);
    }
  }

  /** The symbols of one more pillar follow those already read. */
  lemma SymbolsStep(ps: seq<Pillar>, i: int)
    requires 0 <= i < |ps|
    ensures Symbols(ps[..i + 1]) == Symbols(ps[..i]) + [ps[i].heavenly] + [ps[i].earthly]
  {
    assert ps[..i + 1][..i] == ps[..i];
  }

  /** The symbols of a chart, in order. */
  lemma SymbolsOfChart(p: Pillars)
    ensures Symbols(Values(p)) == [p.year.heavenly, p.year.earthly, p.month.heavenly, p.month.earthly,
                                   p.day.heavenly, p.day.earthly, p.hour.heavenly, p.hour.earthly]
  {
    var ps := Values(p);
    SymbolsStep(ps, 0);
    SymbolsStep(ps, 1);
    SymbolsStep(ps, 2);
    SymbolsStep(ps, 3);
    assert ps[..0] == [] && ps[..4] == ps;
  }

  /** The counter object after reading the symbols one by one: all five
      counters start at zero, and a symbol ELEMENT_MAP knows adds one to the
      counter of its element. */
  function Tally(cs: seq<char>): (elements: map<Element, nat>)
    ensures elements.Keys == AllElements
  {
    if cs == [] then map[Wood := 0, Fire := 0, Earth := 0, Metal := 0, Water := 0]
    else
      var elements := Tally(cs[..|cs| - 1]);
      var c := cs[|cs| - 1];
      if c in ElementMap then elements[ElementMap[c] := elements[ElementMap[c]] + 1] else elements
  }

  /** Reading one more symbol. */
  lemma TallySnoc(cs: seq<char>, c: char)
    ensures c in ElementMap ==> Tally(cs + [c]) == Tally(cs)[ElementMap[c] := Tally(cs)[ElementMap[c]] + 1]
    ensures c !in ElementMap ==> Tally(cs + [c]) == Tally(cs)
    ensures UnmappedCount(cs + [c]) == UnmappedCount(cs) + (if c in ElementMap then 0 else 1)
  {
    assert (cs + [c])[..|cs|] == cs;
  }

  /** Each counter holds the number of symbols of its element, so the five
      counters and the unknown symbols add up to the number of symbols. */
  lemma {:induction false} TallyCounts(cs: seq<char>)
    ensures forall e :: e in AllElements ==> Tally(cs)[e] == CountOf(cs, e)
    ensures Total(Tally(cs)) + UnmappedCount(cs) == |cs|
  {
    if cs != [] {
      TallyCounts(cs[..|cs| - 1]);
    }
    CountsAddUp(cs);
  }

  /** `elements[ELEMENT_MAP[c]]++`: the counter of the symbol's element
      goes up by one; for a symbol ELEMENT_MAP does not know, the key is
      `undefined`, and the increment creates an `undefined: NaN` entry. */
  method CountSymbol(elements: map<Element, nat>, undefinedEntry: bool, c: char, ghost seen: seq<char>)
    returns (elements': map<Element, nat>, undefinedEntry': bool)
    requires elements == Tally(seen)
    requires undefinedEntry <==> UnmappedCount(seen) > 0
    ensures elements' == Tally(seen + [c])
    ensures undefinedEntry' <==> UnmappedCount(seen + [c]) > 0
  {
    TallySnoc(seen, c);
    elements', undefinedEntry' := elements, undefinedEntry;
    if c in ElementMap {
      var element := ElementMap[c];
      elements' := elements[element := elements[element] + 1];
    } else {
      undefinedEntry' := true;
    }
  }

  /** `calculateElements`: the five counters start at zero and each pillar
      adds one to the element of its stem and one to that of its branch, so
      every symbol is counted under its element, and the counters and the
      unknown symbols together number eight. A symbol ELEMENT_MAP does not
      know makes the source add an `undefined: NaN` entry to the object;
      `undefinedEntry` says whether that happened. */
  method CalculateElements(pillars: Pillars) returns (elements: map<Element, nat>, undefinedEntry: bool)
    ensures elements == Tally(Symbols(Values(pillars)))
    ensures undefinedEntry <==> UnmappedCount(Symbols(Values(pillars))) > 0
    ensures Total(elements) + UnmappedCount(Symbols(Values(pillars))) == 8
  {
    var ps := Values(pillars);
    elements := map[Wood := 0, Fire := 0, Earth := 0, Metal := 0, Water := 0];
    undefinedEntry := false;
    ghost var seen: seq<char> := [];
    var i := 0;
    assert ps[..i] == [] && elements == Tally(seen);
    while i < |ps|
      invariant 0 <= i <= |ps|
      invariant seen == Symbols(ps[..i])
      invariant elements == Tally(seen)
      invariant undefinedEntry <==> UnmappedCount(seen) > 0
    {
      var pillar := ps[i];
      SymbolsStep(ps, i);
      elements, undefinedEntry := CountSymbol(elements, undefinedEntry, pillar.heavenly, seen);
      seen := seen + [pillar.heavenly];
      elements, undefinedEntry := CountSymbol(elements, undefinedEntry, pillar.earthly, seen);
      seen := seen + [pillar.earthly];
      i := i + 1;
    }
    assert ps[..|ps|] == ps;
    TallyCounts(seen);
  }

  // ---------------------------------------------------------------------
  // Assembling the chart

  /** The year, month and day pillars the lunisolar calendar library
      computes for the birth date (`lunar.getEightChar()`), as stem and
      branch indices. The library itself is not part of this model. */
  datatype EightChar = EightChar(
    yearGan: Stem, yearZhi: Branch,
    monthGan: Stem, monthZhi: Branch,
    dayGan: Stem, dayZhi: Branch)

  /** The request fields the result repeats unchanged. */
  datatype BirthInfo = BirthInfo(date: string, calendarType: string, time: string, city: Option<string>)

  /** The part of `calculateBazi`'s result this model computes. */
  datatype Bazi = Bazi(pillars: Pillars, elements: map<Element, nat>, dayMaster: char, gender: string, birthInfo: BirthInfo)

  /** A pillar of a stem and branch symbol, with the nayin of the pair. */
  function MakePillar(gan: char, zhi: char): (p: Pillar)
    ensures p.heavenly == gan && p.earthly == zhi
    ensures p.nayin == GetNayin(gan, zhi)
    ensures forall s: Stem, b: Branch :: gan == HeavenlyStems[s] && zhi == EarthlyBranches[b] ==>
              (p.nayin != Unknown <==> s % 2 == b % 2)
  {
    NayinOfSymbols(gan, zhi);
    Pillar(gan, zhi, GetNayin(gan, zhi))
  }

  /** The nayin of a stem and a branch symbol is known exactly when their
      indices have the same parity. */
  lemma NayinOfSymbols(gan: char, zhi: char)
    ensures forall s: Stem, b: Branch :: gan == HeavenlyStems[s] && zhi == EarthlyBranches[b] ==>
              (GetNayin(gan, zhi) != Unknown <==> s % 2 == b % 2)
  {
    forall s: Stem, b: Branch | gan == HeavenlyStems[s] && zhi == EarthlyBranches[b]
      ensures GetNayin(gan, zhi) != Unknown <==> s % 2 == b % 2
    {
      NayinKnownIffSameParity(s, b);
    }
  }

  /** The stem symbols are pairwise distinct, and so are the branch
      symbols, so `indexOf` finds every symbol at its own index. */
  lemma {:induction false} IndexOfSymbols(s: Stem, b: Branch)
    ensures IndexOf(HeavenlyStems, HeavenlyStems[s]) == s
    ensures IndexOf(EarthlyBranches, EarthlyBranches[b]) == b
  {
    assert forall p, q :: 0 <= p < q < 10 ==> HeavenlyStems[p] != HeavenlyStems[q];
    assert forall p, q :: 0 <= p < q < 12 ==> EarthlyBranches[p] != EarthlyBranches[q];
  }

  /** Every branch symbol GetHourBranch gives is at some index. */
  lemma HourBranchIndex(timeRange: string)
    ensures 0 <= IndexOf(EarthlyBranches, GetHourBranch(timeRange)) < 12
    ensures EarthlyBranches[IndexOf(EarthlyBranches, GetHourBranch(timeRange))] == GetHourBranch(timeRange)
  {
  }

  /** The hour pillar is always one of the sixty: whatever the day stem and
      the time block, its stem and branch have the same parity, so its nayin
      is known. */
  lemma HourPillarNayin(dayGan: Stem, birthTime: string)
    ensures var hourZhiIndex := IndexOf(EarthlyBranches, GetHourBranch(birthTime));
            && 0 <= hourZhiIndex < 12
            && GetNayin(HeavenlyStems[GetHourGanIndex(dayGan, hourZhiIndex)], GetHourBranch(birthTime)) != Unknown
  {
    var hourZhiIndex := IndexOf(EarthlyBranches, GetHourBranch(birthTime));
    NayinKnownIffSameParity(GetHourGanIndex(dayGan, hourZhiIndex), hourZhiIndex);
  }

  /** `calculateBazi` from the library's pillars on: the year, month and day
      pillars are the library's; the hour branch is the time block's, the
      hour stem follows from the day stem by GetHourGanIndex; each pillar
      carries its nayin, the hour pillar always a known one, and the
      elements are tallied over all eight symbols, which ELEMENT_MAP all
      knows, so the counters add up to eight. */
  method CalculateBazi(eightChar: EightChar, birthdate: string, calendarType: string,
                       birthTime: string, gender: string, city: Option<string>)
    returns (bazi: Bazi)
    ensures bazi.pillars.year == MakePillar(HeavenlyStems[eightChar.yearGan], EarthlyBranches[eightChar.yearZhi])
    ensures bazi.pillars.month == MakePillar(HeavenlyStems[eightChar.monthGan], EarthlyBranches[eightChar.monthZhi])
    ensures bazi.pillars.day == MakePillar(HeavenlyStems[eightChar.dayGan], EarthlyBranches[eightChar.dayZhi])
    ensures bazi.pillars.hour.earthly == GetHourBranch(birthTime)
    ensures exists b: Branch :: EarthlyBranches[b] == bazi.pillars.hour.earthly
                             && bazi.pillars.hour == MakePillar(HeavenlyStems[GetHourGanIndex(eightChar.dayGan, b)], EarthlyBranches[b])
    ensures bazi.pillars.hour.nayin != Unknown
    ensures bazi.elements == Tally(Symbols(Values(bazi.pillars))) && Total(bazi.elements) == 8
    ensures bazi.dayMaster == HeavenlyStems[eightChar.dayGan]
    ensures bazi.gender == gender && bazi.birthInfo == BirthInfo(birthdate, calendarType, birthTime, city)
  {
    var yearGan, yearZhi := HeavenlyStems[eightChar.yearGan], EarthlyBranches[eightChar.yearZhi];
    var monthGan, monthZhi := HeavenlyStems[eightChar.monthGan], EarthlyBranches[eightChar.monthZhi];
    var dayGan, dayZhi := HeavenlyStems[eightChar.dayGan], EarthlyBranches[eightChar.dayZhi];

    var hourZhi := GetHourBranch(birthTime);
    var hourZhiIndex := IndexOf(EarthlyBranches, hourZhi);
    var dayGanIndex := IndexOf(HeavenlyStems, dayGan);
    IndexOfSymbols(eightChar.dayGan, hourZhiIndex);
    HourPillarNayin(dayGanIndex, birthTime);
    var hourGanIndex := GetHourGanIndex(dayGanIndex, hourZhiIndex);
    var hourGan := HeavenlyStems[hourGanIndex];

    var pillars := Pillars(
      MakePillar(yearGan, yearZhi),
      MakePillar(monthGan, monthZhi),
      MakePillar(dayGan, dayZhi),
      MakePillar(hourGan, hourZhi));

    var elements, undefinedEntry := CalculateElements(pillars);
    ChartSymbolsKnown(pillars, eightChar.yearGan, eightChar.yearZhi, eightChar.monthGan, eightChar.monthZhi,
                      eightChar.dayGan, eightChar.dayZhi, hourGanIndex, hourZhiIndex);

    bazi := Bazi(pillars, elements, dayGan, gender, BirthInfo(birthdate, calendarType, birthTime, city));
  }

  /** A chart whose pillars are made of stem and branch symbols has no
      symbol ELEMENT_MAP does not know. */
  lemma ChartSymbolsKnown(p: Pillars, yearGan: Stem, yearZhi: Branch, monthGan: Stem, monthZhi: Branch,
                          dayGan: Stem, dayZhi: Branch, hourGan: Stem, hourZhi: Branch)
    requires p.year.heavenly == HeavenlyStems[yearGan] && p.year.earthly == EarthlyBranches[yearZhi]
    requires p.month.heavenly == HeavenlyStems[monthGan] && p.month.earthly == EarthlyBranches[monthZhi]
    requires p.day.heavenly == HeavenlyStems[dayGan] && p.day.earthly == EarthlyBranches[dayZhi]
    requires p.hour.heavenly == HeavenlyStems[hourGan] && p.hour.earthly == EarthlyBranches[hourZhi]
    ensures UnmappedCount(Symbols(Values(p))) == 0
  {
    SymbolsOfChart(p);
    ElementMapTotal(yearGan, yearZhi);
    ElementMapTotal(monthGan, monthZhi);
    ElementMapTotal(dayGan, dayZhi);
    ElementMapTotal(hourGan, hourZhi);
    NoneUnmapped(Symbols(Values(p)));
  }

  /** The library's own pillars get a nayin exactly when their stem and
      branch have the same parity, as every pillar of the sexagenary cycle
      does. */
  lemma LibraryPillarsNayin(eightChar: EightChar)
    ensures MakePillar(HeavenlyStems[eightChar.yearGan], EarthlyBranches[eightChar.yearZhi]).nayin != Unknown
            <==> eightChar.yearGan % 2 == eightChar.yearZhi % 2
    ensures MakePillar(HeavenlyStems[eightChar.monthGan], EarthlyBranches[eightChar.monthZhi]).nayin != Unknown
            <==> eightChar.monthGan % 2 == eightChar.monthZhi % 2
    ensures MakePillar(HeavenlyStems[eightChar.dayGan], EarthlyBranches[eightChar.dayZhi]).nayin != Unknown
            <==> eightChar.dayGan % 2 == eightChar.dayZhi % 2
  {
    NayinKnownIffSameParity(eightChar.yearGan, eightChar.yearZhi);
    NayinKnownIffSameParity(eightChar.monthGan, eightChar.monthZhi);
    NayinKnownIffSameParity(eightChar.dayGan, eightChar.dayZhi);
  }
}
