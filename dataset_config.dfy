/**
 * The dashboard's dataset configuration: from the dataset name and the
 * precision option it derives the mainstreet and backstreet time-point ranges,
 * the precision cut, and the directory that holds the precomputed results.
 */
module DatasetConfig {
  import opened Wrappers
  import opened Seqs
  import opened Strings

  /** A time-point range given as its first and last time-point. */
  datatype TpRange = TpRange(first: int, last: int)

  /** The two regimes of a dataset: the low-resolution mainstreet and the high-resolution backstreet time-points. */
  datatype StreetRanges = StreetRanges(mainstreet: TpRange, backstreet: TpRange)

  /** Python's IndexError when the dataset name has no usable third `_` token. */
  datatype ConfigError = IndexOutOfRange

  /** Both ranges are well formed and the mainstreet range lies wholly before the backstreet range. */
  predicate OrderedDisjoint(r: StreetRanges)
  {
    r.mainstreet.first <= r.mainstreet.last < r.backstreet.first <= r.backstreet.last
  }

  /** The ranges of every dataset whose name does not start with the `PhChr` token. */
  const DefaultRanges := StreetRanges(TpRange(0, 19), TpRange(20, 24))

  /** The nested decision on the `_` tokens of the dataset name. */
  function SelectRanges(exp: string): (r: Result<StreetRanges, ConfigError>)
    ensures r.Success? ==> OrderedDisjoint(r.value)
  {
    var tokens := Split(exp, '_');
    if tokens[0] == "PhChr" then
      if Last(tokens) == "Chr22" then
        if |tokens| < 3 || tokens[2] == "" then Failure(IndexOutOfRange)
        else if Last(tokens[2]) == '1' then Success(StreetRanges(TpRange(0, 13), TpRange(32, 36)))
        else Success(StreetRanges(TpRange(0, 14), TpRange(31, 35)))
      else
        if |tokens| < 3 || tokens[2] == "" then Failure(IndexOutOfRange)
        else if Last(tokens[2]) == '1' then Success(StreetRanges(TpRange(0, 15), TpRange(32, 36)))
        else Success(StreetRanges(TpRange(15, 30), TpRange(31, 35)))
    else
      Success(DefaultRanges)
  }

  /** A name whose first token is not `PhChr` always gets the default ranges, whatever else it holds. */
  lemma NonPhChrGetsDefault(exp: string)
    requires Split(exp, '_')[0] != "PhChr"
    ensures SelectRanges(exp) == Success(DefaultRanges)
  {
  }

  /** The selection fails exactly for a `PhChr` name with fewer than three tokens or an empty third token. */
  lemma SelectRangesFails(exp: string)
    ensures SelectRanges(exp).Failure? <==>
              var tokens := Split(exp, '_');
              tokens[0] == "PhChr" && (|tokens| < 3 || tokens[2] == "")
  {
  }

  // An explicit table keyed by the kind of dataset, as a reference for the decision above.

  datatype Chromosome = Chr9 | Chr22
  datatype Location = Loc1 | Loc2
  datatype Dataset = PhChr(chromosome: Chromosome, location: Location) | Standard

  /** The ranges of each kind of dataset. */
  function RangesFor(d: Dataset): (r: StreetRanges)
    ensures OrderedDisjoint(r)
  {
    match d
    case Standard => DefaultRanges
    case PhChr(Chr22, Loc1) => StreetRanges(TpRange(0, 13), TpRange(32, 36))
    case PhChr(Chr22, Loc2) => StreetRanges(TpRange(0, 14), TpRange(31, 35))
    case PhChr(Chr9, Loc1) => StreetRanges(TpRange(0, 15), TpRange(32, 36))
    case PhChr(Chr9, Loc2) => StreetRanges(TpRange(15, 30), TpRange(31, 35))
  }

  /**
   * Which kind of dataset a name denotes: the chromosome is Chr22 exactly
   * when the last token is `Chr22`, the location is Loc1 exactly when the
   * third token ends in `1`.
   */
  function Classify(exp: string): (r: Result<Dataset, ConfigError>)
    ensures var tokens := Split(exp, '_');
      && (r == Success(Standard) <==> tokens[0] != "PhChr")
      && (r.Failure? <==> tokens[0] == "PhChr" && (|tokens| < 3 || tokens[2] == ""))
      && (r.Success? && r.value.PhChr? ==>
            && |tokens| >= 3 && tokens[2] != ""
            && (r.value.chromosome == Chr22 <==> Last(tokens) == "Chr22")
            && (r.value.location == Loc1 <==> Last(tokens[2]) == '1'))
  {
    var tokens := Split(exp, '_');
    if tokens[0] != "PhChr" then Success(Standard)
    else if |tokens| < 3 || tokens[2] == "" then Failure(IndexOutOfRange)
    else Success(PhChr(if Last(tokens) == "Chr22" then Chr22 else Chr9,
                       if Last(tokens[2]) == '1' then Loc1 else Loc2))
  }

  /** The nested decision agrees with the table on every name, the failing ones included. */
  lemma SelectRangesMatchesTable(exp: string)
    ensures SelectRanges(exp) == match Classify(exp)
                                 case Success(d) => Success(RangesFor(d))
                                 case Failure(e) => Failure(e)
  {
  }

  /** The precision cut: the last space-separated token of the precision option. */
  function PrecisionCut(option: string): (cut: string)
    ensures ' ' !in cut
    ensures |cut| <= |option| && option[|option| - |cut|..] == cut
    ensures |cut| < |option| ==> option[|option| - |cut| - 1] == ' '
  {
    LastTokenIsSuffix(option, ' ');
    Last(Split(option, ' '))
  }

  /** The only option the dashboard offers cuts to `0`. */
  lemma PrecisionCutOfOffer()
    ensures PrecisionCut("precision x,y,z > 0") == "0"
  {
    assert "precision x,y,z > 0" == "precision x,y,z >" + [' '] + "0";
    LastTokenAfterLastSeparator("precision x,y,z >", ' ', "0");
  }

  /** The directory of the precomputed results of a dataset and cut. */
  function BasePath(exp: string, cut: string): (p: string)
    ensures |p| == |"saves_kdtree/"| + |exp| + |"/precision_"| + |cut|
    ensures p[|"saves_kdtree/"|..|"saves_kdtree/"| + |exp|] == exp
    ensures p[|p| - |cut|..] == cut
  {
    "saves_kdtree/" + exp + "/precision_" + cut
  }

  /** The position of the first `/` at or after position `i` of `s` (`|s|` when there is none). */
  function SlashFrom(s: string, i: nat): (k: nat)
    requires i <= |s|
    ensures i <= k <= |s|
    decreases |s| - i
  {
    if i == |s| then |s|
    else if s[i] == '/' then i
    else SlashFrom(s, i + 1)
  }

  /** In a results directory, the first `/` after `saves_kdtree/` is the one that ends the dataset name. */
  lemma {:induction false} SlashEndsDatasetName(exp: string, cut: string, i: nat)
    requires '/' !in exp
    requires |"saves_kdtree/"| <= i <= |"saves_kdtree/"| + |exp|
    ensures SlashFrom(BasePath(exp, cut), i) == |"saves_kdtree/"| + |exp|
    decreases |"saves_kdtree/"| + |exp| - i
  {
    var p, n := BasePath(exp, cut), |"saves_kdtree/"|;
    if i < n + |exp| {
      assert p[i] == exp[i - n];
      SlashEndsDatasetName(exp, cut, i + 1);
    } else {
      assert p[i] == '/';
    }
  }

  /** Different datasets or cuts never share a results directory, as long as names hold no `/`. */
  lemma BasePathInjective(e1: string, c1: string, e2: string, c2: string)
    requires '/' !in e1 && '/' !in e2
    requires BasePath(e1, c1) == BasePath(e2, c2)
    ensures e1 == e2 && c1 == c2
  {
    var p1, p2 := BasePath(e1, c1), BasePath(e2, c2);
    var n := |"saves_kdtree/"|;
    SlashEndsDatasetName(e1, c1, n);
    SlashEndsDatasetName(e2, c2, n);
    assert |e1| == |e2|;
    assert e1 == p1[n..n + |e1|];
    assert e2 == p2[n..n + |e2|];
    var k := n + |e1| + |"/precision_"|;
    assert c1 == p1[k..];
    assert c2 == p2[k..];
  }

  /** Everything the dashboard derives from its two drop-down choices. */
  datatype Config = Config(ranges: StreetRanges, cut: string, basePath: string)

  /**
   * The configuration of a dataset name and precision option: it fails exactly
   * when the range selection fails, and otherwise carries ordered, disjoint ranges
   * and the results directory built from the name and the cut.
   */
  function SelectConfig(exp: string, option: string): (r: Result<Config, ConfigError>)
    ensures r.Failure? <==> SelectRanges(exp).Failure?
    ensures r.Success? ==>
              && r.value.ranges == SelectRanges(exp).value
              && OrderedDisjoint(r.value.ranges)
              && r.value.cut == PrecisionCut(option)
              && r.value.basePath == "saves_kdtree/" + exp + "/precision_" + r.value.cut
  {
    var cut := PrecisionCut(option);
    match SelectRanges(exp)
    case Failure(e) => Failure(e)
    case Success(ranges) => Success(Config(ranges, cut, BasePath(exp, cut)))
  }

  /** Three separator-free tokens joined by the separator split back into those three. */
  lemma SplitThree(a: string, b: string, c: string, sep: char)
    requires sep !in a && sep !in b && sep !in c
    ensures Split(a + [sep] + b + [sep] + c, sep) == [a, b, c]
  {
    SplitWithoutSeparator(c, sep);
    SplitLeadingToken(b, sep, c);
    assert a + [sep] + b + [sep] + c == a + [sep] + (b + [sep] + c);
    SplitLeadingToken(a, sep, b + [sep] + c);
  }

  /** The `_` tokens of the first dataset the dashboard offers. */
  lemma TokensOfPlainDataset()
    ensures Split("Set1_Location4_Cell1", '_') == ["Set1", "Location4", "Cell1"]
  {
    assert "Set1_Location4_Cell1" == "Set1" + ['_'] + "Location4" + ['_'] + "Cell1";
    SplitThree("Set1", "Location4", "Cell1", '_');
  }

  /** The `_` tokens of the second dataset the dashboard offers. */
  lemma TokensOfPhChrDataset()
    ensures Split("PhChr_Set1_Location2_Cell1_Chr9", '_') == ["PhChr", "Set1", "Location2", "Cell1", "Chr9"]
  {
    var tail := "Location2" + ['_'] + "Cell1" + ['_'] + "Chr9";
    var s := "PhChr" + ['_'] + ("Set1" + ['_'] + tail);
    assert Split(s, '_') == ["PhChr", "Set1", "Location2", "Cell1", "Chr9"] by {
      SplitThree("Location2", "Cell1", "Chr9", '_');
      SplitLeadingToken("Set1", '_', tail);
      SplitLeadingToken("PhChr", '_', "Set1" + ['_'] + tail);
    }
    assert "PhChr_Set1_Location2_Cell1_Chr9" == s;
  }

  /** The configuration of the first dataset the dashboard offers, with its only precision option. */
  lemma ConfigOfPlainDataset(exp: string, option: string)
    requires exp == "Set1_Location4_Cell1" && option == "precision x,y,z > 0"
    ensures SelectConfig(exp, option) == Success(Config(DefaultRanges, "0", BasePath(exp, "0")))
  {
    assert SelectRanges(exp) == Success(DefaultRanges) by {
      TokensOfPlainDataset();
    }
    assert PrecisionCut(option) == "0" by {
      PrecisionCutOfOffer();
    }
  }

  /** The second dataset the dashboard offers takes the Chr9, location 2 branch. */
  lemma RangesOfPhChrDataset(exp: string)
    requires exp == "PhChr_Set1_Location2_Cell1_Chr9"
    ensures SelectRanges(exp) == Success(StreetRanges(TpRange(15, 30), TpRange(31, 35)))
  {
    var tokens := Split(exp, '_');
    TokensOfPhChrDataset();
    assert tokens[0] == "PhChr";
    assert Last(tokens) == "Chr9" && "Chr9" != "Chr22";
    assert tokens[2] == "Location2" && Last(tokens[2]) == '2';
  }

  /** The configuration of the second dataset the dashboard offers: chromosome 9 at location 2. */
  lemma ConfigOfPhChrDataset(exp: string, option: string)
    requires exp == "PhChr_Set1_Location2_Cell1_Chr9" && option == "precision x,y,z > 0"
    ensures SelectConfig(exp, option)
         == Success(Config(StreetRanges(TpRange(15, 30), TpRange(31, 35)), "0", BasePath(exp, "0")))
  {
    RangesOfPhChrDataset(exp);
    assert PrecisionCut(option) == "0" by {
      PrecisionCutOfOffer();
    }
  }
}
