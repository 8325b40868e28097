/**
 * processImage and the three strategies it tries in turn: the EXIF model
 * and capture time (readExif), the WeChat export name `mmexport<epoch>`
 * (matchWxExport) and timestamps embedded in the name (matchRegex). Each
 * yields a relative destination `[alias/]YYYY/MM/<base name>` or "".
 */
module Resolver {
  import opened Wrappers
  import opened Text
  import opened Shapes
  import opened Calendar
  import opened Paths

  // ---------------------------------------------------------------------
  // readExif

  /**
   * What exif.Decode hands back for the file, before getTagString: the raw
   * text of the Model and DateTimeOriginal tags, each absent when the tag
   * is missing. A file that cannot be opened or decoded has no tags at all.
   */
  datatype ExifTags = ExifTags(model: Option<string>, dateTimeOriginal: Option<string>)

  /** modelAliasMap. */
  const ModelAliases: map<string, string> :=
    map["2304FPN6DC" := "Xiaomi13Ultra", "22021211RC" := "RedmiK40S"]

  predicate IsQuote(c: char) { c == '"' }

  /** getTagString: the tag text with every leading and trailing '"' removed. */
  function GetTagString(tag: string): (r: string)
    ensures var i := KeptFrom(tag, IsQuote, 0);
      && i + |r| <= |tag| && r == tag[i..i + |r|]
      && (forall k :: 0 <= k < i ==> tag[k] == '"')
      && (forall k :: i + |r| <= k < |tag| ==> tag[k] == '"')
    ensures r == [] || (r[0] != '"' && r[|r| - 1] != '"')
  {
    Trim(tag, IsQuote)
  }

  /** Quotes inside the value are kept: only the runs at the two ends go. */
  lemma GetTagStringUnquotes(lead: string, value: string, trail: string)
    requires forall k :: 0 <= k < |lead| ==> lead[k] == '"'
    requires forall k :: 0 <= k < |trail| ==> trail[k] == '"'
    requires value != [] && value[0] != '"' && value[|value| - 1] != '"'
    ensures GetTagString(lead + value + trail) == value
  {
    TrimPadded(lead, value, trail, IsQuote);
  }

  /** modelAliasMap[model]: Go's zero value "" for a model that is not listed. */
  function ModelAlias(model: string): (alias: string)
    ensures model in ModelAliases ==> alias == ModelAliases[model]
    ensures model !in ModelAliases ==> alias == ""
  {
    if model in ModelAliases then ModelAliases[model] else ""
  }

  predicate HasExifDate(exif: Option<ExifTags>)
  {
    exif.Some? && exif.value.model.Some? && exif.value.dateTimeOriginal.Some?
  }

  /** readExif, after the decode: "" unless both tags are there. */
  function ReadExif(file: string, exif: Option<ExifTags>): (r: string)
    ensures r == "" <==> !HasExifDate(exif)
  {
    match exif
    case None => ""
    case Some(tags) =>
      if tags.model.None? then ""
      else
        var alias := ModelAlias(GetTagString(tags.model.value));
        if tags.dateTimeOriginal.None? then ""
        else
          LayoutsWellFormed();
          var ym := YearMonth(Parse(ExifLayout, GetTagString(tags.dateTimeOriginal.value)));
          Join([alias, ym.0, ym.1, Base(file)])
  }

  /**
   * With both tags present the path is `alias/YYYY/MM/base`, the alias being
   * the listed alias of the unquoted model or nothing at all, and YYYY/MM
   * the year and month digits of the unquoted capture time when it parses,
   * 0001/01 when it does not.
   */
  lemma ReadExifPath(file: string, model: string, taken: string)
    ensures var alias := ModelAlias(GetTagString(model));
      var ym := WrittenYearMonth(ExifLayout, GetTagString(taken));
      ReadExif(file, Some(ExifTags(Some(model), Some(taken))))
        == (if alias == "" then "" else alias + "/") + ym.0 + "/" + ym.1 + "/" + Base(file)
  {
    LayoutsWellFormed();
    var ts := GetTagString(taken);
    YearMonthOfParse(ExifLayout, ts);
    var ym := YearMonth(Parse(ExifLayout, ts));
    var alias := ModelAlias(GetTagString(model));
    assert ReadExif(file, Some(ExifTags(Some(model), Some(taken)))) == Join([alias, ym.0, ym.1, Base(file)]);
    JoinFour(alias, ym.0, ym.1, Base(file));
  }

  // ---------------------------------------------------------------------
  // matchWxExport

  /** `mmexport(1\d{9})`: the group is the ten characters from offset 8. */
  const WxShape: Shape := Literal("mmexport1") + DigitRun(9)

  /** strconv.ParseInt(s, 10, 64) on unsigned decimal text. */
  function ParseInt64(s: string): (r: Option<int>)
    ensures r.Some? ==> AllDigits(s) && r.value == Num(s)
  {
    if s != "" && AllDigits(s) && Num(s) < 0x8000_0000_0000_0000 then Some(Num(s)) else None
  }

  /** The captured group of a window: `1` and nine digits, so an epoch in [10^9, 2*10^9). */
  lemma WxGroup(file: string, k: nat)
    requires MatchesAt(file, k, WxShape)
    ensures AllDigits(file[k + 8..k + 18])
    ensures 1000000000 <= Num(file[k + 8..k + 18]) < 2000000000
    ensures ParseInt64(file[k + 8..k + 18]) == Some(Num(file[k + 8..k + 18]))
  {
    var g := file[k + 8..k + 18];
    assert |WxShape| == 18;
    forall i | 0 <= i < 10 ensures IsDigit(g[i]) {
      assert g[i] == file[k + (8 + i)];
      assert Fits(file[k + (8 + i)], WxShape[8 + i]);
    }
    assert Fits(file[k + 8], WxShape[8]);
    NumLeading(g);
    assert Pow10(9) == 1000000000;
  }

  /** matchWxExport: "" without a window; otherwise YYYY/MM/base of the window's epoch in local time. */
  function MatchWxExport(file: string, utcOffset: int): (r: string)
    ensures r == "" <==> Leftmost(file, WxShape, 0).None?
  {
    match Leftmost(file, WxShape, 0)
    case None => ""
    case Some(k) => WxPathAt(file, k, utcOffset)
  }

  /** The path built from the window at k; the ParseInt error branch gives "" as in the source. */
  function WxPathAt(file: string, k: nat, utcOffset: int): (r: string)
    requires MatchesAt(file, k, WxShape)
    ensures r != ""
  {
    WxGroup(file, k);
    match ParseInt64(file[k + 8..k + 18])
    case None => ""
    case Some(secs) =>
      var t := LocalDate(secs, utcOffset);
      Join([FormatYear(t.year), FormatMonth(t.month), Base(file)])
  }

  /**
   * With a window at its leftmost index k, the path is YYYY/MM/base where
   * the epoch is the group's value, between 10^9 and 2*10^9, and the local
   * date at the given offset falls in that year and month; the ParseInt
   * error is never taken.
   */
  lemma MatchWxExportPath(file: string, utcOffset: int, k: nat)
    requires Leftmost(file, WxShape, 0) == Some(k)
    ensures k + 18 <= |file| && AllDigits(file[k + 8..k + 18])
    ensures 1000000000 <= Num(file[k + 8..k + 18]) < 2000000000
    ensures var t := LocalDate(Num(file[k + 8..k + 18]), utcOffset);
      MatchWxExport(file, utcOffset) == FormatYear(t.year) + "/" + FormatMonth(t.month) + "/" + Base(file)
  {
    WxGroup(file, k);
    var t := LocalDate(Num(file[k + 8..k + 18]), utcOffset);
    var y, m, b := FormatYear(t.year), FormatMonth(t.month), Base(file);
    assert WxPathAt(file, k, utcOffset) == Join([y, m, b]);
    JoinFour("", y, m, b);
  }

  // ---------------------------------------------------------------------
  // matchRegex

  /** One entry of regexTime: a pattern and the layout its match is parsed with. */
  datatype TimePattern = TimePattern(regex: Shape, layout: Layout)

  /** `\d{8}_\d{6}` with "20060102_150405". */
  const CompactPattern: TimePattern := TimePattern(DigitRun(8) + Literal("_") + DigitRun(6), CompactLayout)

  /** `\d{4}-\d{2}-\d{2} \d{2}\.\d{2}\.\d{2}` with "2006-01-02 15.04.05". */
  const DashedPattern: TimePattern :=
    TimePattern(DigitRun(4) + Literal("-") + DigitRun(2) + Literal("-") + DigitRun(2) + Literal(" ")
                + DigitRun(2) + Literal(".") + DigitRun(2) + Literal(".") + DigitRun(2),
                DashedLayout)

  /** The entries of regexTime, in declaration order. */
  const TimePatterns: seq<TimePattern> := [CompactPattern, DashedPattern]

  /** An order a range over regexTime may visit its entries in: each exactly once. */
  predicate IsMapOrder(order: seq<TimePattern>)
  {
    order == TimePatterns || order == [DashedPattern, CompactPattern]
  }

  lemma PatternShapes()
    ensures CompactPattern.regex == CompactLayout.shape && DashedPattern.regex == DashedLayout.shape
    ensures CompactPattern != DashedPattern
  {
    assert CompactPattern.regex[4] == AnyDigit && DashedPattern.regex[4] == Exactly('-');
  }

  /** Whether any entry of `order` has a window in `file`. */
  predicate AnyWindow(file: string, order: seq<TimePattern>)
  {
    exists i :: 0 <= i < |order| && Leftmost(file, order[i].regex, 0).Some?
  }

  /**
   * matchRegex with the entries visited in `order`: the first entry with a
   * window decides, from the time its leftmost window parses to (or the zero
   * time); "" when no entry has a window.
   */
  function MatchRegex(file: string, order: seq<TimePattern>): (r: string)
    ensures r == "" <==> !AnyWindow(file, order)
  {
    if order == [] then ""
    else
      match Leftmost(file, order[0].regex, 0)
      case Some(k) => RegexPathAt(file, order[0], k)
      case None =>
        var r := MatchRegex(file, order[1..]);
        assert AnyWindow(file, order) <==> AnyWindow(file, order[1..]) by {
          if AnyWindow(file, order) {
            var i :| 0 <= i < |order| && Leftmost(file, order[i].regex, 0).Some?;
            assert order[i] == order[1..][i - 1];
          }
          if AnyWindow(file, order[1..]) {
            var i :| 0 <= i < |order[1..]| && Leftmost(file, order[1..][i].regex, 0).Some?;
            assert order[1..][i] == order[i + 1];
          }
        }
        r
  }

  /**
   * The path from the window of `p` at k: YYYY/MM/base with the window's own
   * year and month digits when it parses, 0001/01 (the zero time) when not.
   */
  function RegexPathAt(file: string, p: TimePattern, k: nat): (r: string)
    requires k + |p.regex| <= |file|
    ensures var ym := WrittenYearMonth(p.layout, file[k..k + |p.regex|]);
      r == ym.0 + "/" + ym.1 + "/" + Base(file)
  {
    var ym := YearMonthOf(p.layout, file[k..k + |p.regex|]);
    JoinFour("", ym.0, ym.1, Base(file));
    Join([ym.0, ym.1, Base(file)])
  }

  /**
   * The entry that decides is the first in `order` with a window: the path
   * is the one built from its leftmost window, whose year and month digits
   * it carries when the window parses (0001/01 when it does not).
   */
  lemma {:induction false} MatchRegexFirst(file: string, order: seq<TimePattern>, i: nat)
    requires i < |order|
    requires forall j :: 0 <= j < i ==> Leftmost(file, order[j].regex, 0).None?
    requires Leftmost(file, order[i].regex, 0).Some?
    ensures MatchRegex(file, order) == RegexPathAt(file, order[i], Leftmost(file, order[i].regex, 0).value)
    decreases i
  {
    if i == 0 {
      var k := Leftmost(file, order[0].regex, 0).value;
      assert MatchRegex(file, order) == RegexPathAt(file, order[0], k);
    } else {
      assert Leftmost(file, order[0].regex, 0).None?;
      assert MatchRegex(file, order) == MatchRegex(file, order[1..]);
      forall j | 0 <= j < i - 1 ensures Leftmost(file, order[1..][j].regex, 0).None? {
        assert order[1..][j] == order[j + 1];
      }
      assert order[1..][i - 1] == order[i];
      MatchRegexFirst(file, order[1..], i - 1);
    }
  }

  /**
   * Whichever order the map is visited in, matchRegex finds a path exactly
   * when one of the two patterns has a window.
   */
  lemma MatchRegexFinds(file: string, order: seq<TimePattern>)
    requires IsMapOrder(order)
    ensures MatchRegex(file, order) == "" <==>
      Leftmost(file, CompactPattern.regex, 0).None? && Leftmost(file, DashedPattern.regex, 0).None?
  {
    if Leftmost(file, CompactPattern.regex, 0).Some? {
      assert CompactPattern in order;
    }
    if Leftmost(file, DashedPattern.regex, 0).Some? {
      assert DashedPattern in order;
    }
  }

  /** When only one pattern has a window, the order the map is visited in makes no difference. */
  lemma MatchRegexOrderIrrelevant(file: string, o1: seq<TimePattern>, o2: seq<TimePattern>)
    requires IsMapOrder(o1) && IsMapOrder(o2)
    requires Leftmost(file, CompactPattern.regex, 0).None? || Leftmost(file, DashedPattern.regex, 0).None?
    ensures MatchRegex(file, o1) == MatchRegex(file, o2)
  {
    assert o1[1..] == [o1[1]] && o2[1..] == [o2[1]];
    assert [o1[1]][1..] == [] && [o2[1]][1..] == [];
  }

  // ---------------------------------------------------------------------
  // processImage

  datatype ResolveError = FailedToGenerateName

  /**
   * processImage: the first strategy with a non-empty answer wins, in the
   * order EXIF, export name, timestamp patterns; the error comes only when
   * all three are empty.
   */
  function ProcessImage(file: string, exif: Option<ExifTags>, utcOffset: int, order: seq<TimePattern>)
    : (r: Result<string, ResolveError>)
    ensures r.Failure? <==> !HasExifDate(exif) && Leftmost(file, WxShape, 0).None? && !AnyWindow(file, order)
    ensures r.Success? ==> r.value != ""
    ensures HasExifDate(exif) ==> r == Success(ReadExif(file, exif))
    ensures !HasExifDate(exif) && Leftmost(file, WxShape, 0).Some? ==> r == Success(MatchWxExport(file, utcOffset))
    ensures !HasExifDate(exif) && Leftmost(file, WxShape, 0).None? && AnyWindow(file, order)
      ==> r == Success(MatchRegex(file, order))
  {
    var viaExif := ReadExif(file, exif);
    if viaExif != "" then Success(viaExif)
    else
      var viaExport := MatchWxExport(file, utcOffset);
      if viaExport != "" then Success(viaExport)
      else
        var viaName := MatchRegex(file, order);
        if viaName != "" then Success(viaName)
        else Failure(FailedToGenerateName)
  }
}
