/** The per-report badges the report views draw: the category emoji and display name and the
    severity colour. The report list (TrafficReportsList.jsx) and the map draft (temp.jsx) share
    the emoji table and the name formatter; they colour severities differently (MUI palette names
    in the list, hex colours in the draft). The inputs are the strings the JSON carries, so a value
    outside the enum reaches the fallbacks. */
module ReportBadges {
  import opened Text
  import opened Entities

  /** The emoji of each category, the iconMap of getCategoryIcon. */
  function EmojiOf(c: TrafficCategory): string
  {
    match c
    case TrafficJam => "\U{1F697}"
    case Accident => "\U{1F6A8}"
    case RoadClosed => "\U{1F6A7}"
    case Checkpoint => "\U{1F46E}"
    case Construction => "\U{1F3D7}\U{FE0F}"
    case Flooding => "\U{1F30A}"
    case OtherCategory => "\U{1F4CD}"
  }

  /** getCategoryIcon: `iconMap[category] || iconMap.OTHER`, looked up by the enum name. */
  function CategoryEmoji(category: string): string
  {
    if category == "TRAFFIC_JAM" then "\U{1F697}"
    else if category == "ACCIDENT" then "\U{1F6A8}"
    else if category == "ROAD_CLOSED" then "\U{1F6A7}"
    else if category == "CHECKPOINT" then "\U{1F46E}"
    else if category == "CONSTRUCTION" then "\U{1F3D7}\U{FE0F}"
    else if category == "FLOODING" then "\U{1F30A}"
    else "\U{1F4CD}"
  }

  /** Every category gets its own emoji through its enum name, and any other string gets the
      OTHER category's pin. */
  lemma CategoryEmojiLookup(category: string)
    ensures forall c :: CategoryEmoji(CategoryName(c)) == EmojiOf(c)
    ensures (forall c :: category != CategoryName(c)) ==> CategoryEmoji(category) == EmojiOf(OtherCategory)
    ensures forall c, d :: c != d ==> EmojiOf(c) != EmojiOf(d)
  {
    assert forall c :: CategoryName(c) == CategoryName(c);
    if forall c :: category != CategoryName(c) {
      assert category != CategoryName(TrafficJam) && category != CategoryName(Accident);
      assert category != CategoryName(RoadClosed) && category != CategoryName(Checkpoint);
      assert category != CategoryName(Construction) && category != CategoryName(Flooding);
    }
  }

  /** A word character of a regular expression's `\w`. */
  predicate IsWordChar(c: char)
  {
    IsAsciiUpper(c) || IsAsciiLower(c) || ('0' <= c <= '9') || c == '_'
  }

  /** `.replace(/_/g, " ")` */
  function UnderscoresToSpaces(s: string): (r: string)
    ensures |r| == |s|
    ensures forall i :: 0 <= i < |s| ==> r[i] == if s[i] == '_' then ' ' else s[i]
  {
    seq(|s|, i requires 0 <= i < |s| => if s[i] == '_' then ' ' else s[i])
  }

  /** `.replace(/\b\w/g, (l) => l.toUpperCase())`: a word character that begins a word (the first
      character, or one after a non-word character) is upper-cased. */
  function CapitalizeWords(s: string): (r: string)
    ensures |r| == |s|
  {
    seq(|s|, i requires 0 <= i < |s| =>
      if IsWordChar(s[i]) && (i == 0 || !IsWordChar(s[i - 1])) then UpperChar(s[i]) else s[i])
  }

  /** formatCategoryName: underscores become spaces, the rest is lower-cased and every word is
      capitalised. */
  function FormatCategoryName(category: string): (r: string)
    ensures |r| == |category|
  {
    CapitalizeWords(ToLower(UnderscoresToSpaces(category)))
  }

  lemma CaseMappingKeepsWordChars(c: char)
    ensures IsWordChar(LowerChar(c)) <==> IsWordChar(c)
    ensures IsWordChar(UpperChar(c)) <==> IsWordChar(c)
    ensures LowerChar(UpperChar(LowerChar(c))) == LowerChar(c)
    ensures c != '_' ==> LowerChar(c) != '_' && UpperChar(c) != '_'
  {
  }

  /** The formatted name has the input's letters in the input's positions, a space for every
      underscore and no underscore left; a letter is upper-case exactly when it begins a word. */
  lemma FormatCategoryNameMeaning(category: string)
    ensures var r := FormatCategoryName(category);
            && (forall i :: 0 <= i < |r| ==> r[i] != '_')
            && (forall i :: 0 <= i < |r| && category[i] == '_' ==> r[i] == ' ')
            && (forall i :: 0 <= i < |r| && category[i] != '_' ==> LowerChar(r[i]) == LowerChar(category[i]))
            && (forall i :: 0 <= i < |r| && IsAsciiUpper(r[i]) ==> i == 0 || !IsWordChar(r[i - 1]))
            && (forall i :: 0 <= i < |r| && IsAsciiLower(r[i]) ==> i > 0 && IsWordChar(r[i - 1]))
  {
    var spaced := UnderscoresToSpaces(category);
    var lowered := ToLower(spaced);
    var r := CapitalizeWords(lowered);
    forall i | 0 <= i < |r|
      ensures r[i] != '_'
      ensures IsWordChar(r[i]) <==> IsWordChar(lowered[i])
      ensures category[i] == '_' ==> r[i] == ' '
      ensures category[i] != '_' ==> LowerChar(r[i]) == LowerChar(category[i])
      ensures IsAsciiUpper(r[i]) ==> i == 0 || !IsWordChar(lowered[i - 1])
      ensures IsAsciiLower(r[i]) ==> i > 0 && IsWordChar(lowered[i - 1])
    {
      CaseMappingKeepsWordChars(spaced[i]);
      CaseMappingKeepsWordChars(lowered[i]);
    }
  }

  /** A category chip reads as words. */
  lemma FormatCategoryNameExample()
    ensures FormatCategoryName("TRAFFIC_JAM") == "Traffic Jam"
  {
    var spaced := UnderscoresToSpaces("TRAFFIC_JAM");
    assert spaced == "TRAFFIC JAM";
    var lowered := ToLower(spaced);
    assert lowered == "traffic jam";
  }

  /** The list's MUI chip colour for each severity. */
  function PaletteOf(s: Severity): string
  {
    match s
    case Low => "success"
    case Medium => "warning"
    case High => "error"
    case Critical => "secondary"
  }

  /** getSeverityColor of the list: `colors[severity] || "default"`. */
  function SeverityPalette(severity: string): string
  {
    if severity == "LOW" then "success"
    else if severity == "MEDIUM" then "warning"
    else if severity == "HIGH" then "error"
    else if severity == "CRITICAL" then "secondary"
    else "default"
  }

  /** The four severities get four different chip colours; anything else gets "default", which
      no severity uses. */
  lemma SeverityPaletteLookup(severity: string)
    ensures forall s :: SeverityPalette(SeverityName(s)) == PaletteOf(s)
    ensures (forall s :: severity != SeverityName(s)) ==> SeverityPalette(severity) == "default"
    ensures forall s :: PaletteOf(s) != "default"
    ensures forall s, t :: s != t ==> PaletteOf(s) != PaletteOf(t)
  {
    assert forall s :: SeverityName(s) == SeverityName(s);
    if forall s :: severity != SeverityName(s) {
      assert severity != SeverityName(Low) && severity != SeverityName(Medium);
      assert severity != SeverityName(High) && severity != SeverityName(Critical);
    }
  }

  /** The draft map's hex colour for each severity. */
  function HexOf(s: Severity): string
  {
    match s
    case Low => "#4caf50"
    case Medium => "#ff9800"
    case High => "#f44336"
    case Critical => "#9c27b0"
  }

  /** getSeverityColor of temp.jsx: `colors[severity] || colors.LOW`. */
  function SeverityHex(severity: string): string
  {
    if severity == "MEDIUM" then "#ff9800"
    else if severity == "HIGH" then "#f44336"
    else if severity == "CRITICAL" then "#9c27b0"
    else "#4caf50"
  }

  /** The four severities get four different colours, and any other value is drawn as LOW. */
  lemma SeverityHexLookup(severity: string)
    ensures forall s :: SeverityHex(SeverityName(s)) == HexOf(s)
    ensures (forall s :: severity != SeverityName(s)) ==> SeverityHex(severity) == HexOf(Low)
    ensures forall s, t :: s != t ==> HexOf(s) != HexOf(t)
  {
    assert forall s :: SeverityName(s) == SeverityName(s);
    if forall s :: severity != SeverityName(s) {
      assert severity != SeverityName(Medium);
      assert severity != SeverityName(High) && severity != SeverityName(Critical);
    }
  }
}
