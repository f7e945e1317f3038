/**
 * The dashboard's classification and formatting lookups: the colour band of
 * the sustainability index, the colour of a station's map marker, the status
 * badge and its label, the trend indicator and the styling of an alert card.
 * Station statuses, trends and alert types are the source's strings, so every
 * lookup has to say what it does with a string it does not know.
 */
module Display {
  import AlertFeed

  datatype Option<T> = None | Some(value: T)

  /** The three hex colours of the index gauge and the map markers. */
  datatype Colour = Emerald | Amber | Red

  function Hex(c: Colour): (h: string)
    ensures |h| == 7 && h[0] == '#'
  {
    match c
    case Emerald => "#10b981"
    case Amber => "#f59e0b"
    case Red => "#ef4444"
  }

  /** The three colours have the gauge's and the markers' hex codes, and no two share a code. */
  lemma HexCodes(c: Colour, d: Colour)
    ensures Hex(Emerald) == "#10b981" && Hex(Amber) == "#f59e0b" && Hex(Red) == "#ef4444"
    ensures Hex(c) == Hex(d) ==> c == d
  {
  }

  /** How healthy a colour says things are: red below amber below emerald. */
  function Rank(c: Colour): nat
  {
    match c
    case Red => 0
    case Amber => 1
    case Emerald => 2
  }

  /** The colour families used by badges, indicators and alert cards. */
  datatype Tone = Green | Yellow | RedTone | Blue | Gray

  datatype Icon = CheckCircle | AlertTriangle | XCircle | InfoIcon | TrendingUp | TrendingDown | Activity

  /** The fill of the sustainability gauge: above 70 emerald, above 40 amber, otherwise red. */
  function SustainabilityColour(index: real): (c: Colour)
    ensures c == Emerald <==> index > 70.0
    ensures c == Amber <==> 40.0 < index <= 70.0
    ensures c == Red <==> index <= 40.0
  {
    if index > 70.0 then Emerald else if index > 40.0 then Amber else Red
  }

  /** A higher index never gets a less healthy colour. */
  lemma SustainabilityMonotone(i: real, j: real)
    requires i <= j
    ensures Rank(SustainabilityColour(i)) <= Rank(SustainabilityColour(j))
  {
  }

  /** The boundaries belong to the lower band, and the initial index 72 shows emerald. */
  lemma SustainabilityBoundaries()
    ensures SustainabilityColour(70.0) == Amber && SustainabilityColour(40.0) == Red
    ensures SustainabilityColour(72.0) == Emerald
  {
  }

  /** The colour of a station's marker on the map; any status but critical or warning is emerald. */
  function MarkerColour(status: string): (c: Colour)
    ensures c == Red <==> status == "critical"
    ensures c == Amber <==> status == "warning"
    ensures c == Emerald <==> status != "critical" && status != "warning"
  {
    if status == "critical" then Red else if status == "warning" then Amber else Emerald
  }

  /** What a status badge shows besides its label. */
  datatype Badge = Badge(tone: Tone, icon: Icon)

  /**
   * The badge's colour and icon, looked up by status.  Only the three known
   * statuses have entries; any other status is modelled as finding none.
   */
  function StatusBadge(status: string): (b: Option<Badge>)
    ensures b.Some? <==> status in {"normal", "warning", "critical"}
    ensures status == "normal" ==> b == Some(Badge(Green, CheckCircle))
    ensures status == "warning" ==> b == Some(Badge(Yellow, AlertTriangle))
    ensures status == "critical" ==> b == Some(Badge(RedTone, XCircle))
  {
    if status == "normal" then Some(Badge(Green, CheckCircle))
    else if status == "warning" then Some(Badge(Yellow, AlertTriangle))
    else if status == "critical" then Some(Badge(RedTone, XCircle))
    else None
  }

  /** The hue of the badge colour that matches a map marker colour. */
  function ToneOf(c: Colour): Tone
  {
    match c
    case Emerald => Green
    case Amber => Yellow
    case Red => RedTone
  }

  /** For every status the badge knows, the badge and the map marker show the same hue. */
  lemma BadgeAgreesWithMarker(status: string)
    requires StatusBadge(status).Some?
    ensures StatusBadge(status).value.tone == ToneOf(MarkerColour(status))
  {
  }

  /** ASCII upper-casing of one character. */
  function Upper(c: char): (u: char)
    ensures 'a' <= c <= 'z' ==> 'A' <= u <= 'Z' && u as int == c as int - 32
    ensures !('a' <= c <= 'z') ==> u == c
  {
    if 'a' <= c <= 'z' then (c as int - 32) as char else c
  }

  /** `s.charAt(0).toUpperCase() + s.slice(1)`. */
  function Capitalise(s: string): (r: string)
    ensures |r| == |s|
    ensures |s| > 0 ==> r[0] == Upper(s[0]) && !('a' <= r[0] <= 'z')
    ensures forall i :: 1 <= i < |s| ==> r[i] == s[i]
  {
    if s == [] then [] else [Upper(s[0])] + s[1..]
  }

  /** Capitalising twice changes nothing more. */
  lemma CapitaliseIdempotent(s: string)
    ensures Capitalise(Capitalise(s)) == Capitalise(s)
  {
  }

  /** The three status labels. */
  lemma StatusLabels()
    ensures Capitalise("normal") == "Normal"
    ensures Capitalise("warning") == "Warning"
    ensures Capitalise("critical") == "Critical"
  {
  }

  datatype Indicator = Indicator(icon: Icon, tone: Tone)

  /** The trend arrow: rising is a green up arrow, declining a red down arrow, anything else grey. */
  function TrendIndicator(trend: string): (ind: Indicator)
    ensures ind.icon == TrendingUp <==> trend == "rising"
    ensures ind.icon == TrendingDown <==> trend == "declining"
    ensures ind.icon == Activity <==> trend != "rising" && trend != "declining"
    ensures ind.tone == Green <==> trend == "rising"
    ensures ind.tone == RedTone <==> trend == "declining"
    ensures ind.tone == Gray <==> trend != "rising" && trend != "declining"
  {
    if trend == "rising" then Indicator(TrendingUp, Green)
    else if trend == "declining" then Indicator(TrendingDown, RedTone)
    else Indicator(Activity, Gray)
  }

  /** How an alert card is drawn: its colour family (background and left border) and its icon. */
  datatype AlertStyle = AlertStyle(tone: Tone, icon: Icon)

  /** Critical cards are red, warnings yellow, and every other type is drawn as info, in blue. */
  function StyleAlert(kind: string): (s: AlertStyle)
    ensures s == AlertStyle(RedTone, XCircle) <==> kind == "critical"
    ensures s == AlertStyle(Yellow, AlertTriangle) <==> kind == "warning"
    ensures s == AlertStyle(Blue, InfoIcon) <==> kind != "critical" && kind != "warning"
  {
    if kind == "critical" then AlertStyle(RedTone, XCircle)
    else if kind == "warning" then AlertStyle(Yellow, AlertTriangle)
    else AlertStyle(Blue, InfoIcon)
  }

  /** Every card in the live feed is drawn as a critical alert. */
  lemma FeedShowsOnlyCritical(ts: seq<int>)
    ensures forall a :: a in AlertFeed.Replay(ts) ==> StyleAlert(a.kind) == AlertStyle(RedTone, XCircle)
  {
    AlertFeed.OnlyHeadsEnter(ts);
  }
}
