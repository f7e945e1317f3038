# Groundwater monitoring dashboard: alert feed, lookups and health score

The dashboard (`groundwater-monitoring-frontend.jsx`) is one React component, and most of it renders hard-coded sample arrays. This project models the small part of it that has behaviour of its own:

- **The live alert feed** (module `AlertFeed`). The `alerts` state starts empty. On each generator tick, the component builds a batch of three synthetic alerts: a critical alert for DWLR003, a warning for DWLR002 and an info alert for DWLR004. Their ids come from the clock plus 0, 1 and 2; the model stamps all three from one clock reading `now`. It keeps only the first alert of the batch, puts it at the head of the feed, and keeps at most the four newest previous alerts. The class `Feed` holds the feed as a `seq<Alert>`. Its method `Tick(now)` takes the clock reading as a parameter. A ghost field records the ticks seen so far, and the object invariant says the feed equals `Replay` of those ticks. Each tick's effect is the pure function `Next`. The lemmas prove what the feed is after any run of ticks:
  - its length is `min(n, 5)`;
  - it holds the head alerts of the last five ticks, newest first;
  - only the oldest alert is evicted;
  - the warning and info alerts of a batch never enter it;
  - if the clock strictly increases, the ids strictly decrease and never repeat.
- **The lookups** (module `Display`):
  - the sustainability gauge's colour band;
  - the map marker colour for a station status;
  - the status badge (its colour and icon) and its capitalised label;
  - the trend indicator;
  - the styling of an alert card.

  Statuses, trends and alert types are the source's own strings, so each lookup also models its default or "not found" case.
- **The regional health score** (module `Regional`): `Math.round(normal / stations * 100)`, computed with exact integer arithmetic and round-half-up. Zero stations gives NaN (0/0) or Infinity (n/0), as JavaScript does. The lemmas prove:
  - the score lies in [0, 100] for a consistent region;
  - it is within half a point of the bar's exact percentage;
  - it is monotone in the number of normal stations;
  - it gives 74, 66, 81, 62 and 73 for the five sample regions.

  A score of 100 does not mean every station is normal. The exact condition is that at least 99.5% of the stations are normal (`HundredExactly`). For example, 999 normal stations out of 1000 show 100 (`HundredWithoutAllNormal`). Only the direction "all normal gives 100" holds (`AllNormalScoresHundred`).

## Model

| member | source | states |
|---|---|---|
| AlertFeed.Batch | groundwater-monitoring-frontend.jsx:72-76 | a tick's batch has three alerts: critical/DWLR003, warning/DWLR002 and info/DWLR004, with ids `now`, `now + 1` and `now + 2` from one clock reading |
| AlertFeed.Take | groundwater-monitoring-frontend.jsx:77 | `slice(0, n)` keeps `min(|s|, n)` elements, each equal to the element of `s` at the same position |
| AlertFeed.Replay | groundwater-monitoring-frontend.jsx:9-77 | the feed after any run of ticks from the empty feed holds at most five alerts, and after at least one tick its head is the last tick's first batch alert |
| AlertFeed.Next | groundwater-monitoring-frontend.jsx:77 | after one tick the feed length is `min(|prev| + 1, 5)`; the head is the batch's first alert (critical, DWLR003, id `now`); position i is `prev[i - 1]` for every later position |
| AlertFeed.ReplayLength | groundwater-monitoring-frontend.jsx:9-77 | from the empty feed, n ticks leave `min(n, 5)` alerts |
| AlertFeed.ReplayIsNewest | groundwater-monitoring-frontend.jsx:72-77 | the feed after any run of ticks is exactly the head alerts of the last five ticks, newest first |
| AlertFeed.IdsOrdered | groundwater-monitoring-frontend.jsx:73-77 | if clock readings strictly increase, feed ids strictly decrease from head to tail and are pairwise distinct |
| AlertFeed.NextKeepsOrder | groundwater-monitoring-frontend.jsx:73-77 | one tick whose clock exceeds the head's id keeps the newest-first ordering |
| AlertFeed.OnlyOldestEvicted | groundwater-monitoring-frontend.jsx:77 | the previous feed equals what follows the new head, plus `prev[4]` when the feed was full; nothing else is lost or reordered |
| AlertFeed.OnlyHeadsEnter | groundwater-monitoring-frontend.jsx:72-77 | every alert in the feed is a critical alert for station DWLR003 |
| AlertFeed.OthersNeverEnter | groundwater-monitoring-frontend.jsx:74-75 | the warning (DWLR002) and info (DWLR004) alerts of any batch are never in the feed |
| AlertFeed.SixTicks | groundwater-monitoring-frontend.jsx:77 | six ticks leave five alerts; the sixth leads and the first is evicted |
| AlertFeed.Feed.constructor | groundwater-monitoring-frontend.jsx:9 | the feed starts empty |
| AlertFeed.Feed.Tick | groundwater-monitoring-frontend.jsx:72-77 | the new feed is `Next(old feed, now)`: length `min(|old| + 1, 5)`, the batch's first alert at the head, then `old[..min(|old|, 4)]`; newest-first order is kept when the clock advances; the invariant `alerts == Replay(clocks)` is kept |
| Display.Hex | groundwater-monitoring-frontend.jsx:51 | each colour is a seven-character hex code |
| Display.HexCodes | groundwater-monitoring-frontend.jsx:395 | emerald, amber and red are `#10b981`, `#f59e0b` and `#ef4444`, and no two colours share a code |
| Display.SustainabilityColour | groundwater-monitoring-frontend.jsx:51 | emerald exactly when index > 70; amber exactly when 40 < index <= 70; red exactly when index <= 40 |
| Display.SustainabilityMonotone | groundwater-monitoring-frontend.jsx:51 | a higher index never gets a less healthy colour |
| Display.SustainabilityBoundaries | groundwater-monitoring-frontend.jsx:10-51 | 70 is amber, 40 is red, and the initial index 72 is emerald |
| Display.MarkerColour | groundwater-monitoring-frontend.jsx:395 | red exactly for `critical`, amber exactly for `warning`, emerald for every other status |
| Display.StatusBadge | groundwater-monitoring-frontend.jsx:88-98 | a badge style exists exactly for `normal`, `warning` and `critical`: green/check, yellow/triangle, red/cross |
| Display.BadgeAgreesWithMarker | groundwater-monitoring-frontend.jsx:395 | for every status the badge knows, the badge colour and the map marker colour have the same hue (green, yellow/amber or red) |
| Display.Upper | groundwater-monitoring-frontend.jsx:102 | lower-case ASCII letters become the matching upper-case letters; every other character is unchanged |
| Display.Capitalise | groundwater-monitoring-frontend.jsx:102 | the label keeps the status's length; its first character is upper-cased and is no longer a lower-case letter; all later characters are unchanged |
| Display.CapitaliseIdempotent | groundwater-monitoring-frontend.jsx:102 | capitalising a label again changes nothing |
| Display.StatusLabels | groundwater-monitoring-frontend.jsx:102 | `normal`, `warning` and `critical` are shown as `Normal`, `Warning` and `Critical` |
| Display.TrendIndicator | groundwater-monitoring-frontend.jsx:107-111 | up arrow (green) exactly for `rising`, down arrow (red) exactly for `declining`, neutral grey activity icon for anything else |
| Display.StyleAlert | groundwater-monitoring-frontend.jsx:565-580 | red/cross exactly for `critical`, yellow/triangle exactly for `warning`, blue/info for every other type |
| Display.FeedShowsOnlyCritical | groundwater-monitoring-frontend.jsx:561-580 | every card in the live feed is drawn in the critical style |
| Regional.HealthScore | groundwater-monitoring-frontend.jsx:323 | finite exactly when there are stations; with none, NaN for 0/0 and Infinity otherwise; the score p satisfies p - 1/2 <= 100·normal/stations < p + 1/2 |
| Regional.HealthScoreUnique | groundwater-monitoring-frontend.jsx:323 | that rounding condition determines the score uniquely |
| Regional.HealthScoreBounds | groundwater-monitoring-frontend.jsx:323 | with `0 <= normal <= stations` and `stations > 0`, the score is in [0, 100] |
| Regional.AllNormalScoresHundred | groundwater-monitoring-frontend.jsx:323 | a region whose stations are all normal scores 100 |
| Regional.HundredExactly | groundwater-monitoring-frontend.jsx:323 | the score is 100 exactly when `200·normal >= 199·stations` |
| Regional.HundredWithoutAllNormal | groundwater-monitoring-frontend.jsx:323 | 999 normal stations out of 1000 score 100 |
| Regional.HealthScoreMonotone | groundwater-monitoring-frontend.jsx:323 | more normal stations never give a lower score |
| Regional.NormalShare | groundwater-monitoring-frontend.jsx:319 | the bar width is non-negative, and multiplied by the number of stations it gives 100 × normal |
| Regional.ScoreRoundsShare | groundwater-monitoring-frontend.jsx:319-323 | the printed score is within half a point of the bar's exact width `normal / stations * 100` |
| Regional.SampleRegionsScored | groundwater-monitoring-frontend.jsx:61-67 | every sample region has `critical + warning + normal == stations` and at least one station, so its score lies in [0, 100] |
| Regional.SampleScores | groundwater-monitoring-frontend.jsx:62-66 | the five sample regions score 74, 66, 81, 62 and 73 |

## Left out

- The interval timer that schedules ticks, its clean-up, and the refresh busy flag with its delay (lines 71, 78-86). These are timer scheduling; a tick is a direct call of `Feed.Tick`.
- `Date.now()`: the clock reading is `Tick`'s parameter.
- Layout, Tailwind class strings, charts and icons (rendering only). The lookups return a hue and an icon name instead of the class strings.
- The map projection of station coordinates (lines 393-394) and the water levels. They are floating-point values with no contract.
- Search and region filtering. The two inputs are captured but never applied, and the station table lists every station unfiltered.
- Station statuses and trends, the regional counts, the depletion shares, the chart arrays and the sustainability index (a constant 72). All of these are literals in the source, not computed. Only the five regional rows are modelled, so that the health-score precondition can be proved for them.
- AlertFeed.Batch: the source reads the clock separately for each of the three alerts, so the second and third ids can be a millisecond or more later than `now + 1` and `now + 2`. The model uses one reading for all three. Only the first alert ever reaches the feed, and its id is the first reading, so the feed is unaffected.
- Display.StatusBadge: the source looks the status up in plain object literals, so a status naming an inherited property, such as `__proto__` or `toString`, finds that property. React would then fail to render the icon or would put the function's text into the class name. The model returns no style for every unknown status. The station data only ever uses `normal`, `warning` and `critical`.
- Display.Upper: models ASCII upper-casing only. JavaScript's `toUpperCase` also maps non-ASCII letters, and for a few of them it changes the length.
- Regional.HealthScore: uses exact rational arithmetic. JavaScript computes `normal / stations * 100` in double precision, so when the exact value is a half-way point the rounded result may differ by one point.
