# Bridge road traffic detection

A model of the traffic-detection core of the bridge-road traffic updater.

The updater reads a map image of the bridge. It samples the pixel colour at six fixed control points on the outbound road. Each colour is classified into a traffic level by an exact lookup in the colours of the map legend. The known levels are then combined into one weighted overall level.

Two modules follow the two source files:

- `Traffic` (`traffic.dfy`) models the `Traffic` enum:
  - the six levels and their severities, -1 for Unknown and 0 to 4 for None to VeryHeavy;
  - each level's reference colours, packed into opaque ARGB codes by the constructor's loop (`PackColours`);
  - the colour table. Each `cache` call is the method `CacheCodes`, and the static block of five calls is `CacheAll` over `RegistrationsOf(KnownLevels)`. The resulting table is the constant `Cache`.
  - the severity table (`BuildSeverities`, whose result is the constant `Severities`);
  - the two lookups `FromRgba` and `FromSeverity`.
- `TrafficDetector` (`traffic_detector.dfy`) models `detect` and `detectOutbound`:
  - `Detect` is a loop that fills a fresh array of samples in place and keeps the running total with its -1 sentinel. It is proved against the specification function `SentinelTotal`.
  - The final step is Java's `Math.round` (`MathRound`, which saturates at the bounds of `long`) followed by the `(int)` cast (`NarrowToInt`, a 32-bit wrap). Its result is looked up with `FromSeverity`.
  - A sentinel-free reference definition, `Accumulate` (nothing observed yet, or the sum so far), is proved equal to the sentinel total when no weight is negative. Once a known sample has been seen, both equal the plain weighted sum `WeightedSum` of the known samples. Before that the sentinel total is -1 while the weighted sum is 0.

Colour codes are Java `int`s, modelled as the subset type `Int32`. Weights are mathematical reals.

## Model

| member | source | states |
|---|---|---|
| Traffic.Severity | src/main/java/com/armeniopinto/bridgeroad/traffic/updater/Traffic.java:21-33 | Every severity lies in -1..4. It is -1 exactly for Unknown and non-negative exactly for the five registered levels. |
| Traffic.SeverityInjective | src/main/java/com/armeniopinto/bridgeroad/traffic/updater/Traffic.java:21-31 | Two levels with the same severity are the same level. |
| Traffic.ReferenceColours | src/main/java/com/armeniopinto/bridgeroad/traffic/updater/Traffic.java:21-31 | Every level is declared with at least one reference colour. |
| Traffic.Unsigned | src/main/java/com/armeniopinto/bridgeroad/traffic/updater/Traffic.java:65 | Reading a Java `int` as an unsigned 32-bit word and back is the identity. |
| Traffic.Pack | src/main/java/com/armeniopinto/bridgeroad/traffic/updater/Traffic.java:65 | The code of an opaque colour has alpha byte 0xFF, and its red, green and blue bytes are the colour's own. |
| Traffic.UnpackPack | src/main/java/com/armeniopinto/bridgeroad/traffic/updater/Traffic.java:65 | Every code with alpha 0xFF is the packing of its own RGB bytes, so packing is a bijection onto the opaque codes. |
| Traffic.Packed | src/main/java/com/armeniopinto/bridgeroad/traffic/updater/Traffic.java:63-66 | One code per colour, in order, each opaque and unpacking to its colour. |
| Traffic.PackColours | src/main/java/com/armeniopinto/bridgeroad/traffic/updater/Traffic.java:61-67 | The constructor's loop fills a fresh array whose contents are the packed colours in order. |
| Traffic.Codes | src/main/java/com/armeniopinto/bridgeroad/traffic/updater/Traffic.java:35 | A level's `rgbas` field: its reference colours packed in order, the contents `PackColours` builds. `Packed` states each is opaque and unpacks to its colour, and `CodesAsHex` gives the values. |
| Traffic.CodesAsHex | src/main/java/com/armeniopinto/bridgeroad/traffic/updater/Traffic.java:21-31 | The stored codes of each level, in hexadecimal: 0xFF000000 for Unknown, 0xFFF9F9F9 and 0xFFFFFFFF for None, 0xFF84CA50, 0xFFF07D02, 0xFFE60000 and 0xFF9E1313 for Low to VeryHeavy. |
| Traffic.CodesDisjoint | src/main/java/com/armeniopinto/bridgeroad/traffic/updater/Traffic.java:21-31 | No code belongs to two different levels. |
| Traffic.RegisterAt | src/main/java/com/armeniopinto/bridgeroad/traffic/updater/Traffic.java:46-50 | After a `cache` call the table holds what it held plus the given codes. Each given code maps to the given level, and every other code keeps its level. |
| Traffic.CacheCodes | src/main/java/com/armeniopinto/bridgeroad/traffic/updater/Traffic.java:46-50 | Putting the codes one by one gives the table updated with every code mapped to the level. |
| Traffic.RegisterAppend | src/main/java/com/armeniopinto/bridgeroad/traffic/updater/Traffic.java:47-49 | Registering one more code is one more `put`. |
| Traffic.CacheAll | src/main/java/com/armeniopinto/bridgeroad/traffic/updater/Traffic.java:37-44 | Running the `cache` calls of a static block in order, from an empty table, gives the table the registrations define. The source's block is `CacheAll(RegistrationsOf(KnownLevels))`, whose result is the constant `Cache`. |
| Traffic.RegisteredCodes | src/main/java/com/armeniopinto/bridgeroad/traffic/updater/Traffic.java:39-43 | The registrations built for a list of levels, one per level with that level's own codes, register exactly the codes those levels own. |
| Traffic.FillCacheOwner | src/main/java/com/armeniopinto/bridgeroad/traffic/updater/Traffic.java:37-50 | Every code in a filled table was registered by some registration whose level is the code's entry. |
| Traffic.FillCacheHolds | src/main/java/com/armeniopinto/bridgeroad/traffic/updater/Traffic.java:37-50 | A filled table holds every code of every registration. |
| Traffic.FilledOwner | src/main/java/com/armeniopinto/bridgeroad/traffic/updater/Traffic.java:37-50 | A table filled from a list of levels maps each code to one of those levels, and that level owns the code. |
| Traffic.FilledHolds | src/main/java/com/armeniopinto/bridgeroad/traffic/updater/Traffic.java:37-50 | A table filled from a list of levels holds every code of every listed level. |
| Traffic.FillOrderIrrelevant | src/main/java/com/armeniopinto/bridgeroad/traffic/updater/Traffic.java:39-43 | Registering the same set of levels in any order, with or without repeats, fills the same table. |
| Traffic.SameEntry | src/main/java/com/armeniopinto/bridgeroad/traffic/updater/Traffic.java:39-43 | A code in a table filled from one ordering is in the table filled from any other ordering of the same levels, with the same level. |
| Traffic.CacheOrderIrrelevant | src/main/java/com/armeniopinto/bridgeroad/traffic/updater/Traffic.java:38-44 | Any order of the five known levels fills the same colour table as the source's order. |
| Traffic.Cache | src/main/java/com/armeniopinto/bridgeroad/traffic/updater/Traffic.java:37-44 | The colour table the static block fills. `CacheContents` states what it holds, and `CacheOrderIrrelevant` that the order of the block's calls does not matter. |
| Traffic.CacheContents | src/main/java/com/armeniopinto/bridgeroad/traffic/updater/Traffic.java:37-50 | The colour table holds a code exactly when a known level owns it, and maps it to that level. |
| Traffic.FromRgba | src/main/java/com/armeniopinto/bridgeroad/traffic/updater/Traffic.java:77-79 | The colour lookup: the table's level for a held code, Unknown otherwise. Its behaviour is stated by `FromRgbaOwner`, `FromRgbaReference` and `FromRgbaUnregistered`. |
| Traffic.FromRgbaOwner | src/main/java/com/armeniopinto/bridgeroad/traffic/updater/Traffic.java:77-79 | A code classifies as a known level only if that level owns it, and as Unknown only if no known level owns it. |
| Traffic.FromRgbaReference | src/main/java/com/armeniopinto/bridgeroad/traffic/updater/Traffic.java:77-79 | Every reference code of a known level classifies as exactly that level. |
| Traffic.NoneShades | src/main/java/com/armeniopinto/bridgeroad/traffic/updater/Traffic.java:23 | Both the off-white (249,249,249) and the white (255,255,255) classify as None. |
| Traffic.UnknownBlackUnregistered | src/main/java/com/armeniopinto/bridgeroad/traffic/updater/Traffic.java:21 | Unknown's own black is never registered, so it classifies as Unknown. |
| Traffic.FromRgbaUnregistered | src/main/java/com/armeniopinto/bridgeroad/traffic/updater/Traffic.java:77-79 | A code no known level owns classifies as Unknown. |
| Traffic.Severities | src/main/java/com/armeniopinto/bridgeroad/traffic/updater/Traffic.java:52-59 | The severity table, one entry per known level keyed by its severity. `BuildSeverities` proves the static block's five puts build it, with exactly the keys 0 to 4. |
| Traffic.BuildSeverities | src/main/java/com/armeniopinto/bridgeroad/traffic/updater/Traffic.java:52-59 | The static block's table has exactly the keys 0 to 4, and each key maps to the level with that severity. |
| Traffic.FromSeverity | src/main/java/com/armeniopinto/bridgeroad/traffic/updater/Traffic.java:73-75 | The result is known exactly for 0 to 4, and then its severity is the argument. Every other integer, -1 included, gives Unknown. |
| Traffic.SeverityRoundTrip | src/main/java/com/armeniopinto/bridgeroad/traffic/updater/Traffic.java:69-75 | Looking up a level's own severity gives the level back, Unknown included. |
| TrafficDetector.MathRound | src/main/java/com/armeniopinto/bridgeroad/traffic/updater/TrafficDetector.java:44 | The result is a `long`. Within range it is the integer n with n <= x + 1/2 < n + 1, so ties round up. Outside the range it saturates at the nearer bound. |
| TrafficDetector.NarrowToInt | src/main/java/com/armeniopinto/bridgeroad/traffic/updater/TrafficDetector.java:44 | The `(int)` cast agrees with its argument modulo 2^32, and is the identity on values that fit in an `int`. |
| TrafficDetector.SentinelTotal | src/main/java/com/armeniopinto/bridgeroad/traffic/updater/TrafficDetector.java:31-41 | The running total after a list of samples, the specification `Detect`'s loop is proved against. `SentinelTotalAppend` states each step, and `SentinelIsWeightedSum` and `SentinelMatchesAccumulator` relate it to the sentinel-free definitions. |
| TrafficDetector.SentinelTotalAppend | src/main/java/com/armeniopinto/bridgeroad/traffic/updater/TrafficDetector.java:36-41 | One more sample is one loop step: an Unknown sample leaves the total alone. A known one resets a -1 total to 0, then adds severity times weight. |
| TrafficDetector.Overall | src/main/java/com/armeniopinto/bridgeroad/traffic/updater/TrafficDetector.java:44 | The overall level: the total rounded by `Math.round`, narrowed to `int` and looked up as a severity. `OverallRoundsTotal` states when it is known and which level it is. |
| TrafficDetector.Detect | src/main/java/com/armeniopinto/bridgeroad/traffic/updater/TrafficDetector.java:29-45 | There is one sample per point, in order, each the classification of that point's pixel. The overall level is the rounded sentinel total of those samples. |
| TrafficDetector.DetectOutbound | src/main/java/com/armeniopinto/bridgeroad/traffic/updater/TrafficDetector.java:19-27 | Six samples, one per outbound control point, combined with the outbound weights. |
| TrafficDetector.AccumulateIsWeightedSum | src/main/java/com/armeniopinto/bridgeroad/traffic/updater/TrafficDetector.java:36-41 | The tagged total observes nothing until a known sample, and from then on holds the weighted sum of the known samples. |
| TrafficDetector.AllUnknownSumsToZero | src/main/java/com/armeniopinto/bridgeroad/traffic/updater/TrafficDetector.java:36 | Unknown samples add nothing to the weighted sum. |
| TrafficDetector.AllUnknownStaysSentinel | src/main/java/com/armeniopinto/bridgeroad/traffic/updater/TrafficDetector.java:31-44 | With no known sample, including no points at all, the total stays -1 and the overall level is Unknown. |
| TrafficDetector.SentinelMatchesAccumulator | src/main/java/com/armeniopinto/bridgeroad/traffic/updater/TrafficDetector.java:31-41 | With non-negative weights the sentinel total is -1 exactly while nothing has been observed. Otherwise it equals the tagged total, which is never negative. |
| TrafficDetector.ContributionNonNegative | src/main/java/com/armeniopinto/bridgeroad/traffic/updater/TrafficDetector.java:40 | A known sample with a non-negative weight never lowers the total. |
| TrafficDetector.SentinelIsWeightedSum | src/main/java/com/armeniopinto/bridgeroad/traffic/updater/TrafficDetector.java:31-41 | With non-negative weights the total is -1 if every sample is Unknown. Otherwise it is the non-negative weighted sum over the known samples only, with Unknown points neither counted as zero nor renormalised away. |
| TrafficDetector.ResetOnlyOnFirstKnown | src/main/java/com/armeniopinto/bridgeroad/traffic/updater/TrafficDetector.java:37-40 | With non-negative weights the total before a known sample is -1 exactly when every earlier sample was Unknown, and it is non-negative after that sample. So the reset fires only on the first known sample. |
| TrafficDetector.UnknownWeightsIgnored | src/main/java/com/armeniopinto/bridgeroad/traffic/updater/TrafficDetector.java:36-41 | Changing the weights of Unknown points changes neither the total nor the overall level. |
| TrafficDetector.OverallRoundsTotal | src/main/java/com/armeniopinto/bridgeroad/traffic/updater/TrafficDetector.java:44 | While the total fits in an `int`, the overall level is the total rounded half up and looked up as a severity. It is known exactly when -1/2 <= total < 9/2. |
| TrafficDetector.NarrowingWrapsHugeTotals | src/main/java/com/armeniopinto/bridgeroad/traffic/updater/TrafficDetector.java:44 | The cast wraps totals beyond `int`: a total of 2^32 + 2 is reported as Medium. |
| TrafficDetector.NegativeWeightsResetAgain | src/main/java/com/armeniopinto/bridgeroad/traffic/updater/TrafficDetector.java:37-39 | With a negative weight the total can return to -1 after a known sample, and the reset then fires a second time. The sentinel total then departs from the tagged total. |
| TrafficDetector.UniformWeightedSum | src/main/java/com/armeniopinto/bridgeroad/traffic/updater/TrafficDetector.java:40 | Samples all of one known level sum to its severity times the sum of their weights. |
| TrafficDetector.UniformSamplesGiveTheirLevel | src/main/java/com/armeniopinto/bridgeroad/traffic/updater/TrafficDetector.java:29-45 | When non-negative weights sum to 1 and every sample is the same known level, the overall level is that level. |
| TrafficDetector.OutboundWeightsSumToOne | src/main/java/com/armeniopinto/bridgeroad/traffic/updater/TrafficDetector.java:23 | The six outbound weights are non-negative and sum to 1. |
| TrafficDetector.OutboundUniform | src/main/java/com/armeniopinto/bridgeroad/traffic/updater/TrafficDetector.java:19-27 | If all six outbound samples show the same known level, the outbound verdict is that level. |
| TrafficDetector.KnownSamplesExamples | src/main/java/com/armeniopinto/bridgeroad/traffic/updater/TrafficDetector.java:31-44 | A single low point of weight 1 gives Low. A low and a heavy point at half weight each give Medium. |
| TrafficDetector.UnknownDoesNotDilute | src/main/java/com/armeniopinto/bridgeroad/traffic/updater/TrafficDetector.java:36-44 | A heavy point of weight 0.3 beside an Unknown point of weight 0.7 totals 0.9, which gives Low. |

## Left out

- Handler.java is not part of this model. It fetches the web page and downloads the image, writes a PNG, uploads to S3, stores an item in DynamoDB and formats the clock. All of that is I/O or foreign SDK calls.
- Doubles are modelled as mathematical reals. The rounding error of IEEE-754 sums such as 0.1 + 0.3 + … is not modelled. Neither is the fact that the exact `total == -1.0` test compares doubles.
- `BufferedImage` and `java.awt.Color` internals are abstracted:
  - The image is a total function from coordinates to colour codes, with a width and a height.
  - `getRGB` outside the image throws, so every point must lie inside the image. This is a precondition of `Detect`.
  - A weights array shorter than the points array throws only when a point past the end of the weights classifies as a known level, because `weights[i]` is read only for known samples. The model requires a weight for every point, which `detectOutbound` meets with six points and six weights.
  - `Color`'s rejection of components outside 0..255 is expressed by the component type `Byte`.
- `HashMap` details such as hashing, boxing and iteration order are not modelled. Each table is a Dafny `map`.
- The enum's objects are values here:
  - a level's `rgbas` field is `Codes(level)`, the array contents `PackColours` is proved to build;
  - `getSeverity` is `Severity`;
  - the two static tables are the constants `Cache` and `Severities`. They are the results of `CacheAll` over the five registrations and of `BuildSeverities`.
- DetectedTraffic's mutable public fields are modelled as an immutable datatype. Its `samples` array becomes the sequence of the array `Detect` fills in place, so later writes through that array are not modelled.
- Traffic.ReferenceColours: its contract states only that every level has a colour. The colours themselves are pinned down by `CodesAsHex`.
