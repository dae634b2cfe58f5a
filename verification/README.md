# math-Suite geometry and layout kernel in Dafny

math-Suite bundles two teaching tools. Vectora Pro is a vector editor and
exercise generator. TrigoMestre is a triangle solver and worksheet generator.
Both draw on a canvas and print PDF worksheets. This project models the part
of them that does not depend on the UI, and proves properties of it. That
part covers:

- angle arithmetic: normalisation into [0, 360), nearest-axis binning and the
  wrap-aware "too close" test;
- the visual clustering layout that fans out vectors pointing in nearly the
  same direction;
- the triangle solver, including its rejection gates and derived metrics;
- the vector editor's state changes (add, remove, update, zoom, the missing
  vector);
- exercise sampling with bounded retries, for both applications;
- the canvas transforms: hit test, drag, snap and angle arcs;
- the page planning of both PDF generators: blocks, grids, page breaks,
  auto-scale, arcs, label placement and triangle fit-and-centre.

Numbers are Dafny `real`s. Trigonometry, square roots, `atan2`, `acos`,
`atan` and `parseFloat` are function values in an `Oracle` record. Their
degree-based behaviour is given by the predicate `Oracle.Sound`:

- `sqrt` squares back to its non-negative argument;
- cos² + sin² = 1;
- sin is positive on (0, 180);
- `acos` lies in [0, 180];
- `atan2` lies in (−180, 180].

Only the lemmas that need these facts require `Sound`.

`Math.random` is an injected stream (`Rng`) of draws. `ValidRng` says each
draw lies in [0, 1). JavaScript's `NaN` is the `NaN` case of `Num`.

JavaScript's truncating `%`, `Math.round` (half up), `toFixed` (half away from
zero) and `Math.trunc` are spelled out in `Numeric`. `parseInt` and the
number-to-string conversions are spelled out in `Text`.

Modules follow the source files:

| module | file | models |
|---|---|---|
| `Numeric`, `Oracle`, `Text` | numeric.dfy, oracle.dfy, text.dfy | JavaScript numbers, injected trigonometry and randomness, strings |
| `Angles` | angles.dfy | utils/math.ts, all except the layout |
| `VisualLayout` | layout.dfy | `calculateVisualLayout` in utils/math.ts |
| `TriangleSolver` | triangle.dfy | utils/trigoMath.ts |
| `Records`, `VectorEditor`, `Exercises` | records.dfy, editor.dfy, exercises.dfy | types.ts and VectoraApp.tsx |
| `TrigoApp` | trigoapp.dfy | TrigoApp.tsx |
| `ScreenMap`, `BoxFit` | screen.dfy, boxfit.dfy | screen↔math maps and bounding-box fit, shared by canvases and PDFs |
| `VectorCanvas`, `TriangleCanvas` | vectorcanvas.dfy, trianglecanvas.dfy | the two canvas components |
| `Pagination`, `PdfPlan`, `VectorDiagram` | pages.dfy, pdfplan.dfy, vectorpdf.dfy | utils/pdfGenerator.ts |
| `TrigoPdf` | trigopdf.dfy | utils/trigoPdf.ts |

Some behaviours of the code are easy to miss. The model follows the code in
each case, and each is proved:

- The wrap merge of the clustering layout needs three or more groups in total.
  Its guard counts only the clusters closed before the last one. Two groups
  stay apart even when they are close across 0°/360° (`TwoGroupsNeverMerge`,
  `TwoGroupsExample`).
- The collision nudge of a PDF label is a single 4 mm step. The nudged label
  may still overlap another one (`NudgeIsOneStep`).
- Arc suppression in the PDF skips the rounded angles 0, 90, 180 and 360 but
  not 270 (`ArcSuppressedBands`).
- In TrigoMestre's simple grid, the teacher's answer lines clear the triangle
  exactly when a page holds at most 6 items. With 7 or 8 per page the answer
  text runs into the drawing (`AnswerLinesClear`).
- The second clamp of the simple vector-PDF mode never changes the result
  (`SecondClampRedundant`).
- A right-triangle exercise in TrigoMestre prints its first value as leg b
  and its second as leg a. The solver stores them the other way round, in
  sides a and b (`RightLegsLabelledSwapped`).
- TrigoApp.tsx stores its accented labels as UTF-8 read back as Mac Roman.
  The model keeps those characters, so the angle labels begin with "√Ç" and the
  right-triangle mode label is "Ret√¢ngulo" (`PartLabel`, `ModeLabel`). The
  PDF generator's own labels are spelled correctly.

## Model

| member | source | states |
|---|---|---|
| Angles.NormalizeAngle | utils/math.ts:21-25 | the result lies in [0, 360) and differs from the input by a whole number of turns |
| Angles.NormalizeUnique | utils/math.ts:21-25 | any value in [0, 360) a whole number of turns from the input is the normalised angle, so normalisation is the reduction mod 360 |
| Angles.NormalizeIdempotent | utils/math.ts:21-25 | normalising twice is normalising once |
| Angles.NormalizePeriodic | utils/math.ts:21-25 | adding whole turns to the input does not change the normalised angle |
| Angles.AngularSeparation | utils/math.ts:38-39 | the wrap-aware difference of two angles lies in [0, 180] |
| Angles.AngularSeparationSymmetric | utils/math.ts:38-39 | the wrap-aware difference does not depend on the argument order |
| Angles.NearestAxis | utils/math.ts:28-34 | the axis is 0, 90, 180 or 270, chosen by the half-open bins [315,45), [45,135), [135,225), [225,315) of the normalised angle |
| Angles.NearestAxisWithin45 | utils/math.ts:28-34 | the chosen axis is at most 45° from the angle around the circle |
| Angles.NearestAxisPeriodic | utils/math.ts:28-34 | the axis depends only on the angle mod 360 |
| Angles.IsAngleTooClose | utils/math.ts:36-43 | true exactly when some existing angle is strictly closer than minSep around the circle, so false for an empty list |
| Angles.SafeFloat | utils/math.ts:45-51 | null, "" and "-" give 0; numbers pass through; a string that does not parse gives 0; other strings give their parsed value |
| Angles.Components | utils/math.ts:53-76 | the cartesian branch returns (safeFloat p1, safeFloat p2); the angle branch returns p1·(cos p2, sin p2); an unknown input type returns (0, 0) |
| Angles.CollisionIffSharedPoint | utils/math.ts:95-98 | for rectangles with positive sides, the strict overlap test holds exactly when the two open rectangles share a point |
| Angles.CollisionSymmetric | utils/math.ts:95-98 | collision does not depend on the argument order |
| Angles.CollisionSelfAndTouching | utils/math.ts:95-98 | a rectangle with positive sides collides with itself, and not with a copy that only touches its right or bottom edge |
| Oracle.Angle | utils/math.ts:14-18 | a negative `atan2` result is moved up by 360, any other is kept |
| Oracle.AngleRange | utils/math.ts:14-18 | the direction angle lies in [0, 360) |
| Oracle.MagnitudeSquared | utils/math.ts:12 | the magnitude is non-negative and its square is x² + y² |
| Oracle.Sqrt | utils/trigoMath.ts:91 | `Math.sqrt` is NaN exactly for a negative argument |
| Oracle.Acos | utils/trigoMath.ts:34 | `Math.acos` is NaN exactly outside [−1, 1] |
| Oracle.Random | VectoraApp.tsx:142 | each draw consumes one position of the stream and lies in [0, 1) |
| Oracle.RandomInt | VectoraApp.tsx:142 | floor(r·k) + lo lies in the integer range [lo, lo + k) and consumes one draw |
| Numeric.JsRem360 | utils/math.ts:22 | JavaScript's `% 360` keeps the dividend's sign, stays within one turn of zero, and leaves a whole number of truncated turns |
| Numeric.JsRemInt | VectoraApp.tsx:152 | integer `%` keeps the dividend's sign and stays below the modulus in absolute value |
| Numeric.JsRound | components/VectorCanvas.tsx:313 | `Math.round` lands within half a unit of its argument, with halves rounded up |
| Numeric.RoundHalfAway | utils/pdfGenerator.ts:112 | `toFixed(0)` rounding lands within half a unit and keeps the sign |
| Numeric.RoundThousandths | utils/trigoMath.ts:10 | three-decimal rounding is within 0.0005 and lands on a thousandth |
| Numeric.RoundTenths | utils/trigoMath.ts:11 | one-decimal rounding is within 0.05 and lands on a tenth |
| Text.NatToString | utils/pdfGenerator.ts:186 | the decimal form of a number is a non-empty digit string without a leading zero |
| Text.NatToStringRoundTrip | utils/pdfGenerator.ts:186 | reading the digits back gives the number |
| Text.NatToStringInjective | utils/pdfGenerator.ts:186 | distinct numbers print differently |
| Text.IntToString | utils/pdfGenerator.ts:186 | a negative integer prints as "-" followed by the digits of its absolute value |
| Text.ParseInt | VectoraApp.tsx:134 | `parseInt` fails exactly when no digit follows the optional sign |
| Text.ParseIntRoundTrip | VectoraApp.tsx:213 | `parseInt` reads back every integer printed by the string conversion |
| Text.BeforeFirst | VectoraApp.tsx:234 | `split(' ')[0]` is the longest prefix without a space, followed in the input by a space when shorter |
| Text.BeforeFirstJoin | VectoraApp.tsx:234 | splitting "a b…" at the first space returns a when a has no space |
| Text.ReplaceFirst | utils/trigoPdf.ts:12 | `replace('.', ',')` changes only the first '.' and keeps the length |
| Text.ToFixed | utils/trigoPdf.ts:10-11 | with d > 0 decimals the text has exactly one '.', followed by d characters |
| Text.ToFixedWhole | utils/pdfGenerator.ts:112 | `toFixed(0)` of a non-negative number is the decimal form of its half-away rounding |
| Records.Sum | VectoraApp.tsx:39-40 | the sum of no vectors is the origin |
| Records.SumSnoc | VectoraApp.tsx:39-40 | appending a vector adds its components to the sum |
| Records.ColorAt | types.ts:82-89 | a palette index inside the six colours selects that colour |
| BoxFit.BoundsOf | utils/trigoPdf.ts:194-197 | the bounding box covers the three vertices and each side is attained by one of them |
| BoxFit.OrOne | utils/trigoPdf.ts:203 | `w \|\| 1` is never zero and keeps any non-zero extent |
| BoxFit.PlaceCentre | utils/trigoPdf.ts:206-207 | the bounding-box centre maps to the target centre |
| BoxFit.PlaceOrientation | utils/trigoPdf.ts:206-207 | with a positive scale, x order is kept and y order is flipped |
| BoxFit.FitWithin | utils/trigoPdf.ts:203-207 | every covered point lands inside the target box, and the scale is non-negative |
| BoxFit.FitTriangleWithin | utils/trigoPdf.ts:194-211 | all three fitted vertices lie inside the target box |
| ScreenMap.FromToScreen | components/VectorCanvas.tsx:307-308 | converting a drawn head back from screen to math coordinates gives the original point |
| ScreenMap.ToFromScreen | components/VectorCanvas.tsx:274-275 | converting a pointer position to math coordinates and drawing it gives the pointer position |
| ScreenMap.ToScreenOrientation | utils/pdfGenerator.ts:17-22 | the origin maps to the centre; x order is kept and y order is flipped |
| VectorEditor.InitialWellFormed | VectoraApp.tsx:9-12 | the two starting vectors have distinct positive ids and components that match their fields |
| VectorEditor.MaxId | VectoraApp.tsx:56 | the maximum is an upper bound on the ids and is one of them |
| VectorEditor.NextId | VectoraApp.tsx:56 | the new id exceeds every existing id and is 1 for an empty list |
| VectorEditor.NewVector | VectoraApp.tsx:58-60 | a new vector is the cartesian vector (3, 3) with the given id |
| VectorEditor.AddVector | VectoraApp.tsx:54-63 | with six vectors nothing changes; otherwise the new vector is appended and selected |
| VectorEditor.AddVectorSpec | VectoraApp.tsx:54-63 | ids stay unique and positive, the list never grows past six, and the new vector is in sync and gets colour (id − 1) mod 6 |
| VectorEditor.Without | VectoraApp.tsx:66 | the filter keeps exactly the vectors with another id |
| VectorEditor.WithoutAppend | VectoraApp.tsx:66 | filtering distributes over concatenation, so the order of the rest is kept |
| VectorEditor.WithoutAbsent | VectoraApp.tsx:66 | removing an id nobody has changes nothing |
| VectorEditor.WithoutUnique | VectoraApp.tsx:66 | removal keeps ids unique |
| VectorEditor.RemoveVector | VectoraApp.tsx:65-68 | the selection is cleared exactly when it was the removed id |
| VectorEditor.RemoveVectorSpec | VectoraApp.tsx:65-68 | the remaining vectors are exactly those with another id, ids stay unique and positive, and an absent id changes nothing |
| VectorEditor.Updated | VectoraApp.tsx:72-96 | an update keeps the vector's id, label and colour |
| VectorEditor.FieldUpdateSyncs | VectoraApp.tsx:77-81 | when any field key is present, (x, y) are recomputed from the merged fields, even if x/y were also supplied |
| VectorEditor.CartesianDragRoundTrip | VectoraApp.tsx:83-86 | a drag of a cartesian vector copies (x, y) into its fields, so recomputing the components returns the dragged point |
| VectorEditor.TriangleDragFields | VectoraApp.tsx:90-94 | a drag of a triangle-type vector sets the fields to (magnitude, x, y) |
| VectorEditor.EmptyUpdate | VectoraApp.tsx:71-96 | an update with no keys leaves the vector unchanged |
| VectorEditor.UpdateVector | VectoraApp.tsx:71-98 | only vectors with the given id change; the length and selection are kept |
| VectorEditor.UpdateVectorSpec | VectoraApp.tsx:71-98 | ids are kept position by position, and a field update or cartesian drag keeps a vector in sync |
| VectorEditor.MissingCompletes | VectoraApp.tsx:45-46 | adding the missing vector to the others gives the desired resultant |
| VectorEditor.DisplayedResultant | VectoraApp.tsx:39-48 | missing mode shows the desired resultant as "Rd"; otherwise the sum is shown as "R" |
| VectorEditor.ZoomIn | VectoraApp.tsx:516 | zooming in adds 5 up to the cap of 100: the result is s + 5 when s ≤ 95 and exactly 100 above that |
| VectorEditor.ZoomOut | VectoraApp.tsx:521 | zooming out subtracts 5 down to the floor of 10: the result is s − 5 when s ≥ 15 and exactly 10 below that |
| VectorEditor.ZoomSpec | VectoraApp.tsx:516-521 | the zoom stays in [10, 100], and in and out undo each other away from the limits |
| Exercises.Candidate | VectoraApp.tsx:147-148 | a candidate angle is a multiple of 5 in [0, 355] and uses two draws |
| Exercises.Attempt | VectoraApp.tsx:147-154 | an attempt tries the candidate and then (candidate + minSep) mod 360, and succeeds exactly when the angle it ends with is not too close; with random draws in [0, 1) the angle lies in [0, 360), whatever the sign of minSep |
| Exercises.Search | VectoraApp.tsx:146-156 | a successful search returns an angle not too close to the used ones; a failed one has spent all its attempts, two draws each; with random draws in [0, 1) the angle lies in [0, 360) |
| Exercises.SearchFirstVector | VectoraApp.tsx:146-156 | with no angles used yet, the first candidate is taken |
| Exercises.NegativeSeparationTakesCandidate | VectoraApp.tsx:146-156 | a negative minimum separation, which the settings field at VectoraApp.tsx:584 accepts, rules out no angle, so the search takes its first candidate |
| Exercises.SampleAngle | VectoraApp.tsx:143-157 | at most 50 attempts; a valid angle is not too close to the used ones; with random draws in [0, 1) the angle lies in [0, 360) for every minSep, negative ones included |
| Exercises.GivenVector | VectoraApp.tsx:158-173 | the j-th sampled vector is angle-type, has id j + 1 and colour j mod 6, and its components match its fields |
| Exercises.GivenVectors | VectoraApp.tsx:141-174 | the loop yields numVecs well-formed vectors; with random draws in [0, 1) their angles lie in [0, 360), and when minMag ≤ maxMag their integer magnitudes lie in [minMag, maxMag] |
| Exercises.NextGiven | VectoraApp.tsx:142-173 | one loop round yields a well-formed vector; with random draws in [0, 1) its angle lies in [0, 360), and when minMag ≤ maxMag its magnitude lies in [minMag, maxMag] |
| Exercises.CountFor | VectoraApp.tsx:134 | the vector count is the parsed type key, and 0 when it does not parse to a non-negative number |
| Exercises.SolutionFor | VectoraApp.tsx:179-209 | missing type answers Vf = desired − sum; other types answer R = sum; magnitude and angle are those of the answer |
| Exercises.DesiredDraw | VectoraApp.tsx:180-184 | the desired resultant uses two draws |
| Exercises.GenerateSingle | VectoraApp.tsx:132-218 | the exercise has the given id and type string, the given vectors are well formed, a missing type has 2 or 3 vectors and a desired resultant, other types have the parsed count, and the solution matches the vectors; with random draws in [0, 1) the angles lie in [0, 360), and when minMag ≤ maxMag the magnitudes lie in [minMag, maxMag] |
| Exercises.MissingSolutionCloses | VectoraApp.tsx:187-188 | adding the solution vector to the given ones yields the desired resultant |
| Exercises.TypeKeyOf | VectoraApp.tsx:232-234 | the key read back from a type string is a space-free prefix of it |
| Exercises.NotANumber | VectoraApp.tsx:213 | the printed "NaN" count of a malformed key does not parse |
| Exercises.PrintedReadsBack | VectoraApp.tsx:213 | the printed count has no space, is not "missing", and parses to what the key parsed to |
| Exercises.PrintedStable | VectoraApp.tsx:213 | printing the count of an already printed count gives it back, with the same vector count |
| Exercises.KeyOfKind | VectoraApp.tsx:232-234 | reading the key back from "<n> vetores" gives the printed count n |
| Exercises.RegenerateKeepsKind | VectoraApp.tsx:230-236 | the type key read back from an exercise's type regenerates the same type and vector count |
| Exercises.GenerateList | VectoraApp.tsx:220-228 | the list has numQuestions entries (none if negative) numbered 1..n, each with well-formed vectors and a type from the selected keys |
| Exercises.NextExercise | VectoraApp.tsx:222-225 | one round yields exercise i + 1 of a selected type |
| Exercises.RegenerateExercise | VectoraApp.tsx:230-239 | only the chosen entry changes; it keeps its id and its type |
| VisualLayout.MakeItem | utils/math.ts:114-127 | an item keeps the input's id and components, with visual angle equal to the direction angle and the magnitude attached |
| VisualLayout.MakeItems | utils/math.ts:114-127 | one item per input, in input order |
| VisualLayout.Insert | utils/math.ts:129 | inserting into a sorted list keeps it sorted and adds exactly that item |
| VisualLayout.SortByAngle | utils/math.ts:129 | the result is sorted by original angle and is a permutation of the input |
| VisualLayout.Sorted | utils/math.ts:114-129 | the sorted items are a sorted permutation of the inputs' items |
| VisualLayout.Group | utils/math.ts:132-144 | consecutive sorted items share a group exactly when their gap is below minSep; groups tile the positions in order |
| VisualLayout.WrapMerge | utils/math.ts:146-156 | when the wrap check fires, the first group is appended to the last and its run is lifted; otherwise all groups become clusters |
| VisualLayout.TwoGroupsNeverMerge | utils/math.ts:150 | with one closed group (two in total) the wrap merge never fires |
| VisualLayout.TwoGroupsExample | utils/math.ts:146-156 | 1° and 358° with minSep 6 are 3° apart around the circle yet stay in separate clusters |
| VisualLayout.Clusters | utils/math.ts:132-156 | the clusters partition the positions, and a lifted run ends the last cluster, which has two or more members |
| VisualLayout.ClusteringWellFormed | utils/math.ts:132-156 | with or without a merge, the clusters partition the sorted positions |
| VisualLayout.Lift | utils/math.ts:152 | positions in the lifted run gain 360 on their original angle; the others are unchanged |
| VisualLayout.LiftedShape | utils/math.ts:152 | the lifted items are the sorted items with exactly the merged first cluster moved up a turn |
| VisualLayout.Place | utils/math.ts:165-172 | a redrawn item keeps id, components and magnitude, and takes the normalised target angle with components magnitude·(cos, sin) |
| VisualLayout.Targets | utils/math.ts:161-165 | one target angle per cluster member |
| VisualLayout.TargetsCentred | utils/math.ts:161-165 | consecutive targets are exactly minSep apart and have the same mean as the cluster's angles |
| VisualLayout.SpreadCluster | utils/math.ts:159-174 | spreading one cluster keeps the list length |
| VisualLayout.SpreadClusterSpec | utils/math.ts:159-174 | members of the cluster are redrawn at their targets, everything else is untouched, and nothing loses its id, components or magnitude |
| VisualLayout.Respread | utils/math.ts:159-174 | spreading every cluster keeps the list length |
| VisualLayout.RespreadSpec | utils/math.ts:159-174 | each cluster member is redrawn from its own cluster and positions in no cluster are untouched |
| VisualLayout.Layout | utils/math.ts:111-177 | an empty input gives an empty layout; otherwise there is one item per input |
| VisualLayout.LayoutKeepsItems | utils/math.ts:112-176 | the layout lists every input once in ascending angle order with id, components and magnitude unchanged; only merged members report their angle a turn higher |
| VisualLayout.LayoutRedraws | utils/math.ts:159-174 | every cluster member is redrawn from the lifted items by its cluster's spread |
| VisualLayout.LayoutSingletonUnchanged | utils/math.ts:160 | a vector alone in its cluster keeps visual angle = original angle and draws at its own components |
| VisualLayout.SpreadExample | utils/math.ts:159-174 | vectors at 10° and 12° with minSep 6 are fanned out to 8° and 14° |
| TriangleSolver.Quot | utils/trigoMath.ts:57 | the quotient times the divisor gives the dividend, and division by zero is NaN |
| TriangleSolver.AcosQuot | utils/trigoMath.ts:34 | the law-of-cosines angle is NaN exactly when the cosine quotient leaves [−1, 1] or its denominator is zero |
| TriangleSolver.AcosOpposite | utils/trigoMath.ts:34-35 | the angle opposite a side is a number exactly when (y² + z² − x²)/(2yz) lies in [−1, 1] |
| TriangleSolver.ThirdAngle | utils/trigoMath.ts:36 | C = 180 − A − B, so the three angles sum to 180 whenever A and B are numbers |
| TriangleSolver.Derive | utils/trigoMath.ts:21-80 | a derivation happens exactly when the inputs are positive and the mode's gate passes, and then A + B + C = 180 whenever A and B are numbers |
| TriangleSolver.DeriveSSS | utils/trigoMath.ts:29-37 | SSS proceeds exactly under the strict triangle inequality, keeps the sides and derives C from A and B |
| TriangleSolver.DeriveSAS | utils/trigoMath.ts:39-47 | SAS proceeds exactly when A < 180, keeps b, A, c and derives C from A and B |
| TriangleSolver.DeriveASA | utils/trigoMath.ts:49-59 | ASA proceeds exactly when A + B < 180, keeps A, c, B and sets C = 180 − A − B |
| TriangleSolver.DeriveAAS | utils/trigoMath.ts:61-68 | AAS proceeds exactly when A + B < 180, keeps A, B, a and sets C = 180 − A − B |
| TriangleSolver.DeriveRight | utils/trigoMath.ts:70-79 | the right triangle keeps a and b, sets C = 90 and B = 90 − A |
| TriangleSolver.Validate | utils/trigoMath.ts:86-87 | a result survives exactly when no part is NaN and all sides are positive |
| TriangleSolver.Solved | utils/trigoMath.ts:14-88 | a solution passes the gates, has positive sides and angles summing to 180, and echoes the inputs in their mode's slots |
| TriangleSolver.SolvedIffGates | utils/trigoMath.ts:21-88 | for positive inputs and sound trigonometry, the solver succeeds exactly when the mode's gate passes |
| TriangleSolver.SolvedSSS | utils/trigoMath.ts:29-37 | a strict triangle is always solved in SSS mode |
| TriangleSolver.SolvedSAS | utils/trigoMath.ts:39-47 | positive sides with 0 < A < 180 are always solved in SAS mode |
| TriangleSolver.SolvedASA | utils/trigoMath.ts:49-59 | positive inputs with A + B < 180 are always solved in ASA mode |
| TriangleSolver.SolvedAAS | utils/trigoMath.ts:61-68 | positive inputs with A + B < 180 are always solved in AAS mode |
| TriangleSolver.SolvedRight | utils/trigoMath.ts:70-79 | two positive legs are always solved in right-triangle mode |
| TriangleSolver.CosineInRange | utils/trigoMath.ts:32-34 | under the strict triangle inequality the cosine quotient lies strictly inside (−1, 1) |
| TriangleSolver.SASSide | utils/trigoMath.ts:43 | for 0 < A < 180 the law-of-cosines side is a positive number whose square is b² + c² − 2bc·cos A |
| TriangleSolver.SASAngle | utils/trigoMath.ts:45 | the SAS angle B is then a number, so SAS solves |
| TriangleSolver.Area | utils/trigoMath.ts:90-91 | Heron's area is NaN exactly when s(s−a)(s−b)(s−c) is negative |
| TriangleSolver.Height | utils/trigoMath.ts:92 | the height times c is twice the area, and NaN exactly when the area is |
| TriangleSolver.HeronSquared | utils/trigoMath.ts:90-92 | a numeric area is non-negative with square equal to Heron's product, and the height is non-negative |
| TriangleSolver.Clean | utils/trigoMath.ts:9-12 | below 1 in absolute value the result is on a thousandth within 0.0005; otherwise on a tenth within 0.05 |
| TriangleSolver.CleanNum | utils/trigoMath.ts:9-12 | cleaning keeps NaN and cleans numbers |
| TriangleSolver.CleanClose | utils/trigoMath.ts:9-12 | cleaning moves a value by at most 0.05 |
| TriangleSolver.Solve | utils/trigoMath.ts:14-102 | non-positive inputs, a failed triangle inequality, SAS with A ≥ 180 and ASA/AAS with A + B ≥ 180 give null; a result exists exactly when the unrounded solution does, and is valid |
| TriangleSolver.Report | utils/trigoMath.ts:94-101 | the reported record is marked valid |
| TriangleSolver.SolveReports | utils/trigoMath.ts:94-101 | each reported side, angle and the perimeter is within 0.05 of the unrounded value; area and height are present exactly when Heron's product is non-negative |
| TriangleSolver.ReportedAngleSum | utils/trigoMath.ts:94-96 | the reported angles sum to 180 within 0.15 |
| TriangleSolver.RightIgnoresThird | utils/trigoMath.ts:22 | right-triangle mode ignores the third input and reports C = 90 |
| TriangleSolver.Coords | utils/trigoMath.ts:127-136 | A is at the origin and B at (c, 0) |
| TriangleSolver.CoordsSpec | utils/trigoMath.ts:127-136 | \|AC\| = b, and C lies above AB when b > 0 and 0 < A < 180 |
| TriangleCanvas.CanvasVertices | components/TriangleCanvas.tsx:44-53 | no vertices are computed exactly when the data is missing or invalid |
| TriangleCanvas.FittedWithin | components/TriangleCanvas.tsx:57-96 | the fitted vertices lie in the available box around the centre |
| TriangleCanvas.VerticesInsidePadding | components/TriangleCanvas.tsx:65-96 | on a canvas at least 80 px each way, every vertex lies in [40, width − 40] × [40, height − 40] |
| TriangleCanvas.FitScalePositive | components/TriangleCanvas.tsx:69 | with room inside the padding the scale is positive |
| TriangleCanvas.DrawnUpright | components/TriangleCanvas.tsx:86-96 | a proper triangle is drawn with AB horizontal, B right of A and C above them |
| TrigoApp.SolverEffect | TrigoApp.tsx:34-50 | no triangle when val1 or val2 does not parse, or when val3 does not parse outside right mode; otherwise the solver's result |
| TrigoApp.SolverEffectShows | TrigoApp.tsx:34-50 | a triangle is shown exactly when the needed values parse, are positive and pass the mode's gate |
| TrigoApp.RandomSide | TrigoApp.tsx:69 | a random side lies in [3, 17] |
| TrigoApp.RandomAngle | TrigoApp.tsx:70 | a random angle lies in [10, 89] |
| TrigoApp.SampleInputs | TrigoApp.tsx:75-94 | right mode has v3 = 0; SSS draws c strictly between \|a − b\| and a + b; the other modes draw sides in [3, 17] and angles in [10, 89] in their slots |
| TrigoApp.SampledInputsPassGates | TrigoApp.tsx:75-94 | sampled inputs are positive and always pass their mode's gate |
| TrigoApp.SampledSolvable | TrigoApp.tsx:96-97 | with sound trigonometry every sampled input is solved |
| TrigoApp.SlotsMatchSolver | utils/trigoMath.ts:29-75 | a triangle the solver builds from given values holds the first, second and (except for a right triangle) third value in the parts the mode's slot list names |
| TrigoApp.Labels | TrigoApp.tsx:74-93 | outside the right-triangle mode, each of the three labels names the part its value fills; a right triangle has an empty third label and its legs labelled b then a |
| TrigoApp.RightLegsLabelledSwapped | TrigoApp.tsx:76-77 | in a right-triangle exercise the value labelled leg b is stored by the solver as side a, and the one labelled leg a as side b |
| TrigoApp.TryOnce | TrigoApp.tsx:67-108 | one attempt yields, if anything, exercise i + 1 of the mode that the solver accepts, carrying the mode's labels; with sound trigonometry it always does |
| TrigoApp.ExerciseFor | TrigoApp.tsx:62-110 | at most 50 attempts; an exercise found is consistent with the solver and carries the mode's labels, and with sound trigonometry one is found |
| TrigoApp.HandleGenerate | TrigoApp.tsx:55-114 | at most numQuestions exercises, each consistent with the solver (val3 absent exactly in right mode), with increasing ids in [1, numQuestions]; none are dropped under sound trigonometry |
| TrigoApp.ModeLabel | TrigoApp.tsx:303-312 | SSS, SAS, ASA and AAS become LLL, LAL, ALA and LAA, Right becomes the stored "Ret√¢ngulo", and any other string is returned unchanged |
| TrigoApp.ModeLabelsDistinct | TrigoApp.tsx:303-312 | the five modes get five distinct labels, none of them a mode name |
| TrigoPdf.Fmt | utils/trigoPdf.ts:6-13 | undefined gives "" and NaN gives "NaN" |
| TrigoPdf.Decimals | utils/trigoPdf.ts:8-11 | the number of decimals is 3 or 1 |
| TrigoPdf.FmtShape | utils/trigoPdf.ts:6-13 | a number prints with one ',' followed by its 3 or 1 decimals, and no '.' |
| TrigoPdf.FixedToComma | utils/trigoPdf.ts:10-12 | replacing the first '.' of `toFixed` output leaves a decimal comma and no '.' |
| TrigoPdf.GivenText | utils/trigoPdf.ts:72 | the given-data line extends the two-value head exactly when val3 is present and non-zero |
| TrigoPdf.LongModeLabel | utils/trigoPdf.ts:15-24 | an unknown mode string is returned unchanged |
| TrigoPdf.LongModeLabelsDistinct | utils/trigoPdf.ts:15-24 | the five modes get five distinct long labels, none of them a mode name |
| TrigoPdf.TriangleInPDFWithin | utils/trigoPdf.ts:190-211 | the drawn triangle lies within the boxSize square around (cx, cy) |
| TrigoPdf.FlowStep | utils/trigoPdf.ts:56-63 | the closed form (3 questions on the first page, 4 on each later one) follows the page-break rule step by step |
| TrigoPdf.FlowFits | utils/trigoPdf.ts:60-63 | every question starts at or below 25 and ends at or above 297 − 15 |
| TrigoPdf.FullFlow | utils/trigoPdf.ts:56-117 | the loop places question k where the closed form says |
| TrigoPdf.FullTriangleClear | utils/trigoPdf.ts:77-114 | a full-mode triangle stays left of the answer box and between the prompt line and the divider |
| TrigoPdf.FullTriangleOnPage | utils/trigoPdf.ts:60-80 | a full-mode triangle stays inside the page margins |
| TrigoPdf.SafeItemsPerPage | utils/trigoPdf.ts:123 | items per page are clamped to [1, 8], and requests inside that range are kept |
| TrigoPdf.GridRows | utils/trigoPdf.ts:124 | rows = ceil(ipp / 2) lies in [1, 4] |
| TrigoPdf.CellH | utils/trigoPdf.ts:128 | a cell is at least 247/4 mm tall |
| TrigoPdf.DrawSize | utils/trigoPdf.ts:131 | the drawing size is positive and at most half the cell width and 0.6 of the cell height |
| TrigoPdf.CellFits | utils/trigoPdf.ts:145-167 | each cell lies within the page margins and its triangle square lies within the cell |
| TrigoPdf.AnswerLinesClear | utils/trigoPdf.ts:165-176 | the triangle ends above the teacher's answer lines exactly when a page holds at most 6 items |
| TrigoPdf.CellSquareOnPage | utils/trigoPdf.ts:165-167 | a triangle fitted into a cell's square stays on the page |
| TrigoPdf.SimpleGrid | utils/trigoPdf.ts:133-150 | question k goes to page k div ipp, place k mod ipp, in that place's cell |
| TrigoPdf.FullQuestions | utils/trigoPdf.ts:56-117 | every full-mode question is numbered k + 1 at its flow position and drawn on the page |
| TrigoPdf.SimpleQuestions | utils/trigoPdf.ts:121-183 | every simple-mode question is in its grid cell and drawn on the page |
| TrigoPdf.GenerateTrigoPDF | utils/trigoPdf.ts:54-184 | one question per exercise, placed by the chosen mode, with every triangle inside the margins |
| Pagination.CeilDiv | utils/pdfGenerator.ts:399 | the page count is the least r with r·per ≥ n |
| Pagination.CeilDivUnique | utils/pdfGenerator.ts:399 | any count with that property is the page count |
| Pagination.PageItems | utils/pdfGenerator.ts:402-405 | page p lists the indices from p·per up to min(n, (p + 1)·per) |
| Pagination.PageSize | utils/pdfGenerator.ts:399-405 | every page before the count holds between 1 and per items |
| Pagination.PagesByCount | utils/pdfGenerator.ts:399-405 | looping over the page count lists every index once, in order |
| Pagination.PagesBySlice | utils/pdfGenerator.ts:281-286 | slicing by per lists every index once, in order, on the same pages |
| Pagination.SamePlans | utils/pdfGenerator.ts:281-286 | the slicing plan and the page-count plan are the same |
| Pagination.GridWalk | utils/pdfGenerator.ts:400-404 | item k is given page and place with page·per + place = k and place < per |
| Pagination.PlaceOnPage | utils/pdfGenerator.ts:400-405 | such a page is before the page count and lists item k at that place |
| Pagination.PageOfPlace | utils/pdfGenerator.ts:400-404 | the page and place of item k are k div per and k mod per |
| Pagination.PageHolds | utils/pdfGenerator.ts:399-405 | item k sits on page k div per at place k mod per |
| PdfPlan.FullPerPage | utils/pdfGenerator.ts:272-278 | blocks per page is the largest count whose estimated heights fit in 249 mm, at least 1 |
| PdfPlan.FullPerPageValues | utils/pdfGenerator.ts:272-278 | students get 2 blocks per page and teachers 1 |
| PdfPlan.FullBlock | utils/pdfGenerator.ts:283-365 | the diagram sits 12 below the header, an answer strip appears only for teachers, and the divider comes after the diagram |
| PdfPlan.Advance | utils/pdfGenerator.ts:299-365 | a block advances the cursor by a fixed positive amount |
| PdfPlan.FullBlockFits | utils/pdfGenerator.ts:283-365 | every block on a page ends above the bottom margin, including the teacher's answer strip |
| PdfPlan.FullLayout | utils/pdfGenerator.ts:280-369 | question k gets number k + 1 on page k div per, slot k mod per |
| PdfPlan.RowsThatFit | utils/pdfGenerator.ts:376-378 | rows per page is the largest count of 98 mm rows that fits in 249 mm, at least 1 |
| PdfPlan.MaxItemsValue | utils/pdfGenerator.ts:378-380 | two rows fit, so at most four items per page |
| PdfPlan.SimpleItemsPerPage | utils/pdfGenerator.ts:380-387 | the request is clamped to [1, max]; requests inside are kept |
| PdfPlan.SecondClampRedundant | utils/pdfGenerator.ts:382-387 | the second clamp gives the same result as min(max(1, request), max) alone |
| PdfPlan.CellFits | utils/pdfGenerator.ts:407-411 | each cell's diagram lies inside the margins and its row ends above the bottom margin |
| PdfPlan.CellsApart | utils/pdfGenerator.ts:407-411 | distinct cells on a page are a full diagram apart in x or in y |
| PdfPlan.SimpleLayout | utils/pdfGenerator.ts:398-411 | item k goes to page k div ipp, cell k mod ipp |
| PdfPlan.BaseDrawn | utils/pdfGenerator.ts:302-305 | each vector is drawn at the components of its fields, with its label |
| PdfPlan.DrawnSum | utils/pdfGenerator.ts:311-313 | no vectors sum to the origin |
| PdfPlan.SyncedDrawnSum | utils/pdfGenerator.ts:311-313 | for vectors in sync with their fields, the drawn sum is the vectors' sum |
| PdfPlan.DiagramFor | utils/pdfGenerator.ts:302-327 | the resultant is the desired one or the drawn sum; a teacher's missing-type diagram appends Vf; the resultant shows for teachers or missing type |
| PdfPlan.TeacherDiagramCloses | utils/pdfGenerator.ts:318-324 | in a teacher's missing-type diagram the drawn vectors including Vf sum to the resultant |
| PdfPlan.StudentSumDiagram | utils/pdfGenerator.ts:307-327 | a student's sum-type diagram draws just the vectors and hides the resultant |
| PdfPlan.GeneratePDF | utils/pdfGenerator.ts:266-442 | one diagram per exercise, placed by the chosen mode, every diagram inside the margins |
| VectorDiagram.ArcSweepSpec | utils/pdfGenerator.ts:60-66 | the signed sweep from the nearest axis lies in [−45, 45) and leads from the axis to the angle |
| VectorDiagram.ArcRadii | utils/pdfGenerator.ts:68-103 | a small sweep (below 20°) draws the arc at 2.5 times the radius with the label 8 mm beyond it; other sweeps keep the radius and put the label 3 mm beyond it |
| VectorDiagram.ArcSteps | utils/pdfGenerator.ts:73-99 | twelve equal steps lead from the start angle to start + sweep |
| VectorDiagram.ArcLabelReads | utils/pdfGenerator.ts:112 | the arc label is the sweep rounded to a whole degree in [0, 45], followed by "°" |
| VectorDiagram.ArcSuppressedBands | utils/pdfGenerator.ts:171-177 | arcs are suppressed exactly within half a degree of 0, 90, 180 and 360, and not at 270 |
| VectorDiagram.MaxShown | utils/pdfGenerator.ts:124-129 | the largest shown magnitude bounds every shown vector and is attained (or 0) |
| VectorDiagram.MaxMag | utils/pdfGenerator.ts:124-136 | the scale magnitude is at least 0.001, bounds the shown vectors and resultant, and is one of them or 0.001 |
| VectorDiagram.ScaleOfMax | utils/pdfGenerator.ts:138-140 | the scale factor is positive and maps the scale magnitude to 31.5 mm |
| VectorDiagram.AutoScaleFits | utils/pdfGenerator.ts:124-140 | the longest element maps to exactly 31.5 mm and nothing shown is longer |
| VectorDiagram.LabelTextReads | utils/pdfGenerator.ts:183-186 | a label reads back as its rounded magnitude, after "R=" for the resultant |
| VectorDiagram.Collides | utils/pdfGenerator.ts:209-213 | the scan reports a collision exactly when some placed box overlaps |
| VectorDiagram.PlaceLabel | utils/pdfGenerator.ts:194-222 | the label is centred on the tip, above it for v.y > 0 and below otherwise, pushed one 4 mm step further on a collision, and exactly one box is appended |
| VectorDiagram.NudgeIsOneStep | utils/pdfGenerator.ts:215-219 | the nudge does not search: a label can still collide after it |
| VectorDiagram.AxisStrips | utils/pdfGenerator.ts:159-162 | placement starts with the two axis strips |
| VectorDiagram.RawList | utils/pdfGenerator.ts:153-154 | vectors are entered by index, and the resultant as "R" after them |
| VectorDiagram.RawListIds | utils/pdfGenerator.ts:153-154 | entries have distinct ids |
| VectorDiagram.FirstWith | utils/pdfGenerator.ts:157 | the search stops at the first item with the id |
| VectorDiagram.FindVisual | utils/pdfGenerator.ts:157 | a missing id falls back to (0, 0); otherwise the first match's drawn components |
| VectorDiagram.LayoutHoldsEveryEntry | utils/pdfGenerator.ts:153-157 | every entry is found in the layout with its own components |
| VectorDiagram.ShownKeysSpec | utils/pdfGenerator.ts:228-231 | exactly the vectors not hidden as "Rd" are drawn |
| VectorDiagram.ShownKeysOrdered | utils/pdfGenerator.ts:228-231 | they are drawn in list order |
| VectorDiagram.DrawItem | utils/pdfGenerator.ts:164-226 | the arrow ends at the scaled layout position, the label is centred on it on the correct side, and its box is registered |
| VectorDiagram.DrawEntry | utils/pdfGenerator.ts:229-230 | one vector adds one mark unless it is hidden |
| VectorDiagram.DrawEntries | utils/pdfGenerator.ts:228-231 | the loop draws one mark per shown vector |
| VectorDiagram.DrawAll | utils/pdfGenerator.ts:228-235 | each shown vector and then the shown resultant gets a mark at its layout position with its own label text and box |
| VectorDiagram.RenderDiagram | utils/pdfGenerator.ts:119-236 | the diagram draws every shown element from the layout with auto-scale, arc rule, label text and placement, starting from the axis strips |
| VectorCanvas.HitScan | components/VectorCanvas.tsx:273-281 | the scan finds no head exactly when none is strictly within 20 px, and otherwise the closest one, with the earliest winning ties |
| VectorCanvas.HitTest | components/VectorCanvas.tsx:269-281 | no hit exactly when no head is within 20 px; a hit is the nearest head, the earliest on ties |
| VectorCanvas.HitUnique | components/VectorCanvas.tsx:273-281 | at most one vector is the hit |
| VectorCanvas.WithinRadiusSquared | components/VectorCanvas.tsx:276-277 | a head is within 20 px exactly when its squared distance is below 400 |
| VectorCanvas.PressOnHeadGrabs | components/VectorCanvas.tsx:270-289 | pressing exactly on a head always hits a head at distance 0 |
| VectorCanvas.PointerDown | components/VectorCanvas.tsx:254-290 | read-only does nothing; a miss deselects; a hit with a non-zero id starts a drag and selects it, while id 0 deselects |
| VectorCanvas.SnapOnGrid | components/VectorCanvas.tsx:311-315 | a snapped coordinate is a multiple of 0.5 within 0.25 |
| VectorCanvas.SnapNearest | components/VectorCanvas.tsx:311-315 | no multiple of 0.5 is closer than the snapped coordinate |
| VectorCanvas.SnapIdempotent | components/VectorCanvas.tsx:311-315 | snapping a multiple of 0.5 leaves it unchanged |
| VectorCanvas.PointerMove | components/VectorCanvas.tsx:292-318 | a move reports a change exactly during a drag with a non-zero id outside read-only, for that id, snapped to the half grid when the grid is on |
| VectorCanvas.PointerUp | components/VectorCanvas.tsx:320-323 | releasing ends the drag and clears the id |
| VectorCanvas.DragFollowsPointer | components/VectorCanvas.tsx:304-317 | moving the pointer to where a point is drawn reports that point |
| VectorCanvas.PressDragRelease | components/VectorCanvas.tsx:254-323 | a press that selects a vector makes the next move update that vector, and after a release moves do nothing |
| VectorCanvas.ArcVectors | components/VectorCanvas.tsx:243-249 | arcs are drawn, in list order, exactly for the selected vector and the angle-type vectors |
| VectorCanvas.ArcsBeyondAngleInputs | components/VectorCanvas.tsx:246-248 | without a selection arcs mark exactly the angle-type vectors; any other arc belongs to the selected vector |
| VectorCanvas.CanvasSweepMatchesPdf | components/VectorCanvas.tsx:185-186 | for angles in [0, 360) the canvas sweep formula agrees with the PDF one and lies in [−45, 45) |
| VectorCanvas.AngleArc | components/VectorCanvas.tsx:180-227 | the label sits 20 px beyond the arc exactly for a read-only small sweep and 15 px otherwise; outside read-only the radius is kept, and it never grows by more than 25; the arc turns counter-clockwise exactly for a positive sweep |
| VectorCanvas.PreviewArcMatchesPdf | components/VectorCanvas.tsx:185-220 | the read-only preview shows the PDF's sweep and label, and enlarges the radius exactly when the PDF does |

## Left out

- Drawing itself: every jsPDF, canvas-2D, DOM, `devicePixelRatio`, resize, `doc.save` and `Date` call. The model returns positions, texts and boxes. Text widths (`getTextWidth`) are a function parameter.
- Floating point: every number is an exact real. Rounding in `Math.sqrt`, trigonometry and `toFixed` on binary doubles is not modelled. Ties in `toFixed` are resolved half away from zero.
- `Angles.Components`: the triangle branch (`atan2` of the two legs) is left unconstrained, since its trigonometry is kept abstract.
- `rotatePoint` (utils/math.ts:78-90): a pure trigonometric rotation, kept abstract like the rest of the trigonometry.
- `handleDesiredChange` (VectoraApp.tsx:105-129): the same reason.
- `drawArrow` (utils/pdfGenerator.ts:24-57): arrowhead geometry, the same reason.
- The digits of `formatNumber`: the vector-exercise solution (`Exercises.SolutionFor`) keeps the unformatted reals.
- `Oracle`: the trigonometric axioms are the few that the proofs need, collected in `Sound`. Without `Sound`, the oracle may return anything.
- `Math.random` is the injected `Rng` stream. Statements about sampled ranges assume `ValidRng`.
- `TriangleSolver.Quot`: JavaScript's x/0 is ±Infinity (or NaN for 0/0). Every such result is NaN here. Under `Sound` it cannot arise, because sin is positive on (0, 180).
- `Text.ParseInt`: leading whitespace and hexadecimal prefixes, which `parseInt` accepts, are not modelled. Keys in the source are plain digit strings.
- `Text.ToFixed`: JavaScript switches to exponent notation from 1e21 upwards. That case is not modelled.
- `Angles.SafeFloat`: `parseFloat` is part of the oracle, so only its failure case (NaN → 0) is pinned down.
- `VisualLayout.SortByAngle`: the insertion keeps equal angles in arrival order, as a stable sort does, but no contract states that.
- Dead code: the disabled `drawAngle` (components/TriangleCanvas.tsx:147-169), the unused `cx`/`cy` (components/TriangleCanvas.tsx:72, 76) and the unused `rowsPerPage` (utils/pdfGenerator.ts:390).
- The TriangleCanvas vertex and side labels (components/TriangleCanvas.tsx:110-146): only text placement next to vertices.
- The canvas grid, axes and rotated axes (components/VectorCanvas.tsx:84-130): drawing only.
- `TriangleCanvas.VerticesInsidePadding`: requires a canvas at least 80 px each way. On a smaller canvas the available box has negative extents, and the source then draws a mirrored triangle.
- `VectorCanvas.PointerMove` and the `ScreenMap` inverses: require a non-zero scale. The zoom keeps the scale in [10, 100].
- `Exercises.GenerateList`: requires at least one selected type. The generate button is disabled otherwise (VectoraApp.tsx:620-621).
- `Exercises.RegenerateExercise`: requires an index inside the list. It is only called from a row of that list (VectoraApp.tsx:273).
- React state plumbing (`useState`, `useEffect`, re-renders): handlers are pure functions from one state record to the next.
