# DeepBIM core, modelled in Dafny

DeepBIM is a Revit add-in. Its commands and dialogs work on Revit elements, but each
one rests on a small, deterministic core. This project models that core in Dafny,
with the Revit host replaced by plain values: bounding boxes projected on view axes,
tag heads, sets of sheet numbers, rows of a grid, category lists, folder lists and a
file-exists predicate.

The modelled core covers five areas:

- **Layout engine** (`AlignService`, `AlignTags`): edge alignment, centre alignment,
  even distribution with fixed ends, and the forward "untangle" sweep. Each produces
  a map from element id to move vector. Tag heads are snapped onto the first tag's
  coordinate.
- **Orientation** (`OrientationUtils`, `MatchOrientationCommand`,
  `MatchTagLayoutCommand`):
  - angle normalisation by whole turns;
  - the order of angle sources, the skip rule for tiny rotations, and the pivot;
  - the target lists without duplicates;
  - the world ↔ (Right, Up) conversion used to copy a tag layout.
- **Sheets** (`SheetManagerViewModel`, `SheetCreationWindow`, `SheetManagerWindow`):
  - the two unique-number generators (`-2`, `-3`, … and ` - Copy`, ` - Copy 2`, …);
  - the used-number bookkeeping of batch create and batch update;
  - the find/replace/prefix/suffix rename rule;
  - moving sheets between the two grids;
  - moving selected rows up or down.
- **Selection state** (`Ex1SmartSelectionViewModel`, `SmartSelectionViewModel`,
  `TagElementsViewModel`):
  - the tri-state "select all", the transparency clamp and the 10 000-id cap;
  - search filtering and category name lists;
  - the tag-option ↔ length-box mapping and optional length parsing;
  - the per-option tag placement plan and its created/skipped counters.
- **Utilities**:
  - probe-folder deduplication and first-hit assembly loading (`SystemLoadManager`);
  - `SanitizeName` (`RibbonHelpers`);
  - the component-wise zero test (`XyzExtensions`).

There is one Dafny module per source file. The shared modules `Wrappers` (Option),
`Seqs` (filter, count, first-occurrence dedup, stable insertion sort),
`Text` (.NET string operations over `seq<char>`), `Geometry` (3-vectors and the dot
product) and `Revit` (element ids, views, curves and boxes) hold the common
vocabulary.

Objects the source updates in place are Dafny classes, with `modifies` clauses on
the methods that change them. These are the tags, the category items and the view
models. Loops in the source are methods with loop invariants, proved against a
specification function. The properties the source promises are proved about that
function as lemmas.

Lengths are `real`. π is the decimal value of `Math.PI`, and `atan2` is a function
parameter. The 1e-9 tolerances are parameters or the constant `Eps`.

## Model

| member | source | states |
|---|---|---|
| XyzExtensions.IsZeroLengthBounds | DeepBIM/Utils/XyzExtensions.cs:8-9 | the test holds iff every component lies strictly between -tol and tol |
| XyzExtensions.ZeroIsZeroLength | DeepBIM/Utils/XyzExtensions.cs:8-9 | the zero vector passes exactly for a positive tolerance |
| XyzExtensions.IsZeroLengthNeg | DeepBIM/Utils/XyzExtensions.cs:8-9 | negating the vector does not change the outcome |
| XyzExtensions.IsZeroLengthMonotone | DeepBIM/Utils/XyzExtensions.cs:8-9 | a vector zero-length for tol is zero-length for any larger tol |
| AlignService.CenterIsMidSpan | DeepBIM/Helpers/AlignService.cs:157-158 | the projected box centre is the midpoint of the projected min and max |
| AlignService.MovesKeys | DeepBIM/Helpers/AlignService.cs:133-145 | only visited elements appear in the move map |
| AlignService.MovesSpec | DeepBIM/Helpers/AlignService.cs:139-144 | with distinct ids, element i moves iff its move vector is not zero within eps, and then by exactly offset·axis |
| AlignService.MovesShift | DeepBIM/Helpers/AlignService.cs:139-144 | along a unit axis a moved element's projections shift by exactly its offset |
| AlignService.EdgeTarget | DeepBIM/Helpers/AlignService.cs:129-131 | the target is the minimum projected Min (useMin) or the maximum projected Max, and is attained by some box |
| AlignService.AlignToEdge | DeepBIM/Helpers/AlignService.cs:127-146 | the loop issues exactly the edge-alignment moves |
| AlignService.EdgeAligned | DeepBIM/Helpers/AlignService.cs:133-145 | every box ends with its compared edge at the target, or stays because it is already within eps of it |
| AlignService.EdgeExtremeStays | DeepBIM/Helpers/AlignService.cs:141-144 | the box that already has the extreme edge never moves |
| AlignService.AlignToCenter | DeepBIM/Helpers/AlignService.cs:149-166 | the loop issues exactly the centre-alignment moves |
| AlignService.CenterAligned | DeepBIM/Helpers/AlignService.cs:151-164 | every box ends with its centre at (groupMin + groupMax)/2, or is already within eps of it |
| AlignService.ByCenterSorted | DeepBIM/Helpers/AlignService.cs:171-178 | the centre order is sorted by projected centre and is a permutation of the boxes |
| AlignService.Distribute | DeepBIM/Helpers/AlignService.cs:169-207 | the method issues exactly the distribution moves |
| AlignService.SpaceInner | DeepBIM/Helpers/AlignService.cs:195-206 | the loop visits only indices 1..n-2 of the centre order |
| AlignService.DistributeKeepsEnds | DeepBIM/Helpers/AlignService.cs:180-195 | the first and last boxes of the centre order never move |
| AlignService.DistributeTargetEven | DeepBIM/Helpers/AlignService.cs:183-198 | the i-th target is start + i·(end-start)/(n-1), whatever minGap is |
| AlignService.EvenStep | DeepBIM/Helpers/AlignService.cs:193-198 | start + i·(spacing + minGap) equals start + i·(end-start)/(n-1) |
| AlignService.DistributeReachesTargets | DeepBIM/Helpers/AlignService.cs:195-206 | each inner box reaches its evenly stepped target, or is already within eps of it |
| AlignService.DistributeNoRoom | DeepBIM/Helpers/AlignService.cs:186-191 | when end - start < (n-1)·minGap nothing moves |
| AlignService.ByLo | DeepBIM/Helpers/AlignService.cs:213-220 | the sweep order is a permutation sorted by projected Min |
| AlignService.Untangle | DeepBIM/Helpers/AlignService.cs:209-251 | the sweep with its mutable currentEnd issues exactly the untangle moves |
| AlignService.MaxNewHi | DeepBIM/Helpers/AlignService.cs:224-243 | the running end bounds every new Max so far and is attained by one of them |
| AlignService.SweepEnd | DeepBIM/Helpers/AlignService.cs:224-243 | currentEnd is the greatest new Max of the items visited so far |
| AlignService.UntangleSweep | DeepBIM/Helpers/AlignService.cs:227-244 | each item's new Min is at least the greatest earlier new Max + minGap - eps; an item already clear keeps offset 0, and every offset is non-negative |
| AlignService.UntangleForward | DeepBIM/Helpers/AlignService.cs:222-235 | fewer than 2 items: no moves; the item with the least Min never moves; every move is forward (positive offset) |
| AlignService.SweepMoves | DeepBIM/Helpers/AlignService.cs:231-250 | with distinct ids, an item is in the move map iff its offset is positive, with move offset·axis |
| AlignService.Present | DeepBIM/Helpers/AlignService.cs:51-54 | the boxes kept are exactly the present ones, never more than the selection |
| AlignService.PresentSnoc | DeepBIM/Helpers/AlignService.cs:51-54 | the boxes keep selection order: a further element adds its box, if it has one, at the end |
| AlignService.AlignElements | DeepBIM/Helpers/AlignService.cs:28-111 | fewer than 2 selected: Cancelled, no moves; fewer than 2 boxes: Failed, no moves; otherwise Succeeded with the moves of the chosen operation, distribution only with at least 3 boxes |
| AlignTags.SnapHeadAligned | DeepBIM/Helpers/AlignTags.cs:26-36 | along a unit axis a snapped head has the reference component; it stays put iff it is within eps or already equal |
| AlignTags.SnapHeadKeepsOrthogonal | DeepBIM/Helpers/AlignTags.cs:32-36 | the move leaves any component orthogonal to the axis unchanged |
| AlignTags.AlignTagElements | DeepBIM/Helpers/AlignTags.cs:15-43 | fewer than 2 tags: nothing changes; otherwise the first head stays and every other head is snapped on Right (vertical) or Up |
| OrientationUtils.NormalizedSpec | DeepBIM/Helpers/OrientationUtils.cs:53-58 | the result lies in [-π, π], differs from x by whole turns, and is x itself on [-π, π] |
| OrientationUtils.Normalize | DeepBIM/Helpers/OrientationUtils.cs:53-58 | the two while-loops compute Normalized(x) and end in [-π, π] |
| OrientationUtils.NormDownCongruent | DeepBIM/Helpers/OrientationUtils.cs:55 | the first loop changes x by whole turns only |
| OrientationUtils.NormUpCongruent | DeepBIM/Helpers/OrientationUtils.cs:56 | the second loop changes x by whole turns only |
| OrientationUtils.MidParameter | DeepBIM/Helpers/OrientationUtils.cs:39 | the mid parameter is equidistant from both end parameters |
| OrientationUtils.TryAngleFromVector | DeepBIM/Helpers/OrientationUtils.cs:44-51 | fails iff both view-plane components are below 1e-9; otherwise atan2(y, x) |
| OrientationUtils.TryAngleFromCurve | DeepBIM/Helpers/OrientationUtils.cs:36-42 | a null curve fails; otherwise the tangent at the mid parameter decides |
| OrientationUtils.AngleSourcePriority | DeepBIM/Helpers/OrientationUtils.cs:10-20 | null element or view fails; then point rotation, curve, wall orientation, curve element; otherwise fails |
| OrientationUtils.Pivot | DeepBIM/Helpers/OrientationUtils.cs:28-30 | the location point, else the view box centre, else the model box centre |
| OrientationUtils.RotateToSpec | DeepBIM/Helpers/OrientationUtils.cs:22-34 | nothing happens iff no angle or normalised delta below 1e-9; otherwise the rotation is the normalised delta about the pivot |
| MatchOrientation.TryGetAngle | DeepBIM/Commands/MatchOrientationCommand.cs:73-105 | the TextNote-first dispatch gives the same angle as the generic one |
| MatchOrientation.CenterOf | DeepBIM/Commands/MatchOrientationCommand.cs:139-143 | the view box centre, else the model box centre, else the origin |
| MatchOrientation.RotateToSpec | DeepBIM/Commands/MatchOrientationCommand.cs:107-118 | a target rotates iff it has an angle and the normalised delta is at least 1e-9; the rotation is about its point or box centre |
| MatchOrientation.Targets | DeepBIM/Commands/MatchOrientationCommand.cs:34-41 | targets are picked elements, never the base, with no repeated id |
| MatchOrientation.TargetsCover | DeepBIM/Commands/MatchOrientationCommand.cs:34-41 | every picked non-base element is represented by id |
| MatchOrientation.Execute | DeepBIM/Commands/MatchOrientationCommand.cs:26-53 | no base angle: Cancelled, no rotation; no target: Cancelled; otherwise Succeeded with every target's rotation |
| MatchOrientation.RotationsFromTargets | DeepBIM/Commands/MatchOrientationCommand.cs:48-49 | each rotation issued is that of one target |
| MatchOrientation.RotationsMatchBase | DeepBIM/Commands/MatchOrientationCommand.cs:109-117 | each rotation brings its target onto the base angle modulo 2π, by at most π |
| MatchOrientation.RotationsDistinct | DeepBIM/Commands/MatchOrientationCommand.cs:36-49 | no element is rotated twice |
| MatchTagLayout.RoundTrip | DeepBIM/Commands/MatchTagLayoutCommand.cs:152-164 | for orthonormal Right and Up, WorldToRU(RUToWorld(p)) = (p.X, p.Y, 0) |
| MatchTagLayout.OffsetCopies | DeepBIM/Commands/MatchTagLayoutCommand.cs:152-164 | an offset rebuilt from its view coordinates has the same view coordinates |
| MatchTagLayout.LayoutEnd | DeepBIM/Commands/MatchTagLayoutCommand.cs:106-114 | the leader end falls back from LeaderEnd to the elbow to the tagged point |
| MatchTagLayout.TryGetLayout | DeepBIM/Commands/MatchTagLayoutCommand.cs:100-129 | refused without an end; otherwise head - end in view coordinates, and an elbow offset, elbow - end in view coordinates, exactly for a leader with an elbow |
| MatchTagLayout.ApplyLayout | DeepBIM/Commands/MatchTagLayoutCommand.cs:132-150 | head := end + RUToWorld(headOffset); the elbow is set only with HasLeader and an elbow offset |
| MatchTagLayout.LayoutReproduced | DeepBIM/Commands/MatchTagLayoutCommand.cs:119-142 | the copied head sits, in view coordinates relative to the anchor, where the base head sat |
| MatchTagLayout.PickedTags | DeepBIM/Commands/MatchTagLayoutCommand.cs:45-47 | exactly the picked IndependentTags |
| MatchTagLayout.PickedTagsSnoc | DeepBIM/Commands/MatchTagLayoutCommand.cs:45-47 | the tags keep pick order: a further pick adds its tag, if it is one, at the end |
| MatchTagLayout.Targets | DeepBIM/Commands/MatchTagLayoutCommand.cs:45-54 | picked tags other than the base, no repeated id |
| MatchTagLayout.TargetsCover | DeepBIM/Commands/MatchTagLayoutCommand.cs:45-54 | every picked non-base tag is represented |
| MatchTagLayout.Execute | DeepBIM/Commands/MatchTagLayoutCommand.cs:28-68 | no tag base, no layout or no target: Cancelled and nothing changes; otherwise Succeeded, every target gets the base leader flag, head and (with a leader and an elbow) elbow from its own anchor, and every other picked tag is unchanged |
| SheetManager.Suffixed | DeepBIM/ViewModels/SheetManagerViewModel.cs:390 | candidate + "-" + i has the candidate as prefix and digits after the dash |
| SheetManager.SuffixedInjective | DeepBIM/ViewModels/SheetManagerViewModel.cs:390 | different counters give different numbers for the same candidate |
| SheetManager.LongSuffixFree | DeepBIM/ViewModels/SheetManagerViewModel.cs:388-392 | a suffix longer than every existing number is free, so the loop ends |
| SheetManager.FirstFreeSpec | DeepBIM/ViewModels/SheetManagerViewModel.cs:386-393 | the first free attempt from i on: free, and every earlier attempt taken |
| SheetManager.UniqueNumberSpec | DeepBIM/ViewModels/SheetManagerViewModel.cs:384-394 | never an existing number (ignoring case); the candidate if free, else candidate-k for the least k ≥ 2 that is free |
| SheetManager.GetUniqueSheetNumber | DeepBIM/ViewModels/SheetManagerViewModel.cs:384-394 | the while-loop returns UniqueNumber |
| SheetManager.RenameWithoutRules | DeepBIM/ViewModels/SheetManagerViewModel.cs:204-227 | empty find, prefix and suffix keep the current name |
| SheetManager.RenameWithoutMatch | DeepBIM/ViewModels/SheetManagerViewModel.cs:210-224 | a name without Find only gets the prefix and suffix |
| SheetManager.RenameReplaceSelf | DeepBIM/ViewModels/SheetManagerViewModel.cs:210-224 | replacing Find by itself only adds prefix and suffix |
| SheetManager.SheetManagerViewModel.constructor | DeepBIM/ViewModels/SheetManagerViewModel.cs:58-113 | empty rows and rules, ApplyToName on and ApplyToNumber off |
| SheetManager.SheetManagerViewModel.SetApplyToName | DeepBIM/ViewModels/SheetManagerViewModel.cs:102-106 | sets ApplyToName, ApplyToNumber becomes its negation; nothing else changes |
| SheetManager.SheetManagerViewModel.SetApplyToNumber | DeepBIM/ViewModels/SheetManagerViewModel.cs:109-113 | sets ApplyToNumber, ApplyToName becomes its negation; nothing else changes |
| SheetManager.SheetManagerViewModel.SetSelectAll | DeepBIM/ViewModels/SheetManagerViewModel.cs:63-67 | every sheet's check state becomes the value |
| SheetManager.SheetManagerViewModel.ApplyRules | DeepBIM/ViewModels/SheetManagerViewModel.cs:195-229 | refused (notice) unless ApplyToName; otherwise each row's new name is prefix + (current name with Find replaced) + suffix, computed from CurrentName, so applying twice gives the same names |
| SheetManager.SheetManagerViewModel.ExecuteMoveToLeft | DeepBIM/ViewModels/SheetManagerViewModel.cs:231-246 | each given row is removed, the first sheet with its number and name is unchecked, and other sheets keep their state |
| SheetManager.RemoveEachKeepsOthers | DeepBIM/ViewModels/SheetManagerViewModel.cs:233-245 | with distinct rows, a row survives iff it was not given |
| SheetManager.SheetManagerViewModel.MoveCheckedSheetsToRows | DeepBIM/ViewModels/SheetManagerViewModel.cs:249-277 | a notice when nothing is checked; otherwise the old rows stay and a fresh row follows for each checked sheet whose number and name no row has, with NewName = Name and a unique new number |
| SheetManager.MovedKeysNew | DeepBIM/ViewModels/SheetManagerViewModel.cs:259-266 | no added row repeats the number and name of an old or another added row |
| SheetManager.MovedCovers | DeepBIM/ViewModels/SheetManagerViewModel.cs:259-275 | every checked sheet ends up with a row with its number and name |
| SheetManager.RemoveRows | DeepBIM/ViewModels/SheetManagerViewModel.cs:233-245 | the loop of ExecuteMoveToLeft |
| SheetManager.AddRows | DeepBIM/ViewModels/SheetManagerViewModel.cs:259-276 | the loop of MoveCheckedSheetsToRows |
| SheetCreation.CopyAttemptsDistinct | DeepBIM/Views/SheetCreationWindow.xaml.cs:239-241 | no two attempts for the same number coincide |
| SheetCreation.LongCopyFree | DeepBIM/Views/SheetCreationWindow.xaml.cs:237-243 | an attempt longer than every used number is free, so the loop ends |
| SheetCreation.FirstCopySpec | DeepBIM/Views/SheetCreationWindow.xaml.cs:234-245 | the first free attempt from k on: free, and every earlier attempt used |
| SheetCreation.UniqueCopySpec | DeepBIM/Views/SheetCreationWindow.xaml.cs:232-246 | never a used number; the desired number if free, else the first free of "d - Copy", "d - Copy 2", … |
| SheetCreation.GetUniqueSheetNumber | DeepBIM/Views/SheetCreationWindow.xaml.cs:232-246 | the while-loop returns UniqueCopy |
| SheetCreation.CreatePlanSpec | DeepBIM/Views/SheetCreationWindow.xaml.cs:305-335 | one sheet per row with a non-blank trimmed number; created numbers are new and pairwise distinct; the used set is the old numbers plus the created ones |
| SheetCreation.CreatePlanRows | DeepBIM/Views/SheetCreationWindow.xaml.cs:305-335 | the k-th created sheet comes from the k-th wanted row: the first free number for its trimmed number given the numbers used before it, and its trimmed name or "Unnamed" |
| SheetCreation.CreateSheets | DeepBIM/Views/SheetCreationWindow.xaml.cs:305-335 | the loop returns CreatePlan's sheets and createdCount = their number |
| SheetCreation.Target | DeepBIM/Views/SheetCreationWindow.xaml.cs:164-170 | the first sheet with the old number, looked up only for a non-empty old number |
| SheetCreation.RenumberFree | DeepBIM/Views/SheetCreationWindow.xaml.cs:176-180 | a found sheet keeps its own number or gets a free one |
| SheetCreation.UpdateRowSpec | DeepBIM/Views/SheetCreationWindow.xaml.cs:152-209 | with the old number released, each row keeps the used set equal to the document's numbers, with no repeats |
| SheetCreation.UpdateAllSpec | DeepBIM/Views/SheetCreationWindow.xaml.cs:152-209 | over all rows the numbers stay distinct and the counters add up to the wanted rows |
| SheetCreation.StaleNumberBlocksReuse | DeepBIM/Views/SheetCreationWindow.xaml.cs:182-187 | as written, a number renamed away stays used, so a later row asking for it gets " - Copy" |
| SheetCreation.UpdateSheets | DeepBIM/Views/SheetCreationWindow.xaml.cs:152-209 | the update loop, with the old number released, returns UpdateAll's sheets and counters |
| SheetCreation.UpdateFromCells | DeepBIM/Views/SheetCreationWindow.xaml.cs:158-209 | the body of the update loop for one row's cells is UpdateCells, with the old number released (corrected line 186) |
| SheetCreation.UpdateOne | DeepBIM/Views/SheetCreationWindow.xaml.cs:154-209 | one row of the update loop is UpdateRow, with the old number released (corrected line 186) |
| SheetManagerWindow.IndexOf | DeepBIM/Views/SheetManagerWindow.xaml.cs:79 | the first position of the row, or -1 when absent |
| SheetManagerWindow.MoveRowSwaps | DeepBIM/Views/SheetManagerWindow.xaml.cs:79-86 | a row with an in-range new index swaps with its neighbour; at either end it stays |
| SheetManagerWindow.MoveSelectedPermutes | DeepBIM/Views/SheetManagerWindow.xaml.cs:77-87 | the rows afterwards are a permutation of the rows before |
| SheetManagerWindow.MoveSingleRow | DeepBIM/Views/SheetManagerWindow.xaml.cs:79-86 | a single selected row swaps with its neighbour, or stays at the boundary |
| SheetManagerWindow.SelectedRowPresent | DeepBIM/Views/SheetManagerWindow.xaml.cs:79 | a selected row is always still present, so IndexOf never gives -1 |
| SheetManagerWindow.RowGrid.MoveSelectedRows | DeepBIM/Views/SheetManagerWindow.xaml.cs:69-94 | empty selection: no-op; otherwise the rows become MoveSelected (corrected order) and the same rows stay selected |
| SheetManagerWindow.MoveSelectedAsWritten | DeepBIM/Views/SheetManagerWindow.xaml.cs:77-87 | the move as written, visiting bottom up in both directions, only reorders the rows |
| SheetManagerWindow.MoveBlockUp | DeepBIM/Views/SheetManagerWindow.xaml.cs:77-87 | corrected order: moving a selected block up lifts it whole above the row over it |
| SheetManagerWindow.UpMoveAsWrittenUndoesItself | DeepBIM/Views/SheetManagerWindow.xaml.cs:77-87 | as written, moving the two lower rows of three up leaves the grid unchanged |
| Ex1SmartSelection.LoadedSpec | DeepBIM/ViewModels/Ex1SmartSelectionViewModel.cs:89-103 | exactly the listed categories (named, model or annotation, no parent), ordered as OrdinalIgnoreCase orders their names (upper-cased, ordinal) |
| Ex1SmartSelection.CheckedItemsSpec | DeepBIM/ViewModels/Ex1SmartSelectionViewModel.cs:145 | the checked items are exactly the checked items of the list |
| Ex1SmartSelection.NoneCheckedSpec | DeepBIM/ViewModels/Ex1SmartSelectionViewModel.cs:122-126 | the checked count is 0 iff no item is checked |
| Ex1SmartSelection.AllCheckedSpec | DeepBIM/ViewModels/Ex1SmartSelectionViewModel.cs:122-126 | the checked count equals the item count iff every item is checked |
| Ex1SmartSelection.SelectAllStateSpec | DeepBIM/ViewModels/Ex1SmartSelectionViewModel.cs:120-126 | false iff none checked (also empty), true iff non-empty and all checked, null iff mixed |
| Ex1SmartSelection.AnyCheckedIffNotFalse | DeepBIM/ViewModels/Ex1SmartSelectionViewModel.cs:66-84 | the Apply, Color and Clear commands are enabled iff some item is checked, iff the tri-state is not false |
| Ex1SmartSelection.Clamp | DeepBIM/ViewModels/Ex1SmartSelectionViewModel.cs:253 | the result lies in [0, 90], equals the value inside it, and is the bound outside it |
| Ex1SmartSelection.CollectedSpec | DeepBIM/ViewModels/Ex1SmartSelectionViewModel.cs:159-171 | the collected ids are exactly the valid element ids of the checked categories |
| Ex1SmartSelection.AddValidIds | DeepBIM/ViewModels/Ex1SmartSelectionViewModel.cs:166-170 | the inner loop appends exactly the valid ids of one category, in order |
| Ex1SmartSelection.Cap | DeepBIM/ViewModels/Ex1SmartSelectionViewModel.cs:173-177 | the whole list iff it fits, otherwise a prefix of exactly 10 000 ids, that is the first 10 000 |
| Ex1SmartSelection.SelectElements | DeepBIM/ViewModels/Ex1SmartSelectionViewModel.cs:159-177 | the loops compute the capped collection and whether the warning is shown |
| Ex1SmartSelection.SelectionSpec | DeepBIM/ViewModels/Ex1SmartSelectionViewModel.cs:168-177 | never more than 10 000 ids nor an invalid one; the whole collection when not capped, its first 10 000 ids when capped |
| Ex1SmartSelection.SearchViewSpec | DeepBIM/ViewModels/Ex1SmartSelectionViewModel.cs:210-219 | blank search shows all categories; otherwise exactly those whose Display contains the text ignoring case; as a permutation, sorted by Display |
| Ex1SmartSelection.Ex1SmartSelectionViewModel.constructor | DeepBIM/ViewModels/Ex1SmartSelectionViewModel.cs:54-109 | one fresh unchecked item per listed category, all shown, "select all" false, transparency 0 |
| Ex1SmartSelection.Ex1SmartSelectionViewModel.UpdateSelectAllState | DeepBIM/ViewModels/Ex1SmartSelectionViewModel.cs:120-133 | "select all" becomes the tri-state of the visible items |
| Ex1SmartSelection.Ex1SmartSelectionViewModel.SetSelectAll | DeepBIM/ViewModels/Ex1SmartSelectionViewModel.cs:29-46 | a changed true or false reaches every visible item; null or an unchanged value leaves the items alone |
| Ex1SmartSelection.Ex1SmartSelectionViewModel.SetSelectedTransparency | DeepBIM/ViewModels/Ex1SmartSelectionViewModel.cs:246-257 | the transparency becomes Clamp(value) |
| Ex1SmartSelection.Ex1SmartSelectionViewModel.ApplyUI | DeepBIM/ViewModels/Ex1SmartSelectionViewModel.cs:143-189 | nothing checked: a notice and no selection; otherwise the capped valid ids of the checked categories |
| Ex1SmartSelection.Ex1SmartSelectionViewModel.ExecuteSearch | DeepBIM/ViewModels/Ex1SmartSelectionViewModel.cs:210-224 | the view becomes SearchView and "select all" is recomputed for it |
| Ex1SmartSelection.Ex1SmartSelectionViewModel.SetSearchText | DeepBIM/ViewModels/Ex1SmartSelectionViewModel.cs:193-205 | a changed text runs the search; an unchanged one changes nothing |
| SmartSelection.SelectedViewsIsEntireProject | DeepBIM/ViewModels/SmartSelectionViewModel.cs:220-224 | the SelectedViews scope lists what EntireProject lists |
| SmartSelection.CategoryNamesSpec | DeepBIM/ViewModels/SmartSelectionViewModel.cs:171-176 | names are non-empty, pairwise distinct, sorted, each an element's category name, and every non-empty name is listed |
| SmartSelection.CategoryNamesSound | DeepBIM/ViewModels/SmartSelectionViewModel.cs:171-176 | each listed name is a non-empty category name of some element |
| SmartSelection.CategoryNamesCover | DeepBIM/ViewModels/SmartSelectionViewModel.cs:171-176 | every element's non-empty category name is listed |
| SmartSelection.VisibleSpec | DeepBIM/ViewModels/SmartSelectionViewModel.cs:268-278 | a blank search shows every category; otherwise exactly those containing the text ignoring case; a non-category object is rejected |
| SmartSelection.SmartSelectionViewModel.SetSelectAll | DeepBIM/ViewModels/SmartSelectionViewModel.cs:48-62 | every category, shown or not, gets the value |
| SmartSelection.SmartSelectionViewModel.OnCategoryItemChanged | DeepBIM/ViewModels/SmartSelectionViewModel.cs:281-294 | "select all" becomes whether all categories are checked |
| SmartSelection.SmartSelectionViewModel.UpdateCategoriesBasedOnScope | DeepBIM/ViewModels/SmartSelectionViewModel.cs:116-156 | the list is refilled with fresh unchecked items for the scope's names; "select all" holds iff the list is empty |
| SmartSelection.SmartSelectionViewModel.SetSelectionScope | DeepBIM/ViewModels/SmartSelectionViewModel.cs:105-114 | the scope is set and the list refilled for it |
| SmartSelection.SmartSelectionViewModel.SetSearchText | DeepBIM/ViewModels/SmartSelectionViewModel.cs:34-46 | the view is the category list filtered by the new text |
| TagElements.Code | DeepBIM/ViewModels/TagElementsViewModel.cs:17-25 | each option's enum value lies in 1..6 |
| TagElements.ActiveLengthIsEnabledBox | DeepBIM/ViewModels/TagElementsViewModel.cs:376-389 | exactly one IsLenNEnabled holds, and it is the box TryGetActiveMinLengthFeet reads |
| TagElements.MmToFeet | DeepBIM/ViewModels/TagElementsViewModel.cs:372 | feet·304.8 = mm, and the sign is kept |
| TagElements.TryParseMmToFeetSpec | DeepBIM/ViewModels/TagElementsViewModel.cs:365-374 | blank or null succeeds with 0; otherwise succeeds iff the normalised text parses to a non-negative value, giving its feet |
| TagElements.CommaIsDecimalPoint | DeepBIM/ViewModels/TagElementsViewModel.cs:369 | writing points for the commas of a box does not change its result |
| TagElements.LoadPipeTagTypesSpec | DeepBIM/ViewModels/TagElementsViewModel.cs:160-192 | no symbol: the placeholder alone; otherwise the distinct, ordered entries, at least one |
| TagElements.LoadedOrdered | DeepBIM/ViewModels/TagElementsViewModel.cs:184-185 | the loaded names are pairwise distinct and sorted |
| TagElements.LoadedSound | DeepBIM/ViewModels/TagElementsViewModel.cs:179-184 | every entry is the entry of some symbol |
| TagElements.LoadedCover | DeepBIM/ViewModels/TagElementsViewModel.cs:179-185 | every symbol's display name is loaded |
| TagElements.NoFamiliesCannotCreate | DeepBIM/ViewModels/TagElementsViewModel.cs:190-198 | without tag families the only entry cannot create tags |
| TagElements.ProjectOnPlaneSpec | DeepBIM/ViewModels/TagElementsViewModel.cs:392 | for unit n the projection has no component along n, and projecting twice changes nothing |
| TagElements.PlanShape | DeepBIM/ViewModels/TagElementsViewModel.cs:251-322 | a pipe gets 1, 1, 2, 2, 2 or 4 placements, of the listed tag kinds |
| TagElements.PairsAreSymmetric | DeepBIM/ViewModels/TagElementsViewModel.cs:269-319 | paired heads sit at ∓ right·pairGap/2 about the lifted point |
| TagElements.HeadsAreNudgedUp | DeepBIM/ViewModels/TagElementsViewModel.cs:255-319 | with orthonormal up and right, every head is nudgeUp above its anchor |
| TagElements.LongEnoughSpec | DeepBIM/ViewModels/TagElementsViewModel.cs:218-219 | a positive threshold keeps exactly the pipes at least that long, in order; otherwise all |
| TagElements.AttemptStep | DeepBIM/ViewModels/TagElementsViewModel.cs:436-440 | one attempt adds one to created or skipped, and a tag is created only where its head is clear |
| TagElements.TagPipesSpec | DeepBIM/ViewModels/TagElementsViewModel.cs:246-324 | created + skipped = the placements called for (a curveless pipe counts one skip), and every created tag was clear of all earlier tags |
| TagElements.TagElementsViewModel.constructor | DeepBIM/ViewModels/TagElementsViewModel.cs:70-96 | families loaded with the first chosen for both, option 1, Length1 = "2000" and the others empty, default distances |
| TagElements.TagElementsViewModel.SetSelectedOption | DeepBIM/ViewModels/TagElementsViewModel.cs:107-121 | sets the option only |
| TagElements.TagElementsViewModel.CreateTags | DeepBIM/ViewModels/TagElementsViewModel.cs:203-330 | no active view: NoActiveView; no pipes: NoPipesSelected; none long enough: NoPipesLongEnough; otherwise the created/skipped counts and the new tags of the placement run |
| TagElements.PlaceTags | DeepBIM/ViewModels/TagElementsViewModel.cs:242-327 | the transaction loop computes TagPipes |
| TagElements.TagOnePipe | DeepBIM/ViewModels/TagElementsViewModel.cs:251-322 | one pipe's attempts, each adding its tag's box |
| SystemLoadManager.HintIsLastCandidate | DeepBIM/Utils/SystemLoadManager.cs:86-87 | a non-blank hint is the last candidate; a blank one is no candidate |
| SystemLoadManager.ProbeDirsClean | DeepBIM/Utils/SystemLoadManager.cs:90-96 | no blank entry, every entry a candidate, no two equal ignoring case |
| SystemLoadManager.ProbeDirsCover | DeepBIM/Utils/SystemLoadManager.cs:92-96 | every non-blank candidate is represented ignoring case |
| SystemLoadManager.ProbeDirsKeepFirst | DeepBIM/Utils/SystemLoadManager.cs:92-96 | each entry is the first of its case-insensitive class, in the order of first occurrence |
| SystemLoadManager.BuildProbeDirs | DeepBIM/Utils/SystemLoadManager.cs:48-98 | returns ProbeDirs of the candidates |
| SystemLoadManager.Dedup | DeepBIM/Utils/SystemLoadManager.cs:90-97 | the loop over the HashSet computes ProbeDirs |
| SystemLoadManager.FirstHit | DeepBIM/Utils/SystemLoadManager.cs:104-114 | the index of the first existing path, none iff no path exists |
| SystemLoadManager.FirstHitAt | DeepBIM/Utils/SystemLoadManager.cs:104-114 | the first existing path is the one loaded |
| SystemLoadManager.FirstHitNone | DeepBIM/Utils/SystemLoadManager.cs:104-114 | without any existing path nothing is loaded |
| SystemLoadManager.JoinContainsParts | DeepBIM/Utils/SystemLoadManager.cs:117 | every part appears in the joined text |
| SystemLoadManager.TryLoadSpec | DeepBIM/Utils/SystemLoadManager.cs:100-119 | loaded iff some path exists, from the first such; otherwise the message names every tried path |
| SystemLoadManager.TryLoadAssembly | DeepBIM/Utils/SystemLoadManager.cs:100-119 | the loop returns TryLoad |
| SystemLoadManager.LoadXceedToolkit | DeepBIM/Utils/SystemLoadManager.cs:14-20 | loads the Xceed toolkit from the probe folders |
| SystemLoadManager.LoadMaterialDesign | DeepBIM/Utils/SystemLoadManager.cs:26-33 | themes first; the colours are tried only if the themes were found |
| SystemLoadManager.LoadBehaviors | DeepBIM/Utils/SystemLoadManager.cs:38-44 | loads the behaviours library from the probe folders |
| RibbonHelpers.SanitizeNameSpec | DeepBIM/Helpers/RibbonHelpers.cs:117-121 | null reads as ""; no letter or digit gives the GUID; otherwise exactly the letters and digits, in order |
| RibbonHelpers.SanitizeNameIsIdentifier | DeepBIM/Helpers/RibbonHelpers.cs:117-121 | with a GUID fallback the name is non-empty and alphanumeric |
| RibbonHelpers.CleanLabelIsKept | DeepBIM/Helpers/RibbonHelpers.cs:119-120 | an alphanumeric label is its own name |
| RibbonHelpers.SanitizeNameIdempotent | DeepBIM/Helpers/RibbonHelpers.cs:119-120 | sanitizing a sanitized name changes nothing |
| Text.Trim | DeepBIM/Views/SheetCreationWindow.xaml.cs:154-156 | empty iff blank, no whitespace at either end, a slice of the input |
| Text.TrimIdempotent | DeepBIM/Views/SheetCreationWindow.xaml.cs:154-156 | trimming twice trims nothing more |
| Text.ReplaceAllAbsent | DeepBIM/ViewModels/SheetManagerViewModel.cs:212 | Replace leaves a string without the pattern unchanged |
| Text.ReplaceSelf | DeepBIM/ViewModels/SheetManagerViewModel.cs:212 | replacing a pattern by itself changes nothing |
| Text.TrimReplaceChar | DeepBIM/ViewModels/TagElementsViewModel.cs:369 | replacing ',' by '.' commutes with Trim and keeps blankness |
| Text.NatToStringInjective | DeepBIM/ViewModels/SheetManagerViewModel.cs:390 | distinct counters print differently |
| Text.LexLeIsTotalPreorder | DeepBIM/ViewModels/SmartSelectionViewModel.cs:175 | the ordinal string order is total and transitive, as sorting needs |
| Text.FoldsAgree | DeepBIM/Utils/SystemLoadManager.cs:91 | upper-casing and lower-casing make the same strings equal, so either decides OrdinalIgnoreCase equality |
| Text.LetterBeforeUnderscore | DeepBIM/ViewModels/Ex1SmartSelectionViewModel.cs:102 | OrdinalIgnoreCase puts "ax" before "_x", where lower-cased order would put it after |

## Left out

- Revit host operations become inputs and outputs. These are element moves and
  rotations, transactions and rollback, collectors, picking, `get_BoundingBox`,
  `IndependentTag.Create` and `ViewSheet.Create`. Move and rotation results are
  returned as maps and records.
- Numbers are unbounded: the model has no IEEE double rounding, no `int` overflow of the
  suffix counters, no `XYZ.Normalize`, and no curve derivatives (a curve's tangent is a
  given function).
- π is a decimal constant and `atan2` is a parameter.
- `TaskDialog`/`MessageBox` texts, `OnPropertyChanged`, `CommandManager` and
  `RaiseCanExecuteChanged` are not modelled. A notice is a boolean or an outcome case.
- Exceptions and the `catch` branches are not modelled. This includes `AlignElements`'
  catch-all, `RotateTagToPipe`'s catch, and the user pressing Esc during a pick.
- String comparison and character classes are ASCII-only. `char.IsWhiteSpace`,
  `char.IsLetterOrDigit` and case folding are modelled on the ASCII range.
- Culture-sensitive `OrderBy` is modelled by ordinal lexicographic order. This affects
  the category names, the tag family names and `ExecuteSearchCommand`'s `OrderBy(x => x.Display)`.
- `double.TryParse` is a parameter `parse` applied to the normalised text.
- `UnitUtils.ConvertToInternalUnits` is division by 304.8.
- Path.Combine: only the separator rule is modelled, not rooted file names or volume separators.
- `File.Exists` is a predicate parameter. `Assembly.LoadFrom` is the `LoadedFrom` outcome.
- `FileNotFoundException` is the `NotFound` outcome carrying its message.
- The assembly location, code base and application base folders are optional inputs.
  `None` stands for a null value or a lookup that threw.
- `RotateTagToPipe` is not modelled beyond `ProjectOnPlane`. It uses `atan2`, cross
  products and a host rotation.
- The tag family type (`ElementType`) of each placement is modelled as its kind,
  elevation or diameter.
- `ActivateIfNeeded` is not modelled.
- `SetElementIds` on the picked pipes is not modelled.
- The picked pipes are filtered by the pipe category, as the pick filter does.
- The `ActionHandler`/`ExternalEvent` round trip and `RequestClose` are not modelled.
- `TagOption` values outside 1..6 cannot occur in the model.
- `SmartSelectionViewModel`'s constructor is not modelled. Its first
  `SelectionScope` assignment calls `CategoryView.Refresh()` before `CategoryView` is
  assigned, and `_debounceTimer` is never created, so as written it throws.
- `RefreshPreview` is not modelled. It runs on a worker thread with `Thread.Sleep`
  and a made-up element count.
- `SmartSelection.SmartSelectionViewModel.OnCategoryItemChanged` is modelled as a
  method, but the source never subscribes it: the hook loop at
  `SmartSelectionViewModel.cs:259-261` is empty.
- `Ex1SmartSelectionViewModel` reads `CategoryItem.CategoryId`, which the shipped
  `CategoryItem.cs` does not declare. The Ex1 model gives its item a `categoryId`.
- The colour override and "clear overrides" commands are not modelled: they are host
  calls on graphics settings.
- `RehookPropertyEvents` is not modelled. The model calls `UpdateSelectAllState` where
  an item change would.
- The Excel import, `DuplicateSelected`, `DeleteSelectedSheets` and `RenameSheets`
  are not modelled. They are host or file operations.
- `SheetCreation` reads cells as trimmed optional strings. A null cell is `None`.
- SheetManagerWindow: `ScrollIntoView` is not modelled.
- SheetManagerWindow.RowGrid.MoveSelectedRows: it follows the corrected
  visiting order (see Findings). The order as written is `MoveSelectedAsWritten`.
- SheetCreation.UpdateSheets: it releases the sheet's old number (see Findings). The
  behaviour as written is `UpdateRowAsWritten` and `UpdateAllAsWritten`.
- SheetCreation.UpdateOne: one row of the corrected update, releasing the old number; not line 186 as written.
- SheetCreation.UpdateFromCells: the loop body of the corrected update, releasing the old number; not line 186 as written.
- SheetManager.SheetManagerViewModel.constructor: the sheet list is an input in the order it is given; the `OrderBy(SheetNumber, OrdinalIgnoreCase)` of line 131 is not modelled.

## Findings

| source | as written | input that shows it | evidently intended | confidence | as-written member | corrected member |
|---|---|---|---|---|---|---|
| DeepBIM/Views/SheetManagerWindow.xaml.cs:77 | the selected rows are visited from the bottom up for both directions | rows [a, b, c], select b and c, move up: c moves above b, then b (now at the bottom) moves straight back above c, so the grid stays [a, b, c] | a move up visits the rows from the top down, so the block [b, c] rises to [b, c, a] | not executed | SheetManagerWindow.UpMoveAsWrittenUndoesItself | SheetManagerWindow.MoveBlockUp |
| DeepBIM/Views/SheetCreationWindow.xaml.cs:186 | `existingSheetNumbers.Remove(sheetToUpdate.SheetNumber)` runs after the number was reassigned, so it removes the new number and the old number stays used | document with sheet "A"; rows (old "A" → "B") then (new "A"): the second row gets "A - Copy" although no sheet has "A" any more | remove the sheet's old number before assigning the new one, as the comment on that line says | not executed | SheetCreation.StaleNumberBlocksReuse | SheetCreation.UpdateAllSpec |
