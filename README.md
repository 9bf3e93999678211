# Scene consolidation of the crappy-crocodile video analysis

This project models the core of the `init-analysis` service.

The service asks a video annotation service for shot labels and explicit-content frames. It folds
the labelled segments into a TreeSet of `Scene`s. Each scene has bounds, a set of `SceneEntity`
labels and the highest explicit-content likelihood seen in it. It then writes the scenes out as a
text track.

The model covers these parts:

- `Scene` (module `Scenes`), as a class with constant bounds and mutable entities and likelihood.
  Its value view is `SceneValue`. Modelled: `create`, `clone`, `split`, `amendWith`,
  `updateExplicitContentLikelihoodIfContains`, `compareTo`, the time predicates and
  `from(LabelAnnotation)`.
- `Scene.from(Collection)` and `mergeOverlapping` (modules `Scenes` and `Consolidation`). Value
  functions state what the loops compute. Methods over `Scene` objects run the same loops, with
  removals, in-place amendments and re-insertions, and are proved to compute those functions.
- `SceneEntity` (module `SceneEntities`).
- The loop of `InitAnalysisController.initCloudIntel` over the annotation results, with its
  empty-results exception. Also `getBucketName`, both `getBlobName`s and `exportTextTrack`
  (module `InitAnalysis`).
- The label-to-emoji cache of `EmojiConverter` (module `Emoji`).

Representations:

- A `TreeSet<Scene>` is a `map` from bounds (`Key`) to scenes. `TreeSet.add` keeps a present
  scene, and so does `AddAll`.
- Java's null is `None`, and thrown exceptions are `Failure`s (`Wrappers`).
- A `LocalTime` is nanoseconds since midnight.

The code does not keep the scenes free of overlaps, and it merges them as follows:

- The result of `from(Collection)` is not free of overlaps. The segments of one annotation are
  never compared with each other (`Consolidation.ResultMayOverlap`).
- A new scene strictly inside an existing one only removes the existing scene. None of the split
  pieces has the new scene's bounds, so the filter keeps none
  (`Consolidation.PairStepStrictlyInside`).
- `split(a, b)` gives `[start, a]`, `[start, b]` and `[b, end]`, because the recursion splits the
  whole scene again (`Scenes.SplitTwoPoints`).
- A new scene that crosses one end of an existing scene replaces it by the new scene's part
  outside it alone, unless a scene with that part's bounds is already in the set: `addAll`
  keeps the scene already present, so then the existing scene is only removed
  (`Consolidation.PairStepStartsBefore`, `Consolidation.PairStepEndsAfter`).
- Once some new scene overlaps an existing one, a new scene that overlaps nothing is dropped,
  because that branch only adds pieces of splits. Existing `[0 s, 10 s]` against new
  `[0 s, 10 s]` and `[20 s, 30 s]` gives `[0 s, 10 s]` alone
  (`Consolidation.OverlapDropsDisjointScene`).

## Model

| member | source | states |
|---|---|---|
| Times.OfDuration | src/init-analysis/src/main/java/com/netstream/ch/lab/crappy_crocodile/init/analysis/Scene.java:53-54 | a Duration converts to a time of day exactly when its seconds lie in one day and its nanos in one second, and the time has those seconds and nanos |
| Times.OfDurationRoundTrip | src/init-analysis/src/main/java/com/netstream/ch/lab/crappy_crocodile/init/analysis/Scene.java:53-54 | every time of day comes from exactly one valid Duration |
| Likelihoods.Rank | src/init-analysis/src/main/java/com/netstream/ch/lab/crappy_crocodile/init/analysis/Scene.java:202 | getNumber() ranks the six likelihoods 0 to 5 |
| Likelihoods.RankInjective | src/init-analysis/src/main/java/com/netstream/ch/lab/crappy_crocodile/init/analysis/Scene.java:202 | the rank determines the likelihood |
| Likelihoods.Raise | src/init-analysis/src/main/java/com/netstream/ch/lab/crappy_crocodile/init/analysis/Scene.java:202-204 | the "take the other if it ranks higher" update yields one of the two, with the higher rank |
| Likelihoods.RaiseCommutes | src/init-analysis/src/main/java/com/netstream/ch/lab/crappy_crocodile/init/analysis/Scene.java:202-204 | two raises can be done in either order |
| Likelihoods.RaiseIdempotent | src/init-analysis/src/main/java/com/netstream/ch/lab/crappy_crocodile/init/analysis/Scene.java:202-204 | raising twice with one candidate is raising once |
| SceneEntities.Create | src/init-analysis/src/main/java/com/netstream/ch/lab/crappy_crocodile/init/analysis/SceneEntity.java:24-32 | the two-argument factory keeps confidence and entity and has no categories |
| SceneEntities.CreateWithCategories | src/init-analysis/src/main/java/com/netstream/ch/lab/crappy_crocodile/init/analysis/SceneEntity.java:34-40 | a null collection gives no categories; otherwise the categories are exactly the collection's elements |
| SceneEntities.Equals | src/init-analysis/src/main/java/com/netstream/ch/lab/crappy_crocodile/init/analysis/SceneEntity.java:89-99 | equals holds exactly when confidence, entity and categories agree |
| SceneEntities.DistinctConfidencesAreDistinctMembers | src/init-analysis/src/main/java/com/netstream/ch/lab/crappy_crocodile/init/analysis/SceneEntity.java:96 | the same label at two confidences gives two set members |
| SceneEntities.Descriptions | src/init-analysis/src/main/java/com/netstream/ch/lab/crappy_crocodile/init/analysis/SceneEntity.java:47-48 | the descriptions of the categories, one per category, in order |
| SceneEntities.ToDescription | src/init-analysis/src/main/java/com/netstream/ch/lab/crappy_crocodile/init/analysis/SceneEntity.java:42-53 | the text starts with the label; it is the label alone exactly when categories are not asked for or there are none |
| SceneEntities.CategoriesListed | src/init-analysis/src/main/java/com/netstream/ch/lab/crappy_crocodile/init/analysis/SceneEntity.java:44-51 | with categories, when no category description contains "/", the bracketed part split at "/" gives each category description once, in iteration order |
| Texts.SplitJoin | src/init-analysis/src/main/java/com/netstream/ch/lab/crappy_crocodile/init/analysis/SceneEntity.java:49 | splitting a joining at a separator no part contains gives the parts back |
| Texts.JoinSplit | src/init-analysis/src/main/java/com/netstream/ch/lab/crappy_crocodile/init/analysis/InitAnalysisController.java:155 | joining the fields of a split with the split character gives the text back |
| Scenes.CompareTimes | src/init-analysis/src/main/java/com/netstream/ch/lab/crappy_crocodile/init/analysis/Scene.java:212-213 | LocalTime.compareTo is -1, 0 or 1 by the order of the times |
| Scenes.CompareTo | src/init-analysis/src/main/java/com/netstream/ch/lab/crappy_crocodile/init/analysis/Scene.java:209-217 | compareTo is negative, zero or positive exactly when the bounds are less, equal or greater by start then end |
| Scenes.CompareToIsStrictTotalOrder | src/init-analysis/src/main/java/com/netstream/ch/lab/crappy_crocodile/init/analysis/Scene.java:209-217 | compareTo is antisymmetric, transitive and zero only on equal bounds |
| Scenes.MinKey | src/init-analysis/src/main/java/com/netstream/ch/lab/crappy_crocodile/init/analysis/Scene.java:116 | a non-empty set of bounds has a least member |
| Scenes.SortedKeys | src/init-analysis/src/main/java/com/netstream/ch/lab/crappy_crocodile/init/analysis/Scene.java:116 | the TreeSet iteration order lists each bound exactly once |
| Scenes.SortedKeysAscending | src/init-analysis/src/main/java/com/netstream/ch/lab/crappy_crocodile/init/analysis/Scene.java:116 | the TreeSet iteration order is strictly ascending by compareTo |
| Scenes.SortedPair | src/init-analysis/src/main/java/com/netstream/ch/lab/crappy_crocodile/init/analysis/Scene.java:116 | two bounds are iterated smaller first |
| Scenes.WithinIsHalfOpenMembership | src/init-analysis/src/main/java/com/netstream/ch/lab/crappy_crocodile/init/analysis/Scene.java:227-237 | on an interval of positive length, startsWithin is membership of the start in [start, end); endsWithin of the end in (start, end] |
| Scenes.MatchesTimeImpliesOverlaps | src/init-analysis/src/main/java/com/netstream/ch/lab/crappy_crocodile/init/analysis/Scene.java:219-225 | scenes with matching times overlap each other |
| Scenes.ContainerDoesNotOverlapContained | src/init-analysis/src/main/java/com/netstream/ch/lab/crappy_crocodile/init/analysis/Scene.java:223-237 | overlaps is not symmetric: a container does not overlap what it strictly contains, the contained one does overlap it, provided the contained scene does not end before it starts |
| Scenes.OverlapsEitherWayIsIntersection | src/init-analysis/src/main/java/com/netstream/ch/lab/crappy_crocodile/init/analysis/Scene.java:223-237 | for scenes of positive length, overlapping one way or the other is sharing a stretch of positive length |
| Scenes.AddAll | src/init-analysis/src/main/java/com/netstream/ch/lab/crappy_crocodile/init/analysis/Scene.java:113 | TreeSet.addAll adds the bounds that are absent and never replaces a present scene |
| Scenes.Amend | src/init-analysis/src/main/java/com/netstream/ch/lab/crappy_crocodile/init/analysis/Scene.java:199-207 | matching times unite the entities and raise the likelihood; otherwise nothing changes; the bounds stay |
| Scenes.AmendNeverLowers | src/init-analysis/src/main/java/com/netstream/ch/lab/crappy_crocodile/init/analysis/Scene.java:199-207 | amendWith never loses an entity nor lowers the likelihood |
| Scenes.AmendIdempotent | src/init-analysis/src/main/java/com/netstream/ch/lab/crappy_crocodile/init/analysis/Scene.java:199-207 | amending twice with the same scene is amending once |
| Scenes.AmendWithSelf | src/init-analysis/src/main/java/com/netstream/ch/lab/crappy_crocodile/init/analysis/Scene.java:199-207 | amending a scene with itself changes nothing |
| Scenes.AmendCommutes | src/init-analysis/src/main/java/com/netstream/ch/lab/crappy_crocodile/init/analysis/Scene.java:199-207 | two amendments can be done in either order |
| Scenes.CloneOf | src/init-analysis/src/main/java/com/netstream/ch/lab/crappy_crocodile/init/analysis/Scene.java:173-178 | a clone has the new bounds and the same entities and likelihood |
| Scenes.SplitAt | src/init-analysis/src/main/java/com/netstream/ch/lab/crappy_crocodile/init/analysis/Scene.java:180-192 | the pieces of a split are filed under their own bounds |
| Scenes.Split | src/init-analysis/src/main/java/com/netstream/ch/lab/crappy_crocodile/init/analysis/Scene.java:180-197 | a null array gives the scene itself, an empty array throws, otherwise the pieces of SplitAt |
| Scenes.SplitPieces | src/init-analysis/src/main/java/com/netstream/ch/lab/crappy_crocodile/init/analysis/Scene.java:180-192 | the pieces are [start, p] for every point p and [last point, end], each a clone |
| Scenes.SplitTwoPoints | src/init-analysis/src/main/java/com/netstream/ch/lab/crappy_crocodile/init/analysis/Scene.java:186-192 | split(a, b) gives [start, a], [start, b] and [b, end] |
| Scenes.SplitAtOne | src/init-analysis/src/main/java/com/netstream/ch/lab/crappy_crocodile/init/analysis/Scene.java:183-185 | one point t gives [start, t] and [t, end] |
| Scenes.StrictlyInsideAddsNothing | src/init-analysis/src/main/java/com/netstream/ch/lab/crappy_crocodile/init/analysis/Scene.java:121-127 | no piece of split(new.start, new.end) has the new scene's times, so the strictly-inside branch adds nothing |
| Scenes.NoneAmended | src/init-analysis/src/main/java/com/netstream/ch/lab/crappy_crocodile/init/analysis/Scene.java:158-165 | when no original piece matches the new scene, the first group of mergeOverlapping is empty |
| Scenes.OneKept | src/init-analysis/src/main/java/com/netstream/ch/lab/crappy_crocodile/init/analysis/Scene.java:166-168 | when one new piece does not end within the original, the second group is that piece |
| Scenes.MergeIsOneNewPiece | src/init-analysis/src/main/java/com/netstream/ch/lab/crappy_crocodile/init/analysis/Scene.java:154-170 | then mergeOverlapping is that single new piece |
| Scenes.MergeWhenNewStartsBefore | src/init-analysis/src/main/java/com/netstream/ch/lab/crappy_crocodile/init/analysis/Scene.java:128-133 | a new scene starting before and ending inside leaves only its part before the existing start |
| Scenes.MergeWhenNewEndsAfter | src/init-analysis/src/main/java/com/netstream/ch/lab/crappy_crocodile/init/analysis/Scene.java:134-139 | a new scene starting inside and ending after leaves only its part after the existing end |
| Scenes.CreateBounds | src/init-analysis/src/main/java/com/netstream/ch/lab/crappy_crocodile/init/analysis/Scene.java:50-64 | the bounds create gives: both converted with a start, a null end then throwing; midnight without a start; no end without either; out-of-range offsets throw |
| Scenes.SegmentScene | src/init-analysis/src/main/java/com/netstream/ch/lab/crappy_crocodile/init/analysis/Scene.java:66-72 | a segment gives the scene of its bounds with exactly its label and an unspecified likelihood, or DateTimeException |
| Scenes.KeptSegments | src/init-analysis/src/main/java/com/netstream/ch/lab/crappy_crocodile/init/analysis/Scene.java:89 | the segments kept are exactly those whose confidence reaches the threshold |
| Scenes.CollectScenes | src/init-analysis/src/main/java/com/netstream/ch/lab/crappy_crocodile/init/analysis/Scene.java:87-96 | collected scenes are filed under their own bounds; a failure is a DateTimeException |
| Scenes.FromAnnotation | src/init-analysis/src/main/java/com/netstream/ch/lab/crappy_crocodile/init/analysis/Scene.java:74-102 | null or no segments give no scene; the result is well keyed; a failure is a DateTimeException |
| Scenes.FirstWithKey | src/init-analysis/src/main/java/com/netstream/ch/lab/crappy_crocodile/init/analysis/Scene.java:87-96 | the first segment with given bounds |
| Scenes.CollectScenesKeys | src/init-analysis/src/main/java/com/netstream/ch/lab/crappy_crocodile/init/analysis/Scene.java:87-96 | well-formed segments always collect, into exactly the bounds of some segment |
| Scenes.CollectScenesFirstWins | src/init-analysis/src/main/java/com/netstream/ch/lab/crappy_crocodile/init/analysis/Scene.java:87-96 | each collected scene holds the label of the first segment with its bounds |
| Scenes.FirstWithKeyPrefix | src/init-analysis/src/main/java/com/netstream/ch/lab/crappy_crocodile/init/analysis/Scene.java:87-96 | appending a segment keeps the first index of bounds already present |
| Scenes.FromSeveralSegments | src/init-analysis/src/main/java/com/netstream/ch/lab/crappy_crocodile/init/analysis/Scene.java:86-97 | several segments, those reaching the threshold well formed, give one scene per bounds reaching the threshold, with the first such segment's label; segments below the threshold are never converted |
| Scenes.FromTwoSegments | src/init-analysis/src/main/java/com/netstream/ch/lab/crappy_crocodile/init/analysis/Scene.java:86-97 | two well-formed segments reaching the threshold give exactly the scenes of their two bounds |
| Scenes.BelowThresholdNotConverted | src/init-analysis/src/main/java/com/netstream/ch/lab/crappy_crocodile/init/analysis/Scene.java:88-95 | a segment below the threshold whose offsets are past the end of the day throws nothing: [0 s, 10 s] at 0.9 and [90000 s, 90010 s] at 0.1, threshold 0.5, give the one scene [0 s, 10 s] |
| Scenes.FromSingleSegment | src/init-analysis/src/main/java/com/netstream/ch/lab/crappy_crocodile/init/analysis/Scene.java:77-85 | a single segment gives its scene whatever its confidence |
| Scenes.CollectScenesFails | src/init-analysis/src/main/java/com/netstream/ch/lab/crappy_crocodile/init/analysis/Scene.java:90-96 | collecting fails exactly when some segment has an offset out of range |
| Scenes.ContainsIsClosedInterval | src/init-analysis/src/main/java/com/netstream/ch/lab/crappy_crocodile/init/analysis/Scene.java:244-246 | for a scene that does not end before it starts, the frame test is membership of the closed interval [start, end] |
| Scenes.ApplyFrame | src/init-analysis/src/main/java/com/netstream/ch/lab/crappy_crocodile/init/analysis/Scene.java:239-252 | a null frame changes nothing; a bad offset throws; otherwise the likelihood becomes the frame's exactly when it lies inside and ranks higher |
| Scenes.ApplyFrameIdempotent | src/init-analysis/src/main/java/com/netstream/ch/lab/crappy_crocodile/init/analysis/Scene.java:239-252 | applying one frame twice is applying it once |
| Scenes.ApplyFramesCommute | src/init-analysis/src/main/java/com/netstream/ch/lab/crappy_crocodile/init/analysis/Scene.java:239-252 | two frames can be applied in either order |
| Scenes.Scene.constructor | src/init-analysis/src/main/java/com/netstream/ch/lab/crappy_crocodile/init/analysis/Scene.java:39-48 | a new scene has the given bounds, no entities and an unspecified likelihood |
| Scenes.Scene.Create | src/init-analysis/src/main/java/com/netstream/ch/lab/crappy_crocodile/init/analysis/Scene.java:50-64 | a fresh scene with the bounds of CreateBounds, or its exception |
| Scenes.Scene.CreateWithEntity | src/init-analysis/src/main/java/com/netstream/ch/lab/crappy_crocodile/init/analysis/Scene.java:66-72 | the created scene holding exactly the one SceneEntity |
| Scenes.Scene.Clone | src/init-analysis/src/main/java/com/netstream/ch/lab/crappy_crocodile/init/analysis/Scene.java:173-178 | a fresh scene with the new bounds and this scene's entities and likelihood |
| Scenes.Scene.AmendWith | src/init-analysis/src/main/java/com/netstream/ch/lab/crappy_crocodile/init/analysis/Scene.java:199-207 | the scene takes the state Amend gives and returns itself |
| Scenes.Scene.UpdateExplicitContentLikelihoodIfContains | src/init-analysis/src/main/java/com/netstream/ch/lab/crappy_crocodile/init/analysis/Scene.java:239-252 | the scene takes the state ApplyFrame gives and returns its likelihood; on a bad offset nothing changes |
| Scenes.AbsAddAll | src/init-analysis/src/main/java/com/netstream/ch/lab/crappy_crocodile/init/analysis/Scene.java:113 | addAll on scene objects is AddAll on their states |
| Scenes.MatchesTime | src/init-analysis/src/main/java/com/netstream/ch/lab/crappy_crocodile/init/analysis/Scene.java:219-221 | equal start and end; its behaviour is stated by `Scenes.MatchesTimeImpliesOverlaps`: scenes with the same bounds overlap |
| Scenes.StartsWithin | src/init-analysis/src/main/java/com/netstream/ch/lab/crappy_crocodile/init/analysis/Scene.java:227-231 | the same start, or strictly after the other's start and before its end; when the other scene has positive length this is membership of [start, end), as `Scenes.WithinIsHalfOpenMembership` states |
| Scenes.EndsWithin | src/init-analysis/src/main/java/com/netstream/ch/lab/crappy_crocodile/init/analysis/Scene.java:233-237 | the same end, or strictly after the other's start and before its end; when the other scene has positive length this is membership of (start, end], as `Scenes.WithinIsHalfOpenMembership` states |
| Scenes.Overlaps | src/init-analysis/src/main/java/com/netstream/ch/lab/crappy_crocodile/init/analysis/Scene.java:223-225 | starts or ends within the other; for scenes of positive length, `Scenes.OverlapsEitherWayIsIntersection` states that overlap one way or the other is sharing a stretch of positive length, and `Scenes.ContainerDoesNotOverlapContained` that it is not symmetric: a scene strictly containing another does not overlap it |
| Scenes.MergeOverlapping | src/init-analysis/src/main/java/com/netstream/ch/lab/crappy_crocodile/init/analysis/Scene.java:154-170 | the two filtered splits added together; `Scenes.MergeIsOneNewPiece`, `Scenes.MergeWhenNewStartsBefore` and `Scenes.MergeWhenNewEndsAfter` state that the result is the one part of the new scene outside the existing one |
| Scenes.AmendedWithCounterparts | src/init-analysis/src/main/java/com/netstream/ch/lab/crappy_crocodile/init/analysis/Scene.java:158-165 | pieces of the existing split with the new scene's bounds, amended with the new split's piece of the same bounds; `Scenes.NoneAmended` states that for a crossing scene it is empty |
| Scenes.NotEndingWithin | src/init-analysis/src/main/java/com/netstream/ch/lab/crappy_crocodile/init/analysis/Scene.java:166-168 | pieces of the new split that do not end within the existing scene; `Scenes.OneKept` states which single piece remains |
| Scenes.AmendedMatches | src/init-analysis/src/main/java/com/netstream/ch/lab/crappy_crocodile/init/analysis/Scene.java:121-127 | pieces with the new scene's bounds, amended with it; `Scenes.StrictlyInsideAddsNothing` states that for a strictly contained new scene it is empty |
| Scenes.Contains | src/init-analysis/src/main/java/com/netstream/ch/lab/crappy_crocodile/init/analysis/Scene.java:244-246 | a frame offset on or between the bounds; `Scenes.ContainsIsClosedInterval` states that, for a scene that does not end before it starts, it is membership of the closed interval |
| Scenes.Materialize | src/init-analysis/src/main/java/com/netstream/ch/lab/crappy_crocodile/init/analysis/Scene.java:173-178 | stands for no source operation: the fresh copies the model makes of each annotation's scenes and at the end of from(Collection) (see Left out); it gives fresh scene objects holding exactly the given states |
| Consolidation.Replacement | src/init-analysis/src/main/java/com/netstream/ch/lab/crappy_crocodile/init/analysis/Scene.java:121-139 | the pieces that replace a split scene are filed under their own bounds |
| Consolidation.PairStep | src/init-analysis/src/main/java/com/netstream/ch/lab/crappy_crocodile/init/analysis/Scene.java:117-142 | one pair never changes the bounds of the scene in hand; what each branch does is stated by the PairStep case lemmas below |
| Consolidation.ScenePass | src/init-analysis/src/main/java/com/netstream/ch/lab/crappy_crocodile/init/analysis/Scene.java:116-144 | the inner loop never changes the bounds of the scene in hand; its effect is stated by ScenePassCoherent and ScenePassKeepsOthers |
| Consolidation.OverlapKeys | src/init-analysis/src/main/java/com/netstream/ch/lab/crappy_crocodile/init/analysis/Scene.java:109-111 | the overlapping scenes are exactly the existing ones some new scene overlaps |
| Consolidation.SortedValues | src/init-analysis/src/main/java/com/netstream/ch/lab/crappy_crocodile/init/analysis/Scene.java:116 | the new scenes in TreeSet order |
| Consolidation.Consolidate | src/init-analysis/src/main/java/com/netstream/ch/lab/crappy_crocodile/init/analysis/Scene.java:104-152 | null or no annotations give an empty set |
| Consolidation.PairStepMatching | src/init-analysis/src/main/java/com/netstream/ch/lab/crappy_crocodile/init/analysis/Scene.java:117-118 | matching bounds amend the scene in hand, and the set's member with it while it is attached |
| Consolidation.PairStepStrictlyInside | src/init-analysis/src/main/java/com/netstream/ch/lab/crappy_crocodile/init/analysis/Scene.java:120-127 | a new scene strictly inside only removes the existing scene |
| Consolidation.PairStepStartsBefore | src/init-analysis/src/main/java/com/netstream/ch/lab/crappy_crocodile/init/analysis/Scene.java:128-133 | a new scene starting before replaces the existing one by the new scene's part before it, unless a scene with those bounds is already in the set, since addAll keeps the present scene; then the existing scene is only removed |
| Consolidation.PairStepEndsAfter | src/init-analysis/src/main/java/com/netstream/ch/lab/crappy_crocodile/init/analysis/Scene.java:134-139 | a new scene ending after replaces the existing one by the new scene's part after it, unless a scene with those bounds is already in the set, since addAll keeps the present scene; then the existing scene is only removed |
| Consolidation.PairStepPutsBack | src/init-analysis/src/main/java/com/netstream/ch/lab/crappy_crocodile/init/analysis/Scene.java:140-142 | any other non-matching pair puts the scene in hand back unchanged |
| Consolidation.PairStepCoherent | src/init-analysis/src/main/java/com/netstream/ch/lab/crappy_crocodile/init/analysis/Scene.java:117-142 | one pair keeps the set well keyed and the scene in hand coherent with it |
| Consolidation.ScenePassSnoc | src/init-analysis/src/main/java/com/netstream/ch/lab/crappy_crocodile/init/analysis/Scene.java:116 | one more new scene is one more pair step |
| Consolidation.ScenePassCoherent | src/init-analysis/src/main/java/com/netstream/ch/lab/crappy_crocodile/init/analysis/Scene.java:116-144 | the inner loop keeps the set well keyed and coherent |
| Consolidation.ProcessOverlappingWellKeyed | src/init-analysis/src/main/java/com/netstream/ch/lab/crappy_crocodile/init/analysis/Scene.java:115-145 | the outer loop keeps the set well keyed |
| Consolidation.FoldAnnotationWellKeyed | src/init-analysis/src/main/java/com/netstream/ch/lab/crappy_crocodile/init/analysis/Scene.java:107-146 | one annotation keeps the set well keyed |
| Consolidation.FoldAnnotationsWellKeyed | src/init-analysis/src/main/java/com/netstream/ch/lab/crappy_crocodile/init/analysis/Scene.java:104-152 | from(Collection) gives every scene under its own bounds |
| Consolidation.PairStepKeepsOthers | src/init-analysis/src/main/java/com/netstream/ch/lab/crappy_crocodile/init/analysis/Scene.java:117-142 | one pair changes nothing but the bounds in hand and the pieces it adds |
| Consolidation.ScenePassKeepsOthers | src/init-analysis/src/main/java/com/netstream/ch/lab/crappy_crocodile/init/analysis/Scene.java:116-144 | the inner loop changes nothing but the bounds in hand and the pieces it adds |
| Consolidation.ProcessOverlappingKeepsOthers | src/init-analysis/src/main/java/com/netstream/ch/lab/crappy_crocodile/init/analysis/Scene.java:115-145 | the outer loop keeps every scene that does not overlap |
| Consolidation.UntouchedScenesKept | src/init-analysis/src/main/java/com/netstream/ch/lab/crappy_crocodile/init/analysis/Scene.java:109-146 | a scene no new scene overlaps comes out of the annotation unchanged |
| Consolidation.NoOverlapAddsVerbatim | src/init-analysis/src/main/java/com/netstream/ch/lab/crappy_crocodile/init/analysis/Scene.java:112-113 | without overlap the two sets are disjoint and the result is their union |
| Consolidation.ConsolidateOne | src/init-analysis/src/main/java/com/netstream/ch/lab/crappy_crocodile/init/analysis/Scene.java:104-113 | one annotation gives exactly its own scenes |
| Consolidation.SegmentsNeverCompared | src/init-analysis/src/main/java/com/netstream/ch/lab/crappy_crocodile/init/analysis/Scene.java:107-113 | segments of one annotation are never compared: when those reaching the threshold are well formed, every one of them keeps its scene |
| Consolidation.ResultMayOverlap | src/init-analysis/src/main/java/com/netstream/ch/lab/crappy_crocodile/init/analysis/Scene.java:104-113 | segments [0 s, 10 s] and [5 s, 15 s] of one annotation both stay, and they overlap |
| Consolidation.FoldOneOverlap | src/init-analysis/src/main/java/com/netstream/ch/lab/crappy_crocodile/init/analysis/Scene.java:109-145 | when one existing scene overlaps, the annotation's effect is that scene's pass over the new scenes in ascending order |
| Consolidation.AmendThenPutBack | src/init-analysis/src/main/java/com/netstream/ch/lab/crappy_crocodile/init/analysis/Scene.java:117-142 | the scene in hand, alone in the set, amended by its own bounds and then met by bounds that neither match nor split it, is put back alone |
| Consolidation.SoleOverlapDropsOthers | src/init-analysis/src/main/java/com/netstream/ch/lab/crappy_crocodile/init/analysis/Scene.java:109-145 | a set of one scene met by its own bounds and later bounds that neither overlap nor split it keeps only that scene: the later new scene is dropped |
| Consolidation.ConsolidateTwo | src/init-analysis/src/main/java/com/netstream/ch/lab/crappy_crocodile/init/analysis/Scene.java:107-146 | two annotations that convert: the second's scenes merged into the first's |
| Consolidation.OverlapDropsDisjointScene | src/init-analysis/src/main/java/com/netstream/ch/lab/crappy_crocodile/init/analysis/Scene.java:107-146 | existing [0 s, 10 s] met by new [0 s, 10 s] and [20 s, 30 s] gives [0 s, 10 s] alone, though [20 s, 30 s] overlaps nothing |
| Consolidation.ProcessOverlapping | src/init-analysis/src/main/java/com/netstream/ch/lab/crappy_crocodile/init/analysis/Scene.java:115-145 | one turn per overlapping scene in the given order; `Consolidation.ProcessOverlappingWellKeyed` states that the keys stay the bounds of their scenes and `Consolidation.ProcessOverlappingKeepsOthers` that scenes no new scene reaches are kept, and `Consolidation.TakeTurns` runs it on objects |
| Consolidation.Turn | src/init-analysis/src/main/java/com/netstream/ch/lab/crappy_crocodile/init/analysis/Scene.java:116-144 | one outer iteration: the pass of all new scenes against one overlapping scene; its steps are stated by the `Consolidation.ScenePass` and `Consolidation.PairStep` lemmas |
| Consolidation.FoldAnnotation | src/init-analysis/src/main/java/com/netstream/ch/lab/crappy_crocodile/init/analysis/Scene.java:109-146 | one annotation merged into the set; `Consolidation.UntouchedScenesKept` and `Consolidation.NoOverlapAddsVerbatim` state what it keeps and adds, and `Consolidation.LateFirstKeepsLate` with `Consolidation.EarlyFirstKeepsBoth` that the result depends on the order |
| Consolidation.FoldAnnotations | src/init-analysis/src/main/java/com/netstream/ch/lab/crappy_crocodile/init/analysis/Scene.java:107-146 | all annotations merged in turn; `Consolidation.FoldAnnotationsWellKeyed`, `Consolidation.FailureSticks` and `Consolidation.From` state its properties |
| Consolidation.ProcessOverlappingTwo | src/init-analysis/src/main/java/com/netstream/ch/lab/crappy_crocodile/init/analysis/Scene.java:115-145 | with two overlapping scenes, the result is the turn of the second after the turn of the first |
| Consolidation.EarlyTurn | src/init-analysis/src/main/java/com/netstream/ch/lab/crappy_crocodile/init/analysis/Scene.java:115-145 | existing [5 s, 10 s] met by new [5 s, 15 s] then [6 s, 8 s]: the first starts at the same time, so no branch applies and it is put back; the second lies strictly inside and removes it |
| Consolidation.LateTurn | src/init-analysis/src/main/java/com/netstream/ch/lab/crappy_crocodile/init/analysis/Scene.java:115-145 | existing [10 s, 20 s] met by new [5 s, 15 s] then [6 s, 8 s]: the first starts before and ends inside, so it is replaced by the piece [5 s, 10 s] cut from [5 s, 15 s], which a scene already there keeps out; the second ends before it starts, so it is put back |
| Consolidation.OrderExampleTurns | src/init-analysis/src/main/java/com/netstream/ch/lab/crappy_crocodile/init/analysis/Scene.java:109-145 | with existing scenes [5 s, 10 s] and [10 s, 20 s], both overlap a new scene, so the fold is their two turns in the given order |
| Consolidation.LateFirstKeepsLate | src/init-analysis/src/main/java/com/netstream/ch/lab/crappy_crocodile/init/analysis/Scene.java:109-146 | taking [10 s, 20 s] first leaves {[10 s, 20 s]} alone: the piece [5 s, 10 s] loses to the scene already there, which the second turn then removes |
| Consolidation.EarlyFirstKeepsBoth | src/init-analysis/src/main/java/com/netstream/ch/lab/crappy_crocodile/init/analysis/Scene.java:109-146 | taking [5 s, 10 s] first leaves {[5 s, 10 s] cut from [5 s, 15 s], [10 s, 20 s]} |
| Consolidation.FailureSticks | src/init-analysis/src/main/java/com/netstream/ch/lab/crappy_crocodile/init/analysis/Scene.java:107-108 | the first failing annotation decides the result |
| Consolidation.MergeOverlappingWellKeyed | src/init-analysis/src/main/java/com/netstream/ch/lab/crappy_crocodile/init/analysis/Scene.java:154-170 | the pieces mergeOverlapping returns are filed under their own bounds |
| Consolidation.AmendInHand | src/init-analysis/src/main/java/com/netstream/ch/lab/crappy_crocodile/init/analysis/Scene.java:117-118 | amendWith on the scene in hand changes the set's states only at its bounds, and only while attached |
| Consolidation.Replace | src/init-analysis/src/main/java/com/netstream/ch/lab/crappy_crocodile/init/analysis/Scene.java:120-139 | removing a scene and adding fresh pieces is AddAll of the pieces to the rest |
| Consolidation.PutBack | src/init-analysis/src/main/java/com/netstream/ch/lab/crappy_crocodile/init/analysis/Scene.java:140-142 | re-adding the scene in hand makes it the member at its bounds |
| Consolidation.ProcessPair | src/init-analysis/src/main/java/com/netstream/ch/lab/crappy_crocodile/init/analysis/Scene.java:117-142 | the inner loop body on objects does what PairStep says to the set and the scene in hand |
| Consolidation.SortedStates | src/init-analysis/src/main/java/com/netstream/ch/lab/crappy_crocodile/init/analysis/Scene.java:116 | the states in TreeSet order are those of the members in that order |
| Consolidation.PassStep | src/init-analysis/src/main/java/com/netstream/ch/lab/crappy_crocodile/init/analysis/Scene.java:116-144 | one turn of the inner loop takes ScenePass one scene further |
| Consolidation.ScenePassOver | src/init-analysis/src/main/java/com/netstream/ch/lab/crappy_crocodile/init/analysis/Scene.java:116-144 | the inner loop on objects computes ScenePass and keeps every other member |
| Consolidation.OverlapTurn | src/init-analysis/src/main/java/com/netstream/ch/lab/crappy_crocodile/init/analysis/Scene.java:115-145 | one turn of the outer loop takes ProcessOverlapping one scene further |
| Consolidation.TakeTurns | src/init-analysis/src/main/java/com/netstream/ch/lab/crappy_crocodile/init/analysis/Scene.java:115-145 | the outer loop on objects computes ProcessOverlapping |
| Consolidation.MergeAnnotation | src/init-analysis/src/main/java/com/netstream/ch/lab/crappy_crocodile/init/analysis/Scene.java:109-146 | one annotation on objects computes FoldAnnotation |
| Consolidation.AddAnnotation | src/init-analysis/src/main/java/com/netstream/ch/lab/crappy_crocodile/init/analysis/Scene.java:107-146 | an annotation's scenes merged into the set, or the DateTimeException of from(annotation) |
| Consolidation.From | src/init-analysis/src/main/java/com/netstream/ch/lab/crappy_crocodile/init/analysis/Scene.java:104-152 | from(Collection) on objects: fresh scenes whose states are Consolidate's result, or its exception |
| InitAnalysis.ApplyFrames | src/init-analysis/src/main/java/com/netstream/ch/lab/crappy_crocodile/init/analysis/InitAnalysisController.java:86-88 | every explicit-content frame applied to every scene; `InitAnalysis.ApplyFramesHighest` and `InitAnalysis.ApplyFramesKeeps` state that each scene ends with the highest likelihood among its own and those of the frames inside it, and that no scene, key or label changes |
| InitAnalysis.ResultStep | src/init-analysis/src/main/java/com/netstream/ch/lab/crappy_crocodile/init/analysis/InitAnalysisController.java:85-88 | one result's scenes added and its frames applied; `InitAnalysis.ResultStepKeeps` and `InitAnalysis.AddResult` state its effect |
| InitAnalysis.GatherAll | src/init-analysis/src/main/java/com/netstream/ch/lab/crappy_crocodile/init/analysis/InitAnalysisController.java:83-90 | all results processed in order; `InitAnalysis.GatherFailureSticks` and `InitAnalysis.GatherScenes` state that a failure ends the loop and what the scenes are |
| InitAnalysis.GetBucketName | src/init-analysis/src/main/java/com/netstream/ch/lab/crappy_crocodile/init/analysis/InitAnalysisController.java:129-136 | the bucket of a `gs://` URL; `InitAnalysis.GetBucketNameMatches` states when it is found and what it is |
| InitAnalysis.GetVideoBlobName | src/init-analysis/src/main/java/com/netstream/ch/lab/crappy_crocodile/init/analysis/InitAnalysisController.java:147-149 | the video id and the file name joined by `/`; `InitAnalysis.GetVideoBlobNameSplits` states that, for an id without `/`, splitting it at `/` gives the id followed by the file name's parts |
| InitAnalysis.FrameAll | src/init-analysis/src/main/java/com/netstream/ch/lab/crappy_crocodile/init/analysis/InitAnalysisController.java:87 | a frame on every scene throws exactly when there is a scene and the offset is out of range; it keeps the bounds |
| InitAnalysis.Gather | src/init-analysis/src/main/java/com/netstream/ch/lab/crappy_crocodile/init/analysis/InitAnalysisController.java:77-81 | no results throw "Could not detect anything in " and the video id |
| InitAnalysis.FrameAllKeeps | src/init-analysis/src/main/java/com/netstream/ch/lab/crappy_crocodile/init/analysis/InitAnalysisController.java:87 | a frame removes no scene, changes no label and lowers no likelihood |
| InitAnalysis.ApplyFramesKeeps | src/init-analysis/src/main/java/com/netstream/ch/lab/crappy_crocodile/init/analysis/InitAnalysisController.java:86-88 | the frames of a result remove no scene, change no label and lower no likelihood |
| InitAnalysis.FrameAllCommutes | src/init-analysis/src/main/java/com/netstream/ch/lab/crappy_crocodile/init/analysis/InitAnalysisController.java:86-88 | two frames can be applied to every scene in either order |
| InitAnalysis.Highest | src/init-analysis/src/main/java/com/netstream/ch/lab/crappy_crocodile/init/analysis/InitAnalysisController.java:86-88 | the highest rank of a scene and the frames inside it is at least the scene's own |
| InitAnalysis.ApplyFrameHighest | src/init-analysis/src/main/java/com/netstream/ch/lab/crappy_crocodile/init/analysis/Scene.java:239-252 | one frame takes a scene to the highest rank seen so far |
| InitAnalysis.ApplyFramesHighest | src/init-analysis/src/main/java/com/netstream/ch/lab/crappy_crocodile/init/analysis/InitAnalysisController.java:86-88 | after the frames every scene has the highest rank of its own and the frames inside it |
| InitAnalysis.ResultStepKeeps | src/init-analysis/src/main/java/com/netstream/ch/lab/crappy_crocodile/init/analysis/InitAnalysisController.java:84-89 | a result keeps every scene gathered so far, with its labels, and lowers no likelihood |
| InitAnalysis.GatherFailureSticks | src/init-analysis/src/main/java/com/netstream/ch/lab/crappy_crocodile/init/analysis/InitAnalysisController.java:84-89 | an exception from one result ends the loop |
| InitAnalysis.FrameOne | src/init-analysis/src/main/java/com/netstream/ch/lab/crappy_crocodile/init/analysis/InitAnalysisController.java:87 | one scene's update, on objects, changes the set's states at that scene's bounds only, as ApplyFrame says, or throws for a bad offset |
| InitAnalysis.ApplyFrameToAll | src/init-analysis/src/main/java/com/netstream/ch/lab/crappy_crocodile/init/analysis/InitAnalysisController.java:87 | forEach over the scenes on objects computes FrameAll, or throws its exception |
| InitAnalysis.ApplyFramesToAll | src/init-analysis/src/main/java/com/netstream/ch/lab/crappy_crocodile/init/analysis/InitAnalysisController.java:86-88 | the frames of a result on objects compute ApplyFrames |
| InitAnalysis.ApplyFramesFailureSticks | src/init-analysis/src/main/java/com/netstream/ch/lab/crappy_crocodile/init/analysis/InitAnalysisController.java:86-88 | a frame that throws ends the loop over the frames |
| InitAnalysis.AddResult | src/init-analysis/src/main/java/com/netstream/ch/lab/crappy_crocodile/init/analysis/InitAnalysisController.java:85-88 | one result on objects computes ResultStep |
| InitAnalysis.GatherScenes | src/init-analysis/src/main/java/com/netstream/ch/lab/crappy_crocodile/init/analysis/InitAnalysisController.java:77-91 | initCloudIntel after the service call: the exception for no results, otherwise fresh scenes whose states are GatherAll's result |
| InitAnalysis.ObjectPathSplitsAtFirstDot | src/init-analysis/src/main/java/com/netstream/ch/lab/crappy_crocodile/init/analysis/InitAnalysisController.java:37 | the path and extension groups of the pattern can only split at the first dot |
| InitAnalysis.GcsUrlParts | src/init-analysis/src/main/java/com/netstream/ch/lab/crappy_crocodile/init/analysis/InitAnalysisController.java:37 | in scheme, bucket, "/" and the rest, the first slash after the scheme is the one after the bucket |
| InitAnalysis.MatchGivesBucket | src/init-analysis/src/main/java/com/netstream/ch/lab/crappy_crocodile/init/analysis/InitAnalysisController.java:129-136 | a URL matching the pattern gives its group 1 |
| InitAnalysis.BucketGivesMatch | src/init-analysis/src/main/java/com/netstream/ch/lab/crappy_crocodile/init/analysis/InitAnalysisController.java:129-136 | a returned bucket is group 1 of a match |
| InitAnalysis.GetBucketNameMatches | src/init-analysis/src/main/java/com/netstream/ch/lab/crappy_crocodile/init/analysis/InitAnalysisController.java:129-136 | getBucketName returns a bucket exactly when the URL matches with that bucket as group 1 |
| InitAnalysis.GetBucketNameNone | src/init-analysis/src/main/java/com/netstream/ch/lab/crappy_crocodile/init/analysis/InitAnalysisController.java:129-136 | getBucketName returns null exactly when the URL does not match |
| InitAnalysis.GetBlobName | src/init-analysis/src/main/java/com/netstream/ch/lab/crappy_crocodile/init/analysis/InitAnalysisController.java:138-145 | a blob name exists exactly when a bucket does |
| InitAnalysis.GetBlobNameRejoins | src/init-analysis/src/main/java/com/netstream/ch/lab/crappy_crocodile/init/analysis/InitAnalysisController.java:138-145 | scheme, bucket, slash and blob name make the URL again |
| InitAnalysis.GetBlobNameOfUrl | src/init-analysis/src/main/java/com/netstream/ch/lab/crappy_crocodile/init/analysis/InitAnalysisController.java:138-145 | a URL built from a bucket and an object path gives them back |
| InitAnalysis.GetVideoBlobNameSplits | src/init-analysis/src/main/java/com/netstream/ch/lab/crappy_crocodile/init/analysis/InitAnalysisController.java:147-149 | the id before the first slash is the video id, then the file name's fields |
| InitAnalysis.TrackLines | src/init-analysis/src/main/java/com/netstream/ch/lab/crappy_crocodile/init/analysis/InitAnalysisController.java:153-154 | one line per scene, in ascending order of bounds |
| InitAnalysis.ExportTextTrack | src/init-analysis/src/main/java/com/netstream/ch/lab/crappy_crocodile/init/analysis/InitAnalysisController.java:151-159 | null scenes give null, otherwise a track |
| InitAnalysis.ExportTextTrackEmpty | src/init-analysis/src/main/java/com/netstream/ch/lab/crappy_crocodile/init/analysis/InitAnalysisController.java:151-155 | no scenes give the empty track |
| InitAnalysis.ExportTextTrackLines | src/init-analysis/src/main/java/com/netstream/ch/lab/crappy_crocodile/init/analysis/InitAnalysisController.java:153-155 | lines without newlines split back out of the track, in ascending order |
| Emoji.ConvertedOnlyGrows | src/init-analysis/src/main/java/com/netstream/ch/lab/crappy_crocodile/init/analysis/EmojiConverter.java:48-75 | the cache only grows, by the label at most, and no entry is overwritten |
| Emoji.ConvertedKeepsFaithful | src/init-analysis/src/main/java/com/netstream/ch/lab/crappy_crocodile/init/analysis/EmojiConverter.java:50-57 | a cache of service answers stays a cache of service answers |
| Emoji.ConvertedCacheInvisible | src/init-analysis/src/main/java/com/netstream/ch/lab/crappy_crocodile/init/analysis/EmojiConverter.java:48-75 | with such a cache every call answers what the service says for the label, or the shrug |
| Emoji.ConvertedTwice | src/init-analysis/src/main/java/com/netstream/ch/lab/crappy_crocodile/init/analysis/EmojiConverter.java:48-75 | a second call for the same entity gives the same emoji and cache |
| Emoji.IntendedOnlyGrows | src/init-analysis/src/main/java/com/netstream/ch/lab/crappy_crocodile/init/analysis/EmojiConverter.java:59-66 | the corrected loop also only grows the cache, by the label at most |
| Emoji.CategoryEmojiDiscarded | src/init-analysis/src/main/java/com/netstream/ch/lab/crappy_crocodile/init/analysis/EmojiConverter.java:59-69 | a category emoji is discarded: the shrug is returned, which no intended outcome does |
| Emoji.DogAnimalExample | src/init-analysis/src/main/java/com/netstream/ch/lab/crappy_crocodile/init/analysis/EmojiConverter.java:59-69 | "Dog" with category "Animal" having an emoji gets the shrug |
| Emoji.EmojiConverter.constructor | src/init-analysis/src/main/java/com/netstream/ch/lab/crappy_crocodile/init/analysis/EmojiConverter.java:41 | a new converter has an empty cache |
| Emoji.Converted | src/init-analysis/src/main/java/com/netstream/ch/lab/crappy_crocodile/init/analysis/EmojiConverter.java:48-75 | the emoji and the new cache for one entity; `Emoji.ConvertedOnlyGrows`, `Emoji.ConvertedCacheInvisible` and `Emoji.EmojiConverter.ConvertToEmoji` state that the cache only grows and, while it holds only the service's answers, never changes the answer |
| Emoji.EmojiConverter.ConvertToEmoji | src/init-analysis/src/main/java/com/netstream/ch/lab/crappy_crocodile/init/analysis/EmojiConverter.java:48-75 | convertToEmoji as written: the result and the new cache are Converted's, a hit asks the service nothing, a miss asks once |
| Emoji.EmojiConverter.ConvertToEmojiIntended | src/init-analysis/src/main/java/com/netstream/ch/lab/crappy_crocodile/init/analysis/EmojiConverter.java:48-75 | the corrected loop gives an intended outcome |

## Left out

- `lookUp` and `HttpGetWithEntity` in `EmojiConverter`: an HTTP request and a JSON parse. `lookUp` is the function parameter `lookUp` of `Emoji`.
- The annotation service call, Pub/Sub decoding, Gson, Cloud Storage and `finalize`: network and storage I/O. The results of the service call are the parameter `results` of `GatherScenes`.
- `toTextTrackLine`, `toEmojiTrackLine` and `toString`: they need `LocalTime.toString` formatting and HashSet order. A track line is the parameter `line` of `ExportTextTrack`.
- HashSet iteration order is not modelled. It is the parameter `order`, required to enumerate each set. The order matters: existing scenes [5 s, 10 s] and [10 s, 20 s] against new scenes [5 s, 15 s] and [6 s, 8 s] give {[10 s, 20 s]} when [10 s, 20 s] is taken first (`Consolidation.LateFirstKeepsLate`), and {[5 s, 10 s] cut from [5 s, 15 s], [10 s, 20 s]} when [5 s, 10 s] is taken first (`Consolidation.EarlyFirstKeepsBoth`). `IsEnumeration` is the only requirement on it.
- The confidence threshold read from the environment is the parameter `threshold`. The float confidence is a `real`, so float rounding is not modelled.
- An `Entity` is reduced to its description.
- Scenes with a null end (created from two null offsets) are never filed in a TreeSet by the modelled code. The object-level methods require closed scenes (`SceneSet`).
- `Consolidation.AddAnnotation`: it merges each annotation into fresh copies of the running set's scenes. `From` and `GatherScenes` return fresh objects. So object identity across annotations is not kept; only the states are. Within one annotation every amendment and removal is done in place on the objects.
- `InitAnalysis.ApplyFrameToAll`: it visits the scenes in ascending order. Java's `forEach` order over a TreeSet is the same.
- `InitAnalysis.ExportTextTrackLines`: it requires lines without newlines. Real track lines contain newlines, so for them the lemma only says how the track is joined.
- The `groupCount() > 1` test in `getBucketName` always holds, since the pattern has three groups. It is folded into `GetBucketName`.

## Findings

| source | as written | input that shows it | evidently intended | confidence | as-written member | corrected member |
|---|---|---|---|---|---|---|
| src/init-analysis/src/main/java/com/netstream/ch/lab/crappy_crocodile/init/analysis/EmojiConverter.java:59-63 | the category loop calls `lookUp` only `if (emoji != null)`, while `emoji` is null there, so categories are never tried | label "Dog" unknown to the service, category "Animal" known to it: the shrug is returned | `if (emoji == null)`: try the categories until one has an emoji, and cache it under the label | not executed | Emoji.CategoryEmojiDiscarded | Emoji.EmojiConverter.ConvertToEmojiIntended |
