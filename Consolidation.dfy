/**
 * Scene.from(Collection<LabelAnnotation>): the scenes of each annotation in turn are merged
 * into a TreeSet of scenes. New scenes that overlap nothing go in as they are; otherwise every
 * existing scene that some new scene overlaps is matched against each new scene, amended in
 * place, or removed and replaced by pieces of a split.
 *
 * The value-level functions below state what the loops compute; the methods at the end run
 * the same loops over Scene objects and are proved to agree with them.
 */
module Consolidation {
  import opened Wrappers
  import opened Times
  import opened Likelihoods
  import opened Seqs
  import opened SceneEntities
  import opened Scenes

  // ---------------------------------------------------------------------------------------------
  // One existing scene against one new scene
  // ---------------------------------------------------------------------------------------------

  /**
   * The state while one overlapping scene meets the new scenes: the set of scenes, the state
   * of the overlapping scene object, and whether that object is still the member of the set
   * at its bounds. The object stays in hand after `scenes.remove(scene)`, and amendWith keeps
   * changing it, so both are tracked.
   */
  datatype Work = Work(scenes: map<Key, SceneValue>, cur: SceneValue, attached: bool)

  /** The new scene lies strictly inside the existing one. */
  predicate StrictlyInside(n: Key, c: Key)
  {
    n.start > c.start && n.end < c.end
  }

  /** The new scene starts before the existing one and ends inside it. */
  predicate StartsBefore(n: Key, c: Key)
  {
    n.start < c.start && n.end > c.start && n.end < c.end
  }

  /** The new scene starts inside the existing one and ends after it. */
  predicate EndsAfter(n: Key, c: Key)
  {
    n.start < c.end && n.start > c.start && n.end > c.end
  }

  /** The matching pieces of a split are filed under their own bounds. */
  lemma AmendedMatchesWellKeyed(pieces: map<Key, SceneValue>, newScene: SceneValue)
    requires WellKeyed(pieces)
    ensures WellKeyed(AmendedMatches(pieces, newScene))
  {
    forall k | k in AmendedMatches(pieces, newScene) ensures AmendedMatches(pieces, newScene)[k].key == k {
      assert AmendedMatches(pieces, newScene)[k].key == pieces[k].key;
    }
  }

  /** The pieces mergeOverlapping returns are filed under their own bounds. */
  lemma MergeOverlappingWellKeyed(originalScene: SceneValue, originalSplit: map<Key, SceneValue>,
                                  newScene: SceneValue, newSplit: map<Key, SceneValue>)
    requires WellKeyed(originalSplit) && WellKeyed(newSplit)
    ensures WellKeyed(MergeOverlapping(originalScene, originalSplit, newScene, newSplit))
  {
    var amended := AmendedWithCounterparts(originalSplit, newScene, newSplit);
    var kept := NotEndingWithin(newSplit, originalScene);
    assert WellKeyed(amended) by {
      forall k | k in amended ensures amended[k].key == k {
        assert amended[k].key == originalSplit[k].key;
      }
    }
    assert WellKeyed(kept);
  }

  /** The new scene lies in one of the three ways that make the scene in hand split. */
  predicate Splits(n: Key, c: Key)
  {
    StrictlyInside(n, c) || StartsBefore(n, c) || EndsAfter(n, c)
  }

  /**
   * The pieces that replace the scene in hand: the matching pieces of its split when the new
   * scene lies strictly inside it, otherwise what mergeOverlapping makes of both splits.
   */
  function Replacement(cur: SceneValue, n: SceneValue): (r: map<Key, SceneValue>)
    requires Splits(n.key, cur.key)
    ensures WellKeyed(r)
  {
    if StrictlyInside(n.key, cur.key) then
      AmendedMatchesWellKeyed(SplitAt(cur, [n.key.start, n.key.end]), n);
      AmendedMatches(SplitAt(cur, [n.key.start, n.key.end]), n)
    else if StartsBefore(n.key, cur.key) then
      MergeOverlappingWellKeyed(cur, SplitAt(cur, [n.key.end]), n, SplitAt(n, [cur.key.start]));
      MergeOverlapping(cur, SplitAt(cur, [n.key.end]), n, SplitAt(n, [cur.key.start]))
    else
      MergeOverlappingWellKeyed(cur, SplitAt(cur, [n.key.start]), n, SplitAt(n, [cur.key.end]));
      MergeOverlapping(cur, SplitAt(cur, [n.key.start]), n, SplitAt(n, [cur.key.end]))
  }

  /**
   * The body of the inner loop of from(Collection) for the scene in hand and one new scene.
   * Matching bounds amend the scene in hand. Otherwise the scene's bounds are removed from the
   * set and, by how the two lie, the set gains the pieces that replace the scene, or the scene
   * itself back.
   */
  function PairStep(w: Work, n: SceneValue): (r: Work)
    ensures r.cur.key == w.cur.key
  {
    var cur := w.cur;
    if MatchesTime(cur.key, n.key) then
      var amended := Amend(cur, n);
      Work(if w.attached then w.scenes[cur.key := amended] else w.scenes, amended, w.attached)
    else if Splits(n.key, cur.key) then
      Work(AddAll(w.scenes - {cur.key}, Replacement(cur, n)), cur, false)
    else
      Work(AddAll(w.scenes - {cur.key}, map[cur.key := cur]), cur, true)
  }

  /** The inner loop: the scene in hand against each new scene, in ascending order. */
  function ScenePass(w: Work, newScenes: seq<SceneValue>): (r: Work)
    ensures r.cur.key == w.cur.key
  {
    if newScenes == [] then w
    else PairStep(ScenePass(w, newScenes[..|newScenes| - 1]), newScenes[|newScenes| - 1])
  }

  // ---------------------------------------------------------------------------------------------
  // One annotation
  // ---------------------------------------------------------------------------------------------

  /** The bounds of the existing scenes that some new scene overlaps. */
  function OverlapKeys(existing: set<Key>, newKeys: set<Key>): (r: set<Key>)
    ensures r <= existing
    ensures forall k :: k in r <==> k in existing && exists n :: n in newKeys && Overlaps(k, n)
  {
    set k | k in existing && exists n :: n in newKeys && Overlaps(k, n)
  }

  /** The states of a map of scenes, in ascending order of bounds. */
  function SortedValues(m: map<Key, SceneValue>): (r: seq<SceneValue>)
    ensures |r| == |m|
    ensures forall i :: 0 <= i < |r| ==> r[i] == m[SortedKeys(m.Keys)[i]]
  {
    var keys := SortedKeys(m.Keys);
    seq(|keys|, i requires 0 <= i < |keys| => m[keys[i]])
  }

  /**
   * The outer loop over the overlapping scenes, taken in `order`. Each turn starts with the
   * overlapping scene's state at the time the overlapping set was built, the object still in
   * the set. A key of `order` that names no overlapping scene is skipped.
   */
  function ProcessOverlapping(scenes: map<Key, SceneValue>, overlapping: map<Key, SceneValue>,
                              order: seq<Key>, newScenes: seq<SceneValue>): map<Key, SceneValue>
  {
    if order == [] then scenes
    else Turn(ProcessOverlapping(scenes, overlapping, order[..|order| - 1], newScenes), overlapping,
              order[|order| - 1], newScenes)
  }

  /** One turn of the outer loop: the overlapping scene at `k`, in hand, against every new scene. */
  function Turn(scenes: map<Key, SceneValue>, overlapping: map<Key, SceneValue>, k: Key,
                newScenes: seq<SceneValue>): map<Key, SceneValue>
  {
    if k in overlapping then ScenePass(Work(scenes, overlapping[k], true), newScenes).scenes
    else scenes
  }

  /**
   * One turn of the loop over the annotations: no overlap adds every new scene; otherwise the
   * overlapping scenes are processed in the order the HashSet that holds them yields, which
   * depends on the states of those scenes.
   */
  function FoldAnnotation(scenes: map<Key, SceneValue>, newScenes: map<Key, SceneValue>,
                          order: map<Key, SceneValue> -> seq<Key>): map<Key, SceneValue>
  {
    var overlap := OverlapKeys(scenes.Keys, newScenes.Keys);
    if overlap == {} then AddAll(scenes, newScenes)
    else
      var overlapping := map k | k in overlap :: scenes[k];
      ProcessOverlapping(scenes, overlapping, order(overlapping), SortedValues(newScenes))
  }

  /** The loop over the annotations, from an empty set; the first failing annotation throws. */
  function FoldAnnotations(annotations: seq<LabelAnnotation>, threshold: real,
                           order: map<Key, SceneValue> -> seq<Key>): Result<map<Key, SceneValue>, Error>
  {
    if annotations == [] then Success(map[])
    else
      match FoldAnnotations(annotations[..|annotations| - 1], threshold, order)
      case Failure(e) => Failure(e)
      case Success(scenes) =>
        match FromAnnotation(Some(annotations[|annotations| - 1]), threshold)
        case Failure(e) => Failure(e)
        case Success(newScenes) => Success(FoldAnnotation(scenes, newScenes, order))
  }

  /**
   * Scene.from(Collection<LabelAnnotation>), None standing for null: no annotations give an
   * empty set.
   */
  function Consolidate(annotations: Option<seq<LabelAnnotation>>, threshold: real,
                       order: map<Key, SceneValue> -> seq<Key>): (r: Result<map<Key, SceneValue>, Error>)
    ensures annotations.None? || annotations.value == [] ==> r == Success(map[])
  {
    if annotations.None? || annotations.value == [] then Success(map[])
    else FoldAnnotations(annotations.value, threshold, order)
  }

  // ---------------------------------------------------------------------------------------------
  // What one pair does
  // ---------------------------------------------------------------------------------------------

  /** Matching bounds amend the scene in hand, and the set's member with it while attached. */
  lemma PairStepMatching(w: Work, n: SceneValue)
    requires MatchesTime(w.cur.key, n.key)
    ensures var r := PairStep(w, n);
      && r.attached == w.attached
      && r.cur.entities == w.cur.entities + n.entities
      && Rank(r.cur.likelihood) >= Rank(w.cur.likelihood) && Rank(r.cur.likelihood) >= Rank(n.likelihood)
      && (w.attached ==> r.scenes.Keys == w.scenes.Keys + {w.cur.key} && r.scenes[w.cur.key] == r.cur)
      && (!w.attached ==> r.scenes == w.scenes)
  {
  }

  /** A new scene strictly inside the scene in hand only removes it from the set. */
  lemma PairStepStrictlyInside(w: Work, n: SceneValue)
    requires !MatchesTime(w.cur.key, n.key) && StrictlyInside(n.key, w.cur.key)
    ensures PairStep(w, n) == Work(w.scenes - {w.cur.key}, w.cur, false)
  {
    StrictlyInsideAddsNothing(w.cur, n);
  }

  /**
   * A new scene starting before the scene in hand and ending inside it replaces it by the new
   * scene's part before it, unless a scene with those bounds is already in the set.
   */
  lemma PairStepStartsBefore(w: Work, n: SceneValue)
    requires !MatchesTime(w.cur.key, n.key) && !StrictlyInside(n.key, w.cur.key) && StartsBefore(n.key, w.cur.key)
    ensures var piece := Key(n.key.start, w.cur.key.start);
      PairStep(w, n) == Work(AddAll(w.scenes - {w.cur.key}, map[piece := CloneOf(n, piece.start, piece.end)]), w.cur, false)
  {
    MergeWhenNewStartsBefore(w.cur, n);
  }

  /**
   * A new scene starting inside the scene in hand and ending after it replaces it by the new
   * scene's part after it, unless a scene with those bounds is already in the set.
   */
  lemma PairStepEndsAfter(w: Work, n: SceneValue)
    requires !MatchesTime(w.cur.key, n.key) && !StrictlyInside(n.key, w.cur.key) && !StartsBefore(n.key, w.cur.key)
    requires EndsAfter(n.key, w.cur.key)
    ensures var piece := Key(w.cur.key.end, n.key.end);
      PairStep(w, n) == Work(AddAll(w.scenes - {w.cur.key}, map[piece := CloneOf(n, piece.start, piece.end)]), w.cur, false)
  {
    MergeWhenNewEndsAfter(w.cur, n);
  }

  /** In every other non-matching case the scene in hand goes back into the set, unchanged. */
  lemma PairStepPutsBack(w: Work, n: SceneValue)
    requires !MatchesTime(w.cur.key, n.key) && !StrictlyInside(n.key, w.cur.key)
    requires !StartsBefore(n.key, w.cur.key) && !EndsAfter(n.key, w.cur.key)
    ensures var r := PairStep(w, n);
      && r.attached && r.cur == w.cur
      && r.scenes.Keys == w.scenes.Keys + {w.cur.key}
      && r.scenes[w.cur.key] == w.cur
      && (forall k :: k in w.scenes && k != w.cur.key ==> r.scenes[k] == w.scenes[k])
  {
  }

  // ---------------------------------------------------------------------------------------------
  // Invariants of the fold
  // ---------------------------------------------------------------------------------------------

  /** While the set is well keyed and the scene in hand is the state at its bounds, so it stays. */
  ghost predicate Coherent(w: Work)
  {
    WellKeyed(w.scenes) && (w.attached ==> w.cur.key in w.scenes && w.scenes[w.cur.key] == w.cur)
  }

  /** One pair keeps the set well keyed and the scene in hand coherent with it. */
  lemma PairStepCoherent(w: Work, n: SceneValue)
    requires WellKeyed(w.scenes)
    ensures WellKeyed(PairStep(w, n).scenes)
    ensures Coherent(w) ==> Coherent(PairStep(w, n))
  {
  }

  /** The inner loop over one more new scene takes one more pair step. */
  lemma ScenePassSnoc(w: Work, newScenes: seq<SceneValue>, j: nat)
    requires j < |newScenes|
    ensures ScenePass(w, newScenes[..j + 1]) == PairStep(ScenePass(w, newScenes[..j]), newScenes[j])
  {
    assert newScenes[..j + 1][..j] == newScenes[..j];
  }

  /** The inner loop keeps the set well keyed and the scene in hand coherent with it. */
  lemma {:induction false} ScenePassCoherent(w: Work, newScenes: seq<SceneValue>)
    requires WellKeyed(w.scenes)
    ensures WellKeyed(ScenePass(w, newScenes).scenes)
    ensures Coherent(w) ==> Coherent(ScenePass(w, newScenes))
  {
    if newScenes != [] {
      var init := newScenes[..|newScenes| - 1];
      ScenePassCoherent(w, init);
      PairStepCoherent(ScenePass(w, init), newScenes[|newScenes| - 1]);
    }
  }

  /** The outer loop keeps the set well keyed when the scenes it starts from are the set's own. */
  lemma {:induction false} ProcessOverlappingWellKeyed(scenes: map<Key, SceneValue>, overlapping: map<Key, SceneValue>,
                                                       order: seq<Key>, newScenes: seq<SceneValue>)
    requires WellKeyed(scenes) && WellKeyed(overlapping)
    ensures WellKeyed(ProcessOverlapping(scenes, overlapping, order, newScenes))
  {
    if order != [] {
      var init := order[..|order| - 1];
      ProcessOverlappingWellKeyed(scenes, overlapping, init, newScenes);
      var k := order[|order| - 1];
      if k in overlapping {
        ScenePassCoherent(Work(ProcessOverlapping(scenes, overlapping, init, newScenes), overlapping[k], true), newScenes);
      }
    }
  }

  /** Merging one annotation keeps the set well keyed. */
  lemma FoldAnnotationWellKeyed(scenes: map<Key, SceneValue>, newScenes: map<Key, SceneValue>,
                                order: map<Key, SceneValue> -> seq<Key>)
    requires WellKeyed(scenes) && WellKeyed(newScenes)
    ensures WellKeyed(FoldAnnotation(scenes, newScenes, order))
  {
    var overlap := OverlapKeys(scenes.Keys, newScenes.Keys);
    if overlap != {} {
      var overlapping := map k | k in overlap :: scenes[k];
      ProcessOverlappingWellKeyed(scenes, overlapping, order(overlapping), SortedValues(newScenes));
    }
  }

  /** from(Collection) yields a well-formed TreeSet: every scene filed under its own bounds. */
  lemma {:induction false} FoldAnnotationsWellKeyed(annotations: seq<LabelAnnotation>, threshold: real,
                                                    order: map<Key, SceneValue> -> seq<Key>)
    ensures FoldAnnotations(annotations, threshold, order).Success? ==>
      WellKeyed(FoldAnnotations(annotations, threshold, order).value)
  {
    if annotations != [] {
      var init := annotations[..|annotations| - 1];
      FoldAnnotationsWellKeyed(init, threshold, order);
      var prior := FoldAnnotations(init, threshold, order);
      var added := FromAnnotation(Some(annotations[|annotations| - 1]), threshold);
      if prior.Success? && added.Success? {
        FoldAnnotationWellKeyed(prior.value, added.value, order);
      }
    }
  }

  // ---------------------------------------------------------------------------------------------
  // Scenes the annotation does not touch
  // ---------------------------------------------------------------------------------------------

  /** One pair changes nothing but the bounds of the scene in hand and the pieces it adds. */
  lemma PairStepKeepsOthers(w: Work, n: SceneValue, k: Key)
    requires k in w.scenes && k != w.cur.key
    ensures k in PairStep(w, n).scenes && PairStep(w, n).scenes[k] == w.scenes[k]
  {
  }

  /** The inner loop changes nothing but the bounds of the scene in hand and the pieces it adds. */
  lemma {:induction false} ScenePassKeepsOthers(w: Work, newScenes: seq<SceneValue>, k: Key)
    requires k in w.scenes && k != w.cur.key
    ensures k in ScenePass(w, newScenes).scenes && ScenePass(w, newScenes).scenes[k] == w.scenes[k]
  {
    if newScenes != [] {
      var init := newScenes[..|newScenes| - 1];
      ScenePassKeepsOthers(w, init, k);
      PairStepKeepsOthers(ScenePass(w, init), newScenes[|newScenes| - 1], k);
    }
  }

  /** The outer loop never replaces nor removes a scene that does not overlap. */
  lemma {:induction false} ProcessOverlappingKeepsOthers(scenes: map<Key, SceneValue>, overlapping: map<Key, SceneValue>,
                                                         order: seq<Key>, newScenes: seq<SceneValue>, k: Key)
    requires WellKeyed(overlapping)
    requires k in scenes && k !in overlapping
    ensures var r := ProcessOverlapping(scenes, overlapping, order, newScenes);
      k in r && r[k] == scenes[k]
  {
    if order != [] {
      var init := order[..|order| - 1];
      ProcessOverlappingKeepsOthers(scenes, overlapping, init, newScenes, k);
      var last := order[|order| - 1];
      if last in overlapping {
        ScenePassKeepsOthers(Work(ProcessOverlapping(scenes, overlapping, init, newScenes), overlapping[last], true),
                             newScenes, k);
      }
    }
  }

  /** An existing scene that no new scene overlaps comes out of one annotation unchanged. */
  lemma UntouchedScenesKept(scenes: map<Key, SceneValue>, newScenes: map<Key, SceneValue>,
                            order: map<Key, SceneValue> -> seq<Key>, k: Key)
    requires WellKeyed(scenes)
    requires k in scenes && forall n :: n in newScenes ==> !Overlaps(k, n)
    ensures k in FoldAnnotation(scenes, newScenes, order)
    ensures FoldAnnotation(scenes, newScenes, order)[k] == scenes[k]
  {
    var overlap := OverlapKeys(scenes.Keys, newScenes.Keys);
    if overlap != {} {
      var overlapping := map j | j in overlap :: scenes[j];
      ProcessOverlappingKeepsOthers(scenes, overlapping, order(overlapping), SortedValues(newScenes), k);
    }
  }

  /**
   * When no existing scene overlaps a new one, the two sets have no bounds in common and the
   * result is their union, every scene as it was.
   */
  lemma NoOverlapAddsVerbatim(scenes: map<Key, SceneValue>, newScenes: map<Key, SceneValue>,
                              order: map<Key, SceneValue> -> seq<Key>)
    requires OverlapKeys(scenes.Keys, newScenes.Keys) == {}
    ensures scenes.Keys !! newScenes.Keys
    ensures var r := FoldAnnotation(scenes, newScenes, order);
      && r.Keys == scenes.Keys + newScenes.Keys
      && (forall k :: k in scenes ==> r[k] == scenes[k])
      && (forall k :: k in newScenes ==> r[k] == newScenes[k])
  {
    forall k | k in scenes && k in newScenes ensures false {
      MatchesTimeImpliesOverlaps(k, k);
    }
  }

  // ---------------------------------------------------------------------------------------------
  // What the fold does not promise
  // ---------------------------------------------------------------------------------------------

  /** from(Collection) of a single annotation is exactly the scenes of that annotation. */
  lemma ConsolidateOne(a: LabelAnnotation, threshold: real, order: map<Key, SceneValue> -> seq<Key>)
    ensures Consolidate(Some([a]), threshold, order) == FromAnnotation(Some(a), threshold)
  {
    assert FoldAnnotations([a][..0], threshold, order) == Success(map[]) by {
      assert [a][..0] == [];
    }
    var r := FromAnnotation(Some(a), threshold);
    if r.Success? {
      assert OverlapKeys({}, r.value.Keys) == {};
      assert FoldAnnotation(map[], r.value, order) == r.value;
    }
  }

  /**
   * The segments of one annotation are never compared with each other: from(Collection) of a
   * sole annotation with several segments, those reaching the threshold well formed, holds a
   * scene for every segment that reaches the threshold, however those scenes overlap.
   */
  lemma SegmentsNeverCompared(a: LabelAnnotation, threshold: real, order: map<Key, SceneValue> -> seq<Key>)
    requires |a.segments| > 1
    requires forall s :: s in a.segments && s.confidence >= threshold ==> ValidSegment(s)
    ensures Consolidate(Some([a]), threshold, order).Success?
    ensures forall s :: s in a.segments && s.confidence >= threshold ==>
      SegmentKey(s) in Consolidate(Some([a]), threshold, order).value
  {
    ConsolidateOne(a, threshold, order);
    FromSeveralSegments(a, threshold);
  }

  /** So the result can hold overlapping scenes: segments [0 s, 10 s] and [5 s, 15 s] both stay. */
  lemma ResultMayOverlap(entity: Entity, threshold: real, order: map<Key, SceneValue> -> seq<Key>)
    requires threshold <= 1.0
    ensures var s1 := LabelSegment(VideoSegment(Duration(0, 0), Duration(10, 0)), 1.0);
      var s2 := LabelSegment(VideoSegment(Duration(5, 0), Duration(15, 0)), 1.0);
      var r := Consolidate(Some([LabelAnnotation(entity, [], [s1, s2])]), threshold, order);
      && r.Success? && SegmentKey(s1) in r.value && SegmentKey(s2) in r.value
      && Overlaps(SegmentKey(s2), SegmentKey(s1))
  {
    var s1 := LabelSegment(VideoSegment(Duration(0, 0), Duration(10, 0)), 1.0);
    var s2 := LabelSegment(VideoSegment(Duration(5, 0), Duration(15, 0)), 1.0);
    SegmentsNeverCompared(LabelAnnotation(entity, [], [s1, s2]), threshold, order);
  }

  /** When one existing scene overlaps, the annotation is that scene's pass over the new scenes. */
  lemma FoldOneOverlap(scenes: map<Key, SceneValue>, newScenes: map<Key, SceneValue>, k1: Key,
                       order: map<Key, SceneValue> -> seq<Key>)
    requires OverlapKeys(scenes.Keys, newScenes.Keys) == {k1}
    requires forall m :: IsEnumeration(order(m), m.Keys)
    ensures FoldAnnotation(scenes, newScenes, order) ==
      ScenePass(Work(scenes, scenes[k1], true), SortedValues(newScenes)).scenes
  {
    var overlapping := map k | k in OverlapKeys(scenes.Keys, newScenes.Keys) :: scenes[k];
    assert overlapping.Keys == {k1} && overlapping[k1] == scenes[k1];
    var ks := order(overlapping);
    SingletonEnumeration(ks, k1);
    var sv := SortedValues(newScenes);
    assert ProcessOverlapping(scenes, overlapping, ks[..0], sv) == scenes;
    assert ProcessOverlapping(scenes, overlapping, ks, sv) == Turn(scenes, overlapping, k1, sv);
  }

  /** The inner loop over two new scenes is two pair steps. */
  lemma ScenePassTwo(w: Work, v1: SceneValue, v2: SceneValue)
    ensures ScenePass(w, [v1, v2]) == PairStep(PairStep(w, v1), v2)
  {
    assert [v1, v2][..1] == [v1] && [v1][..0] == [];
    assert ScenePass(w, [v1]) == PairStep(w, v1);
  }

  /**
   * Once some new scene overlaps, a new scene that overlaps nothing is lost: the loop over the
   * overlapping scenes only amends, splits and puts back. A set holding one scene, met by that
   * scene's bounds and a later pair of bounds that overlaps it neither way nor splits it, keeps
   * only the one scene.
   */
  lemma SoleOverlapDropsOthers(scenes: map<Key, SceneValue>, newScenes: map<Key, SceneValue>, k1: Key, k2: Key,
                               order: map<Key, SceneValue> -> seq<Key>)
    requires WellKeyed(scenes) && WellKeyed(newScenes)
    requires scenes.Keys == {k1} && newScenes.Keys == {k1, k2} && KeyLess(k1, k2)
    requires !Overlaps(k1, k2) && !Splits(k2, k1)
    requires forall m :: IsEnumeration(order(m), m.Keys)
    ensures FoldAnnotation(scenes, newScenes, order).Keys == {k1}
  {
    assert Overlaps(k1, k1);
    assert OverlapKeys(scenes.Keys, newScenes.Keys) == {k1};
    FoldOneOverlap(scenes, newScenes, k1, order);
    SortedPairValues(newScenes, k1, k2);
    ScenePassTwo(Work(scenes, scenes[k1], true), newScenes[k1], newScenes[k2]);
    AmendThenPutBack(Work(scenes, scenes[k1], true), newScenes[k1], newScenes[k2]);
  }

  /** The states of two scenes, in ascending order of bounds. */
  lemma SortedPairValues(m: map<Key, SceneValue>, k1: Key, k2: Key)
    requires m.Keys == {k1, k2} && KeyLess(k1, k2)
    ensures SortedValues(m) == [m[k1], m[k2]]
  {
    SortedPair(k1, k2);
  }

  /**
   * The scene in hand, alone in the set, amended by its own bounds and then met by bounds that
   * neither match nor split it, is put back alone.
   */
  lemma AmendThenPutBack(w: Work, v1: SceneValue, v2: SceneValue)
    requires w.attached && w.scenes.Keys == {w.cur.key}
    requires v1.key == w.cur.key && !MatchesTime(w.cur.key, v2.key) && !Splits(v2.key, w.cur.key)
    ensures PairStep(PairStep(w, v1), v2).scenes.Keys == {w.cur.key}
  {
    var w1 := PairStep(w, v1);
    assert w1.scenes.Keys == {w.cur.key} && w1.cur.key == w.cur.key;
  }

  /** from(Collection) of two annotations that convert: the second merged into the first's scenes. */
  lemma ConsolidateTwo(a1: LabelAnnotation, a2: LabelAnnotation, threshold: real, order: map<Key, SceneValue> -> seq<Key>)
    requires FromAnnotation(Some(a1), threshold).Success? && FromAnnotation(Some(a2), threshold).Success?
    ensures Consolidate(Some([a1, a2]), threshold, order) ==
      Success(FoldAnnotation(FromAnnotation(Some(a1), threshold).value, FromAnnotation(Some(a2), threshold).value, order))
  {
    var annotations := [a1, a2];
    ConsolidateOne(a1, threshold, order);
    assert annotations[..1] == [a1] && annotations[..2] == annotations;
    FoldAnnotationsSnoc(annotations, 1, threshold, order);
  }

  /** The bounds [0 s, 10 s] and [20 s, 30 s] neither overlap nor split each other. */
  lemma DisjointExampleBounds()
    ensures var k1 := SegmentKey(LabelSegment(VideoSegment(Duration(0, 0), Duration(10, 0)), 1.0));
      var k2 := SegmentKey(LabelSegment(VideoSegment(Duration(20, 0), Duration(30, 0)), 1.0));
      KeyLess(k1, k2) && !Overlaps(k1, k2) && !Overlaps(k2, k1) && !Splits(k2, k1)
  {
    var k1 := SegmentKey(LabelSegment(VideoSegment(Duration(0, 0), Duration(10, 0)), 1.0));
    var k2 := SegmentKey(LabelSegment(VideoSegment(Duration(20, 0), Duration(30, 0)), 1.0));
    assert k1 == Key(0, 10 * NanosPerSecond) && k2 == Key(20 * NanosPerSecond, 30 * NanosPerSecond);
  }

  /**
   * An input that shows it: after an annotation with a segment [0 s, 10 s], an annotation with
   * segments [0 s, 10 s] and [20 s, 30 s] leaves the scene [0 s, 10 s] alone, although
   * [20 s, 30 s] overlaps no scene either way.
   */
  lemma OverlapDropsDisjointScene(entity: Entity, threshold: real, order: map<Key, SceneValue> -> seq<Key>)
    requires threshold <= 1.0
    requires forall m :: IsEnumeration(order(m), m.Keys)
    ensures var s1 := LabelSegment(VideoSegment(Duration(0, 0), Duration(10, 0)), 1.0);
      var s2 := LabelSegment(VideoSegment(Duration(20, 0), Duration(30, 0)), 1.0);
      var r := Consolidate(Some([LabelAnnotation(entity, [], [s1]), LabelAnnotation(entity, [], [s1, s2])]),
                           threshold, order);
      && !Overlaps(SegmentKey(s1), SegmentKey(s2)) && !Overlaps(SegmentKey(s2), SegmentKey(s1))
      && r.Success? && r.value.Keys == {SegmentKey(s1)}
  {
    var s1 := LabelSegment(VideoSegment(Duration(0, 0), Duration(10, 0)), 1.0);
    var s2 := LabelSegment(VideoSegment(Duration(20, 0), Duration(30, 0)), 1.0);
    var a1, a2 := LabelAnnotation(entity, [], [s1]), LabelAnnotation(entity, [], [s1, s2]);
    FromSingleSegment(a1, threshold);
    FromTwoSegments(a2, threshold);
    var first, added := FromAnnotation(Some(a1), threshold).value, FromAnnotation(Some(a2), threshold).value;
    ConsolidateTwo(a1, a2, threshold, order);
    DisjointExampleBounds();
    SoleOverlapDropsOthers(first, added, SegmentKey(s1), SegmentKey(s2), order);
  }

  // The HashSet order of the overlapping scenes matters. Bounds in seconds: existing [5, 10] and
  // [10, 20], new [5, 15] and [6, 8].
  const Early: Key := Key(5 * NanosPerSecond, 10 * NanosPerSecond)
  const Late: Key := Key(10 * NanosPerSecond, 20 * NanosPerSecond)
  const Long: Key := Key(5 * NanosPerSecond, 15 * NanosPerSecond)
  const Short: Key := Key(6 * NanosPerSecond, 8 * NanosPerSecond)

  /** How the bounds of the order example lie against each other. */
  lemma OrderExampleBounds()
    ensures Overlaps(Early, Long) && Overlaps(Late, Long) && KeyLess(Long, Short)
    ensures !MatchesTime(Early, Long) && !Splits(Long, Early)
    ensures !MatchesTime(Early, Short) && StrictlyInside(Short, Early)
    ensures !MatchesTime(Late, Long) && !StrictlyInside(Long, Late) && StartsBefore(Long, Late)
    ensures !MatchesTime(Late, Short) && !Splits(Short, Late)
    ensures Early == Key(Long.start, Late.start) && Early != Late
  {
  }

  /** The outer loop over two overlapping scenes is two turns. */
  lemma ProcessOverlappingTwo(scenes: map<Key, SceneValue>, overlapping: map<Key, SceneValue>, k1: Key, k2: Key,
                              newScenes: seq<SceneValue>)
    ensures ProcessOverlapping(scenes, overlapping, [k1, k2], newScenes) ==
      Turn(Turn(scenes, overlapping, k1, newScenes), overlapping, k2, newScenes)
  {
    assert [k1, k2][..1] == [k1] && [k1][..0] == [];
    assert ProcessOverlapping(scenes, overlapping, [k1], newScenes) == Turn(scenes, overlapping, k1, newScenes);
  }

  /**
   * [5, 10] in hand: [5, 15] shares its start, so it is put back; [6, 8] lies strictly inside,
   * so it is removed.
   */
  lemma EarlyTurn(scenes: map<Key, SceneValue>, cur: SceneValue, long: SceneValue, short: SceneValue)
    requires cur.key == Early && long.key == Long && short.key == Short
    ensures ScenePass(Work(scenes, cur, true), [long, short]).scenes == scenes - {Early}
  {
    OrderExampleBounds();
    var w := Work(scenes, cur, true);
    ScenePassTwo(w, long, short);
    PairStepPutsBack(w, long);
    var w1 := PairStep(w, long);
    PairStepStrictlyInside(w1, short);
    assert w1.scenes - {Early} == scenes - {Early};
  }

  /**
   * [10, 20] in hand: [5, 15] starts before it, so it is replaced by [5, 10] cut from [5, 15]
   * unless [5, 10] is present; [6, 8] lies outside it, so [10, 20] is put back.
   */
  lemma LateTurn(scenes: map<Key, SceneValue>, cur: SceneValue, long: SceneValue, short: SceneValue)
    requires cur.key == Late && long.key == Long && short.key == Short
    ensures ScenePass(Work(scenes, cur, true), [long, short]).scenes ==
      AddAll(scenes - {Late}, map[Early := CloneOf(long, Early.start, Early.end)])[Late := cur]
  {
    OrderExampleBounds();
    var w := Work(scenes, cur, true);
    ScenePassTwo(w, long, short);
    PairStepStartsBefore(w, long);
    var w1 := PairStep(w, long);
    PairStepPutsBack(w1, short);
    assert PairStep(w1, short).scenes == w1.scenes[Late := cur];
  }

  /** Removing a scene, adding a piece whose bounds are present, and putting the scene back changes nothing. */
  lemma AddPresentThenPutBack(m: map<Key, SceneValue>, k: Key, e: Key, piece: SceneValue)
    requires k in m && e in m && e != k
    ensures AddAll(m - {k}, map[e := piece])[k := m[k]] == m
  {
    var r := AddAll(m - {k}, map[e := piece]);
    assert r == m - {k};
  }

  /** With [5, 10] and [10, 20] against [5, 15] and [6, 8], the annotation is two turns in the order given. */
  lemma OrderExampleTurns(scenes: map<Key, SceneValue>, newScenes: map<Key, SceneValue>,
                          order: map<Key, SceneValue> -> seq<Key>, k1: Key, k2: Key)
    requires scenes.Keys == {Early, Late} && newScenes.Keys == {Long, Short}
    requires order(scenes) == [k1, k2]
    ensures var sv := [newScenes[Long], newScenes[Short]];
      FoldAnnotation(scenes, newScenes, order) == Turn(Turn(scenes, scenes, k1, sv), scenes, k2, sv)
  {
    OrderExampleBounds();
    var overlap := OverlapKeys(scenes.Keys, newScenes.Keys);
    assert overlap == scenes.Keys;
    assert (map k | k in overlap :: scenes[k]) == scenes;
    SortedPairValues(newScenes, Long, Short);
    ProcessOverlappingTwo(scenes, scenes, k1, k2, [newScenes[Long], newScenes[Short]]);
  }

  /** Without [5, 10], only [10, 20] is left. */
  lemma WithoutEarly(scenes: map<Key, SceneValue>)
    requires scenes.Keys == {Early, Late}
    ensures scenes - {Early} == map[Late := scenes[Late]]
  {
    OrderExampleBounds();
  }

  /** With [5, 10] gone, the piece [5, 10] goes in and [10, 20] is put back. */
  lemma PieceBesideLate(scenes: map<Key, SceneValue>, piece: SceneValue)
    requires scenes.Keys == {Early, Late}
    ensures AddAll((scenes - {Early}) - {Late}, map[Early := piece])[Late := scenes[Late]] ==
      map[Early := piece, Late := scenes[Late]]
  {
    OrderExampleBounds();
    assert (scenes - {Early}) - {Late} == map[];
    assert AddAll(map[], map[Early := piece]) == map[Early := piece];
  }

  /**
   * The HashSet order decides, taking [10, 20] first: the [5, 10] cut from [5, 15] loses to the
   * [5, 10] present, which [6, 8] then removes, so [10, 20] is left alone.
   */
  lemma LateFirstKeepsLate(scenes: map<Key, SceneValue>, newScenes: map<Key, SceneValue>,
                           order: map<Key, SceneValue> -> seq<Key>)
    requires WellKeyed(scenes) && scenes.Keys == {Early, Late}
    requires WellKeyed(newScenes) && newScenes.Keys == {Long, Short}
    requires order(scenes) == [Late, Early]
    ensures FoldAnnotation(scenes, newScenes, order) == map[Late := scenes[Late]]
  {
    var sv := [newScenes[Long], newScenes[Short]];
    OrderExampleTurns(scenes, newScenes, order, Late, Early);
    var piece := CloneOf(newScenes[Long], Early.start, Early.end);
    var t1 := Turn(scenes, scenes, Late, sv);
    assert t1 == AddAll(scenes - {Late}, map[Early := piece])[Late := scenes[Late]] by {
      LateTurn(scenes, scenes[Late], newScenes[Long], newScenes[Short]);
    }
    AddPresentThenPutBack(scenes, Late, Early, piece);
    assert Turn(t1, scenes, Early, sv) == scenes - {Early} by {
      EarlyTurn(scenes, scenes[Early], newScenes[Long], newScenes[Short]);
    }
    WithoutEarly(scenes);
  }

  /**
   * The HashSet order decides, taking [5, 10] first: [6, 8] removes it, then the [5, 10] cut
   * from [5, 15] takes its place beside [10, 20].
   */
  lemma EarlyFirstKeepsBoth(scenes: map<Key, SceneValue>, newScenes: map<Key, SceneValue>,
                            order: map<Key, SceneValue> -> seq<Key>)
    requires WellKeyed(scenes) && scenes.Keys == {Early, Late}
    requires WellKeyed(newScenes) && newScenes.Keys == {Long, Short}
    requires order(scenes) == [Early, Late]
    ensures FoldAnnotation(scenes, newScenes, order) ==
      map[Early := CloneOf(newScenes[Long], Early.start, Early.end), Late := scenes[Late]]
  {
    var sv := [newScenes[Long], newScenes[Short]];
    var piece := CloneOf(newScenes[Long], Early.start, Early.end);
    OrderExampleTurns(scenes, newScenes, order, Early, Late);
    var t1 := Turn(scenes, scenes, Early, sv);
    assert t1 == scenes - {Early} by {
      EarlyTurn(scenes, scenes[Early], newScenes[Long], newScenes[Short]);
    }
    assert Turn(t1, scenes, Late, sv) == map[Early := piece, Late := scenes[Late]] by {
      LateTurn(t1, scenes[Late], newScenes[Long], newScenes[Short]);
      PieceBesideLate(scenes, piece);
    }
  }

  /** Once an annotation fails, the fold over any longer list of annotations fails the same way. */
  lemma {:induction false} FailureSticks(annotations: seq<LabelAnnotation>, i: nat, threshold: real,
                                         order: map<Key, SceneValue> -> seq<Key>)
    requires i <= |annotations|
    requires FoldAnnotations(annotations[..i], threshold, order).Failure?
    ensures FoldAnnotations(annotations, threshold, order) == FoldAnnotations(annotations[..i], threshold, order)
    decreases |annotations|
  {
    if i < |annotations| {
      var init := annotations[..|annotations| - 1];
      assert init[..i] == annotations[..i];
      FailureSticks(init, i, threshold, order);
    } else {
      assert annotations[..i] == annotations;
    }
  }

  /** The loop over the annotations one annotation further: throw, or merge its scenes in. */
  lemma FoldAnnotationsSnoc(annotations: seq<LabelAnnotation>, i: nat, threshold: real,
                            order: map<Key, SceneValue> -> seq<Key>)
    requires i < |annotations| && FoldAnnotations(annotations[..i], threshold, order).Success?
    ensures var added := FromAnnotation(Some(annotations[i]), threshold);
      FoldAnnotations(annotations[..i + 1], threshold, order) ==
        if added.Failure? then Failure(added.error)
        else Success(FoldAnnotation(FoldAnnotations(annotations[..i], threshold, order).value, added.value, order))
  {
    assert annotations[..i + 1][..i] == annotations[..i];
  }

  // ---------------------------------------------------------------------------------------------
  // The loops of from(Collection) over Scene objects
  // ---------------------------------------------------------------------------------------------

  /**
   * The scene in hand is the set's member at its bounds while attached, and no member of the
   * set once detached.
   */
  ghost predicate InHand(scenes: map<Key, Scene>, scene: Scene, attached: bool)
    requires scene.Closed()
  {
    && (attached ==> scene.Bounds() in scenes && scenes[scene.Bounds()] == scene)
    && (!attached ==> forall k :: k in scenes ==> scenes[k] != scene)
  }

  /** amendWith on the scene in hand: while attached, the set's member at its bounds changes with it. */
  method AmendInHand(scenes: map<Key, Scene>, scene: Scene, attached: bool, newScene: Scene)
    requires SceneSet(scenes) && scene.Closed() && newScene.Closed() && newScene != scene
    requires InHand(scenes, scene, attached)
    modifies scene
    ensures SceneSet(scenes)
    ensures scene.Value() == Amend(old(scene.Value()), newScene.Value())
    ensures Abs(scenes) == if attached then old(Abs(scenes))[scene.Bounds() := scene.Value()] else old(Abs(scenes))
  {
    ghost var before := Abs(scenes);
    var _ := scene.AmendWith(newScene);
    forall j | j in scenes
      ensures Abs(scenes)[j] == (if attached then before[scene.Bounds() := scene.Value()] else before)[j]
    {
      if j != scene.Bounds() || !attached {
        assert scenes[j] != scene;
      }
    }
  }

  /** The set without the bounds `k`, given fresh objects for the pieces that are not yet in it. */
  method Replace(scenes: map<Key, Scene>, k: Key, pieces: map<Key, SceneValue>) returns (result: map<Key, Scene>)
    requires SceneSet(scenes) && WellKeyed(pieces)
    ensures SceneSet(result)
    ensures Abs(result) == AddAll(Abs(scenes) - {k}, pieces)
    ensures forall j :: j in result ==> fresh(result[j]) || (j in scenes && j != k && result[j] == scenes[j])
    ensures forall j :: j in scenes && j != k ==> j in result && result[j] == scenes[j]
  {
    var removed := scenes - {k};
    var objs := Materialize(pieces);
    result := objs + removed;
    SceneSetUnion(removed, objs);
    AbsAddAll(removed, objs);
    AbsRemove(scenes, k);
  }

  /** Putting the scene in hand back at its bounds makes it the set's member there. */
  lemma PutBack(scenes: map<Key, Scene>, scene: Scene, attached: bool)
    requires SceneSet(scenes) && scene.Closed() && InHand(scenes, scene, attached)
    ensures var result := map[scene.Bounds() := scene] + (scenes - {scene.Bounds()});
      && SceneSet(result) && InHand(result, scene, true)
      && Abs(result) == AddAll(Abs(scenes) - {scene.Bounds()}, map[scene.Bounds() := scene.Value()])
  {
    var k := scene.Bounds();
    AbsRemove(scenes, k);
    AbsAddAll(scenes - {k}, map[k := scene]);
  }

  /** The body of the inner loop, on objects: amend the scene in hand, or remove and replace it. */
  method ProcessPair(scenes: map<Key, Scene>, scene: Scene, attached: bool, newScene: Scene)
    returns (result: map<Key, Scene>, stillAttached: bool)
    requires SceneSet(scenes) && scene.Closed() && newScene.Closed() && newScene != scene
    requires InHand(scenes, scene, attached)
    modifies scene
    ensures SceneSet(result) && InHand(result, scene, stillAttached)
    ensures Work(Abs(result), scene.Value(), stillAttached) ==
      PairStep(Work(old(Abs(scenes)), old(scene.Value()), attached), newScene.Value())
    ensures forall k :: k in scenes && k != scene.Bounds() ==> k in result && result[k] == scenes[k]
  {
    var k := scene.Bounds();
    if MatchesTime(k, newScene.Bounds()) {
      AmendInHand(scenes, scene, attached, newScene);
      return scenes, attached;
    }
    var cur, n := scene.Value(), newScene.Value();
    if Splits(n.key, cur.key) {
      result := Replace(scenes, k, Replacement(cur, n));
      stillAttached := false;
    } else {
      result := map[k := scene] + (scenes - {k});
      PutBack(scenes, scene, attached);
      stillAttached := true;
    }
  }

  /** The states of a set of scenes in ascending order are those of its members in that order. */
  lemma SortedStates(m: map<Key, Scene>)
    requires forall k :: k in m ==> m[k].Closed()
    ensures |SortedValues(Abs(m))| == |SortedKeys(m.Keys)|
    ensures forall i :: 0 <= i < |SortedKeys(m.Keys)| ==>
      SortedKeys(m.Keys)[i] in m && SortedValues(Abs(m))[i] == m[SortedKeys(m.Keys)[i]].Value()
  {
    assert Abs(m).Keys == m.Keys;
  }

  /** One turn of the inner loop: ProcessPair takes the pass over the new scenes one scene further. */
  method PassStep(result: map<Key, Scene>, scene: Scene, attached: bool, newScene: Scene,
                  ghost w0: Work, ghost sv: seq<SceneValue>, ghost j: nat)
    returns (next: map<Key, Scene>, stillAttached: bool)
    requires SceneSet(result) && scene.Closed() && newScene.Closed() && newScene != scene
    requires InHand(result, scene, attached)
    requires j < |sv| && sv[j] == newScene.Value()
    requires Work(Abs(result), scene.Value(), attached) == ScenePass(w0, sv[..j])
    modifies scene
    ensures SceneSet(next) && InHand(next, scene, stillAttached)
    ensures Work(Abs(next), scene.Value(), stillAttached) == ScenePass(w0, sv[..j + 1])
    ensures forall k :: k in result && k != scene.Bounds() ==> k in next && next[k] == result[k]
  {
    next, stillAttached := ProcessPair(result, scene, attached, newScene);
    ScenePassSnoc(w0, sv, j);
  }

  /** The inner loop, on objects: the scene in hand against each new scene in ascending order. */
  method ScenePassOver(scenes: map<Key, Scene>, scene: Scene, newObjs: map<Key, Scene>) returns (result: map<Key, Scene>)
    requires SceneSet(scenes) && SceneSet(newObjs) && scene.Closed()
    requires scene.Bounds() in scenes && scenes[scene.Bounds()] == scene
    requires forall j :: j in newObjs ==> newObjs[j] != scene
    modifies scene
    ensures SceneSet(result)
    ensures Abs(result) == ScenePass(Work(old(Abs(scenes)), old(scene.Value()), true), SortedValues(old(Abs(newObjs)))).scenes
    ensures forall k :: k in scenes && k != scene.Bounds() ==> k in result && result[k] == scenes[k]
  {
    ghost var w0 := Work(Abs(scenes), scene.Value(), true);
    ghost var sv := SortedValues(Abs(newObjs));
    var newKeys := SortedKeys(newObjs.Keys);
    SortedStates(newObjs);
    result := scenes;
    var attached := true;
    var j := 0;
    while j < |newKeys|
      invariant 0 <= j <= |newKeys|
      invariant SceneSet(result) && InHand(result, scene, attached)
      invariant Work(Abs(result), scene.Value(), attached) == ScenePass(w0, sv[..j])
      invariant forall k :: k in scenes && k != scene.Bounds() ==> k in result && result[k] == scenes[k]
    {
      var newScene := newObjs[newKeys[j]];
      assert newScene.Value() == old(newScene.Value());
      result, attached := PassStep(result, scene, attached, newScene, w0, sv, j);
      j := j + 1;
    }
    TakeAll(sv, j);
  }

  /**
   * The overlapping scenes not yet taken in hand: each is still the set's member at its bounds,
   * in the state it had when the overlapping set was built.
   */
  ghost predicate Pending(result: map<Key, Scene>, objs: map<Key, Scene>, overlapping: map<Key, SceneValue>,
                          rest: seq<Key>)
    requires forall k :: k in objs ==> objs[k].Closed()
    reads objs.Values
  {
    forall i :: 0 <= i < |rest| ==>
      && rest[i] in result && rest[i] in objs && rest[i] in overlapping
      && result[rest[i]] == objs[rest[i]] && objs[rest[i]].Value() == overlapping[rest[i]]
  }

  /** One turn of the outer loop: the next overlapping scene, in hand, against every new scene. */
  method OverlapTurn(result: map<Key, Scene>, newObjs: map<Key, Scene>, objs: map<Key, Scene>, k: Key,
                     ghost s0: map<Key, SceneValue>, ghost overlapping: map<Key, SceneValue>,
                     ghost keys: seq<Key>, ghost t: nat)
    returns (next: map<Key, Scene>)
    requires SceneSet(result) && SceneSet(newObjs) && SceneSet(objs)
    requires t < |keys| && keys[t] == k && forall i :: t < i < |keys| ==> keys[i] != k
    requires forall k, j :: k in objs && j in newObjs ==> objs[k] != newObjs[j]
    requires Pending(result, objs, overlapping, keys[t..])
    requires Abs(result) == ProcessOverlapping(s0, overlapping, keys[..t], SortedValues(Abs(newObjs)))
    modifies objs[k]
    ensures SceneSet(next) && Pending(next, objs, overlapping, keys[t + 1..])
    ensures Abs(next) == ProcessOverlapping(s0, overlapping, keys[..t + 1], SortedValues(Abs(newObjs)))
  {
    assert keys[t..][0] == k;
    var scene := objs[k];
    assert keys[..t + 1][..t] == keys[..t];
    next := ScenePassOver(result, scene, newObjs);
    ghost var rest := keys[t + 1..];
    forall i | 0 <= i < |rest|
      ensures && rest[i] in next && rest[i] in objs && rest[i] in overlapping
              && next[rest[i]] == objs[rest[i]] && objs[rest[i]].Value() == overlapping[rest[i]]
    {
      var kk := rest[i];
      assert kk == keys[t..][i + 1] && kk != k;
      assert objs[kk] != scene;
    }
  }

  /** The outer loop: the overlapping scenes taken in hand one after the other, in the order of `keys`. */
  method TakeTurns(scenes: map<Key, Scene>, newObjs: map<Key, Scene>, objs: map<Key, Scene>, keys: seq<Key>,
                   ghost s0: map<Key, SceneValue>, ghost overlapping: map<Key, SceneValue>)
    returns (result: map<Key, Scene>)
    requires SceneSet(scenes) && SceneSet(newObjs) && SceneSet(objs)
    requires forall i, j :: 0 <= i < j < |keys| ==> keys[i] != keys[j]
    requires forall k, j :: k in objs && j in newObjs ==> objs[k] != newObjs[j]
    requires Pending(scenes, objs, overlapping, keys) && Abs(scenes) == s0
    modifies objs.Values
    ensures SceneSet(result)
    ensures Abs(result) == ProcessOverlapping(s0, overlapping, keys, SortedValues(old(Abs(newObjs))))
  {
    ghost var nv := Abs(newObjs);
    result := scenes;
    var t := 0;
    while t < |keys|
      invariant 0 <= t <= |keys|
      invariant SceneSet(result)
      invariant Abs(newObjs) == nv
      invariant Pending(result, objs, overlapping, keys[t..])
      invariant Abs(result) == ProcessOverlapping(s0, overlapping, keys[..t], SortedValues(nv))
    {
      result := OverlapTurn(result, newObjs, objs, keys[t], s0, overlapping, keys, t);
      t := t + 1;
    }
    TakeAll(keys, t);
  }

  /** The states of part of a set of scenes are that part of the set's states. */
  lemma AbsRestrict(m: map<Key, Scene>, ks: set<Key>)
    requires ks <= m.Keys && forall k :: k in m ==> m[k].Closed()
    ensures Abs(map k | k in ks :: m[k]) == map k | k in ks :: Abs(m)[k]
  {
  }

  /** Before the outer loop every overlapping scene is pending. */
  lemma PendingAtStart(scenes: map<Key, Scene>, overlap: set<Key>, keys: seq<Key>)
    requires SceneSet(scenes) && overlap <= scenes.Keys
    requires forall i :: 0 <= i < |keys| ==> keys[i] in overlap
    ensures var objs := map k | k in overlap :: scenes[k];
      Pending(scenes, objs, Abs(objs), keys)
  {
  }

  /** One turn of the loop over the annotations, on objects. */
  method MergeAnnotation(scenes: map<Key, Scene>, newObjs: map<Key, Scene>, order: map<Key, SceneValue> -> seq<Key>)
    returns (result: map<Key, Scene>)
    requires SceneSet(scenes) && SceneSet(newObjs)
    requires forall k, j :: k in scenes && j in newObjs ==> scenes[k] != newObjs[j]
    requires forall m :: IsEnumeration(order(m), m.Keys)
    modifies scenes.Values
    ensures SceneSet(result)
    ensures Abs(result) == FoldAnnotation(old(Abs(scenes)), old(Abs(newObjs)), order)
  {
    ghost var s0, nv := Abs(scenes), Abs(newObjs);
    var overlap := OverlapKeys(scenes.Keys, newObjs.Keys);
    if overlap == {} {
      NoOverlapAddsVerbatim(s0, nv, order);
      result := newObjs + scenes;
      AbsAddAll(scenes, newObjs);
      return;
    }
    var objs := map k | k in overlap :: scenes[k];
    var overlapping := Abs(objs);
    AbsRestrict(scenes, overlap);
    var keys := order(overlapping);
    PendingAtStart(scenes, overlap, keys);
    result := TakeTurns(scenes, newObjs, objs, keys, s0, overlapping);
  }

  /**
   * One turn of the loop over the annotations: the annotation's scenes, or its error, merged
   * into a copy of the running set.
   */
  method AddAnnotation(scenes: map<Key, Scene>, annotation: LabelAnnotation, threshold: real,
                       order: map<Key, SceneValue> -> seq<Key>)
    returns (r: Result<map<Key, Scene>, Error>)
    requires SceneSet(scenes)
    requires forall m :: IsEnumeration(order(m), m.Keys)
    ensures var added := FromAnnotation(Some(annotation), threshold);
      && (r.Failure? <==> added.Failure?)
      && (r.Failure? ==> r.error == added.error)
      && (r.Success? ==> SceneSet(r.value) && Abs(r.value) == FoldAnnotation(old(Abs(scenes)), added.value, order))
  {
    var added := FromAnnotation(Some(annotation), threshold);
    if added.Failure? {
      return Failure(added.error);
    }
    var held := Materialize(Abs(scenes));
    ghost var s0 := Abs(held);
    var newObjs := Materialize(added.value);
    assert Abs(held) == s0;
    var merged := MergeAnnotation(held, newObjs, order);
    return Success(merged);
  }

  /**
   * Scene.from(Collection<LabelAnnotation>) on objects: the resulting TreeSet holds Scene
   * objects whose states are exactly the value-level result.
   */
  method From(annotations: Option<seq<LabelAnnotation>>, threshold: real, order: map<Key, SceneValue> -> seq<Key>)
    returns (r: Result<map<Key, Scene>, Error>)
    requires forall m :: IsEnumeration(order(m), m.Keys)
    ensures r.Success? <==> Consolidate(annotations, threshold, order).Success?
    ensures r.Failure? ==> r.error == Consolidate(annotations, threshold, order).error
    ensures r.Success? ==>
      && SceneSet(r.value)
      && Abs(r.value) == Consolidate(annotations, threshold, order).value
      && forall k :: k in r.value ==> fresh(r.value[k])
  {
    if annotations.None? || annotations.value == [] {
      return Success(map[]);
    }
    var anns := annotations.value;
    var scenes: map<Key, Scene> := map[];
    var i := 0;
    while i < |anns|
      invariant 0 <= i <= |anns|
      invariant SceneSet(scenes)
      invariant FoldAnnotations(anns[..i], threshold, order) == Success(Abs(scenes))
    {
      FoldAnnotationsSnoc(anns, i, threshold, order);
      var next := AddAnnotation(scenes, anns[i], threshold, order);
      if next.Failure? {
        FailureSticks(anns, i + 1, threshold, order);
        return next;
      }
      scenes := next.value;
      i := i + 1;
    }
    TakeAll(anns, i);
    var out := Materialize(Abs(scenes));
    return Success(out);
  }
}
