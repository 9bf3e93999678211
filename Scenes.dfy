/**
 * Scene: a time interval of a video with the labels seen in it and the highest explicit-content
 * likelihood observed in it. The members below follow Scene.java; its `from(Collection)` fold is
 * in module Consolidation.
 */
module Scenes {
  import opened Wrappers
  import opened Times
  import opened Likelihoods
  import opened SceneEntities

  // ---------------------------------------------------------------------------------------------
  // Keys: the (start, end) pair that Scene.compareTo orders by
  // ---------------------------------------------------------------------------------------------

  /** The bounds of a scene whose end is set. A TreeSet<Scene> holds one scene per Key. */
  datatype Key = Key(start: Time, end: Time)

  /** The order of Scene.compareTo: by start, then by end. */
  predicate KeyLess(a: Key, b: Key)
  {
    a.start < b.start || (a.start == b.start && a.end < b.end)
  }

  predicate KeyLe(a: Key, b: Key)
  {
    KeyLess(a, b) || a == b
  }

  /** LocalTime.compareTo: -1, 0 or 1. */
  function CompareTimes(x: Time, y: Time): (r: int)
    ensures r == -1 || r == 0 || r == 1
    ensures r < 0 <==> x < y
    ensures r == 0 <==> x == y
  {
    if x < y then -1 else if x == y then 0 else 1
  }

  /**
   * Scene.compareTo for two scenes whose ends are set: the start comparison, or the end
   * comparison when the starts are equal.
   */
  function CompareTo(a: Key, b: Key): (r: int)
    ensures r == -1 || r == 0 || r == 1
    ensures r < 0 <==> KeyLess(a, b)
    ensures r == 0 <==> a == b
    ensures r > 0 <==> KeyLess(b, a)
  {
    var startComparison := CompareTimes(a.start, b.start);
    if startComparison != 0 then startComparison else CompareTimes(a.end, b.end)
  }

  /** compareTo is a strict total order: antisymmetric, transitive and total. */
  lemma CompareToIsStrictTotalOrder(a: Key, b: Key, c: Key)
    ensures CompareTo(a, b) == -CompareTo(b, a)
    ensures CompareTo(a, b) < 0 && CompareTo(b, c) < 0 ==> CompareTo(a, c) < 0
    ensures a != b ==> CompareTo(a, b) != 0
  {
  }

  /** Every non-empty set of keys has a least element. */
  lemma {:induction false} MinKeyExists(s: set<Key>)
    requires s != {}
    ensures exists k :: k in s && forall j :: j in s ==> KeyLe(k, j)
    decreases |s|
  {
    var x :| x in s;
    var rest := s - {x};
    if rest != {} {
      MinKeyExists(rest);
      var m :| m in rest && forall j :: j in rest ==> KeyLe(m, j);
      var least := if KeyLess(x, m) then x else m;
      forall j | j in s ensures KeyLe(least, j) {
        if j != x {
          assert KeyLe(m, j);
        }
      }
    } else {
      assert s == {x};
    }
  }

  /** The least key of a set. */
  function MinKey(s: set<Key>): (k: Key)
    requires s != {}
    ensures k in s && forall j :: j in s ==> KeyLe(k, j)
  {
    MinKeyExists(s);
    var k :| k in s && forall j :: j in s ==> KeyLe(k, j);
    k
  }

  /** The keys of a set in ascending order: the iteration order of a TreeSet<Scene>. */
  function SortedKeys(s: set<Key>): (r: seq<Key>)
    ensures |r| == |s|
    ensures forall k :: k in r <==> k in s
    decreases |s|
  {
    if s == {} then []
    else
      var k := MinKey(s);
      [k] + SortedKeys(s - {k})
  }

  /** SortedKeys lists the keys in strictly ascending order. */
  lemma {:induction false} SortedKeysAscending(s: set<Key>)
    ensures forall i, j :: 0 <= i < j < |SortedKeys(s)| ==> KeyLess(SortedKeys(s)[i], SortedKeys(s)[j])
    decreases |s|
  {
    if s != {} {
      var k := MinKey(s);
      var r, rest := SortedKeys(s), SortedKeys(s - {k});
      SortedKeysAscending(s - {k});
      forall i, j | 0 <= i < j < |r| ensures KeyLess(r[i], r[j]) {
        if i == 0 {
          assert r[j] == rest[j - 1] && r[j] in s - {k};
        } else {
          assert r[i] == rest[i - 1] && r[j] == rest[j - 1];
        }
      }
    }
  }

  /** Two bounds are iterated smaller first. */
  lemma SortedPair(k1: Key, k2: Key)
    requires KeyLess(k1, k2)
    ensures SortedKeys({k1, k2}) == [k1, k2]
  {
    var r := SortedKeys({k1, k2});
    SortedKeysAscending({k1, k2});
    assert r[0] in {k1, k2} && r[1] in {k1, k2} && KeyLess(r[0], r[1]);
  }

  // ---------------------------------------------------------------------------------------------
  // The time predicates: matchesTime, startsWithin, endsWithin, overlaps
  // ---------------------------------------------------------------------------------------------

  /** Scene.matchesTime: the same start and the same end. */
  predicate MatchesTime(a: Key, b: Key)
  {
    a.start == b.start && a.end == b.end
  }

  /** Scene.startsWithin: a starts where b starts, or strictly inside b. */
  predicate StartsWithin(a: Key, b: Key)
  {
    a.start == b.start || (a.start > b.start && a.start < b.end)
  }

  /** Scene.endsWithin: a ends where b ends, or strictly inside b. */
  predicate EndsWithin(a: Key, b: Key)
  {
    a.end == b.end || (a.end > b.start && a.end < b.end)
  }

  /** Scene.overlaps. */
  predicate Overlaps(a: Key, b: Key)
  {
    StartsWithin(a, b) || EndsWithin(a, b)
  }

  /**
   * On an interval b of positive length, startsWithin is membership of a's start in [b.start, b.end)
   * and endsWithin membership of a's end in (b.start, b.end].
   */
  lemma WithinIsHalfOpenMembership(a: Key, b: Key)
    requires b.start < b.end
    ensures StartsWithin(a, b) <==> b.start <= a.start < b.end
    ensures EndsWithin(a, b) <==> b.start < a.end <= b.end
  {
  }

  /** Scenes whose times match overlap. */
  lemma MatchesTimeImpliesOverlaps(a: Key, b: Key)
    ensures MatchesTime(a, b) ==> Overlaps(a, b) && Overlaps(b, a)
  {
  }

  /**
   * overlaps is not symmetric: a scene strictly containing another does not overlap it, while
   * the contained one overlaps the container.
   */
  lemma ContainerDoesNotOverlapContained(a: Key, b: Key)
    requires a.start < b.start && b.end < a.end && b.start <= b.end
    ensures !Overlaps(a, b)
    ensures Overlaps(b, a)
  {
  }

  /**
   * For intervals of positive length, overlapping in one direction or the other is exactly
   * sharing a stretch of time of positive length.
   */
  lemma OverlapsEitherWayIsIntersection(a: Key, b: Key)
    requires a.start < a.end && b.start < b.end
    ensures Overlaps(a, b) || Overlaps(b, a) <==> a.start < b.end && b.start < a.end
  {
  }

  // ---------------------------------------------------------------------------------------------
  // Scene values
  // ---------------------------------------------------------------------------------------------

  /** The state of a Scene whose end is set. */
  datatype SceneValue = SceneValue(key: Key, entities: set<SceneEntity>, likelihood: Likelihood)

  /** A map standing for a TreeSet<Scene>: each scene is filed under its own bounds. */
  ghost predicate WellKeyed(m: map<Key, SceneValue>)
  {
    forall k :: k in m ==> m[k].key == k
  }

  /**
   * TreeSet.addAll(elements) where the elements have distinct bounds: an element is added only
   * when no scene with its bounds is present; present scenes are never replaced.
   */
  function AddAll(m: map<Key, SceneValue>, elements: map<Key, SceneValue>): (r: map<Key, SceneValue>)
    ensures r.Keys == m.Keys + elements.Keys
    ensures forall k :: k in m ==> r[k] == m[k]
    ensures forall k :: k in elements && k !in m ==> r[k] == elements[k]
  {
    elements + m
  }

  /**
   * Scene.amendWith: when the bounds match, the entity sets are united and the likelihood is
   * raised to the other scene's if that ranks higher; otherwise nothing changes.
   */
  function Amend(a: SceneValue, b: SceneValue): (r: SceneValue)
    ensures r.key == a.key
    ensures !MatchesTime(a.key, b.key) ==> r == a
    ensures MatchesTime(a.key, b.key) ==>
      && (forall e :: e in r.entities <==> e in a.entities || e in b.entities)
      && Rank(r.likelihood) == (if Rank(b.likelihood) > Rank(a.likelihood) then Rank(b.likelihood) else Rank(a.likelihood))
      && (r.likelihood == a.likelihood || r.likelihood == b.likelihood)
  {
    if MatchesTime(a.key, b.key) then
      SceneValue(a.key, a.entities + b.entities, Raise(a.likelihood, b.likelihood))
    else
      a
  }

  /** amendWith never lowers the likelihood and never loses an entity. */
  lemma AmendNeverLowers(a: SceneValue, b: SceneValue)
    ensures Rank(Amend(a, b).likelihood) >= Rank(a.likelihood)
    ensures a.entities <= Amend(a, b).entities
  {
  }

  /** Amending twice with the same scene is amending once. */
  lemma AmendIdempotent(a: SceneValue, b: SceneValue)
    ensures Amend(Amend(a, b), b) == Amend(a, b)
  {
    if MatchesTime(a.key, b.key) {
      RaiseIdempotent(a.likelihood, b.likelihood);
      assert a.entities + b.entities + b.entities == a.entities + b.entities;
    }
  }

  /** Amending a scene with itself changes nothing. */
  lemma AmendWithSelf(a: SceneValue)
    ensures Amend(a, a) == a
  {
  }

  /** The order of two amendments does not matter. */
  lemma AmendCommutes(a: SceneValue, b: SceneValue, c: SceneValue)
    ensures Amend(Amend(a, b), c) == Amend(Amend(a, c), b)
  {
    if MatchesTime(a.key, b.key) && MatchesTime(a.key, c.key) {
      RaiseCommutes(a.likelihood, b.likelihood, c.likelihood);
      assert a.entities + b.entities + c.entities == a.entities + c.entities + b.entities;
    }
  }

  /** Scene.clone(newStart, newEnd): the same entities and likelihood under new bounds. */
  function CloneOf(v: SceneValue, newStart: Time, newEnd: Time): (r: SceneValue)
    ensures r.key == Key(newStart, newEnd)
    ensures r.entities == v.entities && r.likelihood == v.likelihood
  {
    SceneValue(Key(newStart, newEnd), v.entities, v.likelihood)
  }

  /**
   * Scene.split(splitAt...) with at least one split point: one point t gives [start, t] and
   * [t, end]; more points give [start, p0] together with the split of the WHOLE scene at the
   * remaining points. All pieces are clones, and pieces with equal bounds collapse.
   */
  function SplitAt(v: SceneValue, splitAt: seq<Time>): (r: map<Key, SceneValue>)
    requires splitAt != []
    ensures WellKeyed(r)
  {
    if |splitAt| == 1 then
      AddAll(map[Key(v.key.start, splitAt[0]) := CloneOf(v, v.key.start, splitAt[0])],
             map[Key(splitAt[0], v.key.end) := CloneOf(v, splitAt[0], v.key.end)])
    else
      AddAll(map[Key(v.key.start, splitAt[0]) := CloneOf(v, v.key.start, splitAt[0])],
             SplitAt(v, splitAt[1..]))
  }

  /**
   * Scene.split(splitAt...): None stands for a null array, which yields the scene itself; an
   * empty array fails on `splitAt[0]`.
   */
  function Split(v: SceneValue, splitAt: Option<seq<Time>>): (r: Result<map<Key, SceneValue>, Error>)
    ensures splitAt == None ==> r == Success(map[v.key := v])
    ensures splitAt == Some([]) ==> r == Failure(IndexOutOfBounds)
    ensures splitAt.Some? && splitAt.value != [] ==> r == Success(SplitAt(v, splitAt.value))
  {
    match splitAt
    case None => Success(map[v.key := v])
    case Some(points) => if points == [] then Failure(IndexOutOfBounds) else Success(SplitAt(v, points))
  }

  /**
   * The pieces of split(p0, ..., pn): [start, pi] for every point, and [pn, end]; each a clone
   * of the scene.
   */
  lemma {:induction false} SplitPieces(v: SceneValue, splitAt: seq<Time>)
    requires splitAt != []
    ensures forall k :: k in SplitAt(v, splitAt) <==>
      (k.start == v.key.start && k.end in splitAt) || k == Key(splitAt[|splitAt| - 1], v.key.end)
    ensures forall k :: k in SplitAt(v, splitAt) ==>
      SplitAt(v, splitAt)[k] == CloneOf(v, k.start, k.end)
  {
    if |splitAt| > 1 {
      SplitPieces(v, splitAt[1..]);
      assert splitAt == [splitAt[0]] + splitAt[1..];
    }
  }

  /** split(a, b) gives [start, a], [start, b] and [b, end]: the recursion splits the whole scene. */
  lemma SplitTwoPoints(v: SceneValue, a: Time, b: Time)
    ensures SplitAt(v, [a, b]).Keys == {Key(v.key.start, a), Key(v.key.start, b), Key(b, v.key.end)}
  {
    SplitPieces(v, [a, b]);
  }

  /**
   * Scene.mergeOverlapping: the original-split pieces whose time matches the new scene, each
   * amended with the new-split piece of the same time (itself when there is none), together
   * with the new-split pieces that do not end within the original scene. The first group wins
   * where both have a piece with the same bounds.
   */
  function MergeOverlapping(originalScene: SceneValue, originalSplit: map<Key, SceneValue>,
                            newScene: SceneValue, newSplit: map<Key, SceneValue>): map<Key, SceneValue>
  {
    AddAll(AmendedWithCounterparts(originalSplit, newScene, newSplit), NotEndingWithin(newSplit, originalScene))
  }

  /** The first group of mergeOverlapping. */
  function AmendedWithCounterparts(originalSplit: map<Key, SceneValue>, newScene: SceneValue,
                                   newSplit: map<Key, SceneValue>): map<Key, SceneValue>
  {
    map k | k in originalSplit && MatchesTime(k, newScene.key) ::
      Amend(originalSplit[k], if k in newSplit then newSplit[k] else originalSplit[k])
  }

  /** The second group of mergeOverlapping. */
  function NotEndingWithin(newSplit: map<Key, SceneValue>, originalScene: SceneValue): map<Key, SceneValue>
  {
    map k | k in newSplit && !EndsWithin(k, originalScene.key) :: newSplit[k]
  }

  /**
   * The strictly-inside branch of from(Collection): the pieces of scene.split(new.start, new.end)
   * whose time matches the new scene, each amended with it.
   */
  function AmendedMatches(pieces: map<Key, SceneValue>, newScene: SceneValue): map<Key, SceneValue>
  {
    map k | k in pieces && MatchesTime(k, newScene.key) :: Amend(pieces[k], newScene)
  }

  /**
   * A new scene strictly inside an existing one: none of the split pieces [s, ns], [s, ne],
   * [ne, e] has the new scene's time, so the branch adds nothing.
   */
  lemma StrictlyInsideAddsNothing(cur: SceneValue, newScene: SceneValue)
    requires newScene.key.start > cur.key.start && newScene.key.end < cur.key.end
    ensures AmendedMatches(SplitAt(cur, [newScene.key.start, newScene.key.end]), newScene) == map[]
  {
    var sp := SplitAt(cur, [newScene.key.start, newScene.key.end]);
    SplitTwoPoints(cur, newScene.key.start, newScene.key.end);
    assert AmendedMatches(sp, newScene).Keys == {};
  }

  /** Splitting at one point gives [start, t] and [t, end]. */
  lemma SplitAtOne(v: SceneValue, t: Time)
    ensures SplitAt(v, [t]) == map[Key(v.key.start, t) := CloneOf(v, v.key.start, t),
                                   Key(t, v.key.end) := CloneOf(v, t, v.key.end)]
  {
  }

  /** No original piece has the new scene's time: the first group of mergeOverlapping is empty. */
  lemma NoneAmended(originalSplit: map<Key, SceneValue>, newScene: SceneValue, newSplit: map<Key, SceneValue>)
    requires forall k :: k in originalSplit ==> !MatchesTime(k, newScene.key)
    ensures AmendedWithCounterparts(originalSplit, newScene, newSplit) == map[]
  {
    assert AmendedWithCounterparts(originalSplit, newScene, newSplit).Keys == {};
  }

  /** Exactly one new piece does not end within the original scene: the second group is that piece. */
  lemma OneKept(newSplit: map<Key, SceneValue>, originalScene: SceneValue, k0: Key)
    requires k0 in newSplit && !EndsWithin(k0, originalScene.key)
    requires forall k :: k in newSplit && k != k0 ==> EndsWithin(k, originalScene.key)
    ensures NotEndingWithin(newSplit, originalScene) == map[k0 := newSplit[k0]]
  {
  }

  /** When no original piece matches and exactly one new piece survives, that piece is the merge. */
  lemma MergeIsOneNewPiece(originalScene: SceneValue, originalSplit: map<Key, SceneValue>,
                           newScene: SceneValue, newSplit: map<Key, SceneValue>, k0: Key)
    requires forall k :: k in originalSplit ==> !MatchesTime(k, newScene.key)
    requires k0 in newSplit && !EndsWithin(k0, originalScene.key)
    requires forall k :: k in newSplit && k != k0 ==> EndsWithin(k, originalScene.key)
    ensures MergeOverlapping(originalScene, originalSplit, newScene, newSplit) == map[k0 := newSplit[k0]]
  {
    NoneAmended(originalSplit, newScene, newSplit);
    OneKept(newSplit, originalScene, k0);
  }

  /**
   * A new scene that starts before an existing one and ends inside it: mergeOverlapping keeps
   * only the new scene's part before the existing start.
   */
  lemma MergeWhenNewStartsBefore(cur: SceneValue, newScene: SceneValue)
    requires newScene.key.start < cur.key.start
    requires newScene.key.end > cur.key.start && newScene.key.end < cur.key.end
    ensures var r := MergeOverlapping(cur, SplitAt(cur, [newScene.key.end]),
                                      newScene, SplitAt(newScene, [cur.key.start]));
            r == map[Key(newScene.key.start, cur.key.start) := CloneOf(newScene, newScene.key.start, cur.key.start)]
  {
    var ns, ne, cs := newScene.key.start, newScene.key.end, cur.key.start;
    SplitAtOne(cur, ne);
    SplitAtOne(newScene, cs);
    MergeIsOneNewPiece(cur, SplitAt(cur, [ne]), newScene, SplitAt(newScene, [cs]), Key(ns, cs));
  }

  /**
   * A new scene that starts inside an existing one and ends after it: mergeOverlapping keeps
   * only the new scene's part after the existing end.
   */
  lemma MergeWhenNewEndsAfter(cur: SceneValue, newScene: SceneValue)
    requires newScene.key.start < cur.key.end && newScene.key.start > cur.key.start
    requires newScene.key.end > cur.key.end
    ensures var r := MergeOverlapping(cur, SplitAt(cur, [newScene.key.start]),
                                      newScene, SplitAt(newScene, [cur.key.end]));
            r == map[Key(cur.key.end, newScene.key.end) := CloneOf(newScene, cur.key.end, newScene.key.end)]
  {
    var ns, ne, ce := newScene.key.start, newScene.key.end, cur.key.end;
    SplitAtOne(cur, ns);
    SplitAtOne(newScene, ce);
    MergeIsOneNewPiece(cur, SplitAt(cur, [ns]), newScene, SplitAt(newScene, [ce]), Key(ce, ne));
  }

  // ---------------------------------------------------------------------------------------------
  // Creation: Scene.create and from(LabelAnnotation)
  // ---------------------------------------------------------------------------------------------

  /** A Duration naming a time of day: seconds within one day, nanos within one second. */
  predicate ValidOffset(d: Duration)
  {
    0 <= d.seconds < SecondsPerDay && 0 <= d.nanos < NanosPerSecond
  }

  /**
   * The bounds Scene.create(startOffset, endOffset) gives, None standing for a null offset:
   * with a start, both bounds come from the offsets and a null end throws; with only an end,
   * the start is midnight; with neither, the start is midnight and the end stays unset. The
   * start offset is converted, and may throw, before the end is looked at.
   */
  function CreateBounds(startOffset: Option<Duration>, endOffset: Option<Duration>)
    : (r: Result<(Time, Option<Time>), Error>)
    ensures startOffset.Some? && !ValidOffset(startOffset.value) ==> r == Failure(DateTimeOutOfRange)
    ensures startOffset.Some? && ValidOffset(startOffset.value) && endOffset.None? ==> r == Failure(NullPointer)
    ensures endOffset.Some? && !ValidOffset(endOffset.value) ==> r == Failure(DateTimeOutOfRange)
    ensures endOffset.Some? && ValidOffset(endOffset.value) && (startOffset.None? || ValidOffset(startOffset.value)) ==>
      && r.Success? && r.value.1.Some?
      && SecondOfDay(r.value.1.value) == endOffset.value.seconds && NanoOf(r.value.1.value) == endOffset.value.nanos
    ensures startOffset.None? && endOffset.None? ==> r == Success((Midnight, None))
    ensures r.Success? && startOffset.Some? ==>
      SecondOfDay(r.value.0) == startOffset.value.seconds && NanoOf(r.value.0) == startOffset.value.nanos
    ensures r.Success? && startOffset.None? ==> r.value.0 == Midnight
  {
    match startOffset
    case Some(so) =>
      (match OfDuration(so)
       case None => Failure(DateTimeOutOfRange)
       case Some(s) =>
         (match endOffset
          case None => Failure(NullPointer)
          case Some(eo) =>
            (match OfDuration(eo)
             case None => Failure(DateTimeOutOfRange)
             case Some(e) => Success((s, Some(e))))))
    case None =>
      (match endOffset
       case None => Success((Midnight, None))
       case Some(eo) =>
         (match OfDuration(eo)
          case None => Failure(DateTimeOutOfRange)
          case Some(e) => Success((Midnight, Some(e)))))
  }

  /** A VideoSegment's two offsets; protobuf getters never return null. */
  datatype VideoSegment = VideoSegment(startTimeOffset: Duration, endTimeOffset: Duration)

  /** A LabelSegment: where a label was seen, and how confidently. */
  datatype LabelSegment = LabelSegment(segment: VideoSegment, confidence: real)

  /** A LabelAnnotation: one label, its categories, and the segments it was seen in. */
  datatype LabelAnnotation = LabelAnnotation(entity: Entity, categoryEntities: seq<Entity>,
                                             segments: seq<LabelSegment>)

  /** The bounds of the scene a segment gives. */
  function SegmentKey(s: LabelSegment): Key
    requires ValidSegment(s)
  {
    Key(OfDuration(s.segment.startTimeOffset).value, OfDuration(s.segment.endTimeOffset).value)
  }

  /** The label a segment contributes to its scene. */
  function SegmentLabel(a: LabelAnnotation, s: LabelSegment): SceneEntity
  {
    CreateWithCategories(s.confidence, a.entity, Some(a.categoryEntities))
  }

  /**
   * Scene.create(start, end, confidence, entity, categories) on a segment of an annotation:
   * the scene of the segment's bounds holding exactly one label and an unspecified likelihood,
   * or the DateTimeException of an offset outside one day.
   */
  function SegmentScene(a: LabelAnnotation, s: LabelSegment): (r: Result<SceneValue, Error>)
    ensures r.Success? <==> ValidOffset(s.segment.startTimeOffset) && ValidOffset(s.segment.endTimeOffset)
    ensures r.Failure? ==> r.error == DateTimeOutOfRange
    ensures r.Success? ==>
      && r.value.key == SegmentKey(s)
      && r.value.entities == {SegmentLabel(a, s)}
      && r.value.likelihood == LikelihoodUnspecified
  {
    match CreateBounds(Some(s.segment.startTimeOffset), Some(s.segment.endTimeOffset))
    case Failure(e) => Failure(e)
    case Success(b) => Success(SceneValue(Key(b.0, b.1.value), {SegmentLabel(a, s)}, LikelihoodUnspecified))
  }

  /** The segments whose confidence reaches the threshold, in their order. */
  function KeptSegments(segments: seq<LabelSegment>, threshold: real): (r: seq<LabelSegment>)
    ensures forall s :: s in r <==> s in segments && s.confidence >= threshold
  {
    if segments == [] then []
    else
      var last := segments[|segments| - 1];
      KeptSegments(segments[..|segments| - 1], threshold) + (if last.confidence >= threshold then [last] else [])
  }

  /**
   * Collecting the scenes of segments into a TreeSet in stream order: the first scene with
   * given bounds stays, later ones with the same bounds are dropped; the first segment whose
   * offsets are out of range throws.
   */
  function CollectScenes(a: LabelAnnotation, segments: seq<LabelSegment>): (r: Result<map<Key, SceneValue>, Error>)
    ensures r.Success? ==> WellKeyed(r.value)
    ensures r.Failure? ==> r.error == DateTimeOutOfRange
  {
    if segments == [] then Success(map[])
    else
      match CollectScenes(a, segments[..|segments| - 1])
      case Failure(e) => Failure(e)
      case Success(m) =>
        match SegmentScene(a, segments[|segments| - 1])
        case Failure(e) => Failure(e)
        case Success(v) => Success(AddAll(m, map[v.key := v]))
  }

  /**
   * Scene.from(LabelAnnotation), None standing for null. No annotation or no segments gives no
   * scene; a single segment gives its scene whatever its confidence; several segments give the
   * scenes of those reaching the threshold, collapsed by bounds.
   */
  function FromAnnotation(annotation: Option<LabelAnnotation>, threshold: real): (r: Result<map<Key, SceneValue>, Error>)
    ensures annotation.None? ==> r == Success(map[])
    ensures annotation.Some? && annotation.value.segments == [] ==> r == Success(map[])
    ensures r.Success? ==> WellKeyed(r.value)
    ensures r.Failure? ==> r.error == DateTimeOutOfRange
  {
    match annotation
    case None => Success(map[])
    case Some(a) =>
      if |a.segments| == 0 then Success(map[])
      else if |a.segments| == 1 then
        match SegmentScene(a, a.segments[0])
        case Failure(e) => Failure(e)
        case Success(v) => Success(map[v.key := v])
      else
        CollectScenes(a, KeptSegments(a.segments, threshold))
  }

  /** A segment is well formed when both its offsets name times of day. */
  predicate ValidSegment(s: LabelSegment)
  {
    ValidOffset(s.segment.startTimeOffset) && ValidOffset(s.segment.endTimeOffset)
  }

  /** The index of the first segment with the given bounds. */
  function FirstWithKey(segments: seq<LabelSegment>, k: Key): (i: nat)
    requires forall s :: s in segments ==> ValidSegment(s)
    requires exists s :: s in segments && ValidSegment(s) && SegmentKey(s) == k
    ensures i < |segments| && SegmentKey(segments[i]) == k
    ensures forall j :: 0 <= j < i ==> SegmentKey(segments[j]) != k
  {
    if SegmentKey(segments[0]) == k then 0
    else
      assert exists s :: s in segments[1..] && ValidSegment(s) && SegmentKey(s) == k by {
        var s :| s in segments && ValidSegment(s) && SegmentKey(s) == k;
        assert s != segments[0];
      }
      1 + FirstWithKey(segments[1..], k)
  }

  /** Collecting well-formed segments yields a scene for exactly the bounds of some segment. */
  lemma {:induction false} CollectScenesKeys(a: LabelAnnotation, segments: seq<LabelSegment>)
    requires forall s :: s in segments ==> ValidSegment(s)
    ensures CollectScenes(a, segments).Success?
    ensures forall k :: k in CollectScenes(a, segments).value <==> exists s :: s in segments && ValidSegment(s) && SegmentKey(s) == k
  {
    if segments != [] {
      var init, last := segments[..|segments| - 1], segments[|segments| - 1];
      assert segments == init + [last];
      assert forall s :: s in segments <==> s in init || s == last;
      CollectScenesKeys(a, init);
      var m := CollectScenes(a, init).value;
      assert last in segments;
      var v := SegmentScene(a, last).value;
      assert CollectScenes(a, segments) == Success(AddAll(m, map[v.key := v]));
      forall k | true
        ensures k in CollectScenes(a, segments).value <==> exists s :: s in segments && ValidSegment(s) && SegmentKey(s) == k
      {
        if exists s :: s in segments && ValidSegment(s) && SegmentKey(s) == k {
          var s :| s in segments && ValidSegment(s) && SegmentKey(s) == k;
          if s != last {
            var i :| 0 <= i < |segments| && segments[i] == s;
            assert i < |segments| - 1;
            assert init[i] == s;
          }
        }
      }
    }
  }

  /**
   * Collecting well-formed segments yields one scene per distinct bounds, valued by the first
   * segment with those bounds.
   */
  lemma {:induction false} CollectScenesFirstWins(a: LabelAnnotation, segments: seq<LabelSegment>)
    requires forall s :: s in segments ==> ValidSegment(s)
    ensures CollectScenes(a, segments).Success?
    ensures forall k :: k in CollectScenes(a, segments).value <==> exists s :: s in segments && ValidSegment(s) && SegmentKey(s) == k
    ensures forall k :: k in CollectScenes(a, segments).value ==>
      CollectScenes(a, segments).value[k] ==
        SceneValue(k, {SegmentLabel(a, segments[FirstWithKey(segments, k)])}, LikelihoodUnspecified)
  {
    CollectScenesKeys(a, segments);
    if segments != [] {
      var init, last := segments[..|segments| - 1], segments[|segments| - 1];
      assert segments == init + [last];
      assert forall s :: s in init ==> s in segments;
      CollectScenesFirstWins(a, init);
      var m := CollectScenes(a, init).value;
      assert last in segments;
      var v := SegmentScene(a, last).value;
      assert CollectScenes(a, segments) == Success(AddAll(m, map[v.key := v]));
      var r := AddAll(m, map[v.key := v]);
      forall k | k in r
        ensures r[k] == SceneValue(k, {SegmentLabel(a, segments[FirstWithKey(segments, k)])}, LikelihoodUnspecified)
      {
        FirstWithKeyPrefix(init, last, k);
        if k in m {
          var i := FirstWithKey(init, k);
          assert segments[i] == init[i];
        } else {
          assert k == v.key && segments[|init|] == last;
        }
      }
    }
  }

  /** Appending a segment leaves the first index of bounds already present unchanged. */
  lemma {:induction false} FirstWithKeyPrefix(init: seq<LabelSegment>, last: LabelSegment, k: Key)
    requires forall s :: s in init + [last] ==> ValidSegment(s)
    requires exists s :: s in init + [last] && ValidSegment(s) && SegmentKey(s) == k
    ensures (exists s :: s in init && ValidSegment(s) && SegmentKey(s) == k) ==>
      (forall s :: s in init ==> ValidSegment(s)) && FirstWithKey(init + [last], k) == FirstWithKey(init, k)
    ensures !(exists s :: s in init && ValidSegment(s) && SegmentKey(s) == k) ==> FirstWithKey(init + [last], k) == |init|
  {
    var segments := init + [last];
    var i := FirstWithKey(segments, k);
    var hasInit := exists s :: s in init && ValidSegment(s) && SegmentKey(s) == k;
    if hasInit {
      assert forall s :: s in init ==> s in segments;
      var j := FirstWithKey(init, k);
      assert segments[j] == init[j];
    }
  }

  /**
   * from(annotation) with several segments, those reaching the threshold well formed: the
   * scenes are those of the segments that reach the threshold, one per bounds, each holding the
   * label of the first such segment. Segments below the threshold are never converted.
   */
  lemma FromSeveralSegments(a: LabelAnnotation, threshold: real)
    requires |a.segments| > 1
    requires forall s :: s in a.segments && s.confidence >= threshold ==> ValidSegment(s)
    ensures var r := FromAnnotation(Some(a), threshold);
      && r.Success?
      && (forall k :: k in r.value <==> exists s :: s in a.segments && s.confidence >= threshold && ValidSegment(s) && SegmentKey(s) == k)
      && (forall k :: k in r.value ==>
            var kept := KeptSegments(a.segments, threshold);
            r.value[k] == SceneValue(k, {SegmentLabel(a, kept[FirstWithKey(kept, k)])}, LikelihoodUnspecified))
  {
    var kept := KeptSegments(a.segments, threshold);
    CollectScenesFirstWins(a, kept);
  }

  /** Two well-formed segments reaching the threshold give the scenes of their two bounds. */
  lemma FromTwoSegments(a: LabelAnnotation, threshold: real)
    requires |a.segments| == 2
    requires ValidSegment(a.segments[0]) && a.segments[0].confidence >= threshold
    requires ValidSegment(a.segments[1]) && a.segments[1].confidence >= threshold
    ensures FromAnnotation(Some(a), threshold).Success?
    ensures FromAnnotation(Some(a), threshold).value.Keys == {SegmentKey(a.segments[0]), SegmentKey(a.segments[1])}
  {
    FromSeveralSegments(a, threshold);
    var r := FromAnnotation(Some(a), threshold).value;
    assert a.segments[0] in a.segments && a.segments[1] in a.segments;
    forall k | k in r ensures k == SegmentKey(a.segments[0]) || k == SegmentKey(a.segments[1]) {
      var s :| s in a.segments && s.confidence >= threshold && ValidSegment(s) && SegmentKey(s) == k;
    }
  }

  /**
   * The threshold shields the conversion: a segment [0 s, 10 s] at 0.9 and one at
   * [90000 s, 90010 s], past the end of the day, at 0.1 give one scene and no exception.
   */
  lemma BelowThresholdNotConverted(entity: Entity)
    ensures var kept := LabelSegment(VideoSegment(Duration(0, 0), Duration(10, 0)), 0.9);
      var low := LabelSegment(VideoSegment(Duration(90000, 0), Duration(90010, 0)), 0.1);
      var a := LabelAnnotation(entity, [], [kept, low]);
      && !ValidSegment(low)
      && FromAnnotation(Some(a), 0.5) ==
           Success(map[SegmentKey(kept) := SceneValue(SegmentKey(kept), {SegmentLabel(a, kept)}, LikelihoodUnspecified)])
  {
    var kept := LabelSegment(VideoSegment(Duration(0, 0), Duration(10, 0)), 0.9);
    var low := LabelSegment(VideoSegment(Duration(90000, 0), Duration(90010, 0)), 0.1);
    var a := LabelAnnotation(entity, [], [kept, low]);
    assert a.segments[..1] == [kept] && [kept][..0] == [];
    assert KeptSegments([kept], 0.5) == KeptSegments([], 0.5) + [kept] == [kept];
    assert KeptSegments(a.segments, 0.5) == KeptSegments([kept], 0.5) + [];
    FromSeveralSegments(a, 0.5);
    var r := FromAnnotation(Some(a), 0.5).value;
    assert !ValidSegment(low);
    assert r.Keys == {SegmentKey(kept)};
    assert r[SegmentKey(kept)] == SceneValue(SegmentKey(kept), {SegmentLabel(a, kept)}, LikelihoodUnspecified);
    assert r == map[SegmentKey(kept) := SceneValue(SegmentKey(kept), {SegmentLabel(a, kept)}, LikelihoodUnspecified)];
  }

  /** from(annotation) with one segment gives that segment's scene, whatever its confidence. */
  lemma FromSingleSegment(a: LabelAnnotation, threshold: real)
    requires |a.segments| == 1
    ensures FromAnnotation(Some(a), threshold).Success? <==> ValidSegment(a.segments[0])
    ensures ValidSegment(a.segments[0]) ==>
      FromAnnotation(Some(a), threshold).value ==
        map[SegmentKey(a.segments[0]) := SceneValue(SegmentKey(a.segments[0]), {SegmentLabel(a, a.segments[0])}, LikelihoodUnspecified)]
  {
  }

  /** from(annotation) fails exactly when a segment it converts has an offset out of range. */
  lemma {:induction false} CollectScenesFails(a: LabelAnnotation, segments: seq<LabelSegment>)
    ensures CollectScenes(a, segments).Failure? <==> exists s :: s in segments && !ValidSegment(s)
  {
    if segments != [] {
      var init, last := segments[..|segments| - 1], segments[|segments| - 1];
      CollectScenesFails(a, init);
      assert segments == init + [last];
      assert forall s :: s in segments <==> s in init || s == last;
      if CollectScenes(a, init).Success? && ValidSegment(last) {
        assert CollectScenes(a, segments).Success?;
      }
    }
  }

  // ---------------------------------------------------------------------------------------------
  // Explicit-content frames
  // ---------------------------------------------------------------------------------------------

  /** An ExplicitContentFrame: a time offset and the likelihood of pornography at that time. */
  datatype ExplicitContentFrame = ExplicitContentFrame(timeOffset: Duration, pornographyLikelihood: Likelihood)

  /** A frame time lies within a scene: at its start, strictly between its bounds, or at its end. */
  predicate Contains(k: Key, t: Time)
  {
    k.start == t || (k.start < t && k.end > t) || k.end == t
  }

  /** For a scene that does not end before it starts, containing is lying within the closed interval. */
  lemma ContainsIsClosedInterval(k: Key, t: Time)
    requires k.start <= k.end
    ensures Contains(k, t) <==> k.start <= t <= k.end
  {
  }

  /**
   * Scene.updateExplicitContentLikelihoodIfContains(frame), None standing for null: a frame
   * whose time lies in the scene and whose likelihood ranks higher replaces the likelihood;
   * a frame offset outside one day throws; nothing else changes.
   */
  function ApplyFrame(v: SceneValue, frame: Option<ExplicitContentFrame>): (r: Result<SceneValue, Error>)
    ensures frame.None? ==> r == Success(v)
    ensures r.Failure? <==> frame.Some? && !ValidOffset(frame.value.timeOffset)
    ensures r.Failure? ==> r.error == DateTimeOutOfRange
    ensures r.Success? ==> r.value.key == v.key && r.value.entities == v.entities
    ensures r.Success? ==> Rank(r.value.likelihood) >= Rank(v.likelihood)
    ensures r.Success? && r.value.likelihood != v.likelihood ==>
      && frame.Some?
      && Contains(v.key, OfDuration(frame.value.timeOffset).value)
      && r.value.likelihood == frame.value.pornographyLikelihood
    ensures r.Success? && frame.Some? && Contains(v.key, OfDuration(frame.value.timeOffset).value) ==>
      Rank(r.value.likelihood) >= Rank(frame.value.pornographyLikelihood)
  {
    match frame
    case None => Success(v)
    case Some(f) =>
      match OfDuration(f.timeOffset)
      case None => Failure(DateTimeOutOfRange)
      case Some(t) =>
        if Contains(v.key, t) && Rank(f.pornographyLikelihood) > Rank(v.likelihood) then
          Success(v.(likelihood := f.pornographyLikelihood))
        else
          Success(v)
  }

  /** Applying the same frame twice is applying it once. */
  lemma ApplyFrameIdempotent(v: SceneValue, frame: Option<ExplicitContentFrame>)
    requires ApplyFrame(v, frame).Success?
    ensures ApplyFrame(ApplyFrame(v, frame).value, frame) == ApplyFrame(v, frame)
  {
  }

  /** Two frames can be applied in either order. */
  lemma ApplyFramesCommute(v: SceneValue, f: ExplicitContentFrame, g: ExplicitContentFrame)
    requires ValidOffset(f.timeOffset) && ValidOffset(g.timeOffset)
    ensures ApplyFrame(ApplyFrame(v, Some(f)).value, Some(g)).value == ApplyFrame(ApplyFrame(v, Some(g)).value, Some(f)).value
  {
    var tf, tg := OfDuration(f.timeOffset).value, OfDuration(g.timeOffset).value;
    if Contains(v.key, tf) && Contains(v.key, tg) {
      RaiseCommutes(v.likelihood, f.pornographyLikelihood, g.pornographyLikelihood);
      if Rank(f.pornographyLikelihood) == Rank(g.pornographyLikelihood) {
        RankInjective(f.pornographyLikelihood, g.pornographyLikelihood);
      }
    }
  }

  // ---------------------------------------------------------------------------------------------
  // The Scene object
  // ---------------------------------------------------------------------------------------------

  /**
   * A Scene object. Its bounds are set once, at construction; its entities and its likelihood
   * of explicit content are updated in place by amendWith and by the frame update.
   */
  class Scene {
    const start: Time
    const end: Option<Time>
    var entities: set<SceneEntity>
    var likelihood: Likelihood

    /** new Scene(start, end): no entities, an unspecified likelihood. */
    constructor (start: Time, end: Option<Time>)
      ensures this.start == start && this.end == end
      ensures entities == {} && likelihood == LikelihoodUnspecified
    {
      this.start := start;
      this.end := end;
      entities := {};
      likelihood := LikelihoodUnspecified;
    }

    /** The end is set: the scene can be ordered, compared and filed in a TreeSet. */
    predicate Closed()
    {
      end.Some?
    }

    /** The bounds compareTo orders the scene by. */
    function Bounds(): Key
      requires Closed()
    {
      Key(start, end.value)
    }

    /** The current state of the scene. */
    function Value(): (v: SceneValue)
      requires Closed()
      reads this
      ensures v.key == Bounds() && v.entities == entities && v.likelihood == likelihood
    {
      SceneValue(Bounds(), entities, likelihood)
    }

    /** Scene.create(startOffset, endOffset): a fresh scene with the bounds of CreateBounds. */
    static method Create(startOffset: Option<Duration>, endOffset: Option<Duration>) returns (r: Result<Scene, Error>)
      ensures r.Success? <==> CreateBounds(startOffset, endOffset).Success?
      ensures r.Failure? ==> r.error == CreateBounds(startOffset, endOffset).error
      ensures r.Success? ==>
        && fresh(r.value)
        && (r.value.start, r.value.end) == CreateBounds(startOffset, endOffset).value
        && r.value.entities == {} && r.value.likelihood == LikelihoodUnspecified
    {
      var b := CreateBounds(startOffset, endOffset);
      if b.Failure? {
        return Failure(b.error);
      }
      var scene := new Scene(b.value.0, b.value.1);
      return Success(scene);
    }

    /**
     * Scene.create(startOffset, endOffset, confidence, entity, categoryEntities): the created
     * scene holding exactly one SceneEntity.
     */
    static method CreateWithEntity(startOffset: Option<Duration>, endOffset: Option<Duration>,
                                   confidence: real, entity: Entity, categoryEntities: Option<seq<Entity>>)
      returns (r: Result<Scene, Error>)
      ensures r.Success? <==> CreateBounds(startOffset, endOffset).Success?
      ensures r.Failure? ==> r.error == CreateBounds(startOffset, endOffset).error
      ensures r.Success? ==>
        && fresh(r.value)
        && (r.value.start, r.value.end) == CreateBounds(startOffset, endOffset).value
        && r.value.entities == {CreateWithCategories(confidence, entity, categoryEntities)}
        && r.value.likelihood == LikelihoodUnspecified
    {
      r := Create(startOffset, endOffset);
      if r.Success? {
        var scene := r.value;
        scene.entities := scene.entities + {CreateWithCategories(confidence, entity, categoryEntities)};
      }
    }

    /** Scene.clone(newStart, newEnd): a fresh scene with this one's entities and likelihood. */
    method Clone(newStart: Time, newEnd: Time) returns (scene: Scene)
      ensures fresh(scene)
      ensures scene.Closed() && scene.Value() == SceneValue(Key(newStart, newEnd), entities, likelihood)
      ensures Closed() ==> scene.Value() == CloneOf(Value(), newStart, newEnd)
    {
      scene := new Scene(newStart, Some(newEnd));
      scene.entities := scene.entities + entities;
      scene.likelihood := likelihood;
    }

    /**
     * Scene.amendWith(scene): when the bounds match, this scene takes the union of both entity
     * sets and the higher-ranked likelihood; it returns itself.
     */
    method AmendWith(scene: Scene) returns (r: Scene)
      requires Closed() && scene.Closed()
      modifies this
      ensures r == this
      ensures Value() == Amend(old(Value()), old(scene.Value()))
    {
      if MatchesTime(Bounds(), scene.Bounds()) {
        entities := entities + scene.entities;
        if Rank(scene.likelihood) > Rank(likelihood) {
          likelihood := scene.likelihood;
        }
      }
      r := this;
    }

    /**
     * Scene.updateExplicitContentLikelihoodIfContains(frame): the scene takes the state
     * ApplyFrame gives and the call returns the resulting likelihood; on an offset out of
     * range it throws before changing anything.
     */
    method UpdateExplicitContentLikelihoodIfContains(frame: Option<ExplicitContentFrame>)
      returns (r: Result<Likelihood, Error>)
      requires Closed()
      modifies this
      ensures r.Success? <==> ApplyFrame(old(Value()), frame).Success?
      ensures r.Failure? ==> r.error == DateTimeOutOfRange && Value() == old(Value())
      ensures r.Success? ==> Value() == ApplyFrame(old(Value()), frame).value && r.value == likelihood
    {
      if frame.Some? {
        var t := OfDuration(frame.value.timeOffset);
        if t.None? {
          return Failure(DateTimeOutOfRange);
        }
        var frameOffset := t.value;
        if (start == frameOffset || (start < frameOffset && end.value > frameOffset) || end.value == frameOffset)
           && Rank(frame.value.pornographyLikelihood) > Rank(likelihood) {
          likelihood := frame.value.pornographyLikelihood;
        }
      }
      return Success(likelihood);
    }
  }

  // ---------------------------------------------------------------------------------------------
  // TreeSet<Scene> as a map from bounds to Scene objects
  // ---------------------------------------------------------------------------------------------

  /**
   * A TreeSet of Scene objects: every scene is closed and filed under its own bounds (so no
   * object is filed twice).
   */
  ghost predicate SceneSet(m: map<Key, Scene>)
  {
    forall k :: k in m ==> m[k].Closed() && m[k].Bounds() == k
  }

  /** The states of the scenes of a set. */
  function Abs(m: map<Key, Scene>): (r: map<Key, SceneValue>)
    requires forall k :: k in m ==> m[k].Closed()
    reads m.Values
    ensures r.Keys == m.Keys
    ensures forall k :: k in m ==> r[k] == m[k].Value()
  {
    map k | k in m :: m[k].Value()
  }

  /** The states of a well-formed set of scenes are filed under their own bounds. */
  lemma AbsWellKeyed(m: map<Key, Scene>)
    requires SceneSet(m)
    ensures WellKeyed(Abs(m))
  {
  }

  /** TreeSet.addAll on objects is the value-level AddAll on their states. */
  lemma AbsAddAll(m: map<Key, Scene>, elements: map<Key, Scene>)
    requires forall k :: k in m ==> m[k].Closed()
    requires forall k :: k in elements ==> elements[k].Closed()
    ensures Abs(elements + m) == AddAll(Abs(m), Abs(elements))
  {
  }

  /** Two well-formed sets of scenes with no object in common join into a well-formed set. */
  lemma SceneSetUnion(m: map<Key, Scene>, elements: map<Key, Scene>)
    requires SceneSet(m) && SceneSet(elements)
    requires forall k, j :: k in m && j in elements ==> m[k] != elements[j]
    ensures SceneSet(elements + m)
  {
  }

  /** Removing bounds from a set of scenes removes them from its states. */
  lemma AbsRemove(m: map<Key, Scene>, k: Key)
    requires forall j :: j in m ==> m[j].Closed()
    ensures Abs(m - {k}) == Abs(m) - {k}
  {
  }

  /** Fresh Scene objects holding the given states. */
  method Materialize(vals: map<Key, SceneValue>) returns (objs: map<Key, Scene>)
    requires WellKeyed(vals)
    ensures SceneSet(objs)
    ensures forall k :: k in objs ==> fresh(objs[k])
    ensures Abs(objs) == vals
  {
    objs := map[];
    var todo := vals.Keys;
    while todo != {}
      invariant todo <= vals.Keys
      invariant objs.Keys == vals.Keys - todo
      invariant SceneSet(objs)
      invariant forall k :: k in objs ==> fresh(objs[k])
      invariant forall k :: k in objs ==> objs[k].Value() == vals[k]
      decreases todo
    {
      var k :| k in todo;
      var v := vals[k];
      var scene := new Scene(v.key.start, Some(v.key.end));
      scene.entities := v.entities;
      scene.likelihood := v.likelihood;
      objs := objs[k := scene];
      todo := todo - {k};
    }
  }
}
