/**
 * InitAnalysisController: the loop of initCloudIntel that gathers the scenes of every
 * annotation result and applies that result's explicit-content frames to them, and the pure
 * helpers getBucketName, both getBlobName and exportTextTrack.
 */
module InitAnalysis {
  import opened Wrappers
  import opened Times
  import opened Likelihoods
  import opened Texts
  import opened Seqs
  import opened Scenes
  import opened Consolidation

  /** One VideoAnnotationResults: its shot label annotations and its explicit-content frames. */
  datatype AnnotationResults = AnnotationResults(shotLabelAnnotations: seq<LabelAnnotation>,
                                                 frames: seq<ExplicitContentFrame>)

  // ---------------------------------------------------------------------------------------------
  // The value-level loop
  // ---------------------------------------------------------------------------------------------

  /**
   * scenes.forEach(s -> s.updateExplicitContentLikelihoodIfContains(f)): every scene takes the
   * frame. An empty set calls nothing and cannot throw; otherwise an offset outside one day
   * throws at the first scene.
   */
  function FrameAll(m: map<Key, SceneValue>, f: ExplicitContentFrame): (r: Result<map<Key, SceneValue>, Error>)
    ensures r.Failure? <==> m != map[] && !ValidOffset(f.timeOffset)
    ensures r.Failure? ==> r.error == DateTimeOutOfRange
    ensures r.Success? ==> r.value.Keys == m.Keys
  {
    if m == map[] then Success(m)
    else if !ValidOffset(f.timeOffset) then Failure(DateTimeOutOfRange)
    else Success(map k | k in m :: ApplyFrame(m[k], Some(f)).value)
  }

  /** The frames of one result, in order, each applied to every scene. */
  function ApplyFrames(m: map<Key, SceneValue>, frames: seq<ExplicitContentFrame>): Result<map<Key, SceneValue>, Error>
  {
    if frames == [] then Success(m)
    else
      match ApplyFrames(m, frames[..|frames| - 1])
      case Failure(e) => Failure(e)
      case Success(applied) => FrameAll(applied, frames[|frames| - 1])
  }

  /**
   * One turn of the loop over the results: the scenes of the shot label annotations are added
   * to the running set, first come first kept, and then the result's frames are applied.
   */
  function ResultStep(m: map<Key, SceneValue>, res: AnnotationResults, threshold: real,
                      order: map<Key, SceneValue> -> seq<Key>): Result<map<Key, SceneValue>, Error>
  {
    match Consolidate(Some(res.shotLabelAnnotations), threshold, order)
    case Failure(e) => Failure(e)
    case Success(added) => ApplyFrames(AddAll(m, added), res.frames)
  }

  /** The loop over the results, from an empty set. */
  function GatherAll(results: seq<AnnotationResults>, threshold: real,
                     order: map<Key, SceneValue> -> seq<Key>): Result<map<Key, SceneValue>, Error>
  {
    if results == [] then Success(map[])
    else
      match GatherAll(results[..|results| - 1], threshold, order)
      case Failure(e) => Failure(e)
      case Success(m) => ResultStep(m, results[|results| - 1], threshold, order)
  }

  /** The message of the exception initCloudIntel throws when there are no results. */
  function NothingDetectedMessage(videoId: string): string
  {
    "Could not detect anything in " + videoId
  }

  /** The scenes initCloudIntel returns for a video, or the exception it throws. */
  function Gather(videoId: string, results: seq<AnnotationResults>, threshold: real,
                  order: map<Key, SceneValue> -> seq<Key>): (r: Result<map<Key, SceneValue>, Error>)
    ensures results == [] ==> r == Failure(NothingDetected(NothingDetectedMessage(videoId)))
  {
    if results == [] then Failure(NothingDetected(NothingDetectedMessage(videoId)))
    else GatherAll(results, threshold, order)
  }

  // ---------------------------------------------------------------------------------------------
  // What the frames do
  // ---------------------------------------------------------------------------------------------

  /** A frame removes no scene, changes no labels and lowers no likelihood. */
  lemma FrameAllKeeps(m: map<Key, SceneValue>, f: ExplicitContentFrame)
    requires FrameAll(m, f).Success?
    ensures var r := FrameAll(m, f).value;
      && r.Keys == m.Keys
      && forall k :: k in m ==>
        r[k].key == m[k].key && r[k].entities == m[k].entities && Rank(r[k].likelihood) >= Rank(m[k].likelihood)
  {
  }

  /** The frames of a result remove no scene, change no labels and lower no likelihood. */
  lemma {:induction false} ApplyFramesKeeps(m: map<Key, SceneValue>, frames: seq<ExplicitContentFrame>)
    requires ApplyFrames(m, frames).Success?
    ensures var r := ApplyFrames(m, frames).value;
      && r.Keys == m.Keys
      && forall k :: k in m ==>
        r[k].key == m[k].key && r[k].entities == m[k].entities && Rank(r[k].likelihood) >= Rank(m[k].likelihood)
  {
    if frames != [] {
      var init := frames[..|frames| - 1];
      ApplyFramesKeeps(m, init);
      FrameAllKeeps(ApplyFrames(m, init).value, frames[|frames| - 1]);
    }
  }

  /** Two frames can be applied to every scene in either order. */
  lemma FrameAllCommutes(m: map<Key, SceneValue>, f: ExplicitContentFrame, g: ExplicitContentFrame)
    requires FrameAll(m, f).Success? && FrameAll(m, g).Success?
    ensures FrameAll(FrameAll(m, f).value, g) == FrameAll(FrameAll(m, g).value, f)
  {
    if m != map[] {
      var mf, mg := FrameAll(m, f).value, FrameAll(m, g).value;
      var k0 :| k0 in m;
      assert k0 in mf && k0 in mg;
      var fg, gf := FrameAll(mf, g).value, FrameAll(mg, f).value;
      forall k | k in m ensures fg[k] == gf[k] {
        ApplyFramesCommute(m[k], f, g);
      }
      assert fg == gf;
    }
  }

  /** The highest rank among a scene's own likelihood and the frames that fall inside it. */
  function Highest(v: SceneValue, frames: seq<ExplicitContentFrame>): (n: nat)
    ensures n >= Rank(v.likelihood)
  {
    if frames == [] then Rank(v.likelihood)
    else
      var f := frames[|frames| - 1];
      var rest := Highest(v, frames[..|frames| - 1]);
      if ValidOffset(f.timeOffset) && Contains(v.key, OfDuration(f.timeOffset).value) && Rank(f.pornographyLikelihood) > rest
      then Rank(f.pornographyLikelihood)
      else rest
  }

  /** One frame on one scene takes its likelihood to the highest rank seen so far. */
  lemma ApplyFrameHighest(v: SceneValue, frames: seq<ExplicitContentFrame>, w: SceneValue, f: ExplicitContentFrame)
    requires ValidOffset(f.timeOffset) && w.key == v.key && Rank(w.likelihood) == Highest(v, frames)
    ensures Rank(ApplyFrame(w, Some(f)).value.likelihood) == Highest(v, frames + [f])
  {
    assert (frames + [f])[..|frames|] == frames;
  }

  /**
   * After the frames of a result, every scene's likelihood has the highest rank among its own
   * and those of the frames inside it, whatever the order of the frames.
   */
  lemma {:induction false} ApplyFramesHighest(m: map<Key, SceneValue>, frames: seq<ExplicitContentFrame>)
    requires ApplyFrames(m, frames).Success?
    ensures forall k :: k in m ==>
      k in ApplyFrames(m, frames).value && Rank(ApplyFrames(m, frames).value[k].likelihood) == Highest(m[k], frames)
  {
    ApplyFramesKeeps(m, frames);
    if frames != [] {
      var init, f := frames[..|frames| - 1], frames[|frames| - 1];
      assert frames == init + [f];
      ApplyFramesHighest(m, init);
      ApplyFramesKeeps(m, init);
      var applied := ApplyFrames(m, init).value;
      if m != map[] {
        forall k | k in m
          ensures Rank(ApplyFrames(m, frames).value[k].likelihood) == Highest(m[k], frames)
        {
          ApplyFrameHighest(m[k], init, applied[k], f);
        }
      }
    }
  }

  /** One result keeps every scene gathered so far, with its labels; it may only raise likelihoods. */
  lemma ResultStepKeeps(m: map<Key, SceneValue>, res: AnnotationResults, threshold: real,
                        order: map<Key, SceneValue> -> seq<Key>)
    requires ResultStep(m, res, threshold, order).Success?
    ensures var r := ResultStep(m, res, threshold, order).value;
      && m.Keys <= r.Keys
      && forall k :: k in m ==> r[k].entities == m[k].entities && Rank(r[k].likelihood) >= Rank(m[k].likelihood)
  {
    var added := Consolidate(Some(res.shotLabelAnnotations), threshold, order).value;
    ApplyFramesKeeps(AddAll(m, added), res.frames);
  }

  /** An exception from one result ends the loop: no later result is looked at. */
  lemma {:induction false} GatherFailureSticks(results: seq<AnnotationResults>, i: nat, threshold: real,
                                               order: map<Key, SceneValue> -> seq<Key>)
    requires i <= |results|
    requires GatherAll(results[..i], threshold, order).Failure?
    ensures GatherAll(results, threshold, order) == GatherAll(results[..i], threshold, order)
    decreases |results|
  {
    if i < |results| {
      var init := results[..|results| - 1];
      assert init[..i] == results[..i];
      GatherFailureSticks(init, i, threshold, order);
    } else {
      assert results[..i] == results;
    }
  }

  // ---------------------------------------------------------------------------------------------
  // The loop of initCloudIntel over Scene objects
  // ---------------------------------------------------------------------------------------------

  /** Distinct positions of the ascending key sequence hold distinct keys. */
  lemma SortedKeysDistinctAt(s: set<Key>, i: nat)
    requires i < |SortedKeys(s)|
    ensures forall j :: 0 <= j < |SortedKeys(s)| && j != i ==> SortedKeys(s)[j] != SortedKeys(s)[i]
  {
    SortedKeysAscending(s);
  }

  /** The states after the frame has reached the scenes at the bounds in `done`. */
  function Mixed(m0: map<Key, SceneValue>, f: ExplicitContentFrame, done: seq<Key>): (r: map<Key, SceneValue>)
    requires done != [] ==> ValidOffset(f.timeOffset)
    ensures r.Keys == m0.Keys
  {
    map k | k in m0 :: if k in done then ApplyFrame(m0[k], Some(f)).value else m0[k]
  }

  /** The frame reaching one more scene changes that scene's state alone. */
  lemma MixedStep(m0: map<Key, SceneValue>, f: ExplicitContentFrame, keys: seq<Key>, i: nat)
    requires ValidOffset(f.timeOffset) && i < |keys| && keys[i] in m0 && keys[i] !in keys[..i]
    ensures Mixed(m0, f, keys[..i + 1]) ==
      Mixed(m0, f, keys[..i])[keys[i] := ApplyFrame(Mixed(m0, f, keys[..i])[keys[i]], Some(f)).value]
  {
    assert keys[..i + 1] == keys[..i] + [keys[i]];
  }

  /** Before the frame reaches any scene, the states are the initial ones. */
  lemma MixedNone(m0: map<Key, SceneValue>, f: ExplicitContentFrame)
    ensures Mixed(m0, f, []) == m0
  {
  }

  /** Once the frame has reached the scene at every bounds, the states are those of FrameAll. */
  lemma MixedAll(m0: map<Key, SceneValue>, f: ExplicitContentFrame, keys: seq<Key>)
    requires forall k :: k in keys <==> k in m0
    requires keys != [] ==> ValidOffset(f.timeOffset)
    ensures FrameAll(m0, f) == Success(Mixed(m0, f, keys))
  {
    var mx := Mixed(m0, f, keys);
    if m0 != map[] {
      var k0 :| k0 in m0;
      assert k0 in keys;
      var fa := FrameAll(m0, f).value;
      forall k | k in m0 ensures fa[k] == mx[k] {
        assert k in keys;
      }
      assert fa == mx;
    } else {
      assert mx == m0;
    }
  }

  /** The frame on the set's member at some bounds: the set's states change at those bounds alone. */
  method FrameOne(scenes: map<Key, Scene>, scene: Scene, f: ExplicitContentFrame) returns (err: Option<Error>)
    requires SceneSet(scenes) && scene.Closed() && scene.Bounds() in scenes && scenes[scene.Bounds()] == scene
    modifies scene
    ensures err.None? <==> ValidOffset(f.timeOffset)
    ensures err.Some? ==> err.value == DateTimeOutOfRange
    ensures err.None? ==> Abs(scenes) == old(Abs(scenes))[scene.Bounds() := ApplyFrame(old(scene.Value()), Some(f)).value]
  {
    ghost var before := Abs(scenes);
    var res := scene.UpdateExplicitContentLikelihoodIfContains(Some(f));
    if res.Failure? {
      return Some(res.error);
    }
    forall j | j in scenes
      ensures Abs(scenes)[j] == before[scene.Bounds() := scene.Value()][j]
    {
      if j != scene.Bounds() {
        assert scenes[j] != scene;
      }
    }
    return None;
  }

  /** One frame applied to every scene of the set, in the set's ascending order. */
  method ApplyFrameToAll(scenes: map<Key, Scene>, f: ExplicitContentFrame) returns (err: Option<Error>)
    requires SceneSet(scenes)
    modifies scenes.Values
    ensures err.None? <==> FrameAll(old(Abs(scenes)), f).Success?
    ensures err.Some? ==> err.value == FrameAll(old(Abs(scenes)), f).error
    ensures err.None? ==> Abs(scenes) == FrameAll(old(Abs(scenes)), f).value
  {
    ghost var m0 := Abs(scenes);
    var keys := SortedKeys(scenes.Keys);
    MixedNone(m0, f);
    var i := 0;
    while i < |keys|
      invariant 0 <= i <= |keys|
      invariant i > 0 ==> ValidOffset(f.timeOffset)
      invariant Abs(scenes) == Mixed(m0, f, keys[..i])
    {
      SortedKeysDistinctAt(scenes.Keys, i);
      var scene := scenes[keys[i]];
      err := FrameOne(scenes, scene, f);
      if err.Some? {
        assert keys[i] in m0;
        return;
      }
      MixedStep(m0, f, keys, i);
      i := i + 1;
    }
    TakeAll(keys, i);
    MixedAll(m0, f, keys);
    err := None;
  }

  /** The frames of one result, in order, each applied to every scene of the set. */
  method ApplyFramesToAll(scenes: map<Key, Scene>, frames: seq<ExplicitContentFrame>) returns (err: Option<Error>)
    requires SceneSet(scenes)
    modifies scenes.Values
    ensures err.None? <==> ApplyFrames(old(Abs(scenes)), frames).Success?
    ensures err.Some? ==> err.value == ApplyFrames(old(Abs(scenes)), frames).error
    ensures err.None? ==> Abs(scenes) == ApplyFrames(old(Abs(scenes)), frames).value
  {
    ghost var m0 := Abs(scenes);
    var i := 0;
    while i < |frames|
      invariant 0 <= i <= |frames|
      invariant ApplyFrames(m0, frames[..i]) == Success(Abs(scenes))
    {
      assert frames[..i + 1][..i] == frames[..i];
      err := ApplyFrameToAll(scenes, frames[i]);
      if err.Some? {
        ApplyFramesFailureSticks(m0, frames, i + 1);
        return;
      }
      i := i + 1;
    }
    TakeAll(frames, i);
    err := None;
  }

  /** A frame that throws ends the loop over the frames. */
  lemma {:induction false} ApplyFramesFailureSticks(m: map<Key, SceneValue>, frames: seq<ExplicitContentFrame>, i: nat)
    requires i <= |frames|
    requires ApplyFrames(m, frames[..i]).Failure?
    ensures ApplyFrames(m, frames) == ApplyFrames(m, frames[..i])
    decreases |frames|
  {
    if i < |frames| {
      var init := frames[..|frames| - 1];
      assert init[..i] == frames[..i];
      ApplyFramesFailureSticks(m, init, i);
    } else {
      assert frames[..i] == frames;
    }
  }

  /** One turn of the loop over the results, on objects. */
  method AddResult(scenes: map<Key, Scene>, res: AnnotationResults, threshold: real,
                   order: map<Key, SceneValue> -> seq<Key>)
    returns (r: Result<map<Key, Scene>, Error>)
    requires SceneSet(scenes)
    requires forall m :: IsEnumeration(order(m), m.Keys)
    modifies scenes.Values
    ensures r.Success? <==> ResultStep(old(Abs(scenes)), res, threshold, order).Success?
    ensures r.Failure? ==> r.error == ResultStep(old(Abs(scenes)), res, threshold, order).error
    ensures r.Success? ==>
      && SceneSet(r.value)
      && Abs(r.value) == ResultStep(old(Abs(scenes)), res, threshold, order).value
      && forall k :: k in r.value ==> fresh(r.value[k]) || (k in scenes && r.value[k] == scenes[k])
  {
    var added := From(Some(res.shotLabelAnnotations), threshold, order);
    if added.Failure? {
      return Failure(added.error);
    }
    var merged := added.value + scenes;
    SceneSetUnion(scenes, added.value);
    AbsAddAll(scenes, added.value);
    var err := ApplyFramesToAll(merged, res.frames);
    if err.Some? {
      return Failure(err.value);
    }
    return Success(merged);
  }

  /**
   * initCloudIntel once the annotation service has answered: no results throw; otherwise the
   * TreeSet gathered from all results, holding new Scene objects whose states are the
   * value-level result.
   */
  method GatherScenes(videoId: string, results: seq<AnnotationResults>, threshold: real,
                      order: map<Key, SceneValue> -> seq<Key>)
    returns (r: Result<map<Key, Scene>, Error>)
    requires forall m :: IsEnumeration(order(m), m.Keys)
    ensures r.Success? <==> Gather(videoId, results, threshold, order).Success?
    ensures r.Failure? ==> r.error == Gather(videoId, results, threshold, order).error
    ensures r.Success? ==>
      && SceneSet(r.value)
      && Abs(r.value) == Gather(videoId, results, threshold, order).value
      && forall k :: k in r.value ==> fresh(r.value[k])
  {
    if results == [] {
      return Failure(NothingDetected(NothingDetectedMessage(videoId)));
    }
    var scenes: map<Key, Scene> := map[];
    var i := 0;
    while i < |results|
      invariant 0 <= i <= |results|
      invariant SceneSet(scenes) && forall k :: k in scenes ==> fresh(scenes[k])
      invariant GatherAll(results[..i], threshold, order) == Success(Abs(scenes))
    {
      assert results[..i + 1][..i] == results[..i];
      var next := AddResult(scenes, results[i], threshold, order);
      if next.Failure? {
        GatherFailureSticks(results, i + 1, threshold, order);
        return next;
      }
      scenes := next.value;
      i := i + 1;
    }
    TakeAll(results, i);
    return Success(scenes);
  }

  // ---------------------------------------------------------------------------------------------
  // Bucket and blob names
  // ---------------------------------------------------------------------------------------------

  /** The scheme prefix of a Cloud Storage URL. */
  const GcsScheme: string := "gs://"

  /** [a-z0-9\-]: a character of a bucket name. */
  predicate IsBucketChar(c: char)
  {
    ('a' <= c <= 'z') || ('0' <= c <= '9') || c == '-'
  }

  /** [a-zA-Z0-9]. */
  predicate IsAlnum(c: char)
  {
    ('a' <= c <= 'z') || ('A' <= c <= 'Z') || ('0' <= c <= '9')
  }

  /** \w: a word character. */
  predicate IsWordChar(c: char)
  {
    IsAlnum(c) || c == '_'
  }

  /** ([a-z0-9\-]+): group 1, the bucket name. */
  predicate IsBucketName(b: string)
  {
    |b| > 0 && forall i :: 0 <= i < |b| ==> IsBucketChar(b[i])
  }

  /**
   * (\w+\/?)*: word characters and slashes, no slash first and no two slashes in a row.
   */
  predicate IsPathPart(p: string)
  {
    && (forall i :: 0 <= i < |p| ==> IsWordChar(p[i]) || p[i] == '/')
    && (p != [] ==> p[0] != '/')
    && (forall i :: 0 < i < |p| && p[i] == '/' ==> p[i - 1] != '/')
  }

  /** (\.[a-zA-Z0-9]+)*: extensions, each a dot followed by letters and digits. */
  predicate IsExtensionPart(e: string)
  {
    && (e != [] ==> e[0] == '.')
    && forall i :: 0 <= i < |e| ==> IsAlnum(e[i]) || (e[i] == '.' && i + 1 < |e| && IsAlnum(e[i + 1]))
  }

  /** What follows the bucket and its slash: a path part and then an extension part. */
  ghost predicate IsObjectPath(rest: string)
  {
    exists j :: 0 <= j <= |rest| && IsPathPart(rest[..j]) && IsExtensionPart(rest[j..])
  }

  /**
   * GCS_URL_PATTERN.matcher(url).matches() with group 1 equal to `bucket`, written as the
   * pattern reads.
   */
  ghost predicate MatchesGcsUrl(url: string, bucket: string)
  {
    exists rest :: url == GcsScheme + bucket + "/" + rest && IsBucketName(bucket) && IsObjectPath(rest)
  }

  /** The index of the first occurrence of c in s, or |s|. */
  function IndexOf(s: string, c: char): (i: nat)
    ensures i <= |s| && c !in s[..i]
    ensures i < |s| ==> s[i] == c
  {
    if s == [] then 0
    else if s[0] == c then 0
    else
      var j := IndexOf(s[1..], c);
      assert s[..j + 1] == [s[0]] + s[1..][..j];
      j + 1
  }

  /** The object path, split where the extension part must begin: at its first dot. */
  predicate IsObjectPathAt(rest: string)
  {
    var j := IndexOf(rest, '.');
    IsPathPart(rest[..j]) && IsExtensionPart(rest[j..])
  }

  /** The extension part can only begin at the first dot, since the path part has none. */
  lemma ObjectPathSplitsAtFirstDot(rest: string)
    ensures IsObjectPath(rest) <==> IsObjectPathAt(rest)
  {
    var d := IndexOf(rest, '.');
    if IsObjectPathAt(rest) {
      assert 0 <= d <= |rest| && IsPathPart(rest[..d]) && IsExtensionPart(rest[d..]);
    }
    if IsObjectPath(rest) {
      var j :| 0 <= j <= |rest| && IsPathPart(rest[..j]) && IsExtensionPart(rest[j..]);
    }
  }

  /**
   * getBucketName: group 1 when the whole URL matches GCS_URL_PATTERN, None standing for null.
   * The bucket is everything between the scheme and the first slash, since no bucket character
   * is a slash. The pattern has three groups, so the groupCount() > 1 test always succeeds.
   */
  function GetBucketName(url: string): (r: Option<string>)
  {
    if |url| < |GcsScheme| || url[..|GcsScheme|] != GcsScheme then None
    else
      var tail := url[|GcsScheme|..];
      var slash := IndexOf(tail, '/');
      if slash == |tail| then None
      else
        var bucket, rest := tail[..slash], tail[slash + 1..];
        if IsBucketName(bucket) && IsObjectPathAt(rest) then Some(bucket) else None
  }

  /** A URL of the pattern splits back into its scheme, bucket, slash and object path. */
  lemma GcsUrlParts(bucket: string, rest: string)
    requires IsBucketName(bucket)
    ensures var url := GcsScheme + bucket + "/" + rest;
      && url[..|GcsScheme|] == GcsScheme
      && url[|GcsScheme|..] == bucket + "/" + rest
      && IndexOf(bucket + "/" + rest, '/') == |bucket|
  {
    var tail := bucket + "/" + rest;
    assert tail[..|bucket|] == bucket;
    forall i | 0 <= i < |bucket| ensures bucket[i] != '/' {
      assert IsBucketChar(bucket[i]);
    }
    assert '/' !in bucket;
    assert tail[|bucket|] == '/';
    IndexOfFirst(tail, '/', |bucket|);
  }

  /** An index holding c with no c before it is the first index of c. */
  lemma {:induction false} IndexOfFirst(s: string, c: char, i: nat)
    requires i < |s| && s[i] == c && c !in s[..i]
    ensures IndexOf(s, c) == i
  {
    if i > 0 {
      assert s[0] in s[..i];
      assert s[1..][..i - 1] == s[..i][1..];
      IndexOfFirst(s[1..], c, i - 1);
    }
  }

  /** A URL that matches the pattern gives its group 1 as the bucket. */
  lemma MatchGivesBucket(url: string, bucket: string)
    requires MatchesGcsUrl(url, bucket)
    ensures GetBucketName(url) == Some(bucket)
  {
    var rest :| url == GcsScheme + bucket + "/" + rest && IsBucketName(bucket) && IsObjectPath(rest);
    GcsUrlParts(bucket, rest);
    ObjectPathSplitsAtFirstDot(rest);
    var tail := bucket + "/" + rest;
    assert url[|GcsScheme|..] == tail;
    assert tail[..|bucket|] == bucket && tail[|bucket| + 1..] == rest;
  }

  /** A bucket getBucketName returns is group 1 of a match of the pattern. */
  lemma BucketGivesMatch(url: string, bucket: string)
    requires GetBucketName(url) == Some(bucket)
    ensures MatchesGcsUrl(url, bucket)
  {
    var tail := url[|GcsScheme|..];
    var slash := IndexOf(tail, '/');
    var rest := tail[slash + 1..];
    ObjectPathSplitsAtFirstDot(rest);
    assert tail == tail[..slash] + [tail[slash]] + rest;
    assert url == url[..|GcsScheme|] + tail;
    assert url == GcsScheme + bucket + "/" + rest;
  }

  /** getBucketName returns a bucket exactly when the URL matches the pattern with that bucket as group 1. */
  lemma GetBucketNameMatches(url: string, bucket: string)
    ensures GetBucketName(url) == Some(bucket) <==> MatchesGcsUrl(url, bucket)
  {
    if MatchesGcsUrl(url, bucket) {
      MatchGivesBucket(url, bucket);
    }
    if GetBucketName(url) == Some(bucket) {
      BucketGivesMatch(url, bucket);
    }
  }

  /** getBucketName returns null exactly when the URL does not match the pattern. */
  lemma GetBucketNameNone(url: string)
    ensures GetBucketName(url).None? <==> forall bucket :: !MatchesGcsUrl(url, bucket)
  {
    if GetBucketName(url).Some? {
      GetBucketNameMatches(url, GetBucketName(url).value);
    } else {
      forall bucket ensures !MatchesGcsUrl(url, bucket) {
        GetBucketNameMatches(url, bucket);
      }
    }
  }

  /** getBlobName(url): what follows "gs://" + bucket + "/", or null when there is no bucket. */
  function GetBlobName(url: string): (r: Option<string>)
    ensures r.Some? <==> GetBucketName(url).Some?
  {
    match GetBucketName(url)
    case None => None
    case Some(bucket) => Some(url[|GcsScheme + bucket + "/"|..])
  }

  /** The scheme, the bucket, a slash and the blob name make up the URL again. */
  lemma GetBlobNameRejoins(url: string)
    requires GetBlobName(url).Some?
    ensures GcsScheme + GetBucketName(url).value + "/" + GetBlobName(url).value == url
  {
    var bucket := GetBucketName(url).value;
    GetBucketNameMatches(url, bucket);
    var rest :| url == GcsScheme + bucket + "/" + rest && IsBucketName(bucket) && IsObjectPath(rest);
    assert url[|GcsScheme + bucket + "/"|..] == rest;
  }

  /** A bucket and an object path of the pattern give back that bucket and that blob name. */
  lemma GetBlobNameOfUrl(bucket: string, rest: string)
    requires IsBucketName(bucket) && IsObjectPath(rest)
    ensures GetBucketName(GcsScheme + bucket + "/" + rest) == Some(bucket)
    ensures GetBlobName(GcsScheme + bucket + "/" + rest) == Some(rest)
  {
    var url := GcsScheme + bucket + "/" + rest;
    GetBucketNameMatches(url, bucket);
    assert url[|GcsScheme + bucket + "/"|..] == rest;
  }

  /** getBlobName(video, filename): String.format("%s/%s", id, filename). */
  function GetVideoBlobName(videoId: string, filename: string): (r: string)
  {
    videoId + "/" + filename
  }

  /** Splitting at slashes gives the video id back, then the file name's own fields. */
  lemma GetVideoBlobNameSplits(videoId: string, filename: string)
    requires '/' !in videoId
    ensures Texts.Split(GetVideoBlobName(videoId, filename), '/') == [videoId] + Texts.Split(filename, '/')
  {
    assert GetVideoBlobName(videoId, filename) == videoId + ['/'] + filename;
    SplitFirst(videoId, '/', filename);
  }

  // ---------------------------------------------------------------------------------------------
  // The text track
  // ---------------------------------------------------------------------------------------------

  /** The text track lines of the scenes in the TreeSet's ascending order. */
  function TrackLines(scenes: map<Key, SceneValue>, includeCategories: bool,
                      line: (SceneValue, bool) -> string): (r: seq<string>)
    ensures |r| == |scenes|
    ensures forall i :: 0 <= i < |r| ==> r[i] == line(SortedValues(scenes)[i], includeCategories)
  {
    var values := SortedValues(scenes);
    seq(|values|, i requires 0 <= i < |values| => line(values[i], includeCategories))
  }

  /**
   * exportTextTrack(scenes, includeCategories), None standing for null: the scenes' lines, each
   * made by `line` (Scene.toTextTrackLine), in ascending order joined by newlines.
   */
  function ExportTextTrack(scenes: Option<map<Key, SceneValue>>, includeCategories: bool,
                           line: (SceneValue, bool) -> string): (r: Option<string>)
    ensures r.None? <==> scenes.None?
  {
    match scenes
    case None => None
    case Some(m) => Some(Join(TrackLines(m, includeCategories, line), "\n"))
  }

  /** No scenes give the empty track. */
  lemma ExportTextTrackEmpty(includeCategories: bool, line: (SceneValue, bool) -> string)
    ensures ExportTextTrack(Some(map[]), includeCategories, line) == Some("")
  {
  }

  /**
   * When no line holds a newline, splitting the track at newlines gives back exactly one line
   * per scene, in ascending order of bounds.
   */
  lemma ExportTextTrackLines(scenes: map<Key, SceneValue>, includeCategories: bool,
                             line: (SceneValue, bool) -> string)
    requires scenes != map[]
    requires forall k :: k in scenes ==> '\n' !in line(scenes[k], includeCategories)
    ensures Texts.Split(ExportTextTrack(Some(scenes), includeCategories, line).value, '\n') ==
      TrackLines(scenes, includeCategories, line)
  {
    var lines := TrackLines(scenes, includeCategories, line);
    forall i | 0 <= i < |lines| ensures '\n' !in lines[i] {
      assert SortedKeys(scenes.Keys)[i] in scenes;
    }
    SplitJoin(lines, '\n');
  }
}
