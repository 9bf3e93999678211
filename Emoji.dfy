/**
 * EmojiConverter: a cache from a label's description to the emoji the emoji service gave for it.
 * The service call (lookUp, an HTTP request and a JSON parse) is the parameter `lookUp`, with
 * None standing for null; it is a fixed function of the description.
 */
module Emoji {
  import opened Wrappers
  import opened SceneEntities

  /** The shrug returned when no emoji was found. */
  const Shrug: string := "\U{1F937}"

  /** The description the cache is keyed by. */
  function Label(e: SceneEntity): string
  {
    e.entity.description
  }

  /** What one call returns and what the cache holds after it. */
  datatype Outcome = Outcome(emoji: Option<string>, cache: map<string, string>)

  /**
   * convertToEmoji as written. On a miss whose lookUp is null, the loop over the categories
   * tests `emoji != null` while emoji is null, so it never asks the service, and the shrug is
   * returned without touching the cache.
   */
  function Converted(cache: map<string, string>, entity: Option<SceneEntity>, lookUp: string -> Option<string>)
    : Outcome
  {
    match entity
    case None => Outcome(None, cache)
    case Some(e) =>
      if Label(e) in cache then Outcome(Some(cache[Label(e)]), cache)
      else
        match lookUp(Label(e))
        case Some(emoji) => Outcome(Some(emoji), cache[Label(e) := emoji])
        case None => Outcome(Some(Shrug), cache)
  }

  /** `after` keeps every entry of `before`, with its value. */
  ghost predicate Extends(before: map<string, string>, after: map<string, string>)
  {
    forall k :: k in before ==> k in after && after[k] == before[k]
  }

  /** Every cached emoji is what the service gives for its description. */
  ghost predicate Faithful(cache: map<string, string>, lookUp: string -> Option<string>)
  {
    forall k :: k in cache ==> lookUp(k) == Some(cache[k])
  }

  /** The cache only grows: nothing is overwritten or removed, and only the label can be added. */
  lemma ConvertedOnlyGrows(cache: map<string, string>, entity: Option<SceneEntity>, lookUp: string -> Option<string>)
    ensures Extends(cache, Converted(cache, entity, lookUp).cache)
    ensures entity.None? ==> Converted(cache, entity, lookUp).cache == cache
    ensures entity.Some? ==> Converted(cache, entity, lookUp).cache.Keys <= cache.Keys + {Label(entity.value)}
  {
  }

  /** A cache holding only service answers keeps holding only service answers. */
  lemma ConvertedKeepsFaithful(cache: map<string, string>, entity: Option<SceneEntity>, lookUp: string -> Option<string>)
    requires Faithful(cache, lookUp)
    ensures Faithful(Converted(cache, entity, lookUp).cache, lookUp)
  {
  }

  /**
   * With a cache of service answers, the cache is invisible: every call answers as if the cache
   * were empty, that is, with the service's answer for the label or the shrug.
   */
  lemma ConvertedCacheInvisible(cache: map<string, string>, entity: Option<SceneEntity>, lookUp: string -> Option<string>)
    requires Faithful(cache, lookUp)
    ensures Converted(cache, entity, lookUp).emoji == Converted(map[], entity, lookUp).emoji
    ensures entity.Some? ==>
      Converted(cache, entity, lookUp).emoji ==
      Some(if lookUp(Label(entity.value)).Some? then lookUp(Label(entity.value)).value else Shrug)
  {
    if entity.Some? && Label(entity.value) in cache {
      assert lookUp(Label(entity.value)) == Some(cache[Label(entity.value)]);
    }
  }

  /** Asking again for the same entity gives the same emoji and leaves the cache as it is. */
  lemma ConvertedTwice(cache: map<string, string>, entity: Option<SceneEntity>, lookUp: string -> Option<string>)
    ensures var o := Converted(cache, entity, lookUp);
      Converted(o.cache, entity, lookUp) == o
  {
  }

  /**
   * convertToEmoji as evidently intended: a miss whose lookUp is null tries the categories, in
   * the set's iteration order, until one gives an emoji, and caches that one under the label.
   * The iteration order is not known, so the emoji is that of SOME category that has one.
   */
  ghost predicate IntendedOutcome(cache: map<string, string>, entity: Option<SceneEntity>,
                                  lookUp: string -> Option<string>, o: Outcome)
  {
    match entity
    case None => o == Outcome(None, cache)
    case Some(e) =>
      if Label(e) in cache then o == Outcome(Some(cache[Label(e)]), cache)
      else if lookUp(Label(e)).Some? then o == Outcome(lookUp(Label(e)), cache[Label(e) := lookUp(Label(e)).value])
      else if exists c :: c in e.categoryEntities && lookUp(c.description).Some? then
        && o.emoji.Some?
        && o.cache == cache[Label(e) := o.emoji.value]
        && exists c :: c in e.categoryEntities && lookUp(c.description) == o.emoji
      else o == Outcome(Some(Shrug), cache)
  }

  /** With the intended loop the cache still only grows, by the label at most. */
  lemma IntendedOnlyGrows(cache: map<string, string>, entity: Option<SceneEntity>,
                          lookUp: string -> Option<string>, o: Outcome)
    requires IntendedOutcome(cache, entity, lookUp, o)
    ensures Extends(cache, o.cache)
    ensures entity.Some? ==> o.cache.Keys <= cache.Keys + {Label(entity.value)}
    ensures entity.None? <==> o.emoji.None?
  {
  }

  /**
   * The discrepancy: when the label has no emoji but one of its categories has, the code as
   * written returns the shrug and caches nothing, which no intended outcome does.
   */
  lemma CategoryEmojiDiscarded(cache: map<string, string>, e: SceneEntity, lookUp: string -> Option<string>, c: Entity)
    requires Label(e) !in cache && lookUp(Label(e)).None?
    requires c in e.categoryEntities && lookUp(c.description).Some?
    ensures Converted(cache, Some(e), lookUp) == Outcome(Some(Shrug), cache)
    ensures !IntendedOutcome(cache, Some(e), lookUp, Converted(cache, Some(e), lookUp))
  {
  }

  /** A concrete input: "Dog" has no emoji, its category "Animal" has one, and "Dog" gets the shrug. */
  lemma DogAnimalExample()
    ensures var dog := SceneEntity(0.9, Entity("Dog"), {Entity("Animal")});
      var lookUp := (s: string) => if s == "Animal" then Some("\U{1F43E}") else None;
      && Converted(map[], Some(dog), lookUp).emoji == Some(Shrug)
      && IntendedOutcome(map[], Some(dog), lookUp, Outcome(Some("\U{1F43E}"), map["Dog" := "\U{1F43E}"]))
  {
    var dog := SceneEntity(0.9, Entity("Dog"), {Entity("Animal")});
    var lookUp := (s: string) => if s == "Animal" then Some("\U{1F43E}") else None;
    assert Entity("Animal") in dog.categoryEntities && lookUp(Entity("Animal").description).Some?;
  }

  /** The converter: its emojiMap field is the cache. */
  class EmojiConverter {
    var emojiMap: map<string, string>

    /** A new converter has an empty cache. */
    constructor ()
      ensures emojiMap == map[]
    {
      emojiMap := map[];
    }

    /**
     * convertToEmoji as written; `asked` lists the descriptions passed to the service, in order.
     * A hit asks nothing; a miss asks exactly once, for the label, since the category loop never
     * calls the service.
     */
    method ConvertToEmoji(entity: Option<SceneEntity>, lookUp: string -> Option<string>)
      returns (r: Option<string>, ghost asked: seq<string>)
      modifies this
      ensures r == Converted(old(emojiMap), entity, lookUp).emoji
      ensures emojiMap == Converted(old(emojiMap), entity, lookUp).cache
      ensures entity.None? || Label(entity.value) in old(emojiMap) ==> asked == []
      ensures entity.Some? && Label(entity.value) !in old(emojiMap) ==> asked == [Label(entity.value)]
    {
      asked := [];
      if entity.None? {
        return None, asked;
      }
      var name := entity.value.entity.description;
      if name in emojiMap {
        return Some(emojiMap[name]), asked;
      }
      var emoji := lookUp(name);
      asked := [name];
      if emoji.Some? {
        emojiMap := emojiMap[name := emoji.value];
        return emoji, asked;
      }
      var todo := entity.value.categoryEntities;
      while todo != {}
        invariant emoji.None? && asked == [name]
        decreases |todo|
      {
        var c :| c in todo;
        if emoji.Some? {
          emoji := lookUp(c.description);
          asked := asked + [c.description];
        }
        todo := todo - {c};
      }
      // The code caches and returns a non-null emoji here; the loop has left it null.
      emojiMap := match emoji case Some(v) => emojiMap[name := v] case None => emojiMap;
      r := match emoji case Some(_) => emoji case None => Some(Shrug);
    }

    /**
     * convertToEmoji with the category loop's guard corrected to `emoji == null`: categories are
     * tried, in an order the method does not fix, until one gives an emoji.
     */
    method ConvertToEmojiIntended(entity: Option<SceneEntity>, lookUp: string -> Option<string>)
      returns (r: Option<string>)
      modifies this
      ensures IntendedOutcome(old(emojiMap), entity, lookUp, Outcome(r, emojiMap))
    {
      if entity.None? {
        return None;
      }
      var e := entity.value;
      var name := e.entity.description;
      if name in emojiMap {
        return Some(emojiMap[name]);
      }
      var emoji := lookUp(name);
      if emoji.Some? {
        emojiMap := emojiMap[name := emoji.value];
        return emoji;
      }
      var todo := e.categoryEntities;
      while todo != {}
        invariant todo <= e.categoryEntities
        invariant emoji.Some? ==> exists c :: c in e.categoryEntities && lookUp(c.description) == emoji
        invariant emoji.None? ==> forall c :: c in e.categoryEntities - todo ==> lookUp(c.description).None?
        decreases |todo|
      {
        var c :| c in todo;
        if emoji.None? {
          emoji := lookUp(c.description);
        }
        todo := todo - {c};
      }
      if emoji.Some? {
        emojiMap := emojiMap[name := emoji.value];
        return emoji;
      }
      return Some(Shrug);
    }
  }
}
