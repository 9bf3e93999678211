/** SceneEntity: one detected label of a scene, with its confidence and its categories. */
module SceneEntities {
  import opened Wrappers
  import opened Texts
  import opened Seqs

  /** An annotation-service Entity, identified by its description. */
  datatype Entity = Entity(description: string)

  /**
   * A SceneEntity. Being a datatype, it has value identity over all three fields, which is what
   * SceneEntity.equals implements. Its confidence is a float in the code; here it is a real.
   */
  datatype SceneEntity = SceneEntity(confidence: real, entity: Entity, categoryEntities: set<Entity>)

  /** SceneEntity.create(confidence, entity): no categories. */
  function Create(confidence: real, entity: Entity): (se: SceneEntity)
    ensures se.confidence == confidence && se.entity == entity
    ensures se.categoryEntities == {}
  {
    SceneEntity(confidence, entity, {})
  }

  /**
   * SceneEntity.create(confidence, entity, categoryEntities), where None stands for a null
   * collection: the categories are exactly the elements of the collection, none for null.
   */
  function CreateWithCategories(confidence: real, entity: Entity, categoryEntities: Option<seq<Entity>>)
    : (se: SceneEntity)
    ensures se.confidence == confidence && se.entity == entity
    ensures categoryEntities.None? ==> se.categoryEntities == {}
    ensures categoryEntities.Some? ==>
      forall e :: e in se.categoryEntities <==> e in categoryEntities.value
  {
    var se := Create(confidence, entity);
    if categoryEntities.Some? && categoryEntities.value != [] then
      se.(categoryEntities := set e | e in categoryEntities.value)
    else
      se
  }

  /** SceneEntity.equals: a field-by-field comparison, which is exactly value identity. */
  function Equals(a: SceneEntity, b: SceneEntity): (r: bool)
    ensures r <==> a == b
  {
    a.confidence == b.confidence && a.entity == b.entity && a.categoryEntities == b.categoryEntities
  }

  /** The same label seen with two confidences gives two members of a set. */
  lemma DistinctConfidencesAreDistinctMembers(a: SceneEntity, b: SceneEntity)
    requires a.entity == b.entity && a.categoryEntities == b.categoryEntities
    requires a.confidence != b.confidence
    ensures |{a, b}| == 2
  {
  }

  /** The descriptions of the entities, in order. */
  function Descriptions(es: seq<Entity>): (ds: seq<string>)
    ensures |ds| == |es|
    ensures forall i :: 0 <= i < |es| ==> ds[i] == es[i].description
  {
    if es == [] then [] else [es[0].description] + Descriptions(es[1..])
  }

  /**
   * SceneEntity.toDescription(includeCategory). `order` is the iteration order of the
   * category HashSet, which the code leaves unspecified.
   */
  function ToDescription(se: SceneEntity, includeCategory: bool, order: seq<Entity>): (r: string)
    requires IsEnumeration(order, se.categoryEntities)
    ensures |se.entity.description| <= |r| && r[..|se.entity.description|] == se.entity.description
    ensures r == se.entity.description <==> !includeCategory || se.categoryEntities == {}
  {
    var d := se.entity.description;
    if includeCategory && se.categoryEntities != {} then
      d + " (" + Join(Descriptions(order), "/") + ")"
    else
      d
  }

  /**
   * With categories, the text after the label is " (" and ")" around the category descriptions
   * joined by "/": when no category description contains '/', splitting the bracketed part at
   * '/' gives back the description of each category once, in iteration order.
   */
  lemma CategoriesListed(se: SceneEntity, order: seq<Entity>)
    requires IsEnumeration(order, se.categoryEntities)
    requires se.categoryEntities != {}
    requires forall c :: c in se.categoryEntities ==> '/' !in c.description
    ensures var r := ToDescription(se, true, order);
            var n := |se.entity.description|;
            && |r| >= n + 3
            && r[n..n + 2] == " (" && r[|r| - 1] == ')'
            && Split(r[n + 2..|r| - 1], '/') == Descriptions(order)
            && |order| == |se.categoryEntities|
  {
    var d := se.entity.description;
    var ds := Descriptions(order);
    var j := Join(ds, "/");
    var r := ToDescription(se, true, order);
    assert r == d + " (" + j + ")";
    assert r[|d| + 2..|r| - 1] == j;
    assert order != [] by {
      var c :| c in se.categoryEntities;
      assert c in order;
    }
    SplitJoin(ds, '/');
    EnumerationLength(order, se.categoryEntities);
  }
}
