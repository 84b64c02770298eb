/**
 * JSON:API wire documents as the client reads them, and the model registry
 * that takes the place of the reflection metadata (the `HasMany`/`BelongsTo`
 * annotation lists of a model class and the datastore's `models` table).
 */
module Wire {
  import opened Wrappers
  import opened Json

  /** A resource identifier `{type, id}`; an absent id is `None`. */
  datatype Pointer = Pointer(typeName: string, id: Option<string>)

  /**
   * The `data` member of a relationship object. `NoData` covers an absent or
   * null relationship object and a null `data`.
   */
  datatype RelData =
    | NoData
    | ToOneData(pointer: Pointer)
    | ToManyData(pointers: seq<Pointer>)

  /** A resource object; a key missing from `relationships` is an absent relationship. */
  datatype Resource = Resource(
    typeName: string,
    id: Option<string>,
    attributes: map<string, Value>,
    relationships: map<string, RelData>,
    links: Value)

  /** The primary `data` of a body: missing, one resource object, or an array of them. */
  datatype PrimaryData =
    | Missing
    | Single(resource: Resource)
    | Several(resources: seq<Resource>)

  /** A decoded response body; `included` is `None` when the member is absent. */
  datatype Body = Body(data: PrimaryData, included: Option<seq<Resource>>, links: Value, meta: Value)

  /** One entry of a class's `HasMany` or `BelongsTo` annotation list. */
  datatype RelDecl = RelDecl(propertyName: string, relationship: string, link: Option<string>)

  /**
   * A model class: its name (class identity), the type name of its
   * `JsonApiModelConfig`, and its relationship annotations in declaration order.
   */
  datatype ModelClass = ModelClass(name: string, typeName: string, hasMany: seq<RelDecl>, belongsTo: seq<RelDecl>)

  /** The datastore's `models` table: type name to model class. */
  type Registry = map<string, ModelClass>

  /**
   * The `{id, type}` pattern `_.find` is given. lodash's `isMatch` fails on a
   * resource without an `id` member even when the pattern's id is
   * `undefined`, so a pointer without an id matches nothing.
   */
  predicate Matches(r: Resource, id: Option<string>, typeName: string)
  {
    id.Some? && r.id == id && r.typeName == typeName
  }

  /** `_.find(included, {id, type})`: the first included resource with that id and type. */
  function Find(included: seq<Resource>, id: Option<string>, typeName: string): (r: Option<Resource>)
    ensures r.None? <==> forall i :: 0 <= i < |included| ==> !Matches(included[i], id, typeName)
    ensures r.Some? ==> (exists i :: 0 <= i < |included| && included[i] == r.value && Matches(r.value, id, typeName)
                                     && forall j :: 0 <= j < i ==> !Matches(included[j], id, typeName))
  {
    if included == [] then None
    else if Matches(included[0], id, typeName) then Some(included[0])
    else
      var r := Find(included[1..], id, typeName);
      assert r.Some? ==> (exists i :: 1 <= i < |included| && included[i] == r.value && Matches(r.value, id, typeName)
                                       && forall j :: 0 <= j < i ==> !Matches(included[j], id, typeName)) by {
        if r.Some? {
          var i :| 0 <= i < |included[1..]| && included[1..][i] == r.value && Matches(r.value, id, typeName)
            && forall j :: 0 <= j < i ==> !Matches(included[1..][j], id, typeName);
          assert forall j :: 0 <= j < i + 1 ==> !Matches(included[j], id, typeName) by {
            forall j | 0 <= j < i + 1 ensures !Matches(included[j], id, typeName) {
              if j > 0 { assert included[j] == included[1..][j - 1]; }
            }
          }
        }
      }
      r
  }

  /** A pointer without an id finds nothing, whatever is included. */
  lemma FindWithoutId(included: seq<Resource>, typeName: string)
    ensures Find(included, None, typeName) == None
  {
  }
}
