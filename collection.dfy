/**
 * CollectionModel of collection.model.ts: the result of a query, holding the
 * models of the primary data together with the body's `links` and `meta`.
 */
module Collection {
  import opened Wrappers
  import opened Json
  import opened Wire

  class CollectionModel<T> {
    /** The `links` member last given to the collection's links object. */
    var links: Value
    /** The models; `None` until they are set (the field starts undefined). */
    var data: Option<seq<T>>
    var meta: Value

    /** Takes `links` and `meta` from the body; the data is set later. */
    constructor (body: Body)
      ensures links == body.links && meta == body.meta && data == None
    {
      links := body.links;
      meta := body.meta;
      data := None;
    }

    /** The number of models, 0 while no data has been set. */
    function Length(): (n: nat)
      reads this
      ensures data.None? ==> n == 0
      ensures data.Some? ==> n == |data.value|
    {
      if data.Some? then |data.value| else 0
    }

    /** The `data` setter. */
    method SetData(models: seq<T>)
      modifies this`data
      ensures data == Some(models) && Length() == |models|
    {
      data := Some(models);
    }

    /** The `meta` setter. */
    method SetMeta(m: Value)
      modifies this`meta
      ensures meta == m
    {
      meta := m;
    }
  }

  /** A collection reports length 0 until its data is set, then the number of models; meta and links come from the body. */
  method CollectionLifecycle<T>(body: Body, models: seq<T>) returns (c: CollectionModel<T>)
    ensures fresh(c)
    ensures c.data == Some(models) && c.Length() == |models| && c.meta == body.meta && c.links == body.links
  {
    c := new CollectionModel(body);
    assert c.Length() == 0;
    c.SetData(models);
  }
}
