/**
 * JsonApiDatastore of json-api-datastore.service.ts: the in-memory store of
 * models by type and id, the parsing of response documents into models, and
 * the request a save sends. HTTP itself is not modelled: a response body is
 * an input, a request is an output value.
 */
module Datastore {
  import opened Wrappers
  import opened Json
  import opened Wire
  import opened QueryString
  import opened Resolution
  import opened Models
  import opened Collection

  /** The `_store` object: type name to a bucket of models keyed by `String(id)`. */
  type Store = map<string, map<string, JsonApiModel>>

  /** `String(id)`, the key `_.keyBy(models, 'id')` uses: an absent id keys as "undefined". */
  function KeyOf(id: Option<string>): string
  {
    match id
    case Some(s) => s
    case None => "undefined"
  }

  /** Model `i` is the last one of the batch with its key. */
  ghost predicate LastOfKey(models: seq<JsonApiModel>, i: int)
    reads models`id
  {
    0 <= i < |models| && forall j :: i < j < |models| ==> KeyOf(models[j].id) != KeyOf(models[i].id)
  }

  /** `String(id)` of each model of the batch, in order. */
  function KeysOf(models: seq<JsonApiModel>): (keys: seq<string>)
    reads models`id
    ensures |keys| == |models|
    ensures forall i :: 0 <= i < |models| ==> keys[i] == KeyOf(models[i].id)
  {
    if models == [] then []
    else
      var n := |models| - 1;
      assert forall i :: 0 <= i < n ==> models[..n][i] == models[i];
      KeysOf(models[..n]) + [KeyOf(models[n].id)]
  }

  /** `_.keyBy` on values: each model under its key, a later model replacing an earlier one. */
  function KeyedBy(keys: seq<string>, models: seq<JsonApiModel>): map<string, JsonApiModel>
    requires |keys| == |models|
  {
    if keys == [] then map[]
    else KeyedBy(keys[..|keys| - 1], models[..|models| - 1])[keys[|keys| - 1] := models[|models| - 1]]
  }

  /** fromArrayToHash: the batch keyed by id. */
  function FromArrayToHash(models: seq<JsonApiModel>): map<string, JsonApiModel>
    reads models`id
  {
    KeyedBy(KeysOf(models), models)
  }

  /** The keyed map has exactly the given keys, each holding the last model given under it. */
  lemma {:induction false} KeyedByContents(keys: seq<string>, models: seq<JsonApiModel>)
    requires |keys| == |models|
    ensures forall i :: 0 <= i < |keys| ==> keys[i] in KeyedBy(keys, models)
    ensures forall k :: k in KeyedBy(keys, models) ==> k in keys
    ensures forall i :: 0 <= i < |keys| && (forall j :: i < j < |keys| ==> keys[j] != keys[i]) ==>
              KeyedBy(keys, models)[keys[i]] == models[i]
    decreases |keys|
  {
    if keys != [] {
      var n := |keys| - 1;
      var ks, ms := keys[..n], models[..n];
      KeyedByContents(ks, ms);
      var h := KeyedBy(ks, ms);
      assert KeyedBy(keys, models) == h[keys[n] := models[n]];
      forall i | 0 <= i < |keys| && (forall j :: i < j < |keys| ==> keys[j] != keys[i])
        ensures KeyedBy(keys, models)[keys[i]] == models[i]
      {
        if i < n {
          assert keys[n] != keys[i];
          assert ks[i] == keys[i] && ms[i] == models[i];
          assert forall j :: i < j < n ==> ks[j] != ks[i] by {
            forall j | i < j < n ensures ks[j] != ks[i] {
              assert ks[j] == keys[j];
            }
          }
        }
      }
      forall i | 0 <= i < |keys| ensures keys[i] in KeyedBy(keys, models) {
        if i < n { assert ks[i] == keys[i]; }
      }
    }
  }

  /**
   * The hash has a key for every model of the batch and no other, and under
   * each key the last model of the batch with that key.
   */
  lemma FromArrayToHashContents(models: seq<JsonApiModel>)
    ensures forall i :: 0 <= i < |models| ==> KeyOf(models[i].id) in FromArrayToHash(models)
    ensures forall k :: k in FromArrayToHash(models) ==> exists i :: 0 <= i < |models| && KeyOf(models[i].id) == k
    ensures forall i :: LastOfKey(models, i) ==> FromArrayToHash(models)[KeyOf(models[i].id)] == models[i]
  {
    var keys := KeysOf(models);
    KeyedByContents(keys, models);
    forall k | k in FromArrayToHash(models) ensures exists i :: 0 <= i < |models| && KeyOf(models[i].id) == k {
      var i :| 0 <= i < |keys| && keys[i] == k;
    }
  }

  /** Adding one more model to a batch keys it over the earlier ones. */
  lemma HashSnoc(models: seq<JsonApiModel>, m: JsonApiModel)
    ensures FromArrayToHash(models + [m]) == FromArrayToHash(models)[KeyOf(m.id) := m]
  {
    var s := models + [m];
    assert s[..|s| - 1] == models;
    assert KeysOf(s)[..|s| - 1] == KeysOf(models);
  }

  /** A single model is stored under its own key. */
  lemma HashOfOne(m: JsonApiModel)
    ensures FromArrayToHash([m]) == map[KeyOf(m.id) := m]
  {
    HashSnoc([], m);
    assert [] + [m] == [m];
  }

  /** Storing a single model puts it under its key in its bucket. */
  lemma StoreOne(s: Store, t: string, m: JsonApiModel)
    ensures s[t := Bucket(s, t) + FromArrayToHash([m])] == s[t := Bucket(s, t)[KeyOf(m.id) := m]]
  {
    HashOfOne(m);
    assert Bucket(s, t) + map[KeyOf(m.id) := m] == Bucket(s, t)[KeyOf(m.id) := m];
  }

  /** Storing a model that is already stored under its key changes nothing. */
  lemma StoreAgain(s: Store, t: string, m: JsonApiModel)
    requires t in s && KeyOf(m.id) in s[t] && s[t][KeyOf(m.id)] == m
    ensures s[t := Bucket(s, t) + FromArrayToHash([m])] == s
  {
    StoreOne(s, t, m);
    assert Bucket(s, t)[KeyOf(m.id) := m] == s[t];
  }

  /** The store after addToStore of the batch `models` keyed by `keys` into bucket `t`; an empty batch changes nothing. */
  function StoredBatch(s0: Store, t: string, keys: seq<string>, models: seq<JsonApiModel>): Store
    requires |keys| == |models|
  {
    if models == [] then s0 else s0[t := Bucket(s0, t) + KeyedBy(keys, models)]
  }

  /** `String(id)` of each resource, in order: the keys its models are stored under. */
  function IdKeys(resources: seq<Resource>): (keys: seq<string>)
    ensures |keys| == |resources|
  {
    if resources == [] then [] else IdKeys(resources[..|resources| - 1]) + [KeyOf(resources[|resources| - 1].id)]
  }

  lemma IdKeysSnoc(resources: seq<Resource>, i: nat)
    requires i < |resources|
    ensures IdKeys(resources[..i + 1]) == IdKeys(resources[..i]) + [KeyOf(resources[i].id)]
  {
    assert resources[..i + 1][..i] == resources[..i];
  }

  /** Keying one more model under one more key sets that key over the earlier ones. */
  lemma KeyedSnoc(keys: seq<string>, models: seq<JsonApiModel>, k: string, m: JsonApiModel)
    requires |keys| == |models|
    ensures KeyedBy(keys + [k], models + [m]) == KeyedBy(keys, models)[k := m]
  {
    assert (keys + [k])[..|keys|] == keys && (models + [m])[..|models|] == models;
  }

  /** Models carrying their resources' ids are keyed by the resources' keys. */
  lemma {:induction false} HashOfResources(models: seq<JsonApiModel>, resources: seq<Resource>)
    requires |models| == |resources| && forall j :: 0 <= j < |models| ==> models[j].id == resources[j].id
    ensures FromArrayToHash(models) == KeyedBy(IdKeys(resources), models)
  {
    assert KeysOf(models) == IdKeys(resources) by {
      KeysMatch(models, resources);
    }
  }

  lemma {:induction false} KeysMatch(models: seq<JsonApiModel>, resources: seq<Resource>)
    requires |models| == |resources| && forall j :: 0 <= j < |models| ==> models[j].id == resources[j].id
    ensures KeysOf(models) == IdKeys(resources)
  {
    if models != [] {
      var n := |models| - 1;
      KeysMatch(models[..n], resources[..n]);
    }
  }

  /**
   * Storing models one at a time is storing the batch: after the first `i`
   * rounds the bucket holds the first `i` models under their keys.
   */
  lemma StoreSnoc(s0: Store, t: string, keys: seq<string>, models: seq<JsonApiModel>, k: string, m: JsonApiModel,
                  before: Store, after: Store)
    requires |keys| == |models| && before == StoredBatch(s0, t, keys, models)
    requires after == before[t := Bucket(before, t)[k := m]]
    ensures after == StoredBatch(s0, t, keys + [k], models + [m])
  {
    KeyedSnoc(keys, models, k, m);
    var hash := KeyedBy(keys, models);
    if models == [] {
      MergeUpdate(Bucket(s0, t), map[], k, m);
    } else {
      MergeUpdate(Bucket(s0, t), hash, k, m);
    }
  }

  /** Setting a key after a merge is setting it in the map merged in. */
  lemma MergeUpdate(a: map<string, JsonApiModel>, b: map<string, JsonApiModel>, k: string, m: JsonApiModel)
    ensures (a + b)[k := m] == a + b[k := m]
    ensures a + map[] == a
  {
  }

  /** Every bucket of `before` is still there, with at least its keys. */
  ghost predicate Grows(before: Store, after: Store)
  {
    forall t :: t in before ==> t in after && before[t].Keys <= after[t].Keys
  }

  lemma GrowsTrans(a: Store, b: Store, c: Store)
    requires Grows(a, b) && Grows(b, c)
    ensures Grows(a, c)
  {
  }

  lemma GrowsPut(s: Store, t: string, k: string, m: JsonApiModel)
    ensures Grows(s, s[t := Bucket(s, t)[k := m]])
  {
  }

  /** The store after putting each model under its (type, key) pair in turn, a later one replacing an earlier. */
  function PutAll(s0: Store, keys: seq<(string, string)>, models: seq<JsonApiModel>): Store
    requires |keys| == |models|
  {
    if keys == [] then s0
    else
      var n := |keys| - 1;
      var s := PutAll(s0, keys[..n], models[..n]);
      s[keys[n].0 := Bucket(s, keys[n].0)[keys[n].1 := models[n]]]
  }

  lemma PutAllSnoc(s0: Store, keys: seq<(string, string)>, models: seq<JsonApiModel>, k: (string, string), m: JsonApiModel)
    requires |keys| == |models|
    ensures PutAll(s0, keys + [k], models + [m]) == PutAll(s0, keys, models)[k.0 := Bucket(PutAll(s0, keys, models), k.0)[k.1 := m]]
  {
    assert (keys + [k])[..|keys|] == keys && (models + [m])[..|models|] == models;
  }

  /** Pair `i` is the last one of `keys` with its value. */
  predicate LastPair(keys: seq<(string, string)>, i: int)
  {
    0 <= i < |keys| && forall j :: i < j < |keys| ==> keys[j] != keys[i]
  }

  /** Putting models in turn keeps every bucket and key. */
  lemma {:induction false} PutAllGrows(s0: Store, keys: seq<(string, string)>, models: seq<JsonApiModel>)
    requires |keys| == |models|
    ensures Grows(s0, PutAll(s0, keys, models))
    decreases |keys|
  {
    if keys != [] {
      var n := |keys| - 1;
      PutAllGrows(s0, keys[..n], models[..n]);
      var s := PutAll(s0, keys[..n], models[..n]);
      GrowsPut(s, keys[n].0, keys[n].1, models[n]);
      GrowsTrans(s0, s, PutAll(s0, keys, models));
    }
  }

  /** Every pair put ends up present. */
  lemma {:induction false} PutAllPresent(s0: Store, keys: seq<(string, string)>, models: seq<JsonApiModel>)
    requires |keys| == |models|
    ensures forall i :: 0 <= i < |keys| ==> keys[i].0 in PutAll(s0, keys, models) && keys[i].1 in PutAll(s0, keys, models)[keys[i].0]
    decreases |keys|
  {
    if keys != [] {
      var n := |keys| - 1;
      var ks := keys[..n];
      PutAllPresent(s0, ks, models[..n]);
      forall i | 0 <= i < |keys| ensures keys[i].0 in PutAll(s0, keys, models) && keys[i].1 in PutAll(s0, keys, models)[keys[i].0] {
        if i < n { assert ks[i] == keys[i]; }
      }
    }
  }

  /** Under each pair is the last model put there. */
  lemma {:induction false} PutAllLast(s0: Store, keys: seq<(string, string)>, models: seq<JsonApiModel>, i: nat)
    requires |keys| == |models| && LastPair(keys, i)
    ensures keys[i].0 in PutAll(s0, keys, models) && keys[i].1 in PutAll(s0, keys, models)[keys[i].0]
    ensures PutAll(s0, keys, models)[keys[i].0][keys[i].1] == models[i]
    decreases |keys|
  {
    var n := |keys| - 1;
    if i < n {
      var ks, ms := keys[..n], models[..n];
      assert keys[n] != keys[i] && ks[i] == keys[i] && ms[i] == models[i];
      assert LastPair(ks, i) by {
        forall j | i < j < n ensures ks[j] != ks[i] {
          assert ks[j] == keys[j];
        }
      }
      PutAllLast(s0, ks, ms, i);
    }
  }

  /** A pair never put keeps its old model. */
  lemma {:induction false} PutAllUntouched(s0: Store, keys: seq<(string, string)>, models: seq<JsonApiModel>, t: string, k: string)
    requires |keys| == |models| && t in s0 && k in s0[t] && (t, k) !in keys
    ensures t in PutAll(s0, keys, models) && k in PutAll(s0, keys, models)[t] && PutAll(s0, keys, models)[t][k] == s0[t][k]
    decreases |keys|
  {
    if keys != [] {
      var n := |keys| - 1;
      assert keys == keys[..n] + [keys[n]];
      PutAllUntouched(s0, keys[..n], models[..n], t, k);
    }
  }

  /** Nothing but the old pairs and the pairs put is present. */
  lemma {:induction false} PutAllOnly(s0: Store, keys: seq<(string, string)>, models: seq<JsonApiModel>, t: string, k: string)
    requires |keys| == |models| && t in PutAll(s0, keys, models) && k in PutAll(s0, keys, models)[t]
    ensures (t in s0 && k in s0[t]) || (t, k) in keys
    decreases |keys|
  {
    if keys != [] {
      var n := |keys| - 1;
      assert keys == keys[..n] + [keys[n]];
      if (t, k) != keys[n] {
        PutAllOnly(s0, keys[..n], models[..n], t, k);
      }
    }
  }

  /** The `data` handed to the model constructor and to syncRelationships; an array has no id, attributes or relationships. */
  function AsData(data: PrimaryData): Option<Resource>
  {
    match data
    case Missing => None
    case Single(r) => Some(r)
    case Several(_) => Some(Resource("", None, map[], map[], Undefined))
  }

  /** `data.id` of the primary data. */
  function IdOf(data: PrimaryData): Option<string>
  {
    if data.Single? then data.resource.id else None
  }

  /** `data.attributes` of the primary data. */
  function AttributesOf(data: PrimaryData): map<string, Value>
  {
    if data.Single? then data.resource.attributes else map[]
  }

  /** extractRecordData's update of a model it was given: the primary data's `id` and attributes. */
  method Absorb(model: JsonApiModel, data: PrimaryData)
    requires !data.Missing?
    modifies model`id, model`props
    ensures model.id == IdOf(data)
    ensures model.props == old(model.props) + AttrProps(AttributesOf(data))
  {
    model.id := IdOf(data);
    model.props := model.props + AttrProps(AttributesOf(data));
  }

  /** The bucket of type `t`, empty when there is none. */
  function Bucket(store: Store, t: string): map<string, JsonApiModel>
  {
    if t in store then store[t] else map[]
  }

  /** What peekRecord returns: the model, `undefined` for an id not in the bucket, `null` for no bucket. */
  datatype Peeked = Found(model: JsonApiModel) | NotInBucket | NoBucket

  /** What peekRecord would have returned on the store `s`. */
  function PeekIn(s: Store, t: string, id: string): Peeked
  {
    if t !in s then NoBucket else if id in s[t] then Found(s[t][id]) else NotInBucket
  }

  /** A failure that the source raises as a thrown error. */
  datatype Failure =
    | TypeError              // a property read on undefined, or a call of something that is not a function
    | Unresolved(error: SyncError)

  /** The value saveRecord sends for an attribute: the serialisation value when truthy, else the new value. */
  function SerialisedValue(meta: AttributeMeta): Value
  {
    if Truthy(meta.serialisationValue) then meta.serialisationValue else meta.newValue
  }

  /** Saving after a rollback sends each restored attribute's old value and every other attribute as before. */
  lemma SaveAfterRollback(metadata: map<string, AttributeMeta>)
    ensures forall k :: k in metadata && metadata[k].hasDirtyAttributes ==>
              SerialisedValue(RolledBack(metadata)[k]) == metadata[k].oldValue
    ensures forall k :: k in metadata && !metadata[k].hasDirtyAttributes ==>
              SerialisedValue(RolledBack(metadata)[k]) == SerialisedValue(metadata[k])
  {
  }

  /** The metadata after resetMetadataAttributes: every entry marked clean, values untouched. */
  function Cleaned(metadata: map<string, AttributeMeta>): map<string, AttributeMeta>
  {
    map k | k in metadata :: metadata[k].(hasDirtyAttributes := false)
  }

  /** After a reset nothing is dirty, the values are kept, and a rollback changes nothing. */
  lemma CleanedSettles(metadata: map<string, AttributeMeta>)
    ensures !Dirty(Cleaned(metadata))
    ensures Cleaned(metadata).Keys == metadata.Keys
    ensures forall k :: k in metadata ==>
              var c := Cleaned(metadata)[k];
              c.oldValue == metadata[k].oldValue && c.newValue == metadata[k].newValue && SerialisedValue(c) == SerialisedValue(metadata[k])
    ensures RolledBack(Cleaned(metadata)) == Cleaned(metadata) && Restored(Cleaned(metadata)) == map[]
  {
  }

  /** The request method saveRecord uses. */
  datatype Verb = Post | Patch

  /** The request saveRecord sends: method, URL and the `data` member of the body. */
  datatype SaveRequest = SaveRequest(verb: Verb, url: string, typeName: string,
                                     attributes: map<string, Value>, relationships: map<string, Pointer>)

  /** getRelationships: a `{type, id}` pointer for every own property holding a single model. */
  method GetRelationships(data: JsonApiModel) returns (relationships: map<string, Pointer>)
    ensures forall k :: k in relationships <==> k in data.props && data.props[k].One?
    ensures forall k :: k in relationships ==>
              relationships[k] == Pointer(data.props[k].model.cls.typeName, data.props[k].model.id)
  {
    relationships := map[];
    var keys := data.props.Keys;
    while keys != {}
      invariant keys <= data.props.Keys
      invariant forall k :: k in relationships <==> k in data.props && k !in keys && data.props[k].One?
      invariant forall k :: k in relationships ==>
                  relationships[k] == Pointer(data.props[k].model.cls.typeName, data.props[k].model.id)
      decreases keys
    {
      var key :| key in keys;
      if data.props[key].One? {
        var related := data.props[key].model;
        relationships := relationships[key := Pointer(related.cls.typeName, related.id)];
      }
      keys := keys - {key};
    }
  }

  /** resetMetadataAttributes: marks every attribute of `res` clean. */
  method ResetMetadataAttributes(res: JsonApiModel)
    modifies res`metadata
    ensures res.metadata == Cleaned(old(res.metadata))
  {
    var attributesMetadata := res.metadata;
    var keys := attributesMetadata.Keys;
    while keys != {}
      invariant keys <= attributesMetadata.Keys && attributesMetadata.Keys == old(res.metadata).Keys
      invariant forall k :: k in attributesMetadata ==>
                  attributesMetadata[k] == if k in keys then old(res.metadata)[k] else Cleaned(old(res.metadata))[k]
      decreases keys
    {
      var propertyName :| propertyName in keys;
      var metadata := attributesMetadata[propertyName];
      if metadata.hasDirtyAttributes {
        attributesMetadata := attributesMetadata[propertyName := metadata.(hasDirtyAttributes := false)];
      }
      keys := keys - {propertyName};
    }
    res.metadata := attributesMetadata;
  }

  // ---- The inverse relationship update after a save ----

  /** `_.find(hasMany, p => models[p.relationship] === cls)`: the first has-many declaration pointing back at `cls`. */
  function InverseDecl(decls: seq<RelDecl>, reg: Registry, cls: ModelClass): (d: Option<RelDecl>)
    ensures d.None? <==> forall i :: 0 <= i < |decls| ==> !PointsAt(decls[i], reg, cls)
    ensures d.Some? ==> (exists i :: 0 <= i < |decls| && decls[i] == d.value && PointsAt(d.value, reg, cls)
                                     && forall j :: 0 <= j < i ==> !PointsAt(decls[j], reg, cls))
  {
    if decls == [] then None
    else if PointsAt(decls[0], reg, cls) then Some(decls[0])
    else
      var d := InverseDecl(decls[1..], reg, cls);
      assert d.Some? ==> (exists i :: 1 <= i < |decls| && decls[i] == d.value && PointsAt(d.value, reg, cls)
                                       && forall j :: 0 <= j < i ==> !PointsAt(decls[j], reg, cls)) by {
        if d.Some? {
          var i :| 0 <= i < |decls[1..]| && decls[1..][i] == d.value && PointsAt(d.value, reg, cls)
            && forall j :: 0 <= j < i ==> !PointsAt(decls[1..][j], reg, cls);
          forall j | 0 <= j < i + 1 ensures !PointsAt(decls[j], reg, cls) {
            if j > 0 { assert decls[j] == decls[1..][j - 1]; }
          }
        }
      }
      d
  }

  predicate PointsAt(d: RelDecl, reg: Registry, cls: ModelClass)
  {
    d.relationship in reg && reg[d.relationship] == cls
  }

  /** What updateRelationships does with one related model. */
  datatype Inverse = Skip | Push(propertyName: string) | Throw

  /**
   * The effect on a related model of class `relCls`, with properties
   * `props`, of a saved model of class `cls`: push onto the inverse has-many
   * list when that property is truthy; a truthy value that is neither a list
   * of models nor an array has no `push` to call.
   */
  function InverseAction(props: map<string, Prop>, relCls: ModelClass, cls: ModelClass, reg: Registry): Inverse
  {
    match InverseDecl(relCls.hasMany, reg, cls)
    case None => Skip
    case Some(d) =>
      if d.propertyName !in props then Skip
      else match props[d.propertyName]
        case Many(_) => Push(d.propertyName)
        case One(_) => Throw
        case Attr(v) => if !Truthy(v) || v.Arr? then Skip else Throw
  }

  /** `props` with `n` more copies of `model` pushed as InverseAction directs. */
  function Pushed(props: map<string, Prop>, relCls: ModelClass, model: JsonApiModel, reg: Registry, n: nat): map<string, Prop>
  {
    match InverseAction(props, relCls, model.cls, reg)
    case Push(p) => props[p := Many(props[p].models + seq(n, _ => model))]
    case _ => props
  }

  /**
   * Pushing nothing changes nothing, pushing keeps the action the same, and
   * pushes add up, so repeated saves push onto the same list.
   */
  lemma PushedStable(props: map<string, Prop>, relCls: ModelClass, model: JsonApiModel, reg: Registry, n: nat)
    ensures Pushed(props, relCls, model, reg, 0) == props
    ensures InverseAction(Pushed(props, relCls, model, reg, n), relCls, model.cls, reg) == InverseAction(props, relCls, model.cls, reg)
    ensures Pushed(Pushed(props, relCls, model, reg, n), relCls, model, reg, 1) == Pushed(props, relCls, model, reg, n + 1)
  {
    match InverseAction(props, relCls, model.cls, reg)
    case Push(p) =>
      assert props[p].models + seq(0, _ => model) == props[p].models;
      assert props[p := Many(props[p].models)] == props;
      var pn := Pushed(props, relCls, model, reg, n);
      assert pn[p].models == props[p].models + seq(n, _ => model);
      assert seq(1, _ => model) == [model];
      assert props[p].models + seq(n, _ => model) + [model] == props[p].models + seq(n + 1, _ => model);
    case _ =>
  }

  /** The single related models among `props`. */
  ghost function Ones(props: map<string, Prop>): map<string, JsonApiModel>
  {
    map k | k in props && props[k].One? :: props[k].model
  }

  /** The models the saved model's relationship properties (named in `relationships`) point to. */
  ghost function Related(props: map<string, Prop>, relationships: map<string, Pointer>): set<JsonApiModel>
  {
    set k | k in relationships && k in props && props[k].One? :: props[k].model
  }

  /** Properties with the same single related models point into the same related set. */
  lemma RelatedKept(props: map<string, Prop>, props0: map<string, Prop>, relationships: map<string, Pointer>, k: string)
    requires Ones(props) == Ones(props0) && k in relationships
    ensures k in props && props[k].One? ==> props[k].model in Related(props0, relationships)
  {
    if k in props && props[k].One? {
      assert k in Ones(props);
      assert k in props0 && props0[k].One? && props0[k].model == props[k].model;
    }
  }

  /** How many of the keys in `keys` hold related model `r`. */
  ghost function Count(props: map<string, Prop>, keys: set<string>, r: JsonApiModel): nat
  {
    |set k | k in keys && k in props && props[k] == One(r)|
  }

  lemma CountStep(props: map<string, Prop>, keys: set<string>, k: string, r: JsonApiModel)
    requires k !in keys
    ensures Count(props, keys + {k}, r) == Count(props, keys, r) + (if k in props && props[k] == One(r) then 1 else 0)
  {
    var s := set k' | k' in keys && k' in props && props[k'] == One(r);
    var s' := set k' | k' in keys + {k} && k' in props && props[k'] == One(r);
    if k in props && props[k] == One(r) {
      assert s' == s + {k};
    } else {
      assert s' == s;
    }
  }

  /** The property at key `k` makes updateRelationships throw. */
  ghost predicate Fails(model: JsonApiModel, k: string, reg: Registry)
    reads model, if k in model.props && model.props[k].One? then {model.props[k].model} else {}
  {
    k in model.props &&
    match model.props[k]
    case Attr(v) => IsPrimitive(v)
    case Many(_) => false
    case One(r) => InverseAction(r.props, r.cls, model.cls, reg).Throw?
  }

  class JsonApiDatastore {
    var store: Store
    /** The JsonApiDatastoreConfig of the datastore class: its model registry and base URL. */
    const registry: Registry
    const baseUrl: string

    constructor (registry: Registry, baseUrl: string)
      ensures store == map[] && this.registry == registry && this.baseUrl == baseUrl
    {
      store := map[];
      this.registry := registry;
      this.baseUrl := baseUrl;
    }

    /**
     * addToStore: merges the batch, keyed by id, into the bucket of the
     * first model's type, creating the bucket when missing. An empty batch
     * has no first model, whose class cannot be read.
     */
    method AddToStore(models: seq<JsonApiModel>) returns (ok: bool)
      modifies this`store
      ensures ok <==> |models| > 0
      ensures !ok ==> store == old(store)
      ensures ok ==> store == old(store)[models[0].cls.typeName := Bucket(old(store), models[0].cls.typeName) + FromArrayToHash(models)]
    {
      if |models| == 0 {
        return false;
      }
      var t := models[0].cls.typeName;
      var bucket := if t in store then store[t] else map[];
      var hash := FromArrayToHash(models);
      store := store[t := bucket + hash];
      return true;
    }

    /** peekRecord: the stored model of that type and id, `undefined` or `null`. */
    function PeekRecord(modelType: ModelClass, id: string): (r: Peeked)
      reads this
      ensures r.NoBucket? <==> modelType.typeName !in store
      ensures r.Found? <==> modelType.typeName in store && id in store[modelType.typeName]
      ensures r.Found? ==> r.model == store[modelType.typeName][id]
    {
      var t := modelType.typeName;
      if t !in store then NoBucket
      else if id in store[t] then Found(store[t][id])
      else NotInBucket
    }

    /**
     * peekRecord after addToStore of a batch into `s0`: the last model of the
     * batch under each key is found under that key of its type, whatever was
     * stored there before; any other key of that type peeks as before, or as
     * `undefined` when the bucket is new; any other type peeks as before.
     */
    lemma PeekAfterAdd(s0: Store, models: seq<JsonApiModel>, modelType: ModelClass, id: string)
      requires |models| > 0
      requires store == s0[models[0].cls.typeName := Bucket(s0, models[0].cls.typeName) + FromArrayToHash(models)]
      ensures forall i :: LastOfKey(models, i) ==> PeekRecord(models[0].cls, KeyOf(models[i].id)) == Found(models[i])
      ensures modelType.typeName != models[0].cls.typeName ==> PeekRecord(modelType, id) == PeekIn(s0, modelType.typeName, id)
      ensures modelType.typeName == models[0].cls.typeName && (forall i :: 0 <= i < |models| ==> KeyOf(models[i].id) != id) ==>
                PeekRecord(modelType, id) == if modelType.typeName in s0 then PeekIn(s0, modelType.typeName, id) else NotInBucket
    {
      FromArrayToHashContents(models);
    }

    /** peekAll: every model of the type's bucket once, in an order the model leaves open. */
    method PeekAll(modelType: ModelClass) returns (models: seq<JsonApiModel>, ghost ids: seq<string>)
      ensures modelType.typeName !in store ==> models == []
      ensures |models| == |ids| == |Bucket(store, modelType.typeName)|
      ensures forall i, j :: 0 <= i < j < |ids| ==> ids[i] != ids[j]
      ensures forall k :: k in Bucket(store, modelType.typeName) <==> k in ids
      ensures forall i :: 0 <= i < |ids| ==> models[i] == Bucket(store, modelType.typeName)[ids[i]]
    {
      var bucket := Bucket(store, modelType.typeName);
      var keys := bucket.Keys;
      models, ids := [], [];
      while keys != {}
        invariant keys <= bucket.Keys && |ids| + |keys| == |bucket|
        invariant forall k :: k in bucket <==> k in keys || k in ids
        invariant forall k :: k in keys ==> k !in ids
        invariant forall i, j :: 0 <= i < j < |ids| ==> ids[i] != ids[j]
        invariant |models| == |ids| && forall i :: 0 <= i < |ids| ==> ids[i] in bucket && models[i] == bucket[ids[i]]
        decreases keys
      {
        var k :| k in keys;
        models, ids := models + [bucket[k]], ids + [k];
        keys := keys - {k};
      }
    }

    /**
     * The request saveRecord sends for `model`: its dirty-tracked attributes,
     * pointers for its single related models, PATCH to the record URL when
     * the model has a (non-empty) id and POST otherwise.
     */
    method SaveRecord(attributesMetadata: map<string, AttributeMeta>, model: JsonApiModel,
                      params: Option<Params>, enc: string -> string) returns (request: SaveRequest)
      ensures request.typeName == model.cls.typeName
      ensures request.url == BuildUrl(baseUrl, model.cls.typeName, model.id, params, enc)
      ensures request.verb == (if model.id.Some? && model.id.value != "" then Patch else Post)
      ensures request.attributes.Keys == attributesMetadata.Keys
      ensures forall k :: k in attributesMetadata ==> request.attributes[k] == SerialisedValue(attributesMetadata[k])
      ensures forall k :: k in request.relationships <==> k in model.props && model.props[k].One?
      ensures forall k :: k in request.relationships ==>
                request.relationships[k] == Pointer(model.props[k].model.cls.typeName, model.props[k].model.id)
    {
      var typeName := model.cls.typeName;
      var relationships := GetRelationships(model);
      var url := BuildUrl(baseUrl, typeName, model.id, params, enc);
      var dirtyData: map<string, Value> := map[];
      var keys := attributesMetadata.Keys;
      while keys != {}
        invariant keys <= attributesMetadata.Keys
        invariant dirtyData.Keys == attributesMetadata.Keys - keys
        invariant forall k :: k in dirtyData ==> dirtyData[k] == SerialisedValue(attributesMetadata[k])
        decreases keys
      {
        var propertyName :| propertyName in keys;
        var metadata := attributesMetadata[propertyName];
        dirtyData := dirtyData[propertyName := if Truthy(metadata.serialisationValue) then metadata.serialisationValue else metadata.newValue];
        keys := keys - {propertyName};
      }
      var verb := if model.id.Some? && model.id.value != "" then Patch else Post;
      request := SaveRequest(verb, url, typeName, dirtyData, relationships);
    }

    /** The relationships syncRelationships assigns at level 0 when the body has `included`, none otherwise. */
    ghost function LinksFor(cls: ModelClass, data: Option<Resource>, included: Option<seq<Resource>>): map<string, Link>
    {
      if included.Some? then Sync(cls, data, included.value, 0, registry).props else map[]
    }

    /** The model extractRecordData works on: the given one updated from the primary data, or a new one built from it. */
    method Primary(data: PrimaryData, modelType: ModelClass, model: JsonApiModel?) returns (m: JsonApiModel)
      requires model != null ==> !data.Missing?
      modifies model
      ensures model != null ==> m == model && m.props == old(model.props) + AttrProps(AttributesOf(data))
      ensures model != null ==> model.metadata == old(model.metadata) && model.links == old(model.links)
      ensures model == null ==> fresh(m) && m.cls == modelType && m.metadata == map[] && m.props == AttrProps(AttributesOf(data))
      ensures model == null && data.Single? ==> m.links == LinksOf(data.resource)
      ensures m.id == IdOf(data)
    {
      if model != null {
        Absorb(model, data);
        m := model;
      } else {
        m := new JsonApiModel(modelType, AsData(data));
        assert AttrProps(map[]) == map[];
      }
    }

    /**
     * extractRecordData: updates the given model from the primary data (or
     * builds a new one of `modelType`), stores it, and when the body has
     * `included` resolves its relationships, stores it again and stores a
     * new model for every included resource, each under its own type.
     * When a step after the first store throws, `data` is the model the
     * store was left holding.
     */
    method ExtractRecordData(body: Body, modelType: ModelClass, model: JsonApiModel?)
      returns (data: JsonApiModel?, failure: Option<Failure>, ghost created: set<object>, ghost built: seq<JsonApiModel>)
      modifies this`store, model
      ensures fresh(created)
      ensures model != null ==> model.metadata == old(model.metadata) && model.links == old(model.links)
      ensures var cls := if model != null then model.cls else modelType;
              failure.None? <==> !(model != null && body.data.Missing?)
                                 && (body.included.Some? ==>
                                       Sync(cls, AsData(body.data), body.included.value, 0, registry).error.None?
                                       && Registered(body.included.value))
      ensures failure.Some? && failure.value.Unresolved? ==>
                var cls := if model != null then model.cls else modelType;
                body.included.Some? && Sync(cls, AsData(body.data), body.included.value, 0, registry).error == Some(failure.value.error)
      ensures model != null && body.data.Missing? ==> store == old(store) && unchanged(model)
      ensures failure.None? ==> data != null
      ensures data == null <==> model != null && body.data.Missing?
      ensures data != null ==> data.id == IdOf(body.data)
      ensures data != null && model != null ==> data == model
      ensures data != null && model == null ==> fresh(data) && data.cls == modelType && data.metadata == map[]
      ensures data != null && model == null && body.data.Single? ==> data.links == LinksOf(body.data.resource)
      ensures data != null ==>
                var base := if model != null then old(model.props) + AttrProps(AttributesOf(body.data)) else AttrProps(AttributesOf(body.data));
                Holds(data.props, base, LinksFor(data.cls, AsData(body.data), body.included), created)
      ensures failure.None? && body.included.None? ==>
                store == old(store)[data.cls.typeName := Bucket(old(store), data.cls.typeName)[KeyOf(data.id) := data]]
      ensures failure.None? && body.included.Some? ==> Grows(old(store), store) && StoresAll(body.included.value, store)
      ensures failure.None? && body.included.Some? ==>
                |built| == |body.included.value| && BuiltAll(built, body.included.value)
                && fresh(built)
                && store == PutAll(old(store)[data.cls.typeName := Bucket(old(store), data.cls.typeName)[KeyOf(data.id) := data]],
                                   IncludedKeys(body.included.value), built)
      ensures failure.Some? && failure.value.Unresolved? ==>
                data != null && store == old(store)[data.cls.typeName := Bucket(old(store), data.cls.typeName)[KeyOf(data.id) := data]]
      ensures failure == Some(TypeError) && data != null ==>
                body.included.Some? && |built| < |body.included.value| && body.included.value[|built|].typeName !in registry
                && fresh(built)
                && StoredPrefix(body.included.value, built,
                                old(store)[data.cls.typeName := Bucket(old(store), data.cls.typeName)[KeyOf(data.id) := data]], store)
      decreases if body.included.Some? then 1 else 0, 3
    {
      created, built := {}, [];
      failure := None;
      data := null;
      if model != null && body.data.Missing? {
        failure := Some(TypeError);
        return;
      }
      var m := Primary(body.data, modelType, model);
      failure, created, built := Settle(m, AsData(body.data), body.included);
      data := m;
    }

    /** The bucket and key an included resource is stored under: its registered class's type name and `String(id)`. */
    function IncludedKeys(included: seq<Resource>): (keys: seq<(string, string)>)
      requires Registered(included)
      ensures |keys| == |included|
    {
      if included == [] then []
      else
        var n := |included| - 1;
        assert Registered(included[..n]) by {
          forall i | 0 <= i < n ensures included[..n][i].typeName in registry {
            assert included[..n][i] == included[i];
          }
        }
        IncludedKeys(included[..n]) + [(registry[included[n].typeName].typeName, KeyOf(included[n].id))]
    }

    lemma IncludedKeysSnoc(included: seq<Resource>, i: nat)
      requires i < |included| && Registered(included[..i]) && included[i].typeName in registry
      ensures Registered(included[..i + 1])
      ensures IncludedKeys(included[..i + 1])
              == IncludedKeys(included[..i]) + [(registry[included[i].typeName].typeName, KeyOf(included[i].id))]
    {
      assert included[..i + 1][..i] == included[..i];
      assert included[..i + 1][i] == included[i];
      var w := included[..i + 1];
      forall j | 0 <= j < |w| ensures w[j].typeName in registry {
        if j < i { assert w[j] == included[..i][j]; }
      }
    }

    /**
     * Model `m` is the one extractRecordData builds from the included
     * resource `r` as primary data of class `cls`: its id, its attributes,
     * its truthy links, no metadata and no relationships.
     */
    ghost predicate BuiltFrom(m: JsonApiModel, r: Resource, cls: ModelClass)
      reads m
    {
      m.cls == cls && m.id == r.id && m.metadata == map[] && m.props == AttrProps(r.attributes) && m.links == LinksOf(r)
    }

    /** Each model of `built` is built from the included resource at its position. */
    ghost predicate BuiltAll(built: seq<JsonApiModel>, included: seq<Resource>)
      requires Registered(included) && |built| <= |included|
      reads built
    {
      forall i :: 0 <= i < |built| ==> BuiltFrom(built[i], included[i], registry[included[i].typeName])
    }

    lemma BuiltSnoc(built: seq<JsonApiModel>, included: seq<Resource>, i: nat, d: JsonApiModel)
      requires i < |included| && Registered(included[..i]) && Registered(included[..i + 1]) && |built| == i
      requires BuiltAll(built, included[..i]) && BuiltFrom(d, included[i], registry[included[i].typeName])
      ensures BuiltAll(built + [d], included[..i + 1])
    {
      forall j | 0 <= j < i + 1
        ensures BuiltFrom((built + [d])[j], included[..i + 1][j], registry[included[..i + 1][j].typeName])
      {
        if j < i {
          assert included[..i + 1][j] == included[..i][j];
        } else {
          assert included[..i + 1][j] == included[i];
        }
      }
    }

    /**
     * The first `|built|` included resources are registered, `built` holds
     * their models in order, and `s` is `s0` with those models put under
     * their pairs.
     */
    ghost predicate StoredPrefix(included: seq<Resource>, built: seq<JsonApiModel>, s0: Store, s: Store)
      reads built
    {
      |built| <= |included| && Registered(included[..|built|]) && BuiltAll(built, included[..|built|])
      && s == PutAll(s0, IncludedKeys(included[..|built|]), built)
    }

    /** One round of the loop over `included`: resource `i`, registered, is extracted as a new model and put under its pair. */
    method StoreOneIncluded(included: seq<Resource>, i: nat, ghost built: seq<JsonApiModel>, ghost s0: Store) returns (d: JsonApiModel)
      requires i < |included| && included[i].typeName in registry
      requires |built| == i && StoredPrefix(included, built, s0, store)
      modifies this`store
      ensures fresh(d) && StoredPrefix(included, built + [d], s0, store)
      decreases 0, 4
    {
      var r := included[i];
      var f;
      ghost var c, b;
      d, f, c, b := ExtractRecordData(Body(Single(r), None, Undefined, Undefined), registry[r.typeName], null);
      HoldsNothing(d.props, AttrProps(r.attributes), c);
      IncludedKeysSnoc(included, i);
      BuiltSnoc(built, included, i, d);
      PutAllSnoc(s0, IncludedKeys(included[..i]), built, (registry[r.typeName].typeName, KeyOf(r.id)), d);
    }

    /** After the included resources are put under their pairs, each one has a model in its bucket. */
    lemma IncludedStored(included: seq<Resource>, s0: Store, built: seq<JsonApiModel>)
      requires Registered(included) && |built| == |included|
      ensures StoresAll(included, PutAll(s0, IncludedKeys(included), built))
    {
      var keys := IncludedKeys(included);
      PutAllPresent(s0, keys, built);
      forall i | 0 <= i < |included|
        ensures keys[i] == (registry[included[i].typeName].typeName, KeyOf(included[i].id))
      {
        IncludedKeysAt(included, i);
      }
    }

    lemma {:induction false} IncludedKeysAt(included: seq<Resource>, i: nat)
      requires Registered(included) && i < |included|
      ensures IncludedKeys(included)[i] == (registry[included[i].typeName].typeName, KeyOf(included[i].id))
      decreases |included|
    {
      var n := |included| - 1;
      assert Registered(included[..n]) by {
        forall j | 0 <= j < n ensures included[..n][j].typeName in registry {
          assert included[..n][j] == included[j];
        }
      }
      if i < n {
        IncludedKeysAt(included[..n], i);
        assert included[..n][i] == included[i];
      }
    }

    /** Every included resource has a registered type. */
    ghost predicate Registered(included: seq<Resource>)
    {
      forall i :: 0 <= i < |included| ==> included[i].typeName in registry
    }

    /** Every included resource has a model under its key in the bucket of its registered class. */
    ghost predicate StoresAll(included: seq<Resource>, s: Store)
      requires Registered(included)
    {
      forall i :: 0 <= i < |included| ==>
        registry[included[i].typeName].typeName in s && KeyOf(included[i].id) in s[registry[included[i].typeName].typeName]
    }

    /**
     * The rest of extractRecordData once the model is built: store it, and
     * with `included` resolve its relationships at level 0, store it again
     * and extract every included resource.
     */
    method Settle(m: JsonApiModel, data: Option<Resource>, included: Option<seq<Resource>>)
      returns (failure: Option<Failure>, ghost created: set<object>, ghost built: seq<JsonApiModel>)
      modifies this`store, m`props
      ensures fresh(created)
      ensures failure.None? <==> (included.Some? ==> Sync(m.cls, data, included.value, 0, registry).error.None? && Registered(included.value))
      ensures failure.Some? && failure.value.Unresolved? ==>
                included.Some? && Sync(m.cls, data, included.value, 0, registry).error == Some(failure.value.error)
      ensures Holds(m.props, old(m.props), LinksFor(m.cls, data, included), created)
      ensures included.None? ==> store == old(store)[m.cls.typeName := Bucket(old(store), m.cls.typeName)[KeyOf(m.id) := m]]
      ensures failure.None? && included.Some? ==> Grows(old(store), store) && StoresAll(included.value, store)
      ensures failure.None? && included.Some? ==>
                |built| == |included.value| && BuiltAll(built, included.value)
                && fresh(built)
                && store == PutAll(old(store)[m.cls.typeName := Bucket(old(store), m.cls.typeName)[KeyOf(m.id) := m]],
                                   IncludedKeys(included.value), built)
      ensures failure.Some? && failure.value.Unresolved? ==>
                store == old(store)[m.cls.typeName := Bucket(old(store), m.cls.typeName)[KeyOf(m.id) := m]]
      ensures failure == Some(TypeError) ==>
                included.Some? && |built| < |included.value| && included.value[|built|].typeName !in registry && fresh(built)
                && StoredPrefix(included.value, built,
                                old(store)[m.cls.typeName := Bucket(old(store), m.cls.typeName)[KeyOf(m.id) := m]], store)
      decreases if included.Some? then 1 else 0, 2
    {
      failure, created, built := None, {}, [];
      var added := AddToStore([m]);
      StoreOne(old(store), m.cls.typeName, m);
      GrowsPut(old(store), m.cls.typeName, KeyOf(m.id), m);
      if included.Some? {
        var err;
        err, created := m.SyncRelationships(data, included.value, 0, registry);
        if err.Some? {
          failure := Some(Unresolved(err.value));
          return;
        }
        StoreAgain(store, m.cls.typeName, m);
        added := AddToStore([m]);
        ghost var s2 := store;
        var ok;
        ok, built := StoreIncluded(included.value);
        GrowsTrans(old(store), s2, store);
        if !ok {
          failure := Some(TypeError);
        }
      }
    }

    /**
     * The last step of extractRecordData: every included resource is
     * extracted as primary data of the class registered for its type; an
     * unregistered type is a TypeError (`new undefined(...)`).
     */
    method StoreIncluded(included: seq<Resource>) returns (ok: bool, ghost built: seq<JsonApiModel>)
      modifies this`store
      ensures ok <==> Registered(included)
      ensures Grows(old(store), store)
      ensures ok ==> StoresAll(included, store)
      ensures ok ==>
                |built| == |included| && BuiltAll(built, included) && fresh(built)
                && store == PutAll(old(store), IncludedKeys(included), built)
      ensures !ok ==> |built| < |included| && included[|built|].typeName !in registry
                      && fresh(built) && StoredPrefix(included, built, old(store), store)
      decreases 0, 5
    {
      built := [];
      for i := 0 to |included|
        invariant |built| == i && fresh(built) && StoredPrefix(included, built, old(store), store)
      {
        var includedModelData := included[i];
        if includedModelData.typeName !in registry {
          PutAllGrows(old(store), IncludedKeys(included[..i]), built);
          return false, built;
        }
        var d := StoreOneIncluded(included, i, built, old(store));
        built := built + [d];
      }
      assert included[..|included|] == included;
      PutAllGrows(old(store), IncludedKeys(included), built);
      IncludedStored(included, old(store), built);
      return true, built;
    }

    /**
     * Model `m` is what extractQueryData makes of primary resource `r`: of
     * `cls`, in `fp`, with the resource's id, its truthy links, clean
     * metadata, its attributes and the relationships resolved at level 0.
     */
    ghost predicate ExtractedFrom(m: JsonApiModel, r: Resource, cls: ModelClass, included: Option<seq<Resource>>, fp: set<object>)
      reads m, fp
    {
      m in fp && m.cls == cls && m.id == r.id && m.metadata == map[] && m.links == LinksOf(r)
      && Holds(m.props, AttrProps(r.attributes), LinksFor(cls, Some(r), included), fp)
    }

    /** The models extracted so far from the primary resources, in order, no model twice. */
    ghost predicate Extracted(models: seq<JsonApiModel>, resources: seq<Resource>, cls: ModelClass,
                              included: Option<seq<Resource>>, fp: set<object>)
      requires |models| <= |resources|
      reads models, fp
      decreases |models|
    {
      models == [] ||
      var n := |models| - 1;
      Extracted(models[..n], resources, cls, included, fp) && models[n] !in models[..n]
      && ExtractedFrom(models[n], resources[n], cls, included, fp)
    }

    /** Element by element: model `j` is extracted from resource `j`, and no model occurs twice. */
    lemma {:induction false} ExtractedEach(models: seq<JsonApiModel>, resources: seq<Resource>, cls: ModelClass,
                                           included: Option<seq<Resource>>, fp: set<object>)
      requires |models| <= |resources| && Extracted(models, resources, cls, included, fp)
      ensures forall j :: 0 <= j < |models| ==> ExtractedFrom(models[j], resources[j], cls, included, fp)
      ensures forall j, k :: 0 <= j < k < |models| ==> models[j] != models[k]
      decreases |models|
    {
      if models != [] {
        var n := |models| - 1;
        ExtractedEach(models[..n], resources, cls, included, fp);
        forall j | 0 <= j < n ensures models[j] == models[..n][j] && models[j] != models[n] {
          assert models[..n][j] in models[..n];
        }
      }
    }

    lemma {:induction false} ExtractedWiden(models: seq<JsonApiModel>, resources: seq<Resource>, cls: ModelClass,
                                            included: Option<seq<Resource>>, fp: set<object>, fp': set<object>)
      requires |models| <= |resources| && fp <= fp' && Extracted(models, resources, cls, included, fp)
      ensures Extracted(models, resources, cls, included, fp')
      decreases |models|
    {
      if models != [] {
        var n := |models| - 1;
        ExtractedWiden(models[..n], resources, cls, included, fp, fp');
        HoldsWiden(models[n].props, AttrProps(resources[n].attributes), LinksFor(cls, Some(resources[n]), included), fp, fp');
      }
    }

    /** With `included`, the first `n` primary resources resolve at level 0 without error. */
    ghost predicate Resolves(cls: ModelClass, resources: seq<Resource>, included: Option<seq<Resource>>, n: nat)
      requires n <= |resources|
    {
      included.None? || n == 0 ||
      (Resolves(cls, resources, included, n - 1) && Sync(cls, Some(resources[n - 1]), included.value, 0, registry).error.None?)
    }

    /** A resource among the first `n` that does not resolve breaks `Resolves` for `n`. */
    lemma {:induction false} ResolvesEach(cls: ModelClass, resources: seq<Resource>, included: Option<seq<Resource>>, n: nat, i: nat)
      requires i < n <= |resources| && Resolves(cls, resources, included, n) && included.Some?
      ensures Sync(cls, Some(resources[i]), included.value, 0, registry).error.None?
    {
      if i < n - 1 {
        ResolvesEach(cls, resources, included, n - 1, i);
      }
    }

    lemma ExtractedSnoc(models: seq<JsonApiModel>, resources: seq<Resource>, cls: ModelClass,
                        included: Option<seq<Resource>>, fp: set<object>, model: JsonApiModel, c: set<object>)
      requires |models| < |resources| && Extracted(models, resources, cls, included, fp) && model !in models
      requires fp <= fp + c && ExtractedFrom(model, resources[|models|], cls, included, c)
      ensures Extracted(models + [model], resources, cls, included, fp + c)
    {
      var ms := models + [model];
      assert ms[..|models|] == models;
      ExtractedWiden(models, resources, cls, included, fp, fp + c);
      HoldsWiden(model.props, AttrProps(resources[|models|].attributes), LinksFor(cls, Some(resources[|models|]), included), c, fp + c);
    }

    /** One primary resource of extractQueryData: a new model, stored, and when there is `included` resolved and stored again. */
    method ExtractOne(r: Resource, modelType: ModelClass, included: Option<seq<Resource>>)
      returns (model: JsonApiModel, err: Option<SyncError>, ghost c: set<object>)
      modifies this`store
      ensures fresh(c) && model in c
      ensures model.cls == modelType && model.id == r.id && model.metadata == map[] && model.links == LinksOf(r)
      ensures err == (if included.Some? then Sync(modelType, Some(r), included.value, 0, registry).error else None)
      ensures err.None? ==> Holds(model.props, AttrProps(r.attributes), LinksFor(modelType, Some(r), included), c)
      ensures store == old(store)[modelType.typeName := Bucket(old(store), modelType.typeName)[KeyOf(model.id) := model]]
    {
      model := new JsonApiModel(modelType, Some(r));
      var added := AddToStore([model]);
      StoreOne(old(store), modelType.typeName, model);
      err, c := None, {model};
      if included.Some? {
        err, c := ResolveStored(model, r, included.value);
      }
    }

    /**
     * The second half of one extractQueryData round: resolves the stored
     * model's relationships at level 0 and, when that succeeds, stores it again.
     */
    method ResolveStored(model: JsonApiModel, r: Resource, included: seq<Resource>)
      returns (err: Option<SyncError>, ghost c: set<object>)
      requires model.cls.typeName in store && KeyOf(model.id) in store[model.cls.typeName]
      requires store[model.cls.typeName][KeyOf(model.id)] == model
      modifies this`store, model`props
      ensures fresh(c - {model}) && model in c
      ensures err == Sync(model.cls, Some(r), included, 0, registry).error
      ensures err.None? ==> Holds(model.props, old(model.props), Sync(model.cls, Some(r), included, 0, registry).props, c)
      ensures store == old(store)
    {
      ghost var synced;
      err, synced := model.SyncRelationships(Some(r), included, 0, registry);
      c := synced + {model};
      if err.None? {
        HoldsWiden(model.props, old(model.props), Sync(model.cls, Some(r), included, 0, registry).props, synced, c);
        StoreAgain(store, model.cls.typeName, model);
        var added := AddToStore([model]);
      }
    }

    /**
     * The first `|models|` primary resources are extracted as `models` and
     * resolve, and `s` is `s0` with those models stored one by one.
     */
    ghost predicate ExtractedPrefix(models: seq<JsonApiModel>, resources: seq<Resource>, cls: ModelClass,
                                    included: Option<seq<Resource>>, fp: set<object>, s0: Store, s: Store)
      reads models, fp
    {
      |models| <= |resources| && Extracted(models, resources, cls, included, fp) && Resolves(cls, resources, included, |models|)
      && s == StoredBatch(s0, cls.typeName, IdKeys(resources[..|models|]), models)
    }

    /** One round of extractQueryData's loop, over the resource after the `models` extracted so far. */
    method ExtractStep(resources: seq<Resource>, modelType: ModelClass, included: Option<seq<Resource>>,
                       models: seq<JsonApiModel>, ghost fp: set<object>, ghost s0: Store)
      returns (model: JsonApiModel, err: Option<SyncError>, ghost fp': set<object>)
      requires |models| < |resources| && this !in fp
      requires ExtractedPrefix(models, resources, modelType, included, fp, s0, store)
      modifies this`store
      ensures fp <= fp' && fresh(fp' - fp) && this !in fp'
      ensures err.Some? <==> !Resolves(modelType, resources, included, |models| + 1)
      ensures err.Some? ==> !Resolves(modelType, resources, included, |resources|)
      ensures err.Some? ==> included.Some? && err == Sync(modelType, Some(resources[|models|]), included.value, 0, registry).error
      ensures err.None? ==> ExtractedPrefix(models + [model], resources, modelType, included, fp', s0, store)
    {
      ghost var c;
      ghost var before := store;
      var i := |models|;
      model, err, c := ExtractOne(resources[i], modelType, included);
      fp' := fp + c;
      if err.Some? {
        if Resolves(modelType, resources, included, |resources|) {
          ResolvesEach(modelType, resources, included, |resources|, i);
        }
        return;
      }
      assert model !in models;
      ExtractedPrefixSnoc(models, resources, modelType, included, fp, s0, before, model, c, store);
    }

    /** A resolved, newly extracted model stored under its key extends the extracted prefix by one. */
    lemma ExtractedPrefixSnoc(models: seq<JsonApiModel>, resources: seq<Resource>, cls: ModelClass,
                              included: Option<seq<Resource>>, fp: set<object>, s0: Store, before: Store,
                              model: JsonApiModel, c: set<object>, after: Store)
      requires |models| < |resources| && ExtractedPrefix(models, resources, cls, included, fp, s0, before)
      requires model !in models && ExtractedFrom(model, resources[|models|], cls, included, c)
      requires included.Some? ==> Sync(cls, Some(resources[|models|]), included.value, 0, registry).error.None?
      requires after == before[cls.typeName := Bucket(before, cls.typeName)[KeyOf(model.id) := model]]
      ensures ExtractedPrefix(models + [model], resources, cls, included, fp + c, s0, after)
    {
      var i := |models|;
      ExtractedSnoc(models, resources, cls, included, fp, model, c);
      IdKeysSnoc(resources, i);
      StoreSnoc(s0, cls.typeName, IdKeys(resources[..i]), models, KeyOf(model.id), model, before, after);
    }

    /**
     * extractQueryData: a collection with the body's links and meta, and one
     * new model of `modelType` per primary resource, in order, each stored
     * and, when the body has `included`, resolved at level 0 and stored again.
     */
    method ExtractQueryData(body: Body, modelType: ModelClass)
      returns (collection: CollectionModel<JsonApiModel>, failure: Option<Failure>, ghost created: set<object>)
      modifies this`store
      ensures fresh(collection) && fresh(created)
      ensures collection.links == body.links && collection.meta == body.meta
      ensures failure.None? <==> body.data.Several? && Resolves(modelType, body.data.resources, body.included, |body.data.resources|)
      ensures !body.data.Several? ==> failure == Some(TypeError) && store == old(store) && collection.data == None
      ensures body.data.Several? && failure.Some? ==>
                failure.value.Unresolved? && body.included.Some?
                && exists i :: 0 <= i < |body.data.resources| && Resolves(modelType, body.data.resources, body.included, i)
                     && Sync(modelType, Some(body.data.resources[i]), body.included.value, 0, registry).error == Some(failure.value.error)
      ensures failure.None? ==>
                collection.data.Some? && |collection.data.value| == |body.data.resources|
                && Extracted(collection.data.value, body.data.resources, modelType, body.included, created)
                && (|collection.data.value| == 0 ==> store == old(store))
                && (|collection.data.value| > 0 ==>
                      store == old(store)[modelType.typeName := Bucket(old(store), modelType.typeName) + FromArrayToHash(collection.data.value)])
    {
      created := {};
      failure := None;
      if !body.data.Several? {
        collection := new CollectionModel(body);
        failure := Some(TypeError);
        return;
      }
      var models, err;
      models, err, created := ExtractAll(body.data.resources, modelType, body.included);
      collection := new CollectionModel(body);
      if err.Some? {
        failure := Some(Unresolved(err.value));
        return;
      }
      collection.SetData(models);
      StoredExtracted(old(store), models, body.data.resources, modelType, body.included, created);
    }

    /** extractQueryData's loop over the primary resources; it stops at the first one whose relationships do not resolve. */
    method ExtractAll(resources: seq<Resource>, modelType: ModelClass, included: Option<seq<Resource>>)
      returns (models: seq<JsonApiModel>, err: Option<SyncError>, ghost created: set<object>)
      modifies this`store
      ensures fresh(created) && this !in created
      ensures err.None? <==> Resolves(modelType, resources, included, |resources|)
      ensures err.Some? ==>
                |models| < |resources| && included.Some? && Resolves(modelType, resources, included, |models|)
                && err == Sync(modelType, Some(resources[|models|]), included.value, 0, registry).error
      ensures err.None? ==>
                |models| == |resources| && Extracted(models, resources, modelType, included, created)
                && store == StoredBatch(old(store), modelType.typeName, IdKeys(resources), models)
    {
      created, err := {}, None;
      models := [];
      for i := 0 to |resources|
        invariant fresh(created) && this !in created && |models| == i && err.None?
        invariant ExtractedPrefix(models, resources, modelType, included, created, old(store), store)
      {
        var model;
        model, err, created := ExtractStep(resources, modelType, included, models, created, old(store));
        if err.Some? {
          return;
        }
        models := models + [model];
      }
      assert resources[..|resources|] == resources;
    }

    /** The batch extractQueryData stores is `fromArrayToHash` of the extracted models, merged into the bucket. */
    lemma StoredExtracted(s0: Store, models: seq<JsonApiModel>, resources: seq<Resource>, cls: ModelClass,
                          included: Option<seq<Resource>>, fp: set<object>)
      requires |models| == |resources| && Extracted(models, resources, cls, included, fp)
      ensures |models| == 0 ==> StoredBatch(s0, cls.typeName, IdKeys(resources), models) == s0
      ensures |models| > 0 ==> StoredBatch(s0, cls.typeName, IdKeys(resources), models)
                                 == s0[cls.typeName := Bucket(s0, cls.typeName) + FromArrayToHash(models)]
    {
      if |models| > 0 {
        ExtractedEach(models, resources, cls, included, fp);
        HashOfResources(models, resources);
      }
    }

    /**
     * One related model's part of updateRelationships: pushes `model` onto
     * the inverse has-many list, or fails where the source throws.
     */
    method PushInverse(model: JsonApiModel, relationshipModel: JsonApiModel) returns (ok: bool)
      modifies relationshipModel`props
      ensures ok <==> !InverseAction(old(relationshipModel.props), relationshipModel.cls, model.cls, registry).Throw?
      ensures ok ==> relationshipModel.props == Pushed(old(relationshipModel.props), relationshipModel.cls, model, registry, 1)
      ensures !ok ==> relationshipModel.props == old(relationshipModel.props)
      ensures Ones(relationshipModel.props) == Ones(old(relationshipModel.props))
    {
      var action := InverseAction(relationshipModel.props, relationshipModel.cls, model.cls, registry);
      match action
      case Skip =>
        ok := true;
      case Throw =>
        ok := false;
      case Push(p) =>
        assert seq(1, _ => model) == [model];
        relationshipModel.props := relationshipModel.props[p := Many(relationshipModel.props[p].models + [model])];
        ok := true;
    }

    /**
     * The pushes made so far: each related model's properties are its
     * original ones `olds[r]` with the saved model pushed once for every key
     * of `done` that holds it.
     */
    ghost predicate PushedSoFar(model: JsonApiModel, props: map<string, Prop>, related: set<JsonApiModel>,
                                olds: map<JsonApiModel, map<string, Prop>>, done: set<string>)
      requires related <= olds.Keys
      reads related
    {
      forall r :: r in related ==> r.props == Pushed(olds[r], r.cls, model, registry, Count(props, done, r))
    }

    /** Key `k` of the saved model's properties `props` makes updateRelationships throw, with `olds` the related models' properties. */
    ghost predicate FailsWith(props: map<string, Prop>, k: string, cls: ModelClass, olds: map<JsonApiModel, map<string, Prop>>)
    {
      k in props &&
      match props[k]
      case Attr(v) => IsPrimitive(v)
      case Many(_) => false
      case One(r) => r in olds && InverseAction(olds[r], r.cls, cls, registry).Throw?
    }

    /** One round of updateRelationships' loop, for relationship key `k`. */
    method UpdateOne(model: JsonApiModel, k: string, ghost related: set<JsonApiModel>,
                     ghost olds: map<JsonApiModel, map<string, Prop>>, ghost done: set<string>) returns (ok: bool)
      requires related <= olds.Keys && k !in done
      requires k in model.props && model.props[k].One? ==> model.props[k].model in related
      requires model !in related ==> PushedSoFar(model, model.props, related, olds, done)
      modifies related
      ensures Ones(model.props) == Ones(old(model.props))
      ensures model !in related ==>
                model.props == old(model.props)
                && (ok <==> !FailsWith(model.props, k, model.cls, olds))
                && (ok ==> PushedSoFar(model, model.props, related, olds, done + {k}))
                && (!ok ==> PushedSoFar(model, model.props, related, olds, done))
    {
      ok := true;
      if k in model.props && model.props[k].One? {
        var relationshipModel := model.props[k].model;
        if model !in related {
          PushedStable(olds[relationshipModel], relationshipModel.cls, model, registry, Count(model.props, done, relationshipModel));
        }
        ok := PushInverse(model, relationshipModel);
        if ok && model !in related {
          forall r | r in related ensures r.props == Pushed(olds[r], r.cls, model, registry, Count(model.props, done + {k}, r)) {
            CountStep(model.props, done, k, r);
          }
        }
      } else {
        if k in model.props && model.props[k].Attr? && IsPrimitive(model.props[k].value) {
          ok := false;
        }
        if model !in related {
          forall r | r in related ensures r.props == Pushed(olds[r], r.cls, model, registry, Count(model.props, done + {k}, r)) {
            CountStep(model.props, done, k, r);
          }
        }
      }
    }

    /**
     * updateRelationships: for each relationship key the saved model holds a
     * single related model under, appends the saved model to that model's
     * inverse has-many list. A primitive under such a key, or a truthy
     * inverse property without `push`, throws. When the saved model is not
     * among its own related models, each related model ends up with one copy
     * per key pointing at it, and success means no key throws. On failure
     * `failed` is the key that throws and `done` the keys visited before it,
     * whose pushes stay made.
     */
    method UpdateRelationships(model: JsonApiModel, relationships: map<string, Pointer>)
      returns (ok: bool, ghost done: set<string>, ghost failed: string)
      modifies Related(model.props, relationships)
      ensures model !in old(Related(model.props, relationships)) ==>
                (ok <==> forall k :: k in relationships ==> !old(Fails(model, k, registry)))
      ensures model !in old(Related(model.props, relationships)) && ok ==>
                forall r :: r in old(Related(model.props, relationships)) ==>
                  r.props == Pushed(old(r.props), r.cls, model, registry, Count(old(model.props), relationships.Keys, r))
      ensures model !in old(Related(model.props, relationships)) && !ok ==>
                done <= relationships.Keys && failed in relationships && failed !in done
                && old(Fails(model, failed, registry))
                && (forall k :: k in done ==> !old(Fails(model, k, registry)))
                && forall r :: r in old(Related(model.props, relationships)) ==>
                     r.props == Pushed(old(r.props), r.cls, model, registry, Count(old(model.props), done, r))
    {
      ghost var related := Related(model.props, relationships);
      ghost var olds := map r | r in related :: r.props;
      ok := true;
      var keys := relationships.Keys;
      done, failed := {}, "";
      forall r | r in related ensures Pushed(olds[r], r.cls, model, registry, Count(model.props, done, r)) == r.props {
        PushedStable(r.props, r.cls, model, registry, 0);
      }
      while keys != {}
        invariant keys <= relationships.Keys && done == relationships.Keys - keys
        invariant Ones(model.props) == Ones(old(model.props))
        invariant forall r :: r in related ==> olds[r] == old(r.props)
        invariant forall k :: k in relationships ==> (old(Fails(model, k, registry)) <==> FailsWith(old(model.props), k, model.cls, olds))
        invariant model !in related ==> model.props == old(model.props)
        invariant model !in related ==> forall k :: k in done ==> !FailsWith(model.props, k, model.cls, olds)
        invariant model !in related ==> PushedSoFar(model, model.props, related, olds, done)
        decreases keys
      {
        var relationship :| relationship in keys;
        RelatedKept(model.props, old(model.props), relationships, relationship);
        ok := UpdateOne(model, relationship, related, olds, done);
        if !ok {
          failed := relationship;
          return;
        }
        assert relationships.Keys - (keys - {relationship}) == done + {relationship};
        keys := keys - {relationship};
        done := done + {relationship};
      }
      assert done == relationships.Keys;
      if model !in related {
        forall r | r in related
          ensures r.props == Pushed(old(r.props), r.cls, model, registry, Count(old(model.props), relationships.Keys, r))
        {
          assert olds[r] == old(r.props);
        }
      }
    }
  }
}
