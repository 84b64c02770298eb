/**
 * The JsonApiModel base class of json-api.model.ts: a model instance with its
 * own enumerable properties, its attribute metadata and the relationship
 * resolver that populates related instances from a document's `included`.
 */
module Models {
  import opened Wrappers
  import opened Json
  import opened Wire
  import opened Resolution

  /** The value of one own property of a model: an attribute, a related model, or a list of them. */
  datatype Prop = Attr(value: Value) | One(model: JsonApiModel) | Many(models: seq<JsonApiModel>)

  /** One entry of the attribute metadata the Attribute decorator records. */
  datatype AttributeMeta = AttributeMeta(oldValue: Value, newValue: Value, hasDirtyAttributes: bool, serialisationValue: Value)

  /** The `links` the constructor copies: the resource's links when truthy, `undefined` otherwise. */
  function LinksOf(r: Resource): Value
  {
    if Truthy(r.links) then r.links else Undefined
  }

  /** `_.extend(this, attributes)` onto an instance with no other properties. */
  function AttrProps(attributes: map<string, Value>): (props: map<string, Prop>)
    ensures props.Keys == attributes.Keys
    ensures forall k :: k in attributes ==> props[k] == Attr(attributes[k])
  {
    map k | k in attributes :: Attr(attributes[k])
  }

  /** Some attribute is dirty. */
  ghost predicate Dirty(metadata: map<string, AttributeMeta>)
  {
    exists k :: k in metadata && metadata[k].hasDirtyAttributes
  }

  /** The metadata after rollbackAttributes: each dirty entry reset to its old value. */
  function RolledBack(metadata: map<string, AttributeMeta>): map<string, AttributeMeta>
  {
    map k | k in metadata ::
      if metadata[k].hasDirtyAttributes then AttributeMeta(Undefined, metadata[k].oldValue, false, Undefined) else metadata[k]
  }

  /** The properties rollbackAttributes writes: each dirty attribute's old value. */
  function Restored(metadata: map<string, AttributeMeta>): map<string, Prop>
  {
    map k | k in metadata && metadata[k].hasDirtyAttributes :: Attr(metadata[k].oldValue)
  }

  /** The metadata after rollbackAttributes has visited the keys `done`. */
  function RolledBackOn(metadata: map<string, AttributeMeta>, done: set<string>): map<string, AttributeMeta>
  {
    map k | k in metadata ::
      if k in done && metadata[k].hasDirtyAttributes then AttributeMeta(Undefined, metadata[k].oldValue, false, Undefined)
      else metadata[k]
  }

  /** The properties rollbackAttributes has written after visiting the keys `done`. */
  function RestoredOn(metadata: map<string, AttributeMeta>, done: set<string>): map<string, Prop>
  {
    map k | k in metadata && k in done && metadata[k].hasDirtyAttributes :: Attr(metadata[k].oldValue)
  }

  /** Visiting one more key of rollbackAttributes' loop. */
  lemma RollbackStep(metadata: map<string, AttributeMeta>, done: set<string>, k: string, props: map<string, Prop>)
    requires k in metadata && k !in done
    ensures metadata[k].hasDirtyAttributes ==>
              RolledBackOn(metadata, done + {k})
              == RolledBackOn(metadata, done)[k := AttributeMeta(Undefined, metadata[k].oldValue, false, Undefined)]
              && props + RestoredOn(metadata, done + {k}) == (props + RestoredOn(metadata, done))[k := Attr(metadata[k].oldValue)]
    ensures !metadata[k].hasDirtyAttributes ==>
              RolledBackOn(metadata, done + {k}) == RolledBackOn(metadata, done)
              && RestoredOn(metadata, done + {k}) == RestoredOn(metadata, done)
  {
    if metadata[k].hasDirtyAttributes {
      assert RestoredOn(metadata, done + {k}) == RestoredOn(metadata, done)[k := Attr(metadata[k].oldValue)];
    }
  }

  /** Before the loop nothing is visited; after it every key is. */
  lemma RollbackEnds(metadata: map<string, AttributeMeta>)
    ensures RolledBackOn(metadata, {}) == metadata && RestoredOn(metadata, {}) == map[]
    ensures RolledBackOn(metadata, metadata.Keys) == RolledBack(metadata)
    ensures RestoredOn(metadata, metadata.Keys) == Restored(metadata)
  {
  }

  /** A rollback leaves nothing dirty, and a second rollback changes nothing. */
  lemma RollbackSettles(metadata: map<string, AttributeMeta>)
    ensures !Dirty(RolledBack(metadata))
    ensures RolledBack(RolledBack(metadata)) == RolledBack(metadata)
    ensures Restored(RolledBack(metadata)) == map[]
    ensures RolledBack(metadata).Keys == metadata.Keys
    ensures forall k :: k in metadata ==>
              RolledBack(metadata)[k].newValue == (if metadata[k].hasDirtyAttributes then metadata[k].oldValue else metadata[k].newValue)
  {
  }

  // ---- How model objects mirror resolution trees ----

  /**
   * Object `o` (inside the footprint `fp`) is the model built for node `n`:
   * same class and id, no attribute metadata, the resource's attributes, and
   * each assigned relationship holding objects that mirror the related nodes.
   */
  ghost predicate Mirrors(o: JsonApiModel, n: Node, fp: set<object>)
    reads fp
    decreases n
  {
    o in fp && o.cls == n.cls && o.id == n.res.id && o.metadata == map[] && o.links == LinksOf(n.res)
    && o.props.Keys == n.res.attributes.Keys + n.links.Keys
    && (forall k :: k in n.res.attributes && k !in n.links ==> o.props[k] == Attr(n.res.attributes[k]))
    && (forall k :: k in n.links ==> MirrorsLink(o.props[k], n.links[k], fp))
  }

  ghost predicate MirrorsLink(p: Prop, l: Link, fp: set<object>)
    reads fp
    decreases l
  {
    match l
    case ToOne(n) => p.One? && Mirrors(p.model, n, fp)
    case ToMany(ns) => p.Many? && |p.models| == |ns| && forall i :: 0 <= i < |ns| ==> Mirrors(p.models[i], ns[i], fp)
  }

  /** `props` is `base` with the relationships `links` assigned over it. */
  ghost predicate Holds(props: map<string, Prop>, base: map<string, Prop>, links: map<string, Link>, fp: set<object>)
    reads fp
  {
    props.Keys == base.Keys + links.Keys
    && (forall k :: k in base && k !in links ==> props[k] == base[k])
    && (forall k :: k in links ==> MirrorsLink(props[k], links[k], fp))
  }

  lemma {:induction false} MirrorsWiden(o: JsonApiModel, n: Node, fp: set<object>, fp': set<object>)
    requires fp <= fp' && Mirrors(o, n, fp)
    ensures Mirrors(o, n, fp')
    decreases n
  {
    forall k | k in n.links ensures MirrorsLink(o.props[k], n.links[k], fp') {
      MirrorsLinkWiden(o.props[k], n.links[k], fp, fp');
    }
  }

  lemma {:induction false} MirrorsLinkWiden(p: Prop, l: Link, fp: set<object>, fp': set<object>)
    requires fp <= fp' && MirrorsLink(p, l, fp)
    ensures MirrorsLink(p, l, fp')
    decreases l
  {
    match l
    case ToOne(n) => MirrorsWiden(p.model, n, fp, fp');
    case ToMany(ns) =>
      forall i | 0 <= i < |ns| ensures Mirrors(p.models[i], ns[i], fp') {
        MirrorsWiden(p.models[i], ns[i], fp, fp');
      }
  }

  lemma HoldsWiden(props: map<string, Prop>, base: map<string, Prop>, links: map<string, Link>, fp: set<object>, fp': set<object>)
    requires fp <= fp' && Holds(props, base, links, fp)
    ensures Holds(props, base, links, fp')
  {
    forall k | k in links ensures MirrorsLink(props[k], links[k], fp') {
      MirrorsLinkWiden(props[k], links[k], fp, fp');
    }
  }

  /** Assignments made in two passes compose; the second pass wins on a shared property. */
  lemma HoldsCompose(p0: map<string, Prop>, p1: map<string, Prop>, p2: map<string, Prop>,
                     a: map<string, Link>, b: map<string, Link>, f1: set<object>, f2: set<object>)
    requires Holds(p1, p0, a, f1) && Holds(p2, p1, b, f2)
    ensures Holds(p2, p0, a + b, f1 + f2)
  {
    HoldsWiden(p1, p0, a, f1, f1 + f2);
    HoldsWiden(p2, p1, b, f2, f1 + f2);
  }

  /** Each model of `os` mirrors the node at the same position. */
  ghost predicate MirrorAll(os: seq<JsonApiModel>, ns: seq<Node>, fp: set<object>)
    reads fp
  {
    |os| == |ns| && forall i :: 0 <= i < |ns| ==> Mirrors(os[i], ns[i], fp)
  }

  lemma MirrorAllSnoc(os: seq<JsonApiModel>, ns: seq<Node>, fp: set<object>, o: JsonApiModel, n: Node, fp': set<object>)
    requires fp <= fp' && MirrorAll(os, ns, fp) && Mirrors(o, n, fp')
    ensures MirrorAll(os + [o], ns + [n], fp')
  {
    forall i | 0 <= i < |ns| ensures Mirrors(os[i], ns[i], fp') {
      MirrorsWiden(os[i], ns[i], fp, fp');
    }
  }

  /** Assigning one more relationship property keeps the properties mirroring the links assigned so far. */
  lemma HoldsAssign(props: map<string, Prop>, base: map<string, Prop>, links: map<string, Link>, fp: set<object>,
                    k: string, p: Prop, l: Link)
    requires Holds(props, base, links, fp) && MirrorsLink(p, l, fp)
    ensures Holds(props[k := p], base, links[k := l], fp)
  {
  }

  /** With nothing resolved, the properties are the base ones. */
  lemma HoldsNothing(props: map<string, Prop>, base: map<string, Prop>, fp: set<object>)
    requires Holds(props, base, map[], fp)
    ensures props == base
  {
  }

  /** A model built from `r` whose properties hold the resolution `links` mirrors the node. */
  lemma MirrorsIntro(o: JsonApiModel, cls: ModelClass, r: Resource, links: map<string, Link>, fp: set<object>)
    requires o in fp && o.cls == cls && o.id == r.id && o.metadata == map[] && o.links == LinksOf(r)
    requires Holds(o.props, AttrProps(r.attributes), links, fp)
    ensures Mirrors(o, Node(cls, r, links), fp)
  {
  }

  /** parseBelongsTo assigns over what it is given: its result is its own assignments laid over `acc`. */
  lemma {:induction false} BelongsToOver(decls: seq<RelDecl>, i: nat, res: Resource, included: seq<Resource>, level: int,
                                         reg: Registry, acc: map<string, Link>, m: map<string, Link>)
    requires i <= |decls|
    ensures BelongsTo(decls, i, res, included, level, reg, acc + m)
            == Synced(acc + BelongsTo(decls, i, res, included, level, reg, m).props,
                      BelongsTo(decls, i, res, included, level, reg, m).error)
    decreases |decls| - i
  {
    if i < |decls| {
      var d := decls[i];
      match OnePointer(res, d.relationship)
      case None =>
        BelongsToOver(decls, i + 1, res, included, level, reg, acc, m);
      case Some(p) =>
        if p.typeName in reg {
          match BelongsToTarget(reg[p.typeName], p, included, p.typeName, level, reg)
          case Failed(e) =>
          case Ok(None) =>
            BelongsToOver(decls, i + 1, res, included, level, reg, acc, m);
          case Ok(Some(n)) =>
            assert (acc + m)[d.propertyName := ToOne(n)] == acc + m[d.propertyName := ToOne(n)];
            BelongsToOver(decls, i + 1, res, included, level, reg, acc, m[d.propertyName := ToOne(n)]);
        }
    }
  }

  class JsonApiModel {
    /** The model class: its type name and relationship annotations. */
    const cls: ModelClass
    var id: Option<string>
    /** The instance's own enumerable properties other than `id`. */
    var props: map<string, Prop>
    /** The attribute metadata slot; an instance without one has the empty map. */
    var metadata: map<string, AttributeMeta>
    /** The `links` member last given to the instance's links object. */
    var links: Value

    /** Copies the resource's id, attributes and (when truthy) links; nothing for falsy data. */
    constructor (cls: ModelClass, data: Option<Resource>)
      ensures this.cls == cls && metadata == map[]
      ensures data.None? ==> id == None && props == map[] && links == Undefined
      ensures data.Some? ==> id == data.value.id && props == AttrProps(data.value.attributes)
      ensures data.Some? ==> links == LinksOf(data.value)
    {
      this.cls := cls;
      metadata := map[];
      links := Undefined;
      if data.Some? {
        id := data.value.id;
        props := AttrProps(data.value.attributes);
        if Truthy(data.value.links) {
          links := data.value.links;
        }
      } else {
        id := None;
        props := map[];
      }
    }

    /** True exactly when some attribute's metadata is dirty. */
    method HasDirtyAttributes() returns (hasDirtyAttributes: bool)
      ensures hasDirtyAttributes <==> Dirty(metadata)
    {
      var attributesMetadata := metadata;
      var keys := attributesMetadata.Keys;
      hasDirtyAttributes := false;
      while keys != {}
        invariant keys <= attributesMetadata.Keys
        invariant forall k :: k in attributesMetadata && k !in keys ==> !attributesMetadata[k].hasDirtyAttributes
        decreases keys
      {
        var propertyName :| propertyName in keys;
        if attributesMetadata[propertyName].hasDirtyAttributes {
          hasDirtyAttributes := true;
          break;
        }
        keys := keys - {propertyName};
      }
    }

    /** Restores every dirty attribute to its old value and marks its metadata clean. */
    method RollbackAttributes()
      modifies this`props, this`metadata
      ensures metadata == RolledBack(old(metadata))
      ensures props == old(props) + Restored(old(metadata))
      ensures !Dirty(metadata)
    {
      var attributesMetadata := metadata;
      var keys := attributesMetadata.Keys;
      ghost var done: set<string> := {};
      RollbackEnds(old(metadata));
      while keys != {}
        invariant keys !! done && keys + done == old(metadata).Keys
        invariant attributesMetadata == RolledBackOn(old(metadata), done)
        invariant props == old(props) + RestoredOn(old(metadata), done)
        decreases keys
      {
        var propertyName :| propertyName in keys;
        RollbackStep(old(metadata), done, propertyName, old(props));
        if attributesMetadata[propertyName].hasDirtyAttributes {
          props := props[propertyName := Attr(attributesMetadata[propertyName].oldValue)];
          var entry := AttributeMeta(Undefined, attributesMetadata[propertyName].oldValue, false, Undefined);
          attributesMetadata := attributesMetadata[propertyName := entry];
        }
        keys := keys - {propertyName};
        done := done + {propertyName};
      }
      metadata := attributesMetadata;
      RollbackSettles(old(metadata));
    }

    /**
     * syncRelationships: resolves this model's relationships from `data`
     * against `included` at depth `level`, as Sync describes; the objects it
     * creates are new.
     */
    method SyncRelationships(data: Option<Resource>, included: seq<Resource>, level: int, reg: Registry)
      returns (error: Option<SyncError>, ghost created: set<object>)
      modifies this`props
      ensures fresh(created)
      ensures error == Sync(cls, data, included, level, reg).error
      ensures Holds(props, old(props), Sync(cls, data, included, level, reg).props, created)
      decreases Budget(level), 3
    {
      created := {};
      error := None;
      if data.Some? {
        ghost var p0 := props;
        ghost var c1;
        error, c1 := ParseHasMany(data.value, included, level, reg);
        ghost var h := HasMany(cls.hasMany, 0, data.value, included, level, reg, map[]);
        if error.Some? {
          created := c1;
          return;
        }
        ghost var p1 := props;
        ghost var c2;
        error, c2 := ParseBelongsTo(data.value, included, level, reg);
        BelongsToOver(cls.belongsTo, 0, data.value, included, level, reg, h.props, map[]);
        assert h.props + map[] == h.props;
        HoldsCompose(p0, p1, props, h.props, BelongsTo(cls.belongsTo, 0, data.value, included, level, reg, map[]).props, c1, c2);
        created := c1 + c2;
      }
    }

    /** parseHasMany: assigns each declared has-many relationship whose resolved list is non-empty. */
    method ParseHasMany(res: Resource, included: seq<Resource>, level: int, reg: Registry)
      returns (error: Option<SyncError>, ghost created: set<object>)
      modifies this`props
      ensures fresh(created)
      ensures error == HasMany(cls.hasMany, 0, res, included, level, reg, map[]).error
      ensures Holds(props, old(props), HasMany(cls.hasMany, 0, res, included, level, reg, map[]).props, created)
      decreases Budget(level), 2
    {
      var hasMany := cls.hasMany;
      created := {};
      error := None;
      ghost var acc: map<string, Link> := map[];
      for i := 0 to |hasMany|
        invariant HasMany(hasMany, 0, res, included, level, reg, map[]) == HasMany(hasMany, i, res, included, level, reg, acc)
        invariant fresh(created) && this !in created
        invariant Holds(props, old(props), acc, created)
      {
        var metadata := hasMany[i];
        var data := ManyPointers(res, metadata.relationship);
        if |data| > 0 {
          var typeName := data[0].typeName;
          if typeName !in reg {
            error := Some(UnknownType(FromHasMany, typeName));
            return;
          }
          var relationshipModel, err, c := GetHasManyRelationship(reg[typeName], data, included, typeName, level, reg);
          HoldsWiden(props, old(props), acc, created, created + c);
          if err.Some? {
            error := err;
            created := created + c;
            return;
          }
          ghost var nodes := HasManyList(reg[typeName], data, 0, included, typeName, level, reg, []).value;
          if |relationshipModel| > 0 {
            forall j | 0 <= j < |nodes| ensures Mirrors(relationshipModel[j], nodes[j], created + c) {
              MirrorsWiden(relationshipModel[j], nodes[j], c, created + c);
            }
            HoldsAssign(props, old(props), acc, created + c, metadata.propertyName, Many(relationshipModel), ToMany(nodes));
            props := props[metadata.propertyName := Many(relationshipModel)];
            acc := acc[metadata.propertyName := ToMany(nodes)];
          }
          created := created + c;
        }
      }
    }

    /** parseBelongsTo: assigns each declared to-one relationship whose target is included. */
    method ParseBelongsTo(res: Resource, included: seq<Resource>, level: int, reg: Registry)
      returns (error: Option<SyncError>, ghost created: set<object>)
      modifies this`props
      ensures fresh(created)
      ensures error == BelongsTo(cls.belongsTo, 0, res, included, level, reg, map[]).error
      ensures Holds(props, old(props), BelongsTo(cls.belongsTo, 0, res, included, level, reg, map[]).props, created)
      decreases Budget(level), 2
    {
      var belongsTo := cls.belongsTo;
      created := {};
      error := None;
      ghost var acc: map<string, Link> := map[];
      for i := 0 to |belongsTo|
        invariant BelongsTo(belongsTo, 0, res, included, level, reg, map[]) == BelongsTo(belongsTo, i, res, included, level, reg, acc)
        invariant fresh(created) && this !in created
        invariant Holds(props, old(props), acc, created)
      {
        var metadata := belongsTo[i];
        var dataRelationship := OnePointer(res, metadata.relationship);
        if dataRelationship.Some? {
          var typeName := dataRelationship.value.typeName;
          if typeName !in reg {
            error := Some(UnknownType(FromBelongsTo, typeName));
            return;
          }
          var relationshipModel, err, c := GetBelongsToRelationship(reg[typeName], dataRelationship.value, included, typeName, level, reg);
          HoldsWiden(props, old(props), acc, created, created + c);
          if err.Some? {
            error := err;
            created := created + c;
            return;
          }
          if relationshipModel.Some? {
            ghost var node := BelongsToTarget(reg[typeName], dataRelationship.value, included, typeName, level, reg).value.value;
            MirrorsWiden(relationshipModel.value, node, c, created + c);
            HoldsAssign(props, old(props), acc, created + c, metadata.propertyName, One(relationshipModel.value), ToOne(node));
            props := props[metadata.propertyName := One(relationshipModel.value)];
            acc := acc[metadata.propertyName := ToOne(node)];
          }
          created := created + c;
        }
      }
    }

    /**
     * getHasManyRelationship: one new model per pointer whose `{id, type}`
     * is included, in pointer order, each resolved one level deeper while
     * `level <= 1`.
     */
    method GetHasManyRelationship(modelType: ModelClass, data: seq<Pointer>, included: seq<Resource>, typeName: string,
                                  level: int, reg: Registry)
      returns (relationshipList: seq<JsonApiModel>, error: Option<SyncError>, ghost created: set<object>)
      ensures fresh(created)
      ensures match HasManyList(modelType, data, 0, included, typeName, level, reg, [])
              case Ok(nodes) =>
                error.None? && MirrorAll(relationshipList, nodes, created)
              case Failed(e) => error == Some(e)
      decreases Budget(level), 1
    {
      relationshipList := [];
      error := None;
      created := {};
      ghost var nodes: seq<Node> := [];
      for j := 0 to |data|
        invariant HasManyList(modelType, data, 0, included, typeName, level, reg, [])
                  == HasManyList(modelType, data, j, included, typeName, level, reg, nodes)
        invariant fresh(created)
        invariant MirrorAll(relationshipList, nodes, created)
      {
        var relationshipData := Find(included, data[j].id, typeName);
        if relationshipData.Some? {
          var newObject, err, c := ResolveChild(modelType, relationshipData.value, included, level, reg);
          if err.Some? {
            error := err;
            created := created + c;
            return;
          }
          ghost var node := Child(modelType, relationshipData.value, included, level, reg).value;
          MirrorsWiden(newObject, node, c, created + c);
          MirrorAllSnoc(relationshipList, nodes, created, newObject, node, created + c);
          relationshipList := relationshipList + [newObject];
          nodes := nodes + [node];
          created := created + c;
        }
      }
    }

    /**
     * getBelongsToRelationship: a new model for the included resource the
     * pointer names, resolved one level deeper while `level <= 1`; `None`
     * (null) when nothing is included under that `{id, type}`.
     */
    method GetBelongsToRelationship(modelType: ModelClass, data: Pointer, included: seq<Resource>, typeName: string,
                                    level: int, reg: Registry)
      returns (relationshipModel: Option<JsonApiModel>, error: Option<SyncError>, ghost created: set<object>)
      ensures fresh(created)
      ensures match BelongsToTarget(modelType, data, included, typeName, level, reg)
              case Ok(m) => error.None? && relationshipModel.Some? == m.Some?
                            && (m.Some? ==> Mirrors(relationshipModel.value, m.value, created))
              case Failed(e) => error == Some(e)
      decreases Budget(level), 1
    {
      created := {};
      error := None;
      relationshipModel := None;
      var relationshipData := Find(included, data.id, typeName);
      if relationshipData.Some? {
        var newObject, err, c := ResolveChild(modelType, relationshipData.value, included, level, reg);
        created := c;
        if err.Some? {
          error := err;
          return;
        }
        relationshipModel := Some(newObject);
      }
    }

    /**
     * What getHasManyRelationship and getBelongsToRelationship do with a
     * matched included resource: createOrPeek, then syncRelationships one
     * level deeper while `level <= 1`.
     */
    method ResolveChild(modelType: ModelClass, r: Resource, included: seq<Resource>, level: int, reg: Registry)
      returns (newObject: JsonApiModel, error: Option<SyncError>, ghost created: set<object>)
      ensures fresh(created) && newObject in created
      ensures match Child(modelType, r, included, level, reg)
              case Ok(n) => error.None? && Mirrors(newObject, n, created)
              case Failed(e) => error == Some(e)
      decreases Budget(level), 0
    {
      newObject := CreateOrPeek(modelType, r);
      created := {newObject};
      error := None;
      ghost var links: map<string, Link> := map[];
      if level <= 1 {
        var err, c := newObject.SyncRelationships(Some(r), included, level + 1, reg);
        created := created + c;
        if err.Some? {
          error := err;
          return;
        }
        links := Sync(modelType, Some(r), included, level + 1, reg).props;
        HoldsWiden(newObject.props, AttrProps(r.attributes), links, c, created);
      }
      MirrorsIntro(newObject, modelType, r, links, created);
    }

    /** createOrPeek: always a new instance built from `data`; the store is never consulted. */
    method CreateOrPeek(modelType: ModelClass, data: Resource) returns (newObject: JsonApiModel)
      ensures fresh(newObject)
      ensures newObject.cls == modelType && newObject.id == data.id && newObject.metadata == map[]
      ensures newObject.props == AttrProps(data.attributes) && newObject.links == LinksOf(data)
    {
      newObject := new JsonApiModel(modelType, Some(data));
    }
  }
}
