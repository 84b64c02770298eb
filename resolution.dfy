/**
 * The relationship resolver of json-api.model.ts stated over values: what
 * `syncRelationships` assigns onto a model, as a tree of `Node`s. The
 * imperative resolver in the Models module is proved to build objects that
 * mirror these trees.
 *
 * `level` is the recursion depth: the model whose data is being resolved
 * runs at `level`, and a related model is itself resolved (at `level + 1`)
 * only while `level <= 1`; beyond that it is attached with its attributes
 * and no relationships.
 */
module Resolution {
  import opened Wrappers
  import opened Json
  import opened Wire

  /** What a relationship property holds after resolution. */
  datatype Link = ToOne(node: Node) | ToMany(nodes: seq<Node>)

  /** A model built by class `cls` from resource `res`, with the relationships assigned onto it. */
  datatype Node = Node(cls: ModelClass, res: Resource, links: map<string, Link>)

  datatype Origin = FromHasMany | FromBelongsTo

  /** The error the resolver throws: a pointer's type is not in the registry. */
  datatype SyncError = UnknownType(origin: Origin, typeName: string)
  {
    function Message(): string
    {
      match origin
      case FromHasMany => "parseHasMany - Model type for relationship " + typeName + " not found."
      case FromBelongsTo => "parseBelongsTo - Model type for relationship " + typeName + " not found."
    }
  }

  /**
   * The properties a resolution pass assigned, in assignment order collapsed
   * to a map, and the error that stopped it, if any. On an error the map holds
   * what was assigned before the throw.
   */
  datatype Synced = Synced(props: map<string, Link>, error: Option<SyncError>)

  datatype Outcome<T> = Ok(value: T) | Failed(error: SyncError)

  /** How many more levels of resolution a model at `level` may start. */
  function Budget(level: int): nat
  {
    if level <= 1 then 2 - level else 0
  }

  /** The has-many pointers of relationship `key`; empty when parseHasMany skips it. */
  function ManyPointers(res: Resource, key: string): seq<Pointer>
  {
    if key in res.relationships && res.relationships[key].ToManyData? then res.relationships[key].pointers else []
  }

  /** The pointer parseBelongsTo follows for relationship `key`: the object, or an array's first element. */
  function OnePointer(res: Resource, key: string): Option<Pointer>
  {
    if key !in res.relationships then None
    else match res.relationships[key]
      case NoData => None
      case ToOneData(p) => Some(p)
      case ToManyData(ps) => if |ps| > 0 then Some(ps[0]) else None
  }

  /** syncRelationships(data, included, level): nothing for falsy data, else has-many then belongs-to. */
  function Sync(cls: ModelClass, data: Option<Resource>, included: seq<Resource>, level: int, reg: Registry): Synced
    decreases Budget(level), 3, 0
  {
    if data.None? then Synced(map[], None)
    else
      var h := HasMany(cls.hasMany, 0, data.value, included, level, reg, map[]);
      if h.error.Some? then h
      else BelongsTo(cls.belongsTo, 0, data.value, included, level, reg, h.props)
  }

  /** parseHasMany from declaration `i` on, with `acc` assigned so far. */
  function HasMany(decls: seq<RelDecl>, i: nat, res: Resource, included: seq<Resource>, level: int, reg: Registry,
                   acc: map<string, Link>): Synced
    requires i <= |decls|
    decreases Budget(level), 2, |decls| - i
  {
    if i == |decls| then Synced(acc, None)
    else
      var d := decls[i];
      var ps := ManyPointers(res, d.relationship);
      if |ps| == 0 then HasMany(decls, i + 1, res, included, level, reg, acc)
      else
        var t := ps[0].typeName;
        if t !in reg then Synced(acc, Some(UnknownType(FromHasMany, t)))
        else match HasManyList(reg[t], ps, 0, included, t, level, reg, [])
          case Failed(e) => Synced(acc, Some(e))
          case Ok(nodes) =>
            HasMany(decls, i + 1, res, included, level, reg, if |nodes| > 0 then acc[d.propertyName := ToMany(nodes)] else acc)
  }

  /** getHasManyRelationship from pointer `j` on, every pointer matched against type `t`. */
  function HasManyList(cls: ModelClass, ps: seq<Pointer>, j: nat, included: seq<Resource>, t: string, level: int,
                       reg: Registry, acc: seq<Node>): Outcome<seq<Node>>
    requires j <= |ps|
    decreases Budget(level), 1, |ps| - j
  {
    if j == |ps| then Ok(acc)
    else match Find(included, ps[j].id, t)
      case None => HasManyList(cls, ps, j + 1, included, t, level, reg, acc)
      case Some(r) =>
        match Child(cls, r, included, level, reg)
        case Failed(e) => Failed(e)
        case Ok(n) => HasManyList(cls, ps, j + 1, included, t, level, reg, acc + [n])
  }

  /** getBelongsToRelationship: the related model, or `None` (null) when the pointer matches nothing. */
  function BelongsToTarget(cls: ModelClass, p: Pointer, included: seq<Resource>, t: string, level: int,
                           reg: Registry): Outcome<Option<Node>>
    decreases Budget(level), 1, 0
  {
    match Find(included, p.id, t)
    case None => Ok(None)
    case Some(r) =>
      match Child(cls, r, included, level, reg)
      case Failed(e) => Failed(e)
      case Ok(n) => Ok(Some(n))
  }

  /** A related model built from `r` (createOrPeek), resolved one level deeper while `level <= 1`. */
  function Child(cls: ModelClass, r: Resource, included: seq<Resource>, level: int, reg: Registry): Outcome<Node>
    decreases Budget(level), 0, 0
  {
    if level <= 1 then
      var s := Sync(cls, Some(r), included, level + 1, reg);
      if s.error.Some? then Failed(s.error.value) else Ok(Node(cls, r, s.props))
    else Ok(Node(cls, r, map[]))
  }

  /** parseBelongsTo from declaration `i` on, with `acc` assigned so far. */
  function BelongsTo(decls: seq<RelDecl>, i: nat, res: Resource, included: seq<Resource>, level: int, reg: Registry,
                     acc: map<string, Link>): Synced
    requires i <= |decls|
    decreases Budget(level), 2, |decls| - i
  {
    if i == |decls| then Synced(acc, None)
    else
      var d := decls[i];
      match OnePointer(res, d.relationship)
      case None => BelongsTo(decls, i + 1, res, included, level, reg, acc)
      case Some(p) =>
        if p.typeName !in reg then Synced(acc, Some(UnknownType(FromBelongsTo, p.typeName)))
        else match BelongsToTarget(reg[p.typeName], p, included, p.typeName, level, reg)
          case Failed(e) => Synced(acc, Some(e))
          case Ok(None) => BelongsTo(decls, i + 1, res, included, level, reg, acc)
          case Ok(Some(n)) => BelongsTo(decls, i + 1, res, included, level, reg, acc[d.propertyName := ToOne(n)])
  }

  // ---- Shape of a resolution result ----

  /** A node tree of height at most `h`: at height 0 a node carries no relationships. */
  ghost predicate Shallow(n: Node, h: nat)
    decreases n
  {
    if h == 0 then n.links == map[] else forall k :: k in n.links ==> LinkShallow(n.links[k], h - 1)
  }

  ghost predicate LinkShallow(l: Link, h: nat)
    decreases l
  {
    match l
    case ToOne(c) => Shallow(c, h)
    case ToMany(cs) => forall i :: 0 <= i < |cs| ==> Shallow(cs[i], h)
  }

  /** The property names a class declares relationships on. */
  function DeclaredNames(cls: ModelClass): (names: set<string>)
    ensures forall d :: d in cls.hasMany || d in cls.belongsTo ==> d.propertyName in names
  {
    (set d | d in cls.hasMany :: d.propertyName) + (set d | d in cls.belongsTo :: d.propertyName)
  }

  /**
   * What is assigned is a declared property, holds trees of height at most
   * `h`, and a has-many list is assigned only when it is non-empty.
   */
  ghost predicate WellShaped(props: map<string, Link>, h: nat, names: set<string>)
  {
    forall k :: k in props ==> k in names && LinkShallow(props[k], h) && (props[k].ToMany? ==> |props[k].nodes| > 0)
  }

  /**
   * syncRelationships at `level` assigns only declared properties, never a
   * resolved has-many list that is empty, and nests related models at most
   * Budget(level) deep: a root resolved at level 0 has children and
   * grandchildren resolved, and their great-grandchildren attached with no
   * relationships. It fails only on a type missing from the registry.
   */
  lemma {:induction false} SyncShape(cls: ModelClass, data: Option<Resource>, included: seq<Resource>, level: int, reg: Registry)
    ensures WellShaped(Sync(cls, data, included, level, reg).props, Budget(level), DeclaredNames(cls))
    ensures Sync(cls, data, included, level, reg).error.Some? ==> Sync(cls, data, included, level, reg).error.value.typeName !in reg
    decreases Budget(level), 3, 0
  {
    if data.Some? {
      var names := DeclaredNames(cls);
      HasManyShape(cls.hasMany, 0, data.value, included, level, reg, map[], names);
      var h := HasMany(cls.hasMany, 0, data.value, included, level, reg, map[]);
      if h.error.None? {
        BelongsToShape(cls.belongsTo, 0, data.value, included, level, reg, h.props, names);
      }
    }
  }

  lemma {:induction false} HasManyShape(decls: seq<RelDecl>, i: nat, res: Resource, included: seq<Resource>, level: int,
                                        reg: Registry, acc: map<string, Link>, names: set<string>)
    requires i <= |decls|
    requires forall d :: d in decls ==> d.propertyName in names
    requires WellShaped(acc, Budget(level), names)
    ensures WellShaped(HasMany(decls, i, res, included, level, reg, acc).props, Budget(level), names)
    ensures HasMany(decls, i, res, included, level, reg, acc).error.Some? ==>
              HasMany(decls, i, res, included, level, reg, acc).error.value.typeName !in reg
    decreases Budget(level), 2, |decls| - i
  {
    if i < |decls| {
      var d := decls[i];
      var ps := ManyPointers(res, d.relationship);
      if |ps| == 0 {
        HasManyShape(decls, i + 1, res, included, level, reg, acc, names);
      } else if ps[0].typeName in reg {
        var t := ps[0].typeName;
        HasManyListShape(reg[t], ps, 0, included, t, level, reg, []);
        match HasManyList(reg[t], ps, 0, included, t, level, reg, [])
        case Failed(e) =>
        case Ok(nodes) =>
          var acc' := if |nodes| > 0 then acc[d.propertyName := ToMany(nodes)] else acc;
          assert d in decls;
          HasManyShape(decls, i + 1, res, included, level, reg, acc', names);
      }
    }
  }

  lemma {:induction false} HasManyListShape(cls: ModelClass, ps: seq<Pointer>, j: nat, included: seq<Resource>, t: string,
                                            level: int, reg: Registry, acc: seq<Node>)
    requires j <= |ps|
    requires forall n :: n in acc ==> Shallow(n, Budget(level))
    ensures match HasManyList(cls, ps, j, included, t, level, reg, acc)
            case Ok(nodes) => (forall n :: n in nodes ==> Shallow(n, Budget(level))) && |nodes| >= |acc|
            case Failed(e) => e.typeName !in reg
    decreases Budget(level), 1, |ps| - j
  {
    if j < |ps| {
      match Find(included, ps[j].id, t)
      case None =>
        HasManyListShape(cls, ps, j + 1, included, t, level, reg, acc);
      case Some(r) =>
        ChildShape(cls, r, included, level, reg);
        match Child(cls, r, included, level, reg)
        case Failed(e) =>
        case Ok(n) =>
          HasManyListShape(cls, ps, j + 1, included, t, level, reg, acc + [n]);
    }
  }

  lemma {:induction false} BelongsToTargetShape(cls: ModelClass, p: Pointer, included: seq<Resource>, t: string, level: int,
                                                reg: Registry)
    ensures match BelongsToTarget(cls, p, included, t, level, reg)
            case Ok(m) => m.Some? ==> Shallow(m.value, Budget(level))
            case Failed(e) => e.typeName !in reg
    decreases Budget(level), 1, 0
  {
    match Find(included, p.id, t)
    case None =>
    case Some(r) =>
      ChildShape(cls, r, included, level, reg);
  }

  lemma {:induction false} ChildShape(cls: ModelClass, r: Resource, included: seq<Resource>, level: int, reg: Registry)
    ensures match Child(cls, r, included, level, reg)
            case Ok(n) => Shallow(n, Budget(level))
            case Failed(e) => e.typeName !in reg
    decreases Budget(level), 0, 0
  {
    if level <= 1 {
      SyncShape(cls, Some(r), included, level + 1, reg);
      assert Budget(level) == Budget(level + 1) + 1;
    }
  }

  lemma {:induction false} BelongsToShape(decls: seq<RelDecl>, i: nat, res: Resource, included: seq<Resource>, level: int,
                                          reg: Registry, acc: map<string, Link>, names: set<string>)
    requires i <= |decls|
    requires forall d :: d in decls ==> d.propertyName in names
    requires WellShaped(acc, Budget(level), names)
    ensures WellShaped(BelongsTo(decls, i, res, included, level, reg, acc).props, Budget(level), names)
    ensures BelongsTo(decls, i, res, included, level, reg, acc).error.Some? ==>
              BelongsTo(decls, i, res, included, level, reg, acc).error.value.typeName !in reg
    decreases Budget(level), 2, |decls| - i
  {
    if i < |decls| {
      var d := decls[i];
      match OnePointer(res, d.relationship)
      case None =>
        BelongsToShape(decls, i + 1, res, included, level, reg, acc, names);
      case Some(p) =>
        if p.typeName in reg {
          BelongsToTargetShape(reg[p.typeName], p, included, p.typeName, level, reg);
          match BelongsToTarget(reg[p.typeName], p, included, p.typeName, level, reg)
          case Failed(e) =>
          case Ok(None) =>
            BelongsToShape(decls, i + 1, res, included, level, reg, acc, names);
          case Ok(Some(n)) =>
            assert d in decls;
            BelongsToShape(decls, i + 1, res, included, level, reg, acc[d.propertyName := ToOne(n)], names);
        }
    }
  }

  // ---- Order and multiplicity of a has-many list ----

  /** Reference definition: the included resources the pointers match, in pointer order. */
  function Matched(ps: seq<Pointer>, included: seq<Resource>, t: string): seq<Resource>
  {
    if ps == [] then [] else MatchOne(ps[0], included, t) + Matched(ps[1..], included, t)
  }

  /** The included resource one pointer matches, if any. */
  function MatchOne(p: Pointer, included: seq<Resource>, t: string): seq<Resource>
  {
    match Find(included, p.id, t)
    case None => []
    case Some(r) => [r]
  }

  /** `nodes` is `acc` followed by one node of `cls` per resource of `m`, built from it. */
  ghost predicate Lined(nodes: seq<Node>, acc: seq<Node>, m: seq<Resource>, cls: ModelClass)
  {
    |nodes| == |acc| + |m| && nodes[..|acc|] == acc
    && forall i :: 0 <= i < |m| ==> nodes[|acc| + i].res == m[i] && nodes[|acc| + i].cls == cls
  }

  /**
   * getHasManyRelationship keeps pointer order, drops pointers with no
   * included match, and keeps one model per matching pointer, duplicates
   * included; every model is built by `cls` from the matched resource.
   */
  lemma {:induction false} HasManyListOrder(cls: ModelClass, ps: seq<Pointer>, j: nat, included: seq<Resource>, t: string,
                                            level: int, reg: Registry, acc: seq<Node>)
    requires j <= |ps|
    ensures HasManyList(cls, ps, j, included, t, level, reg, acc).Ok? ==>
              Lined(HasManyList(cls, ps, j, included, t, level, reg, acc).value, acc, Matched(ps[j..], included, t), cls)
    decreases |ps| - j
  {
    if j < |ps| {
      assert ps[j..][0] == ps[j] && ps[j..][1..] == ps[j + 1..];
      var m' := Matched(ps[j + 1..], included, t);
      assert Matched(ps[j..], included, t) == MatchOne(ps[j], included, t) + m';
      var found := Find(included, ps[j].id, t);
      if found.None? {
        assert MatchOne(ps[j], included, t) == [];
        assert Matched(ps[j..], included, t) == m';
        assert HasManyList(cls, ps, j, included, t, level, reg, acc) == HasManyList(cls, ps, j + 1, included, t, level, reg, acc);
        HasManyListOrder(cls, ps, j + 1, included, t, level, reg, acc);
      } else {
        var child := Child(cls, found.value, included, level, reg);
        if child.Ok? {
          var n := child.value;
          assert n.res == found.value && n.cls == cls;
          HasManyListOrder(cls, ps, j + 1, included, t, level, reg, acc + [n]);
          var out := HasManyList(cls, ps, j + 1, included, t, level, reg, acc + [n]);
          assert HasManyList(cls, ps, j, included, t, level, reg, acc) == out;
          if out.Ok? {
            NodesCons(out.value, acc, n, m');
          }
        }
      }
    } else {
      assert ps[j..] == [];
    }
  }

  /** One more built node in front of the rest keeps the nodes lined up with their resources. */
  lemma NodesCons(nodes: seq<Node>, acc: seq<Node>, n: Node, m: seq<Resource>)
    requires Lined(nodes, acc + [n], m, n.cls)
    ensures Lined(nodes, acc, [n.res] + m, n.cls)
  {
    assert nodes[..|acc| + 1] == acc + [n];
    assert nodes[..|acc| + 1][..|acc|] == nodes[..|acc|];
    forall i | 0 <= i < |[n.res] + m| ensures nodes[|acc| + i].res == ([n.res] + m)[i] && nodes[|acc| + i].cls == n.cls {
      if i == 0 {
        assert nodes[|acc|] == nodes[..|acc| + 1][|acc|];
      } else {
        assert nodes[|acc + [n]| + (i - 1)].res == m[i - 1];
      }
    }
  }

  /**
   * The matched resources number at most the pointers, all come from
   * `included`, and all have type `t` (the first pointer's type), whatever
   * type the other pointers name.
   */
  lemma {:induction false} MatchedFacts(ps: seq<Pointer>, included: seq<Resource>, t: string)
    ensures |Matched(ps, included, t)| <= |ps|
    ensures forall i :: 0 <= i < |Matched(ps, included, t)| ==>
              Matched(ps, included, t)[i] in included && Matched(ps, included, t)[i].typeName == t
  {
    if ps != [] {
      MatchedFacts(ps[1..], included, t);
    }
  }

  /** Matching distributes over concatenated pointer lists, so a repeated pointer yields its resource again. */
  lemma {:induction false} MatchedAppend(ps: seq<Pointer>, qs: seq<Pointer>, included: seq<Resource>, t: string)
    ensures Matched(ps + qs, included, t) == Matched(ps, included, t) + Matched(qs, included, t)
  {
    if ps != [] {
      assert (ps + qs)[0] == ps[0] && (ps + qs)[1..] == ps[1..] + qs;
      MatchedAppend(ps[1..], qs, included, t);
      var m := MatchOne(ps[0], included, t);
      assert m + (Matched(ps[1..], included, t) + Matched(qs, included, t))
          == (m + Matched(ps[1..], included, t)) + Matched(qs, included, t);
    } else {
      assert ps + qs == qs;
    }
  }

  // ---- Errors ----

  /** A first has-many relationship whose first pointer names an unregistered type stops resolution with that type. */
  lemma HasManyUnknownType(cls: ModelClass, res: Resource, included: seq<Resource>, level: int, reg: Registry)
    requires |cls.hasMany| > 0
    requires |ManyPointers(res, cls.hasMany[0].relationship)| > 0
    requires ManyPointers(res, cls.hasMany[0].relationship)[0].typeName !in reg
    ensures Sync(cls, Some(res), included, level, reg)
            == Synced(map[], Some(UnknownType(FromHasMany, ManyPointers(res, cls.hasMany[0].relationship)[0].typeName)))
  {
  }

  /**
   * Once the has-many pass has succeeded, an unregistered type behind the
   * first belongs-to pointer stops resolution, keeping what the has-many
   * pass assigned.
   */
  lemma BelongsToUnknownType(cls: ModelClass, res: Resource, included: seq<Resource>, level: int, reg: Registry)
    requires |cls.belongsTo| > 0
    requires HasMany(cls.hasMany, 0, res, included, level, reg, map[]).error.None?
    requires OnePointer(res, cls.belongsTo[0].relationship).Some?
    requires OnePointer(res, cls.belongsTo[0].relationship).value.typeName !in reg
    ensures Sync(cls, Some(res), included, level, reg)
            == Synced(HasMany(cls.hasMany, 0, res, included, level, reg, map[]).props,
                      Some(UnknownType(FromBelongsTo, OnePointer(res, cls.belongsTo[0].relationship).value.typeName)))
  {
  }

  /** Has-many declaration `k` names, as its first pointer's type, a type missing from the registry. */
  predicate HasManyUnregistered(decls: seq<RelDecl>, k: int, res: Resource, reg: Registry)
  {
    0 <= k < |decls| && |ManyPointers(res, decls[k].relationship)| > 0
    && ManyPointers(res, decls[k].relationship)[0].typeName !in reg
  }

  /** Belongs-to declaration `k` points at a type missing from the registry. */
  predicate BelongsToUnregistered(decls: seq<RelDecl>, k: int, res: Resource, reg: Registry)
  {
    0 <= k < |decls| && OnePointer(res, decls[k].relationship).Some?
    && OnePointer(res, decls[k].relationship).value.typeName !in reg
  }

  /** parseHasMany fails when any declaration from `i` on names an unregistered type. */
  lemma {:induction false} HasManyFailsAt(decls: seq<RelDecl>, i: nat, k: nat, res: Resource, included: seq<Resource>,
                                          level: int, reg: Registry, acc: map<string, Link>)
    requires i <= k && HasManyUnregistered(decls, k, res, reg)
    ensures HasMany(decls, i, res, included, level, reg, acc).error.Some?
    decreases k - i
  {
    var ps := ManyPointers(res, decls[i].relationship);
    if i < k {
      if |ps| == 0 {
        HasManyFailsAt(decls, i + 1, k, res, included, level, reg, acc);
      } else if ps[0].typeName in reg {
        var t := ps[0].typeName;
        var out := HasManyList(reg[t], ps, 0, included, t, level, reg, []);
        if out.Ok? {
          var acc' := if |out.value| > 0 then acc[decls[i].propertyName := ToMany(out.value)] else acc;
          HasManyFailsAt(decls, i + 1, k, res, included, level, reg, acc');
        }
      }
    }
  }

  /** parseBelongsTo fails when any declaration from `i` on points at an unregistered type. */
  lemma {:induction false} BelongsToFailsAt(decls: seq<RelDecl>, i: nat, k: nat, res: Resource, included: seq<Resource>,
                                            level: int, reg: Registry, acc: map<string, Link>)
    requires i <= k && BelongsToUnregistered(decls, k, res, reg)
    ensures BelongsTo(decls, i, res, included, level, reg, acc).error.Some?
    decreases k - i
  {
    if i < k {
      match OnePointer(res, decls[i].relationship)
      case None =>
        BelongsToFailsAt(decls, i + 1, k, res, included, level, reg, acc);
      case Some(p) =>
        if p.typeName in reg {
          match BelongsToTarget(reg[p.typeName], p, included, p.typeName, level, reg)
          case Failed(e) =>
          case Ok(None) =>
            BelongsToFailsAt(decls, i + 1, k, res, included, level, reg, acc);
          case Ok(Some(n)) =>
            BelongsToFailsAt(decls, i + 1, k, res, included, level, reg, acc[decls[i].propertyName := ToOne(n)]);
        }
    }
  }

  /**
   * syncRelationships fails whenever a declared relationship of the model
   * itself names an unregistered type; with SyncShape, an error is always
   * such a type, here or further down the tree.
   */
  lemma SyncFailsOnUnknownType(cls: ModelClass, res: Resource, included: seq<Resource>, level: int, reg: Registry, k: nat)
    requires HasManyUnregistered(cls.hasMany, k, res, reg) || BelongsToUnregistered(cls.belongsTo, k, res, reg)
    ensures Sync(cls, Some(res), included, level, reg).error.Some?
  {
    if HasManyUnregistered(cls.hasMany, k, res, reg) {
      HasManyFailsAt(cls.hasMany, 0, k, res, included, level, reg, map[]);
    } else {
      var h := HasMany(cls.hasMany, 0, res, included, level, reg, map[]);
      if h.error.None? {
        BelongsToFailsAt(cls.belongsTo, 0, k, res, included, level, reg, h.props);
      }
    }
  }

  // ---- A chain of to-one relationships ----

  /** A class `items` whose instances point to the next item through `next`. */
  function ItemClass(): ModelClass
  {
    ModelClass("Item", "items", [], [RelDecl("next", "next", None)])
  }

  function Item(id: string, next: Option<string>): Resource
  {
    Resource("items", Some(id), map[],
             if next.Some? then map["next" := ToOneData(Pointer("items", next))] else map[], Undefined)
  }

  /**
   * Resolving item 1 of the chain 1 -> 2 -> 3 -> 4 -> 5 at level 0, with
   * items 2 to 5 included: items 2 and 3 have their `next` resolved, item 4
   * is attached to item 3 without resolving its own `next`.
   */
  lemma ChainStopsAtFourthItem()
    ensures var reg := map["items" := ItemClass()];
            var included := [Item("2", Some("3")), Item("3", Some("4")), Item("4", Some("5")), Item("5", None)];
            Sync(ItemClass(), Some(Item("1", Some("2"))), included, 0, reg)
            == Synced(map["next" := ToOne(Node(ItemClass(), Item("2", Some("3")),
                        map["next" := ToOne(Node(ItemClass(), Item("3", Some("4")),
                          map["next" := ToOne(Node(ItemClass(), Item("4", Some("5")), map[]))]))]))], None)
  {
    var cls := ItemClass();
    var reg := map["items" := cls];
    var i2, i3, i4, i5 := Item("2", Some("3")), Item("3", Some("4")), Item("4", Some("5")), Item("5", None);
    var included := [i2, i3, i4, i5];
    assert Find(included[3..], Some("4"), "items") == None;
    assert Find(included[2..], Some("4"), "items") == Some(i4);
    assert Find(included[1..], Some("4"), "items") == Some(i4);
    assert Find(included, Some("4"), "items") == Some(i4);
    assert Find(included[1..], Some("3"), "items") == Some(i3);
    assert Find(included, Some("3"), "items") == Some(i3);
    assert Find(included, Some("2"), "items") == Some(i2);

    var n4 := Node(cls, i4, map[]);
    assert Child(cls, i4, included, 2, reg) == Ok(n4);
    ItemLink("3", "4", i4, included, 2, reg, n4);
    var n3 := Node(cls, i3, map["next" := ToOne(n4)]);
    assert Child(cls, i3, included, 1, reg) == Ok(n3);
    ItemLink("2", "3", i3, included, 1, reg, n3);
    var n2 := Node(cls, i2, map["next" := ToOne(n3)]);
    assert Child(cls, i2, included, 0, reg) == Ok(n2);
    ItemLink("1", "2", i2, included, 0, reg, n2);
  }

  /** An item whose `next` is found among the included resources links to that item's node. */
  lemma ItemLink(id: string, nextId: string, r: Resource, included: seq<Resource>, level: int, reg: Registry, n: Node)
    requires reg == map["items" := ItemClass()]
    requires Find(included, Some(nextId), "items") == Some(r)
    requires Child(ItemClass(), r, included, level, reg) == Ok(n)
    ensures Sync(ItemClass(), Some(Item(id, Some(nextId))), included, level, reg) == Synced(map["next" := ToOne(n)], None)
  {
    var cls, i := ItemClass(), Item(id, Some(nextId));
    var decls := cls.belongsTo;
    assert BelongsToTarget(cls, Pointer("items", Some(nextId)), included, "items", level, reg) == Ok(Some(n));
    assert OnePointer(i, "next") == Some(Pointer("items", Some(nextId)));
    var l := map["next" := ToOne(n)];
    assert BelongsTo(decls, 1, i, included, level, reg, l) == Synced(l, None);
    assert BelongsTo(decls, 0, i, included, level, reg, map[]) == Synced(l, None);
  }
}
