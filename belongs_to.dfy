/**
 * The BelongsTo property decorator of belongs-to.decorator.ts: each
 * application appends one declaration to the `BelongsTo` annotation list of
 * the decorated class's prototype.
 */
module BelongsToDecorator {
  import opened Wrappers
  import opened Wire

  /** The decorator's `config` argument; an absent member is `None`. The default `{}` is `Config(None, None)`. */
  datatype Config = Config(key: Option<string>, link: Option<string>)

  /** JavaScript truthiness of an optional string: present and non-empty. */
  predicate Given(s: Option<string>)
  {
    s.Some? && s.value != ""
  }

  /** The annotation one application records for property `propertyName`. */
  function Entry(config: Config, propertyName: string): (d: RelDecl)
    ensures d.propertyName == propertyName
    ensures d.relationship == (if Given(config.key) then config.key.value else propertyName)
    ensures Given(config.link) ==> d.link == config.link
    ensures !Given(config.link) ==> d.link.None?
  {
    RelDecl(propertyName,
            if Given(config.key) then config.key.value else propertyName,
            if Given(config.link) then config.link else None)
  }

  /** The metadata slot of a class prototype; `None` until a first decoration defines it. */
  class Prototype {
    var belongsTo: Option<seq<RelDecl>>

    constructor ()
      ensures belongsTo == None
    {
      belongsTo := None;
    }
  }

  /** Applies `@BelongsTo(config)` to `propertyName` of `target`. */
  method BelongsTo(config: Config, target: Prototype, propertyName: string)
    modifies target`belongsTo
    ensures target.belongsTo == Some(old(target.belongsTo).GetOr([]) + [Entry(config, propertyName)])
  {
    var annotations := if target.belongsTo.Some? then target.belongsTo.value else [];
    annotations := annotations + [Entry(config, propertyName)];
    target.belongsTo := Some(annotations);
  }

  /**
   * Two decorated properties make the list hold their declarations in
   * decoration order, which is the order parseBelongsTo walks.
   */
  method DecorateTwo(c1: Config, p1: string, c2: Config, p2: string) returns (target: Prototype)
    ensures fresh(target)
    ensures target.belongsTo == Some([Entry(c1, p1), Entry(c2, p2)])
  {
    target := new Prototype();
    BelongsTo(c1, target, p1);
    assert [] + [Entry(c1, p1)] == [Entry(c1, p1)];
    assert target.belongsTo == Some([Entry(c1, p1)]);
    BelongsTo(c2, target, p2);
    assert [Entry(c1, p1)] + [Entry(c2, p2)] == [Entry(c1, p1), Entry(c2, p2)];
  }

  /** Without a key the declaration reads the relationship named like the property; without a link it has none. */
  lemma DefaultConfig(propertyName: string)
    ensures Entry(Config(None, None), propertyName) == RelDecl(propertyName, propertyName, None)
    ensures Entry(Config(Some(""), Some("")), propertyName) == RelDecl(propertyName, propertyName, None)
  {
  }
}
