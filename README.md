# ng-jsonapi core, modelled in Dafny

ng-jsonapi is an Angular client for JSON:API servers. A `JsonApiDatastore`
service builds request URLs and keeps an in-memory store of models, keyed by
type name and then by id. It turns response documents into model instances,
and it assembles the body a save sends. A `JsonApiModel` instance copies a
resource's id and attributes. It resolves its relationships against the
document's `included` array and attaches new related instances down to a
fixed depth. It also tracks and rolls back dirty attributes. A
`CollectionModel` carries the models of a query with the document's links
and meta. The `BelongsTo` decorator records to-one relationship declarations
on a class.

The project has these modules:

- `Wrappers` holds `Option`.
- `Json` holds JSON values with JavaScript truthiness.
- `Wire` holds JSON:API documents, the model registry, and `_.find` (as `Find`).
- `QueryString` covers the URL functions.
- `Resolution` gives a value-level specification of relationship resolution, as trees of `Node`s.
- `Models` holds the `JsonApiModel` class. Its resolver methods are proved to build objects that mirror the `Resolution` trees.
- `Collection` holds `CollectionModel`.
- `BelongsToDecorator` models the decorator.
- `Datastore` holds the store, the document extraction, the save request and the inverse-relationship update.

Reflection metadata takes a plain form in the model:

- Each model object carries its class as a `ModelClass` value. That value holds the type name and the `HasMany`/`BelongsTo` annotation lists.
- The datastore's `models` table is a `Registry` map.
- `encodeURIComponent` is a parameter `enc`. The only fact assumed about it is that its output never contains `&`.
- An instance's own properties are a map `props`. Its `id` is a separate field, where `None` stands for `undefined`.

## Model

| member | source | states |
|---|---|---|
| Wire.Find | src/models/json-api.model.ts:124 | `_.find(included, {id, type})`: `None` exactly when the pointer has no id or no included resource matches both id and type; otherwise the first matching resource |
| Wire.FindWithoutId | src/models/json-api.model.ts:139 | a pointer without an id matches no included resource, since lodash's `isMatch` fails on a resource lacking an `id` member |
| QueryString.ToQueryString | src/services/json-api-datastore.service.ts:132-159 | the text built by the nested loops equals the `&`-join of every parameter's `key=value` segments, in key order, with no leading, trailing or doubled `&` |
| QueryString.AppendParameter | src/services/json-api-datastore.service.ts:139-152 | one key's inner loop extends the text by exactly that key's segments: one per array item, one `key[inner]=value` per object entry, one for a scalar |
| QueryString.SegmentsOfOneParameter | src/services/json-api-datastore.service.ts:140-152 | a single parameter's query string has one segment per array item or object entry; a scalar gives exactly `key=enc(value)` |
| QueryString.QueryStringSplits | src/services/json-api-datastore.service.ts:132-159 | splitting the query string at `&` gives back exactly the segments, when no key contains `&` |
| QueryString.QueryStringEmpty | src/services/json-api-datastore.service.ts:155-158 | the query string is empty exactly when there are no segments |
| QueryString.TagAndPageExample | src/services/json-api-datastore.service.ts:140-148 | `{tag: ['a','b'], page: {size: 2}}` gives `tag=a&tag=b&page[size]=2` |
| QueryString.MakeUrlParts | src/services/json-api-datastore.service.ts:128-130 | the URL before `?` is the given URL; the part after is the query string if and only if parameters are given; with none the URL is unchanged |
| QueryString.BuildUrlParts | src/services/json-api-datastore.service.ts:121-126 | the path is base URL + type name + `/id`, and the `/id` appears only for a non-empty id; the query part is as in makeUrl |
| Resolution.SyncShape | src/models/json-api.model.ts:29-34 | syncRelationships assigns only declared properties; it never assigns an empty has-many list; related models nest at most Budget(level) deep; it fails only on a type missing from the registry |
| Resolution.HasManyShape | src/models/json-api.model.ts:76-95 | parseHasMany keeps those properties; an error names an unregistered type |
| Resolution.BelongsToShape | src/models/json-api.model.ts:97-119 | parseBelongsTo keeps those properties; an error names an unregistered type |
| Resolution.HasManyListShape | src/models/json-api.model.ts:121-134 | the related models of a has-many list have height within the budget |
| Resolution.BelongsToTargetShape | src/models/json-api.model.ts:137-149 | the to-one related model has height within the budget |
| Resolution.ChildShape | src/models/json-api.model.ts:151-154 | a related model is resolved one level deeper only while `level <= 1`; otherwise it has no relationships |
| Resolution.HasManyListOrder | src/models/json-api.model.ts:121-134 | the has-many list holds one model per pointer that has an included match, in pointer order, each built from the matched resource |
| Resolution.MatchedFacts | src/models/json-api.model.ts:82-84 | the matches number at most the pointers, come from `included`, and all have the first pointer's type |
| Resolution.MatchedAppend | src/models/json-api.model.ts:123-132 | matching distributes over concatenated pointer lists, so a repeated pointer yields its resource twice |
| Resolution.HasManyUnknownType | src/models/json-api.model.ts:86-91 | a first has-many pointer of an unregistered type stops resolution with the parseHasMany error for that type |
| Resolution.BelongsToUnknownType | src/models/json-api.model.ts:104-113 | once every has-many declaration resolves, a first belongs-to pointer of an unregistered type stops resolution with the parseBelongsTo error for that type, and the has-many assignments are kept |
| Resolution.HasManyFailsAt | src/models/json-api.model.ts:76-95 | parseHasMany fails whenever some declaration at or after the current one has a first pointer of an unregistered type, whatever was assigned before |
| Resolution.BelongsToFailsAt | src/models/json-api.model.ts:97-119 | parseBelongsTo fails whenever some declaration at or after the current one has a pointer of an unregistered type |
| Resolution.SyncFailsOnUnknownType | src/models/json-api.model.ts:29-34 | syncRelationships fails whenever any has-many or belongs-to declaration, at any position, has a first pointer of an unregistered type |
| Resolution.ChainStopsAtFourthItem | src/models/json-api.model.ts:127-129 | item 1 of the chain 1→2→3→4→5 resolved at level 0: items 2 and 3 get `next` resolved, and item 4 is attached with no relationships |
| Models.AttrProps | src/models/json-api.model.ts:18 | `_.extend(this, attributes)` gives one property per attribute holding its value |
| Models.RollbackSettles | src/models/json-api.model.ts:56-74 | after a rollback nothing is dirty, the keys are kept, a second rollback changes nothing, and each entry is reset to its old value |
| Models.RollbackStep | src/models/json-api.model.ts:60-71 | one round of rollbackAttributes' loop restores and cleans the visited key exactly when it is dirty, and leaves it alone otherwise |
| Models.HoldsCompose | src/models/json-api.model.ts:29-34 | the has-many pass followed by the belongs-to pass assigns both, and the later pass wins on a shared property |
| Models.BelongsToOver | src/models/json-api.model.ts:97-119 | parseBelongsTo's assignments are laid over whatever was assigned before |
| Models.JsonApiModel.constructor | src/models/json-api.model.ts:15-23 | copies id, attributes and truthy links from the data; falsy data leaves the instance empty |
| Models.JsonApiModel.HasDirtyAttributes | src/models/json-api.model.ts:41-54 | true if and only if some metadata entry is dirty |
| Models.JsonApiModel.RollbackAttributes | src/models/json-api.model.ts:56-74 | each dirty attribute gets its old value back and its entry is marked clean; nothing is dirty afterwards |
| Models.JsonApiModel.SyncRelationships | src/models/json-api.model.ts:29-34 | the properties become the old ones with Sync's assignments over them, each mirrored by new objects; the error is Sync's |
| Models.JsonApiModel.ParseHasMany | src/models/json-api.model.ts:76-95 | the loop assigns exactly what HasMany specifies and fails as it does |
| Models.JsonApiModel.ParseBelongsTo | src/models/json-api.model.ts:97-119 | the loop assigns exactly what BelongsTo specifies and fails as it does |
| Models.JsonApiModel.GetHasManyRelationship | src/models/json-api.model.ts:121-134 | the new objects mirror HasManyList's nodes, in order, each with its resource's id, attributes and truthy links |
| Models.JsonApiModel.GetBelongsToRelationship | src/models/json-api.model.ts:137-149 | null when nothing matches; otherwise a new object mirroring BelongsToTarget's node |
| Models.JsonApiModel.ResolveChild | src/models/json-api.model.ts:126-130 | the body shared by both resolvers: a new object built from the matched resource (its id, attributes and truthy links), resolved one level deeper while `level <= 1`, mirroring Child's node, or Child's error |
| Models.JsonApiModel.CreateOrPeek | src/models/json-api.model.ts:151-154 | always a fresh instance built from the data: its id, its attributes, its truthy links and clean metadata; the store is not consulted |
| Collection.CollectionModel.constructor | src/models/collection.model.ts:9-12 | links and meta come from the body; no data yet |
| Collection.CollectionModel.Length | src/models/collection.model.ts:14-16 | 0 without data, otherwise the number of models |
| Collection.CollectionModel.SetData | src/models/collection.model.ts:26-28 | stores the models; the length is their number |
| Collection.CollectionModel.SetMeta | src/models/collection.model.ts:30-32 | replaces meta |
| Collection.CollectionLifecycle | src/models/collection.model.ts:9-36 | after construction and `data =`, the collection has those models, that length, and the body's meta and links |
| BelongsToDecorator.Entry | src/decorators/belongs-to.decorator.ts:4-8 | the declaration names the property; the relationship is the key when given, else the property name; the link is given or null |
| BelongsToDecorator.BelongsTo | src/decorators/belongs-to.decorator.ts:1-11 | appends the declaration to the list, which starts empty when undefined |
| BelongsToDecorator.DecorateTwo | src/decorators/belongs-to.decorator.ts:3-9 | two decorations leave their declarations in decoration order |
| BelongsToDecorator.DefaultConfig | src/decorators/belongs-to.decorator.ts:1-7 | with `{}`, or with empty key and link, the relationship is the property name and the link is null |
| Datastore.KeyedByContents | src/services/json-api-datastore.service.ts:284 | `_.keyBy`: every key present, no other, and the last model under each key |
| Datastore.FromArrayToHashContents | src/services/json-api-datastore.service.ts:282-285 | the hash has a key `String(id)` for every model and no other; under each key is the last model with that key |
| Datastore.HashSnoc | src/services/json-api-datastore.service.ts:282-285 | a model added to the batch is keyed over the earlier ones |
| Datastore.HashOfResources | src/services/json-api-datastore.service.ts:282-285 | models carrying the resources' ids are hashed under the resources' `String(id)` keys |
| Datastore.StoreSnoc | src/services/json-api-datastore.service.ts:219-227 | storing models one at a time is storing the batch |
| Datastore.SaveAfterRollback | src/services/json-api-datastore.service.ts:77 | after a rollback, a save sends each restored attribute's old value and the other attributes unchanged |
| Datastore.GetRelationships | src/services/json-api-datastore.service.ts:246-262 | a `{type, id}` pointer for exactly the own properties that hold a single model |
| Datastore.ResetMetadataAttributes | src/services/json-api-datastore.service.ts:288-301 | every metadata entry is marked clean and the values are kept |
| Datastore.CleanedSettles | src/services/json-api-datastore.service.ts:288-301 | after a reset nothing is dirty, keys and values are kept, and a rollback changes nothing |
| Datastore.InverseDecl | src/services/json-api-datastore.service.ts:235-237 | the first has-many declaration of the related class whose type maps back to the saved model's class; `None` exactly when there is none |
| Datastore.PushedStable | src/services/json-api-datastore.service.ts:238-240 | zero pushes change nothing, pushing keeps the same target, and pushes add up |
| Datastore.CountStep | src/services/json-api-datastore.service.ts:231-233 | each further relationship key holding the related model counts once more |
| Datastore.JsonApiDatastore.constructor | src/services/json-api-datastore.service.ts:24-27 | the store starts empty |
| Datastore.JsonApiDatastore.AddToStore | src/services/json-api-datastore.service.ts:219-227 | the batch's hash is merged into the bucket of the first model's type, and the bucket is created when missing; an empty batch fails and changes nothing |
| Datastore.JsonApiDatastore.PeekRecord | src/services/json-api-datastore.service.ts:107-110 | null exactly when the type has no bucket; the model exactly when the id is in the bucket; undefined otherwise |
| Datastore.JsonApiDatastore.PeekAfterAdd | src/services/json-api-datastore.service.ts:107-110 | after addToStore of a batch, peekRecord finds under each key the batch's last model with that key; other types peek as before; an id the batch does not carry peeks as before, or undefined when the bucket was new |
| Datastore.JsonApiDatastore.PeekAll | src/services/json-api-datastore.service.ts:112-115 | every model of the bucket exactly once (one per key); empty with no bucket |
| Datastore.JsonApiDatastore.SaveRecord | src/services/json-api-datastore.service.ts:67-92 | type name, buildUrl URL, PATCH if and only if the id is truthy, each attribute's serialisation value when truthy else its new value, and the single-model relationships |
| Datastore.JsonApiDatastore.ExtractRecordData | src/services/json-api-datastore.service.ts:178-199 | the given model updated (its metadata and links untouched), or a new one built with the data's links; it is stored under its type and key and resolved at level 0 with `included`; then the store is exactly that entry followed by each included resource's fresh model, in order, under its class's bucket and key; a TypeError for missing data with a model, leaving everything unchanged; when resolution fails, Sync's error, with the properties holding Sync's assignments so far and the store holding the first entry; when an included type is unregistered, a TypeError with the store holding the first entry and the models of the included resources before it |
| Datastore.JsonApiDatastore.Primary | src/services/json-api-datastore.service.ts:182-186 | the given model takes the data's id and attributes and keeps its metadata and links; otherwise a new model is built from the data, with its truthy links |
| Datastore.JsonApiDatastore.Settle | src/services/json-api-datastore.service.ts:187-195 | store, then with `included` resolve, store again, and extract each included resource; the properties always hold Sync's assignments; on success the store is the model's entry followed by the included resources' fresh models in order; if Sync fails the store holds just the first entry; if an included type is unregistered it holds that entry and the models of the included resources before it |
| Datastore.JsonApiDatastore.StoreIncluded | src/services/json-api-datastore.service.ts:191-194 | succeeds if and only if every included type is registered; the store only grows; on success it is the old store with one fresh model per included resource (its id, its attributes, its truthy links, empty metadata and no relationships) put in order under its class's bucket and `String(id)`; on failure it stops at the first unregistered resource, with exactly the models of the resources before it put |
| Datastore.JsonApiDatastore.StoreOneIncluded | src/services/json-api-datastore.service.ts:191-194 | one round of the loop: the resource's fresh model is put over the store built so far |
| Datastore.JsonApiDatastore.IncludedStored | src/services/json-api-datastore.service.ts:191-194 | after the loop every included resource has an entry under its class's bucket and key |
| Datastore.PutAllGrows | src/services/json-api-datastore.service.ts:191-194 | putting models in order only adds or replaces entries |
| Datastore.PutAllPresent | src/services/json-api-datastore.service.ts:191-194 | every bucket and key written is present afterwards |
| Datastore.PutAllLast | src/services/json-api-datastore.service.ts:191-194 | under each bucket and key is the model of the last write to it, so the last included resource with that class and key wins |
| Datastore.PutAllUntouched | src/services/json-api-datastore.service.ts:191-194 | an entry no write names keeps its old model |
| Datastore.PutAllOnly | src/services/json-api-datastore.service.ts:191-194 | an entry afterwards is either an old one or one some write names |
| Datastore.JsonApiDatastore.ExtractQueryData | src/services/json-api-datastore.service.ts:161-176 | a TypeError, with nothing stored, unless the data is an array; otherwise one distinct new model per resource, in order, with its id, truthy links, attributes and level-0 relationships; exactly those models are merged into the type's bucket; a failure is the Sync error of the first resource whose relationships do not resolve |
| Datastore.JsonApiDatastore.ExtractAll | src/services/json-api-datastore.service.ts:165-173 | the loop, failing if and only if some resource's relationships do not resolve; on failure it stops at the first such resource with its Sync error; otherwise it gives the extracted models and the stored batch |
| Datastore.JsonApiDatastore.ExtractOne | src/services/json-api-datastore.service.ts:166-171 | one new model with the resource's id, attributes and truthy links, stored under its key, resolved and stored again when there is `included` |
| Datastore.JsonApiDatastore.ExtractStep | src/services/json-api-datastore.service.ts:165-172 | one round of the loop extends the extracted models and the store by one |
| Datastore.JsonApiDatastore.ResolveStored | src/services/json-api-datastore.service.ts:168-171 | with `included`, the stored model is resolved at level 0 and stored again under the same key, so the store ends as it began |
| Datastore.JsonApiDatastore.StoredExtracted | src/services/json-api-datastore.service.ts:165-174 | the models the loop stored one by one are exactly `fromArrayToHash` of the extracted models merged into the bucket |
| Datastore.JsonApiDatastore.PushInverse | src/services/json-api-datastore.service.ts:233-240 | pushes the saved model onto the inverse has-many list when it is truthy; fails where `push` or the metadata lookup throws, leaving the properties unchanged |
| Datastore.JsonApiDatastore.UpdateOne | src/services/json-api-datastore.service.ts:231-241 | one key of the loop: a key not holding a single model changes nothing; otherwise the related model's inverse list gains the saved model, or the key fails as the source throws and nothing changes |
| Datastore.JsonApiDatastore.UpdateRelationships | src/services/json-api-datastore.service.ts:229-244 | fails if and only if some relationship key throws; otherwise each related model's inverse list gains the saved model once per key that holds it; on failure the throwing key is one that fails, every key visited before it does not, and each related model has exactly the pushes of those earlier keys |

## Left out

The model leaves these out of scope. Each one-line reason follows.

**Outside the model:**

- HTTP, observables, headers, `getOptions`, `handleError`, `setBaseUrl`, `query`, `findRecord`, `createRecord`, `deleteRecord`, `hasManyLink` and `belongsToLink`. These are I/O around the modelled core: a response body is an input, and a save request is an output value.
- `LinksModel`, `DocumentModel`, `ErrorResponse` and the `Attribute` decorator are not part of this model. A collection's or model's `links` is the stored `links` value, and extractRecordData returns the model that would become `document.data`.
- The `JsonApiModelConfig` and `JsonApiDatastoreConfig` decorators are not part of this model. The model class and the registry are given as values. The datastore calls `new modelType(this, data)`, while the model's createOrPeek calls `new modelType(data)`, and the constructor at src/models/json-api.model.ts:15-23 is `constructor(data?)`, which never assigns `_datastore`. Taken as written, the two call sites cannot both bind their arguments correctly: under that constructor the datastore's call would pass the service as `data`. The model builds the instance from `data` at both sites, assuming the wrapper those decorators install reconciles the two.
- `encodeURIComponent` is a parameter. Beyond never emitting `&`, its output is not modelled.
- JSON numbers are modelled as integers. Floating-point values are not modelled.
- The Attribute decorator's property setters are not part of this model. So `_.extend` in the constructor and in extractRecordData, and rollbackAttributes' write of each old value, are plain property writes. They leave `metadata` untouched; only rollbackAttributes' own explicit metadata update changes it.
- Metadata inherited through the prototype chain is not modelled. So are property names that are symbols, an own property named `id` among the attributes, and attributes set by hand after construction.

**Behaviour not captured:**

- saveRecord's `.map` chain is not modelled. As written, it hands the `DocumentModel` rather than the model to resetMetadataAttributes and updateRelationships. The model states those two operations on a model.
- Pushing the saved model onto a relationship property that is a plain JSON array is not modelled. PushInverse leaves such a property unchanged.
- The save body follows `src/`. The `dist/` build puts `id: model.id` into the save body (dist/services/json-api-datastore.service.js:158), while src/services/json-api-datastore.service.ts:67-92 leaves it out. `Datastore.SaveRequest` carries no id, as in `src/`.
- extractQueryData builds its collection before its loop, and the model builds it after. The constructor only reads the body, so nothing observable differs.
- peekRecord takes a string id. Ids are compared as `String(id)`, and a model without an id is keyed as "undefined".
- addToStore takes a sequence of models. A single model is given as a one-element sequence, as fromArrayToHash wraps it.

**Weaker contracts:**

- Datastore.JsonApiDatastore.PeekAll: does not fix the order of the models, because `_.values` follows the key enumeration order of a JavaScript object.
- Datastore.JsonApiDatastore.UpdateRelationships: says nothing when the saved model is among its own related models, because pushing onto its own lists then aliases the properties being walked. On failure it states the pushes made for the keys visited before the throwing key, but not which keys those are, because the for-in visiting order is not modelled.
- Datastore.JsonApiDatastore.ExtractQueryData: on a resolution error it states which resource failed and the error, but not the partial store, because the failing resource's model is stored and then dropped with the thrown error.

Four points about the code are worth stating:

- The resolvers recurse while `level <= 1` (src/models/json-api.model.ts:127 and 142). A model resolved at level 0 therefore has its related models and their related models resolved, and only the fourth level is attached without relationships, as `Resolution.ChainStopsAtFourthItem` shows.
- createOrPeek (src/models/json-api.model.ts:151-154) always builds a new instance.
- addToStore (src/services/json-api-datastore.service.ts:219-227) replaces entries key by key.
- A body with missing `data` fails with the TypeError JavaScript raises on the property read.
