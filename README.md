# sails-hook-jsonapi: a Dafny model of the hook's own data transformations

sails-hook-jsonapi makes a Sails application speak JSON:API. Most of the
document work happens inside the `jsonapi-serializer` library. This model
covers the transformations the hook does itself:

- **Query-parameter normalisation** (`QueryParams`, lib/requests/query-params.js).
  The request's query table is rewritten in place. `filter` is renamed to
  `where`. A comma-separated `sort` string becomes a Waterline sort object
  that maps each field to 1 (ascending) or 0 (descending). `Request` is a
  class whose `query` map the methods change. Their `ensures` tie the new
  query to the functions `NormalizedFilter` and `NormalizedSort`, and the
  lemmas about those functions state what the rewrite means.
  The sort object is an ordered list of (name, direction) pairs. Assigning
  to a key that already exists overwrites the value and keeps its position
  (`Json.Put`).
- **Schema helpers** (`ModelUtils`, lib/utils/model-utils.js). These pick
  attribute names out of a Waterline model's attribute table: its own
  attributes, its primary keys, and its non-key attributes. A Waterline
  model is a value (`Sails.Model`), so none of these helpers can change it.
- **The OK response's attribute list** (`OkResponse`, lib/responses/ok.js).
  Each record is copied without `id` and without any association alias.
  The list of attribute names is then taken from the first copy.
- **The serializer front-end** (`Serializer`, lib/serializer.js). It looks
  up the model, builds the serializer options, and falls back to `{}` when
  anything fails.

JavaScript values are the datatype `Json.Value`. An object is an ordered
list of properties, because `Object.keys` order decides the order of
attribute names. A thrown exception is an `Option` that is `None`, or an
`ok` flag that is false. The JSON:API serializer and the
`JSON.parse(JSON.stringify(·))` copy are foreign code. They are function
parameters of `Serializer.Serialize`.

Points where the code's behaviour is easy to misread:
- JSON:API 1.0 ("Fetching Data", section "Sorting") applies sort fields in
  the order given. In the code, a field named twice keeps the position of
  its first occurrence and the direction of its last (`a,-a` gives
  `{a: 0}`).
- An empty segment becomes the empty field name (`a,,b`).
- A `sort` value that is not a string (for example, a repeated query
  parameter) makes `.split` throw. By then `filter` has already been moved.
- `_.omit(object, predicate)` is taken to call the predicate on each
  property and drop those it accepts. That is lodash 3's `_.omit`; lodash 4
  takes property paths instead, and there a function argument omits
  nothing. The bare `_.bindAll(module)` in lib/utils/module-utils.js:13 is
  also lodash 3 usage.
- The serializer's attribute loop (lib/serializer.js:18-23) repeats
  `getOwnAttributes`. The model defines it once, and `Serialize` calls
  `GetOwnAttributes`.

## Model

| member | source | states |
|---|---|---|
| Json.PutLookup | lib/requests/query-params.js:35 | after a property assignment the key reads as the new value and every other key reads as before |
| Json.PutKeys | lib/requests/query-params.js:35 | assigning to an existing key keeps the key list as it was; a new key is appended; keys stay distinct |
| Json.PutValues | lib/requests/query-params.js:35 | after an assignment every value is the assigned one or was already there |
| Json.PutNewKey | lib/requests/query-params.js:35 | assigning a key the object does not have appends the property at the end |
| QueryParams.Split | lib/requests/query-params.js:30-31 | `split(',')` gives one more segment than there are commas, and no segment contains a comma |
| QueryParams.JoinSplit | lib/requests/query-params.js:30-31 | joining the segments with commas gives back the sort string |
| QueryParams.SplitJoin | lib/requests/query-params.js:30-31 | splitting comma-free segments joined by commas gives back those segments |
| QueryParams.SplitWordPrefix | lib/requests/query-params.js:30-31 | a comma-free prefix only lengthens the first segment |
| QueryParams.SortEntry | lib/requests/query-params.js:34-35 | the direction is 0 exactly when the field starts with `-`, and 1 otherwise; the name is the field without that `-`, or the field itself |
| QueryParams.SortMapShape | lib/requests/query-params.js:32-36 | the sort object has distinct keys, no more keys than fields, and only the values 0 and 1 |
| QueryParams.SortMapOrder | lib/requests/query-params.js:32-36 | the sort object's keys are the field names in the order they first appear, later repeats dropped |
| QueryParams.FirstOccurrencesDistinct | lib/requests/query-params.js:32-36 | names without repeats are kept as they are |
| QueryParams.SortMapOrderDistinct | lib/requests/query-params.js:32-36 | with distinct names the sort object's keys follow the fields' order, so the first field is the primary sort key |
| QueryParams.SortMapKeys | lib/requests/query-params.js:33-35 | a name is a key of the sort object exactly when some field yields it |
| QueryParams.SortMapLastWins | lib/requests/query-params.js:35 | a name's direction is that of its last occurrence |
| QueryParams.SortExampleTwoFields | lib/requests/query-params.js:26-38 | `lastName,-firstName` gives `{lastName: 1, firstName: 0}` in that order |
| QueryParams.SortMapTwoFields | lib/requests/query-params.js:33-36 | the fields `lastName`, `-firstName` give `{lastName: 1, firstName: 0}` in that order |
| QueryParams.SortExampleJsonApi | lib/requests/query-params.js:26-38 | JSON:API's own example `-created,title` gives `{created: 0, title: 1}` in that order |
| QueryParams.SortMapJsonApi | lib/requests/query-params.js:33-36 | the fields `-created`, `title` give `{created: 0, title: 1}` in that order |
| QueryParams.SortExampleRepeated | lib/requests/query-params.js:35 | `a,-a` gives `{a: 0}` |
| QueryParams.SortExampleHyphens | lib/requests/query-params.js:34 | `--a` gives `{'-a': 0}` and `-` gives `{'': 0}` |
| QueryParams.SortExampleEmptySegment | lib/requests/query-params.js:33-35 | `a,,b` gives `{a: 1, '': 1, b: 1}` |
| QueryParams.SortMapEmptySegment | lib/requests/query-params.js:33-36 | the fields `a`, ``, `b` give `{a: 1, '': 1, b: 1}` |
| QueryParams.NormalizedFilter | lib/requests/query-params.js:9-14 | with `filter` present, `where` holds its former value and `filter` is gone; without it the query is unchanged; other keys are never touched |
| QueryParams.NormalizedSort | lib/requests/query-params.js:26-38 | without `sort` the query is unchanged; a non-string `sort` throws; otherwise `sort` holds the sort object of its segments and no other key changes |
| QueryParams.NormalizationsIndependent | lib/requests/query-params.js:40-43 | the two rewrites commute, and every key other than `filter`, `where` and `sort` keeps its value |
| QueryParams.NormalizeFilter | lib/requests/query-params.js:9-14 | the request's query becomes `NormalizedFilter` of the old query |
| QueryParams.NormalizeSort | lib/requests/query-params.js:26-38 | the loop builds the sort object field by field; the query becomes `NormalizedSort` of the old one, and `ok` is false exactly when it throws |
| QueryParams.NormalizeQuery | lib/requests/query-params.js:40-43 | filter first, then sort; on a throw the query keeps the filter rewrite |
| ModelUtils.KeysWhereMembers | lib/utils/model-utils.js:6-10 | a name is picked exactly when a table entry of that name passes the test |
| ModelUtils.KeysWhereOrder | lib/utils/model-utils.js:6-10 | the picked names keep the table's order |
| ModelUtils.KeysWhereDistinct | lib/utils/model-utils.js:6-10 | a table with distinct keys yields no name twice |
| ModelUtils.KeysWhereEmpty | lib/utils/model-utils.js:14-21 | nothing is picked exactly when no entry passes the test |
| ModelUtils.OwnAttributes | lib/utils/model-utils.js:3-12 | exactly the definition keys that are neither the primary key nor an alias, in definition order, with no duplicates |
| ModelUtils.GetOwnAttributes | lib/utils/model-utils.js:4-12 | the loop returns `OwnAttributes` of `Model.definition` |
| ModelUtils.GetRef | lib/utils/model-utils.js:14-21 | the callback receives every primary-key name once, in definition order, and is never called when there is no primary key |
| ModelUtils.GetAttributes | lib/utils/model-utils.js:23-32 | the `_attributes` names that are not the primary key, in order; alias entries are kept |
| ModelUtils.OwnAttributesWithinAttributes | lib/utils/model-utils.js:4-32 | on the same attribute table, the own attributes are a subsequence of the non-key attributes (the source applies the two filters to `definition` and `_attributes`) |
| ModelUtils.GetModelName | lib/utils/model-utils.js:34-37 | returns the route's model binding as it is |
| ModelUtils.GetRelationships | lib/utils/model-utils.js:39-42 | returns the route's associations as they are |
| OkResponse.OmitKeys | lib/responses/ok.js:18-24 | the copy's keys are exactly the record's keys other than `id` and the association aliases |
| OkResponse.OmitLookup | lib/responses/ok.js:18-24 | every key that is not omitted reads the same value in the copy as in the record |
| OkResponse.OmitOrder | lib/responses/ok.js:18-24 | the copy's properties, and their keys, are in the record's order |
| OkResponse.OmitDistinct | lib/responses/ok.js:18-24 | a record with distinct keys gives a copy with distinct keys |
| OkResponse.Stripped | lib/responses/ok.js:16-25 | one stripped copy per record, in the same order |
| OkResponse.StripRelationships | lib/responses/ok.js:16-25 | the loop returns `Stripped` of the records and the route's associations |
| OkResponse.StrippedOmits | lib/responses/ok.js:16-25 | no stripped record has `id` or an association alias among its keys; every other key reads the same value as in the original record |
| OkResponse.OmitWithoutAssociations | lib/responses/ok.js:18-24 | with no associations, only `id` is removed |
| OkResponse.OkAttributes | lib/responses/ok.js:52-55 | the attribute list is `[]` for no records; otherwise it is the first record's keys in order, without `id` or any association alias |
| OkResponse.GetAttributesFirstRecordOnly | lib/responses/ok.js:28-34 | `getAttributes` of no records is `[]`, and records after the first do not change its result |
| OkResponse.OkAttributesFirstRecordOnly | lib/responses/ok.js:52-55 | records after the first do not change the attribute list passed to the serializer |
| Serializer.Serialize | lib/serializer.js:5-37 | a missing model gives `{}` and builds no serializer; otherwise the options hold the own attributes and the forwarded `keyForAttribute` and `pluralizeType`; the result is the serializer's output on a copy of `data`, or `{}` when the copy or the serialization throws |

## Left out

- lib/hook.js binds the response functions onto `res`. This is Sails routing glue.
- lib/utils/module-utils.js loads response modules from a directory. This is framework I/O.
- lib/requests/payload.js wraps the library's deserializer and `pluralize`. Both are foreign code.
- lib/utils/norm-utils.js is only a JSON copy. The copy is a parameter of `Serializer.Serialize`.
- The `jsonapi-serializer` library is a parameter, not modelled. This covers resource linkage, `included` deduplication, key casing and type pluralisation.
- `sendOK` sets the status, sends JSON, logs, and calls `pluralize` on the model name. These are I/O and foreign code. Only its attribute list (`OkResponse.OkAttributes`) is modelled.
- `res.ok()` with no `data` is not a separate case. `_.transform(undefined, …, [])` gives `[]`, so it behaves like an empty collection, and `OkResponse.OkAttributes([], assocs)` is `[]`.
- `sendOK` with a single record object instead of an array is not modelled. For that input lodash iterates the object's property values.
- OkResponse.Omit only sees a record's own properties. Lodash's `_.omit` also copies inherited enumerable properties.
- Serializer.Serialize looks models up in a map with no inherited names. In JavaScript, a model name such as `constructor` or `toString` finds an `Object.prototype` property. The check at lib/serializer.js:6-9 then passes, and `Object.keys(sailsModel.definition)` at lib/serializer.js:19 throws outside any `try`. The model returns `{}` instead.
- The sort field `__proto__` is stored as an ordinary key of the sort object. In JavaScript, assigning it sets the object's prototype instead.
- Object key order follows insertion. JavaScript lists integer-like keys first.
- Logging (`console.error`, `sails.log`) is left out.
- The `new JSONAPISerializer(...)` constructor call sits outside the `try` block. It is taken never to throw.
- `primaryKey` is modelled as its truthiness, a `bool`. `alias` is truthy when present and non-empty.
- A query value is never `undefined`, so `!== undefined` is modelled as key presence.
- ModelUtils.GetModelName and ModelUtils.GetRelationships are plain field reads. Their contract is the field itself.
- QueryParams.NormalizeSort builds the sort object in a local variable and stores it once. The code stores an empty object first and fills it in place. Nothing reads the query in between, so the end state is the same.
