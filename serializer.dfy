/** The serializer front-end: looks the model up, builds the serializer's
    options and turns any failure into an empty document. The JSON:API
    serializer itself and the JSON copy are not part of this model; they
    are parameters, `None` standing for a thrown exception. */
module Serializer {
  import opened Wrappers
  import opened Json
  import opened Sails
  import opened ModelUtils

  /** The options object given to `new JSONAPISerializer(modelName, …)`. */
  datatype SerializerOptions = SerializerOptions(
    attributes: seq<string>,
    keyForAttribute: Option<Value>,
    pluralizeType: Option<Value>)

  /** The exported function. `built` is the options of the serializer it
      constructs, `None` when it constructs none. `deepCopy` is
      `JSON.parse(JSON.stringify(·))`; `serialize` is the constructed
      serializer's `serialize` for the given type name and options. */
  method Serialize(req: Request, modelName: string, data: Value,
                   deepCopy: Value -> Option<Value>,
                   serialize: (string, SerializerOptions, Value) -> Option<Value>)
    returns (doc: Value, built: Option<SerializerOptions>)
    ensures modelName !in req.sails.models ==> doc == Empty && built == None
    ensures modelName in req.sails.models ==>
      built == Some(SerializerOptions(
        OwnAttributes(req.sails.models[modelName].definition),
        req.sails.jsonapi.keyForAttribute,
        req.sails.jsonapi.pluralizeType))
    ensures built.Some? ==>
      || (deepCopy(data).Some? && serialize(modelName, built.value, deepCopy(data).value) == Some(doc))
      || (doc == Empty && (deepCopy(data).None? || serialize(modelName, built.value, deepCopy(data).value).None?))
  {
    if modelName !in req.sails.models {
      return Empty, None;
    }
    var sailsModel := req.sails.models[modelName];
    var attributes := GetOwnAttributes(sailsModel);
    var options := SerializerOptions(attributes, req.sails.jsonapi.keyForAttribute, req.sails.jsonapi.pluralizeType);
    built := Some(options);
    var copy := deepCopy(data);
    if copy.None? {
      return Empty, built;
    }
    var result := serialize(modelName, options, copy.value);
    if result.None? {
      return Empty, built;
    }
    doc := result.value;
  }
}
