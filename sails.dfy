/** The parts of a Sails application and of a request that the hook reads
    or writes. */
module Sails {
  import opened Wrappers
  import opened Json

  /** One entry of a Waterline attribute table (`Model.definition` or
      `Model._attributes`). `primaryKey` is the truthiness of the entry's
      `primaryKey` property; `alias` is its `alias` property, present on
      the attribute that backs an association. */
  datatype AttrDef = AttrDef(primaryKey: bool, alias: Option<string>)

  /** An attribute table: attribute names with their definitions, in the
      order `Object.keys` enumerates them. */
  type Table = seq<(string, AttrDef)>

  /** A Waterline model as the hook reads it. */
  datatype Model = Model(definition: Table, attributes: Table)

  /** One entry of `req.options.associations`; the hook only ever reads its
      `alias`, the name of the relationship field on a record. */
  datatype Association = Association(alias: string)

  /** The route options Sails' blueprints attach to a request. An absent
      `associations` array is the empty one: searching it finds nothing. */
  datatype RouteOptions = RouteOptions(model: Option<string>, associations: seq<Association>)

  /** `sails.config.jsonapi`: the two settings the serializer forwards. */
  datatype JsonApiConfig = JsonApiConfig(keyForAttribute: Option<Value>, pluralizeType: Option<Value>)

  /** `req._sails`: the model registry and the hook's configuration. */
  datatype SailsApp = SailsApp(models: map<string, Model>, jsonapi: JsonApiConfig)

  /** The truthiness test `!!def.alias`: present and not the empty string. */
  predicate HasAlias(def: AttrDef) {
    def.alias.Some? && def.alias.value != ""
  }

  /** An in-flight request. Only its query table is changed, in place. */
  class Request {
    var query: map<string, Value>
    const options: RouteOptions
    const sails: SailsApp

    constructor (query: map<string, Value>, options: RouteOptions, sails: SailsApp)
      ensures this.query == query && this.options == options && this.sails == sails
    {
      this.query := query;
      this.options := options;
      this.sails := sails;
    }
  }
}
