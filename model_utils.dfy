/** Schema helpers: which attribute names of a Waterline model the hook
    exposes, and the two request accessors. */
module ModelUtils {
  import opened Wrappers
  import opened Json
  import opened Sails

  /** The names of the table entries whose definition passes `keep`, in
      table order: the `forEach` loops that push into an accumulator. */
  function KeysWhere(t: Table, keep: AttrDef -> bool): seq<string> {
    if |t| == 0 then []
    else
      var n := |t| - 1;
      KeysWhere(t[..n], keep) + (if keep(t[n].1) then [t[n].0] else [])
  }

  /** A name is selected exactly when some entry of that name passes. */
  lemma {:induction false} KeysWhereMembers(t: Table, keep: AttrDef -> bool)
    ensures forall k :: k in KeysWhere(t, keep) <==> exists i :: 0 <= i < |t| && t[i].0 == k && keep(t[i].1)
  {
    if |t| > 0 {
      var n := |t| - 1;
      KeysWhereMembers(t[..n], keep);
      assert forall i :: 0 <= i < n ==> t[..n][i] == t[i];
    }
  }

  /** The selected names keep the table's order. */
  lemma {:induction false} KeysWhereOrder(t: Table, keep: AttrDef -> bool)
    ensures IsSubsequence(KeysWhere(t, keep), Keys(t))
  {
    if |t| > 0 {
      var n := |t| - 1;
      KeysWhereOrder(t[..n], keep);
      var init, ks := KeysWhere(t[..n], keep), KeysWhere(t, keep);
      assert Keys(t)[..n] == Keys(t[..n]);
      if keep(t[n].1) {
        assert ks[..|ks| - 1] == init;
      } else {
        assert ks == init;
      }
    }
  }

  /** A table without repeated names gives a selection without repeats. */
  lemma {:induction false} KeysWhereDistinct(t: Table, keep: AttrDef -> bool)
    ensures DistinctKeys(t) ==> NoDuplicates(KeysWhere(t, keep))
  {
    if |t| > 0 && DistinctKeys(t) {
      var n := |t| - 1;
      assert Keys(t)[..n] == Keys(t[..n]);
      KeysWhereDistinct(t[..n], keep);
      var init := KeysWhere(t[..n], keep);
      if keep(t[n].1) {
        KeysWhereMembers(t[..n], keep);
        forall i | 0 <= i < n ensures t[..n][i].0 != t[n].0 {
          assert Keys(t)[i] == t[i].0 && Keys(t)[n] == t[n].0;
        }
        assert t[n].0 !in init;
      }
    }
  }

  /** Nothing is selected exactly when no entry passes. */
  lemma {:induction false} KeysWhereEmpty(t: Table, keep: AttrDef -> bool)
    ensures KeysWhere(t, keep) == [] <==> forall i :: 0 <= i < |t| ==> !keep(t[i].1)
  {
    if |t| > 0 {
      var n := |t| - 1;
      KeysWhereEmpty(t[..n], keep);
      assert forall i :: 0 <= i < n ==> t[..n][i] == t[i];
    }
  }

  predicate IsPrimaryKey(def: AttrDef) {
    def.primaryKey
  }

  predicate IsNotPrimaryKey(def: AttrDef) {
    !def.primaryKey
  }

  /** An attribute of the model itself: neither its primary key nor the
      foreign key behind an association. */
  predicate IsOwnAttribute(def: AttrDef) {
    !def.primaryKey && !HasAlias(def)
  }

  /** The own attributes of an attribute table. */
  function OwnAttributes(t: Table): (own: seq<string>)
    ensures forall k :: k in own <==>
      exists i :: 0 <= i < |t| && t[i].0 == k && !t[i].1.primaryKey && !HasAlias(t[i].1)
    ensures IsSubsequence(own, Keys(t))
    ensures DistinctKeys(t) ==> NoDuplicates(own)
  {
    KeysWhereMembers(t, IsOwnAttribute);
    KeysWhereOrder(t, IsOwnAttribute);
    KeysWhereDistinct(t, IsOwnAttribute);
    KeysWhere(t, IsOwnAttribute)
  }

  /** `getOwnAttributes`: the names in `Model.definition` that are neither
      the primary key nor an association alias, in definition order. */
  method GetOwnAttributes(model: Model) returns (ownAttrs: seq<string>)
    ensures ownAttrs == OwnAttributes(model.definition)
  {
    var t := model.definition;
    ownAttrs := [];
    var i := 0;
    while i < |t|
      invariant 0 <= i <= |t|
      invariant ownAttrs == KeysWhere(t[..i], IsOwnAttribute)
    {
      assert t[..i + 1][..i] == t[..i];
      if !t[i].1.primaryKey && !HasAlias(t[i].1) {
        ownAttrs := ownAttrs + [t[i].0];
      }
      i := i + 1;
    }
    assert t[..i] == t;
  }

  /** `getRef`: the callback is invoked once per primary-key entry of
      `Model.definition`, in definition order (returning from the
      `forEach` callback does not end the loop). The result is the
      sequence of keys the callback receives. */
  method GetRef(model: Model) returns (calls: seq<string>)
    ensures calls == KeysWhere(model.definition, IsPrimaryKey)
    ensures calls == [] <==> forall i :: 0 <= i < |model.definition| ==> !model.definition[i].1.primaryKey
  {
    var t := model.definition;
    calls := [];
    var i := 0;
    while i < |t|
      invariant 0 <= i <= |t|
      invariant calls == KeysWhere(t[..i], IsPrimaryKey)
    {
      assert t[..i + 1][..i] == t[..i];
      if t[i].1.primaryKey {
        calls := calls + [t[i].0];
      }
      i := i + 1;
    }
    assert t[..i] == t;
    KeysWhereEmpty(t, IsPrimaryKey);
  }

  /** `getAttributes`: the names in `Model._attributes` minus the primary
      key; association aliases are kept. */
  method GetAttributes(model: Model) returns (attrs: seq<string>)
    ensures attrs == KeysWhere(model.attributes, IsNotPrimaryKey)
    ensures forall k :: k in attrs <==>
      exists i :: 0 <= i < |model.attributes| && model.attributes[i].0 == k && !model.attributes[i].1.primaryKey
  {
    var t := model.attributes;
    attrs := [];
    var i := 0;
    while i < |t|
      invariant 0 <= i <= |t|
      invariant attrs == KeysWhere(t[..i], IsNotPrimaryKey)
    {
      assert t[..i + 1][..i] == t[..i];
      if !t[i].1.primaryKey {
        attrs := attrs + [t[i].0];
      }
      i := i + 1;
    }
    assert t[..i] == t;
    KeysWhereMembers(t, IsNotPrimaryKey);
  }

  /** On the same attribute table, the own attributes are its non-key
      attributes with the association aliases left out, in the same order.
      (`getOwnAttributes` reads `definition` and `getAttributes` reads
      `_attributes`, two different tables of a model.) */
  lemma {:induction false} OwnAttributesWithinAttributes(t: Table)
    ensures IsSubsequence(OwnAttributes(t), KeysWhere(t, IsNotPrimaryKey))
  {
    if |t| > 0 {
      var n := |t| - 1;
      OwnAttributesWithinAttributes(t[..n]);
      var own, attrs := KeysWhere(t[..n], IsOwnAttribute), KeysWhere(t[..n], IsNotPrimaryKey);
      var own', attrs' := KeysWhere(t, IsOwnAttribute), KeysWhere(t, IsNotPrimaryKey);
      if IsOwnAttribute(t[n].1) {
        assert own'[..|own'| - 1] == own && attrs'[..|attrs'| - 1] == attrs;
      } else if IsNotPrimaryKey(t[n].1) {
        assert own' == own && attrs'[..|attrs'| - 1] == attrs;
      } else {
        assert own' == own && attrs' == attrs;
      }
    }
  }

  /** `getModelName`: the model bound to the request's route. */
  function GetModelName(req: Request): (name: Option<string>)
    ensures name == req.options.model
  {
    req.options.model
  }

  /** `getRelationships`: the associations of the model bound to the route. */
  function GetRelationships(req: Request): (assocs: seq<Association>)
    ensures assocs == req.options.associations
  {
    req.options.associations
  }
}
