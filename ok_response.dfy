/** The 200 (OK) response: records stripped of their primary key and
    relationship fields, and the attribute list taken from them. */
module OkResponse {
  import opened Wrappers
  import opened Json
  import opened Sails
  import opened ModelUtils

  /** `_.find(req.options.associations, { alias: key })` finds an entry. */
  predicate IsAssociationAlias(assocs: seq<Association>, key: string) {
    exists i :: 0 <= i < |assocs| && assocs[i].alias == key
  }

  /** The `omitKeys` callback: true for `id` and for association aliases. */
  predicate Omits(assocs: seq<Association>, key: string) {
    key == "id" || IsAssociationAlias(assocs, key)
  }

  /** `_.omit(modelAttrs, omitKeys)`: a new object holding the record's
      properties, in order, except those `omitKeys` accepts. What it keeps
      is stated by the lemmas below. */
  function Omit(record: Props, assocs: seq<Association>): Props {
    if |record| == 0 then []
    else if Omits(assocs, record[0].0) then Omit(record[1..], assocs)
    else [record[0]] + Omit(record[1..], assocs)
  }

  /** A key survives exactly when the record has it and `omitKeys`
      rejects it. */
  lemma {:induction false} OmitKeys(record: Props, assocs: seq<Association>)
    ensures forall k :: k in Keys(Omit(record, assocs)) <==> k in Keys(record) && !Omits(assocs, k)
  {
    if |record| > 0 {
      OmitKeys(record[1..], assocs);
      assert Keys(record) == [record[0].0] + Keys(record[1..]);
      if !Omits(assocs, record[0].0) {
        assert Keys(Omit(record, assocs)) == [record[0].0] + Keys(Omit(record[1..], assocs));
      }
    }
  }

  /** Every kept key reads the same value as in the record. */
  lemma {:induction false} OmitLookup(record: Props, assocs: seq<Association>, k: string)
    requires !Omits(assocs, k)
    ensures Lookup(Omit(record, assocs), k) == Lookup(record, k)
  {
    if |record| > 0 {
      OmitLookup(record[1..], assocs, k);
    }
  }

  /** The kept properties, and so their keys, appear in the record's order. */
  lemma OmitOrder(record: Props, assocs: seq<Association>)
    ensures IsSubsequence(Omit(record, assocs), record)
    ensures IsSubsequence(Keys(Omit(record, assocs)), Keys(record))
  {
    OmitPropsOrder(record, assocs);
    OmitKeysOrder(record, assocs);
  }

  lemma {:induction false} OmitPropsOrder(record: Props, assocs: seq<Association>)
    ensures IsSubsequence(Omit(record, assocs), record)
  {
    if |record| > 0 {
      var rest := Omit(record[1..], assocs);
      OmitPropsOrder(record[1..], assocs);
      assert record == [record[0]] + record[1..];
      if Omits(assocs, record[0].0) {
        SubsequenceConsRight(record[0], rest, record[1..]);
      } else {
        SubsequenceConsBoth(record[0], rest, record[1..]);
      }
    }
  }

  lemma {:induction false} OmitKeysOrder(record: Props, assocs: seq<Association>)
    ensures IsSubsequence(Keys(Omit(record, assocs)), Keys(record))
  {
    if |record| > 0 {
      var rest := Omit(record[1..], assocs);
      var restKeys, tailKeys := Keys(rest), Keys(record[1..]);
      OmitKeysOrder(record[1..], assocs);
      assert Keys(record) == [record[0].0] + tailKeys;
      if Omits(assocs, record[0].0) {
        assert Omit(record, assocs) == rest;
        SubsequenceConsRight(record[0].0, restKeys, tailKeys);
      } else {
        assert Omit(record, assocs) == [record[0]] + rest;
        assert Keys([record[0]] + rest) == [record[0].0] + restKeys;
        SubsequenceConsBoth(record[0].0, restKeys, tailKeys);
      }
    }
  }

  /** Omitting keys cannot make two of them equal. */
  lemma {:induction false} OmitDistinct(record: Props, assocs: seq<Association>)
    requires DistinctKeys(record)
    ensures DistinctKeys(Omit(record, assocs))
  {
    if |record| > 0 {
      assert Keys(record) == [record[0].0] + Keys(record[1..]);
      assert Keys(record[1..]) == Keys(record)[1..];
      OmitDistinct(record[1..], assocs);
      if !Omits(assocs, record[0].0) {
        var rest := Omit(record[1..], assocs);
        OmitKeys(record[1..], assocs);
        assert record[0].0 !in Keys(record[1..]) by {
          forall i | 1 <= i < |record| ensures Keys(record)[i] != record[0].0 {
            assert Keys(record)[0] == record[0].0;
          }
        }
        assert Keys([record[0]] + rest) == [record[0].0] + Keys(rest);
      }
    }
  }

  /** The records after `stripRelationships`: one stripped copy per record,
      in order. */
  function Stripped(modelData: seq<Props>, assocs: seq<Association>): (r: seq<Props>)
    ensures |r| == |modelData|
    ensures forall i :: 0 <= i < |r| ==> r[i] == Omit(modelData[i], assocs)
  {
    if |modelData| == 0 then []
    else
      var n := |modelData| - 1;
      Stripped(modelData[..n], assocs) + [Omit(modelData[n], assocs)]
  }

  /** No stripped record has an `id` or an association alias among its
      keys, and every other property keeps its value. */
  lemma StrippedOmits(modelData: seq<Props>, assocs: seq<Association>)
    ensures forall i :: 0 <= i < |modelData| ==>
      "id" !in Keys(Stripped(modelData, assocs)[i]) &&
      (forall j :: 0 <= j < |assocs| ==> assocs[j].alias !in Keys(Stripped(modelData, assocs)[i]))
    ensures forall i, k :: 0 <= i < |modelData| && !Omits(assocs, k) ==>
      Lookup(Stripped(modelData, assocs)[i], k) == Lookup(modelData[i], k)
  {
    var result := Stripped(modelData, assocs);
    forall i | 0 <= i < |result|
      ensures "id" !in Keys(result[i])
      ensures forall j :: 0 <= j < |assocs| ==> assocs[j].alias !in Keys(result[i])
    {
      OmitKeys(modelData[i], assocs);
    }
    forall i, k | 0 <= i < |result| && !Omits(assocs, k)
      ensures Lookup(result[i], k) == Lookup(modelData[i], k)
    {
      OmitLookup(modelData[i], assocs, k);
    }
  }

  /** `stripRelationships(modelData, req)`: the loop copies each record in
      turn without `id` and the route's association aliases. */
  method StripRelationships(modelData: seq<Props>, req: Request) returns (result: seq<Props>)
    ensures result == Stripped(modelData, req.options.associations)
  {
    var assocs := GetRelationships(req);
    result := [];
    var i := 0;
    while i < |modelData|
      invariant 0 <= i <= |modelData|
      invariant result == Stripped(modelData[..i], assocs)
    {
      assert modelData[..i + 1][..i] == modelData[..i];
      result := result + [Omit(modelData[i], assocs)];
      i := i + 1;
    }
    assert modelData[..i] == modelData;
  }

  /** `getAttributes(modelData)`: the keys of the first record, or none. */
  function GetAttributes(modelData: seq<Props>): seq<string> {
    if |modelData| > 0 then Keys(modelData[0]) else []
  }

  /** `getAttributes` reads the first record only: no records give no
      names, and records after the first do not matter. */
  lemma GetAttributesFirstRecordOnly(data: seq<Props>, more: seq<Props>)
    ensures GetAttributes([]) == []
    ensures |data| > 0 ==> GetAttributes(data + more) == GetAttributes(data)
  {
    if |data| > 0 {
      assert (data + more)[0] == data[0];
    }
  }

  /** The attribute list `sendOK` passes to the serializer: the first
      record's keys, in order, less `id` and the association aliases. */
  function OkAttributes(data: seq<Props>, assocs: seq<Association>): (attrs: seq<string>)
    ensures |data| == 0 ==> attrs == []
    ensures |data| > 0 ==> forall k :: k in attrs <==> k in Keys(data[0]) && !Omits(assocs, k)
    ensures |data| > 0 ==> IsSubsequence(attrs, Keys(data[0]))
    ensures "id" !in attrs
    ensures forall i :: 0 <= i < |assocs| ==> assocs[i].alias !in attrs
  {
    if |data| > 0 then
      OmitKeys(data[0], assocs);
      OmitOrder(data[0], assocs);
      GetAttributes(Stripped(data, assocs))
    else []
  }

  /** Records after the first do not affect the attribute list. */
  lemma OkAttributesFirstRecordOnly(data: seq<Props>, more: seq<Props>, assocs: seq<Association>)
    requires |data| > 0
    ensures OkAttributes(data + more, assocs) == OkAttributes(data, assocs)
  {
  }

  /** With no associations only `id` is removed. */
  lemma OmitWithoutAssociations(record: Props)
    ensures forall k :: k in Keys(Omit(record, [])) <==> k in Keys(record) && k != "id"
  {
    OmitKeys(record, []);
  }
}
