/** `apply_metadata` of src/call.rs: a JSON object of headers becomes repeated gRPC headers. */
module Metadata {
  import opened Prelude
  import opened Json
  import opened Text

  type Header = (string, string)

  /**
   * What the header library decides: which keys and values it accepts, and how a JSON value
   * that is neither null nor a string is written out.
   */
  datatype Rules = Rules(keyOk: string -> bool, valueOk: string -> bool, render: Value -> string)

  /** The header map of one request: per key, the values in the order they were appended. */
  class Headers {
    var entries: seq<Header>

    constructor ()
      ensures entries == []
    {
      entries := [];
    }

    method Append(key: string, value: string)
      modifies this
      ensures entries == old(entries) + [(key, value)]
    {
      entries := entries + [(key, value)];
    }
  }

  /** `get_all`: the values of one key. */
  function GetAll(entries: seq<Header>, key: string): seq<string> {
    if entries == [] then []
    else (if entries[0].0 == key then [entries[0].1] else []) + GetAll(entries[1..], key)
  }

  function Items(value: Value): seq<Value> {
    if value.Arr? then value.items else [value]
  }

  function TextOf(item: Value, rules: Rules): string {
    if item.Str? then item.s else rules.render(item)
  }

  /** The texts of the items that are not null, in order. */
  function TextsOf(items: seq<Value>, rules: Rules): seq<string> {
    if items == [] then []
    else
      var init := TextsOf(items[..|items| - 1], rules);
      var last := items[|items| - 1];
      if last.Null? then init else init + [TextOf(last, rules)]
  }

  function Under(key: string, values: seq<string>): seq<Header> {
    seq(|values|, i requires 0 <= i < |values| => (key, values[i]))
  }

  lemma UnderSnoc(key: string, values: seq<string>, value: string)
    ensures Under(key, values + [value]) == Under(key, values) + [(key, value)]
  {
  }

  /** Every header that the object asks for, in order. */
  function Flatten(fields: seq<(string, Value)>, rules: Rules): seq<Header> {
    if fields == [] then []
    else
      var last := fields[|fields| - 1];
      Flatten(fields[..|fields| - 1], rules) + Under(Lower(last.0), TextsOf(Items(last.1), rules))
  }

  lemma FlattenNext(fields: seq<(string, Value)>, i: nat, rules: Rules)
    requires i < |fields|
    ensures Flatten(fields[..i + 1], rules)
         == Flatten(fields[..i], rules) + Under(Lower(fields[i].0), TextsOf(Items(fields[i].1), rules))
  {
    assert fields[..i + 1][..i] == fields[..i];
  }

  predicate ValuesOk(values: seq<string>, rules: Rules) {
    forall text :: text in values ==> rules.valueOk(text)
  }

  predicate FieldOk(field: (string, Value), rules: Rules) {
    rules.keyOk(Lower(field.0)) && ValuesOk(TextsOf(Items(field.1), rules), rules)
  }

  predicate Acceptable(metadata: Option<Value>, rules: Rules) {
    || metadata.None?
    || metadata.value.Null?
    || (metadata.value.Obj? && forall field :: field in metadata.value.fields ==> FieldOk(field, rules))
  }

  function Wanted(metadata: Option<Value>, rules: Rules): seq<Header> {
    if metadata.Some? && metadata.value.Obj? then Flatten(metadata.value.fields, rules) else []
  }

  lemma {:induction false} TextListed(items: seq<Value>, j: nat, rules: Rules)
    requires j < |items| && !items[j].Null?
    ensures TextOf(items[j], rules) in TextsOf(items, rules)
  {
    if j < |items| - 1 {
      TextListed(items[..|items| - 1], j, rules);
    }
  }

  /** The inner loop: one header per item that is not null, until a value is refused. */
  method AppendItems(headers: Headers, key: string, items: seq<Value>, rules: Rules) returns (ok: bool)
    modifies headers
    ensures ok <==> ValuesOk(TextsOf(items, rules), rules)
    ensures ok ==> headers.entries == old(headers.entries) + Under(key, TextsOf(items, rules))
  {
    for j := 0 to |items|
      invariant ValuesOk(TextsOf(items[..j], rules), rules)
      invariant headers.entries == old(headers.entries) + Under(key, TextsOf(items[..j], rules))
    {
      assert items[..j + 1][..j] == items[..j];
      if items[j].Null? {
        continue;
      }
      var text := TextOf(items[j], rules);
      if !rules.valueOk(text) {
        TextListed(items, j, rules);
        return false;
      }
      headers.Append(key, text);
      UnderSnoc(key, TextsOf(items[..j], rules), text);
    }
    assert items[..|items|] == items;
    return true;
  }

  /** One key, lowercased and checked, and then its values. */
  method AppendField(headers: Headers, field: (string, Value), rules: Rules) returns (ok: bool)
    modifies headers
    ensures ok <==> FieldOk(field, rules)
    ensures ok ==> headers.entries == old(headers.entries) + Under(Lower(field.0), TextsOf(Items(field.1), rules))
  {
    if !rules.keyOk(Lower(field.0)) {
      return false;
    }
    ok := AppendItems(headers, Lower(field.0), Items(field.1), rules);
  }

  /** The outer loop: the keys of the object, until one of them is refused. */
  method AppendFields(headers: Headers, fields: seq<(string, Value)>, rules: Rules) returns (ok: bool)
    modifies headers
    ensures ok <==> forall field :: field in fields ==> FieldOk(field, rules)
    ensures ok ==> headers.entries == old(headers.entries) + Flatten(fields, rules)
  {
    for i := 0 to |fields|
      invariant forall field :: field in fields[..i] ==> FieldOk(field, rules)
      invariant headers.entries == old(headers.entries) + Flatten(fields[..i], rules)
    {
      ok := AppendField(headers, fields[i], rules);
      if !ok {
        assert fields[i] in fields;
        return;
      }
      FlattenNext(fields, i, rules);
      assert fields[..i + 1] == fields[..i] + [fields[i]];
    }
    assert fields[..|fields|] == fields;
    return true;
  }

  method ApplyMetadata(headers: Headers, metadata: Option<Value>, rules: Rules)
    returns (r: Result<(), GrpcError>)
    modifies headers
    ensures r.Ok? <==> Acceptable(metadata, rules)
    ensures r.Err? ==> r.error == Call
    ensures r.Ok? ==> headers.entries == old(headers.entries) + Wanted(metadata, rules)
  {
    if metadata.None? || metadata.value.Null? {
      return Ok(());
    }
    if !metadata.value.Obj? {
      return Err(Call);
    }
    var ok := AppendFields(headers, metadata.value.fields, rules);
    return if ok then Ok(()) else Err(Call);
  }

  // ----- What the flattened list means, key by key and in total -----

  /** For one lower-case key: the texts of all the source keys that fold to it, in object order. */
  function ValuesFor(fields: seq<(string, Value)>, key: string, rules: Rules): seq<string> {
    if fields == [] then []
    else
      (if Lower(fields[0].0) == key then TextsOf(Items(fields[0].1), rules) else [])
      + ValuesFor(fields[1..], key, rules)
  }

  function NonNullCount(items: seq<Value>): nat {
    if items == [] then 0 else (if items[0].Null? then 0 else 1) + NonNullCount(items[1..])
  }

  function ItemCount(fields: seq<(string, Value)>): nat {
    if fields == [] then 0 else NonNullCount(Items(fields[0].1)) + ItemCount(fields[1..])
  }

  lemma {:induction false} GetAllConcat(a: seq<Header>, b: seq<Header>, key: string)
    ensures GetAll(a + b, key) == GetAll(a, key) + GetAll(b, key)
  {
    if a == [] {
      assert a + b == b;
    } else {
      assert (a + b)[0] == a[0] && (a + b)[1..] == a[1..] + b;
      GetAllConcat(a[1..], b, key);
      var head := if a[0].0 == key then [a[0].1] else [];
      assert GetAll(a, key) == head + GetAll(a[1..], key);
      assert GetAll(a + b, key) == head + GetAll(a[1..] + b, key);
    }
  }

  lemma {:induction false} GetAllUnder(name: string, values: seq<string>, key: string)
    ensures GetAll(Under(name, values), key) == if name == key then values else []
  {
    if values != [] {
      assert Under(name, values)[1..] == Under(name, values[1..]);
      GetAllUnder(name, values[1..], key);
    }
  }

  lemma {:induction false} ValuesForSnoc(fields: seq<(string, Value)>, key: string, rules: Rules)
    requires fields != []
    ensures var last := fields[|fields| - 1];
            ValuesFor(fields, key, rules)
            == ValuesFor(fields[..|fields| - 1], key, rules)
               + if Lower(last.0) == key then TextsOf(Items(last.1), rules) else []
  {
    if |fields| > 1 {
      ValuesForSnoc(fields[1..], key, rules);
      assert fields[1..][..|fields| - 2] == fields[..|fields| - 1][1..];
    }
  }

  /** A key's headers are the non-null items of every source key that lowercases to it, in order. */
  lemma {:induction false} FlattenPerKey(fields: seq<(string, Value)>, key: string, rules: Rules)
    ensures GetAll(Flatten(fields, rules), key) == ValuesFor(fields, key, rules)
  {
    if fields != [] {
      var init, last := fields[..|fields| - 1], fields[|fields| - 1];
      FlattenPerKey(init, key, rules);
      GetAllConcat(Flatten(init, rules), Under(Lower(last.0), TextsOf(Items(last.1), rules)), key);
      GetAllUnder(Lower(last.0), TextsOf(Items(last.1), rules), key);
      ValuesForSnoc(fields, key, rules);
    }
  }

  lemma {:induction false} NonNullCountSnoc(items: seq<Value>)
    requires items != []
    ensures NonNullCount(items)
         == NonNullCount(items[..|items| - 1]) + if items[|items| - 1].Null? then 0 else 1
  {
    if |items| > 1 {
      NonNullCountSnoc(items[1..]);
      assert items[1..][..|items| - 2] == items[..|items| - 1][1..];
    }
  }

  lemma {:induction false} TextsCount(items: seq<Value>, rules: Rules)
    ensures |TextsOf(items, rules)| == NonNullCount(items)
  {
    if items != [] {
      TextsCount(items[..|items| - 1], rules);
      NonNullCountSnoc(items);
    }
  }

  lemma {:induction false} ItemCountSnoc(fields: seq<(string, Value)>)
    requires fields != []
    ensures ItemCount(fields)
         == ItemCount(fields[..|fields| - 1]) + NonNullCount(Items(fields[|fields| - 1].1))
  {
    if |fields| > 1 {
      ItemCountSnoc(fields[1..]);
      assert fields[1..][..|fields| - 2] == fields[..|fields| - 1][1..];
    }
  }

  /** No header is invented or lost: as many come out as there are non-null items. */
  lemma {:induction false} FlattenCount(fields: seq<(string, Value)>, rules: Rules)
    ensures |Flatten(fields, rules)| == ItemCount(fields)
  {
    if fields != [] {
      FlattenCount(fields[..|fields| - 1], rules);
      TextsCount(Items(fields[|fields| - 1].1), rules);
      ItemCountSnoc(fields);
    }
  }

  /** The promise of the flattening on a fresh request, for every key and in total. */
  lemma HeadersOfObject(metadata: Option<Value>, rules: Rules)
    requires Acceptable(metadata, rules)
    ensures forall key :: GetAll(Wanted(metadata, rules), key)
                       == if metadata.Some? && metadata.value.Obj?
                          then ValuesFor(metadata.value.fields, key, rules) else []
    ensures |Wanted(metadata, rules)|
         == if metadata.Some? && metadata.value.Obj? then ItemCount(metadata.value.fields) else 0
  {
    if metadata.Some? && metadata.value.Obj? {
      forall key {
        FlattenPerKey(metadata.value.fields, key, rules);
      }
      FlattenCount(metadata.value.fields, rules);
    }
  }

  // ----- The headers, written out from the object alone -----

  /** `header` is `source` with each ASCII capital replaced by its small letter. */
  predicate Folds(source: string, header: string) {
    && |header| == |source|
    && forall i :: 0 <= i < |source| ==>
         if 'A' <= source[i] <= 'Z' then header[i] as int == source[i] as int + 32 else header[i] == source[i]
  }

  /** One header for each item that is not null: a string as it is, anything else as it is written out. */
  predicate ListsItems(headers: seq<Header>, source: string, items: seq<Value>, rules: Rules)
    decreases items
  {
    if items == [] then headers == []
    else if items[0].Null? then ListsItems(headers, source, items[1..], rules)
    else
      && headers != []
      && Folds(source, headers[0].0)
      && headers[0].1 == (match items[0] case Str(text) => text case other => rules.render(other))
      && ListsItems(headers[1..], source, items[1..], rules)
  }

  /** The items of one value: the elements of an array, or else the value itself. */
  predicate ListsValue(headers: seq<Header>, source: string, value: Value, rules: Rules) {
    match value
    case Arr(items) => ListsItems(headers, source, items, rules)
    case other => ListsItems(headers, source, [other], rules)
  }

  /** The fields of an object one after the other. */
  ghost predicate ListsFields(headers: seq<Header>, fields: seq<(string, Value)>, rules: Rules)
    decreases fields
  {
    if fields == [] then headers == []
    else exists k :: 0 <= k <= |headers| && ListsValue(headers[..k], fields[0].0, fields[0].1, rules)
                     && ListsFields(headers[k..], fields[1..], rules)
  }

  lemma LowerFolds(source: string, header: string)
    ensures Folds(source, header) <==> header == Lower(source)
  {
  }

  lemma {:induction false} TextsOfHead(items: seq<Value>, rules: Rules)
    requires items != []
    ensures TextsOf(items, rules)
         == (if items[0].Null? then [] else [TextOf(items[0], rules)]) + TextsOf(items[1..], rules)
  {
    if |items| > 1 {
      TextsOfHead(items[..|items| - 1], rules);
      assert items[..|items| - 1][1..] == items[1..][..|items| - 2];
    }
  }

  lemma {:induction false} ItemsListed(headers: seq<Header>, source: string, items: seq<Value>, rules: Rules)
    ensures ListsItems(headers, source, items, rules) <==> headers == Under(Lower(source), TextsOf(items, rules))
    decreases items
  {
    if items != [] {
      TextsOfHead(items, rules);
      if items[0].Null? {
        ItemsListed(headers, source, items[1..], rules);
      } else if headers != [] {
        ItemsListed(headers[1..], source, items[1..], rules);
        LowerFolds(source, headers[0].0);
        var rest := Under(Lower(source), TextsOf(items[1..], rules));
        assert Under(Lower(source), TextsOf(items, rules)) == [(Lower(source), TextOf(items[0], rules))] + rest;
        assert headers == [headers[0]] + headers[1..];
      }
    }
  }

  lemma ValueListed(headers: seq<Header>, field: (string, Value), rules: Rules)
    ensures ListsValue(headers, field.0, field.1, rules)
            <==> headers == Under(Lower(field.0), TextsOf(Items(field.1), rules))
  {
    ItemsListed(headers, field.0, Items(field.1), rules);
  }

  lemma {:induction false} FlattenHead(fields: seq<(string, Value)>, rules: Rules)
    requires fields != []
    ensures Flatten(fields, rules)
         == Under(Lower(fields[0].0), TextsOf(Items(fields[0].1), rules)) + Flatten(fields[1..], rules)
  {
    if |fields| > 1 {
      FlattenHead(fields[..|fields| - 1], rules);
      assert fields[..|fields| - 1][1..] == fields[1..][..|fields| - 2];
    }
  }

  lemma {:induction false} FlattenListed(fields: seq<(string, Value)>, rules: Rules)
    ensures ListsFields(Flatten(fields, rules), fields, rules)
    decreases fields
  {
    if fields != [] {
      var headers := Flatten(fields, rules);
      var first := Under(Lower(fields[0].0), TextsOf(Items(fields[0].1), rules));
      FlattenHead(fields, rules);
      FlattenListed(fields[1..], rules);
      ValueListed(first, fields[0], rules);
      assert headers[..|first|] == first && headers[|first|..] == Flatten(fields[1..], rules);
    }
  }

  lemma {:induction false} OnlyFlattenListed(headers: seq<Header>, fields: seq<(string, Value)>, rules: Rules)
    requires ListsFields(headers, fields, rules)
    ensures headers == Flatten(fields, rules)
    decreases fields
  {
    if fields != [] {
      FlattenHead(fields, rules);
      var k :| 0 <= k <= |headers| && ListsValue(headers[..k], fields[0].0, fields[0].1, rules)
               && ListsFields(headers[k..], fields[1..], rules);
      ValueListed(headers[..k], fields[0], rules);
      OnlyFlattenListed(headers[k..], fields[1..], rules);
      assert headers == headers[..k] + headers[k..];
    }
  }

  /** What of one field the header library has to accept: its folded key, and every text listed for it. */
  ghost predicate FieldAccepted(field: (string, Value), rules: Rules) {
    && (exists key :: Folds(field.0, key) && rules.keyOk(key))
    && forall headers: seq<Header> :: ListsValue(headers, field.0, field.1, rules) ==>
         forall i :: 0 <= i < |headers| ==> rules.valueOk(headers[i].1)
  }

  lemma FieldAcceptedIs(field: (string, Value), rules: Rules)
    ensures FieldAccepted(field, rules) <==> FieldOk(field, rules)
  {
    LowerFolds(field.0, Lower(field.0));
    forall key | Folds(field.0, key) ensures key == Lower(field.0) {
      LowerFolds(field.0, key);
    }
    var texts := TextsOf(Items(field.1), rules);
    var listed := Under(Lower(field.0), texts);
    ValueListed(listed, field, rules);
    forall headers | ListsValue(headers, field.0, field.1, rules) ensures headers == listed {
      ValueListed(headers, field, rules);
    }
    assert forall i :: 0 <= i < |texts| ==> listed[i].1 == texts[i];
  }

  /** Metadata is acceptable exactly when it is absent, null, or an object whose fields all are. */
  lemma AcceptedExactly(metadata: Option<Value>, rules: Rules)
    ensures Acceptable(metadata, rules) <==>
              || metadata == None
              || metadata == Some(Null)
              || (&& metadata.Some? && metadata.value.Obj?
                  && forall field :: field in metadata.value.fields ==> FieldAccepted(field, rules))
  {
    if metadata.Some? && metadata.value.Obj? {
      forall field | field in metadata.value.fields {
        FieldAcceptedIs(field, rules);
      }
    }
  }

  /** The headers that a request is given, written out from its metadata alone. */
  lemma WantedExactly(metadata: Option<Value>, rules: Rules, headers: seq<Header>)
    ensures headers == Wanted(metadata, rules) <==>
              if metadata.Some? && metadata.value.Obj? then ListsFields(headers, metadata.value.fields, rules)
              else headers == []
  {
    if metadata.Some? && metadata.value.Obj? {
      FlattenListed(metadata.value.fields, rules);
      if ListsFields(headers, metadata.value.fields, rules) {
        OnlyFlattenListed(headers, metadata.value.fields, rules);
      }
    }
  }
}
