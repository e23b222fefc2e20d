/**
 * The product editor's state (app/admin/components/ProductForm.tsx): the
 * form data sent to the API, and the editable list of attribute rows whose
 * fold is kept in the form data's `attributes`. Rendering, `loading`/`error`
 * bookkeeping and the response handling of a submit are not modelled.
 */
module ProductForm {
  import opened Wrappers
  import opened Strings
  import opened JsValues
  import opened ProductModel
  import opened ProductsRoute

  /** One attribute row: `{ key, value }`. */
  datatype Attribute = Attribute(key: string, value: string)

  /** The two editable fields of a row. */
  datatype Field = Key | Value

  /** The request a submit sends. */
  datatype Request = Request(verb: string, url: string, body: JsValue)

  /** The form data before `initialData` is spread over it. */
  const Defaults: seq<(string, JsValue)> := [
    ("name", Str("")),
    ("description", Str("")),
    ("category", Str("vinyl-cd")),
    ("sku", Str("")),
    ("price", Num(0)),
    ("stock", Num(0)),
    ("cloudinaryPublicIds", Arr([])),
    ("attributes", Obj([]))]

  /** A stored product as the API returns it, without `createdAt`, `updatedAt` and the version key `__v`. */
  function ProductProps(p: Product): seq<(string, JsValue)>
  {
    [("_id", Str(p.id)),
     ("name", Str(p.name)),
     ("description", Str(p.description)),
     ("category", Str(p.category)),
     ("sku", Str(p.sku)),
     ("price", Num(p.price)),
     ("stock", Num(p.stock)),
     ("cloudinaryPublicIds", StringArray(p.cloudinaryPublicIds)),
     ("attributes", p.attributes),
     ("featured", Bool(p.featured))]
  }

  /** `{ name: '', ..., attributes: {}, ...initialData }`: every default a field of `initialData` does not override. */
  function InitialFormData(initialData: Option<Product>): (r: seq<(string, JsValue)>)
    ensures initialData.None? ==> r == Defaults
    ensures initialData.Some? ==>
              forall key :: (Lookup(r, key) ==
                             var spread := LastBinding(ProductProps(initialData.value), key);
                             if spread.Some? then spread.value else Lookup(Defaults, key))
    ensures Keys(r) == Keys(Defaults) + (if initialData.Some? then Keys(ProductProps(initialData.value)) else {})
  {
    if initialData.None? then Defaults
    else
      var r := Spread(Defaults, ProductProps(initialData.value));
      forall key
        ensures Lookup(r, key) ==
                var spread := LastBinding(ProductProps(initialData.value), key);
                if spread.Some? then spread.value else Lookup(Defaults, key)
      {
        SpreadLookup(Defaults, ProductProps(initialData.value), key);
      }
      SpreadKeys(Defaults, ProductProps(initialData.value));
      r
  }

  /**
   * Whether `acc[key] = value` with a string value creates a property: the
   * empty key is skipped by the `if (attr.key)` test, and `__proto__` goes to
   * the prototype setter, which ignores a string.
   */
  predicate SetsProperty(key: string)
  {
    key != "" && key != "__proto__"
  }

  /** `attributesList.reduce(...)`: each row whose key sets a property sets it to the row's value. */
  function FoldAttributes(list: seq<Attribute>): seq<(string, JsValue)>
  {
    if list == [] then []
    else
      var acc := FoldAttributes(list[..|list| - 1]);
      var attr := list[|list| - 1];
      if SetsProperty(attr.key) then Assign(acc, attr.key, Str(attr.value)) else acc
  }

  /** The value of the last row with the given key, if any row has it. */
  function LastValue(list: seq<Attribute>, key: string): (r: Option<string>)
    ensures r.Some? <==> exists i :: 0 <= i < |list| && list[i].key == key
  {
    if list == [] then None
    else if list[|list| - 1].key == key then Some(list[|list| - 1].value)
    else
      var r := LastValue(list[..|list| - 1], key);
      assert forall i :: 0 <= i < |list| - 1 ==> list[..|list| - 1][i] == list[i];
      r
  }

  /** The folded record maps each key that sets a property to the value of the last row carrying it, and has no other property. */
  lemma {:induction false} FoldAttributesLookup(list: seq<Attribute>, key: string)
    ensures Lookup(FoldAttributes(list), key) ==
            if SetsProperty(key) && LastValue(list, key).Some? then Str(LastValue(list, key).value) else Undefined
  {
    if list != [] {
      FoldAttributesLookup(list[..|list| - 1], key);
    }
  }

  /** The rows' keys that set a property. */
  function RowKeys(list: seq<Attribute>): set<string>
  {
    set i | 0 <= i < |list| && SetsProperty(list[i].key) :: list[i].key
  }

  lemma RowKeysSnoc(list: seq<Attribute>)
    requires list != []
    ensures var attr := list[|list| - 1];
      RowKeys(list) == RowKeys(list[..|list| - 1]) + (if SetsProperty(attr.key) then {attr.key} else {})
  {
    var init := list[..|list| - 1];
    var attr := list[|list| - 1];
    forall k | k in RowKeys(list) ensures k in RowKeys(init) + (if SetsProperty(attr.key) then {attr.key} else {}) {
      var i :| 0 <= i < |list| && SetsProperty(list[i].key) && list[i].key == k;
      if i < |init| { assert init[i] == list[i]; }
    }
    forall k | k in RowKeys(init) ensures k in RowKeys(list) {
      var i :| 0 <= i < |init| && SetsProperty(init[i].key) && init[i].key == k;
      assert list[i] == init[i];
    }
  }

  /** The folded record's property names are exactly the rows' keys that set a property. */
  lemma {:induction false} FoldAttributesKeys(list: seq<Attribute>)
    ensures Keys(FoldAttributes(list)) == RowKeys(list)
  {
    if list != [] {
      var init := list[..|list| - 1];
      var attr := list[|list| - 1];
      FoldAttributesKeys(init);
      RowKeysSnoc(list);
      if SetsProperty(attr.key) {
        AssignKeys(FoldAttributes(init), attr.key, Str(attr.value));
      }
    }
  }

  /** `Object.entries(initialData?.attributes || {}).map(([key, value]) => ({ key, value: String(value) }))`. */
  function InitialAttributes(initialData: Option<Product>): (list: seq<Attribute>)
    ensures initialData.None? ==> list == []
    ensures initialData.Some? && initialData.value.attributes.Obj? ==>
              |list| == |initialData.value.attributes.props|
              && forall i :: 0 <= i < |list| ==>
                   list[i].key == initialData.value.attributes.props[i].0
                   && list[i].value == JsString(initialData.value.attributes.props[i].1)
    // an array or a string of attributes gives indexed rows, as `Object.entries` does
    ensures initialData.Some? && initialData.value.attributes.Arr? ==>
              |list| == |initialData.value.attributes.items|
              && forall i :: 0 <= i < |list| ==>
                   list[i] == Attribute(NatToString(i), JsString(initialData.value.attributes.items[i]))
    ensures initialData.Some? && initialData.value.attributes.Str? ==>
              |list| == |initialData.value.attributes.s|
              && forall i :: 0 <= i < |list| ==> list[i] == Attribute(NatToString(i), [initialData.value.attributes.s[i]])
    ensures initialData.Some? ==>
              var a := initialData.value.attributes;
              !a.Obj? && !a.Arr? && !a.Str? ==> list == []
  {
    var entries := if initialData.Some? && Truthy(initialData.value.attributes) then Entries(initialData.value.attributes) else [];
    seq(|entries|, i requires 0 <= i < |entries| => Attribute(entries[i].0, JsString(entries[i].1)))
  }

  /** `prev.filter((_, i) => i !== index)`. */
  function RemoveIndex(list: seq<Attribute>, index: int): (r: seq<Attribute>)
  {
    if list == [] then []
    else RemoveIndex(list[..|list| - 1], index) + (if |list| - 1 != index then [list[|list| - 1]] else [])
  }

  /** Filtering out a position removes exactly that row, keeping the others in order; an absent position removes nothing. */
  lemma {:induction false} RemoveIndexSlices(list: seq<Attribute>, index: int)
    ensures 0 <= index < |list| ==> RemoveIndex(list, index) == list[..index] + list[index + 1..]
    ensures !(0 <= index < |list|) ==> RemoveIndex(list, index) == list
  {
    if list != [] {
      var init := list[..|list| - 1];
      RemoveIndexSlices(init, index);
      if 0 <= index < |list| - 1 {
        assert init[..index] == list[..index];
        assert init[index + 1..] + [list[|list| - 1]] == list[index + 1..];
      } else if index == |list| - 1 {
        assert init == list[..index];
      } else {
        assert init + [list[|list| - 1]] == list;
      }
    }
  }

  /** Every property a well-formed product form submits has the type the route checks for. */
  predicate WellTyped(props: seq<(string, JsValue)>)
  {
    && Lookup(props, "name").Str?
    && Lookup(props, "description").Str?
    && Lookup(props, "category").Str?
    && Lookup(props, "price").Num?
    && Lookup(props, "stock").Num?
    && IsStringArray(Lookup(props, "cloudinaryPublicIds"))
    && Lookup(props, "attributes").Obj?
  }

  /** The fields whose type WellTyped pins to something other than a string. */
  const NonTextFields: set<string> := {"price", "stock", "cloudinaryPublicIds", "attributes"}

  /**
   * A well-typed form body fails the route's validation exactly when its name,
   * description or category is empty, and then only with "required" errors.
   */
  lemma WellTypedValidation(props: seq<(string, JsValue)>)
    requires WellTyped(props)
    ensures var s := Destructure(Obj(props));
      && (FailedChecks(s) == [] <==> Lookup(props, "name") != Str("") && Lookup(props, "description") != Str("")
                                     && Lookup(props, "category") != Str(""))
      && forall c :: c in FailedChecks(s) ==> c in {NameRequired, DescriptionRequired, CategoryRequired}
  {
    var s := Destructure(Obj(props));
    FailedChecksExactly(s);
    assert s.name == Lookup(props, "name") && s.description == Lookup(props, "description");
    assert s.category == Lookup(props, "category") && s.attributes.Obj?;
    assert s.price.Num? && s.stock.Num? && IsStringArray(s.cloudinaryPublicIds);
  }

  /** The defaults' text fields: empty name and description, category `vinyl-cd`. */
  lemma DefaultTextFields()
    ensures Lookup(Defaults, "name") == Str("") && Lookup(Defaults, "description") == Str("")
    ensures Lookup(Defaults, "category") == Str("vinyl-cd")
  {
  }

  /** The defaults' other fields: zero price and stock, no ids, no attributes. */
  lemma DefaultOtherFields()
    ensures Lookup(Defaults, "price") == Num(0) && Lookup(Defaults, "stock") == Num(0)
    ensures Lookup(Defaults, "cloudinaryPublicIds") == Arr([]) && Lookup(Defaults, "attributes") == Obj([])
  {
  }

  /** The default form data is well typed. */
  lemma DefaultsWellTyped()
    ensures WellTyped(Defaults)
  {
    DefaultTextFields();
    DefaultOtherFields();
  }

  /** Assigning a string to a text field, or any value of the right type to another field, keeps the form well typed. */
  lemma AssignKeepsWellTyped(props: seq<(string, JsValue)>, key: string, value: JsValue)
    requires WellTyped(props)
    requires key !in NonTextFields || (key == "cloudinaryPublicIds" && IsStringArray(value))
             || ((key == "price" || key == "stock") && value.Num?) || (key == "attributes" && value.Obj?)
    requires key in {"name", "description", "category"} ==> value.Str?
    ensures WellTyped(Assign(props, key, value))
  {
  }

  /** The form component's state. */
  class Form {
    const initialData: Option<Product>
    var formData: seq<(string, JsValue)>
    var attributesList: seq<Attribute>

    /** The effect on `attributesList` has run: the form's `attributes` is the rows' fold. */
    ghost predicate Valid()
      reads this
    {
      Lookup(formData, "attributes") == Obj(FoldAttributes(attributesList))
    }

    /** The first render, followed by the attributes effect. */
    constructor (initialData: Option<Product>)
      ensures Valid()
      ensures this.initialData == initialData
      ensures attributesList == InitialAttributes(initialData)
      ensures formData == Assign(InitialFormData(initialData), "attributes", Obj(FoldAttributes(InitialAttributes(initialData))))
      ensures initialData.None? ==> WellTyped(formData)
    {
      this.initialData := initialData;
      var list := InitialAttributes(initialData);
      attributesList := list;
      formData := Assign(InitialFormData(initialData), "attributes", Obj(FoldAttributes(list)));
      if initialData.None? {
        DefaultsWellTyped();
        AssignKeepsWellTyped(Defaults, "attributes", Obj(FoldAttributes(list)));
      }
    }

    /** `handleChange`: a text input sets the property it is named after. */
    method HandleChange(name: string, value: string)
      requires Valid()
      modifies this
      ensures formData == Assign(old(formData), name, Str(value)) && attributesList == old(attributesList)
      ensures name != "attributes" ==> Valid()
      ensures WellTyped(old(formData)) && name !in NonTextFields ==> WellTyped(formData)
    {
      if WellTyped(formData) && name !in NonTextFields {
        AssignKeepsWellTyped(formData, name, Str(value));
      }
      formData := Assign(formData, name, Str(value));
    }

    /** `handleCategoryChange`. */
    method HandleCategoryChange(value: string)
      requires Valid()
      modifies this
      ensures formData == Assign(old(formData), "category", Str(value)) && attributesList == old(attributesList)
      ensures Valid()
      ensures WellTyped(old(formData)) ==> WellTyped(formData)
    {
      if WellTyped(formData) {
        AssignKeepsWellTyped(formData, "category", Str(value));
      }
      formData := Assign(formData, "category", Str(value));
    }

    /** `handleNumberChange`: `parseFloat(value) || 0`, with an unparsable value as None. */
    method HandleNumberChange(name: string, parsed: Option<int>)
      requires Valid()
      modifies this
      ensures formData == Assign(old(formData), name, Num(if parsed.Some? then parsed.value else 0))
      ensures attributesList == old(attributesList)
      ensures name != "attributes" ==> Valid()
      ensures WellTyped(old(formData)) && (name == "price" || name == "stock") ==> WellTyped(formData)
    {
      var n := if parsed.Some? then parsed.value else 0;
      if WellTyped(formData) && (name == "price" || name == "stock") {
        AssignKeepsWellTyped(formData, name, Num(n));
      }
      formData := Assign(formData, name, Num(n));
    }

    /** `handleAttributeChange`: one field of one row changes; the effect refolds the rows. */
    method HandleAttributeChange(index: nat, field: Field, value: string)
      requires Valid() && index < |attributesList|
      modifies this
      ensures |attributesList| == |old(attributesList)|
      ensures attributesList[index] ==
                if field == Key then old(attributesList)[index].(key := value) else old(attributesList)[index].(value := value)
      ensures forall i :: 0 <= i < |attributesList| && i != index ==> attributesList[i] == old(attributesList)[i]
      ensures formData == Assign(old(formData), "attributes", Obj(FoldAttributes(attributesList)))
      ensures Valid()
      ensures WellTyped(old(formData)) ==> WellTyped(formData)
    {
      var row := attributesList[index];
      var updated := if field == Key then row.(key := value) else row.(value := value);
      attributesList := attributesList[index := updated];
      if WellTyped(formData) {
        AssignKeepsWellTyped(formData, "attributes", Obj(FoldAttributes(attributesList)));
      }
      formData := Assign(formData, "attributes", Obj(FoldAttributes(attributesList)));
    }

    /** `handleAddAttribute`: an empty row is appended, which the fold ignores. */
    method HandleAddAttribute()
      requires Valid()
      modifies this
      ensures attributesList == old(attributesList) + [Attribute("", "")]
      ensures formData == old(formData)
      ensures Valid()
    {
      attributesList := attributesList + [Attribute("", "")];
      assert attributesList[..|attributesList| - 1] == old(attributesList);
    }

    /** `handleRemoveAttribute`: the row at `index` goes; the effect refolds the rows. */
    method HandleRemoveAttribute(index: int)
      requires Valid()
      modifies this
      ensures 0 <= index < |old(attributesList)| ==>
                attributesList == old(attributesList)[..index] + old(attributesList)[index + 1..]
      ensures !(0 <= index < |old(attributesList)|) ==> attributesList == old(attributesList)
      ensures formData == Assign(old(formData), "attributes", Obj(FoldAttributes(attributesList)))
      ensures Valid()
      ensures WellTyped(old(formData)) ==> WellTyped(formData)
    {
      RemoveIndexSlices(attributesList, index);
      attributesList := RemoveIndex(attributesList, index);
      if WellTyped(formData) {
        AssignKeepsWellTyped(formData, "attributes", Obj(FoldAttributes(attributesList)));
      }
      formData := Assign(formData, "attributes", Obj(FoldAttributes(attributesList)));
    }

    /** `handleCloudinaryPublicIdsChange`: only the ids change. */
    method HandleCloudinaryPublicIdsChange(publicIds: seq<string>)
      requires Valid()
      modifies this
      ensures formData == Assign(old(formData), "cloudinaryPublicIds", StringArray(publicIds))
      ensures attributesList == old(attributesList)
      ensures forall key :: key != "cloudinaryPublicIds" ==> Lookup(formData, key) == Lookup(old(formData), key)
      ensures Valid()
      ensures WellTyped(old(formData)) ==> WellTyped(formData)
    {
      if WellTyped(formData) {
        AssignKeepsWellTyped(formData, "cloudinaryPublicIds", StringArray(publicIds));
      }
      formData := Assign(formData, "cloudinaryPublicIds", StringArray(publicIds));
    }

    /** `handleSubmit`'s request: PUT to the product's own URL when editing, POST to the collection otherwise. */
    method Submit() returns (req: Request)
      ensures req.verb == "PUT" <==> initialData.Some?
      ensures req.verb == "POST" <==> initialData.None?
      ensures initialData.Some? ==> req.url == "/api/admin/products/" + initialData.value.id
      ensures initialData.None? ==> req.url == "/api/admin/products"
      ensures req.body == Obj(formData)
    {
      var verb := if initialData.Some? then "PUT" else "POST";
      var url := if initialData.Some? then "/api/admin/products/" + initialData.value.id else "/api/admin/products";
      req := Request(verb, url, Obj(formData));
    }
  }
}
