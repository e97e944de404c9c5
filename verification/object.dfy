/** The resource object of src/Object.php: a property bag of JSON values
    plus the list of fields assigned since the object was loaded, bound to
    a REST endpoint derived from its class name.

    PHP keeps the unsaved list as an array whose `[]` appends use the next
    free integer index and whose `unset` leaves holes. The model keeps that
    shape: `unsaved` maps index to field name and `nextIndex` is the next
    free index. `UnsavedList` reads it back as the ordered list. */
module ResourceObjects {
  import opened Results
  import opened Text
  import opened JsonValues
  import opened Errors
  import opened ApiClient

  /** Fields an ordinary assignment never marks unsaved. */
  const PermanentAttributes: set<string> := {"id"}

  /** The class `retrieve` instantiates (`new self` inside the base class). */
  const BaseClassName: string := "Invoiced\\Object"

  const MissingIdMessage: string := "Missing ID."

  /** The two inflector functions the endpoint derivation calls; they are
      foreign and stay uninterpreted. */
  datatype Inflector = Inflector(pluralize: string -> string, underscore: string -> string)

  datatype ResourceObject = ResourceObject(
    client: Client,
    className: string,
    endpoint: string,
    values: map<string, Json>,
    unsaved: map<nat, string>,
    nextIndex: nat)

  // ---------------------------------------------------------------------
  // Endpoint derivation

  /** The class name without its namespace: the text after the last
      backslash, or all of it when there is none. */
  function LastSegment(name: string): (r: string)
    ensures '\\' !in r
    ensures |r| <= |name| && r == name[|name| - |r|..]
    ensures |r| == |name| || name[|name| - |r| - 1] == '\\'
    decreases |name|
  {
    if |name| == 0 then ""
    else if name[|name| - 1] == '\\' then ""
    else LastSegment(name[..|name| - 1]) + [name[|name| - 1]]
  }

  /** Any namespace qualifier is stripped: `Ns\Sub\Charge` and `Charge`
      have the same last segment. */
  lemma {:induction false} LastSegmentOfQualified(qualifier: string, name: string)
    requires '\\' !in name
    ensures LastSegment(qualifier + "\\" + name) == name
    ensures LastSegment(name) == name
    decreases |name|
  {
    if |name| > 0 {
      var full := qualifier + "\\" + name;
      var init := name[..|name| - 1];
      assert full[..|full| - 1] == qualifier + "\\" + init;
      assert name[..|name| - 1] == init;
      LastSegmentOfQualified(qualifier, init);
    } else {
      assert (qualifier + "\\" + name)[|qualifier|] == '\\';
    }
  }

  /** `strtolower(pluralize(underscore(<class name without namespace>)))`. */
  function EndpointRoot(inf: Inflector, className: string): (r: string)
    ensures forall i :: 0 <= i < |r| ==> !IsUpper(r[i])
  {
    LowerIdempotent(inf.pluralize(inf.underscore(LastSegment(className))));
    Lower(inf.pluralize(inf.underscore(LastSegment(className))))
  }

  // ---------------------------------------------------------------------
  // The unsaved list and its invariant

  /** The entries of the sparse unsaved array below index `hi`, in index
      order. */
  function Dense(m: map<nat, string>, hi: nat): seq<string>
    decreases hi
  {
    if hi == 0 then []
    else Dense(m, hi - 1) + (if hi - 1 in m then [m[hi - 1]] else [])
  }

  /** The unsaved list as PHP iterates it. */
  function UnsavedList(o: ResourceObject): seq<string> {
    Dense(o.unsaved, o.nextIndex)
  }

  predicate NoDuplicates(s: seq<string>) {
    forall i, j :: 0 <= i < j < |s| ==> s[i] != s[j]
  }

  /** What every reachable object satisfies: all indices lie below the next
      free index, no field is listed twice and `id` is never listed. */
  predicate Valid(o: ResourceObject) {
    && (forall i | i in o.unsaved :: i < o.nextIndex)
    && (forall i, j | i in o.unsaved && j in o.unsaved && i != j :: o.unsaved[i] != o.unsaved[j])
    && "id" !in o.unsaved.Values
  }

  lemma {:induction false} DenseFrame(m: map<nat, string>, m': map<nat, string>, hi: nat)
    requires forall i: nat | i < hi :: (i in m <==> i in m') && (i in m ==> m[i] == m'[i])
    ensures Dense(m, hi) == Dense(m', hi)
    decreases hi
  {
    if hi > 0 {
      DenseFrame(m, m', hi - 1);
    }
  }

  lemma {:induction false} DenseContains(m: map<nat, string>, hi: nat, x: string)
    ensures x in Dense(m, hi) <==> exists i: nat :: i < hi && i in m && m[i] == x
    decreases hi
  {
    if hi > 0 {
      DenseContains(m, hi - 1, x);
    }
  }

  lemma {:induction false} DenseNoDuplicates(m: map<nat, string>, hi: nat)
    requires forall i, j | i in m && j in m && i != j :: m[i] != m[j]
    ensures NoDuplicates(Dense(m, hi))
    decreases hi
  {
    if hi > 0 {
      DenseNoDuplicates(m, hi - 1);
      if hi - 1 in m {
        DenseContains(m, hi - 1, m[hi - 1]);
      }
    }
  }

  /** For a valid object the ordered list holds exactly the listed fields,
      none twice and never `id`. */
  lemma UnsavedListOfValid(o: ResourceObject)
    requires Valid(o)
    ensures NoDuplicates(UnsavedList(o))
    ensures forall x :: x in UnsavedList(o) <==> x in o.unsaved.Values
    ensures "id" !in UnsavedList(o)
  {
    DenseNoDuplicates(o.unsaved, o.nextIndex);
    forall x
      ensures x in UnsavedList(o) <==> x in o.unsaved.Values
    {
      DenseContains(o.unsaved, o.nextIndex, x);
    }
  }

  // ---------------------------------------------------------------------
  // Construction

  /** `new <Class>($client, $id, $values)`. With an id (anything but null)
      the values are the initial values with `id` overridden and the
      endpoint gains `/<id>`; without one the values are empty. Either way
      nothing is unsaved. */
  function New(inf: Inflector, client: Client, className: string, id: Json, initial: map<string, Json>): (r: ResourceObject)
    ensures Valid(r) && UnsavedList(r) == []
    ensures r.client == client && r.className == className
    ensures id != JNull ==> r.endpoint == EndpointRoot(inf, className) + "/" + PhpString(id)
    ensures id != JNull ==> "id" in r.values && r.values["id"] == id
    ensures id != JNull ==> forall k :: k in r.values <==> k in initial || k == "id"
    ensures id == JNull ==> r.endpoint == EndpointRoot(inf, className) && r.values == map[]
  {
    var root := EndpointRoot(inf, className);
    if id != JNull then
      ResourceObject(client, className, root + "/" + PhpString(id), initial["id" := id], map[], 0)
    else ResourceObject(client, className, root, map[], map[], 0)
  }

  /** Every initial value other than `id` is kept as given. */
  lemma NewKeepsInitialValues(inf: Inflector, client: Client, className: string, id: Json, initial: map<string, Json>, k: string)
    requires id != JNull && k in initial && k != "id"
    ensures k in New(inf, client, className, id, initial).values
    ensures New(inf, client, className, id, initial).values[k] == initial[k]
  {
  }

  // ---------------------------------------------------------------------
  // Reading fields

  /** `offsetGet`: the stored value, or null for an absent key. */
  function OffsetGet(o: ResourceObject, k: string): (r: Json)
    ensures k in o.values ==> r == o.values[k]
    ensures k !in o.values ==> r == JNull
  {
    if k in o.values then o.values[k] else JNull
  }

  /** `offsetExists`: the key is present, whatever its value; an absent key
      reads as null. */
  function OffsetExists(o: ResourceObject, k: string): (r: bool)
    ensures r <==> k in o.values.Keys
    ensures !r ==> OffsetGet(o, k) == JNull
  {
    k in o.values
  }

  /** `__isset`: present with a non-null value. */
  function IsSet(o: ResourceObject, k: string): (r: bool)
    ensures r ==> OffsetExists(o, k)
    ensures r <==> OffsetGet(o, k) != JNull
  {
    k in o.values && o.values[k] != JNull
  }

  /** `__get`: the stored value (null included) for a present key, and an
      "Undefined property" exception otherwise. */
  function Get(o: ResourceObject, k: string): (r: Result<Json, Error>)
    ensures r.Success? <==> OffsetExists(o, k)
    ensures r.Success? ==> r.value == OffsetGet(o, k)
    ensures r.Failure? ==> r.error.kind == UndefinedProperty && !FromApi(r.error.kind)
  {
    if k in o.values then Success(o.values[k])
    else Failure(LocalError(UndefinedProperty, "Undefined property of " + o.className + ": " + k))
  }

  /** A field holding null exists and reads as null, yet is not "set". */
  lemma NullFieldExistsButIsNotSet(o: ResourceObject, k: string)
    requires OffsetExists(o, k) && o.values[k] == JNull
    ensures !IsSet(o, k)
    ensures Get(o, k) == Success(JNull)
  {
  }

  // ---------------------------------------------------------------------
  // Writing fields

  function EmptyStringMessage(k: string): string {
    "You cannot set '" + k + "'to an empty string. "
    + "We interpret empty strings as NULL in requests. "
    + "You may set obj->" + k + " = NULL to delete the property"
  }

  /** `__set`: the empty string is refused; any other value is stored and
      the field is appended to the unsaved list unless it is permanent or
      already listed. The endpoint never changes. */
  function Set(o: ResourceObject, k: string, v: Json): (r: Result<ResourceObject, Error>)
    ensures r.Failure? <==> v == JString("")
    ensures r.Failure? ==> r.error.kind == InvalidArgument
    ensures r.Success? ==>
              && r.value.values.Keys == o.values.Keys + {k}
              && r.value.values[k] == v
              && (forall j | j in o.values && j != k :: r.value.values[j] == o.values[j])
              && r.value.endpoint == o.endpoint && r.value.className == o.className && r.value.client == o.client
              && (k in PermanentAttributes ==> r.value.unsaved == o.unsaved && r.value.nextIndex == o.nextIndex)
              && (k !in PermanentAttributes ==> k in r.value.unsaved.Values)
              && (k in o.unsaved.Values ==> r.value.unsaved == o.unsaved && r.value.nextIndex == o.nextIndex)
  {
    if v == JString("") then Failure(LocalError(InvalidArgument, EmptyStringMessage(k)))
    else
      var stored := o.(values := o.values[k := v]);
      if k !in PermanentAttributes && k !in o.unsaved.Values then
        var listed := o.unsaved[o.nextIndex := k];
        assert listed[o.nextIndex] == k;
        Success(stored.(unsaved := listed, nextIndex := o.nextIndex + 1))
      else
        Success(stored)
  }

  /** The object's own protected properties. Inside the class `$this->$k`
      reaches them directly, so `offsetSet`/`offsetUnset` on these names
      bypass `__set`/`__unset`. */
  predicate OwnProperty(k: string) {
    k in {"_client", "_endpoint", "_values", "_unsaved"}
  }

  /** The field names a JSON value holds when it is assigned as the unsaved
      list: a list of strings, or the empty array. */
  function NameList(v: Json): (r: Option<seq<string>>)
    ensures r.Some? && v.JArray? ==> |r.value| == |v.items| && forall i :: 0 <= i < |v.items| ==> v.items[i] == JString(r.value[i])
    ensures r.Some? && !v.JArray? ==> v == JObject(map[]) && r.value == []
    ensures v.JArray? && (forall i :: 0 <= i < |v.items| ==> v.items[i].JString?) ==> r.Some?
    ensures v == JObject(map[]) ==> r.Some?
  {
    match v
    case JArray(items) =>
      if forall i | 0 <= i < |items| :: items[i].JString? then
        Some(seq(|items|, i requires 0 <= i < |items| => if items[i].JString? then items[i].s else ""))
      else None
    case JObject(fields) => if fields == map[] then Some([]) else None
    case _ => None
  }

  /** A PHP list literal: indices 0 .. n-1 in order. */
  function ListAsUnsaved(names: seq<string>): map<nat, string> {
    map i: nat | i < |names| :: names[i]
  }

  lemma {:induction false} DenseOfList(names: seq<string>, hi: nat)
    requires hi <= |names|
    ensures Dense(ListAsUnsaved(names), hi) == names[..hi]
    decreases hi
  {
    if hi > 0 {
      DenseOfList(names, hi - 1);
      assert names[..hi] == names[..hi - 1] + [names[hi - 1]];
    }
  }

  /** An object whose unsaved list was assigned from a list is valid exactly
      when that list names no field twice and does not name `id`. */
  lemma ValidOfAssignedList(o: ResourceObject, names: seq<string>)
    requires o.unsaved == ListAsUnsaved(names) && o.nextIndex == |names|
    ensures Valid(o) <==> NoDuplicates(names) && "id" !in names
  {
    var m := o.unsaved;
    if NoDuplicates(names) && "id" !in names {
      forall i, j | i in m && j in m && i != j
        ensures m[i] != m[j]
      {
        if i < j {
          assert names[i] != names[j];
        } else {
          assert names[j] != names[i];
        }
      }
      forall i | i in m
        ensures m[i] != "id"
      {
        assert m[i] == names[i];
      }
    }
    if Valid(o) {
      forall i, j | 0 <= i < j < |names|
        ensures names[i] != names[j]
      {
        assert m[i] == names[i] && m[j] == names[j];
      }
      forall i | 0 <= i < |names|
        ensures names[i] != "id"
      {
        assert m[i] in m.Values;
      }
    }
  }

  /** `offsetSet` assigns `$this->$k`: for a field name that is `__set`;
      for `_endpoint` it replaces the endpoint (its string form is what later
      requests interpolate), for `_values` holding an array it replaces the
      values, and for `_unsaved` holding a list of names it replaces the
      unsaved list. No own property refuses the empty string. */
  function OffsetSet(o: ResourceObject, k: string, v: Json): (r: Result<ResourceObject, Error>)
    ensures !OwnProperty(k) ==> r == Set(o, k, v)
    ensures OwnProperty(k) ==> r.Success? && r.value.client == o.client && r.value.className == o.className
    ensures OwnProperty(k) && k != "_values" ==> r.value.values == o.values
    ensures OwnProperty(k) && k != "_unsaved" ==> r.value.unsaved == o.unsaved && r.value.nextIndex == o.nextIndex
    ensures k == "_endpoint" ==> r.value.endpoint == PhpString(v)
    ensures OwnProperty(k) && k != "_endpoint" ==> r.value.endpoint == o.endpoint
    ensures k == "_values" && AsPhpArray(v).Some? ==> r.value.values == AsPhpArray(v).value
    ensures k == "_unsaved" && NameList(v).Some? ==> UnsavedList(r.value) == NameList(v).value
    ensures k == "_unsaved" && NameList(v).Some? ==> r.value.unsaved == ListAsUnsaved(NameList(v).value) && r.value.nextIndex == |NameList(v).value|
  {
    if !OwnProperty(k) then Set(o, k, v)
    else if k == "_endpoint" then Success(o.(endpoint := PhpString(v)))
    else if k == "_values" && AsPhpArray(v).Some? then Success(o.(values := AsPhpArray(v).value))
    else if k == "_unsaved" && NameList(v).Some? then
      var names := NameList(v).value;
      DenseOfList(names, |names|);
      assert names[..|names|] == names;
      Success(o.(unsaved := ListAsUnsaved(names), nextIndex := |names|))
    else Success(o)
  }

  /** Array-access writes keep an object valid, except that assigning the
      unsaved list directly can list a field twice or list `id`: PHP accepts
      any array there, and the object is valid exactly when the list is
      free of both. */
  lemma OffsetSetKeepsInvariant(o: ResourceObject, k: string, v: Json)
    requires Valid(o) && OffsetSet(o, k, v).Success?
    ensures k != "_unsaved" || NameList(v).None? ==> Valid(OffsetSet(o, k, v).value)
    ensures k == "_unsaved" && NameList(v).Some? ==>
              (Valid(OffsetSet(o, k, v).value) <==> NoDuplicates(NameList(v).value) && "id" !in NameList(v).value)
  {
    if !OwnProperty(k) {
      SetKeepsUnsavedInvariant(o, k, v);
    } else if k == "_unsaved" && NameList(v).Some? {
      ValidOfAssignedList(OffsetSet(o, k, v).value, NameList(v).value);
    }
  }

  /** Assigning `_endpoint` through array access redirects later requests:
      `retrieve` then asks for `<new endpoint>/<id>`. */
  lemma OffsetSetEndpointRedirectsRetrieve(o: ResourceObject, endpoint: string, id: Json, opts: map<string, Json>)
    ensures OffsetSet(o, "_endpoint", JString(endpoint)).Success?
    ensures RetrieveRequest(OffsetSet(o, "_endpoint", JString(endpoint)).value, id, opts).path == endpoint + "/" + PhpString(id)
    ensures OffsetSet(o, "_endpoint", JString(endpoint)).value.values == o.values
  {
  }

  /** Setting keeps the object valid, and on the ordered list it appends
      the field exactly when it is not `id` and not yet listed. */
  lemma SetKeepsUnsavedInvariant(o: ResourceObject, k: string, v: Json)
    requires Valid(o)
    requires Set(o, k, v).Success?
    ensures Valid(Set(o, k, v).value)
    ensures k != "id" && k !in UnsavedList(o) ==> UnsavedList(Set(o, k, v).value) == UnsavedList(o) + [k]
    ensures k == "id" || k in UnsavedList(o) ==> UnsavedList(Set(o, k, v).value) == UnsavedList(o)
  {
    UnsavedListOfValid(o);
    var o' := Set(o, k, v).value;
    if k != "id" && k !in o.unsaved.Values {
      var m' := o.unsaved[o.nextIndex := k];
      DenseFrame(o.unsaved, m', o.nextIndex);
      assert UnsavedList(o') == Dense(m', o.nextIndex) + [k];
    }
  }

  /** After a successful set the field reads back as the value stored, and
      every other field reads as before. */
  lemma ReadAfterSet(o: ResourceObject, k: string, v: Json, j: string)
    requires Set(o, k, v).Success?
    ensures Get(Set(o, k, v).value, k) == Success(v)
    ensures IsSet(Set(o, k, v).value, k) <==> v != JNull
    ensures j != k ==> OffsetGet(Set(o, k, v).value, j) == OffsetGet(o, j)
    ensures j != k ==> IsSet(Set(o, k, v).value, j) == IsSet(o, j)
  {
  }

  // ---------------------------------------------------------------------
  // Removing fields

  /** `__unset`, as written: the value is removed, but because the
      assignment in the dirty-list check binds the comparison's boolean
      result, a listed field causes the entry at index 1 (`true` as an
      array key) to be dropped instead of the field's own entry. */
  function Unset(o: ResourceObject, k: string): (r: ResourceObject)
    ensures r.values.Keys == o.values.Keys - {k}
    ensures forall j | j in r.values :: r.values[j] == o.values[j]
    ensures r.endpoint == o.endpoint && r.className == o.className && r.client == o.client
    ensures r.nextIndex == o.nextIndex && r.unsaved.Keys <= o.unsaved.Keys
    ensures forall i | i in r.unsaved :: r.unsaved[i] == o.unsaved[i]
    ensures k !in o.unsaved.Values ==> r.unsaved == o.unsaved
  {
    var removed := o.(values := o.values - {k});
    if k in o.unsaved.Values then removed.(unsaved := o.unsaved - {1}) else removed
  }

  /** `offsetUnset` unsets `$this->$k`: for a field name that is `__unset`;
      for an own property it removes that property (not represented here)
      and leaves the field values and the unsaved list alone. */
  function OffsetUnset(o: ResourceObject, k: string): (r: ResourceObject)
    ensures !OwnProperty(k) ==> r == Unset(o, k)
    ensures OwnProperty(k) && k != "_values" ==> r.values == o.values
    ensures OwnProperty(k) && k != "_unsaved" ==> r.unsaved == o.unsaved
  {
    if OwnProperty(k) then o else Unset(o, k)
  }

  /** Unsetting keeps the object valid (the list only loses entries). */
  lemma UnsetKeepsInvariant(o: ResourceObject, k: string)
    requires Valid(o)
    ensures Valid(Unset(o, k))
  {
  }

  lemma OffsetUnsetKeepsInvariant(o: ResourceObject, k: string)
    requires Valid(o)
    ensures Valid(OffsetUnset(o, k))
  {
    if !OwnProperty(k) {
      UnsetKeepsInvariant(o, k);
    }
  }

  /** After unsetting, the field no longer exists, reads as null, is not
      set and is not among the keys; every other field reads as before. */
  lemma ReadAfterUnset(o: ResourceObject, k: string, j: string)
    ensures !OffsetExists(Unset(o, k), k) && !IsSet(Unset(o, k), k)
    ensures Get(Unset(o, k), k).Failure? && OffsetGet(Unset(o, k), k) == JNull
    ensures j != k ==> OffsetGet(Unset(o, k), j) == OffsetGet(o, j) && IsSet(Unset(o, k), j) == IsSet(o, j)
  {
  }

  /** The line-88 quirk in general: whenever the unset field is listed at
      index 0 and another field at index 1, the field stays in the unsaved
      list and the other field is dropped from it. */
  /** Whatever its position, unsetting a listed field drops index 1 of the
      unsaved list, so the field stays listed unless it sat at index 1. */
  lemma UnsetAlwaysDropsIndexOne(o: ResourceObject, k: string)
    requires Valid(o) && k in o.unsaved.Values
    ensures Unset(o, k).unsaved == o.unsaved - {1}
    ensures k in UnsavedList(Unset(o, k)) <==> !(1 in o.unsaved && o.unsaved[1] == k)
  {
    var r := Unset(o, k);
    UnsetKeepsInvariant(o, k);
    UnsavedListOfValid(r);
    var i :| i in o.unsaved && o.unsaved[i] == k;
    if i != 1 {
      assert r.unsaved[i] == k;
    }
  }

  lemma UnsetDropsIndexOne(o: ResourceObject, k: string)
    requires Valid(o)
    requires 0 in o.unsaved && o.unsaved[0] == k && 1 in o.unsaved
    ensures k in Unset(o, k).unsaved.Values
    ensures o.unsaved[1] !in Unset(o, k).unsaved.Values
    ensures k in UnsavedList(Unset(o, k))
  {
    var r := Unset(o, k);
    assert r.unsaved[0] == k;
    UnsavedListOfValid(r);
  }

  /** The line-88 quirk on a concrete object: with "amount" and "currency"
      unsaved, unsetting "amount" leaves "amount" in the list and drops
      "currency". */
  lemma UnsetDropsWrongEntry(c: Client)
    ensures var o0 := ResourceObject(c, "Invoiced\\Charge", "charges/123", map["id" := JNum(123)], map[], 0);
            var o1 := Set(o0, "amount", JNum(100)).value;
            var o2 := Set(o1, "currency", JString("usd")).value;
            && UnsavedList(o2) == ["amount", "currency"]
            && UnsavedList(Unset(o2, "amount")) == ["amount"]
  {
    var o0 := ResourceObject(c, "Invoiced\\Charge", "charges/123", map["id" := JNum(123)], map[], 0);
    var o1 := Set(o0, "amount", JNum(100)).value;
    assert "amount" != "id";
    assert o1.unsaved == map[0 := "amount"] && o1.nextIndex == 1;
    assert "currency" !in o1.unsaved.Values;
    var o2 := Set(o1, "currency", JString("usd")).value;
    assert o2.unsaved == map[0 := "amount", 1 := "currency"] && o2.nextIndex == 2;
    assert UnsavedList(o2) == ["amount", "currency"];
    assert o2.unsaved[0] == "amount";
    assert Unset(o2, "amount").unsaved == map[0 := "amount"];
  }

  /** The evident intent of `__unset`: remove the value and the field's own
      entry from the unsaved list, keeping every other entry in place. */
  function UnsetFixed(o: ResourceObject, k: string): (r: ResourceObject)
    ensures r.values.Keys == o.values.Keys - {k}
    ensures forall j | j in r.values :: r.values[j] == o.values[j]
    ensures r.endpoint == o.endpoint && r.className == o.className && r.client == o.client
    ensures r.nextIndex == o.nextIndex
    ensures r.unsaved.Values == o.unsaved.Values - {k}
    ensures forall i | i in o.unsaved && o.unsaved[i] != k :: i in r.unsaved && r.unsaved[i] == o.unsaved[i]
  {
    var kept := map i | i in o.unsaved && o.unsaved[i] != k :: o.unsaved[i];
    assert kept.Values == o.unsaved.Values - {k} by {
      forall x | x in o.unsaved.Values - {k}
        ensures x in kept.Values
      {
        var i :| i in o.unsaved && o.unsaved[i] == x;
        assert kept[i] == x;
      }
    }
    o.(values := o.values - {k}, unsaved := kept)
  }

  /** The corrected unset keeps the object valid and takes the field off the
      ordered list while every other listed field stays, in order. */
  lemma UnsetFixedRemovesFromList(o: ResourceObject, k: string)
    requires Valid(o)
    ensures Valid(UnsetFixed(o, k))
    ensures k !in UnsavedList(UnsetFixed(o, k))
    ensures forall x :: x != k ==> (x in UnsavedList(UnsetFixed(o, k)) <==> x in UnsavedList(o))
  {
    var r := UnsetFixed(o, k);
    UnsavedListOfValid(o);
    UnsavedListOfValid(r);
  }

  // ---------------------------------------------------------------------
  // Keys and serialisation

  /** `keys()`: every field name present, each once. (PHP returns them in
      insertion order; the model fixes no order.) */
  method Keys(o: ResourceObject) returns (ks: seq<string>)
    ensures NoDuplicates(ks)
    ensures forall k :: k in ks <==> OffsetExists(o, k)
    ensures |ks| == |o.values|
  {
    ks := [];
    var rest := o.values.Keys;
    while rest != {}
      invariant rest <= o.values.Keys
      invariant forall k :: k in ks <==> k in o.values && k !in rest
      invariant NoDuplicates(ks)
      invariant |ks| + |rest| == |o.values.Keys|
      decreases rest
    {
      var k :| k in rest;
      ks := ks + [k];
      rest := rest - {k};
    }
    assert |o.values.Keys| == |o.values|;
  }

  /** `__toArray`: the value map; it agrees with the field readers. */
  function ToArray(o: ResourceObject): (r: map<string, Json>)
    ensures forall k :: k in r <==> OffsetExists(o, k)
    ensures forall k | k in r :: r[k] == OffsetGet(o, k) && Get(o, k) == Success(r[k])
  {
    o.values
  }

  /** `jsonSerialize`: the same map `__toArray` gives. */
  function JsonSerialize(o: ResourceObject): (r: map<string, Json>)
    ensures r == ToArray(o)
  {
    ToArray(o)
  }

  // ---------------------------------------------------------------------
  // Retrieval

  /** The PHP array a decoded body is, if it is one: a JSON object's
      members, or a list's items under their decimal indices. */
  function AsPhpArray(body: Json): (r: Option<map<string, Json>>)
    ensures r.Some? <==> body.JObject? || body.JArray?
    ensures body.JObject? ==> r == Some(body.fields)
    ensures body.JArray? ==> r.Some? && |r.value| == |body.items|
    ensures body.JArray? ==> forall i :: 0 <= i < |body.items| ==> IntToString(i) in r.value && r.value[IntToString(i)] == body.items[i]
  {
    match body
    case JObject(fields) => Some(fields)
    case JArray(items) => Some(IndexedItems(items))
    case _ => None
  }

  /** A JSON list as a PHP array: each item under its decimal index. */
  function IndexedItems(items: seq<Json>): (r: map<string, Json>)
    ensures |r| == |items|
    ensures forall i :: 0 <= i < |items| ==> IntToString(i) in r && r[IntToString(i)] == items[i]
  {
    IntToStringInjective();
    var m := map i | 0 <= i < |items| :: IntToString(i) := items[i];
    assert |m| == |items| by {
      assert m.Keys == set i | 0 <= i < |items| :: IntToString(i);
      IndexKeysCount(items);
    }
    m
  }

  lemma {:induction false} IndexKeysCount(items: seq<Json>)
    ensures |set i | 0 <= i < |items| :: IntToString(i)| == |items|
    decreases |items|
  {
    if |items| > 0 {
      var n := |items| - 1;
      IndexKeysCount(items[..n]);
      IntToStringInjective();
      var prefix := set i | 0 <= i < n :: IntToString(i);
      assert (set i | 0 <= i < |items| :: IntToString(i)) == prefix + {IntToString(n)};
      assert IntToString(n) !in prefix;
    }
  }

  /** The request `retrieve` issues: GET on the object's endpoint plus the
      id, with the call's options used as query parameters. */
  function RetrieveRequest(o: ResourceObject, id: Json, opts: map<string, Json>): (r: RequestPlan)
    ensures r.httpMethod == "get" && r.path == o.endpoint + "/" + PhpString(id)
    ensures r.query == opts && r.json == None
    ensures "Idempotency-Key" !in r.headers
  {
    BuildRequest(o.client, "get", o.endpoint + "/" + PhpString(id), opts, map[])
  }

  /** `retrieve($id, $opts)`: a falsy id is refused before any request;
      otherwise GET `<endpoint>/<id>` is issued and a new base-class object
      is built from the id and the response body. */
  function Retrieve(o: ResourceObject, id: Json, opts: map<string, Json>, inf: Inflector,
                    transport: RequestPlan -> TransportOutcome, decode: string -> Option<Json>): (r: Result<ResourceObject, Error>)
    ensures !Truthy(id) ==> r.Failure? && r.error.kind == InvalidArgument && r.error.code == 0
    ensures Truthy(id) ==>
              r == FromResponse(inf, o.client, id, Request(o.client, "get", o.endpoint + "/" + PhpString(id), opts, map[], transport, decode))
  {
    if !Truthy(id) then Failure(LocalError(InvalidArgument, MissingIdMessage))
    else FromResponse(inf, o.client, id, Request(o.client, "get", o.endpoint + "/" + PhpString(id), opts, map[], transport, decode))
  }

  /** What `retrieve` makes of the request's outcome: a failed request's
      error passes through, a body that is not a PHP array is a TypeError,
      and an array body gives a new base-class object holding the body with
      `id` overridden, nothing unsaved, at `<Object root>/<id>`. */
  function FromResponse(inf: Inflector, client: Client, id: Json, response: Result<Envelope, Error>): (r: Result<ResourceObject, Error>)
    ensures response.Failure? ==> r == Failure(response.error)
    ensures response.Success? && AsPhpArray(response.value.body).None? ==> r.Failure? && r.error.kind == TypeError
    ensures response.Success? && AsPhpArray(response.value.body).Some? ==> r.Success?
    ensures response.Success? && AsPhpArray(response.value.body).Some? && id != JNull ==>
              && r.value.values == AsPhpArray(response.value.body).value["id" := id]
              && UnsavedList(r.value) == [] && Valid(r.value)
              && r.value.client == client && r.value.className == BaseClassName
              && r.value.endpoint == EndpointRoot(inf, BaseClassName) + "/" + PhpString(id)
  {
    match response
    case Failure(e) => Failure(e)
    case Success(envelope) =>
      match AsPhpArray(envelope.body)
      case None => Failure(LocalError(TypeError, "Argument 3 passed to Invoiced\\Object::__construct() must be of the type array"))
      case Some(body) => Success(New(inf, client, BaseClassName, id, body))
  }

  /** A falsy id fails the same way whatever the transport would answer: no
      request is made. */
  lemma RetrieveFalsyIdSendsNothing(o: ResourceObject, id: Json, opts: map<string, Json>, inf: Inflector,
                                    t1: RequestPlan -> TransportOutcome, t2: RequestPlan -> TransportOutcome,
                                    decode: string -> Option<Json>)
    requires !Truthy(id)
    ensures Retrieve(o, id, opts, inf, t1, decode) == Retrieve(o, id, opts, inf, t2, decode)
  {
  }

  /** With a truthy id the outcome depends on the transport only through
      its answer to the GET request on `<endpoint>/<id>`. */
  lemma RetrieveDependsOnlyOnItsRequest(o: ResourceObject, id: Json, opts: map<string, Json>, inf: Inflector,
                                        t1: RequestPlan -> TransportOutcome, t2: RequestPlan -> TransportOutcome,
                                        decode: string -> Option<Json>)
    requires Truthy(id)
    requires t1(RetrieveRequest(o, id, opts)) == t2(RetrieveRequest(o, id, opts))
    ensures Retrieve(o, id, opts, inf, t1, decode) == Retrieve(o, id, opts, inf, t2, decode)
  {
  }
}
