/** The older tool record (backend/src/llm_handler/toolClass.js).  Its
    property class is the same as the newer one; the tool differs in that the
    required list holds the `.name` of each required property rather than its
    key, the parameters keep the property records unchanged, there is no
    `additionalProperties` field and no function-schema form. */
module LegacyToolSchema {
  import opened Js
  import opened Seqs
  import ToolSchema

  datatype Parameters = Parameters(typeName: string, properties: ToolSchema.Entries, required: seq<string>)

  datatype Tool<!S, -A, R> = Tool(name: string, description: string, requiredProperties: seq<string>,
                                  requiredPropertyNameArray: seq<string>, parameters: Parameters,
                                  execute: (S, A) -> Outcome<(S, R)>)

  /** `requiredProperties.map(property => properties[property].name)`: the
      `.name` of each required property, in key order. */
  function RequiredNames(props: ToolSchema.Entries): (r: seq<string>)
    ensures forall i :: 0 <= i < |props| && Truthy(props[i].1.required) ==> props[i].1.name in r
    ensures forall n :: n in r ==> exists i :: 0 <= i < |props| && props[i].1.name == n && Truthy(props[i].1.required)
  {
    if |props| == 0 then []
    else
      var rest := RequiredNames(props[1..]);
      assert forall i :: 1 <= i < |props| ==> props[i] == props[1..][i - 1];
      if Truthy(props[0].1.required) then [props[0].1.name] + rest else rest
  }

  /** The `.name` of every entry's property, in key order. */
  function Names(props: ToolSchema.Entries): (r: seq<string>)
    ensures |r| == |props| && forall i :: 0 <= i < |props| ==> r[i] == props[i].1.name
  {
    seq(|props|, i requires 0 <= i < |props| => props[i].1.name)
  }

  /** The required names are the names of the required entries, one each, in
      key order: position by position they belong to the same entries as
      the newer tool's required keys. */
  lemma {:induction false} RequiredNamesFilter(props: ToolSchema.Entries)
    ensures RequiredNames(props) == Names(Filter(props, ToolSchema.IsRequiredEntry))
  {
    if |props| > 0 {
      RequiredNamesFilter(props[1..]);
      var rest := Filter(props[1..], ToolSchema.IsRequiredEntry);
      if ToolSchema.IsRequiredEntry(props[0]) {
        assert Filter(props, ToolSchema.IsRequiredEntry) == [props[0]] + rest;
        assert Names([props[0]] + rest) == [props[0].1.name] + Names(rest);
      } else {
        assert Filter(props, ToolSchema.IsRequiredEntry) == rest;
      }
    }
  }

  /** One name per required key. */
  lemma {:induction false} NamesMatchKeysInNumber(props: ToolSchema.Entries)
    ensures |RequiredNames(props)| == |ToolSchema.RequiredKeys(props)|
  {
    if |props| > 0 {
      NamesMatchKeysInNumber(props[1..]);
    }
  }

  /** The older `llmTool` constructor; null or undefined properties throw in `Object.keys`. */
  function NewTool<S, A, R>(name: string, description: string, properties: Option<ToolSchema.Entries>,
                            execute: (S, A) -> Outcome<(S, R)>): (r: Outcome<Tool<S, A, R>>)
    ensures r.Threw? <==> properties.None?
    ensures r.Threw? ==> r.error == ToolSchema.NullProperties
    ensures r.Returned? ==>
              var t := r.value;
              && t.name == name && t.description == description
              && t.parameters.typeName == "object"
              && t.parameters.properties == properties.value
              && t.parameters.required == t.requiredPropertyNameArray
              && t.requiredProperties == ToolSchema.RequiredKeys(properties.value)
              && t.requiredPropertyNameArray == RequiredNames(properties.value)
              && |t.requiredPropertyNameArray| == |t.requiredProperties|
              && t.execute == execute
  {
    match properties
    case None => Threw(ToolSchema.NullProperties)
    case Some(props) =>
      var keys := ToolSchema.RequiredKeys(props);
      var names := RequiredNames(props);
      NamesMatchKeysInNumber(props);
      Returned(Tool(name, description, keys, names, Parameters("object", props, names), execute))
  }

  /** `call(...args)` */
  function Call<S, A, R>(t: Tool<S, A, R>, state: S, args: A): Outcome<(S, R)> {
    t.execute(state, args)
  }

  /** When every property is named after its key, the older tool declares the
      same required list as the newer one, and the newer schema's properties
      are the older ones reduced to type and description. */
  lemma {:induction false} AgreesWhenNamedByKey(props: ToolSchema.Entries)
    requires forall i :: 0 <= i < |props| ==> props[i].1.name == props[i].0
    ensures RequiredNames(props) == ToolSchema.RequiredKeys(props)
  {
    if |props| > 0 {
      AgreesWhenNamedByKey(props[1..]);
    }
  }

  /** Both constructors agree on everything but the property records when
      each property is named after its key. */
  lemma VariantsAgree<S, A, R>(name: string, description: string, props: ToolSchema.Entries,
                               execute: (S, A) -> Outcome<(S, R)>)
    requires forall i :: 0 <= i < |props| ==> props[i].1.name == props[i].0
    ensures var older := NewTool(name, description, Some(props), execute).value;
            var newer := ToolSchema.NewTool(name, description, Some(props), execute).value;
            && older.parameters.required == newer.parameters.required
            && newer.parameters.properties == ToolSchema.Format(older.parameters.properties)
  {
    AgreesWhenNamedByKey(props);
  }

  /** A property whose name differs from its key puts a name in `required`
      that is not among the schema's keys. */
  lemma NameOtherThanKey()
    ensures var props := [("count", ToolSchema.NewProperty("amount", "number", "How many", Undefined))];
            var p := NewTool("t", "d", Some(props), (s: int, a: int) => Returned((s, a))).value.parameters;
            && p.required == ["amount"]
            && "amount" !in ToolSchema.Keys(p.properties)
  {
    var props := [("count", ToolSchema.NewProperty("amount", "number", "How many", Undefined))];
    assert props[1..] == [];
  }
}
