/** Tool descriptions offered to the language model
    (backend/src/llm_tools/toolClass.js): a tool property record, the tool
    record built from a name, a description, an object of properties and an
    execute handler, and its function-schema form.  A JavaScript object of
    properties is its sequence of (key, property) entries in key order; a
    handler takes the game state and the parsed arguments and returns the new
    state and its result, or throws. */
module ToolSchema {
  import opened Js
  import opened Seqs

  /** `new llmToolProperty(name, typeName, description, required = true)` */
  datatype Property = Property(name: string, typeName: string, description: string, required: JsValue)

  type Entries = seq<(string, Property)>

  /** `{ type, description }`, the only fields a formatted property keeps. */
  datatype FieldSchema = FieldSchema(typeName: string, description: string)

  datatype Parameters = Parameters(typeName: string, properties: seq<(string, FieldSchema)>,
                                   required: seq<string>, additionalProperties: bool)

  datatype Tool<!S, -A, R> = Tool(name: string, description: string, requiredProperties: seq<string>,
                                parameters: Parameters, execute: (S, A) -> Outcome<(S, R)>)

  /** `{ type: "function", name, description, parameters, strict: true }` */
  datatype FunctionSchema = FunctionSchema(typeName: string, name: string, description: string,
                                           parameters: Parameters, strict: bool)

  /** What `Object.keys(null)` or `Object.keys(undefined)` throws. */
  const NullProperties := "TypeError: Cannot convert undefined or null to object"

  /** The `llmToolProperty` constructor; an omitted `required` reads as true. */
  function NewProperty(name: string, typeName: string, description: string, required: JsValue): (p: Property)
    ensures p.name == name && p.typeName == typeName && p.description == description
    ensures Truthy(p.required) <==> required.Undefined? || Truthy(required)
  {
    Property(name, typeName, description, if required.Undefined? then Bool(true) else required)
  }

  /** `Object.keys(properties)` */
  function Keys<P>(props: seq<(string, P)>): (r: seq<string>)
    ensures |r| == |props| && forall i :: 0 <= i < |props| ==> r[i] == props[i].0
  {
    seq(|props|, i requires 0 <= i < |props| => props[i].0)
  }

  /** An object never holds the same key twice. */
  predicate DistinctKeys<P>(props: seq<(string, P)>) {
    NoDuplicates(Keys(props))
  }

  /** The keys whose property is required, by the truthiness of its `required` field. */
  function RequiredKeys(props: Entries): (r: seq<string>)
    ensures |r| <= |props|
    ensures forall i :: 0 <= i < |props| && Truthy(props[i].1.required) ==> props[i].0 in r
    ensures forall k :: k in r ==> exists i :: 0 <= i < |props| && props[i].0 == k && Truthy(props[i].1.required)
  {
    if |props| == 0 then []
    else
      var rest := RequiredKeys(props[1..]);
      assert forall i :: 1 <= i < |props| ==> props[i] == props[1..][i - 1];
      if Truthy(props[0].1.required) then [props[0].0] + rest else rest
  }

  /** Whether an entry's property is required. */
  function IsRequiredEntry(e: (string, Property)): bool {
    Truthy(e.1.required)
  }

  /** The required keys are the keys of the required entries, one each, in
      key order. */
  lemma {:induction false} RequiredKeysFilter(props: Entries)
    ensures RequiredKeys(props) == Keys(Filter(props, IsRequiredEntry))
  {
    if |props| > 0 {
      RequiredKeysFilter(props[1..]);
      var rest := Filter(props[1..], IsRequiredEntry);
      assert Keys([props[0]] + rest) == [props[0].0] + Keys(rest);
    }
  }

  /** Each property reduced to its type and description, under the same key. */
  function Format(props: Entries): (r: seq<(string, FieldSchema)>)
    ensures Keys(r) == Keys(props)
    ensures forall i :: 0 <= i < |props| ==>
              r[i].1.typeName == props[i].1.typeName && r[i].1.description == props[i].1.description
  {
    seq(|props|, i requires 0 <= i < |props| => (props[i].0, FieldSchema(props[i].1.typeName, props[i].1.description)))
  }

  /** The `llmTool` constructor.  `Object.keys(properties)` runs before the
      `properties || {}` fallback, so null or undefined properties throw. */
  function NewTool<S, A, R>(name: string, description: string, properties: Option<Entries>,
                            execute: (S, A) -> Outcome<(S, R)>): (r: Outcome<Tool<S, A, R>>)
    ensures r.Threw? <==> properties.None?
    ensures r.Threw? ==> r.error == NullProperties
    ensures r.Returned? ==>
              var t := r.value;
              && t.name == name && t.description == description
              && t.parameters.typeName == "object"
              && !t.parameters.additionalProperties
              && t.parameters.required == t.requiredProperties
              && t.requiredProperties == RequiredKeys(properties.value)
              && t.parameters.properties == Format(properties.value)
              && t.execute == execute
  {
    match properties
    case None => Threw(NullProperties)
    case Some(props) =>
      var required := RequiredKeys(props);
      Returned(Tool(name, description, required, Parameters("object", Format(props), required, false), execute))
  }

  /** `call(args)` */
  function Call<S, A, R>(t: Tool<S, A, R>, state: S, args: A): Outcome<(S, R)> {
    t.execute(state, args)
  }

  /** `formatOpenAIReadable()` */
  function FormatOpenAIReadable<S, A, R>(t: Tool<S, A, R>): (r: FunctionSchema)
    ensures r.typeName == "function" && r.strict
    ensures r.name == t.name && r.description == t.description && r.parameters == t.parameters
  {
    FunctionSchema("function", t.name, t.description, t.parameters, true)
  }

  /** With distinct keys, a key is listed as required exactly when its property is required. */
  lemma RequiredExactly(props: Entries, k: nat)
    requires DistinctKeys(props) && k < |props|
    ensures props[k].0 in RequiredKeys(props) <==> Truthy(props[k].1.required)
  {
    if props[k].0 in RequiredKeys(props) {
      var i :| 0 <= i < |props| && props[i].0 == props[k].0 && Truthy(props[i].1.required);
      assert Keys(props)[i] == Keys(props)[k];
    }
  }

  /** Required keys come in key order. */
  lemma {:induction false} RequiredKeysInKeyOrder(props: Entries)
    ensures IsSubsequence(RequiredKeys(props), Keys(props))
  {
    if |props| > 0 {
      RequiredKeysInKeyOrder(props[1..]);
      var rest := RequiredKeys(props[1..]);
      assert Keys(props)[1..] == Keys(props[1..]);
      if Truthy(props[0].1.required) {
        assert RequiredKeys(props)[1..] == rest;
      } else {
        SubsequenceDropHead(rest, Keys(props));
      }
    }
  }

  /** Every required name is one of the schema's property keys, as a strict
      function schema demands. */
  lemma RequiredAreDeclared<S, A, R>(name: string, description: string, props: Entries,
                                     execute: (S, A) -> Outcome<(S, R)>)
    ensures var p := NewTool(name, description, Some(props), execute).value.parameters;
            forall k :: k in p.required ==> k in Keys(p.properties)
  {
    var p := NewTool(name, description, Some(props), execute).value.parameters;
    forall k | k in p.required
      ensures k in Keys(p.properties)
    {
      var i :| 0 <= i < |props| && props[i].0 == k && Truthy(props[i].1.required);
      assert Keys(p.properties)[i] == k;
    }
  }

  /** A property built with the default `required` is listed as required. */
  lemma DefaultIsRequired(key: string, name: string, typeName: string, description: string)
    ensures RequiredKeys([(key, NewProperty(name, typeName, description, Undefined))]) == [key]
  {
    var props := [(key, NewProperty(name, typeName, description, Undefined))];
    assert props[1..] == [];
  }

  /** Calling a built tool runs its handler. */
  lemma CallRunsHandler<S, A, R>(name: string, description: string, props: Entries,
                                 execute: (S, A) -> Outcome<(S, R)>, state: S, args: A)
    ensures Call(NewTool(name, description, Some(props), execute).value, state, args) == execute(state, args)
  {
  }
}
