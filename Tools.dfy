/**
 * The tool catalogue of internal/mcp/tools.go: the four memory tools with
 * their JSON input schemas, as constant data.
 */
module Tools {
  import opened Wrappers
  import opened Types

  /** The JSON types a schema property can declare. */
  datatype JsonType = StringType | NumberType | BooleanType | ObjectType

  /** The argument names that occur in the four input schemas. */
  datatype Field =
    | Namespace | Scope | Content | Summary | Importance | SourceAgent | TtlSeconds | Metadata
    | Query | K | IncludeMetadata | TokenBudget | MemoryId | TargetScope | Reason

  /** One property of an input schema: its JSON type, description and allowed values. */
  datatype Prop = Prop(typ: JsonType, description: Option<string>, enumValues: Option<seq<string>>)

  /** `jsonSchema`: always an object schema. */
  datatype Schema = Schema(properties: map<Field, Prop>, required: seq<Field>)

  datatype ToolDefinition = ToolDefinition(name: string, description: string, inputSchema: Schema)

  /** The tools `handleToolCall` knows. */
  datatype Tool = MemoryWrite | MemorySearch | MemoryGetContextPack | MemoryPromote

  function TypeName(t: JsonType): string {
    match t
    case StringType => "string"
    case NumberType => "number"
    case BooleanType => "boolean"
    case ObjectType => "object"
  }

  /** The JSON key of each argument. */
  function FieldName(f: Field): string {
    match f
    case Namespace => "namespace"
    case Scope => "scope"
    case Content => "content"
    case Summary => "summary"
    case Importance => "importance"
    case SourceAgent => "source_agent"
    case TtlSeconds => "ttl_seconds"
    case Metadata => "metadata"
    case Query => "query"
    case K => "k"
    case IncludeMetadata => "include_metadata"
    case TokenBudget => "token_budget"
    case MemoryId => "memory_id"
    case TargetScope => "target_scope"
    case Reason => "reason"
  }

  /** Distinct arguments have distinct JSON keys. */
  lemma FieldNameInjective(a: Field, b: Field)
    ensures FieldName(a) == FieldName(b) ==> a == b
  {
    if FieldName(a) == FieldName(b) {
      assert |FieldName(a)| == |FieldName(b)| && FieldName(a)[0] == FieldName(b)[0];
    }
  }

  function PropString(description: string): Prop {
    Prop(StringType, Some(description), None)
  }

  function PropStringEnum(description: string, values: seq<string>): Prop {
    Prop(StringType, Some(description), Some(values))
  }

  function PropNumber(description: string): Prop {
    Prop(NumberType, Some(description), None)
  }

  function PropBoolean(description: string): Prop {
    Prop(BooleanType, Some(description), None)
  }

  function Name(t: Tool): string {
    match t
    case MemoryWrite => "memory_write"
    case MemorySearch => "memory_search"
    case MemoryGetContextPack => "memory_get_context_pack"
    case MemoryPromote => "memory_promote"
  }

  /** The tool a `tools/call` name selects; any other name is an unknown tool. */
  function Lookup(name: string): (r: Option<Tool>)
    ensures r.Some? ==> Name(r.value) == name
    ensures forall t: Tool :: Name(t) == name ==> r == Some(t)
  {
    if name == "memory_write" then Some(MemoryWrite)
    else if name == "memory_search" then Some(MemorySearch)
    else if name == "memory_get_context_pack" then Some(MemoryGetContextPack)
    else if name == "memory_promote" then Some(MemoryPromote)
    else None
  }

  function Definition(t: Tool): ToolDefinition {
    ToolDefinition(Name(t), Description(t), InputSchema(t))
  }

  function Description(t: Tool): string {
    match t
    case MemoryWrite => "Store a new short-term or long-term memory entry."
    case MemorySearch => "Search memory by lexical relevance + recency + importance."
    case MemoryGetContextPack => "Return a compact, deduplicated context pack under a token budget."
    case MemoryPromote => "Promote a memory entry to long-term memory."
  }

  function InputSchema(t: Tool): Schema {
    match t
    case MemoryWrite =>
      Schema(map[
        Namespace := PropString("Namespace key (e.g. org/repo/branch/task)."),
        Scope := PropStringEnum("Memory scope.", [ScopeShort, ScopeLong]),
        Content := PropString("Primary memory content."),
        Summary := PropString("Optional summary."),
        Importance := PropNumber("Importance 1-5."),
        SourceAgent := PropString("Agent identifier."),
        TtlSeconds := PropNumber("Optional TTL in seconds for short-term memory."),
        Metadata := Prop(ObjectType, None, None)], [Namespace, Content])
    case MemorySearch =>
      Schema(map[
        Namespace := PropString("Namespace key."),
        Query := PropString("Search query."),
        Scope := PropStringEnum("Optional scope filter.", [ScopeShort, ScopeLong]),
        K := PropNumber("Maximum results."),
        IncludeMetadata := PropBoolean("Whether to include metadata in results.")], [Namespace, Query])
    case MemoryGetContextPack =>
      Schema(map[
        Namespace := PropString("Namespace key."),
        Query := PropString("Query for retrieving context."),
        TokenBudget := PropNumber("Maximum estimated tokens."),
        Scope := PropStringEnum("Optional scope filter.", [ScopeShort, ScopeLong]),
        K := PropNumber("Maximum candidate items to evaluate.")], [Namespace, Query, TokenBudget])
    case MemoryPromote =>
      Schema(map[
        MemoryId := PropString("Memory ID to promote."),
        TargetScope := PropStringEnum("Target scope.", [ScopeLong]),
        Reason := PropString("Optional reason for promotion.")], [MemoryId])
  }

  const Catalogue: seq<Tool> := [MemoryWrite, MemorySearch, MemoryGetContextPack, MemoryPromote]

  /** `toolDefinitions`: the definitions `tools/list` returns, in catalogue order. */
  function ToolDefinitions(): (defs: seq<ToolDefinition>)
    ensures |defs| == |Catalogue| && forall i :: 0 <= i < |defs| ==> defs[i] == Definition(Catalogue[i])
  {
    seq(4, i requires 0 <= i < 4 => Definition(Catalogue[i]))
  }

  /** The catalogue lists exactly four tools, in this order, each under its own name. */
  lemma CatalogueNames()
    ensures |ToolDefinitions()| == 4
    ensures ToolDefinitions()[0].name == "memory_write" && ToolDefinitions()[1].name == "memory_search"
    ensures ToolDefinitions()[2].name == "memory_get_context_pack" && ToolDefinitions()[3].name == "memory_promote"
    ensures forall t: Tool :: Definition(t).name == Name(t)
  {
  }

  /** The names `tools/list` advertises are exactly the names `tools/call` dispatches. */
  lemma CatalogueMatchesDispatch(name: string)
    ensures Lookup(name).Some? <==> exists i :: 0 <= i < |ToolDefinitions()| && ToolDefinitions()[i].name == name
  {
    if Lookup(name).Some? {
      var t := Lookup(name).value;
      var i := if t == MemoryWrite then 0 else if t == MemorySearch then 1 else if t == MemoryGetContextPack then 2 else 3;
      assert ToolDefinitions()[i].name == name;
    }
  }

  /** Every schema requires only fields it declares, each once. */
  lemma SchemasWellFormed(t: Tool)
    ensures forall f :: f in InputSchema(t).required ==> f in InputSchema(t).properties
    ensures forall i, j :: 0 <= i < j < |InputSchema(t).required| ==> InputSchema(t).required[i] != InputSchema(t).required[j]
  {
  }

  /** The required fields of each tool. */
  lemma RequiredFields()
    ensures InputSchema(MemoryWrite).required == [Namespace, Content]
    ensures InputSchema(MemorySearch).required == [Namespace, Query]
    ensures InputSchema(MemoryGetContextPack).required == [Namespace, Query, TokenBudget]
    ensures InputSchema(MemoryPromote).required == [MemoryId]
  {
  }

  /** Every scope property allows short and long; a promotion target allows only long. */
  lemma ScopeEnums(t: Tool)
    ensures Scope in InputSchema(t).properties <==> t != MemoryPromote
    ensures Scope in InputSchema(t).properties ==>
      InputSchema(t).properties[Scope] == Prop(StringType, InputSchema(t).properties[Scope].description, Some([ScopeShort, ScopeLong]))
    ensures TargetScope in InputSchema(t).properties <==> t == MemoryPromote
    ensures t == MemoryPromote ==> InputSchema(t).properties[TargetScope].enumValues == Some([ScopeLong])
  {
  }

  // ---------------------------------------------------------------------------
  // The catalogue as the JSON `tools/list` returns

  function PropJson(p: Prop): Json {
    var base := map["type" := JString(TypeName(p.typ))];
    var withDescription := if p.description.Some? then base["description" := JString(p.description.value)] else base;
    JObject(if p.enumValues.Some? then withDescription["enum" := StringsJson(p.enumValues.value)] else withDescription)
  }

  function StringsJson(xs: seq<string>): (j: Json)
    ensures j.JArray? && |j.items| == |xs|
  {
    JArray(seq(|xs|, i requires 0 <= i < |xs| => JString(xs[i])))
  }

  /** `jsonSchema` as JSON: the properties keyed by their argument names. */
  function SchemaJson(s: Schema): Json {
    JObject(map[
      "type" := JString(TypeName(ObjectType)),
      "properties" := JObject(PropertiesJson(s.properties)),
      "required" := StringsJson(seq(|s.required|, i requires 0 <= i < |s.required| => FieldName(s.required[i])))])
  }

  function PropertiesJson(props: map<Field, Prop>): (m: map<string, Json>)
    ensures forall f :: f in props <==> FieldName(f) in m
    ensures forall f :: f in props ==> m[FieldName(f)] == PropJson(props[f])
    ensures forall k :: k in m ==> exists f :: f in props && FieldName(f) == k
  {
    forall a: Field, b: Field {
      FieldNameInjective(a, b);
    }
    map f | f in props :: FieldName(f) := PropJson(props[f])
  }

  function DefinitionJson(d: ToolDefinition): Json {
    JObject(map["name" := JString(d.name), "description" := JString(d.description), "inputSchema" := SchemaJson(d.inputSchema)])
  }

  function DefinitionsJson(defs: seq<ToolDefinition>): (j: Json)
    ensures j.JArray? && |j.items| == |defs|
    ensures forall i :: 0 <= i < |defs| ==> j.items[i] == DefinitionJson(defs[i])
  {
    JArray(seq(|defs|, i requires 0 <= i < |defs| => DefinitionJson(defs[i])))
  }
}
