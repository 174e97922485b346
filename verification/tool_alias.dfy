/**
 The reversible tool transport: tools in namespaces get flat aliases the model server can use, and
 the calls that come back under an alias are given their namespace and name again.

 The hexadecimal SHA-256 digest of a text and the JSON encoding of a custom call's input are
 parameters. A JSON object is a map; values other than null and text are kept apart by a number.
 */
module ToolAlias {
  import opened Wrappers

  // ---------------------------------------------------------------- tools

  datatype Kind = Function | Custom | ToolSearch | WebSearch

  /** A declared tool. `supported` is its type, if it is one of the four; `form` says whether the
      rest of the declaration has the shape its type demands; `content` is everything else. */
  datatype Tool = Tool(supported: Option<Kind>, name: Option<string>, form: bool, content: nat)

  /** An entry of a tool list. */
  datatype Entry = Single(tool: Tool) | Namespace(name: string, wellFormed: bool, tools: seq<Tool>)

  datatype Identity = Identity(namespace: Option<string>, name: string, kind: Kind)

  datatype Error =
    | InvalidNamespace | TooManyTools | UnsupportedTool | InvalidToolName | AmbiguousToolName
    | InvalidForm | IncompleteHistory | UndeclaredHistory | InvalidCustomHistory
    | InvalidProviderName | UndeclaredCall | InvalidCustomArguments

  const MAX_TOOLS: nat := 1024

  /** The digest of a text, 64 hexadecimal digits. */
  type Hash = string -> string

  // ---------------------------------------------------------------- aliases

  predicate AliasChar(c: char) {
    '0' <= c <= '9' || 'A' <= c <= 'Z' || 'a' <= c <= 'z' || c == '_' || c == '-'
  }

  predicate IsName(s: string, limit: nat) {
    1 <= |s| <= limit && forall i :: 0 <= i < |s| ==> AliasChar(s[i])
  }

  /** The alias as a text, before its length and characters are looked at. */
  function Joined(namespace: Option<string>, name: string): string {
    if namespace.None? then name else "hormuz_" + namespace.value + "__" + name
  }

  function First32(s: string): string {
    if |s| < 32 then s else s[..32]
  }

  function AliasOf(hash: Hash, namespace: Option<string>, name: string): Result<string, Error> {
    var alias := Joined(namespace, name);
    if IsName(alias, 64) then Success(alias)
    else if namespace.None? then Failure(InvalidToolName)
    else Success("hormuz_h_" + First32(hash(namespace.value + "\0" + name)))
  }

  function NameOf(tool: Tool): Option<string> {
    if tool.supported == Some(ToolSearch) then Some("tool_search")
    else if tool.supported == Some(WebSearch) then Some("hormuz_web_search")
    else tool.name
  }

  // ---------------------------------------------------------------- declaring tools

  datatype Table = Table(identities: map<string, Identity>, declarations: map<string, Tool>)

  const EMPTY := Table(map[], map[])

  /** May a tool of this kind stand in this namespace, and does its declaration have its form? */
  predicate Allowed(tool: Tool, namespace: Option<string>, discovery: bool) {
    && tool.form
    && (tool.supported == Some(ToolSearch) ==> namespace.None?)
    && (tool.supported == Some(WebSearch) ==> namespace.None? && discovery)
  }

  /** One declaration: the table after it, and the alias if the tool is new. */
  function Declare(hash: Hash, t: Table, tool: Tool, namespace: Option<string>, replayed: bool, discovery: bool)
    : Result<(Table, Option<string>), Error>
  {
    var name := NameOf(tool);
    if tool.supported.None? then Failure(UnsupportedTool)
    else if name.None? || !(1 <= |name.value| <= 256) then Failure(InvalidToolName)
    else
      var alias := AliasOf(hash, namespace, name.value);
      var identity := Identity(namespace, name.value, tool.supported.value);
      if alias.Failure? then Failure(alias.error)
      else if alias.value in t.identities then
        if replayed && t.identities[alias.value] == identity && alias.value in t.declarations && t.declarations[alias.value] == tool
        then Success((t, None)) else Failure(AmbiguousToolName)
      else if !Allowed(tool, namespace, discovery) then Failure(InvalidForm)
      else
        Success((Table(t.identities[alias.value := identity], t.declarations[alias.value := tool]), Some(alias.value)))
  }

  function Listed(alias: Option<string>): seq<string> {
    if alias.None? then [] else [alias.value]
  }

  /** The table, and the aliases of the tools flattened so far. */
  type Built = (Table, seq<string>)

  function DeclareAll(hash: Hash, built: Built, tools: seq<Tool>, namespace: Option<string>, replayed: bool, discovery: bool)
    : Result<Built, Error>
    decreases |tools|
  {
    if tools == [] then Success(built)
    else
      var r := Declare(hash, built.0, tools[0], namespace, replayed, discovery);
      if r.Failure? then Failure(r.error)
      else DeclareAll(hash, (r.value.0, built.1 + Listed(r.value.1)), tools[1..], namespace, replayed, discovery)
  }

  function ToolsOf(e: Entry): seq<Tool> {
    if e.Single? then [e.tool] else e.tools
  }

  function NamespaceOf(e: Entry): Option<string> {
    if e.Single? then None else Some(e.name)
  }

  predicate EntryOk(e: Entry) {
    e.Namespace? ==> e.wellFormed && IsName(e.name, 256) && e.tools != []
  }

  function DeclareEntry(hash: Hash, built: Built, e: Entry, replayed: bool, discovery: bool): Result<Built, Error> {
    if !EntryOk(e) then Failure(InvalidNamespace)
    else
      var r := DeclareAll(hash, built, ToolsOf(e), NamespaceOf(e), replayed, discovery);
      if r.Success? && |r.value.1| > MAX_TOOLS then Failure(TooManyTools) else r
  }

  /** The entries in order, each marked as replayed from the history or not. */
  function Construct(hash: Hash, built: Built, entries: seq<(Entry, bool)>, discovery: bool): Result<Built, Error>
    decreases |entries|
  {
    if entries == [] then Success(built)
    else
      var r := DeclareEntry(hash, built, entries[0].0, entries[0].1, discovery);
      if r.Failure? then r else Construct(hash, r.value, entries[1..], discovery)
  }

  class ToolTable {
    const hash: Hash
    var identities: map<string, Identity>
    var declarations: map<string, Tool>

    constructor (hash: Hash)
      ensures this.hash == hash && Value() == EMPTY
    {
      this.hash := hash;
      identities, declarations := map[], map[];
    }

    function Value(): Table
      reads this
    {
      Table(identities, declarations)
    }

    /** Declare one tool; on failure the construction as a whole is abandoned. */
    method DeclareTool(tool: Tool, namespace: Option<string>, replayed: bool, discovery: bool)
      returns (r: Result<Option<string>, Error>)
      modifies this
      ensures match Declare(hash, old(Value()), tool, namespace, replayed, discovery)
        case Success((t, added)) => r == Success(added) && Value() == t
        case Failure(error) => r == Failure(error)
    {
      var name := NameOf(tool);
      if tool.supported.None? {
        return Failure(UnsupportedTool);
      }
      if name.None? || !(1 <= |name.value| <= 256) {
        return Failure(InvalidToolName);
      }
      var alias := AliasOf(hash, namespace, name.value);
      if alias.Failure? {
        return Failure(alias.error);
      }
      var identity := Identity(namespace, name.value, tool.supported.value);
      if alias.value in identities {
        if replayed && identities[alias.value] == identity && alias.value in declarations && declarations[alias.value] == tool {
          return Success(None);
        }
        return Failure(AmbiguousToolName);
      }
      identities := identities[alias.value := identity];
      declarations := declarations[alias.value := tool];
      if !Allowed(tool, namespace, discovery) {
        return Failure(InvalidForm);
      }
      return Success(Some(alias.value));
    }

    /** Declare the tools of one entry in order. */
    method DeclareTools(start: seq<string>, tools: seq<Tool>, namespace: Option<string>, replayed: bool, discovery: bool)
      returns (r: Result<seq<string>, Error>)
      modifies this
      ensures match DeclareAll(hash, (old(Value()), start), tools, namespace, replayed, discovery)
        case Success((t, flattened)) => r == Success(flattened) && Value() == t
        case Failure(error) => r == Failure(error)
    {
      var flattened := start;
      ghost var whole := DeclareAll(hash, (Value(), start), tools, namespace, replayed, discovery);
      for j := 0 to |tools|
        invariant whole == DeclareAll(hash, (Value(), flattened), tools[j..], namespace, replayed, discovery)
      {
        assert tools[j..][1..] == tools[j + 1..];
        var converted := DeclareTool(tools[j], namespace, replayed, discovery);
        if converted.Failure? {
          return Failure(converted.error);
        }
        flattened := flattened + Listed(converted.value);
      }
      return Success(flattened);
    }

    method DeclareNext(start: seq<string>, e: Entry, replayed: bool, discovery: bool) returns (r: Result<seq<string>, Error>)
      modifies this
      ensures match DeclareEntry(hash, (old(Value()), start), e, replayed, discovery)
        case Success((t, flattened)) => r == Success(flattened) && Value() == t
        case Failure(error) => r == Failure(error)
    {
      if !EntryOk(e) {
        return Failure(InvalidNamespace);
      }
      r := DeclareTools(start, ToolsOf(e), NamespaceOf(e), replayed, discovery);
      if r.Success? && |r.value| > MAX_TOOLS {
        return Failure(TooManyTools);
      }
    }

    /** Declare the tools of a request and then those replayed from its history. */
    method DeclareEntries(entries: seq<(Entry, bool)>, discovery: bool) returns (r: Result<seq<string>, Error>)
      modifies this
      ensures match Construct(hash, (old(Value()), []), entries, discovery)
        case Success((t, flattened)) => r == Success(flattened) && Value() == t
        case Failure(error) => r == Failure(error)
    {
      var flattened: seq<string> := [];
      ghost var whole := Construct(hash, (Value(), []), entries, discovery);
      for i := 0 to |entries|
        invariant whole == Construct(hash, (Value(), flattened), entries[i..], discovery)
      {
        assert entries[i..][1..] == entries[i + 1..];
        var converted := DeclareNext(flattened, entries[i].0, entries[i].1, discovery);
        if converted.Failure? {
          return Failure(converted.error);
        }
        flattened := converted.value;
      }
      return Success(flattened);
    }
  }
}
