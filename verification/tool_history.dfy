/**
 The aliases of an accepted request and the declared tools are in bijection, and giving a call of
 the history its alias is undone by giving the alias its name back.
 */
module ToolHistory {
  import opened Wrappers
  import opened ToolAlias

  // ---------------------------------------------------------------- aliases and tools

  /** Every alias is the alias of the tool it stands for. */
  predicate Sound(hash: Hash, t: Table) {
    && t.declarations.Keys == t.identities.Keys
    && forall a :: a in t.identities ==>
      && AliasOf(hash, t.identities[a].namespace, t.identities[a].name) == Success(a)
      && NameOf(t.declarations[a]) == Some(t.identities[a].name)
      && t.declarations[a].supported == Some(t.identities[a].kind)
  }

  predicate SameTool(x: Identity, y: Identity) {
    x.namespace == y.namespace && x.name == y.name
  }

  /** The identity has the tool's name and kind. */
  predicate Stands(identity: Identity, tool: Tool) {
    NameOf(tool) == Some(identity.name) && tool.supported == Some(identity.kind)
  }

  /** The table holds the tool under its alias. */
  predicate Declares(hash: Hash, t: Table, tool: Tool, namespace: Option<string>) {
    && tool.supported.Some? && NameOf(tool).Some?
    && var alias := AliasOf(hash, namespace, NameOf(tool).value);
      && alias.Success? && alias.value in t.identities
      && t.identities[alias.value] == Identity(namespace, NameOf(tool).value, tool.supported.value)
  }

  /** The listed aliases are those of the table, each listed once. */
  predicate Lists(t: Table, flattened: seq<string>) {
    && (forall i, j :: 0 <= i < j < |flattened| ==> flattened[i] != flattened[j])
    && (forall a :: a in flattened ==> a in t.identities)
    && (forall a :: a in t.identities ==> a in flattened)
  }

  /** The second table holds what the first holds. */
  predicate Keeps(t: Table, u: Table) {
    forall a :: a in t.identities ==> a in u.identities && u.identities[a] == t.identities[a]
  }

  /** Every alias of `u` was in `t` or stands for one of the tools in the namespace. */
  predicate Only(t: Table, u: Table, tools: seq<Tool>, namespace: Option<string>) {
    forall a :: a in u.identities ==>
      a in t.identities || (u.identities[a].namespace == namespace && exists tool :: tool in tools && Stands(u.identities[a], tool))
  }

  lemma DeclareKeeps(hash: Hash, built: Built, tool: Tool, namespace: Option<string>, replayed: bool, discovery: bool)
    requires Sound(hash, built.0) && Lists(built.0, built.1)
    requires Declare(hash, built.0, tool, namespace, replayed, discovery).Success?
    ensures var r := Declare(hash, built.0, tool, namespace, replayed, discovery).value;
      && Sound(hash, r.0) && Lists(r.0, built.1 + Listed(r.1)) && Keeps(built.0, r.0)
      && Declares(hash, r.0, tool, namespace) && Only(built.0, r.0, [tool], namespace)
  {
    var r := Declare(hash, built.0, tool, namespace, replayed, discovery).value;
    assert tool in [tool];
    if r.1.None? { assert built.1 + [] == built.1; }
  }

  lemma {:induction false} DeclareAllKeeps(hash: Hash, built: Built, tools: seq<Tool>, namespace: Option<string>, replayed: bool, discovery: bool)
    requires Sound(hash, built.0) && Lists(built.0, built.1)
    requires DeclareAll(hash, built, tools, namespace, replayed, discovery).Success?
    ensures var r := DeclareAll(hash, built, tools, namespace, replayed, discovery).value;
      && Sound(hash, r.0) && Lists(r.0, r.1) && Keeps(built.0, r.0)
      && (forall tool :: tool in tools ==> Declares(hash, r.0, tool, namespace))
      && Only(built.0, r.0, tools, namespace)
    decreases |tools|
  {
    if tools != [] {
      var d := Declare(hash, built.0, tools[0], namespace, replayed, discovery).value;
      var next := (d.0, built.1 + Listed(d.1));
      DeclareKeeps(hash, built, tools[0], namespace, replayed, discovery);
      DeclareAllKeeps(hash, next, tools[1..], namespace, replayed, discovery);
      var r := DeclareAll(hash, built, tools, namespace, replayed, discovery).value;
      assert forall tool :: tool in tools <==> tool == tools[0] || tool in tools[1..];
    }
  }

  /** A tool of one of the entries. */
  predicate AmongEntries(entries: seq<(Entry, bool)>, tool: Tool, namespace: Option<string>) {
    exists i :: 0 <= i < |entries| && tool in ToolsOf(entries[i].0) && NamespaceOf(entries[i].0) == namespace
  }

  /** The identity is that of a tool of one of the entries. */
  ghost predicate FromEntries(entries: seq<(Entry, bool)>, identity: Identity) {
    exists tool :: AmongEntries(entries, tool, identity.namespace) && Stands(identity, tool)
  }

  lemma {:induction false} ConstructKeeps(hash: Hash, built: Built, entries: seq<(Entry, bool)>, discovery: bool)
    requires Sound(hash, built.0) && Lists(built.0, built.1)
    requires Construct(hash, built, entries, discovery).Success?
    ensures var r := Construct(hash, built, entries, discovery).value;
      && Sound(hash, r.0) && Lists(r.0, r.1) && Keeps(built.0, r.0)
      && (forall tool, namespace :: AmongEntries(entries, tool, namespace) ==> Declares(hash, r.0, tool, namespace))
      && (forall a :: a in r.0.identities ==> a in built.0.identities || FromEntries(entries, r.0.identities[a]))
      && (|built.1| <= MAX_TOOLS ==> |r.1| <= MAX_TOOLS)
    decreases |entries|
  {
    if entries != [] {
      var e := entries[0].0;
      var next := DeclareEntry(hash, built, e, entries[0].1, discovery).value;
      var r := Construct(hash, built, entries, discovery).value;
      DeclareAllKeeps(hash, built, ToolsOf(e), NamespaceOf(e), entries[0].1, discovery);
      ConstructKeeps(hash, next, entries[1..], discovery);
      forall tool, namespace | AmongEntries(entries, tool, namespace)
        ensures Declares(hash, r.0, tool, namespace)
      {
        FirstOrRest(entries, tool, namespace);
        if tool in ToolsOf(e) && NamespaceOf(e) == namespace { StillDeclared(hash, next.0, r.0, tool, namespace); }
      }
      forall a | a in r.0.identities && a !in built.0.identities
        ensures FromEntries(entries, r.0.identities[a])
      {
        if a in next.0.identities {
          var tool :| tool in ToolsOf(e) && Stands(next.0.identities[a], tool);
          InFirst(entries, tool);
        } else {
          var tool :| AmongEntries(entries[1..], tool, r.0.identities[a].namespace) && Stands(r.0.identities[a], tool);
          InRest(entries, tool, r.0.identities[a].namespace);
        }
      }
    }
  }

  lemma StillDeclared(hash: Hash, t: Table, u: Table, tool: Tool, namespace: Option<string>)
    requires Declares(hash, t, tool, namespace) && Keeps(t, u)
    ensures Declares(hash, u, tool, namespace)
  {
  }

  lemma FirstOrRest(entries: seq<(Entry, bool)>, tool: Tool, namespace: Option<string>)
    requires entries != [] && AmongEntries(entries, tool, namespace)
    ensures (tool in ToolsOf(entries[0].0) && NamespaceOf(entries[0].0) == namespace) || AmongEntries(entries[1..], tool, namespace)
  {
    var i :| 0 <= i < |entries| && tool in ToolsOf(entries[i].0) && NamespaceOf(entries[i].0) == namespace;
    assert i > 0 ==> entries[1..][i - 1] == entries[i];
  }

  lemma InFirst(entries: seq<(Entry, bool)>, tool: Tool)
    requires entries != [] && tool in ToolsOf(entries[0].0)
    ensures AmongEntries(entries, tool, NamespaceOf(entries[0].0))
  {
  }

  lemma InRest(entries: seq<(Entry, bool)>, tool: Tool, namespace: Option<string>)
    requires entries != [] && AmongEntries(entries[1..], tool, namespace)
    ensures AmongEntries(entries, tool, namespace)
  {
    var i :| 0 <= i < |entries[1..]| && tool in ToolsOf(entries[1..][i].0) && NamespaceOf(entries[1..][i].0) == namespace;
    assert entries[i + 1] == entries[1..][i];
  }

  /** Whenever the tools of a request are accepted, aliases and tools are in bijection: every
      declared tool has its alias in the table, every alias stands for a declared tool, different
      namespaces or names have different aliases, and the flattened list names every alias once. */
  lemma AliasBijection(hash: Hash, entries: seq<(Entry, bool)>, discovery: bool)
    requires Construct(hash, (EMPTY, []), entries, discovery).Success?
    ensures var r := Construct(hash, (EMPTY, []), entries, discovery).value;
      && (forall tool, namespace :: AmongEntries(entries, tool, namespace) ==> Declares(hash, r.0, tool, namespace))
      && (forall a :: a in r.0.identities ==> FromEntries(entries, r.0.identities[a]))
      && (forall a, b :: a in r.0.identities && b in r.0.identities && SameTool(r.0.identities[a], r.0.identities[b]) ==> a == b)
      && Lists(r.0, r.1) && |r.1| <= MAX_TOOLS && Sound(hash, r.0)
  {
    ConstructKeeps(hash, (EMPTY, []), entries, discovery);
  }

  /** The alias as a text does not determine the tool. */
  lemma JoinedNotInjective()
    ensures Joined(Some("a__b"), "c") == Joined(Some("a"), "b__c")
    ensures Joined(None, "hormuz_a__b") == Joined(Some("a"), "b")
  {
    assert Joined(Some("a__b"), "c") == "hormuz_a__b__c";
    assert Joined(Some("a"), "b__c") == "hormuz_a__b__c";
    assert Joined(None, "hormuz_a__b") == "hormuz_a__b" == Joined(Some("a"), "b");
  }

  /** Two tools that share an alias but not their namespace and name are never accepted together. */
  lemma CollisionRefused(hash: Hash, entries: seq<(Entry, bool)>, discovery: bool,
                         a: Tool, n: Option<string>, b: Tool, m: Option<string>)
    requires AmongEntries(entries, a, n) && AmongEntries(entries, b, m)
    requires NameOf(a).Some? && NameOf(b).Some? && AliasOf(hash, n, NameOf(a).value) == AliasOf(hash, m, NameOf(b).value)
    requires n != m || NameOf(a) != NameOf(b)
    ensures Construct(hash, (EMPTY, []), entries, discovery).Failure?
  {
    if Construct(hash, (EMPTY, []), entries, discovery).Success? {
      AliasBijection(hash, entries, discovery);
    }
  }

  // ---------------------------------------------------------------- calls of the history

  /** A JSON value as far as a call needs it. */
  datatype Json = Null | Text(text: string) | Value(id: nat)

  type Object = map<string, Json>

  /** The encoding of a custom call's input as `{"input": …}`, and what its decoding finds. */
  type Encode = string -> string
  type Decode = string -> Option<string>

  function Get(o: Object, key: string): Json {
    if key in o then o[key] else Null
  }

  predicate IsCall(item: Object) {
    Get(item, "type") == Text("function_call") || Get(item, "type") == Text("custom_tool_call")
  }

  predicate IsCustom(item: Object) {
    Get(item, "type") == Text("custom_tool_call")
  }

  /** The call names this tool; an absent namespace and an explicit null are the same here. */
  predicate Names(item: Object, identity: Identity) {
    && Get(item, "name") == Text(identity.name)
    && Get(item, "namespace") == if identity.namespace.None? then Null else Text(identity.namespace.value)
  }

  function AliasesFor(t: Table, item: Object): set<string> {
    set a | a in t.identities && Names(item, t.identities[a])
  }

  function TheOnly(s: set<string>): (x: string)
    requires |s| == 1
    ensures s == {x}
  {
    OneElement(s);
    var x :| x in s;
    x
  }

  lemma OneElement(s: set<string>)
    requires |s| == 1
    ensures exists x :: x in s && s == {x}
    ensures forall x, y :: x in s && y in s ==> x == y
  {
    var x :| x in s;
    assert |s - {x}| == 0;
    assert s == {x};
  }

  /** A call of the history as the model server is to see it. */
  function InputCall(t: Table, encode: Encode, item: Object): Result<Object, Error>
    requires IsCall(item)
  {
    var status := Get(item, "status");
    if status != Null && status != Text("completed") then Failure(IncompleteHistory)
    else
      var aliases := AliasesFor(t, item);
      if |aliases| != 1 then Failure(UndeclaredHistory)
      else
        var renamed := (item - {"namespace"})["name" := Text(TheOnly(aliases))];
        if !IsCustom(item) then Success(renamed)
        else if !Get(item, "input").Text? then Failure(InvalidCustomHistory)
        else
          Success((renamed - {"input"})["type" := Text("function_call")]["arguments" := Text(encode(Get(item, "input").text))])
  }

  /** A completed call of the model server as the client is to see it. What a discovery call's
      arguments become is a parameter. */
  function ItemCall(t: Table, decode: Decode, discover: (Kind, Json) -> Result<Json, Error>, value: Object): Result<Object, Error> {
    if Get(value, "type") != Text("function_call") then Success(value)
    else if !Get(value, "name").Text? then Failure(InvalidProviderName)
    else if Get(value, "name").text !in t.identities then Failure(UndeclaredCall)
    else
      var identity := t.identities[Get(value, "name").text];
      var named := value["name" := Text(identity.name)];
      var result := if identity.namespace.None? then named else named["namespace" := Text(identity.namespace.value)];
      match identity.kind
      case Function => Success(result)
      case Custom =>
        var arguments := Get(value, "arguments");
        var input := if arguments.Text? then decode(arguments.text) else None;
        if input.None? then Failure(InvalidCustomArguments)
        else Success((result - {"arguments"})["type" := Text("custom_tool_call")]["input" := Text(input.value)])
      case _ =>
        var found := discover(identity.kind, Get(value, "arguments"));
        if found.Failure? then Failure(found.error)
        else Success((result - {"name", "namespace"})["type" := Text("tool_search_call")]["execution" := Text("client")]["arguments" := found.value])
  }

  /** An accepted table knows a call by at most one alias: a call of the history is accepted if and
      only if it is complete, its tool is declared, and a custom call has a text as its input. */
  lemma InputDefined(hash: Hash, t: Table, encode: Encode, item: Object)
    requires Sound(hash, t) && IsCall(item)
    ensures InputCall(t, encode, item).Success? <==>
      && (Get(item, "status") == Null || Get(item, "status") == Text("completed"))
      && (exists a :: a in t.identities && Names(item, t.identities[a]))
      && (IsCustom(item) ==> Get(item, "input").Text?)
  {
    var aliases := AliasesFor(t, item);
    if a :| a in t.identities && Names(item, t.identities[a]) {
      assert aliases == {a};
    } else {
      assert aliases == {};
    }
  }

  /** A refused call of the history is named after the first of these: it is not complete, its tool is
      not declared, its input is no text. */
  lemma InputReasons(hash: Hash, t: Table, encode: Encode, item: Object)
    requires Sound(hash, t) && IsCall(item)
    ensures var r := InputCall(t, encode, item);
      var complete := Get(item, "status") == Null || Get(item, "status") == Text("completed");
      var declared := exists a :: a in t.identities && Names(item, t.identities[a]);
      && (r == Failure(IncompleteHistory) <==> !complete)
      && (r == Failure(UndeclaredHistory) <==> complete && !declared)
      && (r == Failure(InvalidCustomHistory) <==> complete && declared && IsCustom(item) && !Get(item, "input").Text?)
  {
    InputDefined(hash, t, encode, item);
    var aliases := AliasesFor(t, item);
    if a :| a in t.identities && Names(item, t.identities[a]) {
      assert aliases == {a};
    } else {
      assert aliases == {};
    }
  }

  /** What the model server sees of a call: its alias in place of its name, no namespace, and for a
      custom call the encoded input as the arguments of a function; all else as it was. */
  lemma InputFields(hash: Hash, t: Table, encode: Encode, item: Object)
    requires Sound(hash, t) && IsCall(item) && InputCall(t, encode, item).Success?
    ensures var r := InputCall(t, encode, item).value;
      && "name" in r && r["name"].Text? && r["name"].text in t.identities && Names(item, t.identities[r["name"].text])
      && "namespace" !in r && Get(r, "type") == Text("function_call")
      && (IsCustom(item) ==> "input" !in r && Get(item, "input").Text? && Get(r, "arguments") == Text(encode(Get(item, "input").text)))
      && forall k :: k !in {"name", "namespace"} && (IsCustom(item) ==> k !in {"type", "input", "arguments"}) ==>
           (k in r <==> k in item) && (k in item ==> r[k] == item[k])
  {
    var aliases := AliasesFor(t, item);
    assert TheOnly(aliases) in aliases;
  }

  /** What the client sees of a call of the model server. Anything but a function call is left alone,
      and one without a declared alias is refused. A function gets its name and namespace back; a
      custom call gets its decoded input too; a discovery call is no longer named. */
  lemma ItemFields(t: Table, decode: Decode, discover: (Kind, Json) -> Result<Json, Error>, value: Object)
    ensures var r := ItemCall(t, decode, discover, value);
      if Get(value, "type") != Text("function_call") then r == Success(value)
      else if !Get(value, "name").Text? then r == Failure(InvalidProviderName)
      else if Get(value, "name").text !in t.identities then r == Failure(UndeclaredCall)
      else
        var identity := t.identities[Get(value, "name").text];
        && (r.Success? && (identity.kind == Function || identity.kind == Custom) ==>
              && Get(r.value, "name") == Text(identity.name)
              && (identity.namespace.Some? ==> Get(r.value, "namespace") == Text(identity.namespace.value)))
        && (identity.kind == Function ==> r.Success?)
        && (identity.kind == Custom ==>
              && (r.Success? <==> Get(value, "arguments").Text? && decode(Get(value, "arguments").text).Some?)
              && (r.Success? ==> Get(r.value, "type") == Text("custom_tool_call") && "arguments" !in r.value
                                 && decode(Get(value, "arguments").text) == Some(Get(r.value, "input").text)))
        && (identity.kind == ToolSearch || identity.kind == WebSearch ==>
              && (r.Success? <==> discover(identity.kind, Get(value, "arguments")).Success?)
              && (r.Success? ==> Get(r.value, "type") == Text("tool_search_call") && Get(r.value, "execution") == Text("client")
                                 && "name" !in r.value && "namespace" !in r.value
                                 && "arguments" in r.value && discover(identity.kind, Get(value, "arguments")) == Success(r.value["arguments"])))
  {
  }

  /** The tool a call of the history names, and whether it was declared as the call says. */
  predicate TypeMatches(t: Table, item: Object) {
    |AliasesFor(t, item)| == 1 && t.identities[TheOnly(AliasesFor(t, item))].kind == if IsCustom(item) then Custom else Function
  }

  /** Giving a call its alias and giving the alias its name back restores the call if and only if
      it has no explicit null namespace and, for a custom call, no arguments of its own. */
  lemma RoundTripExact(hash: Hash, t: Table, encode: Encode, decode: Decode, discover: (Kind, Json) -> Result<Json, Error>, item: Object)
    requires Sound(hash, t) && IsCall(item) && InputCall(t, encode, item).Success? && TypeMatches(t, item)
    requires forall s :: decode(encode(s)) == Some(s)
    ensures var back := ItemCall(t, decode, discover, InputCall(t, encode, item).value);
      && back.Success?
      && (back.value == item <==>
            !("namespace" in item && item["namespace"] == Null) && (IsCustom(item) ==> "arguments" !in item))
  {
    var alias := TheOnly(AliasesFor(t, item));
    assert alias in AliasesFor(t, item);
    var identity := t.identities[alias];
    if IsCustom(item) {
      CustomRoundTrip(t, encode, decode, discover, item, alias);
    } else {
      FunctionRoundTrip(t, encode, decode, discover, item, alias);
    }
  }

  lemma FunctionRoundTrip(t: Table, encode: Encode, decode: Decode, discover: (Kind, Json) -> Result<Json, Error>, item: Object, alias: string)
    requires IsCall(item) && !IsCustom(item) && InputCall(t, encode, item).Success?
    requires alias in t.identities && AliasesFor(t, item) == {alias} && t.identities[alias].kind == Function && Names(item, t.identities[alias])
    ensures var back := ItemCall(t, decode, discover, InputCall(t, encode, item).value);
      back.Success? && (back.value == item <==> !("namespace" in item && item["namespace"] == Null))
  {
    var back := ItemCall(t, decode, discover, InputCall(t, encode, item).value).value;
    assert forall k :: k != "namespace" ==> (k in back <==> k in item) && (k in item ==> back[k] == item[k]);
    assert "namespace" in back <==> t.identities[alias].namespace.Some?;
  }

  lemma CustomRoundTrip(t: Table, encode: Encode, decode: Decode, discover: (Kind, Json) -> Result<Json, Error>, item: Object, alias: string)
    requires IsCall(item) && IsCustom(item) && InputCall(t, encode, item).Success?
    requires alias in t.identities && AliasesFor(t, item) == {alias} && t.identities[alias].kind == Custom && Names(item, t.identities[alias])
    requires forall s :: decode(encode(s)) == Some(s)
    ensures var back := ItemCall(t, decode, discover, InputCall(t, encode, item).value);
      back.Success? && (back.value == item <==> !("namespace" in item && item["namespace"] == Null) && "arguments" !in item)
  {
    var back := ItemCall(t, decode, discover, InputCall(t, encode, item).value).value;
    assert forall k :: k != "namespace" && k != "arguments" ==> (k in back <==> k in item) && (k in item ==> back[k] == item[k]);
    assert "namespace" in back <==> t.identities[alias].namespace.Some?;
    assert "arguments" !in back;
  }
}
