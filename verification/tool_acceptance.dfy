/**
 Which tool lists are accepted, stated over the tools in the order they are declared: the first
 tool under an alias has to have its form, and any later one has to be the same tool replayed from
 the history.
 */
module ToolAcceptance {
  import opened Wrappers
  import opened ToolAlias

  // ---------------------------------------------------------------- aliases

  /** A letter, digit, underscore or hyphen. */
  predicate IsLetter(c: char) {
    48 <= c as int <= 57 || 65 <= c as int <= 90 || 97 <= c as int <= 122 || c as int == 95 || c as int == 45
  }

  /** Between one and `limit` such characters. */
  predicate IsText(s: string, limit: nat) {
    1 <= |s| <= limit && forall i :: 0 <= i < |s| ==> IsLetter(s[i])
  }

  lemma NamesAreTexts(s: string, limit: nat)
    ensures IsName(s, limit) <==> IsText(s, limit)
  {
    assert forall c :: AliasChar(c) <==> IsLetter(c);
  }

  /** A plain tool keeps its name, if that can be an alias. A tool in a namespace always has one: the
      joined text if that can be an alias, and else one made of the digest. */
  lemma AliasExact(hash: Hash, namespace: Option<string>, name: string)
    requires namespace.Some? ==> |hash(namespace.value + "\0" + name)| >= 32 && IsText(hash(namespace.value + "\0" + name)[..32], 32)
    ensures namespace.None? ==>
      AliasOf(hash, namespace, name) == if IsText(name, 64) then Success(name) else Failure(InvalidToolName)
    ensures namespace.Some? ==>
      var alias := AliasOf(hash, namespace, name); var joined := "hormuz_" + namespace.value + "__" + name;
      && alias.Success? && IsText(alias.value, 64)
      && (alias.value == joined <==> IsText(joined, 64))
      && (alias.value != joined ==>
            |alias.value| == 41 && alias.value[..9] == "hormuz_h_" && alias.value[9..] == hash(namespace.value + "\0" + name)[..32])
  {
    if namespace.None? {
      NamesAreTexts(name, 64);
    } else {
      NamesAreTexts("hormuz_" + namespace.value + "__" + name, 64);
      HashedIsText("hormuz_h_", hash(namespace.value + "\0" + name)[..32]);
    }
  }

  lemma HashedIsText(start: string, digest: string)
    requires start == "hormuz_h_" && IsText(digest, 32) && |digest| == 32
    ensures var hashed := start + digest; |hashed| == 41 && hashed[..9] == start && hashed[9..] == digest && IsText(hashed, 64)
  {
    var hashed := start + digest;
    assert hashed[9..] == digest && hashed[..9] == start;
    assert forall i :: 0 <= i < 9 ==> IsLetter(start[i]);
    assert forall i :: 0 <= i < |hashed| ==> hashed[i] == if i < 9 then start[i] else digest[i - 9];
  }

  // ---------------------------------------------------------------- declarations in order

  /** A tool as it is declared: in a namespace or not, by the request or replayed from its history. */
  datatype Declaration = Declaration(tool: Tool, namespace: Option<string>, replayed: bool)

  function Each(tools: seq<Tool>, namespace: Option<string>, replayed: bool): (ds: seq<Declaration>)
    ensures |ds| == |tools| && forall i :: 0 <= i < |ds| ==> ds[i] == Declaration(tools[i], namespace, replayed)
  {
    seq(|tools|, i requires 0 <= i < |tools| => Declaration(tools[i], namespace, replayed))
  }

  function Declarations(entries: seq<(Entry, bool)>): seq<Declaration> {
    if entries == [] then []
    else Each(ToolsOf(entries[0].0), NamespaceOf(entries[0].0), entries[0].1) + Declarations(entries[1..])
  }

  /** The tool's type is supported, it has a name of at most 256 characters, and an alias. */
  predicate WellNamed(hash: Hash, d: Declaration) {
    && d.tool.supported.Some? && NameOf(d.tool).Some? && 1 <= |NameOf(d.tool).value| <= 256
    && AliasOf(hash, d.namespace, NameOf(d.tool).value).Success?
  }

  function AliasFor(hash: Hash, d: Declaration): Option<string> {
    if WellNamed(hash, d) then Some(AliasOf(hash, d.namespace, NameOf(d.tool).value).value) else None
  }

  function AliasList(hash: Hash, ds: seq<Declaration>): (al: seq<Option<string>>)
    ensures |al| == |ds| && forall i :: 0 <= i < |ds| ==> al[i] == AliasFor(hash, ds[i])
  {
    seq(|ds|, i requires 0 <= i < |ds| => AliasFor(hash, ds[i]))
  }

  /** No earlier declaration has the alias. */
  predicate IsFirst(al: seq<Option<string>>, j: nat)
    requires j < |al|
  {
    forall i :: 0 <= i < j ==> al[i] != al[j]
  }

  /** The first declaration under the alias was of the same tool in the same namespace. */
  predicate Repeats(al: seq<Option<string>>, ds: seq<Declaration>, j: nat)
    requires j < |al| == |ds|
  {
    exists i: nat :: i < j && al[i] == al[j] && IsFirst(al, i) && ds[i].tool == ds[j].tool && ds[i].namespace == ds[j].namespace
  }

  /** The declaration has the form its type demands; searches stand outside of namespaces, and a web
      search only beside a client that discovers tools. */
  predicate HasForm(d: Declaration, discovery: bool) {
    && d.tool.form
    && (d.tool.supported == Some(ToolSearch) || d.tool.supported == Some(WebSearch) ==> d.namespace.None?)
    && (d.tool.supported == Some(WebSearch) ==> discovery)
  }

  predicate Acceptable(al: seq<Option<string>>, ds: seq<Declaration>, j: nat, discovery: bool)
    requires j < |al| == |ds|
  {
    al[j].Some? && if IsFirst(al, j) then HasForm(ds[j], discovery) else ds[j].replayed && Repeats(al, ds, j)
  }

  /** The aliases of the first `n` declarations, each where it first stands. */
  function Flattened(al: seq<Option<string>>, n: nat): seq<string>
    requires n <= |al|
  {
    if n == 0 then []
    else Flattened(al, n - 1) + if IsFirst(al, n - 1) && al[n - 1].Some? then [al[n - 1].value] else []
  }

  // ---------------------------------------------------------------- one declaration after another

  /** The table holds the declaration under the alias. */
  predicate Stands(d: Declaration, a: string, t: Table) {
    && NameOf(d.tool).Some? && d.tool.supported.Some?
    && a in t.identities && t.identities[a] == Identity(d.namespace, NameOf(d.tool).value, d.tool.supported.value)
    && a in t.declarations && t.declarations[a] == d.tool
  }

  /** The aliases of the first `n` declarations. */
  function AliasSet(al: seq<Option<string>>, n: nat): set<string>
    requires n <= |al|
  {
    if n == 0 then {} else AliasSet(al, n - 1) + if al[n - 1].Some? then {al[n - 1].value} else {}
  }

  lemma {:induction false} InAliasSet(al: seq<Option<string>>, n: nat, a: string)
    requires n <= |al|
    ensures a in AliasSet(al, n) <==> exists i: nat :: i < n && al[i] == Some(a)
    decreases n
  {
    if n > 0 {
      InAliasSet(al, n - 1, a);
      if i: nat :| i < n && al[i] == Some(a) {
        assert i < n - 1 || i == n - 1;
      }
    }
  }

  /** The table has the aliases of the first `n` declarations, and under each the first of them. */
  predicate Holds(al: seq<Option<string>>, ds: seq<Declaration>, n: nat, t: Table)
    requires n <= |al| == |ds|
  {
    && t.identities.Keys == AliasSet(al, n)
    && (forall i: nat :: i < n ==> al[i].Some?)
    && (forall i: nat :: i < n && IsFirst(al, i) ==> Stands(ds[i], al[i].value, t))
  }

  lemma {:induction false} FirstExists(al: seq<Option<string>>, j: nat) returns (i: nat)
    requires j < |al|
    ensures i <= j && IsFirst(al, i) && al[i] == al[j] && (!IsFirst(al, j) ==> i < j)
    decreases j
  {
    i := j;
    if k: nat :| k < j && al[k] == al[j] {
      i := FirstExists(al, k);
    }
  }

  function Next(hash: Hash, t: Table, d: Declaration, discovery: bool): Result<(Table, Option<string>), Error> {
    Declare(hash, t, d.tool, d.namespace, d.replayed, discovery)
  }

  /** What one declaration does to a table, by its alias. */
  predicate Declared(t: Table, d: Declaration, alias: Option<string>, discovery: bool, r: Result<(Table, Option<string>), Error>) {
    if alias.None? then r.Failure?
    else if alias.value in t.identities then
      && (r.Success? <==> d.replayed && Stands(d, alias.value, t)) && (r.Success? ==> r.value == (t, None))
    else
      && (r.Success? <==> HasForm(d, discovery)) && NameOf(d.tool).Some? && d.tool.supported.Some?
      && (r.Success? ==>
            r.value == (Table(t.identities[alias.value := Identity(d.namespace, NameOf(d.tool).value, d.tool.supported.value)],
                              t.declarations[alias.value := d.tool]), alias))
  }

  lemma NextDeclares(hash: Hash, t: Table, d: Declaration, discovery: bool)
    ensures Declared(t, d, AliasFor(hash, d), discovery, Next(hash, t, d, discovery))
  {
  }

  lemma StandsOnce(d: Declaration, e: Declaration, a: string, t: Table)
    requires Stands(d, a, t)
    ensures Stands(e, a, t) <==> d.tool == e.tool && d.namespace == e.namespace
  {
  }

  lemma RepeatsFirst(al: seq<Option<string>>, ds: seq<Declaration>, i: nat, n: nat)
    requires i < n < |al| == |ds| && IsFirst(al, i) && al[i] == al[n]
    ensures Repeats(al, ds, n) <==> ds[i].tool == ds[n].tool && ds[i].namespace == ds[n].namespace
  {
    if Repeats(al, ds, n) {
      var k: nat :| k < n && al[k] == al[n] && IsFirst(al, k) && ds[k].tool == ds[n].tool && ds[k].namespace == ds[n].namespace;
      assert i == k;
    }
  }

  /** A declaration under an alias already in the table. */
  lemma KnownAlias(al: seq<Option<string>>, ds: seq<Declaration>, n: nat, t: Table, discovery: bool, r: Result<(Table, Option<string>), Error>)
    requires n < |al| == |ds| && Holds(al, ds, n, t) && al[n].Some? && !IsFirst(al, n)
    requires Declared(t, ds[n], al[n], discovery, r)
    ensures r.Success? <==> Acceptable(al, ds, n, discovery)
    ensures r.Success? ==> r.value == (t, None)
  {
    var i := FirstExists(al, n);
    RepeatsFirst(al, ds, i, n);
    StandsOnce(ds[i], ds[n], al[n].value, t);
    InAliasSet(al, n, al[n].value);
  }

  lemma KnownHolds(al: seq<Option<string>>, ds: seq<Declaration>, n: nat, t: Table)
    requires n < |al| == |ds| && Holds(al, ds, n, t) && al[n].Some? && !IsFirst(al, n)
    ensures Holds(al, ds, n + 1, t)
  {
    var i := FirstExists(al, n);
    InAliasSet(al, n, al[n].value);
  }

  /** A declaration under a new alias. */
  lemma NewAlias(al: seq<Option<string>>, ds: seq<Declaration>, n: nat, t: Table, discovery: bool, r: Result<(Table, Option<string>), Error>)
    requires n < |al| == |ds| && Holds(al, ds, n, t) && al[n].Some? && IsFirst(al, n)
    requires Declared(t, ds[n], al[n], discovery, r)
    ensures r.Success? <==> Acceptable(al, ds, n, discovery)
    ensures r.Success? ==> r.value.1 == al[n] && Holds(al, ds, n + 1, r.value.0)
  {
    InAliasSet(al, n, al[n].value);
    if r.Success? {
      NewHolds(al, ds, n, t, r.value.0);
    }
  }

  lemma NewHolds(al: seq<Option<string>>, ds: seq<Declaration>, n: nat, t: Table, u: Table)
    requires n < |al| == |ds| && Holds(al, ds, n, t) && al[n].Some? && IsFirst(al, n)
    requires NameOf(ds[n].tool).Some? && ds[n].tool.supported.Some?
    requires u == Table(t.identities[al[n].value := Identity(ds[n].namespace, NameOf(ds[n].tool).value, ds[n].tool.supported.value)],
                        t.declarations[al[n].value := ds[n].tool])
    ensures Holds(al, ds, n + 1, u)
  {
    forall i: nat | i < n + 1 && IsFirst(al, i)
      ensures Stands(ds[i], al[i].value, u)
    {
      if i < n { assert Stands(ds[i], al[i].value, t) && al[i] != al[n]; }
    }
  }

  /** Declaring the declarations one after another. */
  function DeclareEach(hash: Hash, built: Built, ds: seq<Declaration>, discovery: bool): Result<Built, Error>
    decreases |ds|
  {
    if ds == [] then Success(built)
    else
      var r := Next(hash, built.0, ds[0], discovery);
      if r.Failure? then Failure(r.error)
      else DeclareEach(hash, (r.value.0, built.1 + Listed(r.value.1)), ds[1..], discovery)
  }

  lemma OneDeclared(al: seq<Option<string>>, ds: seq<Declaration>, n: nat, built: Built, discovery: bool,
                    r: Result<(Table, Option<string>), Error>)
    requires n < |al| == |ds| && Holds(al, ds, n, built.0) && built.1 == Flattened(al, n)
    requires Declared(built.0, ds[n], al[n], discovery, r)
    ensures r.Success? <==> Acceptable(al, ds, n, discovery)
    ensures r.Success? ==> Holds(al, ds, n + 1, r.value.0) && built.1 + Listed(r.value.1) == Flattened(al, n + 1)
  {
    if al[n].Some? {
      if IsFirst(al, n) {
        NewAlias(al, ds, n, built.0, discovery, r);
      } else {
        KnownAlias(al, ds, n, built.0, discovery, r);
        KnownHolds(al, ds, n, built.0);
      }
    }
  }

  lemma {:induction false} EachNext(hash: Hash, ds: seq<Declaration>, n: nat, built: Built, discovery: bool,
                                    r: Result<(Table, Option<string>), Error>)
    requires n < |ds| && r == Next(hash, built.0, ds[n], discovery)
    ensures DeclareEach(hash, built, ds[n..], discovery) ==
      if r.Failure? then Failure(r.error)
      else DeclareEach(hash, (r.value.0, built.1 + Listed(r.value.1)), ds[n + 1..], discovery)
  {
    assert ds[n..][0] == ds[n] && ds[n..][1..] == ds[n + 1..];
  }

  lemma {:induction false} EachDone(hash: Hash, ds: seq<Declaration>, built: Built, discovery: bool)
    ensures DeclareEach(hash, built, ds[|ds|..], discovery) == Success(built)
  {
    assert ds[|ds|..] == [];
  }

  predicate AllAcceptable(al: seq<Option<string>>, ds: seq<Declaration>, discovery: bool)
    requires |al| == |ds|
  {
    forall j: nat :: j < |ds| ==> Acceptable(al, ds, j, discovery)
  }

  function Verdicts(al: seq<Option<string>>, ds: seq<Declaration>, discovery: bool): (ok: seq<bool>)
    requires |al| == |ds|
    ensures |ok| == |ds|
  {
    seq(|ds|, j requires 0 <= j < |ds| => Acceptable(al, ds, j, discovery))
  }

  lemma VerdictsAgree(al: seq<Option<string>>, ds: seq<Declaration>, discovery: bool)
    requires |al| == |ds|
    ensures AllFrom(Verdicts(al, ds, discovery), 0) <==> AllAcceptable(al, ds, discovery)
  {
    var ok := Verdicts(al, ds, discovery);
    AllFromEach(ok, 0);
    assert forall j: nat :: j < |ds| ==> ok[j] == Acceptable(al, ds, j, discovery);
  }

  /** All verdicts from the `n`th on are good. */
  predicate AllFrom(ok: seq<bool>, n: nat)
    requires n <= |ok|
    decreases |ok| - n
  {
    n == |ok| || (ok[n] && AllFrom(ok, n + 1))
  }

  lemma {:induction false} AllFromEach(ok: seq<bool>, n: nat)
    requires n <= |ok|
    ensures AllFrom(ok, n) <==> forall j: nat :: n <= j < |ok| ==> ok[j]
    decreases |ok| - n
  {
    if n < |ok| { AllFromEach(ok, n + 1); }
  }

  /** The table and the list after the first `n` declarations. */
  predicate Follows(al: seq<Option<string>>, ds: seq<Declaration>, n: nat, built: Built)
    requires n <= |al| == |ds|
  {
    Holds(al, ds, n, built.0) && built.1 == Flattened(al, n)
  }

  lemma {:induction false} OneNext(hash: Hash, al: seq<Option<string>>, ds: seq<Declaration>, n: nat, built: Built, discovery: bool)
    returns (r: Result<(Table, Option<string>), Error>)
    requires n < |ds| && al == AliasList(hash, ds) && Follows(al, ds, n, built)
    ensures r == Next(hash, built.0, ds[n], discovery) && (r.Success? <==> Verdicts(al, ds, discovery)[n])
    ensures r.Success? ==> Follows(al, ds, n + 1, (r.value.0, built.1 + Listed(r.value.1)))
  {
    NextDeclares(hash, built.0, ds[n], discovery);
    r := Next(hash, built.0, ds[n], discovery);
    OneDeclared(al, ds, n, built, discovery, r);
  }

  lemma {:induction false} EachExact(hash: Hash, al: seq<Option<string>>, ds: seq<Declaration>, n: nat, built: Built, discovery: bool,
                                     ok: seq<bool>, r: Result<Built, Error>)
    requires n <= |ds| && al == AliasList(hash, ds) && Follows(al, ds, n, built)
    requires ok == Verdicts(al, ds, discovery) && r == DeclareEach(hash, built, ds[n..], discovery)
    ensures r.Success? <==> AllFrom(ok, n)
    ensures r.Success? ==> Follows(al, ds, |ds|, r.value)
    decreases |ds| - n
  {
    if n == |ds| {
      EachDone(hash, ds, built, discovery);
    } else {
      var next := OneNext(hash, al, ds, n, built, discovery);
      EachNext(hash, ds, n, built, discovery, next);
      if next.Success? {
        EachExact(hash, al, ds, n + 1, (next.value.0, built.1 + Listed(next.value.1)), discovery, ok, r);
      }
    }
  }

  // ---------------------------------------------------------------- whole lists

  lemma {:induction false} EachConcat(hash: Hash, built: Built, a: seq<Declaration>, b: seq<Declaration>, discovery: bool)
    ensures var r := DeclareEach(hash, built, a, discovery);
      DeclareEach(hash, built, a + b, discovery) == if r.Failure? then r else DeclareEach(hash, r.value, b, discovery)
    decreases |a|
  {
    if a == [] {
      assert a + b == b;
    } else {
      assert (a + b)[0] == a[0] && (a + b)[1..] == a[1..] + b;
      var r := Next(hash, built.0, a[0], discovery);
      if r.Success? {
        EachConcat(hash, (r.value.0, built.1 + Listed(r.value.1)), a[1..], b, discovery);
      }
    }
  }

  lemma {:induction false} AllAreEach(hash: Hash, built: Built, tools: seq<Tool>, namespace: Option<string>, replayed: bool, discovery: bool)
    ensures DeclareAll(hash, built, tools, namespace, replayed, discovery)
         == DeclareEach(hash, built, Each(tools, namespace, replayed), discovery)
    decreases |tools|
  {
    if tools != [] {
      assert Each(tools, namespace, replayed)[1..] == Each(tools[1..], namespace, replayed);
      var r := Declare(hash, built.0, tools[0], namespace, replayed, discovery);
      if r.Success? {
        AllAreEach(hash, (r.value.0, built.1 + Listed(r.value.1)), tools[1..], namespace, replayed, discovery);
      }
    }
  }

  lemma {:induction false} EachGrows(hash: Hash, built: Built, ds: seq<Declaration>, discovery: bool)
    requires DeclareEach(hash, built, ds, discovery).Success?
    ensures |built.1| <= |DeclareEach(hash, built, ds, discovery).value.1|
    decreases |ds|
  {
    if ds != [] {
      var r := Next(hash, built.0, ds[0], discovery);
      EachGrows(hash, (r.value.0, built.1 + Listed(r.value.1)), ds[1..], discovery);
    }
  }

  lemma {:induction false} ConstructIsEach(hash: Hash, built: Built, entries: seq<(Entry, bool)>, discovery: bool)
    requires |built.1| <= MAX_TOOLS
    ensures var r := Construct(hash, built, entries, discovery); var each := DeclareEach(hash, built, Declarations(entries), discovery);
      && (r.Success? <==> (forall i :: 0 <= i < |entries| ==> EntryOk(entries[i].0)) && each.Success? && |each.value.1| <= MAX_TOOLS)
      && (r.Success? ==> r == each)
    decreases |entries|
  {
    if entries != [] {
      var (e, replayed) := entries[0];
      var first, more := Each(ToolsOf(e), NamespaceOf(e), replayed), Declarations(entries[1..]);
      AllAreEach(hash, built, ToolsOf(e), NamespaceOf(e), replayed, discovery);
      EachConcat(hash, built, first, more, discovery);
      assert forall i :: 0 < i < |entries| ==> entries[i] == entries[1..][i - 1];
      var r := DeclareEach(hash, built, first, discovery);
      if r.Success? {
        if DeclareEach(hash, r.value, more, discovery).Success? {
          EachGrows(hash, r.value, more, discovery);
        }
        if |r.value.1| <= MAX_TOOLS {
          ConstructIsEach(hash, r.value, entries[1..], discovery);
        }
      }
    }
  }

  /** A namespace has its form, a name that can be an alias but for its length, and a tool. */
  predicate WellFormed(e: Entry) {
    match e
    case Single(_) => true
    case Namespace(name, wellFormed, tools) => wellFormed && IsText(name, 256) && |tools| >= 1
  }

  lemma EntriesWellFormed(entries: seq<(Entry, bool)>)
    ensures (forall i :: 0 <= i < |entries| ==> EntryOk(entries[i].0)) <==> (forall i :: 0 <= i < |entries| ==> WellFormed(entries[i].0))
  {
    forall i | 0 <= i < |entries|
      ensures EntryOk(entries[i].0) <==> WellFormed(entries[i].0)
    {
      if entries[i].0.Namespace? { NamesAreTexts(entries[i].0.name, 256); }
    }
  }

  /** A tool list is accepted if and only if every entry is well formed, every tool is the first
      under its alias and has its form, or is the first one's repetition replayed from the history,
      and there are no more than 1024 aliases. It is flattened to those aliases in order, and under
      each of them stands the first tool. */
  lemma ConstructExact(hash: Hash, entries: seq<(Entry, bool)>, discovery: bool)
    ensures var r := Construct(hash, (EMPTY, []), entries, discovery); var ds := Declarations(entries); var al := AliasList(hash, ds);
      && (r.Success? <==>
            && (forall i :: 0 <= i < |entries| ==> WellFormed(entries[i].0))
            && AllAcceptable(al, ds, discovery)
            && |Flattened(al, |ds|)| <= 1024)
      && (r.Success? ==> r.value.1 == Flattened(al, |ds|) && Holds(al, ds, |ds|, r.value.0))
  {
    var ds := Declarations(entries);
    assert ds[0..] == ds && Holds(AliasList(hash, ds), ds, 0, EMPTY);
    var al := AliasList(hash, ds);
    EachExact(hash, al, ds, 0, (EMPTY, []), discovery, Verdicts(al, ds, discovery), DeclareEach(hash, (EMPTY, []), ds, discovery));
    VerdictsAgree(al, ds, discovery);
    EntriesWellFormed(entries);
    ConstructIsEach(hash, (EMPTY, []), entries, discovery);
  }

  /** So a tool declared twice by the request itself is refused. */
  lemma RepetitionRefused(hash: Hash, entries: seq<(Entry, bool)>, discovery: bool, i: nat, j: nat)
    requires var ds := Declarations(entries);
      i < j < |ds| && ds[i].tool == ds[j].tool && ds[i].namespace == ds[j].namespace && !ds[j].replayed
    ensures Construct(hash, (EMPTY, []), entries, discovery).Failure?
  {
    ConstructExact(hash, entries, discovery);
    var ds := Declarations(entries);
    var al := AliasList(hash, ds);
    assert !IsFirst(al, j) by { assert al[i] == al[j]; }
    assert !Acceptable(al, ds, j, discovery);
  }
}
