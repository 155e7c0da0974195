/**
 * The part of an annotated Solidity syntax tree that the touched-variable
 * analysis looks at: a closed set of node kinds, declarations identified by
 * value, and lookup tables from function and modifier ids to definitions.
 */
module Ast {
  import opened Wrappers

  type FunctionId = nat
  type ModifierId = nat
  type CallSite = nat

  /** A variable declaration. Its identity is the whole value, as the source
      compares declaration pointers. */
  datatype VariableDeclaration = VariableDeclaration(id: nat, isLocal: bool)

  /** What name resolution bound an identifier to. */
  datatype Declaration =
    | Variable(variable: VariableDeclaration)
    | OtherDeclaration(id: nat)  // a function, modifier, contract, event, ... name

  datatype Node =
    | Identifier(declaration: Declaration, lValueRequested: bool)
      /** The callee expression and the arguments are its children. */
    | FunctionCall(site: CallSite, children: seq<Node>)
      /** Any other statement or expression: only its children matter. */
    | Compound(children: seq<Node>)
    | FunctionDef(definition: FunctionId)
      /** `modifier` is None when the invoked name is not a modifier (a base constructor). */
    | ModifierInvocation(modifier: Option<ModifierId>, arguments: seq<Node>)
    | Placeholder

  datatype FunctionDefinition = FunctionDefinition(
    parameters: seq<VariableDeclaration>,
    returnParameters: seq<VariableDeclaration>,
    localVariables: seq<VariableDeclaration>,
    modifiers: seq<Node>,
    body: Option<Node>)
  {
    predicate IsImplemented() {
      body.Some?
    }
  }

  datatype ModifierDefinition = ModifierDefinition(body: Node)

  /** The definitions the analysis can reach, and the external inlining policy:
      `inlinedCallee(site)` is the definition a call is analysed through, if any. */
  datatype Program = Program(
    functions: seq<FunctionDefinition>,
    modifiers: seq<ModifierDefinition>,
    inlinedCallee: CallSite -> Option<FunctionId>)
  {
    /** Every reference is resolved, and the definitions obey the grammar:
        function bodies hold no placeholder, modifier invocation or function
        definition; modifier bodies hold no modifier invocation or function
        definition; a modifier list holds modifier invocations over plain
        expressions. */
    ghost predicate Valid() {
      (forall f :: 0 <= f < |functions| ==> FunctionValid(functions[f])) &&
      (forall m :: 0 <= m < |modifiers| ==>
         RefsValid(this, modifiers[m].body) && Rank(modifiers[m].body) <= 1) &&
      (forall site :: inlinedCallee(site).Some? ==> inlinedCallee(site).value < |functions|)
    }

    ghost predicate FunctionValid(fd: FunctionDefinition) {
      RefsValidAll(this, fd.modifiers) && RankAll(fd.modifiers) <= 2 &&
      (fd.body.Some? ==> RefsValid(this, fd.body.value) && Rank(fd.body.value) == 0)
    }
  }

  /** Every function and modifier a node names exists. */
  ghost predicate RefsValid(p: Program, n: Node) {
    match n
    case Identifier(_, _) => true
    case FunctionCall(_, cs) => RefsValidAll(p, cs)
    case Compound(cs) => RefsValidAll(p, cs)
    case FunctionDef(f) => f < |p.functions|
    case ModifierInvocation(m, args) =>
      (m.Some? ==> m.value < |p.modifiers|) && RefsValidAll(p, args)
    case Placeholder => true
  }

  ghost predicate RefsValidAll(p: Program, ns: seq<Node>) {
    forall i :: 0 <= i < |ns| ==> RefsValid(p, ns[i])
  }

  function Max(a: nat, b: nat): nat {
    if a < b then b else a
  }

  /** How far a node may reach into the definition tables without entering a new
      function: 0 for plain code, 1 for a placeholder, 2 for a modifier
      invocation, 4 for a function definition. */
  function Rank(n: Node): nat {
    match n
    case Identifier(_, _) => 0
    case FunctionCall(_, cs) => RankAll(cs)
    case Compound(cs) => RankAll(cs)
    case FunctionDef(_) => 4
    case ModifierInvocation(_, args) => Max(2, RankAll(args))
    case Placeholder => 1
  }

  function RankAll(ns: seq<Node>): (r: nat)
    ensures forall i :: 0 <= i < |ns| ==> Rank(ns[i]) <= r
  {
    if ns == [] then 0 else Max(RankAll(ns[..|ns| - 1]), Rank(ns[|ns| - 1]))
  }

  function Size(n: Node): (r: nat)
    ensures r >= 1
  {
    match n
    case FunctionCall(_, cs) => 1 + SizeAll(cs)
    case Compound(cs) => 1 + SizeAll(cs)
    case ModifierInvocation(_, args) => 1 + SizeAll(args)
    case _ => 1
  }

  function SizeAll(ns: seq<Node>): (r: nat)
    ensures r >= 1
    ensures forall i :: 0 <= i < |ns| ==> Size(ns[i]) < r
  {
    if ns == [] then 1 else SizeAll(ns[..|ns| - 1]) + Size(ns[|ns| - 1])
  }

  /** The ids below `n`. */
  function Below(n: nat): (r: set<nat>)
    ensures forall k: nat :: k in r <==> k < n
  {
    if n == 0 then {} else Below(n - 1) + {n - 1}
  }

  /** The functions of `p` that are not on `path`: each inlined call shrinks it. */
  function Unseen(p: Program, path: seq<FunctionId>): nat {
    |Below(|p.functions|) - (set g | g in path)|
  }

  lemma UnseenPush(p: Program, path: seq<FunctionId>, f: FunctionId)
    requires f < |p.functions|
    ensures Unseen(p, path + [f]) <= Unseen(p, path)
    ensures f !in path ==> Unseen(p, path + [f]) < Unseen(p, path)
  {
    var all := Below(|p.functions|);
    var before := all - (set g | g in path);
    var after := all - (set g | g in path + [f]);
    assert after == before - {f};
    if f !in path {
      assert f in before;
    }
  }
}
