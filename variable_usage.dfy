/**
 * The touched-variable analysis of the SMT checker: which variable
 * declarations may be written while a subtree executes, following inlined
 * calls, modifier bodies and their placeholders.
 *
 * `Touched` and its companions specify, node kind by node kind, what one visit
 * adds to the touched set; the class `VariableUsage` is the visitor itself,
 * with the fields it mutates, and each of its methods is proved to add exactly
 * what the specification says and to leave the function path as it found it.
 */
module VariableUsage {
  import opened Wrappers
  import opened Ast

  /** Every entry of a function path names a function of `p`. */
  ghost predicate PathValid(p: Program, path: seq<FunctionId>) {
    forall i :: 0 <= i < |path| ==> path[i] < |p.functions|
  }

  /** What holds at every point of a traversal: a valid program, a non-empty
      path of valid functions, and an outer function that exists. */
  ghost predicate Context(p: Program, path: seq<FunctionId>, outer: FunctionId) {
    p.Valid() && PathValid(p, path) && |path| > 0 && outer < |p.functions|
  }

  /** `v` is one of the outer function's local variables, return parameters or parameters. */
  predicate InOuterFunction(p: Program, v: VariableDeclaration, outer: FunctionId)
    requires outer < |p.functions|
  {
    var fd := p.functions[outer];
    v in fd.localVariables || v in fd.returnParameters || v in fd.parameters
  }

  /** Whether a write to `v` is recorded: always for a non-local variable, and
      for a local only when the outer function declares it. */
  predicate Qualifies(p: Program, v: VariableDeclaration, outer: FunctionId)
    requires outer < |p.functions|
  {
    !v.isLocal || InOuterFunction(p, v, outer)
  }

  /** The variables written by identifiers that occur syntactically in `n`
      (calls, modifiers and placeholders are not followed). */
  function WritesIn(n: Node): set<VariableDeclaration> {
    match n
    case Identifier(d, lValueRequested) =>
      if d.Variable? && lValueRequested then {d.variable} else {}
    case FunctionCall(_, cs) => WritesInAll(cs)
    case Compound(cs) => WritesInAll(cs)
    case FunctionDef(_) => {}
    case ModifierInvocation(_, args) => WritesInAll(args)
    case Placeholder => {}
  }

  function WritesInAll(ns: seq<Node>): set<VariableDeclaration> {
    if ns == [] then {} else WritesInAll(ns[..|ns| - 1]) + WritesIn(ns[|ns| - 1])
  }

  function FunctionWrites(fd: FunctionDefinition): set<VariableDeclaration> {
    WritesInAll(fd.modifiers) + (if fd.body.Some? then WritesIn(fd.body.value) else {})
  }

  /** Some function or modifier of `p` writes `v` in its own text. */
  ghost predicate WrittenInProgram(p: Program, v: VariableDeclaration) {
    (exists f :: 0 <= f < |p.functions| && v in FunctionWrites(p.functions[f])) ||
    (exists m :: 0 <= m < |p.modifiers| && v in WritesIn(p.modifiers[m].body))
  }

  /** What visiting `n` adds to the touched set when the function path is
      `path` and the outer function is `outer`. */
  function Touched(p: Program, n: Node, path: seq<FunctionId>, outer: FunctionId): (r: set<VariableDeclaration>)
    requires Context(p, path, outer) && RefsValid(p, n)
    ensures forall v :: v in r ==> Qualifies(p, v, outer)
    ensures forall v :: v in r ==> v in WritesIn(n) || WrittenInProgram(p, v)
    decreases Unseen(p, path), Rank(n), Size(n)
  {
    match n
    case Identifier(d, lValueRequested) =>
      if d.Variable? && lValueRequested && Qualifies(p, d.variable, outer) then {d.variable} else {}
    case FunctionCall(site, cs) =>
      TouchedAll(p, cs, path, outer) + CallExpansion(p, site, path, outer)
    case Compound(cs) =>
      TouchedAll(p, cs, path, outer)
    case FunctionDef(f) =>
      UnseenPush(p, path, f);
      TouchedFunction(p, f, path, outer)
    case ModifierInvocation(m, args) =>
      TouchedAll(p, args, path, outer) + ModifierExpansion(p, m, path, outer)
    case Placeholder =>
      PlaceholderExpansion(p, path, outer)
  }

  /** What visiting the nodes of `ns` one after the other adds. */
  function TouchedAll(p: Program, ns: seq<Node>, path: seq<FunctionId>, outer: FunctionId): (r: set<VariableDeclaration>)
    requires Context(p, path, outer) && RefsValidAll(p, ns)
    ensures forall v :: v in r ==> Qualifies(p, v, outer)
    ensures forall v :: v in r ==> v in WritesInAll(ns) || WrittenInProgram(p, v)
    decreases Unseen(p, path), RankAll(ns), SizeAll(ns)
  {
    if ns == [] then {}
    else TouchedAll(p, ns[..|ns| - 1], path, outer) + Touched(p, ns[|ns| - 1], path, outer)
  }

  /** The expansion at the end of a call: the callee the inlining policy names
      is analysed, unless it is already on the path. */
  function CallExpansion(p: Program, site: CallSite, path: seq<FunctionId>, outer: FunctionId): (r: set<VariableDeclaration>)
    requires Context(p, path, outer)
    ensures forall v :: v in r ==> Qualifies(p, v, outer)
    ensures forall v :: v in r ==> WrittenInProgram(p, v)
    decreases Unseen(p, path), 0, 0
  {
    match p.inlinedCallee(site)
    case None => {}
    case Some(f) =>
      if f in path then {}
      else
        UnseenPush(p, path, f);
        TouchedFunction(p, f, path, outer)
  }

  /** Visiting a function definition: its modifiers and its body, with the
      function pushed on the path. */
  function TouchedFunction(p: Program, f: FunctionId, path: seq<FunctionId>, outer: FunctionId): (r: set<VariableDeclaration>)
    requires Context(p, path, outer) && f < |p.functions|
    ensures forall v :: v in r ==> Qualifies(p, v, outer)
    ensures forall v :: v in r ==> WrittenInProgram(p, v)
    decreases Unseen(p, path + [f]), 3, 0
  {
    var fd := p.functions[f];
    var inner := path + [f];
    assert p.FunctionValid(fd);
    var r := TouchedAll(p, fd.modifiers, inner, outer) +
             (if fd.body.Some? then Touched(p, fd.body.value, inner, outer) else {});
    assert forall v :: v in r ==> v in FunctionWrites(p.functions[f]) || WrittenInProgram(p, v);
    r
  }

  /** The expansion at the end of a modifier invocation: the modifier's body,
      when the invoked name is a modifier. */
  function ModifierExpansion(p: Program, m: Option<ModifierId>, path: seq<FunctionId>, outer: FunctionId): (r: set<VariableDeclaration>)
    requires Context(p, path, outer) && (m.Some? ==> m.value < |p.modifiers|)
    ensures forall v :: v in r ==> Qualifies(p, v, outer)
    ensures forall v :: v in r ==> WrittenInProgram(p, v)
    decreases Unseen(p, path), 2, 0
  {
    match m
    case None => {}
    case Some(id) =>
      var r := Touched(p, p.modifiers[id].body, path, outer);
      assert forall v :: v in r ==> v in WritesIn(p.modifiers[id].body) || WrittenInProgram(p, v);
      r
  }

  /** The expansion of a placeholder: the body of the innermost function on the
      path, when that function is implemented. */
  function PlaceholderExpansion(p: Program, path: seq<FunctionId>, outer: FunctionId): (r: set<VariableDeclaration>)
    requires Context(p, path, outer)
    ensures forall v :: v in r ==> Qualifies(p, v, outer)
    ensures forall v :: v in r ==> WrittenInProgram(p, v)
    decreases Unseen(p, path), 1, 0
  {
    var f := path[|path| - 1];
    var fd := p.functions[f];
    assert p.FunctionValid(fd);
    if fd.IsImplemented() then
      var r := Touched(p, fd.body.value, path, outer);
      assert forall v :: v in r ==> v in FunctionWrites(p.functions[f]) || WrittenInProgram(p, v);
      r
    else {}
  }

  /** The analysis object. Its fields are scratch state, reset by every call
      of `TouchedVariables`. */
  class VariableUsage {
    const program: Program
    var touchedVariables: set<VariableDeclaration>
    var functionPath: seq<FunctionId>
    var outerFunction: Option<FunctionId>

    /** The state every visitor method runs in. */
    ghost predicate Visiting()
      reads this
    {
      outerFunction.Some? && Context(program, functionPath, outerFunction.value)
    }

    constructor (program: Program)
      ensures this.program == program
      ensures touchedVariables == {} && functionPath == [] && outerFunction == None
    {
      this.program := program;
      touchedVariables := {};
      functionPath := [];
      outerFunction := None;
    }

    /** The entry point: resets the scratch state, takes the path from the
        caller's stack and its last element as the outer function, and visits
        `node`. The result depends on the node and the stack only. */
    method TouchedVariables(node: Node, outerCallstack: seq<FunctionId>) returns (r: set<VariableDeclaration>)
      requires program.Valid() && RefsValid(program, node)
      requires |outerCallstack| > 0 && PathValid(program, outerCallstack)
      modifies this`touchedVariables, this`functionPath, this`outerFunction
      ensures r == Touched(program, node, outerCallstack, outerCallstack[|outerCallstack| - 1])
      ensures functionPath == outerCallstack
      ensures outerFunction == Some(outerCallstack[|outerCallstack| - 1])
    {
      touchedVariables := {};
      functionPath := [];
      functionPath := functionPath + outerCallstack;
      assert functionPath == outerCallstack;
      outerFunction := Some(functionPath[|functionPath| - 1]);
      Accept(node);
      r := touchedVariables;
    }

    /** Dispatch on the node kind: children first, then the kind's handler. */
    method Accept(n: Node)
      requires Visiting() && RefsValid(program, n)
      modifies this`touchedVariables, this`functionPath
      ensures functionPath == old(functionPath)
      ensures touchedVariables == old(touchedVariables) + Touched(program, n, functionPath, outerFunction.value)
      decreases Unseen(program, functionPath), Rank(n), Size(n)
    {
      match n
      case Identifier(d, lValueRequested) =>
        EndVisitIdentifier(d, lValueRequested);
      case FunctionCall(site, cs) =>
        AcceptAll(cs);
        EndVisitFunctionCall(site);
      case Compound(cs) =>
        AcceptAll(cs);
      case FunctionDef(f) =>
        UnseenPush(program, functionPath, f);
        AcceptFunction(f);
      case ModifierInvocation(m, args) =>
        AcceptAll(args);
        EndVisitModifierInvocation(m);
      case Placeholder =>
        EndVisitPlaceholder();
    }

    /** Visits a list of nodes in order. */
    method AcceptAll(ns: seq<Node>)
      requires Visiting() && RefsValidAll(program, ns)
      modifies this`touchedVariables, this`functionPath
      ensures functionPath == old(functionPath)
      ensures touchedVariables == old(touchedVariables) + TouchedAll(program, ns, functionPath, outerFunction.value)
      decreases Unseen(program, functionPath), RankAll(ns), SizeAll(ns)
    {
      for i := 0 to |ns|
        invariant functionPath == old(functionPath)
        invariant touchedVariables == old(touchedVariables) + TouchedAll(program, ns[..i], functionPath, outerFunction.value)
      {
        Accept(ns[i]);
        assert ns[..i + 1][..i] == ns[..i];
      }
      assert ns[..|ns|] == ns;
    }

    /** A function definition visited as a node: pushed, its modifiers and body
        visited, popped. */
    method AcceptFunction(f: FunctionId)
      requires Visiting() && f < |program.functions|
      modifies this`touchedVariables, this`functionPath
      ensures functionPath == old(functionPath)
      ensures touchedVariables == old(touchedVariables) + TouchedFunction(program, f, functionPath, outerFunction.value)
      decreases Unseen(program, functionPath + [f]), 3, 0
    {
      VisitFunctionDefinition(f);
      var fd := program.functions[f];
      assert program.FunctionValid(fd);
      AcceptAll(fd.modifiers);
      if fd.body.Some? {
        Accept(fd.body.value);
      }
      EndVisitFunctionDefinition();
    }

    /** Records a write to a qualifying variable; reads are ignored. */
    method EndVisitIdentifier(declaration: Declaration, lValueRequested: bool)
      requires declaration.Variable? && declaration.variable.isLocal ==>
                 outerFunction.Some? && outerFunction.value < |program.functions|
      modifies this`touchedVariables
      ensures touchedVariables == old(touchedVariables) +
        if declaration.Variable? && lValueRequested &&
           (!declaration.variable.isLocal || InOuterFunction(program, declaration.variable, outerFunction.value))
        then {declaration.variable} else {}
    {
      if declaration.Variable? {
        var varDecl := declaration.variable;
        var isLocal := varDecl.isLocal;
        var inOuterFunction := false;
        if isLocal {
          var outer := program.functions[outerFunction.value];
          inOuterFunction := varDecl in outer.localVariables;
          inOuterFunction := inOuterFunction || varDecl in outer.returnParameters;
          inOuterFunction := inOuterFunction || varDecl in outer.parameters;
        }
        if lValueRequested && (!isLocal || inOuterFunction) {
          touchedVariables := touchedVariables + {varDecl};
        }
      }
    }

    /** Expands an inlinable callee that is not already on the path. */
    method EndVisitFunctionCall(site: CallSite)
      requires Visiting()
      modifies this`touchedVariables, this`functionPath
      ensures functionPath == old(functionPath)
      ensures touchedVariables == old(touchedVariables) + CallExpansion(program, site, functionPath, outerFunction.value)
      decreases Unseen(program, functionPath), 0, 0
    {
      var funDef := program.inlinedCallee(site);
      if funDef.Some? {
        if funDef.value !in functionPath {
          UnseenPush(program, functionPath, funDef.value);
          AcceptFunction(funDef.value);
        }
      }
    }

    method VisitFunctionDefinition(f: FunctionId)
      modifies this`functionPath
      ensures functionPath == old(functionPath) + [f]
    {
      functionPath := functionPath + [f];
    }

    method EndVisitFunctionDefinition()
      requires |functionPath| > 0
      modifies this`functionPath
      ensures functionPath == old(functionPath)[..|old(functionPath)| - 1]
    {
      functionPath := functionPath[..|functionPath| - 1];
    }

    /** Visits the body of the invoked modifier, if the name is a modifier. */
    method EndVisitModifierInvocation(modifier: Option<ModifierId>)
      requires Visiting() && (modifier.Some? ==> modifier.value < |program.modifiers|)
      modifies this`touchedVariables, this`functionPath
      ensures functionPath == old(functionPath)
      ensures touchedVariables == old(touchedVariables) + ModifierExpansion(program, modifier, functionPath, outerFunction.value)
      decreases Unseen(program, functionPath), 2, 0
    {
      if modifier.Some? {
        Accept(program.modifiers[modifier.value].body);
      }
    }

    /** Visits the body of the innermost function on the path, if implemented. */
    method EndVisitPlaceholder()
      requires Visiting()
      modifies this`touchedVariables, this`functionPath
      ensures functionPath == old(functionPath)
      ensures touchedVariables == old(touchedVariables) + PlaceholderExpansion(program, functionPath, outerFunction.value)
      decreases Unseen(program, functionPath), 1, 0
    {
      var innermost := functionPath[|functionPath| - 1];
      var fd := program.functions[innermost];
      assert program.FunctionValid(fd);
      if fd.IsImplemented() {
        Accept(fd.body.value);
      }
    }
  }
}
