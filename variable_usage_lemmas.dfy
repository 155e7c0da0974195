/**
 * Properties of the touched-variable analysis: which writes are recorded,
 * how writes deep inside inlined calls, modifiers and placeholders reach the
 * result, what the cycle guard and the placeholder do, and that the analysis
 * object gives the same answer every time it is asked the same question.
 */
module VariableUsageProperties {
  import opened Wrappers
  import opened Ast
  import opened VariableUsage

  /** Every written variable that occurs in `n` itself and qualifies is touched. */
  lemma {:induction false} DirectWritesTouched(p: Program, n: Node, path: seq<FunctionId>, outer: FunctionId)
    requires Context(p, path, outer) && RefsValid(p, n)
    ensures forall v :: v in WritesIn(n) && Qualifies(p, v, outer) ==> v in Touched(p, n, path, outer)
    decreases Size(n)
  {
    match n
    case Identifier(_, _) =>
    case FunctionCall(_, cs) => DirectWritesTouchedAll(p, cs, path, outer);
    case Compound(cs) => DirectWritesTouchedAll(p, cs, path, outer);
    case FunctionDef(_) =>
    case ModifierInvocation(_, args) => DirectWritesTouchedAll(p, args, path, outer);
    case Placeholder =>
  }

  lemma {:induction false} DirectWritesTouchedAll(p: Program, ns: seq<Node>, path: seq<FunctionId>, outer: FunctionId)
    requires Context(p, path, outer) && RefsValidAll(p, ns)
    ensures forall v :: v in WritesInAll(ns) && Qualifies(p, v, outer) ==> v in TouchedAll(p, ns, path, outer)
    decreases SizeAll(ns)
  {
    if ns != [] {
      DirectWritesTouchedAll(p, ns[..|ns| - 1], path, outer);
      DirectWritesTouched(p, ns[|ns| - 1], path, outer);
    }
  }

  /** A write to a non-local (state) variable in `n` is always recorded,
      whatever the path and the outer function. */
  lemma StateWriteTouched(p: Program, n: Node, path: seq<FunctionId>, outer: FunctionId, v: VariableDeclaration)
    requires Context(p, path, outer) && RefsValid(p, n)
    requires !v.isLocal && v in WritesIn(n)
    ensures v in Touched(p, n, path, outer)
  {
    DirectWritesTouched(p, n, path, outer);
  }

  /** A write to a local variable in `n` is recorded if and only if the outer
      function declares it as a local, a return parameter or a parameter. */
  lemma LocalWriteTouchedIff(p: Program, n: Node, path: seq<FunctionId>, outer: FunctionId, v: VariableDeclaration)
    requires Context(p, path, outer) && RefsValid(p, n)
    requires v.isLocal && v in WritesIn(n)
    ensures v in Touched(p, n, path, outer) <==> InOuterFunction(p, v, outer)
  {
    DirectWritesTouched(p, n, path, outer);
  }

  /** A local that the outer function does not declare (a local of an inlined
      callee, say) is never recorded, however often it is written. */
  lemma CalleeLocalNeverTouched(p: Program, n: Node, path: seq<FunctionId>, outer: FunctionId, v: VariableDeclaration)
    requires Context(p, path, outer) && RefsValid(p, n)
    requires v.isLocal && !InOuterFunction(p, v, outer)
    ensures v !in Touched(p, n, path, outer)
  {
  }

  /** Read exclusion: a variable that no identifier of `n` or of the program
      writes is never recorded. */
  lemma ReadOnlyNeverTouched(p: Program, n: Node, path: seq<FunctionId>, outer: FunctionId, v: VariableDeclaration)
    requires Context(p, path, outer) && RefsValid(p, n)
    requires v !in WritesIn(n) && !WrittenInProgram(p, v)
    ensures v !in Touched(p, n, path, outer)
  {
  }

  /** `m` occurs in `n` (calls, modifiers and placeholders are not followed). */
  ghost predicate Contains(n: Node, m: Node) {
    n == m ||
    match n
    case FunctionCall(_, cs) => exists i :: 0 <= i < |cs| && Contains(cs[i], m)
    case Compound(cs) => exists i :: 0 <= i < |cs| && Contains(cs[i], m)
    case ModifierInvocation(_, args) => exists i :: 0 <= i < |args| && Contains(args[i], m)
    case _ => false
  }

  /** What a list visit adds includes what each element adds. */
  lemma {:induction false} TouchedAllIncludes(p: Program, ns: seq<Node>, path: seq<FunctionId>, outer: FunctionId, i: nat)
    requires Context(p, path, outer) && RefsValidAll(p, ns) && i < |ns|
    ensures Touched(p, ns[i], path, outer) <= TouchedAll(p, ns, path, outer)
    decreases |ns|
  {
    if i < |ns| - 1 {
      TouchedAllIncludes(p, ns[..|ns| - 1], path, outer, i);
    }
  }

  /** A node occurring in `n` is visited under the same path, so what it adds
      is part of what `n` adds. */
  lemma {:induction false} ContainedTouched(p: Program, n: Node, m: Node, path: seq<FunctionId>, outer: FunctionId)
    requires Context(p, path, outer) && RefsValid(p, n) && Contains(n, m)
    ensures RefsValid(p, m)
    ensures Touched(p, m, path, outer) <= Touched(p, n, path, outer)
    decreases Size(n)
  {
    if n != m {
      match n
      case FunctionCall(_, cs) =>
        var i :| 0 <= i < |cs| && Contains(cs[i], m);
        ContainedTouched(p, cs[i], m, path, outer);
        TouchedAllIncludes(p, cs, path, outer, i);
      case Compound(cs) =>
        var i :| 0 <= i < |cs| && Contains(cs[i], m);
        ContainedTouched(p, cs[i], m, path, outer);
        TouchedAllIncludes(p, cs, path, outer, i);
      case ModifierInvocation(_, args) =>
        var i :| 0 <= i < |args| && Contains(args[i], m);
        ContainedTouched(p, args[i], m, path, outer);
        TouchedAllIncludes(p, args, path, outer, i);
    }
  }

  /** What the visit of function `f` runs once `f` is pushed: its modifier
      list, then its body if it has one. */
  function FunctionCode(p: Program, f: FunctionId): Node
    requires f < |p.functions|
  {
    var fd := p.functions[f];
    Compound(fd.modifiers + if fd.body.Some? then [fd.body.value] else [])
  }

  /** Pushing a function of the program keeps the traversal context. */
  lemma PushedContext(p: Program, f: FunctionId, path: seq<FunctionId>, outer: FunctionId)
    requires Context(p, path, outer) && f < |p.functions|
    ensures Context(p, path + [f], outer)
  {
    assert forall i :: 0 <= i < |path + [f]| ==> (path + [f])[i] < |p.functions|;
  }

  /** A function's code is resolved, ranks like a modifier list, and is
      visited under a valid path. */
  lemma FunctionCodeValid(p: Program, f: FunctionId, path: seq<FunctionId>, outer: FunctionId)
    requires Context(p, path, outer) && f < |p.functions|
    ensures Context(p, path + [f], outer) && RefsValid(p, FunctionCode(p, f))
    ensures Rank(FunctionCode(p, f)) <= 2
  {
    PushedContext(p, f, path, outer);
    var fd := p.functions[f];
    assert p.FunctionValid(fd);
    var code := FunctionCode(p, f).children;
    if fd.body.Some? {
      SnocRefsRank(p, fd.modifiers, fd.body.value);
      assert code == fd.modifiers + [fd.body.value];
    } else {
      assert code == fd.modifiers;
    }
  }

  lemma SnocRefsRank(p: Program, ns: seq<Node>, n: Node)
    requires RefsValidAll(p, ns) && RefsValid(p, n)
    ensures RefsValidAll(p, ns + [n])
    ensures RankAll(ns + [n]) == Max(RankAll(ns), Rank(n))
  {
    assert (ns + [n])[..|ns|] == ns;
  }

  /** Visiting a function definition is visiting its code with the function pushed. */
  lemma FunctionCodeTouched(p: Program, f: FunctionId, path: seq<FunctionId>, outer: FunctionId)
    requires Context(p, path, outer) && f < |p.functions|
    ensures Context(p, path + [f], outer) && RefsValid(p, FunctionCode(p, f))
    ensures Rank(FunctionCode(p, f)) <= 2
    ensures Touched(p, FunctionCode(p, f), path + [f], outer) == TouchedFunction(p, f, path, outer)
  {
    FunctionCodeValid(p, f, path, outer);
    var fd := p.functions[f];
    var inner := path + [f];
    assert p.FunctionValid(fd);
    var code := FunctionCode(p, f).children;
    CompoundUnfold(p, code, inner, outer);
    if fd.body.Some? {
      assert code == fd.modifiers + [fd.body.value];
      TouchedAllSnoc(p, fd.modifiers, fd.body.value, inner, outer);
    } else {
      assert code == fd.modifiers;
    }
  }

  /** One step from a node into code that its visit runs. */
  datatype Expansion =
    | InlinedCall(callee: FunctionId)          // a call the policy inlines: the callee's code
    | DefinitionVisit(definition: FunctionId)  // a function definition node: its code
    | ModifierBody(modifier: ModifierId)
    | PlaceholderBody

  /** Visiting `n` under `path` expands, step after step, into `end` visited
      under `endPath`. */
  ghost predicate Chain(p: Program, n: Node, path: seq<FunctionId>, steps: seq<Expansion>,
                        end: Node, endPath: seq<FunctionId>)
    requires p.Valid() && PathValid(p, path) && |path| > 0
    decreases |steps|
  {
    if steps == [] then end == n && endPath == path
    else
      match steps[0]
      case InlinedCall(f) =>
        f < |p.functions| && f !in path &&
        (exists site, cs :: Contains(n, FunctionCall(site, cs)) && p.inlinedCallee(site) == Some(f)) &&
        Chain(p, FunctionCode(p, f), path + [f], steps[1..], end, endPath)
      case DefinitionVisit(f) =>
        f < |p.functions| && Contains(n, FunctionDef(f)) &&
        Chain(p, FunctionCode(p, f), path + [f], steps[1..], end, endPath)
      case ModifierBody(m) =>
        m < |p.modifiers| &&
        (exists args :: Contains(n, ModifierInvocation(Some(m), args))) &&
        Chain(p, p.modifiers[m].body, path, steps[1..], end, endPath)
      case PlaceholderBody =>
        Contains(n, Placeholder) && p.functions[path[|path| - 1]].body.Some? &&
        Chain(p, p.functions[path[|path| - 1]].body.value, path, steps[1..], end, endPath)
  }

  /** Whatever a node reached through inlined calls, function definitions,
      modifiers and placeholders adds is part of what the starting node adds. */
  lemma {:induction false} ChainTouched(p: Program, n: Node, path: seq<FunctionId>, outer: FunctionId,
                                        steps: seq<Expansion>, end: Node, endPath: seq<FunctionId>)
    requires Context(p, path, outer) && RefsValid(p, n)
    requires Chain(p, n, path, steps, end, endPath)
    ensures Context(p, endPath, outer) && RefsValid(p, end)
    ensures Touched(p, end, endPath, outer) <= Touched(p, n, path, outer)
    decreases |steps|
  {
    if steps != [] {
      match steps[0]
      case InlinedCall(f) =>
        var site, cs :| Contains(n, FunctionCall(site, cs)) && p.inlinedCallee(site) == Some(f);
        ContainedTouched(p, n, FunctionCall(site, cs), path, outer);
        FunctionCodeTouched(p, f, path, outer);
        assert TouchedFunction(p, f, path, outer) == CallExpansion(p, site, path, outer);
        ChainTouched(p, FunctionCode(p, f), path + [f], outer, steps[1..], end, endPath);
      case DefinitionVisit(f) =>
        ContainedTouched(p, n, FunctionDef(f), path, outer);
        FunctionCodeTouched(p, f, path, outer);
        ChainTouched(p, FunctionCode(p, f), path + [f], outer, steps[1..], end, endPath);
      case ModifierBody(m) =>
        var args :| Contains(n, ModifierInvocation(Some(m), args));
        ContainedTouched(p, n, ModifierInvocation(Some(m), args), path, outer);
        ChainTouched(p, p.modifiers[m].body, path, outer, steps[1..], end, endPath);
      case PlaceholderBody =>
        ContainedTouched(p, n, Placeholder, path, outer);
        var fd := p.functions[path[|path| - 1]];
        assert p.FunctionValid(fd);
        ChainTouched(p, fd.body.value, path, outer, steps[1..], end, endPath);
    }
  }

  /** State-variable universality: a write to a non-local variable anywhere
      the visit of `n` reaches, however deep, is recorded. */
  lemma NestedStateWriteTouched(p: Program, n: Node, path: seq<FunctionId>, outer: FunctionId,
                                steps: seq<Expansion>, end: Node, endPath: seq<FunctionId>, v: VariableDeclaration)
    requires Context(p, path, outer) && RefsValid(p, n)
    requires Chain(p, n, path, steps, end, endPath)
    requires !v.isLocal && v in WritesIn(end)
    ensures v in Touched(p, n, path, outer)
  {
    ChainTouched(p, n, path, outer, steps, end, endPath);
    DirectWritesTouched(p, end, endPath, outer);
  }

  /** A state write in a modifier of an inlined callee is recorded: the callee's
      visit runs its modifier list before its body. */
  lemma CalleeModifierWriteTouched(p: Program, n: Node, path: seq<FunctionId>, outer: FunctionId,
                                   site: CallSite, cs: seq<Node>, f: FunctionId, m: ModifierId, args: seq<Node>,
                                   v: VariableDeclaration)
    requires Context(p, path, outer) && RefsValid(p, n)
    requires Contains(n, FunctionCall(site, cs)) && p.inlinedCallee(site) == Some(f) && f !in path
    requires f < |p.functions| && ModifierInvocation(Some(m), args) in p.functions[f].modifiers
    requires m < |p.modifiers| && !v.isLocal && v in WritesIn(p.modifiers[m].body)
    ensures v in Touched(p, n, path, outer)
  {
    var fd := p.functions[f];
    var invocation := ModifierInvocation(Some(m), args);
    var code := fd.modifiers + if fd.body.Some? then [fd.body.value] else [];
    var i :| 0 <= i < |fd.modifiers| && fd.modifiers[i] == invocation;
    assert code[i] == invocation && Contains(code[i], invocation);
    assert Contains(FunctionCode(p, f), invocation);
    var body := p.modifiers[m].body;
    var steps := [InlinedCall(f), ModifierBody(m)];
    assert steps[1..][1..] == [];
    assert Chain(p, body, path + [f], [], body, path + [f]);
    assert Chain(p, FunctionCode(p, f), path + [f], steps[1..], body, path + [f]);
    NestedStateWriteTouched(p, n, path, outer, steps, body, path + [f], v);
  }

  /** `v` is written by an identifier at the end of some expansion chain from `n`. */
  ghost predicate WrittenAlongChain(p: Program, n: Node, path: seq<FunctionId>, v: VariableDeclaration)
    requires p.Valid() && PathValid(p, path) && |path| > 0
  {
    exists steps, end, endPath :: Chain(p, n, path, steps, end, endPath) && v in WritesIn(end)
  }

  /** Containment is transitive. */
  lemma {:induction false} ContainsTransitive(a: Node, b: Node, c: Node)
    requires Contains(a, b) && Contains(b, c)
    ensures Contains(a, c)
    decreases Size(a)
  {
    if a != b {
      match a
      case FunctionCall(_, cs) =>
        var i :| 0 <= i < |cs| && Contains(cs[i], b);
        ContainsTransitive(cs[i], b, c);
      case Compound(cs) =>
        var i :| 0 <= i < |cs| && Contains(cs[i], b);
        ContainsTransitive(cs[i], b, c);
      case ModifierInvocation(_, args) =>
        var i :| 0 <= i < |args| && Contains(args[i], b);
        ContainsTransitive(args[i], b, c);
    }
  }

  lemma {:induction false} WritesInAllIncludes(ns: seq<Node>, i: nat)
    requires i < |ns|
    ensures WritesIn(ns[i]) <= WritesInAll(ns)
    decreases |ns|
  {
    if i < |ns| - 1 {
      WritesInAllIncludes(ns[..|ns| - 1], i);
    }
  }

  /** What a contained node writes in its own text, its container writes too. */
  lemma {:induction false} WritesInContained(n: Node, m: Node)
    requires Contains(n, m)
    ensures WritesIn(m) <= WritesIn(n)
    decreases Size(n)
  {
    if n != m {
      match n
      case FunctionCall(_, cs) =>
        var i :| 0 <= i < |cs| && Contains(cs[i], m);
        WritesInContained(cs[i], m);
        WritesInAllIncludes(cs, i);
      case Compound(cs) =>
        var i :| 0 <= i < |cs| && Contains(cs[i], m);
        WritesInContained(cs[i], m);
        WritesInAllIncludes(cs, i);
      case ModifierInvocation(_, args) =>
        var i :| 0 <= i < |args| && Contains(args[i], m);
        WritesInContained(args[i], m);
        WritesInAllIncludes(args, i);
    }
  }

  /** A chain that starts with a step from a contained node starts from its container too. */
  lemma ChainLift(p: Program, n: Node, m: Node, path: seq<FunctionId>, steps: seq<Expansion>,
                  end: Node, endPath: seq<FunctionId>)
    requires p.Valid() && PathValid(p, path) && |path| > 0
    requires Contains(n, m) && steps != [] && Chain(p, m, path, steps, end, endPath)
    ensures Chain(p, n, path, steps, end, endPath)
  {
    match steps[0]
    case InlinedCall(f) =>
      var site, cs :| Contains(m, FunctionCall(site, cs)) && p.inlinedCallee(site) == Some(f);
      ContainsTransitive(n, m, FunctionCall(site, cs));
    case DefinitionVisit(f) =>
      ContainsTransitive(n, m, FunctionDef(f));
    case ModifierBody(mod) =>
      var args :| Contains(m, ModifierInvocation(Some(mod), args));
      ContainsTransitive(n, m, ModifierInvocation(Some(mod), args));
    case PlaceholderBody =>
      ContainsTransitive(n, m, Placeholder);
  }

  /** What is written along a chain from a contained node is written along one from its container. */
  lemma ReachedFromContainer(p: Program, n: Node, m: Node, path: seq<FunctionId>, v: VariableDeclaration)
    requires p.Valid() && PathValid(p, path) && |path| > 0
    requires Contains(n, m) && WrittenAlongChain(p, m, path, v)
    ensures WrittenAlongChain(p, n, path, v)
  {
    var steps, end, endPath :| Chain(p, m, path, steps, end, endPath) && v in WritesIn(end);
    if steps == [] {
      WritesInContained(n, m);
      assert Chain(p, n, path, [], n, path);
    } else {
      ChainLift(p, n, m, path, steps, end, endPath);
    }
  }

  /** A variable a list visit adds is added by one of its elements. */
  lemma {:induction false} TouchedAllMember(p: Program, ns: seq<Node>, path: seq<FunctionId>, outer: FunctionId,
                                            v: VariableDeclaration)
    requires Context(p, path, outer) && RefsValidAll(p, ns)
    requires v in TouchedAll(p, ns, path, outer)
    ensures exists i :: 0 <= i < |ns| && v in Touched(p, ns[i], path, outer)
    decreases |ns|
  {
    if v !in Touched(p, ns[|ns| - 1], path, outer) {
      TouchedAllMember(p, ns[..|ns| - 1], path, outer, v);
      var i :| 0 <= i < |ns| - 1 && v in Touched(p, ns[..|ns| - 1][i], path, outer);
      assert ns[..|ns| - 1][i] == ns[i];
    }
  }

  /** A variable touched through one of the children of `n` is written along a chain from `n`. */
  lemma ReachedThroughChild(p: Program, n: Node, cs: seq<Node>, path: seq<FunctionId>, outer: FunctionId,
                            v: VariableDeclaration, i: nat)
    requires Context(p, path, outer) && i < |cs|
    requires n == Compound(cs) || (exists site :: n == FunctionCall(site, cs)) ||
             (exists m :: n == ModifierInvocation(m, cs))
    requires WrittenAlongChain(p, cs[i], path, v)
    ensures WrittenAlongChain(p, n, path, v)
  {
    assert Contains(cs[i], cs[i]);
    assert Contains(n, cs[i]);
    ReachedFromContainer(p, n, cs[i], path, v);
  }

  /** A chain from a function's code, behind an inlined call in `n`, is a chain from `n`. */
  lemma ReachedThroughCall(p: Program, n: Node, site: CallSite, cs: seq<Node>, path: seq<FunctionId>,
                           f: FunctionId, v: VariableDeclaration)
    requires p.Valid() && PathValid(p, path) && |path| > 0
    requires n == FunctionCall(site, cs) && p.inlinedCallee(site) == Some(f) && f < |p.functions| && f !in path
    requires PathValid(p, path + [f]) && WrittenAlongChain(p, FunctionCode(p, f), path + [f], v)
    ensures WrittenAlongChain(p, n, path, v)
  {
    var steps, end, endPath :| Chain(p, FunctionCode(p, f), path + [f], steps, end, endPath) && v in WritesIn(end);
    var all := [InlinedCall(f)] + steps;
    assert all[1..] == steps;
    assert Contains(n, FunctionCall(site, cs));
    assert Chain(p, n, path, all, end, endPath);
  }

  /** A chain from a function's code is a chain from its definition node. */
  lemma ReachedThroughDefinition(p: Program, f: FunctionId, path: seq<FunctionId>, v: VariableDeclaration)
    requires p.Valid() && PathValid(p, path) && |path| > 0 && f < |p.functions|
    requires PathValid(p, path + [f]) && WrittenAlongChain(p, FunctionCode(p, f), path + [f], v)
    ensures WrittenAlongChain(p, FunctionDef(f), path, v)
  {
    var steps, end, endPath :| Chain(p, FunctionCode(p, f), path + [f], steps, end, endPath) && v in WritesIn(end);
    var all := [DefinitionVisit(f)] + steps;
    assert all[1..] == steps;
    assert Chain(p, FunctionDef(f), path, all, end, endPath);
  }

  /** A chain from a modifier's body is a chain from its invocation. */
  lemma ReachedThroughModifier(p: Program, m: ModifierId, args: seq<Node>, path: seq<FunctionId>, v: VariableDeclaration)
    requires p.Valid() && PathValid(p, path) && |path| > 0 && m < |p.modifiers|
    requires WrittenAlongChain(p, p.modifiers[m].body, path, v)
    ensures WrittenAlongChain(p, ModifierInvocation(Some(m), args), path, v)
  {
    var steps, end, endPath :| Chain(p, p.modifiers[m].body, path, steps, end, endPath) && v in WritesIn(end);
    var all := [ModifierBody(m)] + steps;
    assert all[1..] == steps;
    assert Contains(ModifierInvocation(Some(m), args), ModifierInvocation(Some(m), args));
    assert Chain(p, ModifierInvocation(Some(m), args), path, all, end, endPath);
  }

  /** A chain from the innermost function's body is a chain from a placeholder. */
  lemma ReachedThroughPlaceholder(p: Program, path: seq<FunctionId>, v: VariableDeclaration)
    requires p.Valid() && PathValid(p, path) && |path| > 0
    requires p.functions[path[|path| - 1]].body.Some?
    requires WrittenAlongChain(p, p.functions[path[|path| - 1]].body.value, path, v)
    ensures WrittenAlongChain(p, Placeholder, path, v)
  {
    var body := p.functions[path[|path| - 1]].body.value;
    var steps, end, endPath :| Chain(p, body, path, steps, end, endPath) && v in WritesIn(end);
    var all := [PlaceholderBody] + steps;
    assert all[1..] == steps;
    assert Chain(p, Placeholder, path, all, end, endPath);
  }

  /** Every touched variable is written by an identifier that the visit reaches
      through some chain of expansions. */
  lemma {:induction false} TouchedIsReached(p: Program, n: Node, path: seq<FunctionId>, outer: FunctionId,
                                            v: VariableDeclaration)
    requires Context(p, path, outer) && RefsValid(p, n)
    requires v in Touched(p, n, path, outer)
    ensures WrittenAlongChain(p, n, path, v)
    decreases Unseen(p, path), Rank(n), Size(n)
  {
    match n
    case Identifier(_, _) =>
      assert Chain(p, n, path, [], n, path);
    case FunctionCall(site, cs) =>
      if v in TouchedAll(p, cs, path, outer) {
        TouchedAllMember(p, cs, path, outer, v);
        var i :| 0 <= i < |cs| && v in Touched(p, cs[i], path, outer);
        TouchedIsReached(p, cs[i], path, outer, v);
        ReachedThroughChild(p, n, cs, path, outer, v, i);
      } else {
        var f := p.inlinedCallee(site).value;
        UnseenPush(p, path, f);
        FunctionCodeTouched(p, f, path, outer);
        TouchedIsReached(p, FunctionCode(p, f), path + [f], outer, v);
        ReachedThroughCall(p, n, site, cs, path, f, v);
      }
    case Compound(cs) =>
      TouchedAllMember(p, cs, path, outer, v);
      var i :| 0 <= i < |cs| && v in Touched(p, cs[i], path, outer);
      TouchedIsReached(p, cs[i], path, outer, v);
      ReachedThroughChild(p, n, cs, path, outer, v, i);
    case FunctionDef(f) =>
      UnseenPush(p, path, f);
      FunctionCodeTouched(p, f, path, outer);
      TouchedIsReached(p, FunctionCode(p, f), path + [f], outer, v);
      ReachedThroughDefinition(p, f, path, v);
    case ModifierInvocation(m, args) =>
      if v in TouchedAll(p, args, path, outer) {
        TouchedAllMember(p, args, path, outer, v);
        var i :| 0 <= i < |args| && v in Touched(p, args[i], path, outer);
        TouchedIsReached(p, args[i], path, outer, v);
        ReachedThroughChild(p, n, args, path, outer, v, i);
      } else {
        TouchedIsReached(p, p.modifiers[m.value].body, path, outer, v);
        ReachedThroughModifier(p, m.value, args, path, v);
      }
    case Placeholder =>
      var fd := p.functions[path[|path| - 1]];
      assert p.FunctionValid(fd);
      TouchedIsReached(p, fd.body.value, path, outer, v);
      ReachedThroughPlaceholder(p, path, v);
  }

  /** The touched set, characterised: exactly the qualifying variables written
      by an identifier somewhere the visit of `n` reaches. */
  lemma TouchedCharacterised(p: Program, n: Node, path: seq<FunctionId>, outer: FunctionId, v: VariableDeclaration)
    requires Context(p, path, outer) && RefsValid(p, n)
    ensures v in Touched(p, n, path, outer) <==> Qualifies(p, v, outer) && WrittenAlongChain(p, n, path, v)
  {
    if v in Touched(p, n, path, outer) {
      TouchedIsReached(p, n, path, outer, v);
    }
    if Qualifies(p, v, outer) && WrittenAlongChain(p, n, path, v) {
      var steps, end, endPath :| Chain(p, n, path, steps, end, endPath) && v in WritesIn(end);
      ChainTouched(p, n, path, outer, steps, end, endPath);
      DirectWritesTouched(p, end, endPath, outer);
    }
  }

  /** The cycle guard: a call whose callee is already on the path adds only
      what its own children add. */
  lemma CallOnPathNotExpanded(p: Program, site: CallSite, cs: seq<Node>, path: seq<FunctionId>, outer: FunctionId)
    requires Context(p, path, outer) && RefsValidAll(p, cs)
    requires p.inlinedCallee(site).Some? && p.inlinedCallee(site).value in path
    ensures Touched(p, FunctionCall(site, cs), path, outer) == TouchedAll(p, cs, path, outer)
  {
  }

  /** A call the inlining policy does not resolve adds only what its children add. */
  lemma OpaqueCallNotExpanded(p: Program, site: CallSite, cs: seq<Node>, path: seq<FunctionId>, outer: FunctionId)
    requires Context(p, path, outer) && RefsValidAll(p, cs)
    requires p.inlinedCallee(site).None?
    ensures Touched(p, FunctionCall(site, cs), path, outer) == TouchedAll(p, cs, path, outer)
  {
  }

  /** An invocation whose name is not a modifier adds only what its arguments add. */
  lemma NonModifierInvocationNotExpanded(p: Program, args: seq<Node>, path: seq<FunctionId>, outer: FunctionId)
    requires Context(p, path, outer) && RefsValidAll(p, args)
    ensures Touched(p, ModifierInvocation(None, args), path, outer) == TouchedAll(p, args, path, outer)
  {
  }

  /** `n` with every placeholder replaced by `b`. */
  function Splice(n: Node, b: Node): Node {
    match n
    case FunctionCall(site, cs) => FunctionCall(site, SpliceAll(cs, b))
    case Compound(cs) => Compound(SpliceAll(cs, b))
    case ModifierInvocation(m, args) => ModifierInvocation(m, SpliceAll(args, b))
    case Placeholder => b
    case _ => n
  }

  function SpliceAll(ns: seq<Node>, b: Node): (r: seq<Node>)
    ensures |r| == |ns|
  {
    if ns == [] then [] else SpliceAll(ns[..|ns| - 1], b) + [Splice(ns[|ns| - 1], b)]
  }

  /** What a placeholder stands for: the innermost function's body, or nothing
      when that function is not implemented. */
  function InnermostBody(p: Program, path: seq<FunctionId>): Node
    requires PathValid(p, path) && |path| > 0
  {
    var fd := p.functions[path[|path| - 1]];
    if fd.IsImplemented() then fd.body.value else Compound([])
  }

  /** A placeholder behaves exactly as if the innermost function's body were
      spliced in at its place. */
  lemma {:induction false} PlaceholderIsSplicedBody(p: Program, n: Node, path: seq<FunctionId>, outer: FunctionId)
    requires Context(p, path, outer) && RefsValid(p, n)
    ensures RefsValid(p, Splice(n, InnermostBody(p, path)))
    ensures Touched(p, n, path, outer) == Touched(p, Splice(n, InnermostBody(p, path)), path, outer)
    decreases Size(n)
  {
    var b := InnermostBody(p, path);
    assert p.FunctionValid(p.functions[path[|path| - 1]]);
    match n
    case FunctionCall(site, cs) => PlaceholderIsSplicedBodyAll(p, cs, path, outer);
    case Compound(cs) => PlaceholderIsSplicedBodyAll(p, cs, path, outer);
    case ModifierInvocation(m, args) => PlaceholderIsSplicedBodyAll(p, args, path, outer);
    case Placeholder =>
      assert TouchedAll(p, [], path, outer) == {};
    case Identifier(_, _) =>
    case FunctionDef(_) =>
  }

  lemma {:induction false} PlaceholderIsSplicedBodyAll(p: Program, ns: seq<Node>, path: seq<FunctionId>, outer: FunctionId)
    requires Context(p, path, outer) && RefsValidAll(p, ns)
    ensures RefsValidAll(p, SpliceAll(ns, InnermostBody(p, path)))
    ensures TouchedAll(p, ns, path, outer) == TouchedAll(p, SpliceAll(ns, InnermostBody(p, path)), path, outer)
    decreases SizeAll(ns)
  {
    if ns != [] {
      var b := InnermostBody(p, path);
      var init, last := ns[..|ns| - 1], ns[|ns| - 1];
      PlaceholderIsSplicedBodyAll(p, init, path, outer);
      PlaceholderIsSplicedBody(p, last, path, outer);
      var s := SpliceAll(ns, b);
      assert s[..|s| - 1] == SpliceAll(init, b) && s[|s| - 1] == Splice(last, b);
    }
  }

  /** A modifier whose body is a single placeholder is transparent: the function
      it wraps touches what its own body touches. */
  lemma SinglePlaceholderModifierTransparent(p: Program, f: FunctionId, m: ModifierId, path: seq<FunctionId>, outer: FunctionId)
    requires Context(p, path, outer) && f < |p.functions| && m < |p.modifiers|
    requires p.functions[f].modifiers == [ModifierInvocation(Some(m), [])]
    requires p.modifiers[m].body == Placeholder
    requires p.functions[f].IsImplemented()
    ensures TouchedFunction(p, f, path, outer) == Touched(p, p.functions[f].body.value, path + [f], outer)
  {
    var inner := path + [f];
    var invocation := ModifierInvocation(Some(m), []);
    assert [invocation][..0] == [];
    assert TouchedAll(p, [], inner, outer) == {};
    assert Touched(p, invocation, inner, outer) == Touched(p, Placeholder, inner, outer);
  }

  /** The analysis object answers the same question the same way, whatever it
      was asked in between: its scratch state is reset on every entry. */
  method RepeatedAnalysisAgrees(p: Program, node: Node, stack: seq<FunctionId>,
                                otherNode: Node, otherStack: seq<FunctionId>)
    returns (first: set<VariableDeclaration>, second: set<VariableDeclaration>)
    requires p.Valid() && RefsValid(p, node) && RefsValid(p, otherNode)
    requires |stack| > 0 && PathValid(p, stack) && |otherStack| > 0 && PathValid(p, otherStack)
    ensures first == second
  {
    var usage := new VariableUsage(p);
    first := usage.TouchedVariables(node, stack);
    var _ := usage.TouchedVariables(otherNode, otherStack);
    second := usage.TouchedVariables(node, stack);
  }

  /** A written identifier adds its variable exactly when the write qualifies. */
  lemma WriteTouched(p: Program, v: VariableDeclaration, path: seq<FunctionId>, outer: FunctionId)
    requires Context(p, path, outer)
    ensures Touched(p, Identifier(Variable(v), true), path, outer) == if Qualifies(p, v, outer) then {v} else {}
  {
  }

  /** A read identifier adds nothing. */
  lemma ReadTouched(p: Program, v: VariableDeclaration, path: seq<FunctionId>, outer: FunctionId)
    requires Context(p, path, outer)
    ensures Touched(p, Identifier(Variable(v), false), path, outer) == {}
  {
  }

  /** Invoking a modifier adds what its arguments and its body add. */
  lemma ModifierTouched(p: Program, m: ModifierId, args: seq<Node>, path: seq<FunctionId>, outer: FunctionId)
    requires Context(p, path, outer) && m < |p.modifiers| && RefsValidAll(p, args)
    ensures RefsValid(p, p.modifiers[m].body)
    ensures Touched(p, ModifierInvocation(Some(m), args), path, outer) ==
      TouchedAll(p, args, path, outer) + Touched(p, p.modifiers[m].body, path, outer)
  {
  }

  /** Visiting a list with one more node adds that node's contribution. */
  lemma TouchedAllSnoc(p: Program, ns: seq<Node>, n: Node, path: seq<FunctionId>, outer: FunctionId)
    requires Context(p, path, outer) && RefsValidAll(p, ns) && RefsValid(p, n)
    ensures RefsValidAll(p, ns + [n])
    ensures TouchedAll(p, ns + [n], path, outer) == TouchedAll(p, ns, path, outer) + Touched(p, n, path, outer)
  {
    assert (ns + [n])[..|ns|] == ns;
  }

  lemma CompoundUnfold(p: Program, cs: seq<Node>, path: seq<FunctionId>, outer: FunctionId)
    requires Context(p, path, outer) && RefsValidAll(p, cs)
    ensures Touched(p, Compound(cs), path, outer) == TouchedAll(p, cs, path, outer)
  {
  }

  /** A two-statement block adds what its statements add. */
  lemma PairTouched(p: Program, a: Node, b: Node, path: seq<FunctionId>, outer: FunctionId)
    requires Context(p, path, outer) && RefsValid(p, a) && RefsValid(p, b)
    ensures RefsValid(p, Compound([a, b]))
    ensures Touched(p, Compound([a, b]), path, outer) == Touched(p, a, path, outer) + Touched(p, b, path, outer)
  {
    TouchedAllSnoc(p, [], a, path, outer);
    TouchedAllSnoc(p, [a], b, path, outer);
    assert [] + [a] == [a] && [a] + [b] == [a, b];
    CompoundUnfold(p, [a, b], path, outer);
  }

  /** A call the policy inlines to a function off the path adds that function's contribution. */
  lemma CallTouched(p: Program, site: CallSite, cs: seq<Node>, path: seq<FunctionId>, outer: FunctionId, f: FunctionId)
    requires Context(p, path, outer) && RefsValidAll(p, cs)
    requires p.inlinedCallee(site) == Some(f) && f !in path
    ensures f < |p.functions|
    ensures Touched(p, FunctionCall(site, cs), path, outer) ==
      TouchedAll(p, cs, path, outer) + TouchedFunction(p, f, path, outer)
  {
  }

  /** A function without modifiers adds what its body adds, with itself pushed. */
  lemma PlainFunctionTouched(p: Program, f: FunctionId, path: seq<FunctionId>, outer: FunctionId)
    requires Context(p, path, outer) && f < |p.functions|
    requires p.functions[f].modifiers == [] && p.functions[f].IsImplemented()
    ensures RefsValid(p, p.functions[f].body.value) && Context(p, path + [f], outer)
    ensures TouchedFunction(p, f, path, outer) == Touched(p, p.functions[f].body.value, path + [f], outer)
  {
    assert p.FunctionValid(p.functions[f]);
    assert TouchedAll(p, [], path + [f], outer) == {};
  }

  lemma PlaceholderUnfold(p: Program, path: seq<FunctionId>, outer: FunctionId)
    requires Context(p, path, outer)
    ensures Touched(p, Placeholder, path, outer) ==
      if p.functions[path[|path| - 1]].IsImplemented()
      then Touched(p, p.functions[path[|path| - 1]].body.value, path, outer) else {}
  {
  }

  // A function f(x) with local y writes x and y and calls g(), whose local z
  // and the state variable s it writes.
  const x := VariableDeclaration(1, true)
  const y := VariableDeclaration(2, true)
  const z := VariableDeclaration(3, true)
  const s := VariableDeclaration(4, false)

  function Write(v: VariableDeclaration): Node {
    Identifier(Variable(v), true)
  }

  function Read(v: VariableDeclaration): Node {
    Identifier(Variable(v), false)
  }

  /** The callee expression of the call to g. */
  function CalleeName(): Node {
    Identifier(OtherDeclaration(1), false)
  }

  function CallerBody(): Node {
    Compound([Compound([Write(x), Write(y)]), FunctionCall(0, [CalleeName()])])
  }

  function CalleeBody(): Node {
    Compound([Write(z), Write(s)])
  }

  /** f is function 0, g is function 1, and m (modifier 0) checks x and then
      runs the wrapped body. */
  function CallerCallee(): Program {
    Program(
      [FunctionDefinition([x], [], [y], [], Some(CallerBody())),
       FunctionDefinition([], [], [z], [], Some(CalleeBody()))],
      [ModifierDefinition(Compound([Read(x), Placeholder]))],
      site => if site == 0 then Some(1) else None)
  }

  lemma CallerCalleeValid()
    ensures CallerCallee().Valid()
    ensures RefsValid(CallerCallee(), CallerBody())
  {
    var p := CallerCallee();
    var writes := [Write(x), Write(y)];
    var call := [CalleeName()];
    assert RankAll(call) == 0 && RefsValidAll(p, call) by {
      assert call[..0] == [];
    }
    assert RankAll(writes) == 0 && RefsValidAll(p, writes) by {
      assert writes[..1] == [Write(x)] && [Write(x)][..0] == [];
    }
    var body := [Compound(writes), FunctionCall(0, call)];
    assert RankAll(body) == 0 && RefsValidAll(p, body) by {
      assert body[..1] == [Compound(writes)] && [Compound(writes)][..0] == [];
    }
    assert p.FunctionValid(p.functions[0]);
    var calleeWrites := [Write(z), Write(s)];
    assert RankAll(calleeWrites) == 0 by {
      assert calleeWrites[..1] == [Write(z)] && [Write(z)][..0] == [];
    }
    assert p.FunctionValid(p.functions[1]);
    var checks := [Read(x), Placeholder];
    assert RankAll(checks) == 1 by {
      assert checks[..1] == [Read(x)] && [Read(x)][..0] == [];
    }
    assert RefsValidAll(p, checks);
    assert Rank(p.modifiers[0].body) <= 1;
  }

  /** Of g's writes only the state variable counts when f is the outer function. */
  lemma CalleeBodyTouched()
    ensures CallerCallee().Valid()
    ensures Touched(CallerCallee(), CalleeBody(), [0, 1], 0) == {s}
  {
    var p := CallerCallee();
    CallerCalleeValid();
    PairTouched(p, Write(z), Write(s), [0, 1], 0);
    WriteTouched(p, z, [0, 1], 0);
    WriteTouched(p, s, [0, 1], 0);
  }

  lemma CallOfCalleeTouched()
    ensures CallerCallee().Valid()
    ensures Touched(CallerCallee(), FunctionCall(0, [CalleeName()]), [0], 0) == {s}
  {
    var p := CallerCallee();
    CalleeBodyTouched();
    CallTouched(p, 0, [CalleeName()], [0], 0, 1);
    PlainFunctionTouched(p, 1, [0], 0);
    assert [0] + [1] == [0, 1];
    TouchedAllSnoc(p, [], CalleeName(), [0], 0);
    assert [] + [CalleeName()] == [CalleeName()];
  }

  /** Writes in f and the state write in g are recorded; g's local z is not. */
  lemma CallerCalleeTouched()
    ensures CallerCallee().Valid()
    ensures RefsValid(CallerCallee(), CallerBody())
    ensures Touched(CallerCallee(), CallerBody(), [0], 0) == {x, y, s}
  {
    var p := CallerCallee();
    CallerCalleeValid();
    CallOfCalleeTouched();
    var writes := Compound([Write(x), Write(y)]);
    PairTouched(p, Write(x), Write(y), [0], 0);
    WriteTouched(p, x, [0], 0);
    WriteTouched(p, y, [0], 0);
    PairTouched(p, writes, FunctionCall(0, [CalleeName()]), [0], 0);
  }

  /** A placeholder inside f's modifier stands for f's body. */
  lemma PlaceholderInCallerTouched()
    ensures CallerCallee().Valid()
    ensures Touched(CallerCallee(), Placeholder, [0], 0) == {x, y, s}
  {
    var p := CallerCallee();
    CallerCalleeTouched();
    PlaceholderUnfold(p, [0], 0);
  }

  /** The modifier only reads x, so it adds what its placeholder adds. */
  lemma ModifierOfCallerTouched()
    ensures CallerCallee().Valid()
    ensures Touched(CallerCallee(), ModifierInvocation(Some(0), []), [0], 0) == {x, y, s}
  {
    var p := CallerCallee();
    PlaceholderInCallerTouched();
    PairTouched(p, Read(x), Placeholder, [0], 0);
    ReadTouched(p, x, [0], 0);
    ModifierTouched(p, 0, [], [0], 0);
  }

  // Two functions a and b that call each other, each writing a state variable.
  const sa := VariableDeclaration(5, false)
  const sb := VariableDeclaration(6, false)

  function MutualBody(v: VariableDeclaration, site: CallSite): Node {
    Compound([Write(v), FunctionCall(site, [])])
  }

  function MutualRecursion(): Program {
    Program(
      [FunctionDefinition([], [], [], [], Some(MutualBody(sa, 0))),
       FunctionDefinition([], [], [], [], Some(MutualBody(sb, 1)))],
      [],
      site => if site == 0 then Some(1) else if site == 1 then Some(0) else None)
  }

  lemma MutualRecursionValid()
    ensures MutualRecursion().Valid()
  {
    var p := MutualRecursion();
    assert [Write(sa), FunctionCall(0, [])][..1] == [Write(sa)];
    assert [Write(sb), FunctionCall(1, [])][..1] == [Write(sb)];
    assert p.FunctionValid(p.functions[0]) && p.FunctionValid(p.functions[1]);
  }

  /** Cycle termination: analysing a (path [a]) inlines b once; b's call back
      to a is on the path and is not expanded. */
  lemma MutualRecursionTouched()
    ensures MutualRecursion().Valid()
    ensures Touched(MutualRecursion(), MutualBody(sa, 0), [0], 0) == {sa, sb}
  {
    var p := MutualRecursion();
    MutualRecursionValid();
    PairTouched(p, Write(sb), FunctionCall(1, []), [0, 1], 0);
    WriteTouched(p, sb, [0, 1], 0);
    CallOnPathNotExpanded(p, 1, [], [0, 1], 0);
    PlainFunctionTouched(p, 1, [0], 0);
    assert [0] + [1] == [0, 1];
    CallTouched(p, 0, [], [0], 0, 1);
    PairTouched(p, Write(sa), FunctionCall(0, []), [0], 0);
    WriteTouched(p, sa, [0], 0);
  }
}
